/** What the archives must look like for each outcome of the boundary search of
    crates/grith-audit/src/retention.rs, in terms of the lines on disk. */
module ArchiveVerdicts {
  import opened Basics
  import opened Sorting
  import opened Chain
  import opened ChainStore
  import opened ColdFiles
  import opened BoundaryRecovery

  // ---------- A file's lines ----------

  /** The first line with this sequence. */
  predicate FirstAt(lines: seq<Cold>, i: int, n: int) {
    && 0 <= i < |lines| && lines[i].chainSequence == Some(n)
    && forall j :: 0 <= j < i ==> lines[j].chainSequence != Some(n)
  }

  predicate LastAt(lines: seq<Cold>, i: int, n: int) {
    && 0 <= i < |lines| && lines[i].chainSequence == Some(n)
    && forall j :: i < j < |lines| ==> lines[j].chainSequence != Some(n)
  }

  /** Every line with a sequence stores the hash its own content gives. */
  ghost predicate OwnHashes(h: Hasher, lines: seq<Cold>) {
    forall i :: 0 <= i < |lines| && lines[i].chainSequence.Some? ==>
      lines[i].recordHash == Some(h(lines[i].content, lines[i].chainSequence.value, lines[i].prevHash))
  }

  /** Where two sequences follow each other, the later line names the hash of the earlier one; of lines
      written more than once, the last of the earlier and the first of the later sequence. */
  ghost predicate LinksHold(lines: seq<Cold>) {
    forall i, j, n, m :: LastAt(lines, i, n) && FirstAt(lines, j, m) && m == n + 1 ==>
      lines[j].prevHash == lines[i].recordHash
  }

  // ---------- The check for breaks ----------

  ghost predicate InOrderLinks(s: seq<Cold>, prev: Option<Cold>) {
    && (forall k :: 0 < k < |s| && Sequence(s[k - 1]) + 1 == Sequence(s[k]) ==> s[k].prevHash == s[k - 1].recordHash)
    && (s != [] && prev.Some? && Sequence(prev.value) + 1 == Sequence(s[0]) ==>
          s[0].prevHash == prev.value.recordHash)
  }

  ghost predicate AllOwn(h: Hasher, s: seq<Cold>) {
    forall k :: 0 <= k < |s| ==> s[k].recordHash == Some(h(s[k].content, Sequence(s[k]), s[k].prevHash))
  }

  lemma {:induction false} BreakMeaning(h: Hasher, s: seq<Cold>, prev: Option<Cold>)
    ensures BreakIn(h, s, prev).None? <==> AllOwn(h, s) && InOrderLinks(s, prev)
  {
    if s != [] {
      BreakMeaning(h, s[1..], Some(s[0]));
      OwnSplits(h, s);
      LinksSplit(s, prev);
    }
  }

  lemma OwnSplits(h: Hasher, s: seq<Cold>)
    requires s != []
    ensures AllOwn(h, s) <==>
      s[0].recordHash == Some(h(s[0].content, Sequence(s[0]), s[0].prevHash)) && AllOwn(h, s[1..])
  {
    assert forall k :: 0 < k < |s| ==> s[k] == s[1..][k - 1];
  }

  lemma LinksSplit(s: seq<Cold>, prev: Option<Cold>)
    requires s != []
    ensures InOrderLinks(s, prev) <==>
      && (prev.Some? && Sequence(prev.value) + 1 == Sequence(s[0]) ==> s[0].prevHash == prev.value.recordHash)
      && InOrderLinks(s[1..], Some(s[0]))
  {
    assert forall k :: 0 < k < |s| ==> s[k] == s[1..][k - 1];
  }

  // ---------- Sequence order and file order ----------

  function At(n: int): Cold -> bool { (c: Cold) => c.chainSequence == Some(n) }

  lemma SequenceLeqIsPreorder()
    ensures Preorder(SequenceLeq)
  {
  }

  /** The lines of one sequence keep their order. */
  lemma SortKeepsOneSequence(lines: seq<Cold>, n: int)
    ensures Filter(InOrder(lines), At(n)) == Filter(lines, At(n))
  {
    SequenceLeqIsPreorder();
    FilterSort(Filter(lines, HasSequence), At(n), SequenceLeq);
    FilterTwice(lines, HasSequence, At(n));
    FilterElements(lines, At(n));
    assert forall i :: 0 <= i < |Filter(lines, At(n))| ==> Filter(lines, At(n))[i] in Filter(lines, At(n));
    SortFixesSorted(Filter(lines, At(n)), SequenceLeq);
  }

  lemma FirstIsFirst(lines: seq<Cold>, i: int, n: int)
    requires FirstAt(lines, i, n)
    ensures Filter(lines, At(n)) != [] && Filter(lines, At(n))[0] == lines[i]
  {
    FilterNone(lines[..i], At(n));
    assert lines == lines[..i] + lines[i..];
    FilterConcat(lines[..i], lines[i..], At(n));
  }

  lemma LastIsLast(lines: seq<Cold>, i: int, n: int)
    requires LastAt(lines, i, n)
    ensures Filter(lines, At(n)) != [] && Filter(lines, At(n))[|Filter(lines, At(n))| - 1] == lines[i]
  {
    FilterNone(lines[i + 1..], At(n));
    assert lines == lines[..i] + [lines[i]] + lines[i + 1..];
    FilterConcat(lines[..i] + [lines[i]], lines[i + 1..], At(n));
    FilterConcat(lines[..i], [lines[i]], At(n));
    assert [lines[i]][1..] == [];
    assert Filter([lines[i]], At(n)) == [lines[i]];
  }

  lemma {:induction false} FirstExists(lines: seq<Cold>, n: int) returns (i: int)
    requires exists k :: 0 <= k < |lines| && lines[k].chainSequence == Some(n)
    ensures FirstAt(lines, i, n)
  {
    if lines[0].chainSequence == Some(n) {
      i := 0;
    } else {
      var k :| 0 <= k < |lines| && lines[k].chainSequence == Some(n);
      assert lines[1..][k - 1] == lines[k];
      var j := FirstExists(lines[1..], n);
      i := j + 1;
      assert forall l :: 0 < l < i ==> lines[l] == lines[1..][l - 1];
    }
  }

  lemma {:induction false} LastExists(lines: seq<Cold>, n: int) returns (i: int)
    requires exists k :: 0 <= k < |lines| && lines[k].chainSequence == Some(n)
    ensures LastAt(lines, i, n)
  {
    var last := |lines| - 1;
    if lines[last].chainSequence == Some(n) {
      i := last;
    } else {
      var k :| 0 <= k < |lines| && lines[k].chainSequence == Some(n);
      assert lines[..last][k] == lines[k];
      i := LastExists(lines[..last], n);
    }
  }

  /** In sequence order, neighbours of different sequences are the last and the first of theirs. */
  lemma NeighboursAreEnds(s: seq<Cold>, k: int, n: int)
    requires SortedBy(s, SequenceLeq) && 0 < k < |s| && forall c :: c in s ==> HasSequence(c)
    requires s[k - 1].chainSequence == Some(n) && s[k].chainSequence == Some(n + 1)
    ensures LastAt(s, k - 1, n) && FirstAt(s, k, n + 1)
  {
    forall j | k - 1 < j < |s| ensures s[j].chainSequence != Some(n) {
      assert j == k || SequenceLeq(s[k], s[j]);
    }
    forall j | 0 <= j < k ensures s[j].chainSequence != Some(n + 1) {
      assert j == k - 1 || SequenceLeq(s[j], s[k - 1]);
    }
  }

  /** Two sequences that follow each other meet somewhere in sequence order. */
  lemma Meet(s: seq<Cold>, a: int, b: int, n: int) returns (k: int)
    requires SortedBy(s, SequenceLeq) && 0 <= a < |s| && 0 <= b < |s| && forall c :: c in s ==> HasSequence(c)
    requires s[a].chainSequence == Some(n) && s[b].chainSequence == Some(n + 1)
    ensures 0 < k < |s| && s[k - 1].chainSequence == Some(n) && s[k].chainSequence == Some(n + 1)
  {
    assert b < a ==> SequenceLeq(s[b], s[a]);
    k := a + 1;
    while s[k].chainSequence == Some(n)
      invariant a < k <= b && s[k - 1].chainSequence == Some(n)
      decreases b - k
    {
      k := k + 1;
    }
    assert s[k] in s && SequenceLeq(s[k - 1], s[k]) && (k == b || SequenceLeq(s[k], s[b]));
  }

  lemma InOrderFacts(lines: seq<Cold>)
    ensures SortedBy(InOrder(lines), SequenceLeq)
    ensures forall c :: c in InOrder(lines) <==> c in lines && HasSequence(c)
  {
    SequenceLeqIsPreorder();
    FilterElements(lines, HasSequence);
    SortSorts(Filter(lines, HasSequence), SequenceLeq);
    SortKeepsElements(Filter(lines, HasSequence), SequenceLeq);
  }

  /** The ends of one sequence are the same lines in both orders. */
  lemma SameEnds(lines: seq<Cold>, i: int, k: int, n: int)
    ensures LastAt(lines, i, n) && LastAt(InOrder(lines), k, n) ==> lines[i] == InOrder(lines)[k]
    ensures FirstAt(lines, i, n) && FirstAt(InOrder(lines), k, n) ==> lines[i] == InOrder(lines)[k]
  {
    SortKeepsOneSequence(lines, n);
    if LastAt(lines, i, n) && LastAt(InOrder(lines), k, n) {
      LastIsLast(lines, i, n);
      LastIsLast(InOrder(lines), k, n);
    }
    if FirstAt(lines, i, n) && FirstAt(InOrder(lines), k, n) {
      FirstIsFirst(lines, i, n);
      FirstIsFirst(InOrder(lines), k, n);
    }
  }

  lemma LinkFollows(lines: seq<Cold>, i: int, j: int, n: int)
    requires InOrderLinks(InOrder(lines), None) && LastAt(lines, i, n) && FirstAt(lines, j, n + 1)
    ensures lines[j].prevHash == lines[i].recordHash
  {
    var s := InOrder(lines);
    InOrderFacts(lines);
    assert lines[i] in s && lines[j] in s;
    var a :| 0 <= a < |s| && s[a] == lines[i];
    var b :| 0 <= b < |s| && s[b] == lines[j];
    var k := Meet(s, a, b, n);
    NeighboursAreEnds(s, k, n);
    SameEnds(lines, i, k - 1, n);
    SameEnds(lines, j, k, n + 1);
  }

  lemma NeighbourFollows(lines: seq<Cold>, k: int)
    requires LinksHold(lines) && 0 < k < |InOrder(lines)|
    requires Sequence(InOrder(lines)[k - 1]) + 1 == Sequence(InOrder(lines)[k])
    ensures InOrder(lines)[k].prevHash == InOrder(lines)[k - 1].recordHash
  {
    var s := InOrder(lines);
    InOrderFacts(lines);
    assert s[k - 1] in s && s[k] in s;
    var n := Sequence(s[k - 1]);
    NeighboursAreEnds(s, k, n);
    var i := LastExists(lines, n);
    var j := FirstExists(lines, n + 1);
    SameEnds(lines, i, k - 1, n);
    SameEnds(lines, j, k, n + 1);
  }

  /** The check passes a file exactly when its lines carry their own hashes and its links hold. */
  lemma NoBreakIff(h: Hasher, lines: seq<Cold>)
    ensures BreakIn(h, InOrder(lines), None).None? <==> OwnHashes(h, lines) && LinksHold(lines)
  {
    var s := InOrder(lines);
    BreakMeaning(h, s, None);
    OwnInOrder(h, lines);
    if InOrderLinks(s, None) {
      forall i, j, n, m | LastAt(lines, i, n) && FirstAt(lines, j, m) && m == n + 1
        ensures lines[j].prevHash == lines[i].recordHash
      {
        LinkFollows(lines, i, j, n);
      }
    }
    if LinksHold(lines) {
      forall k | 0 < k < |s| && Sequence(s[k - 1]) + 1 == Sequence(s[k]) ensures s[k].prevHash == s[k - 1].recordHash {
        NeighbourFollows(lines, k);
      }
    }
  }

  lemma OwnInOrder(h: Hasher, lines: seq<Cold>)
    ensures AllOwn(h, InOrder(lines)) <==> OwnHashes(h, lines)
  {
    var s := InOrder(lines);
    InOrderFacts(lines);
    if AllOwn(h, s) {
      forall i | 0 <= i < |lines| && lines[i].chainSequence.Some?
        ensures lines[i].recordHash == Some(h(lines[i].content, lines[i].chainSequence.value, lines[i].prevHash))
      {
        assert lines[i] in s;
        var k :| 0 <= k < |s| && s[k] == lines[i];
      }
    }
    if OwnHashes(h, lines) {
      forall k | 0 <= k < |s| ensures s[k].recordHash == Some(h(s[k].content, Sequence(s[k]), s[k].prevHash)) {
        assert s[k] in s;
        var i :| 0 <= i < |lines| && lines[i] == s[k];
      }
    }
  }

  // ---------- The outcomes ----------

  ghost predicate HoldsSequence(f: ColdFile, n: int) {
    exists k :: 0 <= k < |Lines(f.frames)| && Lines(f.frames)[k].chainSequence == Some(n)
  }

  /** The newest file with a line of this sequence. */
  ghost predicate Newest(files: Files, i: int, n: int) {
    0 <= i < |files| && HoldsSequence(files[i], n) && forall j :: i < j < |files| ==> !HoldsSequence(files[j], n)
  }

  lemma FindsFirst(lines: seq<Cold>, n: int, k: int)
    requires FirstAt(lines, k, n)
    ensures FindSequence(lines, n) == Some(lines[k])
    decreases k
  {
    if k > 0 {
      assert FirstAt(lines[1..], k - 1, n);
      FindsFirst(lines[1..], n, k - 1);
    }
  }

  lemma {:induction false} SearchReaches(h: Hasher, files: Files, n: int, firstPrev: Option<string>, i: int)
    requires Newest(files, i, n)
    ensures FindSequence(Lines(files[i].frames), n).Some?
    ensures ResolveIn(h, files, n, firstPrev)
         == Judge(h, files[i], FindSequence(Lines(files[i].frames), n).value, n, firstPrev)
  {
    var last := |files| - 1;
    HeldIsFound(files[last], n);
    if i < last {
      OlderNewest(files, i, n);
      SearchReaches(h, files[..last], n, firstPrev, i);
    }
  }

  lemma HeldIsFound(f: ColdFile, n: int)
    ensures HoldsSequence(f, n) <==> FindSequence(Lines(f.frames), n).Some?
  {
    FindSequenceMeaning(Lines(f.frames), n);
    if FindSequence(Lines(f.frames), n).Some? {
      var c := FindSequence(Lines(f.frames), n).value;
      var k :| 0 <= k < |Lines(f.frames)| && Lines(f.frames)[k] == c;
    }
  }

  lemma OlderNewest(files: Files, i: int, n: int)
    requires Newest(files, i, n) && i < |files| - 1
    ensures Newest(files[..|files| - 1], i, n) && files[..|files| - 1][i] == files[i]
    ensures !HoldsSequence(files[|files| - 1], n)
  {
    var older := files[..|files| - 1];
    assert older[i] == files[i];
    forall j | i < j < |older| ensures !HoldsSequence(older[j], n) {
      assert older[j] == files[j];
    }
  }

  lemma {:induction false} SearchFails(h: Hasher, files: Files, n: int, firstPrev: Option<string>)
    requires forall i :: 0 <= i < |files| ==> !HoldsSequence(files[i], n)
    ensures ResolveIn(h, files, n, firstPrev) == BoundaryResolution.Unresolved
  {
    if files != [] {
      HeldIsFound(files[|files| - 1], n);
      SearchFails(h, files[..|files| - 1], n, firstPrev);
    }
  }

  /** What the newest file with the predecessor decides: line `k` is its first one with that sequence. */
  lemma NewestDecides(h: Hasher, files: Files, first: int, firstPrev: Option<string>, i: int, k: int)
    requires first > 1 && Newest(files, i, first - 1) && FirstAt(Lines(files[i].frames), k, first - 1)
    ensures
      var lines := Lines(files[i].frames);
      var r := ResolveBoundary(h, files, first, firstPrev);
      if lines[k].recordHash.None? then r == BoundaryResolution.Unresolved
      else if h(lines[k].content, first - 1, lines[k].prevHash) != lines[k].recordHash.value then
        r == TamperedArchive(first - 1, lines[k].recordHash.value, h(lines[k].content, first - 1, lines[k].prevHash),
                             files[i].date)
      else if !OwnHashes(h, lines) || !LinksHold(lines) then r.TamperedArchive? && r.archive == files[i].date
      else if firstPrev != lines[k].recordHash then r == Mismatch(first - 1, lines[k].recordHash.value, firstPrev)
      else r == Resolved(Boundary(first - 1, lines[k].recordHash.value))
  {
    var lines := Lines(files[i].frames);
    SearchReaches(h, files, first - 1, firstPrev, i);
    FindsFirst(lines, first - 1, k);
    NoBreakIff(h, lines);
  }

  /** Line `k` of file `i` is where the search ends; it stores the hash the segment names, and nothing in
      that file was tampered with. */
  ghost predicate Vouched(h: Hasher, files: Files, i: int, k: int, n: int, firstPrev: Option<string>) {
    && Newest(files, i, n) && FirstAt(Lines(files[i].frames), k, n)
    && Lines(files[i].frames)[k].recordHash == firstPrev
    && OwnHashes(h, Lines(files[i].frames)) && LinksHold(Lines(files[i].frames))
  }

  /** A boundary is resolved exactly when the newest file with the predecessor carries the segment's
      predecessor hash there, every line of that file with a sequence carries its own hash, and its
      links hold; nothing else an archive may hold makes the search adopt an anchor. */
  lemma ResolvedIff(h: Hasher, files: Files, first: int, firstPrev: Option<string>, b: Boundary)
    ensures ResolveBoundary(h, files, first, firstPrev) == Resolved(b) <==>
      && first > 1 && b.lastArchivedSequence == first - 1 && firstPrev == Some(b.lastArchivedRecordHash)
      && var n := first - 1;
         exists i, k :: Vouched(h, files, i, k, n, firstPrev)
  {
    var n := first - 1;
    if first > 1 {
      if exists i, k :: Vouched(h, files, i, k, n, firstPrev) {
        var i, k :| Vouched(h, files, i, k, n, firstPrev);
        NewestDecides(h, files, first, firstPrev, i, k);
      } else if exists i :: 0 <= i < |files| && HoldsSequence(files[i], first - 1) {
        var i := NewestExists(files, first - 1);
        var k := FirstExists(Lines(files[i].frames), first - 1);
        NewestDecides(h, files, first, firstPrev, i, k);
        assert !Vouched(h, files, i, k, n, firstPrev);
      } else {
        SearchFails(h, files, first - 1, firstPrev);
      }
    }
  }

  lemma {:induction false} NewestExists(files: Files, n: int) returns (i: int)
    requires exists j :: 0 <= j < |files| && HoldsSequence(files[j], n)
    ensures Newest(files, i, n)
  {
    var last := |files| - 1;
    if HoldsSequence(files[last], n) {
      i := last;
    } else {
      var j :| 0 <= j < |files| && HoldsSequence(files[j], n);
      assert files[..last][j] == files[j];
      i := NewestExists(files[..last], n);
    }
  }

  /** A first active sequence needs no boundary; without any archived predecessor there is none. */
  lemma NothingToResolve(h: Hasher, files: Files, first: int, firstPrev: Option<string>)
    ensures ResolveBoundary(h, files, first, firstPrev) == NotNeeded <==> first <= 1
    ensures first > 1 && (forall i :: 0 <= i < |files| ==> !HoldsSequence(files[i], first - 1)) ==>
      ResolveBoundary(h, files, first, firstPrev) == BoundaryResolution.Unresolved
  {
    if first > 1 {
      if forall i :: 0 <= i < |files| ==> !HoldsSequence(files[i], first - 1) {
        SearchFails(h, files, first - 1, firstPrev);
      } else {
        var i := NewestExists(files, first - 1);
        var k := FirstExists(Lines(files[i].frames), first - 1);
        NewestDecides(h, files, first, firstPrev, i, k);
      }
    }
  }
}
