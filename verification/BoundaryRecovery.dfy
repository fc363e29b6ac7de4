/** Re-deriving the archive boundary from cold storage: `resolve_boundary_from_archives` and
    `first_internal_break` of crates/grith-audit/src/retention.rs. */
module BoundaryRecovery {
  import opened Basics
  import opened Sorting
  import opened Chain
  import opened ChainStore
  import opened ColdFiles
  import opened Retention

  datatype BoundaryResolution =
    | NotNeeded
    | TamperedArchive(boundarySequence: int, storedHash: string, recomputedHash: string, archive: int)
    | Resolved(boundary: Boundary)
    | Mismatch(boundarySequence: int, archivedHash: string, foundPrevHash: Option<string>)
    | Unresolved

  // ---------- Breaks inside one file ----------

  predicate HasSequence(c: Cold) { c.chainSequence.Some? }

  function Sequence(c: Cold): int { if c.chainSequence.Some? then c.chainSequence.value else 0 }

  predicate SequenceLeq(a: Cold, b: Cold) { Sequence(a) <= Sequence(b) }

  /** The first record that does not carry its own hash, or does not name the hash of the record
      before it although the two are neighbours. */
  function BreakIn(h: Hasher, rest: seq<Cold>, prev: Option<Cold>): Option<int> {
    if rest == [] then None
    else if rest[0].recordHash != Some(h(rest[0].content, Sequence(rest[0]), rest[0].prevHash))
      then Some(Sequence(rest[0]))
    else if prev.Some? && Sequence(prev.value) + 1 == Sequence(rest[0]) && rest[0].prevHash != prev.value.recordHash
    then Some(Sequence(rest[0]))
    else BreakIn(h, rest[1..], Some(rest[0]))
  }

  function InOrder(lines: seq<Cold>): seq<Cold> { Sort(Filter(lines, HasSequence), SequenceLeq) }

  method FirstInternalBreak(h: Hasher, lines: seq<Cold>) returns (broken: Option<int>)
    ensures broken == BreakIn(h, InOrder(lines), None)
  {
    var chained := InOrder(lines);
    var prev: Option<Cold> := None;
    assert chained[0..] == chained;
    for i := 0 to |chained|
      invariant BreakIn(h, chained[i..], prev) == BreakIn(h, chained, None)
    {
      var record := chained[i];
      assert chained[i..][0] == record && chained[i..][1..] == chained[i + 1..];
      if record.recordHash != Some(h(record.content, Sequence(record), record.prevHash)) {
        return Some(Sequence(record));
      }
      if prev.Some? {
        if Sequence(prev.value) + 1 == Sequence(record) && record.prevHash != prev.value.recordHash {
          return Some(Sequence(record));
        }
      }
      prev := Some(record);
    }
    broken := None;
  }

  // ---------- The search ----------

  function FindSequence(lines: seq<Cold>, target: int): Option<Cold> {
    if lines == [] then None
    else if lines[0].chainSequence == Some(target) then Some(lines[0])
    else FindSequence(lines[1..], target)
  }

  /** What the file that holds the predecessor decides. */
  function Judge(
    h: Hasher, f: ColdFile, predecessor: Cold, target: int, firstPrev: Option<string>): BoundaryResolution
  {
    var stored := predecessor.recordHash;
    var recomputed := h(predecessor.content, target, predecessor.prevHash);
    var broken := BreakIn(h, InOrder(Lines(f.frames)), None);
    if stored.None? then BoundaryResolution.Unresolved
    else if recomputed != stored.value then TamperedArchive(target, stored.value, recomputed, f.date)
    else if broken.Some? then TamperedArchive(broken.value, "", "", f.date)
    else if firstPrev != stored then Mismatch(target, stored.value, firstPrev)
    else Resolved(Boundary(target, stored.value))
  }

  /** Newest file first. */
  function ResolveIn(h: Hasher, files: Files, target: int, firstPrev: Option<string>): BoundaryResolution {
    if files == [] then BoundaryResolution.Unresolved
    else
      var f := files[|files| - 1];
      match FindSequence(Lines(f.frames), target)
      case Some(predecessor) => Judge(h, f, predecessor, target, firstPrev)
      case None => ResolveIn(h, files[..|files| - 1], target, firstPrev)
  }

  function ResolveBoundary(h: Hasher, files: Files, first: int, firstPrev: Option<string>): BoundaryResolution {
    if first <= 1 then NotNeeded else ResolveIn(h, files, first - 1, firstPrev)
  }

  method FindLine(lines: seq<Cold>, target: int) returns (found: Option<Cold>)
    ensures found == FindSequence(lines, target)
  {
    assert lines[0..] == lines;
    for i := 0 to |lines|
      invariant FindSequence(lines[i..], target) == FindSequence(lines, target)
    {
      assert lines[i..][0] == lines[i] && lines[i..][1..] == lines[i + 1..];
      if lines[i].chainSequence == Some(target) {
        return Some(lines[i]);
      }
    }
    found := None;
  }

  method ResolveBoundaryFromArchives(h: Hasher, files: Files, first: int, firstPrev: Option<string>)
    returns (r: BoundaryResolution)
    ensures r == ResolveBoundary(h, files, first, firstPrev)
  {
    if first <= 1 {
      return NotNeeded;
    }
    var target := first - 1;
    var i := |files|;
    assert files[..i] == files;
    while i > 0
      invariant 0 <= i <= |files|
      invariant ResolveIn(h, files[..i], target, firstPrev) == ResolveIn(h, files, target, firstPrev)
    {
      assert files[..i][..i - 1] == files[..i - 1] && files[..i][i - 1] == files[i - 1];
      i := i - 1;
      var lines := Lines(files[i].frames);
      var found := FindLine(lines, target);
      if found.None? {
        continue;
      }
      var predecessor := found.value;
      if predecessor.recordHash.None? {
        return BoundaryResolution.Unresolved;
      }
      var stored := predecessor.recordHash.value;
      var recomputed := h(predecessor.content, target, predecessor.prevHash);
      if recomputed != stored {
        return TamperedArchive(target, stored, recomputed, files[i].date);
      }
      var broken := FirstInternalBreak(h, lines);
      if broken.Some? {
        return TamperedArchive(broken.value, "", "", files[i].date);
      }
      if firstPrev != Some(stored) {
        return Mismatch(target, stored, firstPrev);
      }
      return Resolved(Boundary(target, stored));
    }
    r := BoundaryResolution.Unresolved;
  }

  // ---------- What a resolved boundary is good for ----------

  lemma {:induction false} ResolvedJoins(h: Hasher, files: Files, target: int, firstPrev: Option<string>)
    requires ResolveIn(h, files, target, firstPrev).Resolved?
    ensures ResolveIn(h, files, target, firstPrev).boundary.lastArchivedSequence == target
    ensures firstPrev == Some(ResolveIn(h, files, target, firstPrev).boundary.lastArchivedRecordHash)
  {
    var f := files[|files| - 1];
    if FindSequence(Lines(f.frames), target).None? {
      ResolvedJoins(h, files[..|files| - 1], target, firstPrev);
    }
  }

  /** Whatever the archives hold, a resolved boundary anchors the segment it was resolved for. */
  lemma ResolvedAnchors(h: Hasher, files: Files, s: Store)
    requires Segment(s.table) != []
    requires ResolveBoundary(h, files, Key(Segment(s.table)[0]), Segment(s.table)[0].prevHash).Resolved?
    ensures
      var b := ResolveBoundary(h, files, Key(Segment(s.table)[0]), Segment(s.table)[0].prevHash).boundary;
      ResolveAnchor(s.table, Some(b)) == Anchored(b)
  {
    ResolvedJoins(h, files, Key(Segment(s.table)[0]) - 1, Segment(s.table)[0].prevHash);
  }

  // ---------- Archives that retention wrote ----------

  /** One unbroken chain of records from genesis. */
  predicate ColdLinked(h: Hasher, records: seq<Cold>, start: int, seed: Option<string>) {
    records == [] ||
    (&& records[0].chainSequence == Some(start + 1) && records[0].prevHash == seed
     && records[0].recordHash == Some(h(records[0].content, start + 1, seed))
     && ColdLinked(h, records[1..], start + 1, records[0].recordHash))
  }

  lemma {:induction false} ColdLinkedAt(h: Hasher, records: seq<Cold>, start: int, seed: Option<string>, k: nat)
    requires ColdLinked(h, records, start, seed) && k < |records|
    ensures records[k].chainSequence == Some(start + 1 + k) && Authentic(h, records[k])
    ensures records[k].prevHash == if k == 0 then seed else records[k - 1].recordHash
  {
    if k > 0 {
      ColdLinkedAt(h, records[1..], start + 1, records[0].recordHash, k - 1);
    }
  }

  lemma {:induction false} ColdLinkedConcat(
    h: Hasher, a: seq<Cold>, b: seq<Cold>, start: int, seed: Option<string>, at: int, hash: Option<string>)
    requires ColdLinked(h, a, start, seed) && ColdLinked(h, b, at, hash)
    requires at == start + |a| && hash == if a == [] then seed else a[|a| - 1].recordHash
    ensures ColdLinked(h, a + b, start, seed)
  {
    if a == [] {
      assert a + b == b;
    } else {
      ColdLinkedConcat(h, a[1..], b, start + 1, a[0].recordHash, at, hash);
      assert (a + b)[1..] == a[1..] + b;
    }
  }

  lemma {:induction false} ArchivedLinked(h: Hasher, rows: seq<Row>, start: int, seed: Option<string>)
    requires Linked(h, rows, start, seed)
    ensures ColdLinked(h, Map(rows, Archived), start, seed)
  {
    if rows != [] {
      ArchivedLinked(h, rows[1..], start + 1, rows[0].recordHash);
      assert Map(rows, Archived)[1..] == Map(rows[1..], Archived);
    }
  }

  predicate AllFrom(records: seq<Cold>, history: seq<Cold>) {
    forall c :: c in records ==> c in history
  }

  /** Records of one unbroken chain show no internal break, in whatever order and however often. */
  lemma {:induction false} NoBreak(h: Hasher, history: seq<Cold>, rest: seq<Cold>, prev: Option<Cold>)
    requires ColdLinked(h, history, 0, None) && AllFrom(rest, history) && (prev.Some? ==> prev.value in history)
    ensures BreakIn(h, rest, prev) == None
  {
    if rest != [] {
      assert rest[0] in rest;
      var k :| 0 <= k < |history| && history[k] == rest[0];
      ColdLinkedAt(h, history, 0, None, k);
      if prev.Some? {
        var j :| 0 <= j < |history| && history[j] == prev.value;
        ColdLinkedAt(h, history, 0, None, j);
      }
      NoBreak(h, history, rest[1..], Some(rest[0]));
    }
  }

  lemma {:induction false} FindSequenceMeaning(lines: seq<Cold>, target: int)
    ensures match FindSequence(lines, target)
            case Some(c) => c in lines && c.chainSequence == Some(target)
            case None => forall c :: c in lines ==> c.chainSequence != Some(target)
  {
    if lines != [] {
      FindSequenceMeaning(lines[1..], target);
      assert lines == [lines[0]] + lines[1..];
    }
  }

  /** Every file holds records of the history only. */
  predicate FilesFrom(files: Files, history: seq<Cold>) {
    forall i :: 0 <= i < |files| ==> AllFrom(Lines(files[i].frames), history)
  }

  /** A file that holds the k-th record of the history judges it resolved, when it is the record the
      segment names. */
  lemma JudgeResolves(h: Hasher, history: seq<Cold>, f: ColdFile, k: nat)
    requires ColdLinked(h, history, 0, None) && k < |history| && AllFrom(Lines(f.frames), history)
    requires FindSequence(Lines(f.frames), k + 1).Some?
    ensures
      var found := FindSequence(Lines(f.frames), k + 1).value;
      && found.recordHash.Some?
      && found == history[k]
      && Judge(h, f, found, k + 1, history[k].recordHash) == Resolved(Boundary(k + 1, found.recordHash.value))
  {
    FindsRecord(h, history, Lines(f.frames), k);
    LinesHold(h, history, Lines(f.frames));
  }

  lemma FindsRecord(h: Hasher, history: seq<Cold>, lines: seq<Cold>, k: nat)
    requires ColdLinked(h, history, 0, None) && k < |history| && AllFrom(lines, history)
    requires FindSequence(lines, k + 1).Some?
    ensures FindSequence(lines, k + 1).value == history[k]
    ensures history[k].recordHash == Some(h(history[k].content, k + 1, history[k].prevHash))
  {
    FindSequenceMeaning(lines, k + 1);
    var found := FindSequence(lines, k + 1).value;
    var j :| 0 <= j < |history| && history[j] == found;
    ColdLinkedAt(h, history, 0, None, j);
  }

  /** Lines of one chain show no internal break once they are in sequence order. */
  lemma LinesHold(h: Hasher, history: seq<Cold>, lines: seq<Cold>)
    requires ColdLinked(h, history, 0, None) && AllFrom(lines, history)
    ensures BreakIn(h, InOrder(lines), None) == None
  {
    FilterElements(lines, HasSequence);
    SortKeepsElements(Filter(lines, HasSequence), SequenceLeq);
    NoBreak(h, history, InOrder(lines), None);
  }

  lemma {:induction false} SearchResolves(h: Hasher, history: seq<Cold>, files: Files, k: nat)
    requires ColdLinked(h, history, 0, None) && k < |history| && FilesFrom(files, history)
    requires exists i :: 0 <= i < |files| && history[k] in Lines(files[i].frames)
    ensures history[k].recordHash.Some?
    ensures ResolveIn(h, files, k + 1, history[k].recordHash) == Resolved(Boundary(k + 1, history[k].recordHash.value))
  {
    var f := files[|files| - 1];
    ColdLinkedAt(h, history, 0, None, k);
    FindSequenceMeaning(Lines(f.frames), k + 1);
    if FindSequence(Lines(f.frames), k + 1).Some? {
      JudgeResolves(h, history, f, k);
    } else {
      var i :| 0 <= i < |files| && history[k] in Lines(files[i].frames);
      assert files[..|files| - 1][i] == files[i];
      SearchResolves(h, history, files[..|files| - 1], k);
    }
  }
}
