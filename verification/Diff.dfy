/** Line diff (crates/grith-cli/src/diff.rs): the LCS table, the backtracked edit script and the
    context window around its changes. */
module Diff {

  datatype DiffLine = Context(text: string) | Addition(text: string) | Deletion(text: string)

  datatype DiffResult = DiffResult(lines: seq<DiffLine>, additions: nat, deletions: nat)

  function Front<T>(s: seq<T>): seq<T>
    requires s != []
  {
    s[..|s| - 1]
  }

  function Last<T>(s: seq<T>): T
    requires s != []
  {
    s[|s| - 1]
  }

  // ---------- What a script means ----------

  /** The lines a script reads: its context and its deletions. */
  function OldSide(script: seq<DiffLine>): seq<string> {
    if script == [] then []
    else OldSide(Front(script)) + if Last(script).Addition? then [] else [Last(script).text]
  }

  /** The lines a script writes: its context and its additions. */
  function NewSide(script: seq<DiffLine>): seq<string> {
    if script == [] then []
    else NewSide(Front(script)) + if Last(script).Deletion? then [] else [Last(script).text]
  }

  /** The lines a script leaves alone. */
  function Kept(script: seq<DiffLine>): seq<string> {
    if script == [] then []
    else Kept(Front(script)) + if Last(script).Context? then [Last(script).text] else []
  }

  function Additions(script: seq<DiffLine>): nat {
    if script == [] then 0 else Additions(Front(script)) + if Last(script).Addition? then 1 else 0
  }

  function Deletions(script: seq<DiffLine>): nat {
    if script == [] then 0 else Deletions(Front(script)) + if Last(script).Deletion? then 1 else 0
  }

  ghost predicate Transforms(script: seq<DiffLine>, was: seq<string>, now: seq<string>) {
    OldSide(script) == was && NewSide(script) == now
  }

  /** `pick` lists strictly increasing positions of `s` that spell out `c`. */
  ghost predicate Spells(c: seq<string>, s: seq<string>, pick: seq<nat>) {
    && |pick| == |c|
    && (forall k :: 0 <= k < |c| ==> pick[k] < |s| && s[pick[k]] == c[k])
    && (forall k, l :: 0 <= k < l < |pick| ==> pick[k] < pick[l])
  }

  ghost predicate Subsequence(c: seq<string>, s: seq<string>) {
    exists pick :: Spells(c, s, pick)
  }

  // ---------- The LCS recurrence ----------

  function Max(x: nat, y: nat): nat { if x >= y then x else y }

  /** Entry (i, j) of the table: the recurrence over the first `i` old and `j` new lines. */
  function Lcs(was: seq<string>, now: seq<string>, i: nat, j: nat): nat
    requires i <= |was| && j <= |now|
  {
    if i == 0 || j == 0 then 0
    else if was[i - 1] == now[j - 1] then Lcs(was, now, i - 1, j - 1) + 1
    else Max(Lcs(was, now, i - 1, j), Lcs(was, now, i, j - 1))
  }

  /** One more line on either side adds at most one to the recurrence and never takes away. */
  lemma {:induction false} LcsNeighbours(was: seq<string>, now: seq<string>, i: nat, j: nat)
    requires i <= |was| && j <= |now|
    ensures i > 0 ==> Lcs(was, now, i - 1, j) <= Lcs(was, now, i, j) <= Lcs(was, now, i - 1, j) + 1
    ensures j > 0 ==> Lcs(was, now, i, j - 1) <= Lcs(was, now, i, j) <= Lcs(was, now, i, j - 1) + 1
  {
    if i > 0 && j > 0 {
      LcsNeighbours(was, now, i - 1, j);
      LcsNeighbours(was, now, i, j - 1);
    }
  }

  // ---------- The script the backtrack walks ----------

  /** The script the walk from cell (i, j) back to (0, 0) produces. */
  function Backtrack(was: seq<string>, now: seq<string>, i: nat, j: nat): seq<DiffLine>
    requires i <= |was| && j <= |now|
  {
    if i == 0 && j == 0 then []
    else if i > 0 && j > 0 && was[i - 1] == now[j - 1] then
      Backtrack(was, now, i - 1, j - 1) + [Context(was[i - 1])]
    else if j > 0 && (i == 0 || Lcs(was, now, i, j - 1) >= Lcs(was, now, i - 1, j)) then
      Backtrack(was, now, i, j - 1) + [Addition(now[j - 1])]
    else
      Backtrack(was, now, i - 1, j) + [Deletion(was[i - 1])]
  }

  function Script(was: seq<string>, now: seq<string>): seq<DiffLine> {
    Backtrack(was, now, |was|, |now|)
  }

  lemma SidesAppend(s: seq<DiffLine>, x: DiffLine)
    ensures OldSide(s + [x]) == OldSide(s) + if x.Addition? then [] else [x.text]
    ensures NewSide(s + [x]) == NewSide(s) + if x.Deletion? then [] else [x.text]
    ensures Kept(s + [x]) == Kept(s) + if x.Context? then [x.text] else []
  {
    assert Front(s + [x]) == s;
  }

  /** One step of the walk: the script up to the previous cell, extended by `x`. */
  lemma StepTransforms(
    s: seq<DiffLine>, x: DiffLine, was: seq<string>, now: seq<string>, was': seq<string>, now': seq<string>)
    requires Transforms(s, was, now)
    requires was' == if x.Addition? then was else was + [x.text]
    requires now' == if x.Deletion? then now else now + [x.text]
    ensures Transforms(s + [x], was', now')
    ensures |Kept(s + [x])| == |Kept(s)| + if x.Context? then 1 else 0
  {
    SidesAppend(s, x);
    assert was + [] == was && now + [] == now;
  }

  lemma {:induction false} BacktrackTransforms(was: seq<string>, now: seq<string>, i: nat, j: nat)
    requires i <= |was| && j <= |now|
    ensures Transforms(Backtrack(was, now, i, j), was[..i], now[..j])
    ensures |Kept(Backtrack(was, now, i, j))| == Lcs(was, now, i, j)
    decreases i + j
  {
    if i == 0 && j == 0 {
    } else {
      var k, l, x := PreviousCell(was, now, i, j);
      BacktrackTransforms(was, now, k, l);
      StepTransforms(Backtrack(was, now, k, l), x, was[..k], now[..l], was[..i], now[..j]);
    }
  }

  /** The cell the walk comes from, the line it emits on the way and the table entry there. */
  lemma PreviousCell(was: seq<string>, now: seq<string>, i: nat, j: nat) returns (k: nat, l: nat, x: DiffLine)
    requires i <= |was| && j <= |now| && i + j > 0
    ensures k <= i && l <= j && k + l < i + j
    ensures (k, l, x) ==
      if i > 0 && j > 0 && was[i - 1] == now[j - 1] then (i - 1, j - 1, Context(was[i - 1]))
      else if j > 0 && (i == 0 || Lcs(was, now, i, j - 1) >= Lcs(was, now, i - 1, j)) then
        (i, j - 1, Addition(now[j - 1]))
      else (i - 1, j, Deletion(was[i - 1]))
    ensures Backtrack(was, now, i, j) == Backtrack(was, now, k, l) + [x]
    ensures was[..i] == if x.Addition? then was[..k] else was[..k] + [x.text]
    ensures now[..j] == if x.Deletion? then now[..l] else now[..l] + [x.text]
    ensures Lcs(was, now, i, j) == Lcs(was, now, k, l) + if x.Context? then 1 else 0
  {
    if i > 0 && j > 0 && was[i - 1] == now[j - 1] {
      k, l, x := i - 1, j - 1, Context(was[i - 1]);
    } else if j > 0 && (i == 0 || Lcs(was, now, i, j - 1) >= Lcs(was, now, i - 1, j)) {
      k, l, x := i, j - 1, Addition(now[j - 1]);
    } else {
      k, l, x := i - 1, j, Deletion(was[i - 1]);
    }
  }

  // ---------- Optimality ----------

  /** A pick that does not need the last line of a prefix. */
  lemma SpellsWithin(c: seq<string>, s: seq<string>, p: seq<nat>, i: nat)
    requires c != [] && 0 < i <= |s| && Spells(c, s[..i], p) && p[|c| - 1] < i - 1
    ensures Spells(c, s[..i - 1], p)
  {
    forall k | 0 <= k < |c| ensures p[k] < i - 1 {
      assert k == |c| - 1 || p[k] < p[|c| - 1];
    }
  }

  /** A pick that does, without its last position. */
  lemma SpellsFront(c: seq<string>, s: seq<string>, p: seq<nat>, i: nat)
    requires c != [] && 0 < i <= |s| && Spells(c, s[..i], p) && p[|c| - 1] == i - 1
    ensures Spells(c[..|c| - 1], s[..i - 1], p[..|c| - 1]) && c[|c| - 1] == s[i - 1]
  {
    forall k | 0 <= k < |c| - 1 ensures p[k] < i - 1 {
      assert p[k] < p[|c| - 1];
    }
  }

  /** No common subsequence of the two prefixes is longer than the recurrence. */
  lemma {:induction false} LcsBoundsSubsequences(
    was: seq<string>, now: seq<string>, i: nat, j: nat, c: seq<string>, p: seq<nat>, q: seq<nat>)
    requires i <= |was| && j <= |now|
    requires Spells(c, was[..i], p) && Spells(c, now[..j], q)
    ensures |c| <= Lcs(was, now, i, j)
    decreases i + j
  {
    if |c| > 0 {
      var n := |c| - 1;
      LcsNeighbours(was, now, i, j);
      if p[n] < i - 1 {
        SpellsWithin(c, was, p, i);
        LcsBoundsSubsequences(was, now, i - 1, j, c, p, q);
      } else if q[n] < j - 1 {
        SpellsWithin(c, now, q, j);
        LcsBoundsSubsequences(was, now, i, j - 1, c, p, q);
      } else {
        SpellsFront(c, was, p, i);
        SpellsFront(c, now, q, j);
        LcsBoundsSubsequences(was, now, i - 1, j - 1, c[..n], p[..n], q[..n]);
      }
    }
  }

  /** The lines any script keeps are a common subsequence of its two sides. */
  lemma {:induction false} KeptIsCommon(script: seq<DiffLine>) returns (p: seq<nat>, q: seq<nat>)
    ensures Spells(Kept(script), OldSide(script), p)
    ensures Spells(Kept(script), NewSide(script), q)
  {
    p, q := [], [];
    if script != [] {
      p, q := KeptIsCommon(Front(script));
      if Last(script).Context? {
        p, q := p + [|OldSide(Front(script))|], q + [|NewSide(Front(script))|];
      }
    }
  }

  lemma {:induction false} ChangesComplementKept(script: seq<DiffLine>)
    ensures |OldSide(script)| == |Kept(script)| + Deletions(script)
    ensures |NewSide(script)| == |Kept(script)| + Additions(script)
  {
    if script != [] {
      ChangesComplementKept(Front(script));
    }
  }

  /** The script turns the old lines into the new ones, what it keeps is a longest common
      subsequence of the two, and no script between the same texts has fewer changes. */
  lemma ScriptIsOptimal(was: seq<string>, now: seq<string>)
    ensures Transforms(Script(was, now), was, now)
    ensures Subsequence(Kept(Script(was, now)), was) && Subsequence(Kept(Script(was, now)), now)
    ensures forall c :: Subsequence(c, was) && Subsequence(c, now) ==> |c| <= |Kept(Script(was, now))|
    ensures forall other :: Transforms(other, was, now) ==>
      Additions(Script(was, now)) + Deletions(Script(was, now)) <= Additions(other) + Deletions(other)
  {
    var script := Script(was, now);
    BacktrackTransforms(was, now, |was|, |now|);
    assert was[..|was|] == was && now[..|now|] == now;
    var _, _ := KeptIsCommon(script);
    forall c | Subsequence(c, was) && Subsequence(c, now) ensures |c| <= |Kept(script)| {
      var p :| Spells(c, was, p);
      var q :| Spells(c, now, q);
      LcsBoundsSubsequences(was, now, |was|, |now|, c, p, q);
    }
    ChangesComplementKept(script);
    forall other | Transforms(other, was, now)
      ensures Additions(script) + Deletions(script) <= Additions(other) + Deletions(other)
    {
      ChangesComplementKept(other);
      var p, q := KeptIsCommon(other);
      assert Subsequence(Kept(other), was) && Subsequence(Kept(other), now);
    }
  }

  /** No line is added directly in front of one that is removed: where either order would do, the
      removed lines come first. */
  ghost predicate DeletionsFirst(script: seq<DiffLine>) {
    forall k :: 0 < k < |script| ==> !(script[k - 1].Addition? && script[k].Deletion?)
  }

  lemma {:induction false} BacktrackDeletesFirst(was: seq<string>, now: seq<string>, i: nat, j: nat)
    requires i <= |was| && j <= |now|
    ensures DeletionsFirst(Backtrack(was, now, i, j))
    decreases i + j
  {
    if i + j > 0 {
      var k, l, x := PreviousCell(was, now, i, j);
      BacktrackDeletesFirst(was, now, k, l);
      if x.Deletion? && j > 0 {
        NoAdditionBefore(was, now, i, j);
      }
      EndsInAddition(was, now, k, l);
      DeletionsFirstNext(Backtrack(was, now, k, l), x);
    }
  }

  predicate EndsAdding(script: seq<DiffLine>) { script != [] && Last(script).Addition? }

  lemma DeletionsFirstNext(script: seq<DiffLine>, x: DiffLine)
    requires DeletionsFirst(script) && (EndsAdding(script) ==> !x.Deletion?)
    ensures DeletionsFirst(script + [x])
  {
  }

  lemma EndsInAddition(was: seq<string>, now: seq<string>, i: nat, j: nat)
    requires i <= |was| && j <= |now|
    ensures EndsAdding(Backtrack(was, now, i, j)) <==>
      && j > 0 && !(i > 0 && was[i - 1] == now[j - 1])
      && (i == 0 || Lcs(was, now, i, j - 1) >= Lcs(was, now, i - 1, j))
  {
    if i + j > 0 {
      var k, l, x := PreviousCell(was, now, i, j);
    }
  }

  /** A step that deletes although it could add comes from a cell whose own step does not add. */
  lemma NoAdditionBefore(was: seq<string>, now: seq<string>, i: nat, j: nat)
    requires 0 < i <= |was| && 0 < j <= |now| && was[i - 1] != now[j - 1]
    requires Lcs(was, now, i, j - 1) < Lcs(was, now, i - 1, j)
    ensures i > 1 && (was[i - 2] == now[j - 1] || Lcs(was, now, i - 1, j - 1) < Lcs(was, now, i - 2, j))
  {
    LcsNeighbours(was, now, i, j - 1);
  }

  lemma ScriptDeletesFirst(was: seq<string>, now: seq<string>)
    ensures DeletionsFirst(Script(was, now))
  {
    BacktrackDeletesFirst(was, now, |was|, |now|);
  }

  // ---------- The imperative table and walk ----------

  ghost predicate IsTable(table: array2<nat>, was: seq<string>, now: seq<string>)
    reads table
  {
    && table.Length0 == |was| + 1 && table.Length1 == |now| + 1
    && forall i, j :: 0 <= i <= |was| && 0 <= j <= |now| ==> table[i, j] == Lcs(was, now, i, j)
  }

  /** One inner cell of the recurrence. */
  lemma LcsCell(was: seq<string>, now: seq<string>, i: nat, j: nat)
    requires 0 < i <= |was| && 0 < j <= |now|
    ensures Lcs(was, now, i, j) == if was[i - 1] == now[j - 1] then Lcs(was, now, i - 1, j - 1) + 1
                                   else Max(Lcs(was, now, i - 1, j), Lcs(was, now, i, j - 1))
  {
  }

  /** Fills the table row by row; its first row and column stay zero. */
  method LcsTable(was: seq<string>, now: seq<string>) returns (table: array2<nat>)
    ensures fresh(table) && IsTable(table, was, now)
  {
    table := new nat[|was| + 1, |now| + 1]((i, j) => 0);
    for i := 1 to |was| + 1
      invariant forall k, l :: 0 <= k < i && 0 <= l <= |now| ==> table[k, l] == Lcs(was, now, k, l)
      invariant forall k :: i <= k <= |was| ==> table[k, 0] == 0
    {
      FillRow(table, was, now, i);
    }
  }

  method FillRow(table: array2<nat>, was: seq<string>, now: seq<string>, i: nat)
    requires 0 < i <= |was| && table.Length0 == |was| + 1 && table.Length1 == |now| + 1
    requires forall k, l :: 0 <= k < i && 0 <= l <= |now| ==> table[k, l] == Lcs(was, now, k, l)
    requires table[i, 0] == 0
    modifies table
    ensures forall l :: 0 <= l <= |now| ==> table[i, l] == Lcs(was, now, i, l)
    ensures forall k, l :: 0 <= k <= |was| && k != i && 0 <= l <= |now| ==> table[k, l] == old(table[k, l])
  {
    for j := 1 to |now| + 1
      invariant forall k, l :: 0 <= k <= |was| && k != i && 0 <= l <= |now| ==> table[k, l] == old(table[k, l])
      invariant forall l :: 0 <= l < j ==> table[i, l] == Lcs(was, now, i, l)
    {
      LcsCell(was, now, i, j);
      if was[i - 1] == now[j - 1] {
        table[i, j] := table[i - 1, j - 1] + 1;
      } else {
        table[i, j] := Max(table[i - 1, j], table[i, j - 1]);
      }
    }
  }

  function Reversed<T>(s: seq<T>): (r: seq<T>)
    ensures |r| == |s| && forall k :: 0 <= k < |s| ==> r[k] == s[|s| - 1 - k]
  {
    if s == [] then [] else Reversed(s[1..]) + [s[0]]
  }

  /** Pushing the line that leads from cell (k, l) moves it from the rest of the walk to the stack. */
  lemma PushStep(rest: seq<DiffLine>, x: DiffLine, pushed: seq<DiffLine>)
    ensures (rest + [x]) + Reversed(pushed) == rest + Reversed(pushed + [x])
  {
    assert Reversed(pushed + [x]) == [x] + Reversed(pushed);
  }

  /** Where the walk stands: what is left to walk and what is on the stack make up the script. */
  ghost predicate Walking(was: seq<string>, now: seq<string>, i: nat, j: nat, pushed: seq<DiffLine>) {
    && i <= |was| && j <= |now|
    && Backtrack(was, now, i, j) + Reversed(pushed) == Script(was, now)
  }

  lemma WalkStep(was: seq<string>, now: seq<string>, i: nat, j: nat, k: nat, l: nat, x: DiffLine, pushed: seq<DiffLine>)
    requires Walking(was, now, i, j, pushed) && k <= |was| && l <= |now|
    requires Backtrack(was, now, i, j) == Backtrack(was, now, k, l) + [x]
    ensures Walking(was, now, k, l, pushed + [x])
  {
    PushStep(Backtrack(was, now, k, l), x, pushed);
  }

  method BacktrackDiff(table: array2<nat>, was: seq<string>, now: seq<string>) returns (result: seq<DiffLine>)
    requires IsTable(table, was, now)
    ensures result == Script(was, now)
  {
    var pushed := [];
    var i, j := |was|, |now|;
    while i > 0 || j > 0
      invariant 0 <= i <= |was| && 0 <= j <= |now|
      invariant Walking(was, now, i, j, pushed)
      decreases i + j
    {
      ghost var k, l, x := PreviousCell(was, now, i, j);
      WalkStep(was, now, i, j, k, l, x, pushed);
      if i > 0 && j > 0 && was[i - 1] == now[j - 1] {
        pushed := pushed + [Context(was[i - 1])];
        i, j := i - 1, j - 1;
      } else if j > 0 && (i == 0 || table[i, j - 1] >= table[i - 1, j]) {
        pushed := pushed + [Addition(now[j - 1])];
        j := j - 1;
      } else if i > 0 {
        pushed := pushed + [Deletion(was[i - 1])];
        i := i - 1;
      }
    }
    result := Reversed(pushed);
  }

  // ---------- The context window ----------

  /** Line `k` of the script is within `context` lines of a change. */
  ghost predicate Near(script: seq<DiffLine>, context: nat, k: int) {
    exists p :: 0 <= p < |script| && !script[p].Context? && k - context <= p <= k + context
  }

  /** The lines at the marked positions, in order. */
  function Select(script: seq<DiffLine>, marks: seq<bool>): seq<DiffLine>
    requires |marks| == |script|
  {
    if script == [] then []
    else Select(Front(script), Front(marks)) + if Last(marks) then [Last(script)] else []
  }

  /** `pick` lists exactly the positions below `size` that the test accepts, in order. */
  ghost predicate Lists(pick: seq<nat>, size: nat, accepts: int -> bool) {
    && (forall k, l :: 0 <= k < l < |pick| ==> pick[k] < pick[l])
    && (forall k :: 0 <= k < |pick| ==> pick[k] < size && accepts(pick[k]))
    && (forall p :: 0 <= p < size && accepts(p) ==> p in pick)
  }

  /** The lines at the picked positions. */
  ghost predicate Shows(lines: seq<DiffLine>, script: seq<DiffLine>, pick: seq<nat>) {
    |lines| == |pick| && forall k :: 0 <= k < |pick| ==> pick[k] < |script| && lines[k] == script[pick[k]]
  }

  lemma {:induction false} SelectPicks(script: seq<DiffLine>, marks: seq<bool>, accepts: int -> bool)
    returns (pick: seq<nat>)
    requires |marks| == |script| && forall k :: 0 <= k < |marks| ==> (marks[k] <==> accepts(k))
    ensures Lists(pick, |script|, accepts) && Shows(Select(script, marks), script, pick)
  {
    pick := [];
    if script != [] {
      pick := SelectPicks(Front(script), Front(marks), accepts);
      if Last(marks) {
        PickLast(pick, |script| - 1, accepts);
        pick := pick + [|script| - 1];
      }
    }
  }

  lemma PickLast(pick: seq<nat>, last: nat, accepts: int -> bool)
    requires Lists(pick, last, accepts) && accepts(last)
    ensures Lists(pick + [last], last + 1, accepts)
  {
    assert last in pick + [last];
  }

  /** Selecting loses no change as long as every change is marked. */
  lemma {:induction false} SelectKeepsChanges(script: seq<DiffLine>, marks: seq<bool>)
    requires |marks| == |script|
    requires forall k :: 0 <= k < |script| && !script[k].Context? ==> marks[k]
    ensures Additions(Select(script, marks)) == Additions(script)
    ensures Deletions(Select(script, marks)) == Deletions(script)
  {
    if script != [] {
      SelectKeepsChanges(Front(script), Front(marks));
      var rest := Select(Front(script), Front(marks));
      if Last(marks) {
        assert Front(rest + [Last(script)]) == rest;
      } else {
        assert rest + [] == rest;
      }
    }
  }

  lemma {:induction false} SelectNothing(script: seq<DiffLine>, marks: seq<bool>)
    requires |marks| == |script| && forall k :: 0 <= k < |script| ==> !marks[k]
    ensures Select(script, marks) == []
  {
    if script != [] {
      SelectNothing(Front(script), Front(marks));
    }
  }

  /** Positions of the changes, in order. */
  method ChangePositions(raw: seq<DiffLine>) returns (changes: seq<nat>)
    ensures forall k :: 0 <= k < |changes| ==> changes[k] < |raw| && !raw[changes[k]].Context?
    ensures forall p :: 0 <= p < |raw| && !raw[p].Context? ==> p in changes
  {
    changes := [];
    for i := 0 to |raw|
      invariant forall k :: 0 <= k < |changes| ==> changes[k] < i && !raw[changes[k]].Context?
      invariant forall p :: 0 <= p < i && !raw[p].Context? ==> p in changes
    {
      if !raw[i].Context? {
        changes := changes + [i];
      }
    }
  }

  ghost predicate NearOne(changes: seq<nat>, count: nat, context: nat, k: int)
    requires count <= |changes|
  {
    exists d :: 0 <= d < count && k - context <= changes[d] <= k + context
  }

  /** Marks, in place, every line within `context` of one of the change positions. */
  method MarkIncluded(size: nat, changes: seq<nat>, context: nat) returns (included: array<bool>)
    requires forall k :: 0 <= k < |changes| ==> changes[k] < size
    ensures fresh(included) && included.Length == size
    ensures forall k :: 0 <= k < size ==> (included[k] <==> NearOne(changes, |changes|, context, k))
  {
    included := new bool[size](k => false);
    for c := 0 to |changes|
      invariant forall k :: 0 <= k < size ==> (included[k] <==> NearOne(changes, c, context, k))
    {
      var pos := changes[c];
      var start := if pos >= context then pos - context else 0;
      var end := if pos + context + 1 <= size then pos + context + 1 else size;
      ghost var before := included[..];
      for k := start to end
        invariant forall l :: 0 <= l < size ==> included[l] == (before[l] || start <= l < k)
      {
        included[k] := true;
      }
      forall k | 0 <= k < size ensures included[k] <==> NearOne(changes, c + 1, context, k) {
        if NearOne(changes, c, context, k) {
          var d :| 0 <= d < c && k - context <= changes[d] <= k + context;
        } else if start <= k < end {
          assert k - context <= changes[c] <= k + context;
        }
      }
    }
  }

  /** The windowed diff: exactly the script lines within `context` of a change, so every change
      survives and the counters are those of the whole script. */
  method ComputeDiff(was: seq<string>, now: seq<string>, context: nat) returns (r: DiffResult, ghost pick: seq<nat>)
    ensures Lists(pick, |Script(was, now)|, k => Near(Script(was, now), context, k))
    ensures Shows(r.lines, Script(was, now), pick)
    ensures r.additions == Additions(Script(was, now)) == Additions(r.lines)
    ensures r.deletions == Deletions(Script(was, now)) == Deletions(r.lines)
  {
    var table := LcsTable(was, now);
    var raw := BacktrackDiff(table, was, now);
    var changes := ChangePositions(raw);
    if |changes| == 0 {
      ghost var none := seq(|raw|, k => false);
      SelectNothing(raw, none);
      SelectKeepsChanges(raw, none);
      return DiffResult([], 0, 0), [];
    }
    var included := MarkIncluded(|raw|, changes, context);
    ghost var marks := included[..];
    forall k | 0 <= k < |raw| ensures marks[k] <==> Near(raw, context, k) {
      NearAgrees(raw, changes, context, k);
    }
    forall k | 0 <= k < |raw| && !raw[k].Context? ensures marks[k] {
      assert k - context <= k <= k + context;
    }
    r := Collect(raw, included);
    SelectKeepsChanges(raw, marks);
    pick := SelectPicks(raw, marks, k => Near(raw, context, k));
  }

  lemma NearAgrees(raw: seq<DiffLine>, changes: seq<nat>, context: nat, k: nat)
    requires forall k :: 0 <= k < |changes| ==> changes[k] < |raw| && !raw[changes[k]].Context?
    requires forall p :: 0 <= p < |raw| && !raw[p].Context? ==> p in changes
    ensures NearOne(changes, |changes|, context, k) <==> Near(raw, context, k)
  {
    if Near(raw, context, k) {
      var p :| 0 <= p < |raw| && !raw[p].Context? && k - context <= p <= k + context;
      assert p in changes;
    }
  }

  /** The final pass: copies the marked lines and counts the changes among them. */
  method Collect(raw: seq<DiffLine>, included: array<bool>) returns (r: DiffResult)
    requires included.Length == |raw|
    ensures r.lines == Select(raw, included[..])
    ensures r.additions == Additions(r.lines) && r.deletions == Deletions(r.lines)
  {
    var lines, additions, deletions := [], 0, 0;
    for i := 0 to |raw|
      invariant lines == Select(raw[..i], included[..i])
      invariant additions == Additions(lines) && deletions == Deletions(lines)
    {
      assert Front(raw[..i + 1]) == raw[..i] && Front(included[..i + 1]) == included[..i];
      if included[i] {
        match raw[i] {
          case Addition(_) => additions := additions + 1;
          case Deletion(_) => deletions := deletions + 1;
          case Context(_) =>
        }
        assert Front(lines + [raw[i]]) == lines;
        lines := lines + [raw[i]];
      }
    }
    assert raw[..|raw|] == raw && included[..|raw|] == included[..];
    r := DiffResult(lines, additions, deletions);
  }
}
