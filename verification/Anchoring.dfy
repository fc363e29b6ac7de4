/** Stores whose chained rows are a valid chain from genesis or from the archive boundary, and what
    appending, pruning and verifying do to them. */
module Anchoring {
  import opened Basics
  import opened Sorting
  import opened Chain
  import opened ChainStore

  /** The position in front of the first chained row; an empty segment starts at genesis. */
  function StartOf(table: seq<Row>): int {
    if Segment(table) == [] then 0 else Key(Segment(table)[0]) - 1
  }

  function SeedOf(table: seq<Row>): Option<string> {
    if Segment(table) == [] then None else Segment(table)[0].prevHash
  }

  /** The segment is linked, and it starts at genesis or right behind the archive boundary. */
  ghost predicate Grounded(h: Hasher, s: Store) {
    && StartOf(s.table) >= 0
    && Linked(h, Segment(s.table), StartOf(s.table), SeedOf(s.table))
    && (StartOf(s.table) == 0 ==> SeedOf(s.table) == None)
    && (StartOf(s.table) > 0 ==>
          s.boundary.Some? && s.boundary.value.lastArchivedSequence == StartOf(s.table)
          && SeedOf(s.table) == Some(s.boundary.value.lastArchivedRecordHash))
  }

  lemma LinkedStart(h: Hasher, table: seq<Row>, start: int, seed: Option<string>)
    requires Linked(h, Segment(table), start, seed) && Segment(table) != []
    ensures StartOf(table) == start && SeedOf(table) == seed
  {
  }

  lemma HeadOf(h: Hasher, table: seq<Row>)
    requires Linked(h, Segment(table), StartOf(table), SeedOf(table))
    ensures ChainHead(table) == (EndHash(Segment(table), SeedOf(table)), StartOf(table) + |Segment(table)|)
  {
    LinkedEnd(h, Segment(table), StartOf(table), SeedOf(table));
  }

  /** Where linked rows end. */
  lemma LinkedEnd(h: Hasher, rows: seq<Row>, start: int, seed: Option<string>)
    requires Linked(h, rows, start, seed)
    ensures rows == [] ==> EndHash(rows, seed) == seed
    ensures rows != [] ==>
      EndHash(rows, seed) == rows[|rows| - 1].recordHash && Key(rows[|rows| - 1]) == start + |rows|
  {
    EndHashIsLast(rows, seed);
    if rows != [] {
      LinkedAt(h, rows, start, seed, |rows| - 1);
    }
  }

  /** Full verification of a grounded store: everything is counted, unless a legacy row lies
      beside a chain that starts at genesis. */
  lemma GroundedVerifies(h: Hasher, s: Store)
    requires Grounded(h, s)
    ensures VerifyChain(h, s) ==
      if s.table == [] then Empty
      else if StartOf(s.table) == 0 && Legacy(s.table) != []
        then Broken(0, Legacy(s.table)[0].content.id, MissingSequence)
      else Valid(StartOf(s.table) + |Segment(s.table)|)
  {
    WalkFrom(h, s.table, 0, StartOf(s.table));
    assert Segment(s.table)[..0] == [];
  }

  /** Walking on from any row of a linked segment. */
  lemma WalkFrom(h: Hasher, table: seq<Row>, k: nat, already: nat)
    requires Linked(h, Segment(table), StartOf(table), SeedOf(table)) && k <= |Segment(table)|
    ensures
      var rows := Segment(table);
      Walk(h, SegmentAbove(table, StartOf(table) + k), StartOf(table) + k, EndHash(rows[..k], SeedOf(table)), already)
      == Valid(already + |rows| - k)
  {
    SegmentAboveFilters(table, StartOf(table) + k);
    WalkTail(h, Segment(table), StartOf(table), SeedOf(table), k, already);
  }

  lemma WalkTail(h: Hasher, rows: seq<Row>, start: int, seed: Option<string>, k: nat, already: nat)
    requires Linked(h, rows, start, seed) && k <= |rows|
    ensures Walk(h, Filter(rows, Above(start + k)), start + k, EndHash(rows[..k], seed), already)
         == Valid(already + |rows| - k)
  {
    AboveSuffix(h, rows, start, seed, k, start + k);
    LinkedSplit(h, rows, start, seed, k);
    LinkedWalk(h, rows[k..], start + k, EndHash(rows[..k], seed), already);
  }

  /** Of linked rows, those above the k-th. */
  lemma {:induction false} AboveSuffix(h: Hasher, rows: seq<Row>, start: int, seed: Option<string>, k: nat, cut: int)
    requires Linked(h, rows, start, seed) && k <= |rows| && cut == start + k
    ensures Filter(rows, Above(cut)) == rows[k..]
  {
    if k == 0 {
      LinkedAllAbove(h, rows, start, seed);
    } else {
      AboveSuffix(h, rows[1..], start + 1, rows[0].recordHash, k - 1, cut);
      assert rows[1..][k - 1..] == rows[k..];
    }
  }

  lemma LinkedAllAbove(h: Hasher, rows: seq<Row>, start: int, seed: Option<string>)
    requires Linked(h, rows, start, seed)
    ensures Filter(rows, Above(start)) == rows
  {
    LinkedKeys(h, rows, start, seed);
    FilterAll(rows, Above(start));
  }

  lemma LinkedSplit(h: Hasher, rows: seq<Row>, start: int, seed: Option<string>, k: nat)
    requires Linked(h, rows, start, seed) && k <= |rows|
    ensures Linked(h, rows[..k], start, seed) && Linked(h, rows[k..], start + k, EndHash(rows[..k], seed))
    ensures EndHash(rows[..k], seed) == if k == 0 then seed else rows[k - 1].recordHash
  {
    assert rows == rows[..k] + rows[k..];
    LinkedConcat(h, rows[..k], rows[k..], start, seed);
    EndHashIsLast(rows[..k], seed);
  }

  lemma LinkedWalk(h: Hasher, rows: seq<Row>, start: int, seed: Option<string>, already: nat)
    requires Linked(h, rows, start, seed)
    ensures Walk(h, rows, start, seed, already) == Valid(already + |rows|)
  {
    LinkedKeys(h, rows, start, seed);
    WalkMeaning(h, rows, start, seed, already);
  }

  // ---------- Appending ----------

  /** Rows chained behind the head extend the segment and add no legacy row. */
  lemma {:induction false} ExtendSegment(h: Hasher, table: seq<Row>, rows: seq<Row>, last: int, prev: Option<string>)
    requires KeysUpTo(table, last) && Linked(h, rows, last, prev)
    ensures Segment(table + rows) == Segment(table) + rows
    ensures Legacy(table + rows) == Legacy(table)
    ensures KeysUpTo(table + rows, last + |rows|)
    decreases |rows|
  {
    if rows == [] {
      assert table + rows == table && Segment(table) + rows == Segment(table);
    } else {
      ExtendByOne(table, rows[0], last);
      ExtendSegment(h, table + [rows[0]], rows[1..], last + 1, rows[0].recordHash);
      Refront(table, rows);
      Refront(Segment(table), rows);
    }
  }

  lemma Refront(a: seq<Row>, rows: seq<Row>)
    requires rows != []
    ensures a + [rows[0]] + rows[1..] == a + rows
  {
  }

  lemma ExtendByOne(table: seq<Row>, row: Row, last: int)
    requires KeysUpTo(table, last) && row.chainSequence == Some(last + 1)
    ensures Segment(table + [row]) == Segment(table) + [row]
    ensures Legacy(table + [row]) == Legacy(table)
    ensures KeysUpTo(table + [row], last + 1)
  {
    SegmentAppend(table, row);
    FilterConcat(table, [row], Unchained);
    assert [row][1..] == [];
    assert Filter(table, Unchained) + [] == Filter(table, Unchained);
  }

  /** A transaction that adds linked rows behind the head keeps the store grounded. */
  lemma AppendGrounded(h: Hasher, s: Store, rows: seq<Row>)
    requires Grounded(h, s) && Linked(h, rows, ChainHead(s.table).1, ChainHead(s.table).0)
    ensures Grounded(h, s.(table := s.table + rows))
    ensures Segment(s.table + rows) == Segment(s.table) + rows && Legacy(s.table + rows) == Legacy(s.table)
    ensures Segment(s.table) != []
      ==> StartOf(s.table + rows) == StartOf(s.table) && SeedOf(s.table + rows) == SeedOf(s.table)
  {
    var before := Segment(s.table);
    HeadBounds(s.table);
    HeadOf(h, s.table);
    ExtendSegment(h, s.table, rows, ChainHead(s.table).1, ChainHead(s.table).0);
    LinkedConcat(h, before, rows, StartOf(s.table), SeedOf(s.table));
    if before + rows != [] {
      LinkedStart(h, s.table + rows, StartOf(s.table), SeedOf(s.table));
    }
  }

  // ---------- Pruning ----------

  lemma PruneSegment(table: seq<Row>, maxSequence: int)
    ensures Segment(Filter(table, Survives(maxSequence))) == Filter(Segment(table), Above(maxSequence))
    ensures Legacy(Filter(table, Survives(maxSequence))) == Legacy(table)
  {
    var chained := Filter(table, Chained);
    KeyLeqIsPreorder();
    FilterSwap(table, Survives(maxSequence), Chained);
    FilterElements(table, Chained);
    FilterSame(chained, Survives(maxSequence), Above(maxSequence));
    FilterSort(chained, Above(maxSequence), KeyLeq);
    FilterTwice(table, Survives(maxSequence), Unchained);
  }

  /** The row a prune finds at its bound is the segment's row there. */
  lemma BoundRow(h: Hasher, table: seq<Row>, maxSequence: int)
    requires Linked(h, Segment(table), StartOf(table), SeedOf(table))
    ensures
      var k := maxSequence - StartOf(table);
      if 0 < k <= |Segment(table)| then RowAt(table, maxSequence) == Some(Segment(table)[k - 1])
      else RowAt(table, maxSequence) == None
  {
    var rows := Segment(table);
    var found := Filter(table, AtSequence(maxSequence));
    var k := maxSequence - StartOf(table);
    LinkedKeys(h, rows, StartOf(table), SeedOf(table));
    SegmentMembers(table);
    FilterElements(table, AtSequence(maxSequence));
    if found != [] {
      assert found[0] in found;
      assert found[0] in rows;
      var i :| 0 <= i < |rows| && rows[i] == found[0];
      assert Key(rows[i]) == StartOf(table) + 1 + i;
    }
    if 0 < k <= |rows| {
      assert rows[k - 1] in rows && Key(rows[k - 1]) == StartOf(table) + 1 + (k - 1);
      assert rows[k - 1] in found;
    }
  }

  /** What a prune inside the segment leaves: its tail, every legacy row, and the boundary in front. */
  lemma PruneCuts(h: Hasher, s: Store, k: nat, maxSequence: int)
    requires Grounded(h, s) && 0 < k <= |Segment(s.table)| && maxSequence == StartOf(s.table) + k
    ensures
      var rows := Segment(s.table);
      var after := AfterDelete(s, maxSequence);
      && rows[k - 1].recordHash.Some?
      && Segment(after.table) == rows[k..] && Legacy(after.table) == Legacy(s.table)
      && after.boundary == Some(Boundary(maxSequence, rows[k - 1].recordHash.value))
  {
    var rows := Segment(s.table);
    BoundRow(h, s.table, maxSequence);
    LinkedAt(h, rows, StartOf(s.table), SeedOf(s.table), k - 1);
    PruneSegment(s.table, maxSequence);
    AboveSuffix(h, rows, StartOf(s.table), SeedOf(s.table), k, maxSequence);
  }

  /** Where the rest of linked rows starts. */
  lemma RestStarts(h: Hasher, rows: seq<Row>, start: int, seed: Option<string>, k: nat, table: seq<Row>)
    requires Linked(h, rows, start, seed) && 0 < k < |rows| && Segment(table) == rows[k..]
    ensures StartOf(table) == start + k && SeedOf(table) == rows[k - 1].recordHash
  {
    LinkedAt(h, rows, start, seed, k);
  }

  lemma GroundedAtBoundary(h: Hasher, s: Store, start: int, hash: string)
    requires start > 0 && Linked(h, Segment(s.table), start, Some(hash)) && s.boundary == Some(Boundary(start, hash))
    ensures Grounded(h, s)
  {
    if Segment(s.table) != [] {
      LinkedStart(h, s.table, start, Some(hash));
    }
  }

  /** A prune keeps the store grounded: at the boundary it publishes or, when it empties the
      segment, at genesis. A bound outside the segment does nothing. */
  lemma PruneGrounded(h: Hasher, s: Store, maxSequence: int)
    requires Grounded(h, s)
    ensures Grounded(h, AfterDelete(s, maxSequence))
    ensures !(StartOf(s.table) < maxSequence <= StartOf(s.table) + |Segment(s.table)|)
      ==> AfterDelete(s, maxSequence) == s
  {
    var rows := Segment(s.table);
    var k := maxSequence - StartOf(s.table);
    if 0 < k <= |rows| {
      CutGrounded(h, s, k, maxSequence);
    } else {
      BoundRow(h, s.table, maxSequence);
    }
  }

  lemma CutGrounded(h: Hasher, s: Store, k: nat, maxSequence: int)
    requires Grounded(h, s) && 0 < k <= |Segment(s.table)| && maxSequence == StartOf(s.table) + k
    ensures Grounded(h, AfterDelete(s, maxSequence))
  {
    var rows := Segment(s.table);
    PruneCuts(h, s, k, maxSequence);
    LinkedSplit(h, rows, StartOf(s.table), SeedOf(s.table), k);
    var after := AfterDelete(s, maxSequence);
    assert Linked(h, Segment(after.table), maxSequence, rows[k - 1].recordHash);
    GroundedAtBoundary(h, after, maxSequence, rows[k - 1].recordHash.value);
  }
}
