/** `repair_chain` of crates/grith-audit/src/storage.rs: renumbering through negative placeholders,
    exactly when it yields a valid chain, and why no sequence is ever held twice on the way. */
module Repair {
  import opened Basics
  import opened Records
  import opened Sorting
  import opened Chain
  import opened ChainStore

  // ---------- What the walk computes ----------

  /** The row at its expected position. Only the hash comparison decides: a row whose stored hash
      already is the repaired one keeps whatever sequence and predecessor it stores. */
  function RepairedRow(h: Hasher, row: Row, sequence: int, prev: Option<string>): Row {
    var hash := Some(h(row.content, sequence, prev));
    if row.recordHash == hash then row
    else row.(chainSequence := Some(sequence), prevHash := prev, recordHash := hash)
  }

  function Repaired(h: Hasher, rows: seq<Row>, start: int, prev: Option<string>): (r: seq<Row>)
    ensures |r| == |rows|
  {
    if rows == [] then []
    else
      var row := RepairedRow(h, rows[0], start + 1, prev);
      [row] + Repaired(h, rows[1..], start + 1, row.recordHash)
  }

  function Negated(row: Row): Row { row.(chainSequence := Some(-Key(row))) }

  /** What the first pass leaves in the table for a row: its repaired form under a negative
      placeholder, or the row itself. */
  function Placeholder(row: Row, repaired: Row): Row {
    if row.recordHash == repaired.recordHash then row else Negated(repaired)
  }

  function Placeholders(rows: seq<Row>, repaired: seq<Row>): (r: seq<Row>)
    requires |rows| == |repaired|
    ensures |r| == |rows| && forall k :: 0 <= k < |r| ==> r[k] == Placeholder(rows[k], repaired[k])
  {
    seq(|rows|, k requires 0 <= k < |rows| => Placeholder(rows[k], repaired[k]))
  }

  function RepairCount(rows: seq<Row>, repaired: seq<Row>): nat
    requires |rows| == |repaired|
  {
    if rows == [] then 0
    else (if rows[0].recordHash == repaired[0].recordHash then 0 else 1) + RepairCount(rows[1..], repaired[1..])
  }

  /** The second pass, on one row. */
  function Flip(row: Row): Row { if Chained(row) && Key(row) < 0 then Negated(row) else row }

  /** The row of `fixed` with this row's id, if there is one. */
  function Substitute(fixed: seq<Row>): Row -> Row {
    (row: Row) => match Find(fixed, row.content.id) case Some(f) => f case None => row
  }

  function Find(rows: seq<Row>, id: Uuid): Option<Row> {
    if rows == [] then None
    else if rows[0].content.id == id then Some(rows[0])
    else Find(rows[1..], id)
  }

  /** `UPDATE ... WHERE id` for every row of `fixed`. */
  function Place(table: seq<Row>, fixed: seq<Row>): seq<Row> { Map(table, Substitute(fixed)) }

  function RepairedTable(h: Hasher, table: seq<Row>): seq<Row> {
    var rows := Segment(table);
    Map(Place(table, Placeholders(rows, Repaired(h, rows, 0, None))), Flip)
  }

  function AfterRepair(h: Hasher, s: Store): Store {
    var rows := Segment(s.table);
    if rows == [] then s
    else
      s.(table := RepairedTable(h, s.table),
         checkpoint := if RepairCount(rows, Repaired(h, rows, 0, None)) > 0 then None else s.checkpoint,
         cache := None)
  }

  // ---------- Primary key ----------

  lemma {:induction false} FindAt(rows: seq<Row>, k: nat)
    requires UniqueIds(rows) && k < |rows|
    ensures Find(rows, rows[k].content.id) == Some(rows[k])
  {
    if k > 0 {
      FindAt(rows[1..], k - 1);
    }
  }

  lemma {:induction false} FindMissing(rows: seq<Row>, id: Uuid)
    requires forall k :: 0 <= k < |rows| ==> rows[k].content.id != id
    ensures Find(rows, id) == None
  {
    if rows != [] {
      FindMissing(rows[1..], id);
    }
  }

  // ---------- Position by position ----------

  function PrevAt(repaired: seq<Row>, k: nat, prev: Option<string>): Option<string>
    requires k <= |repaired|
  {
    if k == 0 then prev else repaired[k - 1].recordHash
  }

  lemma {:induction false} RepairedAt(
    h: Hasher, rows: seq<Row>, start: int, prev: Option<string>, k: nat, sequence: int)
    requires k < |rows| && sequence == start + 1 + k
    ensures Repaired(h, rows, start, prev)[k] ==
      RepairedRow(h, rows[k], sequence, PrevAt(Repaired(h, rows, start, prev), k, prev))
  {
    var all := Repaired(h, rows, start, prev);
    if k > 0 {
      RepairedAt(h, rows[1..], start + 1, all[0].recordHash, k - 1, sequence);
      assert all[1..] == Repaired(h, rows[1..], start + 1, all[0].recordHash);
    }
  }

  lemma RepairedKeepsIds(h: Hasher, rows: seq<Row>)
    ensures forall k :: 0 <= k < |rows| ==> Repaired(h, rows, 0, None)[k].content == rows[k].content
  {
    forall k | 0 <= k < |rows| ensures Repaired(h, rows, 0, None)[k].content == rows[k].content {
      RepairedAt(h, rows, 0, None, k, k + 1);
    }
  }

  // ---------- When it works ----------

  /** Every row whose stored hash already is the repaired one also stores the repaired sequence
      and predecessor. */
  predicate Settled(h: Hasher, rows: seq<Row>, start: int, prev: Option<string>) {
    rows == [] ||
    (var row := RepairedRow(h, rows[0], start + 1, prev);
     && (rows[0].recordHash == row.recordHash ==> rows[0].chainSequence == Some(start + 1) && rows[0].prevHash == prev)
     && Settled(h, rows[1..], start + 1, row.recordHash))
  }

  /** In walk order, the repaired rows are linked exactly when the settled ones stored the right
      position and every enum column is canonical. */
  lemma {:induction false} RepairedLinked(h: Hasher, rows: seq<Row>, start: int, prev: Option<string>)
    ensures Linked(h, Repaired(h, rows, start, prev), start, prev) <==>
            Settled(h, rows, start, prev) && AllCanonical(rows)
  {
    if rows != [] {
      var row := RepairedRow(h, rows[0], start + 1, prev);
      RepairedLinked(h, rows[1..], start + 1, row.recordHash);
      assert Repaired(h, rows, start, prev)[1..] == Repaired(h, rows[1..], start + 1, row.recordHash);
      AllCanonicalSplits(rows);
    }
  }

  // ---------- From the passes over the table to the walk ----------

  ghost predicate PositiveKeys(table: seq<Row>) {
    forall k :: 0 <= k < |table| && Chained(table[k]) ==> Key(table[k]) > 0
  }

  /** With positive sequences the two passes amount to writing each repaired row over its original. */
  lemma RepairedTableIsPlace(h: Hasher, table: seq<Row>)
    requires UniqueIds(table) && PositiveKeys(table)
    ensures RepairedTable(h, table) == Place(table, Repaired(h, Segment(table), 0, None))
  {
    var rows := Segment(table);
    var repaired := Repaired(h, rows, 0, None);
    var a := RepairedTable(h, table);
    var b := Place(table, repaired);
    forall i | 0 <= i < |table| ensures a[i] == b[i] {
      PlaceOne(h, table, i);
    }
  }

  lemma PlaceOne(h: Hasher, table: seq<Row>, i: nat)
    requires UniqueIds(table) && PositiveKeys(table) && i < |table|
    ensures RepairedTable(h, table)[i] == Place(table, Repaired(h, Segment(table), 0, None))[i]
  {
    if Chained(table[i]) {
      var k := RowIndex(table, i);
      PlacedChained(h, table, i, k);
      HeldChained(h, table, i, k);
      FlippedHeld(h, Segment(table), k);
    } else {
      PlacedUnchained(h, table, i);
    }
  }

  lemma FlippedHeld(h: Hasher, rows: seq<Row>, k: nat)
    requires k < |rows| && Chained(rows[k]) && Key(rows[k]) > 0
    ensures Flip(Placeholder(rows[k], Repaired(h, rows, 0, None)[k])) == Repaired(h, rows, 0, None)[k]
  {
    var repaired := Repaired(h, rows, 0, None);
    RepairedAt(h, rows, 0, None, k, k + 1);
    FlipOne(h, rows[k], k + 1, PrevAt(repaired, k, None));
  }

  lemma FlipOne(h: Hasher, row: Row, sequence: int, prev: Option<string>)
    requires Chained(row) && Key(row) > 0 && sequence > 0
    ensures Flip(Placeholder(row, RepairedRow(h, row, sequence, prev))) == RepairedRow(h, row, sequence, prev)
  {
  }

  lemma RepairedUniqueIds(h: Hasher, table: seq<Row>)
    requires UniqueIds(table)
    ensures UniqueIds(Repaired(h, Segment(table), 0, None))
    ensures forall k :: 0 <= k < |Segment(table)| ==>
      Repaired(h, Segment(table), 0, None)[k].content == Segment(table)[k].content
  {
    SegmentUniqueIds(table);
    RepairedKeepsIds(h, Segment(table));
  }

  lemma HeldUniqueIds(h: Hasher, table: seq<Row>)
    requires UniqueIds(table)
    ensures
      var held := Placeholders(Segment(table), Repaired(h, Segment(table), 0, None));
      UniqueIds(held) && forall k :: 0 <= k < |held| ==> held[k].content == Segment(table)[k].content
  {
    RepairedKeepsIds(h, Segment(table));
    SegmentUniqueIds(table);
  }

  /** What the direct write leaves at a chained row. */
  lemma PlacedChained(h: Hasher, table: seq<Row>, i: nat, k: nat)
    requires UniqueIds(table) && i < |table| && k < |Segment(table)| && Segment(table)[k] == table[i]
    ensures Place(table, Repaired(h, Segment(table), 0, None))[i] == Repaired(h, Segment(table), 0, None)[k]
  {
    RepairedUniqueIds(h, table);
    FindAt(Repaired(h, Segment(table), 0, None), k);
  }

  /** What the first pass leaves there. */
  lemma HeldChained(h: Hasher, table: seq<Row>, i: nat, k: nat)
    requires UniqueIds(table) && i < |table| && k < |Segment(table)| && Segment(table)[k] == table[i]
    ensures
      var repaired := Repaired(h, Segment(table), 0, None);
      Place(table, Placeholders(Segment(table), repaired))[i] == Placeholder(Segment(table)[k], repaired[k])
  {
    HeldUniqueIds(h, table);
    FindAt(Placeholders(Segment(table), Repaired(h, Segment(table), 0, None)), k);
  }

  lemma PlacedUnchained(h: Hasher, table: seq<Row>, i: nat)
    requires UniqueIds(table) && i < |table| && !Chained(table[i])
    ensures
      var repaired := Repaired(h, Segment(table), 0, None);
      && Place(table, repaired)[i] == table[i]
      && Place(table, Placeholders(Segment(table), repaired))[i] == table[i]
  {
    var repaired := Repaired(h, Segment(table), 0, None);
    RepairedKeepsIds(h, Segment(table));
    NotInSegment(table, i);
    FindMissing(repaired, table[i].content.id);
    FindMissing(Placeholders(Segment(table), repaired), table[i].content.id);
  }

  /** Where the walk meets a chained row of the table. */
  lemma RowIndex(table: seq<Row>, i: nat) returns (k: nat)
    requires i < |table| && Chained(table[i])
    ensures k < |Segment(table)| && Segment(table)[k] == table[i]
  {
    SegmentMembers(table);
    assert table[i] in Segment(table);
    k :| 0 <= k < |Segment(table)| && Segment(table)[k] == table[i];
  }

  lemma NotInSegment(table: seq<Row>, i: nat)
    requires UniqueIds(table) && i < |table| && !Chained(table[i])
    ensures forall k :: 0 <= k < |Segment(table)| ==> Segment(table)[k].content.id != table[i].content.id
  {
    SegmentMembers(table);
    forall k | 0 <= k < |Segment(table)| ensures Segment(table)[k].content.id != table[i].content.id {
      assert Segment(table)[k] in table;
      var j :| 0 <= j < |table| && table[j] == Segment(table)[k];
      assert i != j;
    }
  }

  /** Writing the repaired rows chains exactly the rows that were chained. */
  lemma SubstituteKeepsChained(h: Hasher, table: seq<Row>, i: nat)
    requires UniqueIds(table) && i < |table|
    ensures Chained(Place(table, Repaired(h, Segment(table), 0, None))[i]) == Chained(table[i])
  {
    if Chained(table[i]) {
      var k := RowIndex(table, i);
      PlacedChained(h, table, i, k);
      RepairedAt(h, Segment(table), 0, None, k, k + 1);
    } else {
      PlacedUnchained(h, table, i);
    }
  }

  /** The repaired table holds, as its chained rows, a rearrangement of the repaired rows. */
  lemma RepairedElements(h: Hasher, table: seq<Row>)
    requires UniqueIds(table)
    ensures multiset(Segment(Place(table, Repaired(h, Segment(table), 0, None))))
         == multiset(Repaired(h, Segment(table), 0, None))
  {
    var rows := Segment(table);
    var repaired := Repaired(h, rows, 0, None);
    var f := Substitute(repaired);
    forall x | x in table ensures Chained(f(x)) == Chained(x) {
      var i :| 0 <= i < |table| && table[i] == x;
      SubstituteKeepsChained(h, table, i);
    }
    FilterMap(table, Chained, f);
    SortKeepsElements(Filter(table, Chained), KeyLeq);
    SortKeepsElements(Filter(Map(table, f), Chained), KeyLeq);
    MapMultiset(Filter(table, Chained), rows, f);
    PlaceSegment(h, table);
  }

  lemma PlaceSegment(h: Hasher, table: seq<Row>)
    requires UniqueIds(table)
    ensures Place(Segment(table), Repaired(h, Segment(table), 0, None)) == Repaired(h, Segment(table), 0, None)
  {
    var rows := Segment(table);
    var repaired := Repaired(h, rows, 0, None);
    SegmentUniqueIds(table);
    RepairedKeepsIds(h, rows);
    forall k | 0 <= k < |rows| ensures Place(rows, repaired)[k] == repaired[k] {
      FindAt(repaired, k);
    }
  }

  /** What the repaired table stores at each place: the same content, and the same row when the
      walk changed nothing. */
  lemma RepairedTableAt(h: Hasher, table: seq<Row>, i: nat)
    requires UniqueIds(table) && PositiveKeys(table) && i < |table|
    ensures RepairedTable(h, table)[i].content == table[i].content
    ensures Repaired(h, Segment(table), 0, None) == Segment(table) ==> RepairedTable(h, table)[i] == table[i]
  {
    RepairedTableIsPlace(h, table);
    if Chained(table[i]) {
      var k := RowIndex(table, i);
      PlacedChained(h, table, i, k);
      RepairedKeepsIds(h, Segment(table));
    } else {
      PlacedUnchained(h, table, i);
    }
  }

  lemma RepairedTableKeeps(h: Hasher, table: seq<Row>)
    requires UniqueIds(table) && PositiveKeys(table)
    ensures |RepairedTable(h, table)| == |table| && UniqueIds(RepairedTable(h, table))
    ensures forall i :: 0 <= i < |table| ==> RepairedTable(h, table)[i].content == table[i].content
    ensures Repaired(h, Segment(table), 0, None) == Segment(table) ==> RepairedTable(h, table) == table
  {
    forall i | 0 <= i < |table|
      ensures RepairedTable(h, table)[i].content == table[i].content
      ensures Repaired(h, Segment(table), 0, None) == Segment(table) ==> RepairedTable(h, table)[i] == table[i]
    {
      RepairedTableAt(h, table, i);
    }
  }

  // ---------- The theorem ----------

  /** Consecutive sequences 1..n in walk order are sorted, so the segment is the walk. */
  lemma NumberedIsSegment(h: Hasher, table: seq<Row>)
    requires UniqueIds(table)
    requires forall k :: 0 <= k < |Segment(table)| ==> Key(Repaired(h, Segment(table), 0, None)[k]) == k + 1
    ensures Segment(Place(table, Repaired(h, Segment(table), 0, None))) == Repaired(h, Segment(table), 0, None)
  {
    var repaired := Repaired(h, Segment(table), 0, None);
    var result := Segment(Place(table, repaired));
    RepairedElements(h, table);
    SegmentMembers(Place(table, repaired));
    NumberedDiscriminates(repaired);
    SortedUnique(repaired, result, KeyLeq);
  }

  lemma NumberedDiscriminates(rows: seq<Row>)
    requires forall k :: 0 <= k < |rows| ==> Key(rows[k]) == k + 1
    ensures SortedBy(rows, KeyLeq) && Discriminates(rows, KeyLeq)
  {
    forall x, y | x in rows && y in rows && KeyLeq(x, y) && KeyLeq(y, x) ensures x == y {
      var i :| 0 <= i < |rows| && rows[i] == x;
      var j :| 0 <= j < |rows| && rows[j] == y;
    }
  }

  lemma SettledNumbers(h: Hasher, rows: seq<Row>, start: int, prev: Option<string>)
    requires Settled(h, rows, start, prev)
    ensures forall k :: 0 <= k < |rows| ==> Key(Repaired(h, rows, start, prev)[k]) == start + 1 + k
  {
    if rows != [] {
      SettledNumbers(h, rows[1..], start + 1, RepairedRow(h, rows[0], start + 1, prev).recordHash);
    }
  }

  /** If the segment after the repair is numbered 1..n, then every row stands where the walk put it. */
  lemma {:induction false} NumberedInOrder(h: Hasher, table: seq<Row>, n: nat)
    requires UniqueIds(table) && PositiveKeys(table)
    requires n <= |Segment(table)|
    requires
      var result := Segment(Place(table, Repaired(h, Segment(table), 0, None)));
      |result| == |Segment(table)| && forall k :: 0 <= k < |result| ==> Key(result[k]) == k + 1
    ensures forall k :: 0 <= k < n ==> Key(Repaired(h, Segment(table), 0, None)[k]) == k + 1
  {
    if n > 0 {
      NumberedInOrder(h, table, n - 1);
      NextInOrder(h, table, n - 1);
      var repaired := Repaired(h, Segment(table), 0, None);
      assert forall k :: 0 <= k < n - 1 ==> Key(repaired[k]) == k + 1;
    }
  }

  /** A row whose sequence is its index in a numbered list of the same rows is that row. */
  lemma SameKeySameRow(repaired: seq<Row>, result: seq<Row>, i: nat, j: nat)
    requires i < |repaired| && j < |repaired| && Key(repaired[i]) == Key(repaired[j])
    requires multiset(repaired) == multiset(result) && UniqueIds(repaired)
    requires forall k :: 0 <= k < |result| ==> Key(result[k]) == k + 1
    ensures i == j && 1 <= Key(repaired[i]) <= |result|
  {
    var a := InResult(repaired, result, i);
    var b := InResult(repaired, result, j);
    assert Key(result[a]) == a + 1 && Key(result[b]) == b + 1;
    assert repaired[i] == repaired[j];
  }

  lemma InResult(repaired: seq<Row>, result: seq<Row>, i: nat) returns (a: nat)
    requires i < |repaired| && multiset(repaired) == multiset(result)
    ensures a < |result| && result[a] == repaired[i]
  {
    assert repaired[i] in multiset(result);
    a :| 0 <= a < |result| && result[a] == repaired[i];
  }

  lemma NextInOrder(h: Hasher, table: seq<Row>, j: nat)
    requires UniqueIds(table) && j < |Segment(table)|
    requires
      var result := Segment(Place(table, Repaired(h, Segment(table), 0, None)));
      |result| == |Segment(table)| && forall k :: 0 <= k < |result| ==> Key(result[k]) == k + 1
    requires forall k :: 0 <= k < j ==> Key(Repaired(h, Segment(table), 0, None)[k]) == k + 1
    ensures Key(Repaired(h, Segment(table), 0, None)[j]) == j + 1
  {
    var repaired := Repaired(h, Segment(table), 0, None);
    RepairedElements(h, table);
    RepairedUniqueIds(h, table);
    if Key(repaired[j]) > j + 1 {
      LaterKeysAbove(h, table, j);
    }
    KeyInPlace(repaired, Segment(Place(table, repaired)), j);
  }

  /** Rows numbered from 1 without a gap once they are sorted: one that is not above its place while
      all before it are in theirs is in its own. */
  lemma KeyInPlace(repaired: seq<Row>, result: seq<Row>, j: nat)
    requires multiset(repaired) == multiset(result) && UniqueIds(repaired) && j < |repaired| == |result|
    requires forall k :: 0 <= k < |result| ==> Key(result[k]) == k + 1
    requires forall k :: 0 <= k < j ==> Key(repaired[k]) == k + 1
    requires Key(repaired[j]) > j + 1 ==> forall i :: j < i < |repaired| ==> Key(repaired[i]) > j + 1
    ensures Key(repaired[j]) == j + 1
  {
    SameKeySameRow(repaired, result, j, j);
    if Key(repaired[j]) <= j {
      SameKeySameRow(repaired, result, Key(repaired[j]) - 1, j);
    } else {
      var i := InResult(result, repaired, j);
    }
  }

  /** A row left alone above its place keeps every later row above that place too. */
  lemma LaterKeysAbove(h: Hasher, table: seq<Row>, j: nat)
    requires j < |Segment(table)| && Key(Repaired(h, Segment(table), 0, None)[j]) > j + 1
    ensures forall i :: j < i < |Segment(table)| ==> Key(Repaired(h, Segment(table), 0, None)[i]) > j + 1
  {
    var rows := Segment(table);
    RepairedAt(h, rows, 0, None, j, j + 1);
    SegmentMembers(table);
    forall i | j < i < |rows| ensures Key(Repaired(h, rows, 0, None)[i]) > j + 1 {
      RepairedAt(h, rows, 0, None, i, i + 1);
      assert KeyLeq(rows[j], rows[i]);
    }
  }

  lemma RepairedKeysPositive(h: Hasher, table: seq<Row>)
    requires UniqueIds(table) && PositiveKeys(table)
    ensures forall row :: row in Segment(RepairedTable(h, table)) ==> Key(row) > 0
    ensures |Segment(RepairedTable(h, table))| == |Segment(table)|
  {
    var repaired := Repaired(h, Segment(table), 0, None);
    RepairedTableIsPlace(h, table);
    RepairedElements(h, table);
    var result := Segment(RepairedTable(h, table));
    assert |multiset(result)| == |result| && |multiset(repaired)| == |repaired|;
    RepairedPositive(h, table);
    forall row | row in result ensures Key(row) > 0 {
      assert row in multiset(repaired);
    }
  }

  lemma RepairedPositive(h: Hasher, table: seq<Row>)
    requires PositiveKeys(table)
    ensures forall row :: row in Repaired(h, Segment(table), 0, None) ==> Key(row) > 0
  {
    var rows := Segment(table);
    var repaired := Repaired(h, rows, 0, None);
    SegmentMembers(table);
    forall row | row in repaired ensures Key(row) > 0 {
      var k :| 0 <= k < |repaired| && repaired[k] == row;
      RepairedAt(h, rows, 0, None, k, k + 1);
      assert rows[k] in rows;
    }
  }

  /** A table of positively numbered rows verifies as exactly its segment's size when it has no legacy
      row and the segment is linked from genesis, and in no other case. */
  lemma ValidFromGenesis(h: Hasher, s: Store)
    requires Segment(s.table) != [] && forall row :: row in Segment(s.table) ==> Key(row) > 0
    ensures VerifyChain(h, s) == Valid(|Segment(s.table)|) <==>
            Legacy(s.table) == [] && Linked(h, Segment(s.table), 0, None)
  {
    var rows := Segment(s.table);
    SegmentChained(s.table);
    PositiveSegment(s.table);
    if Linked(h, rows, 0, None) {
      LinkedKeys(h, rows, 0, None);
      assert Key(rows[0]) == 0 + 1 + 0;
    }
    match ResolveAnchor(s.table, s.boundary)
    case Genesis => WalkMeaning(h, rows, 0, None, 0);
    case Anchored(b) => ValidFromAnchor(h, s, b);
    case Unresolved(outcome) =>
  }

  /** A segment that needs an anchor never counts just its own rows. */
  lemma ValidFromAnchor(h: Hasher, s: Store, b: Boundary)
    requires ResolveAnchor(s.table, s.boundary) == Anchored(b) && Segment(s.table) != []
    ensures VerifyChain(h, s) != Valid(|Segment(s.table)|)
  {
    var rows := Segment(s.table);
    SegmentChained(s.table);
    AnchoredSegment(s.table, b.lastArchivedSequence);
    WalkMeaning(h, rows, b.lastArchivedSequence, Some(b.lastArchivedRecordHash), Max0(b.lastArchivedSequence));
  }

  lemma SegmentChained(table: seq<Row>)
    ensures forall k :: 0 <= k < |Segment(table)| ==> Chained(Segment(table)[k])
    ensures table != [] && Chained(table[0]) ==> Segment(table) != []
  {
    var rows := Segment(table);
    SegmentMembers(table);
    forall k | 0 <= k < |rows| ensures Chained(rows[k]) { assert rows[k] in rows; }
    if table != [] && Chained(table[0]) {
      assert table[0] in rows;
    }
  }

  lemma NoLegacyIff(table: seq<Row>)
    ensures Legacy(table) == [] <==> forall i :: 0 <= i < |table| ==> Chained(table[i])
  {
    SortKeepsElements(Filter(table, Unchained), TimeIdLeq);
    FilterElements(table, Unchained);
    if forall i :: 0 <= i < |table| ==> Chained(table[i]) {
      FilterNone(table, Unchained);
    } else {
      var i :| 0 <= i < |table| && !Chained(table[i]);
      assert table[i] in Filter(table, Unchained);
    }
  }

  /** The repaired table verifies as Valid over all its chained rows exactly when every row the walk
      left alone already stored its final sequence and predecessor (and no legacy row is left and no
      enum column was tampered with): the one test the code makes is on the hash. */
  lemma RepairValidIff(h: Hasher, s: Store)
    requires Segment(s.table) != [] && UniqueIds(s.table) && PositiveKeys(s.table)
    ensures VerifyChain(h, AfterRepair(h, s)) == Valid(|Segment(s.table)|) <==>
            Legacy(s.table) == [] && Settled(h, Segment(s.table), 0, None) && AllCanonical(Segment(s.table))
  {
    var rows := Segment(s.table);
    var table := RepairedTable(h, s.table);
    RepairedTableIsPlace(h, s.table);
    RepairedKeysPositive(h, s.table);
    RepairedElements(h, s.table);
    RepairedLegacy(h, s.table);
    ValidFromGenesis(h, AfterRepair(h, s));
    RepairedSegmentIff(h, s.table, rows, table);
  }

  /** When the repaired segment is linked from genesis: it is then the repaired walk. */
  lemma RepairedSegmentIff(h: Hasher, was: seq<Row>, rows: seq<Row>, table: seq<Row>)
    requires UniqueIds(was) && PositiveKeys(was) && rows == Segment(was) && table == RepairedTable(h, was)
    ensures Linked(h, Segment(table), 0, None) <==> Settled(h, rows, 0, None) && AllCanonical(rows)
  {
    var repaired := Repaired(h, rows, 0, None);
    RepairedTableIsPlace(h, was);
    RepairedLinked(h, rows, 0, None);
    if Linked(h, Segment(table), 0, None) {
      LinkedIsWalk(h, was, Segment(table));
      assert Linked(h, repaired, 0, None);
    } else if Settled(h, rows, 0, None) {
      SettledIsWalk(h, was);
      assert !Linked(h, repaired, 0, None);
    }
  }

  lemma LinkedIsWalk(h: Hasher, was: seq<Row>, result: seq<Row>)
    requires UniqueIds(was) && PositiveKeys(was)
    requires result == Segment(Place(was, Repaired(h, Segment(was), 0, None))) && Linked(h, result, 0, None)
    ensures result == Repaired(h, Segment(was), 0, None)
  {
    RepairedElements(h, was);
    LinkedKeys(h, result, 0, None);
    assert |multiset(result)| == |multiset(Repaired(h, Segment(was), 0, None))|;
    NumberedInOrder(h, was, |Segment(was)|);
    NumberedIsSegment(h, was);
  }

  lemma SettledIsWalk(h: Hasher, was: seq<Row>)
    requires UniqueIds(was) && PositiveKeys(was) && Settled(h, Segment(was), 0, None)
    ensures Segment(Place(was, Repaired(h, Segment(was), 0, None))) == Repaired(h, Segment(was), 0, None)
  {
    SettledNumbers(h, Segment(was), 0, None);
    NumberedIsSegment(h, was);
  }

  lemma RepairedLegacy(h: Hasher, table: seq<Row>)
    requires UniqueIds(table)
    ensures Legacy(Place(table, Repaired(h, Segment(table), 0, None))) == [] <==> Legacy(table) == []
  {
    var placed := Place(table, Repaired(h, Segment(table), 0, None));
    NoLegacyIff(table);
    NoLegacyIff(placed);
    forall i | 0 <= i < |table| ensures Chained(placed[i]) == Chained(table[i]) {
      SubstituteKeepsChained(h, table, i);
    }
  }
}
