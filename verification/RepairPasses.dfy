/** The two passes of `repair_chain` (crates/grith-audit/src/storage.rs) as updates of the table:
    no intermediate state holds a sequence twice, and the loop computes what Repair.dfy describes. */
module RepairPasses {
  import opened Basics
  import opened Records
  import opened Sorting
  import opened Chain
  import opened ChainStore
  import opened Repair

  // ---------- No sequence is held twice on the way ----------

  ghost predicate DistinctKeys(table: seq<Row>) {
    forall i, j :: 0 <= i < j < |table| && Chained(table[i]) && Chained(table[j]) ==> Key(table[i]) != Key(table[j])
  }

  /** The sequence row `k` of the walk holds once the first pass has reached row `done`. */
  function HeldKey(h: Hasher, rows: seq<Row>, done: nat, k: nat): int
    requires k < |rows|
  {
    if k < done && rows[k].recordHash != Repaired(h, rows, 0, None)[k].recordHash then -(k + 1) else Key(rows[k])
  }

  lemma HeldKeyAt(h: Hasher, table: seq<Row>, done: nat, a: nat, k: nat)
    requires UniqueIds(table) && a < |table| && k < |Segment(table)| && Segment(table)[k] == table[a]
    requires done <= |Segment(table)|
    ensures Key(Place(table, Placeholders(Segment(table), Repaired(h, Segment(table), 0, None))[..done])[a])
         == HeldKey(h, Segment(table), done, k)
  {
    var rows := Segment(table);
    var repaired := Repaired(h, rows, 0, None);
    var held := Placeholders(rows, repaired);
    HeldUniqueIds(h, table);
    if k < done {
      FindAt(held[..done], k);
      RepairedAt(h, rows, 0, None, k, k + 1);
    } else {
      FindMissing(held[..done], table[a].content.id);
    }
  }

  /** The first pass never touches a legacy row. */
  lemma LegacyUntouched(h: Hasher, table: seq<Row>, done: nat, a: nat)
    requires UniqueIds(table) && a < |table| && !Chained(table[a]) && done <= |Segment(table)|
    ensures Place(table, Placeholders(Segment(table), Repaired(h, Segment(table), 0, None))[..done])[a] == table[a]
  {
    RepairedKeepsIds(h, Segment(table));
    NotInSegment(table, a);
    FindMissing(Placeholders(Segment(table), Repaired(h, Segment(table), 0, None))[..done], table[a].content.id);
  }

  /** After any number of its updates the first pass leaves no sequence on two rows. */
  lemma FirstPassDistinct(h: Hasher, table: seq<Row>, done: nat)
    requires UniqueIds(table) && DistinctKeys(table) && PositiveKeys(table) && done <= |Segment(table)|
    ensures DistinctKeys(Place(table, Placeholders(Segment(table), Repaired(h, Segment(table), 0, None))[..done]))
  {
    var tx := Place(table, Placeholders(Segment(table), Repaired(h, Segment(table), 0, None))[..done]);
    forall a, b | 0 <= a < b < |tx| && Chained(tx[a]) && Chained(tx[b]) ensures Key(tx[a]) != Key(tx[b]) {
      HeldApart(h, table, done, a, b);
    }
  }

  lemma HeldApart(h: Hasher, table: seq<Row>, done: nat, a: nat, b: nat)
    requires UniqueIds(table) && DistinctKeys(table) && PositiveKeys(table) && done <= |Segment(table)|
    requires a < b < |table|
    ensures
      var tx := Place(table, Placeholders(Segment(table), Repaired(h, Segment(table), 0, None))[..done]);
      Chained(tx[a]) && Chained(tx[b]) ==> Key(tx[a]) != Key(tx[b])
  {
    if !Chained(table[a]) {
      LegacyUntouched(h, table, done, a);
    } else if !Chained(table[b]) {
      LegacyUntouched(h, table, done, b);
    } else {
      var k := RowIndex(table, a);
      var l := RowIndex(table, b);
      HeldKeyAt(h, table, done, a, k);
      HeldKeyAt(h, table, done, b, l);
      HeldKeysDiffer(h, Segment(table), done, k, l);
    }
  }

  lemma HeldKeysDiffer(h: Hasher, rows: seq<Row>, done: nat, k: nat, l: nat)
    requires k < |rows| && l < |rows| && Key(rows[k]) > 0 && Key(rows[l]) > 0 && Key(rows[k]) != Key(rows[l])
    ensures HeldKey(h, rows, done, k) != HeldKey(h, rows, done, l)
  {
  }

  /** While the second pass flips signs row by row no sequence is on two rows either, as long as the
      rows left alone already hold their final sequence. */
  lemma SecondPassDistinct(h: Hasher, table: seq<Row>, flipped: nat)
    requires UniqueIds(table) && flipped <= |table|
    requires Settled(h, Segment(table), 0, None)
    ensures
      var tx := Place(table, Placeholders(Segment(table), Repaired(h, Segment(table), 0, None)));
      DistinctKeys(Map(tx[..flipped], Flip) + tx[flipped..])
  {
    var tx := Place(table, Placeholders(Segment(table), Repaired(h, Segment(table), 0, None)));
    var mid := Map(tx[..flipped], Flip) + tx[flipped..];
    forall a, b | 0 <= a < b < |mid| && Chained(mid[a]) && Chained(mid[b]) ensures Key(mid[a]) != Key(mid[b]) {
      MidKeysDiffer(h, table, flipped, a, b);
    }
  }

  lemma MidKeysDiffer(h: Hasher, table: seq<Row>, flipped: nat, a: nat, b: nat)
    requires UniqueIds(table) && flipped <= |table| && a < b < |table|
    requires Settled(h, Segment(table), 0, None)
    ensures
      var tx := Place(table, Placeholders(Segment(table), Repaired(h, Segment(table), 0, None)));
      var mid := Map(tx[..flipped], Flip) + tx[flipped..];
      Chained(mid[a]) && Chained(mid[b]) ==> Key(mid[a]) != Key(mid[b])
  {
    if !Chained(table[a]) {
      MidLegacy(h, table, flipped, a);
    } else if !Chained(table[b]) {
      MidLegacy(h, table, flipped, b);
    } else {
      var k := MidKey(h, table, flipped, a);
      var l := MidKey(h, table, flipped, b);
      assert k != l;
    }
  }

  lemma MidLegacy(h: Hasher, table: seq<Row>, flipped: nat, a: nat)
    requires UniqueIds(table) && flipped <= |table| && a < |table| && !Chained(table[a])
    ensures
      var tx := Place(table, Placeholders(Segment(table), Repaired(h, Segment(table), 0, None)));
      !Chained((Map(tx[..flipped], Flip) + tx[flipped..])[a])
  {
    PlacedUnchained(h, table, a);
    MidAt(Place(table, Placeholders(Segment(table), Repaired(h, Segment(table), 0, None))), flipped, a);
  }

  /** One row of the table while the second pass runs. */
  lemma MidAt(tx: seq<Row>, flipped: nat, a: nat)
    requires flipped <= |tx| && a < |tx|
    ensures (Map(tx[..flipped], Flip) + tx[flipped..])[a] == if a < flipped then Flip(tx[a]) else tx[a]
  {
  }

  lemma MidKey(h: Hasher, table: seq<Row>, flipped: nat, a: nat) returns (k: nat)
    requires UniqueIds(table) && flipped <= |table| && a < |table| && Chained(table[a])
    requires Settled(h, Segment(table), 0, None)
    ensures k < |Segment(table)| && Segment(table)[k] == table[a]
    ensures
      var tx := Place(table, Placeholders(Segment(table), Repaired(h, Segment(table), 0, None)));
      var row := (Map(tx[..flipped], Flip) + tx[flipped..])[a];
      Key(row) == k + 1 || Key(row) == -(k + 1)
  {
    k := RowIndex(table, a);
    var rows := Segment(table);
    var held := Placeholders(rows, Repaired(h, rows, 0, None));
    assert held[..|rows|] == held;
    HeldKeyAt(h, table, |rows|, a, k);
    HeldKeySettled(h, rows, k);
    MidAt(Place(table, held), flipped, a);
  }

  /** Once every row is settled or negated, a row's sequence is its place up to sign. */
  lemma HeldKeySettled(h: Hasher, rows: seq<Row>, k: nat)
    requires k < |rows| && Settled(h, rows, 0, None)
    ensures HeldKey(h, rows, |rows|, k) == k + 1 || HeldKey(h, rows, |rows|, k) == -(k + 1)
  {
    RepairedAt(h, rows, 0, None, k, k + 1);
    SettledNumbers(h, rows, 0, None);
  }

  // ---------- The updates ----------

  lemma PlaceNothing(table: seq<Row>)
    ensures Place(table, []) == table
  {
  }

  lemma {:induction false} FindSnoc(rows: seq<Row>, x: Row, id: Uuid)
    ensures Find(rows + [x], id) ==
      if Find(rows, id).Some? then Find(rows, id) else if x.content.id == id then Some(x) else None
  {
    if rows == [] {
      assert rows + [x] == [x] && [x][1..] == [];
    } else {
      FindSnoc(rows[1..], x, id);
      assert (rows + [x])[1..] == rows[1..] + [x];
    }
  }

  /** One update of the first pass extends what is placed by one row. */
  lemma PlaceNext(h: Hasher, table: seq<Row>, i: nat)
    requires UniqueIds(table) && i < |Segment(table)|
    ensures
      var rows := Segment(table);
      var repaired := Repaired(h, rows, 0, None);
      var held := Placeholders(rows, repaired);
      Place(table, held[..i + 1]) ==
        if rows[i].recordHash == repaired[i].recordHash then Place(table, held[..i])
        else WriteRow(Place(table, held[..i]), rows[i].content.id, -(i + 1), PrevAt(repaired, i, None),
          repaired[i].recordHash)
  {
    var rows := Segment(table);
    var held := Placeholders(rows, Repaired(h, rows, 0, None));
    var before := Place(table, held[..i]);
    var after := Place(table, held[..i + 1]);
    forall a | 0 <= a < |table| ensures after[a] == PlacedNext(h, table, i, before[a]) {
      PlaceNextAt(h, table, i, a);
    }
    PlacedNextIsWrite(h, table, i, before, after);
  }

  lemma PlacedNextIsWrite(h: Hasher, table: seq<Row>, i: nat, before: seq<Row>, after: seq<Row>)
    requires i < |Segment(table)| && |before| == |after|
    requires forall a :: 0 <= a < |before| ==> after[a] == PlacedNext(h, table, i, before[a])
    ensures
      var rows := Segment(table);
      var repaired := Repaired(h, rows, 0, None);
      after == if rows[i].recordHash == repaired[i].recordHash then before
               else WriteRow(before, rows[i].content.id, -(i + 1), PrevAt(repaired, i, None), repaired[i].recordHash)
  {
  }

  /** The update as it acts on one row. */
  function PlacedNext(h: Hasher, table: seq<Row>, i: nat, row: Row): Row
    requires i < |Segment(table)|
  {
    var rows := Segment(table);
    var repaired := Repaired(h, rows, 0, None);
    if rows[i].recordHash == repaired[i].recordHash || row.content.id != rows[i].content.id then row
    else row.(chainSequence := Some(-(i + 1)), prevHash := PrevAt(repaired, i, None),
      recordHash := repaired[i].recordHash)
  }

  lemma PlaceNextAt(h: Hasher, table: seq<Row>, i: nat, a: nat)
    requires UniqueIds(table) && i < |Segment(table)| && a < |table|
    ensures
      var held := Placeholders(Segment(table), Repaired(h, Segment(table), 0, None));
      Place(table, held[..i + 1])[a] == PlacedNext(h, table, i, Place(table, held[..i])[a])
  {
    var rows := Segment(table);
    var held := Placeholders(rows, Repaired(h, rows, 0, None));
    HeldUniqueIds(h, table);
    if table[a].content.id == rows[i].content.id {
      RowOfId(table, a, i);
      HeldIsUpdate(h, rows, Repaired(h, rows, 0, None), i);
      SubstituteNew(held, i, table[a]);
    } else {
      SubstituteOther(held, i, table[a]);
    }
  }

  lemma SubstituteNew(held: seq<Row>, i: nat, row: Row)
    requires i < |held| && UniqueIds(held) && held[i].content.id == row.content.id
    ensures Substitute(held[..i])(row) == row && Substitute(held[..i + 1])(row) == held[i]
  {
    assert held[..i + 1] == held[..i] + [held[i]];
    FindSnoc(held[..i], held[i], row.content.id);
    FindMissing(held[..i], row.content.id);
  }

  lemma SubstituteOther(held: seq<Row>, i: nat, row: Row)
    requires i < |held| && held[i].content.id != row.content.id
    ensures Substitute(held[..i + 1])(row) == Substitute(held[..i])(row)
    ensures Substitute(held[..i])(row).content.id == row.content.id
  {
    assert held[..i + 1] == held[..i] + [held[i]];
    FindSnoc(held[..i], held[i], row.content.id);
    FoundKeepsId(held[..i], row.content.id);
  }

  lemma HeldIsUpdate(h: Hasher, rows: seq<Row>, repaired: seq<Row>, i: nat)
    requires i < |rows| && repaired == Repaired(h, rows, 0, None)
    ensures
      Placeholder(rows[i], repaired[i]) ==
        if rows[i].recordHash == repaired[i].recordHash then rows[i]
        else rows[i].(chainSequence := Some(-(i + 1)), prevHash := PrevAt(repaired, i, None),
          recordHash := repaired[i].recordHash)
  {
    RepairedAt(h, rows, 0, None, i, i + 1);
    PlaceholderOf(h, rows[i], i + 1, PrevAt(repaired, i, None));
  }

  lemma PlaceholderOf(h: Hasher, row: Row, sequence: int, prev: Option<string>)
    ensures
      var repaired := RepairedRow(h, row, sequence, prev);
      Placeholder(row, repaired) ==
        if row.recordHash == repaired.recordHash then row
        else row.(chainSequence := Some(-sequence), prevHash := prev, recordHash := repaired.recordHash)
  {
  }

  lemma {:induction false} FoundKeepsId(rows: seq<Row>, id: Uuid)
    ensures Find(rows, id).Some? ==> Find(rows, id).value.content.id == id
  {
    if rows != [] {
      FoundKeepsId(rows[1..], id);
    }
  }

  lemma RowOfId(table: seq<Row>, a: nat, i: nat)
    requires UniqueIds(table) && a < |table| && i < |Segment(table)|
    requires table[a].content.id == Segment(table)[i].content.id
    ensures table[a] == Segment(table)[i]
  {
    SegmentMembers(table);
    assert Segment(table)[i] in table;
    var b :| 0 <= b < |table| && table[b] == Segment(table)[i];
  }

  lemma {:induction false} RepairCountSnoc(rows: seq<Row>, repaired: seq<Row>, i: nat)
    requires |rows| == |repaired| && i < |rows|
    ensures RepairCount(rows[..i + 1], repaired[..i + 1]) ==
      RepairCount(rows[..i], repaired[..i]) + if rows[i].recordHash == repaired[i].recordHash then 0 else 1
  {
    if i > 0 {
      RepairCountSnoc(rows[1..], repaired[1..], i - 1);
      assert rows[..i + 1][1..] == rows[1..][..i] && repaired[..i + 1][1..] == repaired[1..][..i];
      assert rows[..i][1..] == rows[1..][..i - 1] && repaired[..i][1..] == repaired[1..][..i - 1];
    }
  }

  lemma RepairedHashAt(h: Hasher, rows: seq<Row>, i: nat)
    requires i < |rows|
    ensures
      var all := Repaired(h, rows, 0, None);
      all[i].recordHash == Some(h(rows[i].content, i + 1, PrevAt(all, i, None)))
  {
    RepairedAt(h, rows, 0, None, i, i + 1);
  }

  /** One iteration of the first pass, from what is placed so far. */
  lemma RepairStep(
    h: Hasher, table: seq<Row>, rows: seq<Row>, all: seq<Row>, held: seq<Row>, i: nat, tx: seq<Row>,
    prev: Option<string>)
    requires UniqueIds(table) && rows == Segment(table) && i < |rows|
    requires all == Repaired(h, rows, 0, None) && held == Placeholders(rows, all)
    requires tx == Place(table, held[..i]) && prev == PrevAt(all, i, None)
    ensures all[i].recordHash == Some(h(rows[i].content, i + 1, prev))
    ensures Place(table, held[..i + 1]) ==
      if rows[i].recordHash == all[i].recordHash then tx
      else WriteRow(tx, rows[i].content.id, -(i + 1), prev, all[i].recordHash)
    ensures RepairCount(rows[..i + 1], all[..i + 1]) ==
      RepairCount(rows[..i], all[..i]) + if rows[i].recordHash == all[i].recordHash then 0 else 1
  {
    RepairedHashAt(h, rows, i);
    PlaceNext(h, table, i);
    RepairCountSnoc(rows, all, i);
  }

  lemma RepairEnds(table: seq<Row>, rows: seq<Row>, all: seq<Row>, held: seq<Row>)
    requires |rows| == |all| == |held|
    ensures Place(table, held[..0]) == table && Place(table, held[..|rows|]) == Place(table, held)
    ensures RepairCount(rows[..0], all[..0]) == 0
      && RepairCount(rows[..|rows|], all[..|rows|]) == RepairCount(rows, all)
  {
    PlaceNothing(table);
    assert held[..0] == [] && rows[..0] == [] && all[..0] == [];
    assert held[..|rows|] == held && rows[..|rows|] == rows && all[..|rows|] == all;
  }

  /** The first pass: row after row of the walk is compared with its repaired hash and, if that
      differs, written under its negative placeholder. */
  method RunRepair(h: Hasher, table: seq<Row>, rows: seq<Row>, ghost all: seq<Row>, ghost held: seq<Row>)
    returns (tx: seq<Row>, repaired: nat)
    requires UniqueIds(table) && rows == Segment(table)
    requires all == Repaired(h, rows, 0, None) && held == Placeholders(rows, all)
    ensures tx == Place(table, held) && repaired == RepairCount(rows, all)
  {
    tx, repaired := table, 0;
    var prev: Option<string> := None;
    RepairEnds(table, rows, all, held);
    for i := 0 to |rows|
      invariant tx == Place(table, held[..i])
      invariant prev == PrevAt(all, i, None)
      invariant repaired == RepairCount(rows[..i], all[..i])
    {
      var expected := h(rows[i].content, i + 1, prev);
      RepairStep(h, table, rows, all, held, i, tx, prev);
      if rows[i].recordHash != Some(expected) {
        tx := WriteRow(tx, rows[i].content.id, -(i + 1), prev, Some(expected));
        repaired := repaired + 1;
      }
      prev := Some(expected);
    }
  }
}
