/** What `repair_chain` of crates/grith-audit/src/storage.rs writes, row by row, and what it counts. */
module RepairOutcome {
  import opened Basics
  import opened Totals
  import opened Chain
  import opened ChainStore
  import opened Repair

  /** The row at its place: left alone if its hash is the one it gets there, rewritten otherwise. */
  predicate RewrittenAt(h: Hasher, row: Row, after: Row, sequence: int, prev: Option<string>) {
    var hash := Some(h(row.content, sequence, prev));
    after == if row.recordHash == hash then row
             else row.(chainSequence := Some(sequence), prevHash := prev, recordHash := hash)
  }

  /** The hash the row at position `k` must name. */
  function HashBefore(out: seq<Row>, k: nat): Option<string>
    requires k <= |out|
  {
    if k == 0 then None else out[k - 1].recordHash
  }

  /** The rows of the chain in order, and what the repair makes of each. */
  ghost predicate RepairedTo(h: Hasher, rows: seq<Row>, out: seq<Row>) {
    |out| == |rows| && forall k :: 0 <= k < |rows| ==>
      RewrittenAt(h, rows[k], out[k], k + 1, HashBefore(out, k))
  }

  lemma RepairedMeans(h: Hasher, rows: seq<Row>)
    ensures RepairedTo(h, rows, Repaired(h, rows, 0, None))
  {
    var out := Repaired(h, rows, 0, None);
    forall k | 0 <= k < |rows|
      ensures RewrittenAt(h, rows[k], out[k], k + 1, HashBefore(out, k))
    {
      RepairedAt(h, rows, 0, None, k, k + 1);
    }
  }

  function Next(): int -> int { (k: int) => k + 1 }

  ghost function Changed(rows: seq<Row>, out: seq<Row>): set<int>
    requires |out| == |rows|
  {
    set k | 0 <= k < |rows| && out[k].recordHash != rows[k].recordHash
  }

  lemma ChangedSplits(rows: seq<Row>, out: seq<Row>)
    requires |out| == |rows| && rows != []
    ensures Changed(rows, out) ==
      (if out[0].recordHash != rows[0].recordHash then {0} else {}) + Image(Changed(rows[1..], out[1..]), Next())
  {
    var tail := Image(Changed(rows[1..], out[1..]), Next());
    forall k | 0 < k < |rows| ensures k in Changed(rows, out) <==> k in tail {
      assert rows[1..][k - 1] == rows[k] && out[1..][k - 1] == out[k];
      if k in Changed(rows, out) {
        assert k - 1 in Changed(rows[1..], out[1..]) && Next()(k - 1) == k;
      }
    }
  }

  /** The count is the number of rows whose hash the repair changed. */
  lemma {:induction false} CountMeans(rows: seq<Row>, out: seq<Row>)
    requires |out| == |rows|
    ensures RepairCount(rows, out) == |Changed(rows, out)|
  {
    if rows != [] {
      CountMeans(rows[1..], out[1..]);
      ChangedSplits(rows, out);
      ImageSize(Changed(rows[1..], out[1..]), Next());
      assert 0 !in Image(Changed(rows[1..], out[1..]), Next());
    }
  }

  /** Every row of the table after a repair: a row outside the chain as it was, a row of the chain as it
      comes out at its position. The checkpoint is dropped when a hash changed, the cached verdict always. */
  lemma RepairMeans(h: Hasher, s: Store) returns (out: seq<Row>)
    requires UniqueIds(s.table) && PositiveKeys(s.table) && Segment(s.table) != []
    ensures RepairedTo(h, Segment(s.table), out) && out == Repaired(h, Segment(s.table), 0, None)
    ensures
      var after := AfterRepair(h, s);
      && |after.table| == |s.table|
      && (forall i :: 0 <= i < |s.table| && s.table[i].chainSequence.None? ==> after.table[i] == s.table[i])
      && (forall i :: 0 <= i < |s.table| && s.table[i].chainSequence.Some? ==>
            exists k :: 0 <= k < |out| && Segment(s.table)[k] == s.table[i] && after.table[i] == out[k])
      && after.boundary == s.boundary && after.cache == None
      && after.checkpoint == if Changed(Segment(s.table), out) == {} then s.checkpoint else None
  {
    var rows := Segment(s.table);
    out := Repaired(h, rows, 0, None);
    RepairedMeans(h, rows);
    CountMeans(rows, out);
    RepairedTableIsPlace(h, s.table);
    forall i | 0 <= i < |s.table| && s.table[i].chainSequence.None?
      ensures AfterRepair(h, s).table[i] == s.table[i]
    {
      PlacedUnchained(h, s.table, i);
    }
    forall i | 0 <= i < |s.table| && s.table[i].chainSequence.Some?
      ensures exists k :: 0 <= k < |out| && rows[k] == s.table[i] && AfterRepair(h, s).table[i] == out[k]
    {
      var k := RowIndex(s.table, i);
      PlacedChained(h, s.table, i, k);
    }
  }

  /** A valid chain from genesis comes out of a repair as it went in, with its checkpoint. */
  lemma SoundChainStays(h: Hasher, s: Store)
    requires UniqueIds(s.table) && Segment(s.table) != [] && Linked(h, Segment(s.table), 0, None)
    ensures AfterRepair(h, s) == s.(cache := None)
    ensures RepairCount(Segment(s.table), Repaired(h, Segment(s.table), 0, None)) == 0
  {
    var rows := Segment(s.table);
    LinkedIsRepaired(h, rows, 0, None);
    LinkedKeys(h, rows, 0, None);
    SegmentMembers(s.table);
    forall k | 0 <= k < |s.table| && Chained(s.table[k]) ensures Key(s.table[k]) > 0 {
      assert s.table[k] in rows;
    }
    var out := RepairMeans(h, s);
    CountMeans(rows, rows);
    assert AfterRepair(h, s).table == s.table;
  }

  lemma {:induction false} LinkedIsRepaired(h: Hasher, rows: seq<Row>, start: int, prev: Option<string>)
    requires Linked(h, rows, start, prev)
    ensures Repaired(h, rows, start, prev) == rows
  {
    if rows != [] {
      LinkedIsRepaired(h, rows[1..], start + 1, rows[0].recordHash);
      assert rows == [rows[0]] + rows[1..];
    }
  }
}
