/** What the storage of crates/grith-audit/src/storage.rs appends, which anchor it accepts and what the
    checkpoint and the cache make of a verdict, in terms of the stored rows. */
module Verdicts {
  import opened Basics
  import opened Contract
  import opened Records
  import opened Chain
  import opened ChainStore

  // ---------- Ends of the segment ----------

  /** A row with the highest sequence, or the position of a table without one. */
  ghost predicate IsHead(table: seq<Row>, hash: Option<string>, sequence: int) {
    if exists k :: 0 <= k < |table| && table[k].chainSequence.Some? then
      (exists k :: 0 <= k < |table| && table[k].chainSequence == Some(sequence) && table[k].recordHash == hash)
      && forall k :: 0 <= k < |table| && table[k].chainSequence.Some? ==> table[k].chainSequence.value <= sequence
    else hash == None && sequence == 0
  }

  lemma HeadMeans(table: seq<Row>)
    ensures IsHead(table, ChainHead(table).0, ChainHead(table).1)
  {
    var rows := Segment(table);
    SegmentMembers(table);
    HeadBounds(table);
    if rows == [] {
      assert forall k :: 0 <= k < |table| && Chained(table[k]) ==> table[k] in rows;
    } else {
      var last := rows[|rows| - 1];
      assert last in rows;
      var k :| 0 <= k < |table| && table[k] == last;
      assert forall i :: 0 <= i < |table| && table[i].chainSequence.Some? ==> table[i] in table;
    }
  }

  /** The one row with the lowest sequence. */
  ghost predicate IsFirst(table: seq<Row>, row: Row) {
    && row in table && row.chainSequence.Some?
    && forall other :: other in table && other.chainSequence.Some? && other != row ==>
         row.chainSequence.value < other.chainSequence.value
  }

  lemma FirstMeans(table: seq<Row>, row: Row)
    requires IsFirst(table, row)
    ensures Segment(table) != [] && Segment(table)[0] == row
  {
    var rows := Segment(table);
    SegmentMembers(table);
    assert row in rows;
    assert rows[0] in rows;
    var k :| 0 <= k < |rows| && rows[k] == row;
    assert k > 0 ==> KeyLeq(rows[0], rows[k]);
  }

  /** A chain whose first row is at sequence 1 needs no anchor; any other needs a boundary at exactly the
      position and the hash that row names, and what is missing is reported. */
  lemma AnchorMeans(table: seq<Row>, boundary: Option<Boundary>, row: Row)
    requires IsFirst(table, row)
    ensures
      var first := row.chainSequence.value;
      ResolveAnchor(table, boundary) ==
        if first <= 1 then Genesis
        else match boundary
             case None => Unresolved(Unanchored(first))
             case Some(Boundary(sequence, hash)) =>
               if sequence == first - 1 && row.prevHash == Some(hash) then Anchored(Boundary(sequence, hash))
               else Unresolved(AnchorMismatch(sequence, hash, row.prevHash, first))
  {
    FirstMeans(table, row);
  }

  lemma EmptyNeedsNoAnchor(table: seq<Row>, boundary: Option<Boundary>)
    requires forall row :: row in table ==> row.chainSequence.None?
    ensures ResolveAnchor(table, boundary) == Genesis
  {
    SegmentMembers(table);
    assert forall row :: row !in Segment(table);
  }

  // ---------- What an append leaves ----------

  /** A record as a new row: chained behind the row before it, with its own hash, its enum columns as
      their values are written, and not synced yet. */
  predicate AppendedAt(h: Hasher, record: AuditRecord, row: Row, sequence: int, prev: Option<string>) {
    && row.content == record && row.chainSequence == Some(sequence) && row.prevHash == prev
    && row.recordHash == Some(h(record, sequence, prev))
    && row.rawRecordType == Some(RecordTypeName(record.recordType))
    && row.rawProxyAction == VerdictName(record.proxyAction)
    && !row.synced
  }

  lemma {:induction false} StampedRows(h: Hasher, batch: seq<AuditRecord>, last: int, prev: Option<string>, k: nat)
    requires k < |batch|
    ensures
      var rows := StampAll(h, batch, last, prev);
      AppendedAt(h, batch[k], rows[k], last + 1 + k, if k == 0 then prev else rows[k - 1].recordHash)
  {
    if k > 0 {
      StampedRows(h, batch[1..], last + 1, Stamp(h, batch[0], last + 1, prev).recordHash, k - 1);
    }
  }

  /** An accepted batch leaves the rows in place and adds one unsynced row for each record, in order, behind
      the row with the highest sequence; the cached verdict is gone and nothing else changes. */
  lemma AppendMeans(h: Hasher, s: Store, batch: seq<AuditRecord>)
    returns (rows: seq<Row>, last: int, prev: Option<string>)
    requires FreshIds(s.table, batch)
    ensures AfterInsert(h, s, batch) == Store(s.table + rows, s.checkpoint, s.boundary, None)
    ensures IsHead(s.table, prev, last) && |rows| == |batch|
    ensures forall k :: 0 <= k < |rows| ==>
      AppendedAt(h, batch[k], rows[k], last + 1 + k, if k == 0 then prev else rows[k - 1].recordHash)
  {
    prev, last := ChainHead(s.table).0, ChainHead(s.table).1;
    rows := StampAll(h, batch, last, prev);
    HeadMeans(s.table);
    forall k | 0 <= k < |rows|
      ensures AppendedAt(h, batch[k], rows[k], last + 1 + k, if k == 0 then prev else rows[k - 1].recordHash)
    {
      StampedRows(h, batch, last, prev, k);
    }
  }

  // ---------- Checkpoint and cache ----------

  lemma ChainedIff(table: seq<Row>)
    ensures Segment(table) != [] <==> exists k :: 0 <= k < |table| && table[k].chainSequence.Some?
  {
    SegmentMembers(table);
    if Segment(table) != [] {
      assert Segment(table)[0] in Segment(table);
      var k :| 0 <= k < |table| && table[k] == Segment(table)[0];
    }
    if exists k :: 0 <= k < |table| && table[k].chainSequence.Some? {
      var k :| 0 <= k < |table| && table[k].chainSequence.Some?;
      assert table[k] in Segment(table);
    }
  }

  /** Incremental verification writes the checkpoint and nothing else. A Valid answer over a chain leaves
      it at the head, with the head's hash unless it was there before; any other answer leaves it alone. */
  lemma CheckpointMeans(h: Hasher, s: Store)
    ensures
      var after := AfterIncremental(h, s);
      && after == s.(checkpoint := after.checkpoint)
      && (if IncrementalResult(h, s).Valid? && exists k :: 0 <= k < |s.table| && s.table[k].chainSequence.Some? then
            after.checkpoint.Some?
            && var hash := if after.checkpoint == s.checkpoint then ChainHead(s.table).0
                           else after.checkpoint.value.lastVerifiedRecordHash;
               IsHead(s.table, hash, after.checkpoint.value.lastVerifiedSequence)
          else after.checkpoint == s.checkpoint)
  {
    HeadMeans(s.table);
    ChainedIff(s.table);
  }

  /** A cached verdict is given again whatever has become of the table, until an append, a backfill, a
      repair or a prune drops it. */
  lemma CachedAnswerStays(h: Hasher, s: Store, table: seq<Row>)
    ensures AfterCached(h, s).cache == Some(CachedResult(h, s))
    ensures CachedResult(h, AfterCached(h, s).(table := table)) == CachedResult(h, s)
    ensures s.cache.None? ==> CachedResult(h, s) == IncrementalResult(h, s)
    ensures AfterCached(h, s).(cache := None) == (if s.cache.None? then AfterIncremental(h, s) else s).(cache := None)
  {
  }
}
