/** The audit storage of crates/grith-audit/src/storage.rs: one table, its chain metadata and the
    verification cache, updated in place. A transaction is one atomic step; SQL queries are the
    functions of Chain.dfy. */
module Storage {
  import opened Basics
  import opened Records
  import opened Sorting
  import opened Chain
  import opened ChainStore
  import opened Repair
  import opened RepairPasses

  class AuditStorage {
    const hasher: Hasher
    var table: seq<Row>
    var checkpoint: Option<Checkpoint>
    var boundary: Option<Boundary>
    var cache: Option<ChainVerification>
    var quarantined: bool

    function State(): Store
      reads this
    {
      Store(table, checkpoint, boundary, cache)
    }

    constructor (hasher: Hasher)
      ensures this.hasher == hasher && !quarantined
      ensures State() == Store([], None, None, None)
    {
      this.hasher := hasher;
      table, checkpoint, boundary, cache, quarantined := [], None, None, None, false;
    }

    // ---------- Appending ----------

    /** One record, chained behind the head read in the same transaction. The new sequence is
        free, so the unique index never makes this path retry. */
    method InsertRecord(record: AuditRecord) returns (r: Result<(), StoreError>)
      modifies this
      ensures quarantined == old(quarantined)
      ensures quarantined ==> r == Err(ChainQuarantined)
      ensures !quarantined && HasId(old(table), record.id) ==> r == Err(DuplicateId)
      ensures r.Err? ==> State() == old(State())
      ensures r.Ok? ==> State() == AfterInsert(hasher, old(State()), [record]) && !HasId(old(table), record.id)
      ensures r.Ok? ==> forall row :: row in old(table) && Chained(row) ==> Key(row) < ChainHead(table).1
    {
      if quarantined {
        return Err(ChainQuarantined);
      }
      if HasId(table, record.id) {
        return Err(DuplicateId);
      }
      var (prev, last) := ChainHead(table);
      var row := Stamp(hasher, record, last + 1, prev);
      HeadBounds(table);
      SegmentAppend(table, row);
      assert StampAll(hasher, [record], last, prev) == [row] by {
        assert [record][1..] == [];
      }
      table := table + [row];
      cache := None;
      r := Ok(());
    }

    /** A batch in one transaction: all of it or, when an id is already taken, none. */
    method InsertBatch(records: seq<AuditRecord>) returns (r: Result<(), StoreError>)
      modifies this
      ensures quarantined == old(quarantined)
      ensures quarantined ==> r == Err(ChainQuarantined)
      ensures !quarantined ==> (r.Ok? <==> FreshIds(old(table), records))
      ensures r.Err? ==> State() == old(State())
      ensures r.Ok? ==> State() == AfterInsert(hasher, old(State()), records)
    {
      if quarantined {
        return Err(ChainQuarantined);
      }
      var accepted, rows := RunBatch(hasher, table, records);
      if !accepted {
        return Err(DuplicateId);
      }
      table, cache := table + rows, None;
      r := Ok(());
    }

    // ---------- Backfill and repair ----------

    /** Chains the rows that have no sequence yet, oldest first, behind the head. */
    method BackfillChainForLegacyRows() returns (updated: nat)
      modifies this
      ensures quarantined == old(quarantined)
      ensures State() == AfterBackfill(hasher, old(State()), Legacy(old(table)))
      ensures updated == |Legacy(old(table))|
    {
      var legacy := Legacy(table);
      if |legacy| == 0 {
        return 0;
      }
      table := RunBackfill(hasher, table, legacy);
      cache := None;
      updated := |legacy|;
    }

    /** Renumbers the whole chain through negative placeholders and flips their signs at the end. */
    method RepairChain() returns (repaired: nat)
      requires UniqueIds(table)
      modifies this
      ensures quarantined == old(quarantined)
      ensures State() == AfterRepair(hasher, old(State()))
      ensures repaired == RepairCount(Segment(old(table)), Repaired(hasher, Segment(old(table)), 0, None))
    {
      var rows := Segment(table);
      if |rows| == 0 {
        return 0;
      }
      ghost var all := Repaired(hasher, rows, 0, None);
      var tx, count := RunRepair(hasher, table, rows, all, Placeholders(rows, all));
      table := Map(tx, Flip);
      if count > 0 {
        checkpoint := None;
      }
      cache := None;
      repaired := count;
    }

    // ---------- Verification ----------

    method ResolveVerificationAnchor() returns (a: AnchorResolution)
      ensures a == ResolveAnchor(table, boundary)
    {
      var rows := Segment(table);
      if |rows| == 0 {
        return Genesis;
      }
      var first := Key(rows[0]);
      if first <= 1 {
        return Genesis;
      }
      match boundary
      case None => a := Unresolved(Unanchored(first));
      case Some(b) =>
        if b.lastArchivedSequence + 1 == first && rows[0].prevHash == Some(b.lastArchivedRecordHash) {
          a := Anchored(b);
        } else {
          a := Unresolved(AnchorMismatch(b.lastArchivedSequence, b.lastArchivedRecordHash, rows[0].prevHash, first));
        }
    }

    method VerifyChainFrom(start: int, seed: Option<string>, already: nat) returns (v: ChainVerification)
      ensures v == VerifyFrom(hasher, table, start, seed, already)
    {
      if |table| == 0 {
        return Empty;
      }
      if start == 0 {
        var legacy := Legacy(table);
        if |legacy| > 0 {
          return Broken(0, legacy[0].content.id, MissingSequence);
        }
      }
      var rows := SegmentAbove(table, start);
      v := WalkRows(hasher, rows, start, seed, already);
    }

    method VerifyChain() returns (v: ChainVerification)
      ensures v == ChainStore.VerifyChain(hasher, State())
    {
      var a := ResolveVerificationAnchor();
      match a
      case Genesis => v := VerifyChainFrom(0, None, 0);
      case Anchored(b) =>
        v := VerifyChainFrom(b.lastArchivedSequence, Some(b.lastArchivedRecordHash), Max0(b.lastArchivedSequence));
      case Unresolved(outcome) => v := outcome;
    }

    method IncrementalVerifyChain() returns (v: ChainVerification)
      modifies this`checkpoint
      ensures v == IncrementalResult(hasher, old(State()))
      ensures State() == AfterIncremental(hasher, old(State()))
    {
      match checkpoint {
        case Some(c) =>
          v := VerifyChainFrom(c.lastVerifiedSequence, c.lastVerifiedRecordHash, Max0(c.lastVerifiedSequence));
        case None =>
          v := VerifyChain();
      }
      if v.Valid? {
        var rows := Segment(table);
        if |rows| > 0 {
          var head := rows[|rows| - 1];
          if checkpoint.None? || checkpoint.value.lastVerifiedSequence != Key(head) {
            checkpoint := Some(Checkpoint(Key(head), head.recordHash));
          }
        }
      }
    }

    method CachedVerifyChain() returns (v: ChainVerification)
      modifies this`checkpoint, this`cache
      ensures v == CachedResult(hasher, old(State()))
      ensures State() == AfterCached(hasher, old(State()))
    {
      if cache.Some? {
        return cache.value;
      }
      v := IncrementalVerifyChain();
      cache := Some(v);
    }

    // ---------- Pruning ----------

    /** The transaction: deletes the prefix, moves the checkpoint forward if it is behind and publishes
        the boundary with the hash that was read before it began. */
    method CutPrefix(maxSequence: int, headHash: string)
      modifies this
      ensures quarantined == old(quarantined)
      ensures State() == AfterCut(old(State()), maxSequence, headHash)
    {
      table := Filter(table, Survives(maxSequence));
      if checkpoint.None? || checkpoint.value.lastVerifiedSequence < maxSequence {
        checkpoint := Some(Checkpoint(maxSequence, Some(headHash)));
      }
      boundary := Some(Boundary(maxSequence, headHash));
      cache := None;
    }

    /** Reads the hash at the bound and the number of rows up to it, then runs the transaction. */
    method DeletePrefix(maxSequence: int) returns (r: Result<nat, StoreError>)
      modifies this
      ensures quarantined == old(quarantined)
      ensures State() == AfterDelete(old(State()), maxSequence)
      ensures r.Ok? && r.value == 0 ==> State() == old(State())
      ensures r.Ok? ==> r.value == |old(table)| - |table|
      ensures r.Err? <==> maxSequence > 0 && RowAt(old(table), maxSequence).Some?
                          && RowAt(old(table), maxSequence).value.recordHash.None?
    {
      if maxSequence <= 0 {
        return Ok(0);
      }
      var found := RowAt(table, maxSequence);
      if found.None? {
        return Ok(0);
      }
      var headHash := found.value.recordHash;
      if headHash.None? {
        return Err(MalformedRow);
      }
      var count := |table| - |Filter(table, Survives(maxSequence))|;
      FilterElements(table, Survives(maxSequence));
      FilterElements(table, AtSequence(maxSequence));
      DeletesSome(table, maxSequence, found.value);
      CutPrefix(maxSequence, headHash.value);
      r := Ok(count);
    }

    /** Publishes a recovered boundary. */
    method StoreArchiveBoundary(b: Boundary)
      modifies this`boundary, this`cache
      ensures State() == old(State()).(boundary := Some(b), cache := None)
    {
      boundary, cache := Some(b), None;
    }
  }

  /** The walk: expected sequence, previous hash and count are carried row by row, and the first
      row that fails a check ends it. */
  method WalkRows(h: Hasher, rows: seq<Row>, start: int, seed: Option<string>, already: nat)
    returns (v: ChainVerification)
    ensures v == Walk(h, rows, start, seed, already)
  {
    var prev, count := seed, already;
    for i := 0 to |rows|
      invariant Walk(h, rows[i..], start + i, prev, count) == Walk(h, rows, start, seed, already)
    {
      var row := rows[i];
      WalkNext(h, rows, i, start, prev, count);
      count := count + 1;
      if Key(row) != start + 1 + i {
        return Broken(Key(row), row.content.id, NonContiguous);
      }
      if row.prevHash != prev {
        return Broken(Key(row), row.content.id, PrevHashMismatch);
      }
      if row.recordHash != Some(h(row.content, Key(row), row.prevHash)) {
        return Broken(Key(row), row.content.id, RecordHashMismatch);
      }
      if !CanonicalEnums(row) {
        return Broken(Key(row), row.content.id, NonCanonicalEnum);
      }
      prev := row.recordHash;
    }
    v := Valid(count);
  }

  /** The body of a batch transaction: stamps record after record behind the head, until an insert
      meets a taken id. */
  method RunBatch(h: Hasher, table: seq<Row>, records: seq<AuditRecord>) returns (accepted: bool, rows: seq<Row>)
    ensures accepted <==> FreshIds(table, records)
    ensures accepted ==> rows == StampAll(h, records, ChainHead(table).1, ChainHead(table).0)
  {
    var (prev, last) := ChainHead(table);
    ghost var stamped := StampAll(h, records, last, prev);
    rows := [];
    assert records[0..] == records && [] + stamped == stamped;
    for i := 0 to |records|
      invariant rows + StampAll(h, records[i..], last, prev) == stamped
      invariant Holds(rows, records, i)
      invariant FreshIds(table, records[..i])
    {
      if HasId(table + rows, records[i].id) {
        ClashIsStale(table, rows, records, i);
        return false, rows;
      }
      FreshExtends(table, rows, records, i);
      var row := Stamp(h, records[i], last + 1, prev);
      HoldsNext(rows, records, i, row);
      StampedNext(h, rows, records, i, last, prev);
      rows := rows + [row];
      prev, last := row.recordHash, last + 1;
    }
    assert records[|records|..] == [] && records[..|records|] == records;
    accepted := true;
  }

  /** The body of a backfill transaction, over the rows read before it began. */
  method RunBackfill(h: Hasher, table: seq<Row>, legacy: seq<Row>) returns (tx: seq<Row>)
    ensures tx == Backfilled(h, table, legacy, ChainHead(table).1, ChainHead(table).0)
  {
    var (prev, last) := ChainHead(table);
    ghost var result := Backfilled(h, table, legacy, last, prev);
    tx := table;
    assert legacy[0..] == legacy;
    for i := 0 to |legacy|
      invariant Backfilled(h, tx, legacy[i..], last, prev) == result
    {
      assert legacy[i..][0] == legacy[i] && legacy[i..][1..] == legacy[i + 1..];
      last := last + 1;
      var hash := Some(h(legacy[i].content, last, prev));
      tx := WriteRow(tx, legacy[i].content.id, last, prev, hash);
      prev := hash;
    }
  }

  /** One record moves from the rest of the batch into the open transaction. */
  lemma StampedNext(h: Hasher, rows: seq<Row>, records: seq<AuditRecord>, i: nat, last: int, prev: Option<string>)
    requires i < |records|
    ensures
      var row := Stamp(h, records[i], last + 1, prev);
      rows + StampAll(h, records[i..], last, prev)
      == rows + [row] + StampAll(h, records[i + 1..], last + 1, row.recordHash)
  {
    var row := Stamp(h, records[i], last + 1, prev);
    StampAllNext(h, records, i, last, prev);
    ConcatAssociates(rows, [row], StampAll(h, records[i + 1..], last + 1, row.recordHash));
  }

  /** The open transaction holds the first `i` records of the batch. */
  ghost predicate Holds(rows: seq<Row>, records: seq<AuditRecord>, i: nat)
    requires i <= |records|
  {
    |rows| == i && forall k :: 0 <= k < i ==> rows[k].content == records[k]
  }

  lemma HoldsNext(rows: seq<Row>, records: seq<AuditRecord>, i: nat, row: Row)
    requires i < |records| && Holds(rows, records, i) && row.content == records[i]
    ensures Holds(rows + [row], records, i + 1)
  {
  }

  /** An id found in the open transaction is one the batch may not use. */
  lemma ClashIsStale(table: seq<Row>, done: seq<Row>, records: seq<AuditRecord>, i: nat)
    requires i < |records| && Holds(done, records, i)
    requires HasId(table + done, records[i].id)
    ensures !FreshIds(table, records)
  {
    var k :| 0 <= k < |table + done| && (table + done)[k].content.id == records[i].id;
    if k < |table| {
      assert HasId(table, records[i].id);
    } else {
      assert records[k - |table|].id == records[i].id;
    }
  }

  lemma FreshExtends(table: seq<Row>, done: seq<Row>, records: seq<AuditRecord>, i: nat)
    requires i < |records| && Holds(done, records, i)
    requires !HasId(table + done, records[i].id) && FreshIds(table, records[..i])
    ensures FreshIds(table, records[..i + 1])
  {
    forall k | 0 <= k < i ensures records[k].id != records[i].id {
      assert (table + done)[|table| + k].content == records[k];
    }
    assert !HasId(table, records[i].id) by {
      forall k | 0 <= k < |table| ensures table[k].content.id != records[i].id {
        assert (table + done)[k] == table[k];
      }
    }
  }

  lemma {:induction false} DeletesSome(table: seq<Row>, maxSequence: int, row: Row)
    requires row in table && Chained(row) && Key(row) <= maxSequence
    ensures |Filter(table, Survives(maxSequence))| < |table|
  {
    FilterElements(table[1..], Survives(maxSequence));
    if table[0] != row {
      DeletesSome(table[1..], maxSequence, row);
    }
  }
}
