/** What the storage functions of crates/grith-audit/src/storage.rs compute, over values: the
    class in Storage.dfy is proved against these. */
module ChainStore {
  import opened Basics
  import opened Records
  import opened Sorting
  import opened Chain

  /** High-water mark of incremental verification. */
  datatype Checkpoint = Checkpoint(lastVerifiedSequence: int, lastVerifiedRecordHash: Option<string>)

  /** Durable link from the archived prefix to the active segment. */
  datatype Boundary = Boundary(lastArchivedSequence: int, lastArchivedRecordHash: string)

  datatype AnchorResolution = Genesis | Anchored(boundary: Boundary) | Unresolved(outcome: ChainVerification)

  datatype StoreError = ChainQuarantined | DuplicateId | MalformedRow

  /** The audit table and its chain metadata. */
  datatype Store = Store(
    table: seq<Row>, checkpoint: Option<Checkpoint>, boundary: Option<Boundary>, cache: Option<ChainVerification>)

  // ---------- Heads ----------

  /** The last record hash and sequence; nothing is read from the archive boundary. */
  function ChainHead(table: seq<Row>): (Option<string>, int) {
    var rows := Segment(table);
    if rows == [] then (None, 0) else (rows[|rows| - 1].recordHash, Key(rows[|rows| - 1]))
  }

  ghost predicate KeysUpTo(table: seq<Row>, last: int) {
    forall row :: row in table && Chained(row) ==> Key(row) <= last
  }

  /** No chained row is above the head. */
  lemma HeadBounds(table: seq<Row>)
    ensures KeysUpTo(table, ChainHead(table).1)
  {
    SegmentMembers(table);
    var rows := Segment(table);
    forall row | row in table && Chained(row) ensures Key(row) <= ChainHead(table).1 {
      assert row in rows;
      var k :| 0 <= k < |rows| && rows[k] == row;
      assert k < |rows| - 1 ==> KeyLeq(rows[k], rows[|rows| - 1]);
    }
  }

  predicate HasId(table: seq<Row>, id: Uuid) {
    exists k :: 0 <= k < |table| && table[k].content.id == id
  }

  /** The primary key. */
  ghost predicate UniqueIds(table: seq<Row>) {
    forall i, j :: 0 <= i < j < |table| ==> table[i].content.id != table[j].content.id
  }

  lemma {:induction false} UniqueIdsFilter(table: seq<Row>, keep: Row -> bool)
    requires UniqueIds(table)
    ensures UniqueIds(Filter(table, keep))
  {
    if table != [] {
      UniqueIdsFilter(table[1..], keep);
      FilterElements(table[1..], keep);
      if keep(table[0]) {
        var rest := Filter(table[1..], keep);
        forall k | 0 <= k < |rest| ensures rest[k].content.id != table[0].content.id {
          assert rest[k] in table[1..];
        }
      }
    }
  }

  function IdOf(row: Row): Uuid { row.content.id }

  lemma UniqueIdsPermute(a: seq<Row>, b: seq<Row>)
    requires UniqueIds(a) && multiset(a) == multiset(b)
    ensures UniqueIds(b)
  {
    assert Distinct(Map(a, IdOf));
    MapMultiset(a, b, IdOf);
    DistinctPermute(Map(a, IdOf), Map(b, IdOf));
    forall i, j | 0 <= i < j < |b| ensures b[i].content.id != b[j].content.id {
      assert Map(b, IdOf)[i] != Map(b, IdOf)[j];
    }
  }

  lemma SegmentUniqueIds(table: seq<Row>)
    requires UniqueIds(table)
    ensures UniqueIds(Segment(table))
  {
    UniqueIdsFilter(table, Chained);
    SortKeepsElements(Filter(table, Chained), KeyLeq);
    UniqueIdsPermute(Filter(table, Chained), Segment(table));
  }

  // ---------- Legacy rows ----------

  predicate Unchained(row: Row) { row.chainSequence.None? }

  predicate TimeIdLeq(a: Row, b: Row) {
    a.content.timestamp < b.content.timestamp ||
    (a.content.timestamp == b.content.timestamp && UuidLeq(a.content.id, b.content.id))
  }

  /** `WHERE chain_sequence IS NULL ORDER BY timestamp, id`. */
  function Legacy(table: seq<Row>): seq<Row> { Sort(Filter(table, Unchained), TimeIdLeq) }

  /** `UPDATE audit_log SET chain_sequence, prev_hash, record_hash WHERE id`. */
  function WriteRow(table: seq<Row>, id: Uuid, sequence: int, prev: Option<string>, hash: Option<string>): seq<Row> {
    Map(table, (row: Row) =>
      if row.content.id == id then row.(chainSequence := Some(sequence), prevHash := prev, recordHash := hash) else row)
  }

  /** The updates of a backfill: the rows it read earlier, chained one after the other. */
  function Backfilled(h: Hasher, table: seq<Row>, read: seq<Row>, last: int, prev: Option<string>): seq<Row>
    decreases |read|
  {
    if read == [] then table
    else
      var hash := Some(h(read[0].content, last + 1, prev));
      Backfilled(h, WriteRow(table, read[0].content.id, last + 1, prev, hash), read[1..], last + 1, hash)
  }

  function AfterBackfill(h: Hasher, s: Store, read: seq<Row>): Store {
    if read == [] then s
    else s.(table := Backfilled(h, s.table, read, ChainHead(s.table).1, ChainHead(s.table).0), cache := None)
  }

  // ---------- Verification ----------

  function ResolveAnchor(table: seq<Row>, boundary: Option<Boundary>): AnchorResolution {
    var rows := Segment(table);
    if rows == [] || Key(rows[0]) <= 1 then Genesis
    else match boundary
         case None => Unresolved(Unanchored(Key(rows[0])))
         case Some(b) =>
           if b.lastArchivedSequence + 1 == Key(rows[0]) && rows[0].prevHash == Some(b.lastArchivedRecordHash)
           then Anchored(b)
           else Unresolved(AnchorMismatch(
             b.lastArchivedSequence, b.lastArchivedRecordHash, rows[0].prevHash, Key(rows[0])))
  }

  function VerifyFrom(h: Hasher, table: seq<Row>, start: int, seed: Option<string>, already: nat): ChainVerification {
    if table == [] then Empty
    else if start == 0 && Legacy(table) != [] then Broken(0, Legacy(table)[0].content.id, MissingSequence)
    else Walk(h, SegmentAbove(table, start), start, seed, already)
  }

  function VerifyAnchored(h: Hasher, table: seq<Row>, resolution: AnchorResolution): ChainVerification {
    match resolution
    case Genesis => VerifyFrom(h, table, 0, None, 0)
    case Anchored(b) =>
      VerifyFrom(h, table, b.lastArchivedSequence, Some(b.lastArchivedRecordHash), Max0(b.lastArchivedSequence))
    case Unresolved(outcome) => outcome
  }

  /** The full pass over the active segment. */
  function VerifyChain(h: Hasher, s: Store): ChainVerification {
    VerifyAnchored(h, s.table, ResolveAnchor(s.table, s.boundary))
  }

  /** The pass that starts at the checkpoint when there is one. */
  function IncrementalResult(h: Hasher, s: Store): ChainVerification {
    match s.checkpoint
    case Some(c) =>
      VerifyFrom(h, s.table, c.lastVerifiedSequence, c.lastVerifiedRecordHash, Max0(c.lastVerifiedSequence))
    case None => VerifyChain(h, s)
  }

  /** A Valid pass moves the checkpoint to the head; any other leaves it. */
  function AfterIncremental(h: Hasher, s: Store): Store {
    var rows := Segment(s.table);
    if IncrementalResult(h, s).Valid? && rows != [] &&
       (s.checkpoint.None? || s.checkpoint.value.lastVerifiedSequence != Key(rows[|rows| - 1]))
    then s.(checkpoint := Some(Checkpoint(Key(rows[|rows| - 1]), rows[|rows| - 1].recordHash)))
    else s
  }

  function CachedResult(h: Hasher, s: Store): ChainVerification {
    if s.cache.Some? then s.cache.value else IncrementalResult(h, s)
  }

  function AfterCached(h: Hasher, s: Store): Store {
    if s.cache.Some? then s else AfterIncremental(h, s).(cache := Some(IncrementalResult(h, s)))
  }

  // ---------- What a full pass walks over ----------

  /** From the first sequence on, the positive rows are the whole segment. */
  lemma PositiveSegment(table: seq<Row>)
    requires forall row :: row in Segment(table) ==> Key(row) > 0
    ensures SegmentAbove(table, 0) == Segment(table)
  {
    SegmentAboveFilters(table, 0);
    FilterAll(Segment(table), Above(0));
  }

  /** Behind the boundary its segment starts, so the restricted query returns all of it. */
  lemma AnchoredSegment(table: seq<Row>, start: int)
    requires Segment(table) != [] && start + 1 == Key(Segment(table)[0])
    ensures SegmentAbove(table, start) == Segment(table)
  {
    var rows := Segment(table);
    SegmentMembers(table);
    SegmentAboveFilters(table, start);
    forall row | row in rows ensures Above(start)(row) {
      var k :| 0 <= k < |rows| && rows[k] == row;
      assert k > 0 ==> KeyLeq(rows[0], rows[k]);
    }
    FilterAll(rows, Above(start));
  }

  // ---------- The first state ----------

  /** A database no chained row was ever written to: empty, or written before there was a chain. */
  ghost predicate NeverChained(s: Store) {
    && (forall row :: row in s.table ==> !Chained(row))
    && UniqueIds(s.table)
    && s.checkpoint == None && s.boundary == None && s.cache == None
  }

  lemma NoSegmentYet(s: Store)
    requires NeverChained(s)
    ensures Segment(s.table) == []
  {
    FilterNone(s.table, Chained);
  }

  // ---------- Appending ----------

  /** The table with a batch chained behind its head. */
  function Appended(h: Hasher, table: seq<Row>, batch: seq<AuditRecord>): seq<Row> {
    table + StampAll(h, batch, ChainHead(table).1, ChainHead(table).0)
  }

  /** The ids of a batch are new and distinct, so the primary key accepts it. */
  predicate FreshIds(table: seq<Row>, batch: seq<AuditRecord>) {
    && (forall k :: 0 <= k < |batch| ==> !HasId(table, batch[k].id))
    && (forall k, l :: 0 <= k < l < |batch| ==> batch[k].id != batch[l].id)
  }

  lemma AppendKeepsIds(table: seq<Row>, rows: seq<Row>, batch: seq<AuditRecord>)
    requires UniqueIds(table) && FreshIds(table, batch)
    requires |rows| == |batch| && forall k :: 0 <= k < |batch| ==> rows[k].content == batch[k]
    ensures UniqueIds(table + rows)
  {
    forall i, j | 0 <= i < j < |table + rows| ensures (table + rows)[i].content.id != (table + rows)[j].content.id {
      if i < |table| && j >= |table| {
        assert !HasId(table, batch[j - |table|].id);
      }
    }
  }

  function AfterInsert(h: Hasher, s: Store, batch: seq<AuditRecord>): Store {
    if FreshIds(s.table, batch) then s.(table := Appended(h, s.table, batch), cache := None) else s
  }

  // ---------- Pruning ----------

  function AtSequence(sequence: int): Row -> bool { (row: Row) => Chained(row) && Key(row) == sequence }

  function Survives(maxSequence: int): Row -> bool { (row: Row) => !(Chained(row) && Key(row) <= maxSequence) }

  /** The row at a sequence: the first of the segment's rows there. */
  function RowAt(table: seq<Row>, sequence: int): Option<Row> {
    var found := Filter(table, AtSequence(sequence));
    if found == [] then None else Some(found[0])
  }

  /** The transaction of a delete that found `hash` at its bound: deletes the prefix and publishes the
      boundary; the checkpoint only ever moves forward. */
  function AfterCut(s: Store, maxSequence: int, hash: string): Store {
    var ckpt := if s.checkpoint.None? || s.checkpoint.value.lastVerifiedSequence < maxSequence
                then Some(Checkpoint(maxSequence, Some(hash))) else s.checkpoint;
    Store(Filter(s.table, Survives(maxSequence)), ckpt, Some(Boundary(maxSequence, hash)), None)
  }

  /** A delete that nothing comes between. */
  function AfterDelete(s: Store, maxSequence: int): Store {
    match RowAt(s.table, maxSequence)
    case None => s
    case Some(row) =>
      if maxSequence <= 0 || row.recordHash.None? then s else AfterCut(s, maxSequence, row.recordHash.value)
  }
}
