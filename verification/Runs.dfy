/** Incremental and cached verification against full verification, over every run of the storage
    operations of crates/grith-audit/src/storage.rs. */
module Runs {
  import opened Basics
  import opened Records
  import opened Sorting
  import opened Chain
  import opened ChainStore
  import opened Anchoring
  import opened Backfill
  import opened Repair
  import opened RecordHash
  import opened TamperEvidence

  datatype Op =
    | Append(batch: seq<AuditRecord>)
    | FullVerify
    | IncrementalVerify
    | CachedVerify
    | Prune(maxSequence: int)
    | BackfillLegacy
    | RepairAll
    | LoseCheckpoint
    | LoseCache

  function Step(h: Hasher, s: Store, op: Op): Store {
    match op
    case Append(batch) => AfterInsert(h, s, batch)
    case FullVerify => s
    case IncrementalVerify => AfterIncremental(h, s)
    case CachedVerify => AfterCached(h, s)
    case Prune(maxSequence) => AfterDelete(s, maxSequence)
    case BackfillLegacy => AfterBackfill(h, s, Legacy(s.table))
    case RepairAll => AfterRepair(h, s)
    case LoseCheckpoint => s.(checkpoint := None)
    case LoseCache => s.(cache := None)
  }

  function Run(h: Hasher, s: Store, ops: seq<Op>): Store
    decreases |ops|
  {
    if ops == [] then s else Run(h, Step(h, s, ops[0]), ops[1..])
  }

  /** Prunes leave at least one chained row, backfills find clean enum columns, and a repair behind an
      archive boundary finds records whose hash covers at least their predecessor. */
  ghost predicate Allowed(h: Hasher, s: Store, op: Op) {
    match op
    case Prune(maxSequence) => maxSequence != ChainHead(s.table).1
    case BackfillLegacy => AllCanonical(Legacy(s.table))
    case RepairAll =>
      StartOf(s.table) > 0 ==> SeedOf(s.table) != Some(GENESIS) && AllLinkSensitive(h, Segment(s.table))
    case _ => true
  }

  ghost predicate AllowedRun(h: Hasher, s: Store, ops: seq<Op>)
    decreases |ops|
  {
    ops == [] || (Allowed(h, s, ops[0]) && AllowedRun(h, Step(h, s, ops[0]), ops[1..]))
  }

  // ---------- The invariant ----------

  /** The checkpoint is the position behind some prefix of the linked segment; it has moved past
      genesis only when no legacy row lay beside it. */
  ghost predicate CheckpointSound(table: seq<Row>, checkpoint: Option<Checkpoint>) {
    checkpoint.None? ||
    (&& Behind(checkpoint.value, Segment(table), StartOf(table), SeedOf(table))
     && (checkpoint.value.lastVerifiedSequence > StartOf(table) == 0 ==> Legacy(table) == []))
  }

  predicate Behind(c: Checkpoint, rows: seq<Row>, start: int, seed: Option<string>) {
    var k := c.lastVerifiedSequence - start;
    0 <= k <= |rows| && c.lastVerifiedRecordHash == EndHash(rows[..k], seed)
  }

  ghost predicate Coherent(h: Hasher, s: Store) {
    && Grounded(h, s)
    && UniqueIds(s.table)
    && CheckpointSound(s.table, s.checkpoint)
    && (s.cache.Some? ==> s.cache.value == VerifyChain(h, s))
  }

  /** From a sound checkpoint the tail alone gives the full answer. */
  lemma IncrementalIsFull(h: Hasher, s: Store)
    requires Grounded(h, s) && CheckpointSound(s.table, s.checkpoint)
    ensures IncrementalResult(h, s) == VerifyChain(h, s)
  {
    if s.checkpoint.Some? {
      var c := s.checkpoint.value;
      GroundedVerifies(h, s);
      VerifiesFrom(h, s.table, c.lastVerifiedSequence - StartOf(s.table), c.lastVerifiedSequence,
        c.lastVerifiedRecordHash);
    }
  }

  /** Verification from any position of a linked segment. */
  lemma VerifiesFrom(h: Hasher, table: seq<Row>, k: nat, start: nat, seed: Option<string>)
    requires Linked(h, Segment(table), StartOf(table), SeedOf(table)) && k <= |Segment(table)|
    requires start == StartOf(table) + k && seed == EndHash(Segment(table)[..k], SeedOf(table))
    ensures VerifyFrom(h, table, start, seed, start) ==
      if table == [] then Empty
      else if start == 0 && Legacy(table) != [] then Broken(0, Legacy(table)[0].content.id, MissingSequence)
      else Valid(StartOf(table) + |Segment(table)|)
  {
    WalkFrom(h, table, k, start);
  }

  // ---------- Each operation ----------

  lemma VerifyingKeepsSound(h: Hasher, s: Store)
    requires Grounded(h, s) && CheckpointSound(s.table, s.checkpoint)
    ensures CheckpointSound(s.table, AfterIncremental(h, s).checkpoint)
  {
    var rows := Segment(s.table);
    IncrementalIsFull(h, s);
    GroundedVerifies(h, s);
    if rows != [] {
      HeadOf(h, s.table);
      assert rows[..|rows|] == rows;
    }
  }

  lemma AppendKeeps(h: Hasher, s: Store, batch: seq<AuditRecord>)
    requires Coherent(h, s) && Allowed(h, s, Append(batch))
    ensures Coherent(h, AfterInsert(h, s, batch))
  {
    if FreshIds(s.table, batch) {
      var (prev, last) := ChainHead(s.table);
      var rows := StampAll(h, batch, last, prev);
      StampAllLinked(h, batch, last, prev);
      AppendGrounded(h, s, rows);
      AppendKeepsIds(s.table, rows, batch);
      AppendKeepsCheckpoint(s.table, rows, s.checkpoint, h);
    }
  }

  lemma AppendKeepsCheckpoint(table: seq<Row>, rows: seq<Row>, checkpoint: Option<Checkpoint>, h: Hasher)
    requires CheckpointSound(table, checkpoint)
    requires Linked(h, rows, ChainHead(table).1, ChainHead(table).0)
    requires Segment(table + rows) == Segment(table) + rows && Legacy(table + rows) == Legacy(table)
    ensures CheckpointSound(table + rows, checkpoint)
  {
    if checkpoint.Some? {
      BehindLonger(checkpoint.value, Segment(table), rows, StartOf(table), SeedOf(table));
    }
  }

  lemma BehindLonger(c: Checkpoint, rows: seq<Row>, more: seq<Row>, start: int, seed: Option<string>)
    requires Behind(c, rows, start, seed)
    ensures Behind(c, rows + more, start, seed)
  {
    var k := c.lastVerifiedSequence - start;
    assert (rows + more)[..k] == rows[..k];
  }

  lemma PruneKeeps(h: Hasher, s: Store, maxSequence: int)
    requires Coherent(h, s) && maxSequence != ChainHead(s.table).1
    ensures Coherent(h, AfterDelete(s, maxSequence))
  {
    HeadOf(h, s.table);
    PruneGrounded(h, s, maxSequence);
    if StartOf(s.table) < maxSequence < ChainHead(s.table).1 {
      PruneKeepsRows(s, maxSequence);
      PruneKeepsCheckpoint(h, s, maxSequence);
    }
  }

  lemma PruneMovesStart(h: Hasher, s: Store, maxSequence: int, k: nat)
    requires Grounded(h, s) && 0 < k < |Segment(s.table)| && maxSequence == StartOf(s.table) + k
    ensures
      var after := AfterDelete(s, maxSequence);
      && Segment(after.table) == Segment(s.table)[k..]
      && StartOf(after.table) == maxSequence
      && SeedOf(after.table) == Segment(s.table)[k - 1].recordHash
  {
    PruneCuts(h, s, k, maxSequence);
    LinkedSplit(h, Segment(s.table), StartOf(s.table), SeedOf(s.table), k);
    LinkedStart(h, AfterDelete(s, maxSequence).table, maxSequence, Segment(s.table)[k - 1].recordHash);
  }

  lemma PruneShape(s: Store, maxSequence: int)
    ensures AfterDelete(s, maxSequence) == s ||
      (&& AfterDelete(s, maxSequence).table == Filter(s.table, Survives(maxSequence))
       && AfterDelete(s, maxSequence).cache == None
       && RowAt(s.table, maxSequence).Some?
       && AfterDelete(s, maxSequence).checkpoint ==
            if s.checkpoint.None? || s.checkpoint.value.lastVerifiedSequence < maxSequence
            then Some(Checkpoint(maxSequence, RowAt(s.table, maxSequence).value.recordHash)) else s.checkpoint)
  {
  }

  lemma PruneKeepsRows(s: Store, maxSequence: int)
    requires UniqueIds(s.table)
    ensures UniqueIds(AfterDelete(s, maxSequence).table)
    ensures AfterDelete(s, maxSequence) == s || AfterDelete(s, maxSequence).cache == None
  {
    PruneShape(s, maxSequence);
    UniqueIdsFilter(s.table, Survives(maxSequence));
  }

  lemma PruneKeepsCheckpoint(h: Hasher, s: Store, maxSequence: int)
    requires Grounded(h, s) && CheckpointSound(s.table, s.checkpoint)
    requires StartOf(s.table) < maxSequence < StartOf(s.table) + |Segment(s.table)|
    ensures CheckpointSound(AfterDelete(s, maxSequence).table, AfterDelete(s, maxSequence).checkpoint)
  {
    var rows := Segment(s.table);
    var k := maxSequence - StartOf(s.table);
    BoundRow(h, s.table, maxSequence);
    PruneShape(s, maxSequence);
    PruneMovesStart(h, s, maxSequence, k);
    if s.checkpoint.Some? && s.checkpoint.value.lastVerifiedSequence >= maxSequence {
      BehindCut(s.checkpoint.value, rows, StartOf(s.table), SeedOf(s.table), k);
    } else {
      assert rows[k..][..0] == [];
    }
  }

  lemma BehindCut(c: Checkpoint, rows: seq<Row>, start: int, seed: Option<string>, k: nat)
    requires Behind(c, rows, start, seed) && 0 < k && start + k <= c.lastVerifiedSequence
    ensures Behind(c, rows[k..], start + k, rows[k - 1].recordHash)
  {
    var n := c.lastVerifiedSequence - start;
    assert rows[..n] == rows[..k] + rows[k..][..n - k];
    EndHashConcat(rows[..k], rows[k..][..n - k], seed);
    EndHashIsLast(rows[..k], seed);
  }

  // ---------- Repair of a sound chain ----------

  /** A chain that starts at genesis is already repaired. */
  lemma {:induction false} RepairedFixesLinked(h: Hasher, rows: seq<Row>, start: int, prev: Option<string>)
    requires Linked(h, rows, start, prev)
    ensures Repaired(h, rows, start, prev) == rows && RepairCount(rows, rows) == 0
  {
    if rows != [] {
      RepairedFixesLinked(h, rows[1..], start + 1, rows[0].recordHash);
    }
  }

  /** Behind another predecessor every hash changes, row after row. */
  lemma {:induction false} RepairedMovesLinked(
    h: Hasher, rows: seq<Row>, start: int, seed: Option<string>, start': int, prev: Option<string>)
    requires Linked(h, rows, start, seed) && PrevText(seed) != PrevText(prev)
    requires AllLinkSensitive(h, rows)
    ensures Settled(h, rows, start', prev)
    ensures rows != [] ==> RepairCount(rows, Repaired(h, rows, start', prev)) > 0
  {
    if rows != [] {
      var row := RepairedRow(h, rows[0], start' + 1, prev);
      assert LinkSensitive(h, rows[0].content);
      assert rows[0].recordHash != row.recordHash;
      RepairedMovesLinked(h, rows[1..], start + 1, rows[0].recordHash, start' + 1, row.recordHash);
    }
  }

  lemma {:induction false} LinkedIsCanonical(h: Hasher, rows: seq<Row>, start: int, seed: Option<string>)
    requires Linked(h, rows, start, seed)
    ensures AllCanonical(rows)
  {
    if rows != [] {
      LinkedIsCanonical(h, rows[1..], start + 1, rows[0].recordHash);
      AllCanonicalSplits(rows);
    }
  }

  lemma GroundedPositive(h: Hasher, s: Store)
    requires Grounded(h, s)
    ensures PositiveKeys(s.table)
  {
    var rows := Segment(s.table);
    SegmentMembers(s.table);
    LinkedKeys(h, rows, StartOf(s.table), SeedOf(s.table));
    forall i | 0 <= i < |s.table| && Chained(s.table[i]) ensures Key(s.table[i]) > 0 {
      assert s.table[i] in rows;
      var k :| 0 <= k < |rows| && rows[k] == s.table[i];
      assert Key(rows[k]) == StartOf(s.table) + 1 + k;
    }
  }

  lemma RepairKeeps(h: Hasher, s: Store)
    requires Coherent(h, s) && Allowed(h, s, RepairAll)
    ensures Coherent(h, AfterRepair(h, s))
  {
    var rows := Segment(s.table);
    GroundedPositive(h, s);
    RepairedTableKeeps(h, s.table);
    if rows != [] {
      if StartOf(s.table) == 0 {
        RepairedFixesLinked(h, rows, 0, None);
      } else {
        RepairedMovesLinked(h, rows, StartOf(s.table), SeedOf(s.table), 0, None);
        LinkedIsCanonical(h, rows, StartOf(s.table), SeedOf(s.table));
        RepairedGrounded(h, s);
      }
    }
  }

  /** Settled rows come out of the repair as the segment 1..n from genesis. */
  lemma RepairedGrounded(h: Hasher, s: Store)
    requires UniqueIds(s.table) && PositiveKeys(s.table) && Segment(s.table) != []
    requires Settled(h, Segment(s.table), 0, None) && AllCanonical(Segment(s.table))
    ensures Grounded(h, AfterRepair(h, s))
    ensures Segment(AfterRepair(h, s).table) == Repaired(h, Segment(s.table), 0, None)
  {
    var rows := Segment(s.table);
    RepairedLinked(h, rows, 0, None);
    SettledNumbers(h, rows, 0, None);
    RepairedTableIsPlace(h, s.table);
    NumberedIsSegment(h, s.table);
    LinkedStart(h, RepairedTable(h, s.table), 0, None);
  }

  // ---------- Backfill ----------

  lemma BackfillKeeps(h: Hasher, s: Store)
    requires Coherent(h, s) && AllCanonical(Legacy(s.table))
    ensures Coherent(h, AfterBackfill(h, s, Legacy(s.table)))
  {
    if Legacy(s.table) != [] {
      var (prev, last) := ChainHead(s.table);
      var joined := JoinAll(h, Legacy(s.table), last, prev);
      BackfillGrounded(h, s);
      HeadBounds(s.table);
      BackfillJoins(h, s.table, last, prev);
      JoinedExtends(h, s.table, Legacy(s.table));
      LinkedStart(h, AfterBackfill(h, s, Legacy(s.table)).table, StartOf(s.table), SeedOf(s.table));
      LongerKeepsCheckpoint(s.table, AfterBackfill(h, s, Legacy(s.table)).table, joined, s.checkpoint);
    }
  }

  /** A checkpoint stays behind the rows it counted when the segment only grows. */
  lemma LongerKeepsCheckpoint(table: seq<Row>, after: seq<Row>, more: seq<Row>, checkpoint: Option<Checkpoint>)
    requires CheckpointSound(table, checkpoint) && Segment(after) == Segment(table) + more
    requires StartOf(after) == StartOf(table) && SeedOf(after) == SeedOf(table) && Legacy(after) == []
    ensures CheckpointSound(after, checkpoint)
  {
    if checkpoint.Some? {
      BehindLonger(checkpoint.value, Segment(table), more, StartOf(table), SeedOf(table));
    }
  }

  // ---------- Every run ----------

  lemma StepKeeps(h: Hasher, s: Store, op: Op)
    requires Coherent(h, s) && Allowed(h, s, op)
    ensures Coherent(h, Step(h, s, op))
  {
    match op
    case Append(batch) => AppendKeeps(h, s, batch);
    case FullVerify =>
    case IncrementalVerify => VerifyingKeepsSound(h, s);
    case CachedVerify =>
      VerifyingKeepsSound(h, s);
      IncrementalIsFull(h, s);
    case Prune(maxSequence) => PruneKeeps(h, s, maxSequence);
    case BackfillLegacy => BackfillKeeps(h, s);
    case RepairAll => RepairKeeps(h, s);
    case LoseCheckpoint =>
    case LoseCache =>
  }

  /** After any run, the incremental pass and the cached pass answer what a full pass would; with no
      legacy row that answer is Empty or Valid with the head sequence as its count. */
  lemma {:induction false} RunsAgree(h: Hasher, s: Store, ops: seq<Op>)
    requires Coherent(h, s) && AllowedRun(h, s, ops)
    ensures
      var end := Run(h, s, ops);
      && Coherent(h, end)
      && IncrementalResult(h, end) == VerifyChain(h, end) == CachedResult(h, end)
      && (Legacy(end.table) == [] ==>
            VerifyChain(h, end) == if end.table == [] then Empty else Valid(Max0(ChainHead(end.table).1)))
    decreases |ops|
  {
    if ops == [] {
      IncrementalIsFull(h, s);
      GroundedVerifies(h, s);
      HeadOf(h, s.table);
    } else {
      StepKeeps(h, s, ops[0]);
      RunsAgree(h, Step(h, s, ops[0]), ops[1..]);
    }
  }

  /** So it is in every state reached from a database no chained row was ever written to. */
  lemma RunsAgreeFromTheStart(h: Hasher, s: Store, ops: seq<Op>)
    requires NeverChained(s) && AllowedRun(h, s, ops)
    ensures Coherent(h, s)
    ensures IncrementalResult(h, Run(h, s, ops)) == VerifyChain(h, Run(h, s, ops)) == CachedResult(h, Run(h, s, ops))
  {
    NoSegmentYet(s);
    RunsAgree(h, s, ops);
  }

  // ---------- The hash the records really carry ----------

  /** Rows of any mix of supported versions, behind a boundary that names a hash. */
  ghost predicate OnRecords(s: Store) {
    && AllSupported(s.table)
    && (s.boundary.Some? ==> s.boundary.value.lastArchivedRecordHash != GENESIS)
  }

  ghost predicate AllSupported(table: seq<Row>) {
    forall i :: 0 <= i < |table| ==> Supported(table[i].content)
  }

  /** Records are of supported versions, prunes leave a chained row, backfills find clean enum columns. */
  ghost predicate RecordOp(s: Store, op: Op) {
    match op
    case Append(batch) => forall k :: 0 <= k < |batch| ==> Supported(batch[k])
    case Prune(maxSequence) => maxSequence != ChainHead(s.table).1
    case BackfillLegacy => AllCanonical(Legacy(s.table))
    case _ => true
  }

  ghost predicate RecordRun(h: Hasher, s: Store, ops: seq<Op>)
    decreases |ops|
  {
    ops == [] || (RecordOp(s, ops[0]) && RecordRun(h, Step(h, s, ops[0]), ops[1..]))
  }

  lemma RecordOpAllowed(lib: Lib, s: Store, op: Op)
    requires Faithful(lib) && Coherent(RecordHasher(lib), s) && OnRecords(s) && RecordOp(s, op)
    ensures Allowed(RecordHasher(lib), s, op)
  {
    var rows := Segment(s.table);
    SegmentMembers(s.table);
    if op.RepairAll? {
      forall k | 0 <= k < |rows| ensures LinkSensitive(RecordHasher(lib), rows[k].content) {
        assert rows[k] in s.table;
        SupportedIsLinkSensitive(lib, rows[k].content);
      }
    }
  }

  lemma SameContents(a: seq<Row>, b: seq<Row>)
    requires AllSupported(a) && |a| == |b| && forall i :: 0 <= i < |a| ==> b[i].content == a[i].content
    ensures AllSupported(b)
  {
  }

  lemma {:induction false} BackfilledContents(h: Hasher, table: seq<Row>, read: seq<Row>, last: int,
                                              prev: Option<string>)
    ensures |Backfilled(h, table, read, last, prev)| == |table|
    ensures forall i :: 0 <= i < |table| ==> Backfilled(h, table, read, last, prev)[i].content == table[i].content
    decreases |read|
  {
    if read != [] {
      var hash := Some(h(read[0].content, last + 1, prev));
      BackfilledContents(h, WriteRow(table, read[0].content.id, last + 1, prev, hash), read[1..], last + 1, hash);
    }
  }

  lemma SupportedFilter(table: seq<Row>, keep: Row -> bool)
    requires AllSupported(table)
    ensures AllSupported(Filter(table, keep))
  {
    var kept := Filter(table, keep);
    FilterElements(table, keep);
    forall i | 0 <= i < |kept| ensures Supported(kept[i].content) {
      assert kept[i] in table;
    }
  }

  /** The row at a bound carries its own hash. */
  lemma BoundHash(h: Hasher, table: seq<Row>, maxSequence: int)
    requires Linked(h, Segment(table), StartOf(table), SeedOf(table)) && RowAt(table, maxSequence).Some?
    ensures
      var row := RowAt(table, maxSequence).value;
      row.recordHash == Some(h(row.content, maxSequence, row.prevHash))
  {
    BoundRow(h, table, maxSequence);
    LinkedAt(h, Segment(table), StartOf(table), SeedOf(table), maxSequence - StartOf(table) - 1);
  }

  lemma PruneOnRecords(lib: Lib, s: Store, maxSequence: int)
    requires HexDigests(lib) && Grounded(RecordHasher(lib), s) && OnRecords(s)
    ensures OnRecords(AfterDelete(s, maxSequence))
  {
    SupportedFilter(s.table, Survives(maxSequence));
    if RowAt(s.table, maxSequence).Some? {
      var row := RowAt(s.table, maxSequence).value;
      BoundHash(RecordHasher(lib), s.table, maxSequence);
      HashIsNotGenesis(lib, row.content, maxSequence, row.prevHash);
    }
  }

  lemma AppendOnRecords(h: Hasher, s: Store, batch: seq<AuditRecord>)
    requires OnRecords(s) && forall k :: 0 <= k < |batch| ==> Supported(batch[k])
    ensures OnRecords(AfterInsert(h, s, batch))
  {
    StampAllLinked(h, batch, ChainHead(s.table).1, ChainHead(s.table).0);
  }

  lemma RepairOnRecords(h: Hasher, s: Store)
    requires Coherent(h, s) && OnRecords(s)
    ensures OnRecords(AfterRepair(h, s))
  {
    GroundedPositive(h, s);
    RepairedTableKeeps(h, s.table);
    SameContents(s.table, RepairedTable(h, s.table));
  }

  lemma BackfillOnRecords(h: Hasher, s: Store)
    requires OnRecords(s)
    ensures OnRecords(AfterBackfill(h, s, Legacy(s.table)))
  {
    BackfilledContents(h, s.table, Legacy(s.table), ChainHead(s.table).1, ChainHead(s.table).0);
  }

  lemma StepOnRecords(lib: Lib, s: Store, op: Op)
    requires HexDigests(lib) && Coherent(RecordHasher(lib), s) && OnRecords(s) && RecordOp(s, op)
    ensures OnRecords(Step(RecordHasher(lib), s, op))
  {
    match op
    case Append(batch) => AppendOnRecords(RecordHasher(lib), s, batch);
    case Prune(maxSequence) => PruneOnRecords(lib, s, maxSequence);
    case BackfillLegacy => BackfillOnRecords(RecordHasher(lib), s);
    case RepairAll => RepairOnRecords(RecordHasher(lib), s);
    case _ =>
  }

  /** With the record hash itself, over databases that mix rows of all three versions, rows from before
      the chain and backfilled ones: only emptying prunes and tampered enum columns are left out. */
  lemma {:induction false} RecordRunsAgree(lib: Lib, s: Store, ops: seq<Op>)
    requires Faithful(lib) && HexDigests(lib)
    requires Coherent(RecordHasher(lib), s) && OnRecords(s) && RecordRun(RecordHasher(lib), s, ops)
    ensures
      var h := RecordHasher(lib);
      var end := Run(h, s, ops);
      && AllowedRun(h, s, ops) && Coherent(h, end) && OnRecords(end)
      && IncrementalResult(h, end) == VerifyChain(h, end) == CachedResult(h, end)
    decreases |ops|
  {
    var h := RecordHasher(lib);
    if ops == [] {
      RunsAgree(h, s, ops);
    } else {
      RecordOpAllowed(lib, s, ops[0]);
      StepKeeps(h, s, ops[0]);
      StepOnRecords(lib, s, ops[0]);
      RecordRunsAgree(lib, Step(h, s, ops[0]), ops[1..]);
    }
  }

  /** No operation makes a legacy row. */
  lemma NoNewLegacy(h: Hasher, s: Store, op: Op)
    requires Coherent(h, s) && Legacy(s.table) == []
    ensures Legacy(Step(h, s, op).table) == []
  {
    match op
    case Append(batch) =>
      StampAllLinked(h, batch, ChainHead(s.table).1, ChainHead(s.table).0);
      AppendGrounded(h, s, StampAll(h, batch, ChainHead(s.table).1, ChainHead(s.table).0));
    case Prune(maxSequence) => PruneSegment(s.table, maxSequence);
    case RepairAll =>
      GroundedPositive(h, s);
      RepairedTableIsPlace(h, s.table);
      RepairedLegacy(h, s.table);
    case _ =>
  }

  lemma {:induction false} RunWithoutLegacy(h: Hasher, s: Store, ops: seq<Op>)
    requires Coherent(h, s) && AllowedRun(h, s, ops) && Legacy(s.table) == []
    ensures Legacy(Run(h, s, ops).table) == []
    decreases |ops|
  {
    if ops != [] {
      StepKeeps(h, s, ops[0]);
      NoNewLegacy(h, s, ops[0]);
      RunWithoutLegacy(h, Step(h, s, ops[0]), ops[1..]);
    }
  }

  /** An upgraded database: its rows are from before the chain and name no hash version, which reads as
      version 1. A backfill chains them; after any further run the verdicts agree, and they are Valid
      with the head sequence as their count. */
  lemma UpgradedDatabase(lib: Lib, s: Store, ops: seq<Op>)
    requires Faithful(lib) && HexDigests(lib) && NeverChained(s) && AllSupported(s.table)
    requires AllCanonical(Legacy(s.table))
    requires RecordRun(RecordHasher(lib), Step(RecordHasher(lib), s, BackfillLegacy), ops)
    ensures
      var h := RecordHasher(lib);
      var end := Run(h, Step(h, s, BackfillLegacy), ops);
      && IncrementalResult(h, end) == VerifyChain(h, end) == CachedResult(h, end)
      && VerifyChain(h, end) == if end.table == [] then Empty else Valid(Max0(ChainHead(end.table).1))
  {
    JoinedDatabase(RecordHasher(lib), s);
    UpgradedRuns(lib, Step(RecordHasher(lib), s, BackfillLegacy), ops);
  }

  lemma JoinedDatabase(h: Hasher, s: Store)
    requires NeverChained(s) && AllSupported(s.table) && AllCanonical(Legacy(s.table))
    ensures
      var joined := Step(h, s, BackfillLegacy);
      Coherent(h, joined) && OnRecords(joined) && Legacy(joined.table) == []
  {
    NoSegmentYet(s);
    BackfillKeeps(h, s);
    BackfillGrounded(h, s);
    BackfillOnRecords(h, s);
  }

  lemma UpgradedRuns(lib: Lib, s: Store, ops: seq<Op>)
    requires Faithful(lib) && HexDigests(lib) && Legacy(s.table) == []
    requires Coherent(RecordHasher(lib), s) && OnRecords(s) && RecordRun(RecordHasher(lib), s, ops)
    ensures
      var h := RecordHasher(lib);
      var end := Run(h, s, ops);
      && IncrementalResult(h, end) == VerifyChain(h, end) == CachedResult(h, end)
      && VerifyChain(h, end) == if end.table == [] then Empty else Valid(Max0(ChainHead(end.table).1))
  {
    RecordRunsAgree(lib, s, ops);
    RunWithoutLegacy(RecordHasher(lib), s, ops);
    RunsAgree(RecordHasher(lib), s, ops);
  }

  /** On any store at all, a prune never loses the checkpoint nor moves it back. */
  lemma PruneMovesForward(s: Store, maxSequence: int)
    requires s.checkpoint.Some?
    ensures AfterDelete(s, maxSequence).checkpoint.Some?
    ensures AfterDelete(s, maxSequence).checkpoint.value.lastVerifiedSequence >= s.checkpoint.value.lastVerifiedSequence
  {
  }

  // ---------- A prune that empties the segment ----------

  /** A prune at the head leaves nothing chained; numbering restarts at 1 while the checkpoint stays
      at the old head. */
  lemma EmptyingPrune(h: Hasher, s: Store)
    requires Coherent(h, s) && Segment(s.table) != [] && Legacy(s.table) == []
    ensures
      var after := AfterDelete(s, ChainHead(s.table).1);
      && after.table == [] && after.cache == None && Legacy(after.table) == []
      && after.checkpoint == Some(Checkpoint(ChainHead(s.table).1, ChainHead(s.table).0))
  {
    var rows := Segment(s.table);
    var after := AfterDelete(s, ChainHead(s.table).1);
    HeadOf(h, s.table);
    PruneCuts(h, s, |rows|, ChainHead(s.table).1);
    BoundRow(h, s.table, ChainHead(s.table).1);
    assert rows[|rows|..] == [];
    NothingLeft(after.table);
    if s.checkpoint.Some? {
      assert s.checkpoint.value.lastVerifiedSequence == ChainHead(s.table).1 ==> rows[..|rows|] == rows;
    }
  }

  lemma NothingLeft(table: seq<Row>)
    requires Segment(table) == [] && Legacy(table) == []
    ensures table == []
  {
    SortKeepsElements(Filter(table, Chained), KeyLeq);
    SortKeepsElements(Filter(table, Unchained), TimeIdLeq);
  }

  /** After such a prune at head `m` and a batch of `n` records, the incremental pass agrees with the
      full one only for an empty batch, a batch of exactly `m`, or one whose m-th record hashes to
      the pruned head's hash. */
  lemma EmptyingPruneDiverges(h: Hasher, s: Store, batch: seq<AuditRecord>)
    requires Coherent(h, s) && Segment(s.table) != [] && Legacy(s.table) == []
    requires FreshIds([], batch)
    ensures
      var m := ChainHead(s.table).1;
      var after := AfterInsert(h, AfterDelete(s, m), batch);
      IncrementalResult(h, after) == VerifyChain(h, after) <==> Coincides(h, batch, m, ChainHead(s.table).0)
  {
    HeadOf(h, s.table);
    EmptyingPrune(h, s);
    RestartedDiverges(h, AfterDelete(s, ChainHead(s.table).1), batch, ChainHead(s.table).1, ChainHead(s.table).0);
  }

  predicate Coincides(h: Hasher, batch: seq<AuditRecord>, m: int, hash: Option<string>) {
    || |batch| == 0
    || |batch| == m
    || (|batch| > m >= 1 && StampAll(h, batch, 0, None)[m - 1].recordHash == hash)
  }

  lemma RestartedDiverges(h: Hasher, s: Store, batch: seq<AuditRecord>, m: int, hash: Option<string>)
    requires s.table == [] && FreshIds([], batch) && m >= 1
    requires s.checkpoint == Some(Checkpoint(m, hash))
    ensures
      var after := AfterInsert(h, s, batch);
      IncrementalResult(h, after) == VerifyChain(h, after) <==> Coincides(h, batch, m, hash)
  {
    var after := AfterInsert(h, s, batch);
    RestartedTable(h, s, batch);
    RestartedSegment(h, batch);
    RestartedVerifies(h, after, batch);
    ResumedFrom(h, after, StampAll(h, batch, 0, None), m, hash);
  }

  lemma RestartedTable(h: Hasher, s: Store, batch: seq<AuditRecord>)
    requires s.table == [] && FreshIds([], batch)
    ensures AfterInsert(h, s, batch).table == StampAll(h, batch, 0, None)
    ensures AfterInsert(h, s, batch).checkpoint == s.checkpoint
  {
    assert [] + StampAll(h, batch, 0, None) == StampAll(h, batch, 0, None);
  }

  lemma RestartedSegment(h: Hasher, batch: seq<AuditRecord>)
    ensures
      var rows := StampAll(h, batch, 0, None);
      Segment(rows) == rows && Legacy(rows) == [] && |rows| == |batch| && Linked(h, rows, 0, None)
  {
    var rows := StampAll(h, batch, 0, None);
    StampAllLinked(h, batch, 0, None);
    ExtendSegment(h, [], rows, 0, None);
    assert [] + rows == rows;
  }

  lemma RestartedVerifies(h: Hasher, s: Store, batch: seq<AuditRecord>)
    requires s.table == StampAll(h, batch, 0, None)
    ensures VerifyChain(h, s) == if batch == [] then Empty else Valid(|batch|)
  {
    RestartedSegment(h, batch);
    if batch != [] {
      LinkedStart(h, s.table, 0, None);
      GroundedVerifies(h, s);
    }
  }

  /** The incremental pass over rows from genesis, from such a checkpoint. */
  lemma ResumedFrom(h: Hasher, s: Store, rows: seq<Row>, m: int, hash: Option<string>)
    requires s.table == rows && Segment(rows) == rows && Linked(h, rows, 0, None)
    requires s.checkpoint == Some(Checkpoint(m, hash)) && m >= 1
    ensures
      var result := IncrementalResult(h, s);
      && (rows == [] ==> result == Empty)
      && (0 < |rows| <= m ==> result == Valid(m))
      && (|rows| > m ==> (result == Valid(|rows|) <==> rows[m - 1].recordHash == hash))
  {
    SegmentAboveFilters(rows, m);
    ResumedAbove(h, rows, m, hash);
  }

  /** Linked rows from genesis, walked from a checkpoint at `m` that another chain left. */
  lemma ResumedAbove(h: Hasher, rows: seq<Row>, m: nat, hash: Option<string>)
    requires Linked(h, rows, 0, None) && m >= 1
    ensures
      var result := Walk(h, Filter(rows, Above(m)), m, hash, m);
      && (|rows| <= m ==> result == Valid(m))
      && (|rows| > m ==> (result == Valid(|rows|) <==> rows[m - 1].recordHash == hash))
  {
    if |rows| <= m {
      LinkedKeys(h, rows, 0, None);
      FilterAll(rows, Above(m));
    } else {
      AboveSuffix(h, rows, 0, None, m, m);
      LinkedSplit(h, rows, 0, None, m);
      ResumedWalk(h, rows[m..], m, rows[m - 1].recordHash, hash);
    }
  }

  /** Linked rows walked from another predecessor hash are broken at the first of them. */
  lemma ResumedWalk(h: Hasher, rows: seq<Row>, start: nat, seed: Option<string>, other: Option<string>)
    requires rows != [] && Linked(h, rows, start, seed)
    ensures Walk(h, rows, start, other, start) == Valid(start + |rows|) <==> seed == other
  {
    LinkedWalk(h, rows, start, seed, start);
  }
}
