/** Whole runs of appends, tail passes, retention and reopenings over one database
    (crates/grith-audit/src/analytics.rs, storage.rs): which of them leave an active row that the
    projection's cursor claims but that the projection never examined. */
module EpochRuns {
  import opened Basics
  import opened Records
  import opened Sorting
  import opened Chain
  import opened ChainStore
  import opened Anchoring
  import opened Agreement
  import opened ColdFiles
  import opened Retention
  import opened RecordHash
  import opened TamperEvidence
  import opened Projection
  import opened Epoch
  import M = Materialization

  /** A database and the rows its projection has examined since its epoch began. */
  datatype Ledger = Ledger(world: M.World, seen: seq<Row>)

  datatype Step = Work(step: M.Step) | Reopen(epoch: nat)

  function ProgressOf(l: Ledger): Progress {
    Progress(l.world.projection.baseline, l.world.projection.cursor, l.world.projection.cursorHash, l.seen)
  }

  /** The test of the reconcile: the chain under the cursor is another one. */
  predicate Restarted(l: Ledger) { Regenerated(l.world.store, ProgressOf(l)) }

  function FirstRows(rows: seq<Row>, limit: nat): seq<Row> { if |rows| <= limit then rows else rows[..limit] }

  /** The rows a tail pass reads. */
  function TailRows(w: M.World, batchSize: nat): seq<Row> {
    FirstRows(SegmentAbove(w.store.table, w.projection.cursor), Limit(batchSize))
  }

  /** The rows whose projection a tail pass commits. */
  function Committed(adapt: Adapter, w: M.World, batchSize: nat, crash: CrashPoint): seq<Row> {
    if AfterTail(adapt, w.projection, w.store.table, batchSize, crash).1.Ok? then TailRows(w, batchSize) else []
  }

  ghost function Next(h: Hasher, adapt: Adapter, l: Ledger, step: Step): Ledger {
    match step
    case Work(s) =>
      Ledger(M.Next(h, adapt, l.world, s),
             if s.TailPass? then l.seen + Committed(adapt, l.world, s.batchSize, s.crash) else l.seen)
    case Reopen(epoch) =>
      if Restarted(l) then Ledger(l.world.(projection := AfterRotation(l.world.projection, epoch, 0, None)), []) else l
  }

  ghost function Run(h: Hasher, adapt: Adapter, l: Ledger, steps: seq<Step>): Ledger
    decreases |steps|
  {
    if steps == [] then l else Run(h, adapt, Next(h, adapt, l, steps[0]), steps[1..])
  }

  /** Appended records are ones the hash covers, and no pass runs between a restart of the chain and
      the next opening. */
  ghost predicate Allowed(h: Hasher, covered: Row -> bool, l: Ledger, step: Step) {
    match step
    case Reopen(_) => true
    case Work(s) =>
      && (s.Append? ==> AllCovered(covered, Stamped(h, l.world.store.table, s.batch)))
      && (s.TailPass? || s.Retain? ==> !Restarted(l))
  }

  function Stamped(h: Hasher, table: seq<Row>, batch: seq<AuditRecord>): seq<Row> {
    StampAll(h, batch, ChainHead(table).1, ChainHead(table).0)
  }

  ghost predicate AllowedRun(h: Hasher, adapt: Adapter, covered: Row -> bool, l: Ledger, steps: seq<Step>)
    decreases |steps|
  {
    steps == []
      || (Allowed(h, covered, l, steps[0]) && AllowedRun(h, adapt, covered, Next(h, adapt, l, steps[0]), steps[1..]))
  }

  // ---------- The invariant ----------

  /** Linked rows carry a hash at a position. */
  predicate Meets(rows: seq<Row>, start: int, seed: Option<string>, cursor: int, hash: Option<string>) {
    0 <= cursor - start <= |rows| && EndHash(rows[..cursor - start], seed) == hash
  }

  /** The stored chain carries the cursor's hash at the cursor. */
  predicate OnCursor(s: Store, p: Progress) {
    Meets(Segment(s.table), StartOf(s.table), SeedOf(s.table), p.cursor, p.cursorHash)
  }

  /** Before the first pass the chain starts at the baseline; later a chain that does not start at
      genesis is the examined one. */
  predicate InStep(s: Store, p: Progress, seed: Option<string>) {
    if p.seen == [] then p.cursor == 0 && StartOf(s.table) == p.baseline && SeedOf(s.table) == seed
    else StartOf(s.table) <= p.cursor && (StartOf(s.table) > 0 ==> OnCursor(s, p))
  }

  ghost predicate Tracked(h: Hasher, covered: Row -> bool, s: Store, p: Progress, seed: Option<string>) {
    && Grounded(h, s) && OneChain(h, p, seed) && InStep(s, p, seed)
    && AllCovered(covered, Segment(s.table)) && AllCovered(covered, p.seen)
  }

  ghost predicate TrackedLedger(h: Hasher, covered: Row -> bool, l: Ledger) {
    Tracked(h, covered, l.world.store, ProgressOf(l), l.world.projection.baselineHash)
  }

  // ---------- Linked rows and a position ----------

  lemma MeetsAt(rows: seq<Row>, start: int, seed: Option<string>, cursor: int, hash: Option<string>)
    requires 0 <= cursor - start <= |rows|
    ensures Meets(rows, start, seed, cursor, hash) <==>
            hash == if cursor == start then seed else rows[cursor - start - 1].recordHash
  {
    EndHashIsLast(rows[..cursor - start], seed);
  }

  lemma MeetsLonger(rows: seq<Row>, more: seq<Row>, start: int, seed: Option<string>, cursor: int, hash: Option<string>)
    requires Meets(rows, start, seed, cursor, hash)
    ensures Meets(rows + more, start, seed, cursor, hash)
  {
    MeetsAt(rows, start, seed, cursor, hash);
    MeetsAt(rows + more, start, seed, cursor, hash);
  }

  lemma MeetsRest(rows: seq<Row>, start: int, seed: Option<string>, cursor: int, hash: Option<string>, k: nat)
    requires Meets(rows, start, seed, cursor, hash) && 0 < k <= cursor - start
    ensures Meets(rows[k..], start + k, rows[k - 1].recordHash, cursor, hash)
  {
    MeetsAt(rows, start, seed, cursor, hash);
    MeetsAt(rows[k..], start + k, rows[k - 1].recordHash, cursor, hash);
  }

  /** `tail` are rows that follow position `at` of linked rows, where they carry `hash`. */
  ghost predicate Follows(h: Hasher, rows: seq<Row>, tail: seq<Row>, c: nat, at: int, hash: Option<string>) {
    c + |tail| <= |rows| && tail == rows[c..c + |tail|] && Linked(h, tail, at, hash)
  }

  /** The first rows above a position follow it. */
  lemma TailSlice(
    h: Hasher, rows: seq<Row>, start: int, seed: Option<string>, c: nat, at: int, hash: Option<string>,
    above: seq<Row>, limit: nat)
    requires Linked(h, rows, start, seed) && c <= |rows| && above == rows[c..]
    requires at == start + c && hash == EndHash(rows[..c], seed)
    ensures Follows(h, rows, FirstRows(above, limit), c, at, hash)
  {
    var n := if |above| <= limit then |above| else limit;
    LinkedDrop(h, rows, start, seed, c, at, hash);
    SliceOfDrop(rows, c, n);
    LinkedTake(h, above, at, hash, n);
    assert FirstRows(above, limit) == above[..n];
  }

  lemma SliceOfDrop(rows: seq<Row>, c: nat, n: nat)
    requires c + n <= |rows|
    ensures rows[c..][..n] == rows[c..c + n]
  {
  }

  lemma LinkedDrop(h: Hasher, rows: seq<Row>, start: int, seed: Option<string>, c: nat, at: int, hash: Option<string>)
    requires Linked(h, rows, start, seed) && c <= |rows| && at == start + c && hash == EndHash(rows[..c], seed)
    ensures Linked(h, rows[c..], at, hash)
  {
    LinkedSplit(h, rows, start, seed, c);
  }

  lemma LinkedTake(h: Hasher, rows: seq<Row>, start: int, seed: Option<string>, n: nat)
    requires Linked(h, rows, start, seed) && n <= |rows|
    ensures Linked(h, rows[..n], start, seed)
  {
    LinkedSplit(h, rows, start, seed, n);
  }

  lemma MeetsNext(rows: seq<Row>, start: int, seed: Option<string>, c: nat, tail: seq<Row>, cursor: int)
    requires tail != [] && c + |tail| <= |rows| && tail == rows[c..c + |tail|] && cursor == start + c + |tail|
    ensures Meets(rows, start, seed, cursor, Last(tail).recordHash)
  {
    MeetsAt(rows, start, seed, cursor, Last(tail).recordHash);
  }

  /** The reconcile's test over stored linked rows. */
  lemma RestartTest(h: Hasher, s: Store, p: Progress, rows: seq<Row>, start: int)
    requires rows == Segment(s.table) && start == StartOf(s.table) && Linked(h, rows, start, SeedOf(s.table))
    requires rows != [] && start >= 0 && p.cursor > 0
    ensures Regenerated(s, p) <==>
      start + |rows| < p.cursor
      || (start < p.cursor && p.cursorHash.Some? && rows[p.cursor - start - 1].recordHash != p.cursorHash)
  {
    LinkedEnd(h, rows, start, SeedOf(s.table));
    BoundRow(h, s.table, p.cursor);
  }

  /** A cursor the reconcile would leave alone lies on the stored chain. */
  lemma CursorOnChain(h: Hasher, s: Store, p: Progress, seed: Option<string>)
    requires Grounded(h, s) && OneChain(h, p, seed) && InStep(s, p, seed) && p.seen != []
    requires !Regenerated(s, p) && Segment(s.table) != []
    ensures OnCursor(s, p)
  {
    if StartOf(s.table) == 0 {
      LinkedHash(h, p.seen, p.baseline, seed);
      GenesisMeets(h, s, p);
    }
  }

  lemma GenesisMeets(h: Hasher, s: Store, p: Progress)
    requires Linked(h, Segment(s.table), StartOf(s.table), SeedOf(s.table)) && Segment(s.table) != []
    requires StartOf(s.table) == 0 && p.cursor > 0 && p.cursorHash.Some? && !Regenerated(s, p)
    ensures OnCursor(s, p)
  {
    RestartTest(h, s, p, Segment(s.table), StartOf(s.table));
    MeetsAt(Segment(s.table), StartOf(s.table), SeedOf(s.table), p.cursor, p.cursorHash);
  }

  // ---------- A tail pass ----------

  /** A batch leaves the cursor at its last record. */
  lemma {:induction false} BatchEnds(adapt: Adapter, epoch: nat, a: OpenBatch, records: seq<Cold>, start: int)
    requires M.Consecutive(records, start) && records != [] && ProjectAll(adapt, epoch, a, records).Ok?
    requires a.last.None? || a.last == Some(start)
    ensures
      var b := ProjectAll(adapt, epoch, a, records).value;
      b.last == records[|records| - 1].chainSequence && b.last.Some? && b.lastHash == records[|records| - 1].recordHash
    decreases |records|
  {
    var next := ProjectOne(adapt, epoch, a, records[0]).value;
    assert next.last == Some(start + 1) && next.lastHash == records[0].recordHash;
    if |records| > 1 {
      BatchEnds(adapt, epoch, next, records[1..], start + 1);
    } else {
      assert records[1..] == [];
    }
  }

  lemma MapFirst(rows: seq<Row>, limit: nat)
    ensures Map(FirstRows(rows, limit), Archived) == Take(Map(rows, Archived), limit)
  {
  }

  /** The columns a committed tail pass writes. */
  lemma TailColumns(
    h: Hasher, adapt: Adapter, p: Projection, table: seq<Row>, batchSize: nat, tail: seq<Row>, start: int,
    seed: Option<string>)
    requires tail == FirstRows(SegmentAbove(table, p.cursor), Limit(batchSize)) && tail != []
      && Linked(h, tail, start, seed)
    requires AfterTail(adapt, p, table, batchSize, NoCrash).1.Ok?
    ensures
      var q := AfterTail(adapt, p, table, batchSize, NoCrash).0;
      && q.cursor == Key(Last(tail)) && q.cursorHash == Last(tail).recordHash
      && q.baseline == p.baseline && q.baselineHash == p.baselineHash
  {
    MapFirst(SegmentAbove(table, p.cursor), Limit(batchSize));
    M.LinkedConsecutive(h, tail, start, seed);
    BatchEnds(adapt, p.epoch, Open(p), Map(tail, Archived), start);
    LinkedAt(h, tail, start, seed, |tail| - 1);
  }

  /** A pass that commits nothing leaves the projection's columns. */
  lemma NoTail(adapt: Adapter, w: M.World, batchSize: nat, crash: CrashPoint)
    requires Committed(adapt, w, batchSize, crash) == []
    ensures AfterTail(adapt, w.projection, w.store.table, batchSize, crash).0 == w.projection
  {
    MapFirst(SegmentAbove(w.store.table, w.projection.cursor), Limit(batchSize));
  }

  /** A committed pass moves the progress over the rows it read. */
  lemma TailPasses(
    h: Hasher, adapt: Adapter, w: M.World, seen: seq<Row>, batchSize: nat, crash: CrashPoint, start: int,
    seed: Option<string>)
    requires Linked(h, TailRows(w, batchSize), start, seed)
    ensures
      var l := Ledger(w, seen);
      var next := Next(h, adapt, l, Work(M.TailPass(batchSize, crash)));
      && ProgressOf(next) == Passed(ProgressOf(l), Committed(adapt, w, batchSize, crash))
      && next.world.store == w.store && next.world.projection.baselineHash == w.projection.baselineHash
  {
    if Committed(adapt, w, batchSize, crash) == [] {
      NoTail(adapt, w, batchSize, crash);
      assert seen + [] == seen;
    } else {
      EmptyBatch(adapt, w, batchSize, crash);
      TailColumns(h, adapt, w.projection, w.store.table, batchSize, TailRows(w, batchSize), start, seed);
    }
  }

  lemma EmptyBatch(adapt: Adapter, w: M.World, batchSize: nat, crash: CrashPoint)
    requires Committed(adapt, w, batchSize, crash) != []
    ensures crash == NoCrash
  {
    MapFirst(SegmentAbove(w.store.table, w.projection.cursor), Limit(batchSize));
  }

  /** Where a pass reads from: the cursor, or the first row while the cursor has its default. */
  function ReadFrom(s: Store, cursor: int): int {
    if cursor >= StartOf(s.table) then cursor - StartOf(s.table) else 0
  }

  lemma RowsAbove(h: Hasher, s: Store, cursor: int, c: nat)
    requires Grounded(h, s) && c == ReadFrom(s, cursor) <= |Segment(s.table)|
    ensures SegmentAbove(s.table, cursor) == Segment(s.table)[c..]
  {
    SegmentAboveFilters(s.table, cursor);
    if cursor < StartOf(s.table) {
      M.AllAbove(h, Segment(s.table), StartOf(s.table), SeedOf(s.table), cursor);
    } else {
      AboveSuffix(h, Segment(s.table), StartOf(s.table), SeedOf(s.table), c, cursor);
    }
  }

  /** What a pass reads follows the position it reads from. */
  lemma TailLinked(h: Hasher, s: Store, cursor: int, limit: nat, c: nat, at: int, hash: Option<string>)
    requires Grounded(h, s) && c == ReadFrom(s, cursor) <= |Segment(s.table)|
    requires at == StartOf(s.table) + c && hash == EndHash(Segment(s.table)[..c], SeedOf(s.table))
    ensures Follows(h, Segment(s.table), FirstRows(SegmentAbove(s.table, cursor), limit), c, at, hash)
  {
    RowsAbove(h, s, cursor, c);
    TailSlice(h, Segment(s.table), StartOf(s.table), SeedOf(s.table), c, at, hash, SegmentAbove(s.table, cursor),
      limit);
  }

  lemma EmptyTail(table: seq<Row>, cursor: int, limit: nat)
    ensures Segment(table) == [] ==> FirstRows(SegmentAbove(table, cursor), limit) == []
  {
    SegmentAboveFilters(table, cursor);
  }

  lemma CoveredParts(covered: Row -> bool, rows: seq<Row>, c: nat, seen: seq<Row>, tail: seq<Row>)
    requires AllCovered(covered, rows) && AllCovered(covered, seen)
    requires c + |tail| <= |rows| && tail == rows[c..c + |tail|]
    ensures AllCovered(covered, seen + tail)
  {
    forall row | row in seen + tail ensures covered(row) {
      if row !in seen {
        assert row in rows;
      }
    }
  }

  lemma FirstPassTracked(h: Hasher, covered: Row -> bool, s: Store, p: Progress, seed: Option<string>, tail: seq<Row>)
    requires Tracked(h, covered, s, p, seed) && p.seen == [] && tail != []
    requires Follows(h, Segment(s.table), tail, 0, StartOf(s.table), SeedOf(s.table))
    ensures Tracked(h, covered, s, Passed(p, tail), seed)
  {
    ChainBegins(h, p, seed, tail);
    MeetsNext(Segment(s.table), StartOf(s.table), SeedOf(s.table), 0, tail, Passed(p, tail).cursor);
    CoveredParts(covered, Segment(s.table), 0, p.seen, tail);
  }

  /** The first rows read from the baseline on are the examined chain. */
  lemma ChainBegins(h: Hasher, p: Progress, seed: Option<string>, tail: seq<Row>)
    requires OneChain(h, p, seed) && p.seen == [] && tail != [] && Linked(h, tail, p.baseline, seed)
    ensures OneChain(h, Passed(p, tail), seed) && Passed(p, tail).cursor == p.baseline + |tail|
  {
    LinkedEnd(h, tail, p.baseline, seed);
    EmptyFront(p.seen, tail);
  }

  lemma EmptyFront(a: seq<Row>, b: seq<Row>)
    requires a == []
    ensures a + b == b
  {
  }

  /** Rows read behind the cursor's hash extend the examined chain. */
  lemma ChainExtends(h: Hasher, p: Progress, seed: Option<string>, tail: seq<Row>)
    requires OneChain(h, p, seed) && p.seen != [] && tail != [] && Linked(h, tail, p.cursor, p.cursorHash)
    ensures OneChain(h, Passed(p, tail), seed) && Passed(p, tail).cursor == p.cursor + |tail|
  {
    SeenExtends(h, p.seen, p.baseline, seed, tail, p.cursor, p.cursorHash);
    LinkedEnd(h, tail, p.cursor, p.cursorHash);
  }

  lemma SeenExtends(
    h: Hasher, seen: seq<Row>, start: int, seed: Option<string>, tail: seq<Row>, cursor: int, hash: Option<string>)
    requires Linked(h, seen, start, seed) && Linked(h, tail, cursor, hash)
    requires seen != [] && tail != [] && cursor == start + |seen| && hash == Last(seen).recordHash
    ensures Linked(h, seen + tail, start, seed) && Last(seen + tail) == Last(tail)
  {
    EndHashIsLast(seen, seed);
    LinkedConcat(h, seen, tail, start, seed);
  }

  lemma LaterPassTracked(
    h: Hasher, covered: Row -> bool, s: Store, p: Progress, seed: Option<string>, c: nat, tail: seq<Row>)
    requires Tracked(h, covered, s, p, seed) && p.seen != [] && tail != [] && p.cursor == StartOf(s.table) + c
    requires Follows(h, Segment(s.table), tail, c, p.cursor, p.cursorHash)
    ensures Tracked(h, covered, s, Passed(p, tail), seed)
  {
    ChainExtends(h, p, seed, tail);
    MeetsNext(Segment(s.table), StartOf(s.table), SeedOf(s.table), c, tail, Passed(p, tail).cursor);
    CoveredParts(covered, Segment(s.table), c, p.seen, tail);
  }

  lemma PassTracked(
    h: Hasher, covered: Row -> bool, s: Store, p: Progress, seed: Option<string>, limit: nat, tail: seq<Row>)
    requires Tracked(h, covered, s, p, seed) && !Regenerated(s, p)
    requires tail == FirstRows(SegmentAbove(s.table, p.cursor), limit) && tail != []
    ensures Tracked(h, covered, s, Passed(p, tail), seed)
  {
    EmptyTail(s.table, p.cursor, limit);
    if p.seen == [] {
      TailLinked(h, s, p.cursor, limit, 0, StartOf(s.table), SeedOf(s.table));
      FirstPassTracked(h, covered, s, p, seed, tail);
    } else {
      TailOnCursor(h, s, p, seed, limit, tail);
      LaterPassTracked(h, covered, s, p, seed, p.cursor - StartOf(s.table), tail);
    }
  }

  /** A pass that was not restarted reads on behind the cursor's hash. */
  lemma TailOnCursor(h: Hasher, s: Store, p: Progress, seed: Option<string>, limit: nat, tail: seq<Row>)
    requires Grounded(h, s) && OneChain(h, p, seed) && InStep(s, p, seed) && p.seen != []
    requires !Regenerated(s, p) && Segment(s.table) != []
    requires tail == FirstRows(SegmentAbove(s.table, p.cursor), limit)
    ensures p.cursor >= StartOf(s.table)
    ensures Follows(h, Segment(s.table), tail, p.cursor - StartOf(s.table), p.cursor, p.cursorHash)
  {
    CursorOnChain(h, s, p, seed);
    TailLinked(h, s, p.cursor, limit, p.cursor - StartOf(s.table), p.cursor, p.cursorHash);
  }

  /** What a pass reads is linked behind something, whatever chain the cursor is from. */
  lemma TailIsLinked(h: Hasher, w: M.World, batchSize: nat) returns (start: int, seed: Option<string>)
    requires Grounded(h, w.store)
    ensures Linked(h, TailRows(w, batchSize), start, seed)
  {
    start, seed := 0, None;
    var c := ReadFrom(w.store, w.projection.cursor);
    if c <= |Segment(w.store.table)| {
      start, seed := StartOf(w.store.table) + c, EndHash(Segment(w.store.table)[..c], SeedOf(w.store.table));
      TailLinked(h, w.store, w.projection.cursor, Limit(batchSize), c, start, seed);
    } else {
      SegmentAboveFilters(w.store.table, w.projection.cursor);
      NothingAbove(h, Segment(w.store.table), StartOf(w.store.table), SeedOf(w.store.table), w.projection.cursor);
    }
  }

  lemma NothingAbove(h: Hasher, rows: seq<Row>, start: int, seed: Option<string>, cut: int)
    requires Linked(h, rows, start, seed) && cut >= start + |rows|
    ensures Filter(rows, Above(cut)) == []
  {
    LinkedKeys(h, rows, start, seed);
    FilterNone(rows, Above(cut));
  }

  lemma TailTracked(h: Hasher, adapt: Adapter, covered: Row -> bool, l: Ledger, batchSize: nat, crash: CrashPoint)
    requires TrackedLedger(h, covered, l) && !Restarted(l)
    ensures TrackedLedger(h, covered, Next(h, adapt, l, Work(M.TailPass(batchSize, crash))))
  {
    var start, seed := TailIsLinked(h, l.world, batchSize);
    TailPasses(h, adapt, l.world, l.seen, batchSize, crash, start, seed);
    if Committed(adapt, l.world, batchSize, crash) != [] {
      PassTracked(h, covered, l.world.store, ProgressOf(l), l.world.projection.baselineHash, Limit(batchSize),
                  TailRows(l.world, batchSize));
    }
  }

  // ---------- The other steps ----------

  lemma AppendTracked(
    h: Hasher, covered: Row -> bool, s: Store, p: Progress, seed: Option<string>, batch: seq<AuditRecord>)
    requires Tracked(h, covered, s, p, seed) && AllCovered(covered, Stamped(h, s.table, batch))
    ensures Tracked(h, covered, AfterInsert(h, s, batch), p, seed)
  {
    if FreshIds(s.table, batch) {
      var rows := Stamped(h, s.table, batch);
      StampAllLinked(h, batch, ChainHead(s.table).1, ChainHead(s.table).0);
      AppendGrounded(h, s, rows);
      AppendInStep(h, s, p, seed, rows);
    }
  }

  lemma AppendInStep(h: Hasher, s: Store, p: Progress, seed: Option<string>, rows: seq<Row>)
    requires Grounded(h, s) && Linked(h, rows, ChainHead(s.table).1, ChainHead(s.table).0)
    requires Segment(s.table + rows) == Segment(s.table) + rows && InStep(s, p, seed)
    ensures InStep(AfterTable(s, s.table + rows), p, seed)
  {
    SameStart(h, s, rows);
    if p.seen != [] && StartOf(s.table) > 0 {
      MeetsLonger(Segment(s.table), rows, StartOf(s.table), SeedOf(s.table), p.cursor, p.cursorHash);
    }
  }

  function AfterTable(s: Store, table: seq<Row>): Store { s.(table := table, cache := None) }

  lemma SameStart(h: Hasher, s: Store, rows: seq<Row>)
    requires Grounded(h, s) && Linked(h, rows, ChainHead(s.table).1, ChainHead(s.table).0)
    requires Segment(s.table + rows) == Segment(s.table) + rows
    ensures StartOf(s.table + rows) == StartOf(s.table) && SeedOf(s.table + rows) == SeedOf(s.table)
  {
    if Segment(s.table) == [] {
      assert [] + rows == rows;
      if rows != [] {
        LinkedStart(h, s.table + rows, 0, None);
      }
    } else {
      assert Segment(s.table + rows)[0] == Segment(s.table)[0];
    }
  }

  lemma DeleteTracked(h: Hasher, covered: Row -> bool, s: Store, p: Progress, seed: Option<string>, bound: int)
    requires Tracked(h, covered, s, p, seed) && !Regenerated(s, p) && 0 < bound <= p.cursor
    ensures Tracked(h, covered, AfterDelete(s, bound), p, seed)
  {
    PruneGrounded(h, s, bound);
    var k := bound - StartOf(s.table);
    if 0 < k <= |Segment(s.table)| {
      PruneCuts(h, s, k, bound);
      CursorOnChain(h, s, p, seed);
      CutInStep(h, s, p, seed, bound, k);
    }
  }

  lemma CutInStep(h: Hasher, s: Store, p: Progress, seed: Option<string>, bound: int, k: nat)
    requires Grounded(h, s) && p.cursor > 0 && p.seen != [] && OnCursor(s, p)
    requires 0 < k <= |Segment(s.table)| && bound == StartOf(s.table) + k <= p.cursor
    requires Segment(AfterDelete(s, bound).table) == Segment(s.table)[k..]
    ensures InStep(AfterDelete(s, bound), p, seed)
  {
    var rows := Segment(s.table);
    if k < |rows| {
      RestStarts(h, rows, StartOf(s.table), SeedOf(s.table), k, AfterDelete(s, bound).table);
      MeetsRest(rows, StartOf(s.table), SeedOf(s.table), p.cursor, p.cursorHash, k);
    }
  }

  lemma RetainTracked(h: Hasher, adapt: Adapter, covered: Row -> bool, l: Ledger, pass: Pass)
    requires TrackedLedger(h, covered, l) && !Restarted(l)
    ensures TrackedLedger(h, covered, Next(h, adapt, l, Work(M.Retain(pass))))
  {
    var w := l.world;
    var after := Pruned(h, w.store, w.files, M.Gated(w.projection, pass)).0;
    RetainMoves(h, adapt, l, pass, after);
    if after != w.store {
      M.RetentionIsCovered(h, w, pass);
      DeleteTracked(h, covered, w.store, ProgressOf(l), w.projection.baselineHash,
                    PruneBound(w.store.table, pass.cutoff, pass.respectSync));
    }
  }

  /** Retention touches the store alone. */
  lemma {:induction false} RetainMoves(h: Hasher, adapt: Adapter, l: Ledger, pass: Pass, after: Store)
    requires after == Pruned(h, l.world.store, l.world.files, M.Gated(l.world.projection, pass)).0
    ensures
      var next := Next(h, adapt, l, Work(M.Retain(pass)));
      && next.world.store == after && next.world.projection == l.world.projection && next.seen == l.seen
      && ProgressOf(next) == ProgressOf(l)
  {
  }

  /** A chain that does not start at genesis is never taken for a restarted one. */
  lemma RestartsAtGenesis(h: Hasher, s: Store, p: Progress, seed: Option<string>)
    requires Grounded(h, s) && OneChain(h, p, seed) && InStep(s, p, seed) && Regenerated(s, p)
    ensures StartOf(s.table) == 0 && SeedOf(s.table) == None
  {
    if StartOf(s.table) > 0 {
      MeetsIsSame(h, s, p);
    }
  }

  lemma MeetsIsSame(h: Hasher, s: Store, p: Progress)
    requires Linked(h, Segment(s.table), StartOf(s.table), SeedOf(s.table)) && StartOf(s.table) > 0 && OnCursor(s, p)
    ensures !Regenerated(s, p)
  {
    RestartTest(h, s, p, Segment(s.table), StartOf(s.table));
    MeetsAt(Segment(s.table), StartOf(s.table), SeedOf(s.table), p.cursor, p.cursorHash);
  }

  lemma ReopenTracked(h: Hasher, adapt: Adapter, covered: Row -> bool, l: Ledger, epoch: nat)
    requires TrackedLedger(h, covered, l)
    ensures TrackedLedger(h, covered, Next(h, adapt, l, Reopen(epoch)))
  {
    if Restarted(l) {
      RestartsAtGenesis(h, l.world.store, ProgressOf(l), l.world.projection.baselineHash);
    }
  }

  lemma StepTracked(h: Hasher, adapt: Adapter, covered: Row -> bool, l: Ledger, step: Step)
    requires TrackedLedger(h, covered, l) && Allowed(h, covered, l, step)
    ensures TrackedLedger(h, covered, Next(h, adapt, l, step))
  {
    match step
    case Reopen(epoch) => ReopenTracked(h, adapt, covered, l, epoch);
    case Work(Append(batch)) =>
      AppendTracked(h, covered, l.world.store, ProgressOf(l), l.world.projection.baselineHash, batch);
    case Work(TailPass(batchSize, crash)) => TailTracked(h, adapt, covered, l, batchSize, crash);
    case Work(Rebuild(key)) =>
    case Work(Retain(pass)) => RetainTracked(h, adapt, covered, l, pass);
  }

  // ---------- Every run ----------

  /** The first epoch: a projection created over a grounded table. */
  lemma FirstEpochTracked(h: Hasher, covered: Row -> bool, w: M.World)
    requires Grounded(h, w.store) && AllCovered(covered, Segment(w.store.table))
    requires w.projection.cursor == 0 && w.projection.baseline == StartOf(w.store.table)
    requires w.projection.baselineHash == SeedOf(w.store.table)
    ensures TrackedLedger(h, covered, Ledger(w, []))
  {
  }

  /** In every state of every run whose passes wait for the next opening when the chain has restarted,
      opening the database leaves no active row that the cursor claims and the projection never
      examined; while the chain has not restarted there is none to begin with. */
  lemma {:induction false} RunsStrandNothing(
    h: Hasher, adapt: Adapter, covered: Row -> bool, same: (Row, Row) -> bool, l: Ledger, steps: seq<Step>)
    requires HashDetermines(h, covered, same) && TrackedLedger(h, covered, l)
    requires AllowedRun(h, adapt, covered, l, steps)
    ensures
      var end := Run(h, adapt, l, steps);
      && TrackedLedger(h, covered, end)
      && NoneStranded(same, end.world.store.table, Reconciled(end.world.store, ProgressOf(end)))
      && (!Restarted(end) ==> NoneStranded(same, end.world.store.table, ProgressOf(end)))
    decreases |steps|
  {
    if steps == [] {
      NoStrandedRows(h, covered, same, l.world.store, ProgressOf(l), l.world.projection.baselineHash);
    } else {
      StepTracked(h, adapt, covered, l, steps[0]);
      RunsStrandNothing(h, adapt, covered, same, Next(h, adapt, l, steps[0]), steps[1..]);
    }
  }

  /** Appended records are of supported versions, and no pass runs on a restarted chain. */
  ghost predicate RecordStep(l: Ledger, step: Step) {
    match step
    case Reopen(_) => true
    case Work(s) =>
      && (s.Append? ==> forall r :: r in s.batch ==> Supported(r))
      && (s.TailPass? || s.Retain? ==> !Restarted(l))
  }

  ghost predicate RecordRun(h: Hasher, adapt: Adapter, l: Ledger, steps: seq<Step>)
    decreases |steps|
  {
    steps == [] || (RecordStep(l, steps[0]) && RecordRun(h, adapt, Next(h, adapt, l, steps[0]), steps[1..]))
  }

  /** What is appended behind traceable rows is traceable. */
  lemma StampedBehind(lib: Lib, table: seq<Row>, batch: seq<AuditRecord>)
    requires HexDigests(lib) && Linked(RecordHasher(lib), Segment(table), StartOf(table), SeedOf(table))
    requires AllCovered(Traceable, Segment(table)) && forall r :: r in batch ==> Supported(r)
    ensures AllCovered(Traceable, Stamped(RecordHasher(lib), table, batch))
  {
    HeadIsPlain(lib, table);
    StampedTraceable(lib, batch, ChainHead(table).1, ChainHead(table).0);
  }

  lemma HeadIsPlain(lib: Lib, table: seq<Row>)
    requires HexDigests(lib) && Linked(RecordHasher(lib), Segment(table), StartOf(table), SeedOf(table))
    requires AllCovered(Traceable, Segment(table))
    ensures PlainPrev(ChainHead(table).0)
  {
    HeadOf(RecordHasher(lib), table);
    EndIsPlain(lib, Segment(table), StartOf(table), SeedOf(table));
  }

  lemma {:induction false} RecordStepAllowed(lib: Lib, l: Ledger, step: Step)
    requires HexDigests(lib) && TrackedLedger(RecordHasher(lib), Traceable, l) && RecordStep(l, step)
    ensures Allowed(RecordHasher(lib), Traceable, l, step)
  {
    match step
    case Work(Append(batch)) => StampedBehind(lib, l.world.store.table, batch);
    case _ =>
  }

  /** With the hash the records really carry, over databases that mix records of all versions. */
  lemma {:induction false} RecordRunsStrandNothing(lib: Lib, adapt: Adapter, l: Ledger, steps: seq<Step>)
    requires Faithful(lib) && HexDigests(lib) && TrackedLedger(RecordHasher(lib), Traceable, l)
    requires RecordRun(RecordHasher(lib), adapt, l, steps)
    ensures
      var end := Run(RecordHasher(lib), adapt, l, steps);
      && TrackedLedger(RecordHasher(lib), Traceable, end)
      && NoneStranded(SameLink, end.world.store.table, Reconciled(end.world.store, ProgressOf(end)))
  {
    RecordRunAllowed(lib, adapt, l, steps);
    RecordHasherLinks(lib);
    RunsStrandNothing(RecordHasher(lib), adapt, Traceable, SameLink, l, steps);
  }

  lemma {:induction false} RecordRunAllowed(lib: Lib, adapt: Adapter, l: Ledger, steps: seq<Step>)
    requires HexDigests(lib) && TrackedLedger(RecordHasher(lib), Traceable, l)
    requires RecordRun(RecordHasher(lib), adapt, l, steps)
    ensures AllowedRun(RecordHasher(lib), adapt, Traceable, l, steps)
    decreases |steps|
  {
    if steps != [] {
      RecordStepAllowed(lib, l, steps[0]);
      StepTracked(RecordHasher(lib), adapt, Traceable, l, steps[0]);
      RecordRunAllowed(lib, adapt, Next(RecordHasher(lib), adapt, l, steps[0]), steps[1..]);
    }
  }

  /** Retention in such a run deletes only rows from before the epoch or rows the projection examined. */
  lemma RetentionDeletesExamined(
    h: Hasher, adapt: Adapter, covered: Row -> bool, same: (Row, Row) -> bool, l: Ledger, pass: Pass, row: Row)
    requires HashDetermines(h, covered, same) && TrackedLedger(h, covered, l) && !Restarted(l)
    requires row in Segment(l.world.store.table)
    requires row !in Segment(Next(h, adapt, l, Work(M.Retain(pass))).world.store.table)
    ensures Key(row) <= l.world.projection.cursor && Accounted(same, ProgressOf(l), row)
  {
    NoStrandedRows(h, covered, same, l.world.store, ProgressOf(l), l.world.projection.baselineHash);
    M.RetentionIsCovered(h, l.world, pass);
    DeletedIsBelow(l.world.store, PruneBound(l.world.store.table, pass.cutoff, pass.respectSync), row);
  }

  lemma DeletedIsBelow(s: Store, bound: int, row: Row)
    requires row in Segment(s.table) && row !in Segment(AfterDelete(s, bound).table)
    ensures Key(row) <= bound
  {
    PruneSegment(s.table, bound);
    FilterElements(Segment(s.table), Above(bound));
  }

  // ---------- Where it fails ----------

  /** A tail pass that commits rows, followed by a reopening, leaves a row stranded exactly when it
      ran on a restarted chain: the test that opening the database makes, and the pass does not. */
  lemma NextPassStrandsIff(
    h: Hasher, adapt: Adapter, covered: Row -> bool, same: (Row, Row) -> bool, l: Ledger, batchSize: nat)
    requires HashDetermines(h, covered, same) && Reflexive(same) && KeepsHash(same) && TrackedLedger(h, covered, l)
    requires Committed(adapt, l.world, batchSize, NoCrash) != []
    ensures
      var next := Next(h, adapt, l, Work(M.TailPass(batchSize, NoCrash)));
      NoneStranded(same, next.world.store.table, Reconciled(next.world.store, ProgressOf(next))) <==> !Restarted(l)
  {
    var next := Next(h, adapt, l, Work(M.TailPass(batchSize, NoCrash)));
    var seed := l.world.projection.baselineHash;
    if Restarted(l) {
      RestartedPass(h, covered, same, l.world, ProgressOf(l), seed, batchSize);
      var start, from := TailIsLinked(h, l.world, batchSize);
      TailPasses(h, adapt, l.world, l.seen, batchSize, NoCrash, start, from);
    } else {
      TailTracked(h, adapt, covered, l, batchSize, NoCrash);
      NoStrandedRows(h, covered, same, next.world.store, ProgressOf(next), next.world.projection.baselineHash);
    }
  }

  lemma RestartedPass(
    h: Hasher, covered: Row -> bool, same: (Row, Row) -> bool, w: M.World, p: Progress, seed: Option<string>,
    batchSize: nat)
    requires HashDetermines(h, covered, same) && Reflexive(same) && KeepsHash(same)
    requires Tracked(h, covered, w.store, p, seed) && Regenerated(w.store, p) && p.cursor == w.projection.cursor
    requires TailRows(w, batchSize) != []
    ensures !NoneStranded(same, w.store.table, Reconciled(w.store, Passed(p, TailRows(w, batchSize))))
  {
    RestartsAtGenesis(h, w.store, p, seed);
    var tail := TailRows(w, batchSize);
    var c := p.cursor;
    CursorStored(h, w.store, p, Limit(batchSize));
    TailLinked(h, w.store, p.cursor, Limit(batchSize), c, c, EndHash(Segment(w.store.table)[..c], None));
    PassStrandsIff(h, covered, same, w.store, p, seed, c, tail);
    AnotherHash(h, w.store, p);
  }

  /** Rows above the cursor of a chain from genesis: the cursor's position is stored too. */
  lemma CursorStored(h: Hasher, s: Store, p: Progress, limit: nat)
    requires Grounded(h, s) && StartOf(s.table) == 0 && p.cursor > 0
    requires FirstRows(SegmentAbove(s.table, p.cursor), limit) != []
    ensures p.cursor < |Segment(s.table)|
  {
    SegmentAboveFilters(s.table, p.cursor);
    if p.cursor >= |Segment(s.table)| {
      NothingAbove(h, Segment(s.table), StartOf(s.table), SeedOf(s.table), p.cursor);
    }
  }

  /** The stored row at the cursor is not the examined one. */
  lemma AnotherHash(h: Hasher, s: Store, p: Progress)
    requires Grounded(h, s) && StartOf(s.table) == 0 && 0 < p.cursor <= |Segment(s.table)| && Regenerated(s, p)
    ensures Segment(s.table)[p.cursor - 1].recordHash != p.cursorHash
  {
    RestartTest(h, s, p, Segment(s.table), 0);
  }
}
