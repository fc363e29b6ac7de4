/** Runs that leave a row stranded (crates/grith-audit/src/analytics.rs, retention.rs, storage.rs):
    what the runs of EpochRuns.dfy leave out does happen. */
module EpochWitness {
  import opened Basics
  import opened Contract
  import opened Records
  import opened Sorting
  import opened Chain
  import opened ChainStore
  import opened Anchoring
  import opened Agreement
  import opened ColdFiles
  import opened Retention
  import opened RetentionRuns
  import opened RecordHash
  import opened TamperEvidence
  import opened Events
  import opened GroupBy
  import opened DayRollup
  import opened Projection
  import opened Epoch
  import opened EpochRuns

  const EMPTY_LEDGER := Ledger(
    M.World(Store([], None, None, None), [], Projection(0, 0, None, 0, None, 1, 0, map[], map[], map[], map[])), [])

  const FULL_PASS: EpochRuns.Step := Work(M.TailPass(DEFAULT_MATERIALIZER_BATCH, NoCrash))

  ghost predicate KeepsId(same: (Row, Row) -> bool) { forall a, b :: same(a, b) ==> a.content.id == b.content.id }

  /** Everything the pass finds is old enough, nothing else holds it back, and what it appends is written. */
  ghost predicate Empties(pass: Pass, records: seq<AuditRecord>) {
    && !pass.respectSync && !pass.crashBeforeDelete && (pass.coldStorage ==> forall n :: pass.env(n) == Written)
    && forall k :: 0 <= k < |records| ==> records[k].timestamp < pass.cutoff
  }

  predicate NoDirtyDay(p: Projection) { forall key :: key in p.days ==> !p.days[key].dirty }

  /** The full tail pass over the ledger's table projects every record it reads. */
  predicate PassSucceeds(adapt: Adapter, l: Ledger) {
    AfterTail(adapt, l.world.projection, l.world.store.table, DEFAULT_MATERIALIZER_BATCH, NoCrash).1.Ok?
  }

  // ---------- Chains from genesis ----------

  /** A table that holds a chain from genesis and nothing else, in order. */
  ghost predicate FromGenesis(h: Hasher, rows: seq<Row>) {
    Segment(rows) == rows && Linked(h, rows, 0, None) && StartOf(rows) == 0 && SeedOf(rows) == None
  }

  /** A batch appended to an empty table. */
  lemma AppendToEmpty(h: Hasher, s: Store, batch: seq<AuditRecord>, rows: seq<Row>)
    requires s.table == [] && FreshIds([], batch) && rows == StampAll(h, batch, 0, None)
    ensures AfterInsert(h, s, batch).table == rows && FromGenesis(h, rows)
  {
    StampAllLinked(h, batch, 0, None);
    assert Grounded(h, s.(boundary := None));
    AppendGrounded(h, s.(boundary := None), rows);
    assert [] + rows == rows;
    if rows != [] {
      LinkedStart(h, rows, 0, None);
    }
  }

  /** The rows a pass reads of a chain from genesis. */
  lemma ReadsRest(h: Hasher, rows: seq<Row>, cursor: nat, limit: nat)
    requires FromGenesis(h, rows) && cursor <= |rows|
    ensures FirstRows(SegmentAbove(rows, cursor), limit) == FirstRows(rows[cursor..], limit)
  {
    SegmentAboveFilters(rows, cursor);
    AboveSuffix(h, rows, 0, None, cursor, cursor);
  }

  /** The greatest sequence among rows that are all old enough is the head's. */
  lemma BoundIsHead(h: Hasher, rows: seq<Row>, pass: Pass)
    requires rows != [] && Linked(h, rows, 0, None) && !pass.respectSync
    requires forall k :: 0 <= k < |rows| ==> rows[k].content.timestamp < pass.cutoff
    ensures PruneBound(rows, pass.cutoff, pass.respectSync) == |rows|
  {
    LinkedKeys(h, rows, 0, None);
    FilterAll(rows, OlderThan(pass.cutoff));
    MaxKeyMeaning(rows);
    assert rows[|rows| - 1] in rows;
  }

  lemma HeadRow(h: Hasher, rows: seq<Row>)
    requires rows != [] && FromGenesis(h, rows)
    ensures RowAt(rows, |rows|).Some? && RowAt(rows, |rows|).value.recordHash.Some?
  {
    BoundRow(h, rows, |rows|);
    LinkedHash(h, rows, 0, None);
  }

  lemma EverythingGoes(h: Hasher, rows: seq<Row>)
    requires Linked(h, rows, 0, None)
    ensures Filter(rows, Survives(|rows|)) == []
  {
    LinkedKeys(h, rows, 0, None);
    FilterNone(rows, Survives(|rows|));
  }

  /** A cursor at the head of the chain it examined. */
  lemma HeadIsSame(h: Hasher, s: Store, p: Progress)
    requires FromGenesis(h, s.table) && s.table != []
    requires p.cursor == |s.table| && p.cursorHash == Last(s.table).recordHash
    ensures !Regenerated(s, p)
  {
    RestartTest(h, s, p, s.table, 0);
  }

  /** A chain from genesis that carries another hash at the cursor and is longer. */
  lemma LongerRestart(h: Hasher, s: Store, p: Progress)
    requires FromGenesis(h, s.table)
    requires 0 < p.cursor < |s.table| && p.cursorHash.Some? && s.table[p.cursor - 1].recordHash != p.cursorHash
    ensures Regenerated(s, p)
  {
    RestartTest(h, s, p, s.table, 0);
  }

  lemma SomethingAbove(h: Hasher, rows: seq<Row>, cursor: nat)
    requires FromGenesis(h, rows) && cursor < |rows|
    ensures FirstRows(SegmentAbove(rows, cursor), DEFAULT_MATERIALIZER_BATCH) != []
  {
    ReadsRest(h, rows, cursor, DEFAULT_MATERIALIZER_BATCH);
  }

  // ---------- Four steps ----------

  /** The run after its first append. */
  lemma {:induction false} AppendedFirst(
    h: Hasher, adapt: Adapter, covered: Row -> bool, first: seq<AuditRecord>, rows: seq<Row>)
    requires FreshIds([], first) && rows == StampAll(h, first, 0, None) && AllCovered(covered, rows)
    ensures
      var l := EpochRuns.Next(h, adapt, EMPTY_LEDGER, Work(M.Append(first)));
      && TrackedLedger(h, covered, l) && l.world.store.table == rows && UniqueIds(rows)
      && l.world.projection == EMPTY_LEDGER.world.projection && l.seen == []
  {
    var l := EMPTY_LEDGER;
    FirstEpochTracked(h, covered, l.world);
    AppendToEmpty(h, l.world.store, first, rows);
    AppendTracked(h, covered, l.world.store, ProgressOf(l), None, first);
    StampAllLinked(h, first, 0, None);
  }

  /** A pass over all of a chain from genesis, from the default cursor. */
  lemma {:induction false} ReadAll(h: Hasher, adapt: Adapter, l: Ledger, rows: seq<Row>)
    requires l.world.store.table == rows && FromGenesis(h, rows) && PassSucceeds(adapt, l)
    requires 0 < |rows| <= DEFAULT_MATERIALIZER_BATCH && ProgressOf(l) == Progress(0, 0, None, [])
    ensures
      var next := EpochRuns.Next(h, adapt, l, FULL_PASS);
      && ProgressOf(next) == Progress(0, |rows|, Last(rows).recordHash, rows) && next.world.store == l.world.store
  {
    ReadsRest(h, rows, 0, DEFAULT_MATERIALIZER_BATCH);
    assert rows[0..] == rows;
    TailPasses(h, adapt, l.world, l.seen, DEFAULT_MATERIALIZER_BATCH, NoCrash, 0, None);
    LinkedEnd(h, rows, 0, None);
    EmptyFront(l.seen, rows);
  }

  /** A stored chain from genesis that the projection has examined to its end. */
  ghost predicate ExaminedAll(h: Hasher, l: Ledger, rows: seq<Row>) {
    && l.world.store.table == rows && rows != [] && FromGenesis(h, rows) && UniqueIds(rows)
    && ProgressOf(l) == Progress(0, |rows|, Last(rows).recordHash, rows)
  }

  /** The run after its first tail pass. */
  lemma {:induction false} ExaminedFirst(
    h: Hasher, adapt: Adapter, covered: Row -> bool, first: seq<AuditRecord>, rows: seq<Row>, l1: Ledger)
    requires FreshIds([], first) && 0 < |first| <= DEFAULT_MATERIALIZER_BATCH
    requires rows == StampAll(h, first, 0, None) && AllCovered(covered, rows)
    requires l1 == EpochRuns.Next(h, adapt, EMPTY_LEDGER, Work(M.Append(first))) && PassSucceeds(adapt, l1)
    ensures TrackedLedger(h, covered, EpochRuns.Next(h, adapt, l1, FULL_PASS))
    ensures ExaminedAll(h, EpochRuns.Next(h, adapt, l1, FULL_PASS), rows)
  {
    AppendedFirst(h, adapt, covered, first, rows);
    AppendToEmpty(h, EMPTY_LEDGER.world.store, first, rows);
    TailTracked(h, adapt, covered, l1, DEFAULT_MATERIALIZER_BATCH, NoCrash);
    ReadAll(h, adapt, l1, rows);
  }

  /** A covered pass over old rows leaves the table empty. */
  lemma PassEmpties(h: Hasher, w: M.World, pass: Pass, records: seq<AuditRecord>)
    requires w.store.table != [] && FromGenesis(h, w.store.table) && UniqueIds(w.store.table)
    requires |records| == |w.store.table| && Empties(pass, records)
    requires forall k :: 0 <= k < |records| ==> w.store.table[k].content == records[k]
    requires w.projection.cursor == |w.store.table| && NoDirtyDay(w.projection)
    ensures Pruned(h, w.store, w.files, M.Gated(w.projection, pass)).0.table == []
  {
    var rows := w.store.table;
    BoundIsHead(h, rows, pass);
    HeadRow(h, rows);
    CoveredPassCompletes(h, w.store, w.files, M.Gated(w.projection, pass));
    EverythingGoes(h, rows);
  }

  /** The run after retention. */
  lemma {:induction false} EmptiedFirst(
    h: Hasher, adapt: Adapter, covered: Row -> bool, first: seq<AuditRecord>, pass: Pass, rows: seq<Row>, l: Ledger)
    requires TrackedLedger(h, covered, l) && ExaminedAll(h, l, rows) && Empties(pass, first)
    requires |rows| == |first| && forall k :: 0 <= k < |first| ==> rows[k].content == first[k]
    requires NoDirtyDay(l.world.projection)
    ensures
      var next := EpochRuns.Next(h, adapt, l, Work(M.Retain(pass)));
      && TrackedLedger(h, covered, next) && next.world.store.table == []
      && ProgressOf(next) == ProgressOf(l) && next.world.projection == l.world.projection
  {
    HeadIsSame(h, l.world.store, ProgressOf(l));
    RetainTracked(h, adapt, covered, l, pass);
    EmptiedStore(h, adapt, first, pass, rows, l);
  }

  lemma {:induction false} EmptiedStore(
    h: Hasher, adapt: Adapter, first: seq<AuditRecord>, pass: Pass, rows: seq<Row>, l: Ledger)
    requires ExaminedAll(h, l, rows) && Empties(pass, first) && NoDirtyDay(l.world.projection)
    requires |rows| == |first| && forall k :: 0 <= k < |first| ==> rows[k].content == first[k]
    ensures
      var next := EpochRuns.Next(h, adapt, l, Work(M.Retain(pass)));
      && next.world.store.table == []
      && ProgressOf(next) == ProgressOf(l) && next.world.projection == l.world.projection
  {
    PassEmpties(h, l.world, pass, first);
  }

  /** The second batch restarts the chain and reaches beyond the cursor: the next pass strands a row. */
  lemma {:induction false} SecondHalf(
    h: Hasher, adapt: Adapter, covered: Row -> bool, same: (Row, Row) -> bool,
    second: seq<AuditRecord>, rows: seq<Row>, l3: Ledger, l4: Ledger)
    requires HashDetermines(h, covered, same) && Reflexive(same) && KeepsHash(same)
    requires TrackedLedger(h, covered, l3) && l3.world.store.table == [] && FreshIds([], second)
    requires rows == StampAll(h, second, 0, None) && AllCovered(covered, rows)
    requires 0 < l3.world.projection.cursor < |second| && l3.world.projection.cursorHash.Some?
    requires rows[l3.world.projection.cursor - 1].recordHash != l3.world.projection.cursorHash
    requires l4 == EpochRuns.Next(h, adapt, l3, Work(M.Append(second))) && PassSucceeds(adapt, l4)
    ensures
      var end := EpochRuns.Next(h, adapt, l4, FULL_PASS);
      !NoneStranded(same, end.world.store.table, Reconciled(end.world.store, ProgressOf(end)))
  {
    AppendToEmpty(h, l3.world.store, second, rows);
    AppendTracked(h, covered, l3.world.store, ProgressOf(l3), l3.world.projection.baselineHash, second);
    LongerRestart(h, l4.world.store, ProgressOf(l4));
    SomethingAbove(h, rows, l4.world.projection.cursor);
    NextPassStrandsIff(h, adapt, covered, same, l4, DEFAULT_MATERIALIZER_BATCH);
  }

  // ---------- Records that are no events ----------

  /** An adapter for records that cannot be expressed as events: each of them is a counted gap. */
  function SkipAll(): Adapter { (c: Cold) => None }

  lemma {:induction false} SkipProjects(epoch: nat, a: OpenBatch, records: seq<Cold>)
    ensures ProjectAll(SkipAll(), epoch, a, records).Ok?
    ensures ProjectAll(SkipAll(), epoch, a, records).value.touched == a.touched
    decreases |records|
  {
    if records != [] {
      SkipProjects(epoch, ProjectOne(SkipAll(), epoch, a, records[0]).value, records[1..]);
    }
  }

  lemma SkipSucceeds(l: Ledger)
    ensures PassSucceeds(SkipAll(), l)
    ensures l.world.projection.days == map[] ==>
      AfterTail(SkipAll(), l.world.projection, l.world.store.table, DEFAULT_MATERIALIZER_BATCH, NoCrash).0.days == map[]
  {
    var p := l.world.projection;
    SkipProjects(p.epoch, Open(p), ReadTail(l.world.store.table, p.cursor, Limit(DEFAULT_MATERIALIZER_BATCH)));
  }

  /** Append, materialize, let retention empty the segment, append more than before, materialize. */
  function RestartingRun(first: seq<AuditRecord>, second: seq<AuditRecord>, pass: Pass): seq<EpochRuns.Step> {
    [Work(M.Append(first)), FULL_PASS, Work(M.Retain(pass)), Work(M.Append(second)), FULL_PASS]
  }

  /** A run the code reaches that strands a row: `first` is appended and materialized, retention
      covered by the cursor deletes all of it, the chain restarts with a longer `second`, and the next
      tail pass reads on from the old cursor. Reopening the database afterwards does not notice. */
  lemma {:induction false} RestartStrands(
    h: Hasher, covered: Row -> bool, same: (Row, Row) -> bool,
    first: seq<AuditRecord>, second: seq<AuditRecord>, pass: Pass, gone: seq<Row>, rows: seq<Row>)
    requires HashDetermines(h, covered, same) && Reflexive(same) && KeepsHash(same) && KeepsId(same)
    requires FreshIds([], first) && FreshIds([], second) && Empties(pass, first)
    requires 0 < |first| <= DEFAULT_MATERIALIZER_BATCH && |first| < |second|
    requires gone == StampAll(h, first, 0, None) && rows == StampAll(h, second, 0, None)
    requires AllCovered(covered, gone) && AllCovered(covered, rows)
    requires first[|first| - 1].id != second[|first| - 1].id
    ensures
      var end := EpochRuns.Run(h, SkipAll(), EMPTY_LEDGER, RestartingRun(first, second, pass));
      !NoneStranded(same, end.world.store.table, Reconciled(end.world.store, ProgressOf(end)))
  {
    var adapt := SkipAll();
    var steps := RestartingRun(first, second, pass);
    var l1 := EpochRuns.Next(h, adapt, EMPTY_LEDGER, steps[0]);
    var l2 := EpochRuns.Next(h, adapt, l1, steps[1]);
    var l3 := EpochRuns.Next(h, adapt, l2, steps[2]);
    var l4 := EpochRuns.Next(h, adapt, l3, steps[3]);
    FirstHalf(h, covered, first, pass, gone, l1, l2);
    LastHashesDiffer(h, covered, same, first, second, gone, rows, |first| - 1);
    SkipSucceeds(l4);
    SecondHalf(h, adapt, covered, same, second, rows, l3, l4);
    RunUnfolds(h, adapt, EMPTY_LEDGER, steps, l1, l2, l3, l4);
  }

  /** The first three steps. */
  lemma {:induction false} FirstHalf(
    h: Hasher, covered: Row -> bool, first: seq<AuditRecord>, pass: Pass, gone: seq<Row>, l1: Ledger, l2: Ledger)
    requires FreshIds([], first) && 0 < |first| <= DEFAULT_MATERIALIZER_BATCH && Empties(pass, first)
    requires gone == StampAll(h, first, 0, None) && AllCovered(covered, gone)
    requires l1 == EpochRuns.Next(h, SkipAll(), EMPTY_LEDGER, Work(M.Append(first)))
    requires l2 == EpochRuns.Next(h, SkipAll(), l1, FULL_PASS)
    ensures
      var l3 := EpochRuns.Next(h, SkipAll(), l2, Work(M.Retain(pass)));
      && TrackedLedger(h, covered, l3) && l3.world.store.table == []
      && l3.world.projection.cursor == |first| && l3.world.projection.cursorHash == gone[|first| - 1].recordHash
      && gone[|first| - 1].recordHash.Some?
  {
    StampAllLinked(h, first, 0, None);
    LinkedHash(h, gone, 0, None);
    SkippedFirst(h, covered, first, gone, l1, l2);
    EmptiedFirst(h, SkipAll(), covered, first, pass, gone, l2);
  }

  lemma {:induction false} SkippedFirst(
    h: Hasher, covered: Row -> bool, first: seq<AuditRecord>, gone: seq<Row>, l1: Ledger, l2: Ledger)
    requires FreshIds([], first) && 0 < |first| <= DEFAULT_MATERIALIZER_BATCH
    requires gone == StampAll(h, first, 0, None) && AllCovered(covered, gone)
    requires l1 == EpochRuns.Next(h, SkipAll(), EMPTY_LEDGER, Work(M.Append(first)))
    requires l2 == EpochRuns.Next(h, SkipAll(), l1, FULL_PASS)
    ensures TrackedLedger(h, covered, l2) && ExaminedAll(h, l2, gone) && NoDirtyDay(l2.world.projection)
  {
    SkipSucceeds(l1);
    ExaminedFirst(h, SkipAll(), covered, first, gone, l1);
  }

  lemma {:induction false} RunUnfolds(
    h: Hasher, adapt: Adapter, l: Ledger, steps: seq<EpochRuns.Step>, l1: Ledger, l2: Ledger, l3: Ledger, l4: Ledger)
    requires |steps| == 5
    requires l1 == EpochRuns.Next(h, adapt, l, steps[0]) && l2 == EpochRuns.Next(h, adapt, l1, steps[1])
    requires l3 == EpochRuns.Next(h, adapt, l2, steps[2]) && l4 == EpochRuns.Next(h, adapt, l3, steps[3])
    ensures EpochRuns.Run(h, adapt, l, steps) == EpochRuns.Next(h, adapt, l4, steps[4])
  {
    OneStep(h, adapt, l, steps, 0);
    OneStep(h, adapt, l1, steps, 1);
    OneStep(h, adapt, l2, steps, 2);
    OneStep(h, adapt, l3, steps, 3);
    OneStep(h, adapt, l4, steps, 4);
    assert steps[0..] == steps && steps[5..] == [];
  }

  lemma OneStep(h: Hasher, adapt: Adapter, l: Ledger, steps: seq<EpochRuns.Step>, i: nat)
    requires i < |steps|
    ensures EpochRuns.Run(h, adapt, l, steps[i..])
      == EpochRuns.Run(h, adapt, EpochRuns.Next(h, adapt, l, steps[i]), steps[i + 1..])
  {
    assert steps[i..][0] == steps[i] && steps[i..][1..] == steps[i + 1..];
  }

  // ---------- Records that are events ----------

  /** The event of a compact record without analytics metadata: a routine operation without verdict,
      score or filter data. */
  function RoutineEvent(c: Cold): AnalyticsEvent {
    AnalyticsEvent(
      c.content.id, c.content.timestamp / 1000, Some(c.content.sessionId), "unknown", "unknown", "unknown", "unknown",
      Decisions, RoutineIo, Other, None, None, None, [], [], None, None, None,
      if c.chainSequence.Some? && c.chainSequence.value >= 0 then Some(c.chainSequence.value) else None, c.recordHash)
  }

  function Routine(): Adapter { (c: Cold) => Some(RoutineEvent(c)) }

  function EventDay(epoch: nat, c: Cold): DayKey { KeyOf(SourceEvent(epoch, RoutineEvent(c))) }

  /** A pass that reads one new record: one event more, and its day is dirty. */
  lemma OneEventPass(p: Projection, table: seq<Row>, c: Cold)
    requires ReadTail(table, p.cursor, Limit(DEFAULT_MATERIALIZER_BATCH)) == [c]
    requires c.content.analyticsMetadata.None? && c.content.id !in p.events
    ensures
      var (q, r) := AfterTail(Routine(), p, table, DEFAULT_MATERIALIZER_BATCH, NoCrash);
      && r.Ok? && q.epoch == p.epoch
      && q.events == p.events[c.content.id := SourceEvent(p.epoch, RoutineEvent(c))]
      && q.days == Marked(p.days, {EventDay(p.epoch, c)}, p.generation)
  {
    var b := ProjectOne(Routine(), p.epoch, Open(p), c).value;
    assert [c][1..] == [] && ProjectAll(Routine(), p.epoch, Open(p), [c]) == Ok(b);
    assert Routine()(c) == Some(RoutineEvent(c));
    assert b.touched == {EventDay(p.epoch, c)};
  }

  /** What a pass reads when one row is left above the cursor. */
  lemma ReadsOne(h: Hasher, rows: seq<Row>, cursor: nat)
    requires FromGenesis(h, rows) && cursor + 1 == |rows|
    ensures ReadTail(rows, cursor, Limit(DEFAULT_MATERIALIZER_BATCH)) == [Archived(rows[cursor])]
  {
    ReadsRest(h, rows, cursor, DEFAULT_MATERIALIZER_BATCH);
    assert rows[cursor..] == [rows[cursor]];
    MapFirst(SegmentAbove(rows, cursor), DEFAULT_MATERIALIZER_BATCH);
  }

  lemma RoutineAccepted(c: Cold)
    ensures Accept(Fresh(DayOf(RoutineEvent(c).occurredAt)), RoutineEvent(c)).Some?
  {
    var e := RoutineEvent(c);
    var r := Fresh(DayOf(e.occurredAt));
    assert ValidationError(e).None?;
    assert CountersFit(Added(r, e)) && RowsFit(Added(r, e));
  }

  lemma SingletonList<T>(s: seq<T>, x: T)
    requires multiset(s) == multiset{x}
    ensures s == [x]
  {
    assert |multiset(s)| == |s| && s[0] in multiset(s);
  }

  /** A day with one such event can be aggregated. */
  lemma OneEventAggregates(epoch: nat, c: Cold)
    ensures
      var events: map<Uuid, SourceEvent> := map[c.content.id := SourceEvent(epoch, RoutineEvent(c))];
      RollupOf(events, EventDay(epoch, c)).Some?
  {
    var e := RoutineEvent(c);
    var events: map<Uuid, SourceEvent> := map[c.content.id := SourceEvent(epoch, e)];
    var key := EventDay(epoch, c);
    assert c.content.id in events && DayEvents(events, key) == {e};
    OneInOrder(e);
    OneIngested(c);
    assert RollupOf(events, key) == IngestAll(Fresh(key.day), [e]);
  }

  lemma OneInOrder(e: AnalyticsEvent)
    ensures OrderedEvents({e}) == [e]
  {
    ListOfElements({e});
    SortKeepsElements(ListOf({e}), TimeThenId);
    SingletonList(OrderedEvents({e}), e);
  }

  lemma OneIngested(c: Cold)
    ensures IngestAll(Fresh(EventDay(0, c).day), [RoutineEvent(c)]).Some?
  {
    RoutineAccepted(c);
    assert [RoutineEvent(c)][1..] == [];
  }

  /** Append a record, materialize it, aggregate its day, let retention archive and delete it, append
      two other records, materialize. */
  function EventRun(first: AuditRecord, second: seq<AuditRecord>, day: DayKey, pass: Pass): seq<EpochRuns.Step> {
    [Work(M.Append([first])), FULL_PASS, Work(M.Rebuild(day)), Work(M.Retain(pass)), Work(M.Append(second)), FULL_PASS]
  }

  /** The run after the record is materialized and its day aggregated. */
  lemma {:induction false} AggregatedFirst(
    h: Hasher, covered: Row -> bool, first: AuditRecord, rows: seq<Row>, day: DayKey, l1: Ledger, l2: Ledger)
    requires rows == StampAll(h, [first], 0, None) && AllCovered(covered, rows)
    requires first.analyticsMetadata.None? && day == EventDay(0, Archived(rows[0]))
    requires l1 == EpochRuns.Next(h, Routine(), EMPTY_LEDGER, Work(M.Append([first])))
    requires l2 == EpochRuns.Next(h, Routine(), l1, FULL_PASS)
    ensures
      var next := EpochRuns.Next(h, Routine(), l2, Work(M.Rebuild(day)));
      && TrackedLedger(h, covered, next) && ExaminedAll(h, next, rows)
      && NoDirtyDay(next.world.projection) && next.world.projection.events.Keys == {first.id}
  {
    FirstEvent(h, covered, first, rows, l1);
    ExaminedFirst(h, Routine(), covered, [first], rows, l1);
    StepTracked(h, Routine(), covered, l2, Work(M.Rebuild(day)));
    OneEventAggregates(0, Archived(rows[0]));
    RebuiltClean(l2.world.projection, day);
  }

  lemma {:induction false} FirstEvent(h: Hasher, covered: Row -> bool, first: AuditRecord, rows: seq<Row>, l1: Ledger)
    requires rows == StampAll(h, [first], 0, None) && AllCovered(covered, rows) && first.analyticsMetadata.None?
    requires l1 == EpochRuns.Next(h, Routine(), EMPTY_LEDGER, Work(M.Append([first])))
    ensures
      var c := Archived(rows[0]);
      var q := EpochRuns.Next(h, Routine(), l1, FULL_PASS).world.projection;
      && c.content == first && PassSucceeds(Routine(), l1)
      && q.events == map[first.id := SourceEvent(0, RoutineEvent(c))] && q.days.Keys == {EventDay(0, c)}
  {
    AppendedFirst(h, Routine(), covered, [first], rows);
    AppendToEmpty(h, EMPTY_LEDGER.world.store, [first], rows);
    ReadsOne(h, rows, 0);
    OneEventPass(l1.world.projection, rows, Archived(rows[0]));
  }

  /** Rebuilding the only day leaves none dirty and moves nothing else. */
  lemma RebuiltClean(p: Projection, day: DayKey)
    requires p.days.Keys == {day} && RollupOf(p.events, day).Some?
    ensures
      var q := AfterRebuild(p, day);
      && NoDirtyDay(q) && q.events == p.events && q.cursor == p.cursor && q.cursorHash == p.cursorHash
      && q.baseline == p.baseline && q.baselineHash == p.baselineHash
  {
  }

  /** The same with real events, a rebuilt day and a frame in cold storage: the routine events of three
      records of different ids. */
  lemma {:induction false} EventsStrand(
    h: Hasher, covered: Row -> bool, same: (Row, Row) -> bool,
    first: AuditRecord, second: seq<AuditRecord>, pass: Pass, gone: seq<Row>, rows: seq<Row>)
    requires HashDetermines(h, covered, same) && Reflexive(same) && KeepsHash(same) && KeepsId(same)
    requires FreshIds([], second) && |second| == 2 && Empties(pass, [first])
    requires first.id != second[0].id && first.id != second[1].id
    requires first.analyticsMetadata.None? && second[1].analyticsMetadata.None?
    requires gone == StampAll(h, [first], 0, None) && rows == StampAll(h, second, 0, None)
    requires AllCovered(covered, gone) && AllCovered(covered, rows)
    ensures
      var day := EventDay(0, Archived(gone[0]));
      var end := EpochRuns.Run(h, Routine(), EMPTY_LEDGER, EventRun(first, second, day, pass));
      !NoneStranded(same, end.world.store.table, Reconciled(end.world.store, ProgressOf(end)))
  {
    var adapt := Routine();
    var steps := EventRun(first, second, EventDay(0, Archived(gone[0])), pass);
    var l1 := EpochRuns.Next(h, adapt, EMPTY_LEDGER, steps[0]);
    var l2 := EpochRuns.Next(h, adapt, l1, steps[1]);
    var l3 := EpochRuns.Next(h, adapt, l2, steps[2]);
    var l4 := EpochRuns.Next(h, adapt, l3, steps[3]);
    var l5 := EpochRuns.Next(h, adapt, l4, steps[4]);
    StampAllLinked(h, [first], 0, None);
    AggregatedFirst(h, covered, first, gone, EventDay(0, Archived(gone[0])), l1, l2);
    EmptiedFirst(h, adapt, covered, [first], pass, gone, l3);
    LinkedHash(h, gone, 0, None);
    LastHashesDiffer(h, covered, same, [first], second, gone, rows, 0);
    SecondSucceeds(h, l4, l5, second, rows);
    SecondHalf(h, adapt, covered, same, second, rows, l4, l5);
    OneStep(h, adapt, EMPTY_LEDGER, steps, 0);
    RunUnfolds(h, adapt, l1, steps[1..], l2, l3, l4, l5);
  }

  /** The pass after the restart reads the second of the two records, a new event. */
  lemma {:induction false} SecondSucceeds(
    h: Hasher, l4: Ledger, l5: Ledger, second: seq<AuditRecord>, rows: seq<Row>)
    requires l4.world.store.table == [] && FreshIds([], second) && |second| == 2
    requires rows == StampAll(h, second, 0, None) && l4.world.projection.cursor == 1
    requires second[1].id !in l4.world.projection.events && second[1].analyticsMetadata.None?
    requires l5 == EpochRuns.Next(h, Routine(), l4, Work(M.Append(second)))
    ensures PassSucceeds(Routine(), l5)
  {
    AppendToEmpty(h, l4.world.store, second, rows);
    StampAllLinked(h, second, 0, None);
    ReadsOne(h, rows, 1);
    OneEventPass(l5.world.projection, rows, Archived(rows[1]));
  }

  // ---------- The hash the records really carry ----------

  /** So it goes with the hash the records really carry, for any two lists of supported records that
      differ where the first one ends. */
  lemma {:induction false} RestartStrandsRecords(
    lib: Lib, first: seq<AuditRecord>, second: seq<AuditRecord>, pass: Pass)
    requires Faithful(lib) && HexDigests(lib)
    requires FreshIds([], first) && FreshIds([], second) && Empties(pass, first)
    requires 0 < |first| <= DEFAULT_MATERIALIZER_BATCH && |first| < |second|
    requires (forall r :: r in first ==> Supported(r)) && (forall r :: r in second ==> Supported(r))
    requires first[|first| - 1].id != second[|first| - 1].id
    ensures
      var end := EpochRuns.Run(RecordHasher(lib), SkipAll(), EMPTY_LEDGER, RestartingRun(first, second, pass));
      !NoneStranded(SameLink, end.world.store.table, Reconciled(end.world.store, ProgressOf(end)))
  {
    var h := RecordHasher(lib);
    RecordHasherLinks(lib);
    StampedTraceable(lib, first, 0, None);
    StampedTraceable(lib, second, 0, None);
    SameLinkKeeps();
    RestartStrands(h, Traceable, SameLink, first, second, pass, StampAll(h, first, 0, None),
      StampAll(h, second, 0, None));
  }

  /** ... and for the run with events. */
  lemma {:induction false} EventsStrandRecords(lib: Lib, first: AuditRecord, second: seq<AuditRecord>, pass: Pass)
    requires Faithful(lib) && HexDigests(lib)
    requires FreshIds([], second) && |second| == 2 && Empties(pass, [first])
    requires Supported(first) && Supported(second[0]) && Supported(second[1])
    requires first.id != second[0].id && first.id != second[1].id
    requires first.analyticsMetadata.None? && second[1].analyticsMetadata.None?
    ensures
      var h := RecordHasher(lib);
      var day := EventDay(0, Archived(Stamp(h, first, 1, None)));
      var end := EpochRuns.Run(h, Routine(), EMPTY_LEDGER, EventRun(first, second, day, pass));
      !NoneStranded(SameLink, end.world.store.table, Reconciled(end.world.store, ProgressOf(end)))
  {
    var h := RecordHasher(lib);
    RecordHasherLinks(lib);
    StampedTraceable(lib, [first], 0, None);
    StampedTraceable(lib, second, 0, None);
    SameLinkKeeps();
    EventsStrand(h, Traceable, SameLink, first, second, pass, StampAll(h, [first], 0, None),
      StampAll(h, second, 0, None));
  }

  /** Stamped rows whose records have different ids carry different hashes. */
  lemma LastHashesDiffer(
    h: Hasher, covered: Row -> bool, same: (Row, Row) -> bool,
    first: seq<AuditRecord>, second: seq<AuditRecord>, gone: seq<Row>, rows: seq<Row>, n: nat)
    requires HashDetermines(h, covered, same) && KeepsId(same)
    requires n < |first| && n < |second| && first[n].id != second[n].id
    requires gone == StampAll(h, first, 0, None) && rows == StampAll(h, second, 0, None)
    requires AllCovered(covered, gone) && AllCovered(covered, rows)
    ensures gone[n].recordHash != rows[n].recordHash
  {
    StampAllLinked(h, first, 0, None);
    StampAllLinked(h, second, 0, None);
    LinkedAt(h, gone, 0, None, n);
    LinkedAt(h, rows, 0, None, n);
    assert gone[n] in gone && rows[n] in rows;
  }
}
