/** The local analytics projection of crates/grith-audit/src/analytics.rs as values: its tables, the
    transactions that change them, and the cache of aggregated days they keep coherent. */
module Projection {
  import opened Basics
  import opened Records
  import opened Sorting
  import opened Chain
  import opened ColdFiles
  import opened Totals
  import opened Events
  import opened GroupBy
  import opened DayRollup
  import opened SnapshotOrder

  /** How a record reads as an event; None is a record the adapter cannot express. */
  type Adapter = Cold -> Option<AnalyticsEvent>

  datatype SourceEvent = SourceEvent(epoch: nat, event: AnalyticsEvent)

  datatype DayKey = DayKey(epoch: nat, day: int)

  /** The five row tables, restricted to one day of one epoch. */
  datatype RowSets = RowSets(
    usage: set<(UsageKey, UsageRow)>, filters: set<(FilterKey, FilterRow)>, sessions: set<(SessionKey, SessionRow)>,
    llm: set<(LlmKey, LlmRow)>, destinations: set<(DestinationKey, DestinationRow)>)

  const NO_ROWS := RowSets({}, {}, {}, {}, {})

  datatype DayState = DayState(
    dayRevision: int, generation: nat, dirty: bool, header: DayHeader, checksum: Option<Covered>,
    acknowledged: Option<int>)

  const NO_EVENTS := DayHeader(0, None, None, None, None, None)

  datatype Projection = Projection(
    epoch: nat, baseline: int, baselineHash: Option<string>, cursor: int, cursorHash: Option<string>,
    generation: nat, gapCount: nat,
    events: map<Uuid, SourceEvent>, days: map<DayKey, DayState>, rows: map<DayKey, RowSets>,
    configs: map<string, ConfigFacts>)

  function KeyOf(s: SourceEvent): DayKey { DayKey(s.epoch, DayOf(s.event.occurredAt)) }

  function RowsAt(p: Projection, key: DayKey): RowSets { if key in p.rows then p.rows[key] else NO_ROWS }

  // ---------- From scratch ----------

  /** `WHERE source_epoch AND day`. */
  function DayEvents(events: map<Uuid, SourceEvent>, key: DayKey): set<AnalyticsEvent> {
    set id | id in events && KeyOf(events[id]) == key :: events[id].event
  }

  predicate TimeThenId(a: AnalyticsEvent, b: AnalyticsEvent) {
    a.occurredAt < b.occurredAt || (a.occurredAt == b.occurredAt && UuidLeq(a.eventId, b.eventId))
  }

  /** `ORDER BY occurred_at, event_id`. */
  ghost function OrderedEvents(s: set<AnalyticsEvent>): seq<AnalyticsEvent> { Sort(ListOf(s), TimeThenId) }

  /** What a fresh accumulator makes of a day's source events. */
  ghost function RollupOf(events: map<Uuid, SourceEvent>, key: DayKey): Option<Rollup> {
    IngestAll(Fresh(key.day), OrderedEvents(DayEvents(events, key)))
  }

  function Tables(r: Rollup): RowSets {
    RowSets(r.usage.Items, r.filters.Items, r.sessions.Items, r.llm.Items, r.destinations.Items)
  }

  ghost function ListsOf(rows: RowSets): RowLists {
    RowLists(ListOf(rows.usage), ListOf(rows.filters), ListOf(rows.sessions), ListOf(rows.llm),
      ListOf(rows.destinations))
  }

  /** The checksum of a rollup, over its canonical row lists. */
  ghost function ChecksumOf(r: Rollup): Covered {
    CoveredBy(r.day, HeaderOf(r), CanonicalRows(ListsOf(Tables(r))))
  }

  // ---------- Coherence ----------

  /** A day that is not dirty stores exactly what its source events aggregate to. */
  ghost predicate DayCoherent(p: Projection, key: DayKey) {
    key in p.days && !p.days[key].dirty ==>
      && RollupOf(p.events, key).Some?
      && RowsAt(p, key) == Tables(RollupOf(p.events, key).value)
      && p.days[key].header == HeaderOf(RollupOf(p.events, key).value)
      && p.days[key].checksum == Some(ChecksumOf(RollupOf(p.events, key).value))
  }

  ghost predicate Coherent(p: Projection) { EventsKeyed(p) && DaysCoherent(p) }

  /** Source events are stored under their own ids, and each one's day has its state. */
  ghost predicate EventsKeyed(p: Projection) {
    forall id :: id in p.events ==> p.events[id].event.eventId == id && KeyOf(p.events[id]) in p.days
  }

  ghost predicate DaysCoherent(p: Projection) { forall key :: DayCoherent(p, key) }

  /** The columns that a rebuild writes. */
  predicate SamePublished(s: DayState, t: DayState) { t.header == s.header && t.checksum == s.checksum }

  /** Days whose source events and stored rows did not change stay coherent. */
  lemma SameDayCoherent(p: Projection, q: Projection, key: DayKey)
    requires DayCoherent(p, key)
    requires key in q.days && !q.days[key].dirty ==>
      && key in p.days && !p.days[key].dirty && SamePublished(p.days[key], q.days[key])
      && DayEvents(q.events, key) == DayEvents(p.events, key) && RowsAt(q, key) == RowsAt(p, key)
    ensures DayCoherent(q, key)
  {
  }

  // ---------- Projecting records ----------

  datatype OpenBatch = OpenBatch(
    events: map<Uuid, SourceEvent>, configs: map<string, ConfigFacts>, touched: set<DayKey>,
    last: Option<int>, lastHash: Option<string>, skipped: nat)

  datatype ProjectionError = InjectedCrash | ReplayConflict | ConfigConflict | AggregationFailed | MergeConflict

  /** `record.chain_sequence >= last_sequence`, absent sequences first. */
  predicate NotBefore(sequence: Option<int>, last: Option<int>) {
    last.None? || (sequence.Some? && sequence.value >= last.value)
  }

  function Advanced(b: OpenBatch, c: Cold): OpenBatch {
    if NotBefore(c.chainSequence, b.last) then b.(last := c.chainSequence, lastHash := c.recordHash) else b
  }

  /** A config hash names one set of facts for good. */
  function WithConfig(configs: map<string, ConfigFacts>, c: Cold): Option<map<string, ConfigFacts>> {
    match c.content.analyticsMetadata
    case None => Some(configs)
    case Some(m) =>
      if m.config.configHash in configs && configs[m.config.configHash] != m.config then None
      else Some(configs[m.config.configHash := m.config])
  }

  /** One record of a batch: a gap, a replay, or a new source event of the active epoch. */
  function ProjectOne(adapt: Adapter, epoch: nat, b: OpenBatch, c: Cold): Result<OpenBatch, ProjectionError> {
    match adapt(c)
    case None => Ok(Advanced(b.(skipped := b.skipped + 1), c))
    case Some(event) =>
      if event.eventId in b.events && b.events[event.eventId].event != event then Err(ReplayConflict)
      else
        var next :=
          if event.eventId in b.events then b
          else b.(events := b.events[event.eventId := SourceEvent(epoch, event)],
                  touched := b.touched + {KeyOf(SourceEvent(epoch, event))});
        match WithConfig(b.configs, c)
        case None => Err(ConfigConflict)
        case Some(configs) => Ok(Advanced(next.(configs := configs), c))
  }

  function ProjectAll(adapt: Adapter, epoch: nat, b: OpenBatch, records: seq<Cold>): Result<OpenBatch, ProjectionError>
    decreases |records|
  {
    if records == [] then Ok(b)
    else match ProjectOne(adapt, epoch, b, records[0])
         case Err(e) => Err(e)
         case Ok(next) => ProjectAll(adapt, epoch, next, records[1..])
  }

  function Open(p: Projection): OpenBatch { OpenBatch(p.events, p.configs, {}, None, None, 0) }

  /** `INSERT ... ON CONFLICT DO UPDATE SET dirty = 1` for every touched day. */
  function Marked(days: map<DayKey, DayState>, touched: set<DayKey>, generation: nat): map<DayKey, DayState> {
    map key | key in days.Keys + touched ::
      if key !in days then DayState(0, generation, true, NO_EVENTS, None, None)
      else if key in touched then days[key].(dirty := true)
      else days[key]
  }

  /** The tables after the event writes and the day marks, before the cursor. */
  function WithBatch(p: Projection, b: OpenBatch): Projection {
    p.(events := b.events, configs := b.configs, days := Marked(p.days, b.touched, p.generation))
  }

  function WithCursor(p: Projection, b: OpenBatch, rebuilding: bool): Projection {
    if b.last.None? then p
    else p.(cursor := b.last.value, cursorHash := b.lastHash,
            gapCount := if rebuilding then b.skipped else p.gapCount + b.skipped)
  }

  // ---------- Rebuilding days ----------

  ghost predicate CanRebuild(p: Projection, keys: set<DayKey>) {
    forall key :: key in keys ==> key in p.days && RollupOf(p.events, key).Some?
  }

  ghost function RebuiltState(p: Projection, key: DayKey): DayState
    requires key in p.days && RollupOf(p.events, key).Some?
  {
    var rollup := RollupOf(p.events, key).value;
    DayState(p.days[key].dayRevision + 1, p.generation, false, HeaderOf(rollup), Some(ChecksumOf(rollup)),
             p.days[key].acknowledged)
  }

  /** Each of the days replaced by what its source events aggregate to, at the next revision. */
  ghost function Rebuilt(p: Projection, keys: set<DayKey>): Projection
    requires CanRebuild(p, keys)
  {
    p.(days := RebuiltDays(p, keys), rows := RebuiltRows(p, keys))
  }

  ghost function RebuiltDays(p: Projection, keys: set<DayKey>): map<DayKey, DayState>
    requires CanRebuild(p, keys)
  {
    map key | key in p.days :: if key in keys then RebuiltState(p, key) else p.days[key]
  }

  ghost function RebuiltRows(p: Projection, keys: set<DayKey>): map<DayKey, RowSets>
    requires CanRebuild(p, keys)
  {
    map key | key in p.rows.Keys + keys :: if key in keys then Tables(RollupOf(p.events, key).value) else p.rows[key]
  }

  lemma RebuiltCoherent(p: Projection, keys: set<DayKey>)
    requires Coherent(p) && CanRebuild(p, keys)
    ensures Coherent(Rebuilt(p, keys))
    ensures forall key :: key in keys ==> !Rebuilt(p, keys).days[key].dirty
  {
    var q := Rebuilt(p, keys);
    forall key ensures DayCoherent(q, key) {
      assert DayCoherent(p, key);
      if key !in keys {
        SameDayCoherent(p, q, key);
      }
    }
  }

  /** Rebuilding one day after others is rebuilding them together. */
  lemma RebuiltNext(p: Projection, done: set<DayKey>, key: DayKey)
    requires CanRebuild(p, done) && key !in done && key in p.days && RollupOf(p.events, key).Some?
    ensures CanRebuild(Rebuilt(p, done), {key})
    ensures Rebuilt(Rebuilt(p, done), {key}) == Rebuilt(p, done + {key})
  {
    RebuiltDaysNext(p, done, key);
    RebuiltRowsNext(p, done, key);
  }

  lemma RebuiltDaysNext(p: Projection, done: set<DayKey>, key: DayKey)
    requires CanRebuild(p, done) && key !in done && key in p.days && RollupOf(p.events, key).Some?
    ensures CanRebuild(p, done + {key}) && CanRebuild(Rebuilt(p, done), {key})
    ensures RebuiltDays(Rebuilt(p, done), {key}) == RebuiltDays(p, done + {key})
  {
    var once := Rebuilt(p, done);
    assert once.events == p.events && once.days == RebuiltDays(p, done);
    assert CanRebuild(once, {key});
    var a := RebuiltDays(once, {key});
    var b := RebuiltDays(p, done + {key});
    assert a.Keys == b.Keys;
    forall k | k in b ensures a[k] == b[k] {
      RebuiltDayNext(p, done, key, k);
    }
  }

  lemma RebuiltDayNext(p: Projection, done: set<DayKey>, key: DayKey, k: DayKey)
    requires CanRebuild(p, done) && CanRebuild(p, done + {key}) && CanRebuild(Rebuilt(p, done), {key})
    requires key !in done && k in p.days
    ensures RebuiltDays(Rebuilt(p, done), {key})[k] == RebuiltDays(p, done + {key})[k]
  {
    assert Rebuilt(p, done).events == p.events;
  }

  lemma RebuiltRowsNext(p: Projection, done: set<DayKey>, key: DayKey)
    requires CanRebuild(p, done) && CanRebuild(p, done + {key}) && CanRebuild(Rebuilt(p, done), {key})
    ensures RebuiltRows(Rebuilt(p, done), {key}) == RebuiltRows(p, done + {key})
  {
    var a := RebuiltRows(Rebuilt(p, done), {key});
    var b := RebuiltRows(p, done + {key});
    assert a.Keys == b.Keys;
    forall k | k in b ensures a[k] == b[k] {
      RebuiltRowNext(p, done, key, k);
    }
  }

  lemma RebuiltRowNext(p: Projection, done: set<DayKey>, key: DayKey, k: DayKey)
    requires CanRebuild(p, done) && CanRebuild(p, done + {key}) && CanRebuild(Rebuilt(p, done), {key})
    requires k in RebuiltRows(p, done + {key}) && k in RebuiltRows(Rebuilt(p, done), {key})
    ensures RebuiltRows(Rebuilt(p, done), {key})[k] == RebuiltRows(p, done + {key})[k]
  {
    assert Rebuilt(p, done).events == p.events;
  }

  // ---------- What a batch does to coherence ----------

  /** Only touched days gain source events, and every new event's day is touched. */
  ghost predicate Grows(epoch: nat, a: OpenBatch, b: OpenBatch) {
    && (forall id :: id in a.events ==> id in b.events && b.events[id] == a.events[id])
    && (forall id :: id in b.events && id !in a.events ==>
          b.events[id].epoch == epoch && b.events[id].event.eventId == id && KeyOf(b.events[id]) in b.touched)
    && a.touched <= b.touched
  }

  lemma {:induction false} ProjectGrows(adapt: Adapter, epoch: nat, a: OpenBatch, records: seq<Cold>)
    requires ProjectAll(adapt, epoch, a, records).Ok?
    ensures Grows(epoch, a, ProjectAll(adapt, epoch, a, records).value)
    decreases |records|
  {
    if records != [] {
      ProjectGrows(adapt, epoch, ProjectOne(adapt, epoch, a, records[0]).value, records[1..]);
    }
  }

  lemma BatchCoherent(p: Projection, b: OpenBatch)
    requires Coherent(p) && Grows(p.epoch, Open(p), b)
    ensures Coherent(WithBatch(p, b))
    ensures forall key :: key in b.touched ==> key in WithBatch(p, b).days
  {
    var q := WithBatch(p, b);
    forall key ensures DayCoherent(q, key) {
      assert DayCoherent(p, key);
      if key in q.days && key !in b.touched {
        UntouchedEvents(p.events, b.events, b.touched, key);
        SameDayCoherent(p, q, key);
      }
    }
    forall id | id in q.events ensures q.events[id].event.eventId == id && KeyOf(q.events[id]) in q.days {
      if id in p.events {
        assert q.events[id] == p.events[id];
      }
    }
  }

  lemma UntouchedEvents(a: map<Uuid, SourceEvent>, b: map<Uuid, SourceEvent>, touched: set<DayKey>, key: DayKey)
    requires forall id :: id in a ==> id in b && b[id] == a[id]
    requires forall id :: id in b && id !in a ==> KeyOf(b[id]) in touched
    requires key !in touched
    ensures DayEvents(a, key) == DayEvents(b, key)
  {
  }

  // ---------- The transactions ----------

  const DEFAULT_MATERIALIZER_BATCH := 512

  datatype CrashPoint = NoCrash | AfterSafeEvents | BeforeCursor

  /** `batch_size.clamp(1, DEFAULT * 4)`. */
  function Limit(batchSize: nat): nat {
    if batchSize < 1 then 1
    else if batchSize > DEFAULT_MATERIALIZER_BATCH * 4 then DEFAULT_MATERIALIZER_BATCH * 4
    else batchSize
  }

  function Take(records: seq<Cold>, limit: nat): seq<Cold> { if |records| <= limit then records else records[..limit] }

  /** `WHERE chain_sequence > cursor ORDER BY chain_sequence LIMIT limit`. */
  function ReadTail(table: seq<Row>, cursor: int, limit: nat): seq<Cold> {
    Take(Map(SegmentAbove(table, cursor), Archived), limit)
  }

  /** One tail pass: all of the batch or, after a crash or a conflict, none of it. */
  function AfterTail(adapt: Adapter, p: Projection, table: seq<Row>, batchSize: nat, crash: CrashPoint)
    : (Projection, Result<nat, ProjectionError>)
  {
    var records := ReadTail(table, p.cursor, Limit(batchSize));
    if records == [] then (p, Ok(0))
    else match ProjectAll(adapt, p.epoch, Open(p), records)
         case Err(e) => (p, Err(e))
         case Ok(b) =>
           if crash != NoCrash then (p, Err(InjectedCrash))
           else (WithCursor(WithBatch(p, b), b, false), Ok(|records|))
  }

  /** One dirty day's own transaction. */
  ghost function AfterRebuild(p: Projection, key: DayKey): Projection {
    if CanRebuild(p, {key}) then Rebuilt(p, {key}) else p
  }

  function Merge(byId: map<Uuid, Cold>, records: seq<Cold>): Option<map<Uuid, Cold>>
    decreases |records|
  {
    if records == [] then Some(byId)
    else
      var id := records[0].content.id;
      if id in byId then (if byId[id] == records[0] then Merge(byId, records[1..]) else None)
      else Merge(byId[id := records[0]], records[1..])
  }

  function AllLines(files: Files): seq<Cold> {
    if files == [] then [] else Lines(files[0].frames) + AllLines(files[1..])
  }

  /** Sequence order, absent ones last, then time. */
  predicate ReplayLeq(a: Cold, b: Cold) {
    if a.chainSequence == b.chainSequence then a.content.timestamp <= b.content.timestamp
    else b.chainSequence.None? || (a.chainSequence.Some? && a.chainSequence.value < b.chainSequence.value)
  }

  predicate ColdIdLeq(a: Cold, b: Cold) { UuidLeq(a.content.id, b.content.id) }

  /** The merged records in id order, sorted stably for the replay. */
  ghost function ReplayOrder(merged: map<Uuid, Cold>): seq<Cold> {
    Sort(Sort(ListOf(merged.Values), ColdIdLeq), ReplayLeq)
  }

  ghost predicate KeyedById(byId: map<Uuid, Cold>) { forall id :: id in byId ==> byId[id].content.id == id }

  lemma {:induction false} MergeKeyed(byId: map<Uuid, Cold>, records: seq<Cold>)
    requires KeyedById(byId) && Merge(byId, records).Some?
    ensures KeyedById(Merge(byId, records).value)
    decreases |records|
  {
    if records != [] {
      var id := records[0].content.id;
      MergeKeyed(if id in byId then byId else byId[id := records[0]], records[1..]);
    }
  }

  /** By sequence with absent ones last, and by time where that says nothing. */
  predicate ReplaysBefore(a: Cold, b: Cold) {
    && (a.chainSequence.None? ==> b.chainSequence.None?)
    && (a.chainSequence.Some? && b.chainSequence.Some? ==> a.chainSequence.value <= b.chainSequence.value)
    && (a.chainSequence == b.chainSequence ==> a.content.timestamp <= b.content.timestamp)
  }

  /** The replay runs over each merged record once, sequences ascending and absent ones last. */
  lemma ReplayOrderSorts(merged: map<Uuid, Cold>)
    ensures forall i, j :: 0 <= i < j < |ReplayOrder(merged)| ==>
      ReplaysBefore(ReplayOrder(merged)[i], ReplayOrder(merged)[j])
    ensures multiset(ReplayOrder(merged)) == multiset(merged.Values)
  {
    ListOfElements(merged.Values);
    SortKeepsElements(ListOf(merged.Values), ColdIdLeq);
    SortKeepsElements(Sort(ListOf(merged.Values), ColdIdLeq), ReplayLeq);
    SortSorts(Sort(ListOf(merged.Values), ColdIdLeq), ReplayLeq);
    var records := ReplayOrder(merged);
    forall i, j | 0 <= i < j < |records| ensures ReplaysBefore(records[i], records[j]) {
      assert ReplayLeq(records[i], records[j]);
    }
  }

  /** However the map is walked, the replay order is the same. */
  lemma AnyWalkReplays(merged: map<Uuid, Cold>, scanned: seq<Cold>)
    requires KeyedById(merged) && multiset(scanned) == multiset(merged.Values)
    ensures Sort(Sort(scanned, ColdIdLeq), ReplayLeq) == ReplayOrder(merged)
    ensures |scanned| == |merged|
  {
    ListOfElements(merged.Values);
    forall c | c in scanned ensures c.content.id in merged && merged[c.content.id] == c {
      assert c in multiset(scanned);
    }
    SortForgetsOrder(scanned, ListOf(merged.Values), ColdIdLeq);
    ValuesCounted(merged);
    assert |multiset(scanned)| == |multiset(merged.Values)|;
  }

  lemma {:induction false} ValuesCounted(merged: map<Uuid, Cold>)
    requires KeyedById(merged)
    ensures |merged.Values| == |merged|
    decreases |merged|
  {
    if merged != map[] {
      var id :| id in merged;
      var rest := merged - {id};
      assert rest.Values == merged.Values - {merged[id]} by {
        forall c | c in merged.Values && c != merged[id] ensures c in rest.Values {
          assert c.content.id in rest && rest[c.content.id] == c;
        }
      }
      assert rest.Keys == merged.Keys - {id};
      ValuesCounted(rest);
    }
  }

  /** The tables as `clear_projection` leaves them: no source event, no row, every day dirty. */
  function Cleared(p: Projection): Projection {
    p.(events := map[], rows := map[], days := map key | key in p.days :: p.days[key].(dirty := true),
       cursor := p.baseline, cursorHash := p.baselineHash)
  }

  /** The cursor follows the active chain only. */
  function AtHead(p: Projection, table: seq<Row>): Projection {
    var rows := Segment(table);
    if rows == [] then p.(cursor := p.baseline, cursorHash := p.baselineHash)
    else p.(cursor := Key(rows[|rows| - 1]), cursorHash := rows[|rows| - 1].recordHash)
  }

  /** A full rebuild from the records in replay order. */
  ghost function AfterFullRebuild(adapt: Adapter, p: Projection, table: seq<Row>, records: seq<Cold>): Projection {
    OrElse(Replayed(adapt, Cleared(NextGeneration(p)), table, records), p)
  }

  /** The days that wait for their rebuild. */
  function DirtyKeys(p: Projection): set<DayKey> { set key | key in p.days && p.days[key].dirty }

  /** After a replay only days without source events are left dirty, and they can all be settled. */
  lemma ReplayedSettles(adapt: Adapter, p: Projection, table: seq<Row>, records: seq<Cold>)
    requires Replayed(adapt, Cleared(p), table, records).Some?
    ensures
      var q := Replayed(adapt, Cleared(p), table, records).value;
      && (forall key :: key in DirtyKeys(q) ==> DayEvents(q.events, key) == {})
      && CanRebuild(q, DirtyKeys(q))
  {
    var cleared := Cleared(p);
    ProjectGrows(adapt, cleared.epoch, Open(cleared), records);
    var b := ProjectAll(adapt, cleared.epoch, Open(cleared), records).value;
    InlineSettles(WithBatch(cleared, b), b, table);
  }

  lemma InlineSettles(written: Projection, b: OpenBatch, table: seq<Row>)
    requires CanRebuild(written, b.touched)
    requires forall id :: id in written.events ==> KeyOf(written.events[id]) in b.touched
    ensures
      var q := AtHead(WithCursor(Rebuilt(written, b.touched), b, true), table);
      && (forall key :: key in DirtyKeys(q) ==> DayEvents(q.events, key) == {})
      && CanRebuild(q, DirtyKeys(q))
  {
    var q := AtHead(WithCursor(Rebuilt(written, b.touched), b, true), table);
    HeadKeepsDays(Rebuilt(written, b.touched), b, table);
    SettledDays(written, b.touched, q);
  }

  lemma HeadKeepsDays(rebuilt: Projection, b: OpenBatch, table: seq<Row>)
    ensures AtHead(WithCursor(rebuilt, b, true), table).events == rebuilt.events
    ensures AtHead(WithCursor(rebuilt, b, true), table).days == rebuilt.days
    ensures AtHead(WithCursor(rebuilt, b, true), table).rows == rebuilt.rows
  {
  }

  lemma SettledDays(written: Projection, touched: set<DayKey>, q: Projection)
    requires CanRebuild(written, touched) && q.events == written.events && q.days == RebuiltDays(written, touched)
    requires forall id :: id in written.events ==> KeyOf(written.events[id]) in touched
    ensures (forall key :: key in DirtyKeys(q) ==> DayEvents(q.events, key) == {}) && CanRebuild(q, DirtyKeys(q))
  {
    forall key | key in DirtyKeys(q) ensures DayEvents(q.events, key) == {} && RollupOf(q.events, key).Some? {
      EmptyDay(q.events, key, touched);
    }
  }

  lemma EmptyDay(events: map<Uuid, SourceEvent>, key: DayKey, touched: set<DayKey>)
    requires key !in touched && forall id :: id in events ==> KeyOf(events[id]) in touched
    ensures DayEvents(events, key) == {} && RollupOf(events, key).Some?
  {
  }

  function NextGeneration(p: Projection): Projection { p.(generation := p.generation + 1) }

  /** A transaction's result, or the tables as they were. */
  function OrElse(q: Option<Projection>, p: Projection): Projection { if q.Some? then q.value else p }

  /** All records projected onto cleared tables, every touched day aggregated at once. */
  ghost function Replayed(
    adapt: Adapter, cleared: Projection, table: seq<Row>, records: seq<Cold>): Option<Projection>
  {
    match ProjectAll(adapt, cleared.epoch, Open(cleared), records)
    case Err(_) => None
    case Ok(b) =>
      var written := WithBatch(cleared, b);
      if !CanRebuild(written, b.touched) then None
      else Some(AtHead(WithCursor(Rebuilt(written, b.touched), b, true), table))
  }

  function AfterRotation(p: Projection, epoch: nat, baseline: int, hash: Option<string>): Projection {
    p.(epoch := epoch, baseline := baseline, baselineHash := hash, cursor := baseline, cursorHash := hash,
       generation := p.generation + 1)
  }

  /** Acknowledgements only move forward. */
  function Acknowledged(s: DayState, revision: int): DayState {
    s.(acknowledged := Some(if s.acknowledged.Some? && s.acknowledged.value > revision then s.acknowledged.value
                            else if revision > 0 then revision else 0))
  }

  function AfterAck(p: Projection, key: DayKey, revision: int): Projection {
    if key in p.days then p.(days := p.days[key := Acknowledged(p.days[key], revision)]) else p
  }

  /** The server's revision becomes a floor for both columns, and the day will be republished. */
  function AfterReconcile(p: Projection, key: DayKey, revision: int): Projection {
    if key !in p.days then p
    else
      var s := Acknowledged(p.days[key], revision);
      p.(days := p.days[key := s.(dayRevision := Max(s.dayRevision, revision), dirty := true)])
  }

  function KeptEvents(events: map<Uuid, SourceEvent>, oldest: int): map<Uuid, SourceEvent> {
    map id | id in events && KeyOf(events[id]).day >= oldest :: events[id]
  }

  function AfterPrune(p: Projection, oldest: int): Projection {
    p.(events := KeptEvents(p.events, oldest),
       days := map key | key in p.days && key.day >= oldest :: p.days[key],
       rows := map key | key in p.rows && key.day >= oldest :: p.rows[key])
  }

  /** Retention may go as far as the cursor while no day waits for its rebuild. */
  predicate Covers(p: Projection, sequence: int) {
    p.cursor >= sequence && forall key :: key in p.days ==> !p.days[key].dirty
  }

  // ---------- Coherence in every reachable state ----------

  datatype Step =
    | Tail(table: seq<Row>, batchSize: nat, crash: CrashPoint)
    | RebuildDay(key: DayKey)
    | FullRebuild(table: seq<Row>, records: seq<Cold>)
    | Rotate(epoch: nat, baseline: int, hash: Option<string>)
    | Ack(key: DayKey, revision: int)
    | Reconcile(key: DayKey, revision: int)
    | PruneDays(oldest: int)

  ghost function Next(adapt: Adapter, p: Projection, step: Step): Projection {
    match step
    case Tail(table, batchSize, crash) => AfterTail(adapt, p, table, batchSize, crash).0
    case RebuildDay(key) => AfterRebuild(p, key)
    case FullRebuild(table, records) => AfterFullRebuild(adapt, p, table, records)
    case Rotate(epoch, baseline, hash) => AfterRotation(p, epoch, baseline, hash)
    case Ack(key, revision) => AfterAck(p, key, revision)
    case Reconcile(key, revision) => AfterReconcile(p, key, revision)
    case PruneDays(oldest) => AfterPrune(p, oldest)
  }

  ghost function Run(adapt: Adapter, p: Projection, steps: seq<Step>): Projection
    decreases |steps|
  {
    if steps == [] then p else Run(adapt, Next(adapt, p, steps[0]), steps[1..])
  }

  lemma TailCoherent(adapt: Adapter, p: Projection, records: seq<Cold>)
    requires Coherent(p) && ProjectAll(adapt, p.epoch, Open(p), records).Ok?
    ensures
      var b := ProjectAll(adapt, p.epoch, Open(p), records).value;
      Coherent(WithBatch(p, b)) && forall key :: key in b.touched ==> key in WithBatch(p, b).days
  {
    ProjectGrows(adapt, p.epoch, Open(p), records);
    BatchCoherent(p, ProjectAll(adapt, p.epoch, Open(p), records).value);
  }

  /** The cursor columns play no part in coherence. */
  lemma SameTablesCoherent(p: Projection, q: Projection)
    requires Coherent(p) && q.events == p.events && q.days == p.days && q.rows == p.rows
    ensures Coherent(q)
  {
    forall key ensures DayCoherent(q, key) {
      assert DayCoherent(p, key);
      SameDayCoherent(p, q, key);
    }
  }

  lemma ClearedCoherent(p: Projection)
    ensures Coherent(Cleared(p))
  {
    forall key ensures DayCoherent(Cleared(p), key) {
    }
  }

  lemma FullRebuildCoherent(adapt: Adapter, p: Projection, table: seq<Row>, records: seq<Cold>)
    requires Coherent(p)
    ensures Coherent(AfterFullRebuild(adapt, p, table, records))
  {
    ClearedCoherent(NextGeneration(p));
    ReplayedCoherent(adapt, Cleared(NextGeneration(p)), table, records);
    EitherCoherent(p, Replayed(adapt, Cleared(NextGeneration(p)), table, records));
  }

  lemma EitherCoherent(p: Projection, q: Option<Projection>)
    requires Coherent(p) && (q.Some? ==> Coherent(q.value))
    ensures Coherent(OrElse(q, p))
  {
  }

  lemma ReplayedCoherent(adapt: Adapter, cleared: Projection, table: seq<Row>, records: seq<Cold>)
    requires Coherent(cleared)
    ensures Replayed(adapt, cleared, table, records).Some? ==> Coherent(Replayed(adapt, cleared, table, records).value)
  {
    if ProjectAll(adapt, cleared.epoch, Open(cleared), records).Ok? {
      var b := ProjectAll(adapt, cleared.epoch, Open(cleared), records).value;
      TailCoherent(adapt, cleared, records);
      InlineCoherent(WithBatch(cleared, b), b, table);
    }
  }

  lemma InlineCoherent(written: Projection, b: OpenBatch, table: seq<Row>)
    requires Coherent(written)
    ensures CanRebuild(written, b.touched) ==>
      Coherent(AtHead(WithCursor(Rebuilt(written, b.touched), b, true), table))
  {
    if CanRebuild(written, b.touched) {
      RebuiltCoherent(written, b.touched);
      HeadCoherent(Rebuilt(written, b.touched), b, table);
    }
  }

  lemma HeadCoherent(rebuilt: Projection, b: OpenBatch, table: seq<Row>)
    requires Coherent(rebuilt)
    ensures Coherent(AtHead(WithCursor(rebuilt, b, true), table))
  {
    HeadKeepsDays(rebuilt, b, table);
    SameTablesCoherent(rebuilt, AtHead(WithCursor(rebuilt, b, true), table));
  }

  lemma PruneCoherent(p: Projection, oldest: int)
    requires Coherent(p)
    ensures Coherent(AfterPrune(p, oldest))
  {
    var q := AfterPrune(p, oldest);
    forall key ensures DayCoherent(q, key) {
      assert DayCoherent(p, key);
      if key in q.days {
        KeptDay(p.events, oldest, key);
        SameDayCoherent(p, q, key);
      }
    }
  }

  lemma KeptDay(events: map<Uuid, SourceEvent>, oldest: int, key: DayKey)
    requires key.day >= oldest
    ensures DayEvents(KeptEvents(events, oldest), key) == DayEvents(events, key)
  {
    var kept := KeptEvents(events, oldest);
    forall e | e in DayEvents(events, key) ensures e in DayEvents(kept, key) {
      var id :| id in events && KeyOf(events[id]) == key && events[id].event == e;
      assert id in kept && kept[id] == events[id];
    }
    forall e | e in DayEvents(kept, key) ensures e in DayEvents(events, key) {
      var id :| id in kept && KeyOf(kept[id]) == key && kept[id].event == e;
      assert id in events && events[id] == kept[id];
    }
  }

  lemma FlagsCoherent(p: Projection, q: Projection, changed: DayKey)
    requires Coherent(p) && q.events == p.events && q.rows == p.rows && q.days.Keys == p.days.Keys
    requires forall key :: key in p.days && key != changed ==> q.days[key] == p.days[key]
    requires changed in q.days && !q.days[changed].dirty ==>
      !p.days[changed].dirty && SamePublished(p.days[changed], q.days[changed])
    ensures Coherent(q)
  {
    forall key ensures DayCoherent(q, key) {
      assert DayCoherent(p, key);
      SameDayCoherent(p, q, key);
    }
  }

  lemma TailPassCoherent(adapt: Adapter, p: Projection, table: seq<Row>, batchSize: nat, crash: CrashPoint)
    requires Coherent(p)
    ensures Coherent(AfterTail(adapt, p, table, batchSize, crash).0)
  {
    var records := ReadTail(table, p.cursor, Limit(batchSize));
    if records != [] && ProjectAll(adapt, p.epoch, Open(p), records).Ok? {
      TailCoherent(adapt, p, records);
      CursorCoherent(WithBatch(p, ProjectAll(adapt, p.epoch, Open(p), records).value),
                     ProjectAll(adapt, p.epoch, Open(p), records).value);
    }
  }

  lemma CursorCoherent(written: Projection, b: OpenBatch)
    requires Coherent(written)
    ensures Coherent(WithCursor(written, b, false))
  {
    SameTablesCoherent(written, WithCursor(written, b, false));
  }

  lemma StepCoherent(adapt: Adapter, p: Projection, step: Step)
    requires Coherent(p)
    ensures Coherent(Next(adapt, p, step))
  {
    match step
    case Tail(table, batchSize, crash) => TailPassCoherent(adapt, p, table, batchSize, crash);
    case RebuildDay(key) =>
      if CanRebuild(p, {key}) {
        RebuiltCoherent(p, {key});
      }
    case FullRebuild(table, records) => FullRebuildCoherent(adapt, p, table, records);
    case Rotate(epoch, baseline, hash) => SameTablesCoherent(p, AfterRotation(p, epoch, baseline, hash));
    case Ack(key, revision) => AckCoherent(p, key, revision);
    case Reconcile(key, revision) => ReconcileCoherent(p, key, revision);
    case PruneDays(oldest) => PruneCoherent(p, oldest);
  }

  lemma AckCoherent(p: Projection, key: DayKey, revision: int)
    requires Coherent(p)
    ensures Coherent(AfterAck(p, key, revision))
  {
    FlagsCoherent(p, AfterAck(p, key, revision), key);
  }

  lemma ReconcileCoherent(p: Projection, key: DayKey, revision: int)
    requires Coherent(p)
    ensures Coherent(AfterReconcile(p, key, revision))
  {
    FlagsCoherent(p, AfterReconcile(p, key, revision), key);
  }

  /** In every reachable state each day that is not dirty stores exactly what a fresh accumulator
      gives for that epoch and day's source events. */
  lemma {:induction false} CacheIsCoherent(adapt: Adapter, p: Projection, steps: seq<Step>)
    requires Coherent(p)
    ensures Coherent(Run(adapt, p, steps))
    decreases |steps|
  {
    if steps != [] {
      StepCoherent(adapt, p, steps[0]);
      CacheIsCoherent(adapt, Next(adapt, p, steps[0]), steps[1..]);
    }
  }
}
