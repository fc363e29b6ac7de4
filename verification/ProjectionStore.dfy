/** The projection tables of crates/grith-audit/src/analytics.rs updated in place. A transaction works
    on its own copy and is stored at its commit; a query is a function of the tables. */
module ProjectionStore {
  import opened Basics
  import opened Contract
  import opened Records
  import opened Sorting
  import opened Chain
  import opened ColdFiles
  import opened Totals
  import opened Events
  import opened GroupBy
  import opened DayRollup
  import opened DayAccumulator
  import opened SnapshotOrder
  import opened Projection
  import opened RebuildCoverage

  // ---------- Loops of the transactions ----------

  /** The loop over a batch's records. */
  method ProjectRecords(adapt: Adapter, epoch: nat, open: OpenBatch, records: seq<Cold>)
    returns (r: Result<OpenBatch, ProjectionError>)
    ensures r == ProjectAll(adapt, epoch, open, records)
  {
    var b := open;
    assert records[0..] == records;
    for i := 0 to |records|
      invariant ProjectAll(adapt, epoch, b, records[i..]) == ProjectAll(adapt, epoch, open, records)
    {
      assert records[i..][0] == records[i] && records[i..][1..] == records[i + 1..];
      var next := ProjectOne(adapt, epoch, b, records[i]);
      if next.Err? {
        return Err(next.error);
      }
      b := next.value;
    }
    r := Ok(b);
  }

  lemma EventsDiscriminate(s: seq<AnalyticsEvent>)
    requires forall x, y :: x in s && y in s && x.eventId == y.eventId ==> x == y
    ensures Discriminates(s, TimeThenId)
  {
  }

  lemma TimeThenIdIsPreorder()
    ensures Preorder(TimeThenId)
  {
  }

  /** The day's events in query order, however the table is scanned. */
  lemma AnyScanOrder(scanned: seq<AnalyticsEvent>, s: set<AnalyticsEvent>)
    requires multiset(scanned) == multiset(s)
    requires forall x, y :: x in s && y in s && x.eventId == y.eventId ==> x == y
    ensures Sort(scanned, TimeThenId) == OrderedEvents(s)
  {
    ListOfElements(s);
    forall x | x in scanned ensures x in s {
      assert x in multiset(scanned);
    }
    EventsDiscriminate(scanned);
    TimeThenIdIsPreorder();
    SortForgetsOrder(scanned, ListOf(s), TimeThenId);
  }

  /** Scans the source events for one day of one epoch. */
  method ScanDay(events: map<Uuid, SourceEvent>, key: DayKey) returns (scanned: seq<AnalyticsEvent>)
    requires forall id :: id in events ==> events[id].event.eventId == id
    ensures multiset(scanned) == multiset(DayEvents(events, key))
  {
    scanned := [];
    var ids := events.Keys;
    assert DayEventsBut(events, key, ids) == {};
    while ids != {}
      invariant ids <= events.Keys && multiset(scanned) == multiset(DayEventsBut(events, key, ids))
      decreases |ids|
    {
      var id :| id in ids;
      OneMoreEvent(events, key, ids, id);
      if KeyOf(events[id]) == key {
        scanned := scanned + [events[id].event];
      }
      ids := ids - {id};
    }
    assert DayEventsBut(events, key, {}) == DayEvents(events, key);
  }

  /** The day's events among the ids that are not left. */
  ghost function DayEventsBut(events: map<Uuid, SourceEvent>, key: DayKey, left: set<Uuid>): set<AnalyticsEvent> {
    set id | id in events && id !in left && KeyOf(events[id]) == key :: events[id].event
  }

  lemma OneMoreEvent(events: map<Uuid, SourceEvent>, key: DayKey, left: set<Uuid>, id: Uuid)
    requires id in left && id in events && forall i :: i in events ==> events[i].event.eventId == i
    ensures
      var before := DayEventsBut(events, key, left);
      var after := DayEventsBut(events, key, left - {id});
      if KeyOf(events[id]) == key then events[id].event !in before && after == before + {events[id].event}
      else after == before
  {
  }

  /** What a rebuild stores for a day. */
  datatype Aggregated = Aggregated(rows: RowSets, header: DayHeader, checksum: Covered)

  ghost function AggregatedOf(r: Rollup): Aggregated { Aggregated(Tables(r), HeaderOf(r), ChecksumOf(r)) }

  /** Streams a day's events through a fresh accumulator and takes its snapshot. */
  method AggregateDay(events: map<Uuid, SourceEvent>, key: DayKey) returns (r: Option<Aggregated>)
    requires forall id :: id in events ==> events[id].event.eventId == id
    ensures r.Some? <==> RollupOf(events, key).Some?
    ensures r.Some? ==> r.value == AggregatedOf(RollupOf(events, key).value)
  {
    var scanned := ScanDay(events, key);
    AnyScanOrder(scanned, DayEvents(events, key));
    var rollup := IngestEvents(key.day, Sort(scanned, TimeThenId));
    if rollup.None? {
      return None;
    }
    var snapshot, loaded := TakeSnapshot(rollup.value, 0, 0, Partial);
    StoredLists(rollup.value);
    SnapshotIsDetermined(rollup.value, loaded, ListsOf(Tables(rollup.value)));
    r := Some(Aggregated(Tables(rollup.value), HeaderOf(rollup.value), snapshot.checksum.value));
  }

  lemma StoredLists(r: Rollup)
    ensures RowsOf(r, ListsOf(Tables(r)))
  {
    ListOfElements(r.usage.Items);
    ListOfElements(r.filters.Items);
    ListOfElements(r.sessions.Items);
    ListOfElements(r.llm.Items);
    ListOfElements(r.destinations.Items);
  }

  method IngestEvents(day: int, events: seq<AnalyticsEvent>) returns (r: Option<Rollup>)
    ensures r == IngestAll(Fresh(day), events)
  {
    var accumulator := new DayAccumulator(day);
    assert events[0..] == events;
    for i := 0 to |events|
      invariant fresh(accumulator) && accumulator.Valid()
      invariant IngestAll(accumulator.State(), events[i..]) == IngestAll(Fresh(day), events)
    {
      assert events[i..][0] == events[i] && events[i..][1..] == events[i + 1..];
      var ingested := accumulator.Ingest(events[i]);
      if ingested.Err? {
        return None;
      }
    }
    r := Some(accumulator.State());
  }

  /** The rows of one table for one day, in whatever order the scan meets them. */
  method ScanRows<R(!new, ==)>(rows: set<R>) returns (scanned: seq<R>)
    ensures multiset(scanned) == multiset(rows)
    ensures forall row :: row in scanned <==> row in rows
  {
    scanned := [];
    var rest := rows;
    while rest != {}
      invariant rest <= rows && multiset(scanned) == multiset(rows - rest)
      decreases |rest|
    {
      var row :| row in rest;
      assert rows - (rest - {row}) == (rows - rest) + {row};
      rest := rest - {row};
      scanned := scanned + [row];
    }
    assert rows - rest == rows;
    forall row ensures row in scanned <==> row in rows {
      assert row in scanned <==> row in multiset(scanned);
    }
  }

  method LoadRows(rows: RowSets) returns (loaded: RowLists)
    ensures SameRows(loaded, ListsOf(rows))
  {
    var usage := ScanRows(rows.usage);
    var filters := ScanRows(rows.filters);
    var sessions := ScanRows(rows.sessions);
    var llm := ScanRows(rows.llm);
    var destinations := ScanRows(rows.destinations);
    loaded := RowLists(usage, filters, sessions, llm, destinations);
    ListOfElements(rows.usage);
    ListOfElements(rows.filters);
    ListOfElements(rows.sessions);
    ListOfElements(rows.llm);
    ListOfElements(rows.destinations);
  }

  /** The merge of a full rebuild: duplicate records once, conflicting ones not at all. */
  method MergeRecords(records: seq<Cold>) returns (merged: Option<map<Uuid, Cold>>)
    ensures merged == Merge(map[], records)
  {
    var byId: map<Uuid, Cold> := map[];
    assert records[0..] == records;
    for i := 0 to |records|
      invariant Merge(byId, records[i..]) == Merge(map[], records)
    {
      assert records[i..][0] == records[i] && records[i..][1..] == records[i + 1..];
      var id := records[i].content.id;
      if id in byId {
        if byId[id] != records[i] {
          return None;
        }
      } else {
        byId := byId[id := records[i]];
      }
    }
    merged := Some(byId);
  }

  /** Rebuilds each of the days in one open transaction. */
  method RebuildInline(p: Projection, keys: set<DayKey>) returns (r: Option<Projection>)
    requires EventsKeyed(p) && forall key :: key in keys ==> key in p.days
    ensures r.Some? <==> CanRebuild(p, keys)
    ensures r.Some? ==> r.value == Rebuilt(p, keys)
  {
    var q := p;
    var rest := keys;
    ghost var done: set<DayKey> := {};
    RebuiltNothing(p);
    while rest != {}
      invariant Splits(keys, done, rest)
      invariant CanRebuild(p, done) && q == Rebuilt(p, done)
      decreases |rest|
    {
      var key :| key in rest;
      SplitNext(keys, done, rest, key);
      var next := RebuildNext(p, q, done, keys, key);
      if next.None? {
        return None;
      }
      q := next.value;
      rest, done := rest - {key}, done + {key};
    }
    assert done == keys;
    r := Some(q);
  }

  /** `keys` is what is done and what is left. */
  ghost predicate Splits(keys: set<DayKey>, done: set<DayKey>, rest: set<DayKey>) {
    keys == done + rest && done !! rest
  }

  lemma SplitNext(keys: set<DayKey>, done: set<DayKey>, rest: set<DayKey>, key: DayKey)
    requires Splits(keys, done, rest) && key in rest
    ensures Splits(keys, done + {key}, rest - {key}) && key in keys && key !in done && |rest - {key}| < |rest|
  {
  }

  /** One more day of the open transaction. */
  method RebuildNext(p: Projection, q: Projection, ghost done: set<DayKey>, ghost keys: set<DayKey>, key: DayKey)
    returns (r: Option<Projection>)
    requires EventsKeyed(p) && key in p.days && key !in done && key in keys
    requires CanRebuild(p, done) && q == Rebuilt(p, done)
    ensures r.None? ==> !CanRebuild(p, keys)
    ensures r.Some? ==> CanRebuild(p, done + {key}) && r.value == Rebuilt(p, done + {key})
  {
    var aggregated := AggregateDay(q.events, key);
    if aggregated.None? {
      return None;
    }
    RebuiltNext(p, done, key);
    RebuiltOne(q, key);
    r := Some(Replaced(q, key, aggregated.value));
  }

  /** `replace_snapshot`: the day's rows, header, checksum and revision. */
  function Replaced(p: Projection, key: DayKey, a: Aggregated): Projection
    requires key in p.days
  {
    var day := p.days[key];
    var next := DayState(day.dayRevision + 1, p.generation, false, a.header, Some(a.checksum), day.acknowledged);
    p.(days := p.days[key := next], rows := p.rows[key := a.rows])
  }

  lemma RebuiltNothing(p: Projection)
    ensures CanRebuild(p, {}) && Rebuilt(p, {}) == p
  {
    assert RebuiltDays(p, {}) == p.days;
    assert RebuiltRows(p, {}) == p.rows;
  }

  lemma RebuiltOne(p: Projection, key: DayKey)
    requires CanRebuild(p, {key})
    ensures Rebuilt(p, {key}) == Replaced(p, key, AggregatedOf(RollupOf(p.events, key).value))
  {
    assert key in {key};
    OneDayRebuilt(p, key);
    OneDayRows(p, key);
  }

  lemma OneDayRebuilt(p: Projection, key: DayKey)
    requires CanRebuild(p, {key}) && key in p.days && RollupOf(p.events, key).Some?
    ensures RebuiltDays(p, {key}) == p.days[key := RebuiltState(p, key)]
  {
  }

  lemma OneDayRows(p: Projection, key: DayKey)
    requires CanRebuild(p, {key}) && RollupOf(p.events, key).Some?
    ensures RebuiltRows(p, {key}) == p.rows[key := Tables(RollupOf(p.events, key).value)]
  {
  }

  /** The wire form of a day, if its rows still match the recorded checksum. */
  method AssembleDay(day: int, s: DayState, rows: RowLists) returns (r: Option<DaySnapshot>)
    ensures r.Some? <==> s.checksum == Some(CoveredBy(day, s.header, CanonicalRows(rows)))
    ensures r.Some? ==>
      && r.value.CoveredNow() == CoveredBy(day, s.header, CanonicalRows(rows))
      && r.value.dayRevision == Max0(s.dayRevision) && r.value.readModelGeneration == s.generation
  {
    var snapshot := new DaySnapshot.FromColumns(
      day, s.header, rows, Max0(s.dayRevision), s.generation, Partial, s.checksum);
    snapshot.Canonicalize();
    if s.checksum != Some(snapshot.CoveredNow()) {
      return None;
    }
    r := Some(snapshot);
  }

  /** A clean day's columns and rows, however they load, are what its checksum covers. */
  lemma LoadedCovers(p: Projection, key: DayKey, loaded: RowLists)
    requires DayCoherent(p, key) && key in p.days && !p.days[key].dirty
    requires SameRows(loaded, ListsOf(RowsAt(p, key)))
    ensures RollupOf(p.events, key).Some?
    ensures CoveredBy(key.day, p.days[key].header, CanonicalRows(loaded)) == ChecksumOf(RollupOf(p.events, key).value)
    ensures p.days[key].checksum == Some(ChecksumOf(RollupOf(p.events, key).value))
  {
    var ordered := OrderedEvents(DayEvents(p.events, key));
    ReassemblyForgetsOrder(loaded, ListsOf(RowsAt(p, key)));
    DayIsGroupBy(key.day, ordered, Elements(ordered));
  }

  predicate OlderDay(a: DayKey, b: DayKey) { a.day <= b.day }

  ghost function Days(keys: seq<DayKey>): set<DayKey> { set key | key in keys }

  /** The oldest dirty days, oldest first: all of them unless the limit cuts the list. */
  ghost predicate OldestDirty(p: Projection, keys: seq<DayKey>, limit: Option<nat>) {
    && Distinct(keys) && (forall i, j :: 0 <= i < j < |keys| ==> keys[i].day <= keys[j].day)
    && (forall key :: key in keys ==> key in p.days && p.days[key].dirty)
    && (limit.Some? ==> |keys| <= limit.value)
    && (limit.None? || |keys| < limit.value ==> forall key :: key in p.days && p.days[key].dirty ==> key in keys)
    && (forall kept, left :: kept in keys && left in p.days && p.days[left].dirty && left !in keys ==>
          kept.day <= left.day)
  }

  lemma OldestChosen(p: Projection, scanned: seq<DayKey>, keys: seq<DayKey>, limit: Option<nat>)
    requires multiset(scanned) == multiset(DirtyKeys(p))
    requires
      var ordered := Sort(scanned, OlderDay);
      keys == if limit.None? || |ordered| <= limit.value then ordered else ordered[..limit.value]
    ensures OldestDirty(p, keys, limit)
  {
    var ordered := Sort(scanned, OlderDay);
    SortSorts(scanned, OlderDay);
    SortKeepsElements(scanned, OlderDay);
    DistinctCounts(ordered);
    forall key ensures key in ordered <==> key in DirtyKeys(p) {
      assert key in scanned <==> key in multiset(scanned);
    }
    PrefixIsOldest(p, ordered, keys, limit);
  }

  lemma PrefixIsOldest(p: Projection, ordered: seq<DayKey>, keys: seq<DayKey>, limit: Option<nat>)
    requires Distinct(ordered) && SortedBy(ordered, OlderDay) && forall key :: key in ordered <==> key in DirtyKeys(p)
    requires keys == if limit.None? || |ordered| <= limit.value then ordered else ordered[..limit.value]
    ensures OldestDirty(p, keys, limit)
  {
    assert forall key :: key in p.days && p.days[key].dirty ==> key in DirtyKeys(p);
    assert forall key :: key in keys ==> key in ordered;
    forall kept, left | kept in keys && left in DirtyKeys(p) ensures left in keys || kept.day <= left.day {
      assert left in ordered;
      var i :| 0 <= i < |keys| && keys[i] == kept;
      var j :| 0 <= j < |ordered| && ordered[j] == left;
      assert i < j ==> OlderDay(ordered[i], ordered[j]);
      assert j < i ==> keys[j] == left;
    }
    forall i, j | 0 <= i < j < |keys| ensures keys[i].day <= keys[j].day {
      assert OlderDay(ordered[i], ordered[j]);
    }
  }

  lemma AllDirty(p: Projection, keys: seq<DayKey>)
    requires OldestDirty(p, keys, None)
    ensures Days(keys) == DirtyKeys(p)
  {
    assert forall key :: key in keys <==> key in DirtyKeys(p);
  }

  /** The pass has rebuilt the first `i` of its days. */
  ghost predicate PassedDays(p: Projection, q: Projection, keys: seq<DayKey>, i: nat) {
    i <= |keys| && CanRebuild(p, Days(keys[..i])) && q == Rebuilt(p, Days(keys[..i]))
  }

  /** One more day, if it can be aggregated. */
  lemma DayPassed(p: Projection, keys: seq<DayKey>, i: nat)
    requires Distinct(keys) && i < |keys| && Days(keys) <= DirtyKeys(p) && CanRebuild(p, Days(keys[..i]))
    ensures
      var q := Rebuilt(p, Days(keys[..i]));
      if CanRebuild(q, {keys[i]}) then PassedDays(p, Rebuilt(q, {keys[i]}), keys, i + 1)
      else RollupOf(p.events, keys[i]).None?
  {
    var done := Days(keys[..i]);
    assert keys[i] in Days(keys) && keys[i] !in keys[..i];
    assert Days(keys[..i + 1]) == done + {keys[i]};
    if RollupOf(p.events, keys[i]).Some? {
      RebuiltNext(p, done, keys[i]);
    }
  }

  /** The event lies on the day `oldest` or later. */
  predicate InDays(s: SourceEvent, oldest: int) { s.event.occurredAt >= oldest * 86_400_000_000 }

  /** Up to the revision, or zero for a negative one, but never back. */
  predicate MovedTo(was: Option<int>, now: Option<int>, revision: int) {
    && now.Some? && now.value >= revision
    && (was.Some? ==> now.value >= was.value)
    && (now.value == 0 || now.value == revision || now == was)
  }

  // ---------- The tables ----------

  class AnalyticsProjection {
    const adapt: Adapter
    var epoch: nat
    var baseline: int
    var baselineHash: Option<string>
    var cursor: int
    var cursorHash: Option<string>
    var generation: nat
    var gapCount: nat
    var events: map<Uuid, SourceEvent>
    var days: map<DayKey, DayState>
    var rows: map<DayKey, RowSets>
    var configs: map<string, ConfigFacts>

    function State(): Projection
      reads this
    {
      Projection(epoch, baseline, baselineHash, cursor, cursorHash, generation, gapCount, events, days, rows, configs)
    }

    ghost predicate Valid()
      reads this
    {
      Coherent(State())
    }

    /** The first epoch: its baseline is the position in front of the oldest stored row, while the
        cursor starts at the column default. */
    constructor (adapt: Adapter, table: seq<Row>)
      ensures this.adapt == adapt && Valid()
      ensures
        var first := Segment(table);
        State() == Projection(0, if first == [] then 0 else Key(first[0]) - 1,
                              if first == [] then None else first[0].prevHash,
                              0, None, 1, 0, map[], map[], map[], map[])
    {
      var first := Segment(table);
      this.adapt := adapt;
      epoch, cursor, cursorHash, generation, gapCount := 0, 0, None, 1, 0;
      baseline := if first == [] then 0 else Key(first[0]) - 1;
      baselineHash := if first == [] then None else first[0].prevHash;
      events, days, rows, configs := map[], map[], map[], map[];
    }

    method Store(p: Projection)
      modifies this
      ensures State() == p
    {
      epoch, baseline, baselineHash, cursor, cursorHash := p.epoch, p.baseline, p.baselineHash, p.cursor, p.cursorHash;
      generation, gapCount, configs := p.generation, p.gapCount, p.configs;
      events, days, rows := p.events, p.days, p.rows;
    }

    /** At most one batch of rows above the cursor. Event writes, day marks and the cursor are one
        transaction, so a crash at either point leaves the tables as they were. */
    method MaterializeTail(table: seq<Row>, batchSize: nat, crash: CrashPoint) returns (r: Result<nat, ProjectionError>)
      requires Valid()
      modifies this
      ensures Valid() && (State(), r) == AfterTail(adapt, old(State()), table, batchSize, crash)
    {
      TailPassCoherent(adapt, State(), table, batchSize, crash);
      var records := ReadTail(table, cursor, Limit(batchSize));
      if |records| == 0 {
        return Ok(0);
      }
      var projected := ProjectRecords(adapt, epoch, Open(State()), records);
      if projected.Err? {
        return Err(projected.error);
      }
      var b := projected.value;
      var tx := State();
      tx := tx.(events := b.events, configs := b.configs);
      if crash == AfterSafeEvents {
        return Err(InjectedCrash);
      }
      tx := tx.(days := Marked(tx.days, b.touched, tx.generation));
      if crash == BeforeCursor {
        return Err(InjectedCrash);
      }
      Store(WithCursor(tx, b, false));
      r := Ok(|records|);
    }

    /** One day's own transaction. */
    method RebuildOneDay(key: DayKey) returns (ok: bool)
      requires Valid() && key in days
      modifies this`days, this`rows
      ensures Valid() && State() == AfterRebuild(old(State()), key)
      ensures ok <==> CanRebuild(old(State()), {key})
      ensures days.Keys == old(days.Keys) && (ok ==> !days[key].dirty)
      ensures ok ==>
        && days[key].dayRevision == old(days)[key].dayRevision + 1 && days[key].generation == generation
        && days[key].acknowledged == old(days)[key].acknowledged
      ensures forall k :: k in days && k != key ==> days[k] == old(days)[k]
    {
      var aggregated := AggregateDay(events, key);
      if aggregated.None? {
        assert !CanRebuild(State(), {key}) by {
          assert key in {key};
        }
        return false;
      }
      assert CanRebuild(State(), {key});
      RebuiltOne(State(), key);
      RebuiltCoherent(State(), {key});
      var q := Replaced(State(), key, aggregated.value);
      days, rows := q.days, q.rows;
      ok := true;
    }

    /** `WHERE dirty = 1 ORDER BY day LIMIT limit`. */
    method DirtyDays(limit: Option<nat>) returns (keys: seq<DayKey>)
      ensures OldestDirty(State(), keys, limit)
    {
      var dirty := set key | key in days && days[key].dirty;
      var scanned := ScanRows(dirty);
      var ordered := Sort(scanned, OlderDay);
      keys := if limit.None? || |ordered| <= limit.value then ordered else ordered[..limit.value];
      OldestChosen(State(), scanned, keys, limit);
    }

    /** Rebuilds the oldest dirty days, one transaction each; a day that cannot be aggregated ends the
        pass there. */
    method RebuildDirtyDays(limit: Option<nat>)
      returns (r: Result<nat, ProjectionError>, ghost keys: seq<DayKey>, ghost done: nat)
      requires Valid()
      modifies this`days, this`rows
      ensures Valid() && OldestDirty(old(State()), keys, limit) && done <= |keys|
      ensures CanRebuild(old(State()), Days(keys[..done])) && State() == Rebuilt(old(State()), Days(keys[..done]))
      ensures r.Ok? ==> done == |keys| == r.value
      ensures r.Err? ==> done < |keys| && RollupOf(old(events), keys[done]).None?
    {
      var chosen := DirtyDays(limit);
      keys, done := chosen, 0;
      RebuiltNothing(State());
      for i := 0 to |chosen|
        invariant Valid() && done == i && keys == chosen
        invariant PassedDays(old(State()), State(), chosen, i)
      {
        assert chosen[i] in Days(chosen);
        var ok := RebuildOneDay(chosen[i]);
        DayPassed(old(State()), chosen, i);
        if !ok {
          return Err(AggregationFailed), chosen, i;
        }
        done := i + 1;
      }
      r := Ok(|chosen|);
    }

    /** Closes the active epoch and starts the next one at the given baseline. */
    method RotateEpoch(next: nat, baselineSequence: int, hash: Option<string>)
      requires Valid()
      modifies this`epoch, this`baseline, this`baselineHash, this`cursor, this`cursorHash, this`generation
      ensures Valid() && State() == AfterRotation(old(State()), next, baselineSequence, hash)
      ensures epoch == next && generation == old(generation) + 1
      ensures baseline == cursor == baselineSequence && baselineHash == cursorHash == hash
    {
      ghost var after := AfterRotation(State(), next, baselineSequence, hash);
      SameTablesCoherent(State(), after);
      epoch, generation := next, generation + 1;
      baseline, baselineHash := baselineSequence, hash;
      cursor, cursorHash := baselineSequence, hash;
      assert State() == after;
    }

    /** Drops every day before `oldest`. */
    method PruneProjection(oldest: int)
      requires Valid()
      modifies this`events, this`days, this`rows
      ensures Valid() && State() == AfterPrune(old(State()), oldest)
      ensures forall id :: id in events <==> id in old(events) && InDays(old(events)[id], oldest)
      ensures forall id :: id in events ==> events[id] == old(events)[id]
      ensures forall key :: key in days <==> key in old(days) && key.day >= oldest
      ensures forall key :: key in days ==> days[key] == old(days)[key]
    {
      PruneCoherent(State(), oldest);
      events := KeptEvents(events, oldest);
      days := map key | key in days && key.day >= oldest :: days[key];
      rows := map key | key in rows && key.day >= oldest :: rows[key];
    }

    /** Whether retention may prune up to a sequence. */
    method CoversSequence(sequence: int) returns (covered: bool)
      ensures covered <==> Covers(State(), sequence)
      ensures covered <==> sequence <= cursor && forall key :: key in days ==> !days[key].dirty
    {
      covered := cursor >= sequence && forall key :: key in days ==> !days[key].dirty;
    }

    /** The server's acknowledgement of a day. */
    method RecordDayAck(key: DayKey, revision: int)
      requires Valid()
      modifies this`days
      ensures Valid() && State() == AfterAck(old(State()), key, revision)
      ensures key in old(days) ==> key in days && MovedTo(old(days)[key].acknowledged, days[key].acknowledged, revision)
    {
      AckCoherent(State(), key, revision);
      if key in days {
        days := days[key := Acknowledged(days[key], revision)];
      }
    }

    /** The server holds `revision` already: adopt it as a floor and republish the day. */
    method ReconcileServerDay(key: DayKey, revision: int)
      requires Valid()
      modifies this`days
      ensures Valid() && State() == AfterReconcile(old(State()), key, revision)
      ensures key in old(days) ==>
        && key in days && MovedTo(old(days)[key].acknowledged, days[key].acknowledged, revision)
        && days[key].dirty && days[key].dayRevision == Max(old(days)[key].dayRevision, revision)
    {
      ReconcileCoherent(State(), key, revision);
      if key in days {
        var s := Acknowledged(days[key], revision);
        days := days[key := s.(dayRevision := Max(s.dayRevision, revision), dirty := true)];
      }
    }

    /** The rebuild's transaction: clears the tables and replays the merged cold and active records. */
    method ReplayEverything(table: seq<Row>, cold: Files) returns (r: Result<nat, ProjectionError>)
      requires Valid()
      modifies this
      ensures Valid() && (r.Err? ==> State() == old(State()))
      ensures
        var merged := Merge(map[], AllLines(cold) + Map(table, Archived));
        && (merged.None? ==> r == Err(MergeConflict))
        && (merged.Some? ==>
              var replayed := Replayed(adapt, Cleared(NextGeneration(old(State()))), table, ReplayOrder(merged.value));
              && (r.Ok? <==> replayed.Some?)
              && (r.Ok? ==> r.value == |merged.value| && State() == replayed.value))
      ensures r == Err(MergeConflict) <==> Conflicting(cold, table)
      ensures r.Ok? ==> TakesIn(adapt, old(State()), table, cold, State(), r.value) && KeepsDays(old(days), days)
    {
      MergeFailsIff(cold, table);
      var merged := MergeRecords(AllLines(cold) + Map(table, Archived));
      if merged.None? {
        return Err(MergeConflict);
      }
      MergedIsStored(cold, table, merged.value);
      var scanned := ScanRows(merged.value.Values);
      var records := Sort(Sort(scanned, ColdIdLeq), ReplayLeq);
      AnyWalkReplays(merged.value, scanned);
      FullRebuildCoherent(adapt, State(), table, records);
      var replayed := Replay(State(), table, records);
      if replayed.Err? {
        return Err(replayed.error);
      }
      ReplayTakesIn(adapt, State(), table, cold, merged.value);
      ReplayKeepsDays(adapt, NextGeneration(State()), table, records);
      Store(replayed.value);
      r := Ok(|merged.value|);
    }

    /** The full rebuild: the replay transaction, then every day it left dirty. Those have no source
        events any more, so they settle into empty days and the rebuild leaves no day dirty. */
    method RebuildFromActiveAndCold(table: seq<Row>, cold: Files) returns (r: Result<nat, ProjectionError>)
      requires Valid()
      modifies this
      ensures Valid() && (r.Err? ==> State() == old(State()))
      ensures
        var merged := Merge(map[], AllLines(cold) + Map(table, Archived));
        && (merged.None? ==> r == Err(MergeConflict))
        && (merged.Some? ==>
              var replayed := Replayed(adapt, Cleared(NextGeneration(old(State()))), table, ReplayOrder(merged.value));
              && (r.Ok? <==> replayed.Some?)
              && (r.Ok? ==> r.value == |merged.value| && CanRebuild(replayed.value, DirtyKeys(replayed.value))
                            && State() == Rebuilt(replayed.value, DirtyKeys(replayed.value))))
      ensures r.Ok? ==> forall key :: key in days ==> !days[key].dirty
      ensures r == Err(MergeConflict) <==> Conflicting(cold, table)
      ensures r.Ok? ==> TakesIn(adapt, old(State()), table, cold, State(), r.value)
      ensures r.Ok? ==> forall key :: key in old(days) ==>
        key in days && days[key].acknowledged == old(days)[key].acknowledged
        && days[key].dayRevision > old(days)[key].dayRevision
    {
      ghost var before, cleared := State(), NextGeneration(State());
      r := ReplayEverything(table, cold);
      if r.Ok? {
        ReplayedSettles(adapt, cleared, table, ReplayOrder(Merge(map[], AllLines(cold) + Map(table, Archived)).value));
        SettlingTakesIn(adapt, before, table, cold, State(), DirtyKeys(State()), r.value);
        SettledDaysMoveOn(before.days, State(), DirtyKeys(State()));
        SettleDays();
      }
    }

    /** `rebuild_dirty_days(usize::MAX)` where every dirty day can be aggregated. */
    method SettleDays()
      requires Valid() && CanRebuild(State(), DirtyKeys(State()))
      modifies this`days, this`rows
      ensures Valid() && State() == Rebuilt(old(State()), DirtyKeys(old(State())))
      ensures forall key :: key in days ==> !days[key].dirty
    {
      ghost var q := State();
      var settled, keys, done := RebuildDirtyDays(None);
      AllDirty(q, keys);
      RebuiltCoherent(q, DirtyKeys(q));
      assert keys[..|keys|] == keys;
      assert settled.Ok?;
    }

    method Replay(p: Projection, table: seq<Row>, records: seq<Cold>) returns (r: Result<Projection, ProjectionError>)
      requires Coherent(p)
      ensures r.Ok? <==> Replayed(adapt, Cleared(NextGeneration(p)), table, records).Some?
      ensures r.Ok? ==> Replayed(adapt, Cleared(NextGeneration(p)), table, records) == Some(r.value)
      ensures r.Err? ==> r.error != MergeConflict
    {
      var cleared := Cleared(NextGeneration(p));
      ClearedCoherent(NextGeneration(p));
      ProjectErrors(adapt, cleared.epoch, Open(cleared), records);
      var projected := ProjectRecords(adapt, cleared.epoch, Open(cleared), records);
      if projected.Err? {
        return Err(projected.error);
      }
      TailCoherent(adapt, cleared, records);
      var written := WithBatch(cleared, projected.value);
      var rebuilt := RebuildInline(written, projected.value.touched);
      if rebuilt.None? {
        return Err(AggregationFailed);
      }
      r := Ok(AtHead(WithCursor(rebuilt.value, projected.value, true), table));
    }

    /** Reassembles a day from its state columns and its stored rows, in whatever order they load, and
        checks the whole against the recorded checksum. */
    method BuildDaySnapshot(key: DayKey) returns (r: Option<DaySnapshot>)
      requires Valid() && key in days
      ensures r.Some? ==>
        && days[key].checksum == Some(r.value.CoveredNow())
        && r.value.dayRevision == Max0(days[key].dayRevision) && r.value.readModelGeneration == days[key].generation
      ensures !days[key].dirty ==>
        && RollupOf(events, key).Some? && r.Some?
        && r.value.CoveredNow() == ChecksumOf(RollupOf(events, key).value)
    {
      var loaded := LoadRows(RowsAt(State(), key));
      r := AssembleDay(key.day, days[key], loaded);
      if !days[key].dirty {
        LoadedCovers(State(), key, loaded);
      }
    }
  }
}
