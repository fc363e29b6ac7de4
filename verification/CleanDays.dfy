/** What the cache of crates/grith-audit/src/analytics.rs says of a day that waits for no rebuild, in terms of
    the source events behind it. */
module CleanDays {
  import opened Records
  import opened Sorting
  import opened Events
  import opened GroupBy
  import opened RollupRows
  import opened Projection

  /** The source events of an epoch that occurred on a UTC day. */
  ghost function EventsOn(events: map<Uuid, SourceEvent>, epoch: nat, day: int): set<AnalyticsEvent> {
    set id | id in events && events[id].epoch == epoch
             && day * 86_400_000_000 <= events[id].event.occurredAt < (day + 1) * 86_400_000_000 :: events[id].event
  }

  lemma SameDay(events: map<Uuid, SourceEvent>, key: DayKey)
    ensures DayEvents(events, key) == EventsOn(events, key.epoch, key.day)
  {
    forall id | id in events ensures KeyOf(events[id]) == key <==> InDay(events[id], key) {
    }
  }

  predicate InDay(s: SourceEvent, key: DayKey) {
    s.epoch == key.epoch && key.day * 86_400_000_000 <= s.event.occurredAt < (key.day + 1) * 86_400_000_000
  }

  lemma OrderedElements(s: set<AnalyticsEvent>)
    ensures (set e | e in OrderedEvents(s)) == s
  {
    ListOfElements(s);
    SortKeepsElements(ListOf(s), TimeThenId);
  }

  lemma AggregateMeans(events: map<Uuid, SourceEvent>, key: DayKey)
    requires RollupOf(events, key).Some?
    ensures RollupMeans(EventsOn(events, key.epoch, key.day), RollupOf(events, key).value)
    ensures WithinLimits(RollupOf(events, key).value)
  {
    SameDay(events, key);
    OrderedElements(DayEvents(events, key));
    RowsMean(key.day, OrderedEvents(DayEvents(events, key)));
  }

  /** The stored rows of a day, table by table. */
  ghost predicate Holds(p: Projection, key: DayKey, r: Rollup) {
    var rows := if key in p.rows then p.rows[key] else RowSets({}, {}, {}, {}, {});
    && rows.usage == r.usage.Items && rows.filters == r.filters.Items && rows.sessions == r.sessions.Items
    && rows.llm == r.llm.Items && rows.destinations == r.destinations.Items
  }

  /** The header columns of a day. */
  predicate HeaderHolds(s: DayState, r: Rollup) {
    && s.header.sourceEventCount == r.sourceEventCount
    && s.header.firstEventAt == r.firstEventAt && s.header.lastEventAt == r.lastEventAt
    && s.header.firstChainSequence == r.firstChainSequence && s.header.lastChainSequence == r.lastChainSequence
    && s.header.lastChainHash == r.lastChainHash
  }

  /** In every coherent state, and so in every reachable one, a day that is not dirty stores, row by row and
      column by column, exactly what the events of that epoch and UTC day add up to. */
  lemma CleanDayMeans(p: Projection, key: DayKey) returns (r: Rollup)
    requires Coherent(p) && key in p.days && !p.days[key].dirty
    ensures RollupMeans(EventsOn(p.events, key.epoch, key.day), r) && WithinLimits(r)
    ensures Holds(p, key, r) && HeaderHolds(p.days[key], r)
  {
    assert DayCoherent(p, key);
    AggregateMeans(p.events, key);
    r := RollupOf(p.events, key).value;
  }
}
