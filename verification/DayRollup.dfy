/** What a day accumulator computes from a list of events (crates/grith-analytics/src/accumulator.rs):
    the group-by over the distinct events, whatever their order and however often each is replayed. */
module DayRollup {
  import opened Basics
  import opened Records
  import opened Sorting
  import opened Normalize
  import opened Totals
  import opened Events
  import opened GroupBy

  const MAX_SAFE_INTEGER := 9_007_199_254_740_991
  const MAX_TOTAL_ROLLUP_ROWS := 50_000
  const MAX_USAGE_ROWS := 20_000
  const MAX_FILTER_ROWS := 10_000
  const MAX_SESSION_ROWS := 10_000
  const MAX_LLM_ROWS := 5_000
  const MAX_DESTINATION_ROWS := 5_000

  // ---------- Adding keeps the group-by ----------

  lemma LastHashAdd(r: Rollup, s: set<AnalyticsEvent>, e: AnalyticsEvent)
    requires LastHashIs(s, r.lastChainSequence, r.lastChainHash)
    ensures LastHashIs(s + {e}, Added(r, e).lastChainSequence, Added(r, e).lastChainHash)
  {
    if Advances(r.lastChainSequence, e) {
      assert e in s + {e};
    } else if r.lastChainSequence.Some? {
      var x :| x in s && x.chainSequence == r.lastChainSequence && x.chainHash == r.lastChainHash;
      assert x in s + {e};
    }
  }

  lemma SecurityAdd(r: Rollup, s: set<AnalyticsEvent>, e: AnalyticsEvent)
    requires SecurityIs(s, r.security) && forall x :: x in s ==> x.eventId != e.eventId
    ensures SecurityIs(s + {e}, Added(r, e).security)
  {
    forall id
      ensures id in AddedSecurity(r.security, e) <==> exists x :: x in s + {e} && x.eventId == id && x.security.Some?
      ensures id in AddedSecurity(r.security, e) ==>
        exists x :: x in s + {e} && x.eventId == id && x.security == Some(AddedSecurity(r.security, e)[id])
    {
      SecurityAddAt(r.security, s, e, id);
    }
  }

  lemma SecurityAddAt(m: map<Uuid, SecurityEvent>, s: set<AnalyticsEvent>, e: AnalyticsEvent, id: Uuid)
    requires SecurityIs(s, m) && forall x :: x in s ==> x.eventId != e.eventId
    ensures
      var after := AddedSecurity(m, e);
      && (id in after <==> exists x :: x in s + {e} && x.eventId == id && x.security.Some?)
      && (id in after ==> exists x :: x in s + {e} && x.eventId == id && x.security == Some(after[id]))
  {
    if id == e.eventId {
      assert e in s + {e};
    } else if id in m {
      var x :| x in s && x.eventId == id && x.security == Some(m[id]);
      assert x in s + {e};
    }
  }

  lemma HeaderAdd(r: Rollup, s: set<AnalyticsEvent>, e: AnalyticsEvent)
    requires BoundsAre(s, Any(), At, r.firstEventAt, r.lastEventAt)
    requires BoundsAre(s, Sequenced(), SequenceOf, r.firstChainSequence, r.lastChainSequence)
    ensures BoundsAre(s + {e}, Any(), At, Added(r, e).firstEventAt, Added(r, e).lastEventAt)
    ensures BoundsAre(s + {e}, Sequenced(), SequenceOf, Added(r, e).firstChainSequence, Added(r, e).lastChainSequence)
  {
    BoundsAdd(s, e, Any(), At, r.firstEventAt, r.lastEventAt);
    BoundsAdd(s, e, Sequenced(), SequenceOf, r.firstChainSequence, r.lastChainSequence);
  }

  lemma FamiliesAdd(r: Rollup, s: set<AnalyticsEvent>, e: AnalyticsEvent)
    requires e !in s && Distinct(e.evaluatedFilterIds)
    requires UsageIs(s, r.usage) && FiltersAre(s, r.filters) && SessionsAre(s, r.sessions)
    requires LlmIs(s, r.llm) && DestinationsAre(s, r.destinations)
    ensures UsageIs(s + {e}, AddedUsage(r.usage, e))
      && FiltersAre(s + {e}, AddedFilters(r.filters, e, e.evaluatedFilterIds))
    ensures SessionsAre(s + {e}, AddedSession(r.sessions, e)) && LlmIs(s + {e}, AddedLlm(r.llm, e))
    ensures DestinationsAre(s + {e}, AddedDestination(r.destinations, e))
  {
    forall k ensures UsageAt(s + {e}, AddedUsage(r.usage, e), k) {
      UsageAddAt(s, r.usage, e, k);
    }
    forall k ensures FilterAt(s + {e}, AddedFilters(r.filters, e, e.evaluatedFilterIds), k) {
      FilterAddAt(s, r.filters, e, k);
    }
    forall k ensures SessionAt(s + {e}, AddedSession(r.sessions, e), k) {
      SessionAddAt(s, r.sessions, e, k);
    }
    forall k ensures LlmAt(s + {e}, AddedLlm(r.llm, e), k) {
      LlmAddAt(s, r.llm, e, k);
    }
    forall k ensures DestinationAt(s + {e}, AddedDestination(r.destinations, e), k) {
      DestinationAddAt(s, r.destinations, e, k);
    }
  }

  lemma DigestsAdd(r: Rollup, s: set<AnalyticsEvent>, e: AnalyticsEvent)
    requires forall x :: x in s <==> x.eventId in r.digests && r.digests[x.eventId] == x
    requires (forall id :: id in r.digests ==> r.digests[id].eventId == id) && e.eventId !in r.digests
    ensures e !in s && |s + {e}| == |s| + 1 && forall x :: x in s ==> x.eventId != e.eventId
    ensures forall x :: x in s + {e} <==> x.eventId in Added(r, e).digests && Added(r, e).digests[x.eventId] == x
    ensures forall id :: id in Added(r, e).digests ==> Added(r, e).digests[id].eventId == id
  {
  }

  lemma AddedMatches(r: Rollup, s: set<AnalyticsEvent>, e: AnalyticsEvent)
    requires Matches(r, s) && e.eventId !in r.digests && Distinct(e.evaluatedFilterIds)
    ensures Matches(Added(r, e), s + {e})
  {
    DigestsAdd(r, s, e);
    HeaderAdd(r, s, e);
    LastHashAdd(r, s, e);
    SecurityAdd(r, s, e);
    FamiliesAdd(r, s, e);
  }

  lemma FreshMatches(day: int)
    ensures Matches(Fresh(day), {})
  {
  }

  // ---------- The group-by is one rollup ----------

  /** No two events claim one chain sequence. */
  ghost predicate DistinctSequences(s: set<AnalyticsEvent>) {
    forall x, y :: x in s && y in s && x.chainSequence.Some? && x.chainSequence == y.chainSequence ==> x == y
  }

  lemma UsageUnique(s: set<AnalyticsEvent>, m: map<UsageKey, UsageRow>, n: map<UsageKey, UsageRow>)
    requires UsageIs(s, m) && UsageIs(s, n)
    ensures m == n
  {
    forall k ensures k in m <==> k in n
             ensures k in m && k in n ==> m[k] == n[k]
    {
      assert UsageAt(s, m, k) && UsageAt(s, n, k);
      if k in m && k in n {
        SpansUnique(s, InUsage(k), At, m[k].firstEventAt, m[k].lastEventAt, n[k].firstEventAt, n[k].lastEventAt);
      }
    }
  }

  lemma FiltersUnique(s: set<AnalyticsEvent>, m: map<FilterKey, FilterRow>, n: map<FilterKey, FilterRow>)
    requires FiltersAre(s, m) && FiltersAre(s, n)
    ensures m == n
  {
    forall k ensures k in m <==> k in n
             ensures k in m && k in n ==> m[k] == n[k]
    {
      assert FilterAt(s, m, k) && FilterAt(s, n, k);
    }
  }

  lemma SessionsUnique(s: set<AnalyticsEvent>, m: map<SessionKey, SessionRow>, n: map<SessionKey, SessionRow>)
    requires SessionsAre(s, m) && SessionsAre(s, n)
    ensures m == n
  {
    forall k ensures k in m <==> k in n
             ensures k in m && k in n ==> m[k] == n[k]
    {
      assert SessionAt(s, m, k) && SessionAt(s, n, k);
      if k in m && k in n {
        SpansUnique(s, InSession(k), At, m[k].firstEventAt, m[k].lastEventAt, n[k].firstEventAt, n[k].lastEventAt);
      }
    }
  }

  lemma LlmUnique(s: set<AnalyticsEvent>, m: map<LlmKey, LlmRow>, n: map<LlmKey, LlmRow>)
    requires LlmIs(s, m) && LlmIs(s, n)
    ensures m == n
  {
    forall k ensures k in m <==> k in n
             ensures k in m && k in n ==> m[k] == n[k]
    {
      assert LlmAt(s, m, k) && LlmAt(s, n, k);
    }
  }

  lemma DestinationsUnique(
    s: set<AnalyticsEvent>, m: map<DestinationKey, DestinationRow>, n: map<DestinationKey, DestinationRow>)
    requires DestinationsAre(s, m) && DestinationsAre(s, n)
    ensures m == n
  {
    forall k ensures k in m <==> k in n
             ensures k in m && k in n ==> m[k] == n[k]
    {
      assert DestinationAt(s, m, k) && DestinationAt(s, n, k);
      if k in m && k in n {
        SpansUnique(s, InDestination(k), At, m[k].firstEventAt, m[k].lastEventAt, n[k].firstEventAt, n[k].lastEventAt);
      }
    }
  }

  lemma BoundsUnique(s: set<AnalyticsEvent>, p: AnalyticsEvent -> bool, at: AnalyticsEvent -> int,
                     a: Option<int>, b: Option<int>, c: Option<int>, d: Option<int>)
    requires BoundsAre(s, p, at, a, b) && BoundsAre(s, p, at, c, d)
    ensures a == c && b == d
  {
    if a.Some? {
      SpansUnique(s, p, at, a.value, b.value, c.value, d.value);
    }
  }

  lemma HeaderUnique(q: Rollup, r: Rollup, s: set<AnalyticsEvent>)
    requires Matches(q, s) && Matches(r, s) && DistinctSequences(s)
    ensures q.firstEventAt == r.firstEventAt && q.lastEventAt == r.lastEventAt
    ensures q.firstChainSequence == r.firstChainSequence && q.lastChainSequence == r.lastChainSequence
    ensures q.lastChainHash == r.lastChainHash
  {
    BoundsUnique(s, Any(), At, q.firstEventAt, q.lastEventAt, r.firstEventAt, r.lastEventAt);
    BoundsUnique(s, Sequenced(), SequenceOf, q.firstChainSequence, q.lastChainSequence, r.firstChainSequence,
      r.lastChainSequence);
  }

  lemma IdsUnique(q: Rollup, r: Rollup, s: set<AnalyticsEvent>)
    requires Matches(q, s) && Matches(r, s)
    ensures q.digests == r.digests && q.security == r.security
  {
    forall id ensures id in q.digests <==> id in r.digests
              ensures id in q.digests && id in r.digests ==> q.digests[id] == r.digests[id]
    {
      assert id in q.digests ==> q.digests[id] in s;
      assert id in r.digests ==> r.digests[id] in s;
    }
    SecurityUnique(s, q.security, r.security);
  }

  lemma SecurityUnique(s: set<AnalyticsEvent>, m: map<Uuid, SecurityEvent>, n: map<Uuid, SecurityEvent>)
    requires SecurityIs(s, m) && SecurityIs(s, n)
    requires forall x, y :: x in s && y in s && x.eventId == y.eventId ==> x == y
    ensures m == n
  {
  }

  lemma MatchesUnique(q: Rollup, r: Rollup, s: set<AnalyticsEvent>)
    requires Matches(q, s) && Matches(r, s) && q.day == r.day && DistinctSequences(s)
    ensures q == r
  {
    HeaderUnique(q, r, s);
    IdsUnique(q, r, s);
    UsageUnique(s, q.usage, r.usage);
    FiltersUnique(s, q.filters, r.filters);
    SessionsUnique(s, q.sessions, r.sessions);
    LlmUnique(s, q.llm, r.llm);
    DestinationsUnique(s, q.destinations, r.destinations);
  }

  // ---------- Limits ----------

  predicate Safe(n: int) { -MAX_SAFE_INTEGER <= n <= MAX_SAFE_INTEGER }

  predicate UsageFits(row: UsageRow) { Safe(row.eventCount) && Safe(row.scoreSum) }

  predicate FilterFits(row: FilterRow) {
    Safe(row.evaluated) && Safe(row.triggered) && Safe(row.deniedEvaluated) && Safe(row.deniedPositive)
  }

  predicate SessionFits(row: SessionRow) {
    && Safe(row.decisions) && Safe(row.queues) && Safe(row.denies) && Safe(row.llmCalls)
    && Safe(row.promptTokens) && Safe(row.completionTokens) && Safe(row.costMicros)
  }

  predicate LlmFits(row: LlmRow) {
    Safe(row.calls) && Safe(row.promptTokens) && Safe(row.completionTokens) && Safe(row.costMicros)
  }

  predicate DestinationFits(row: DestinationRow) { Safe(row.eventCount) }

  predicate UsageAllFit(m: map<UsageKey, UsageRow>) { forall k :: k in m ==> UsageFits(m[k]) }

  predicate FiltersAllFit(m: map<FilterKey, FilterRow>) { forall k :: k in m ==> FilterFits(m[k]) }

  predicate SessionsAllFit(m: map<SessionKey, SessionRow>) { forall k :: k in m ==> SessionFits(m[k]) }

  predicate LlmAllFit(m: map<LlmKey, LlmRow>) { forall k :: k in m ==> LlmFits(m[k]) }

  predicate DestinationsAllFit(m: map<DestinationKey, DestinationRow>) { forall k :: k in m ==> DestinationFits(m[k]) }

  predicate CountersFit(r: Rollup) {
    && Safe(r.sourceEventCount)
    && UsageAllFit(r.usage) && FiltersAllFit(r.filters) && SessionsAllFit(r.sessions)
    && LlmAllFit(r.llm) && DestinationsAllFit(r.destinations)
  }

  function TotalRows(r: Rollup): nat { |r.usage| + |r.filters| + |r.sessions| + |r.llm| + |r.destinations| }

  predicate RowsFit(r: Rollup) {
    && |r.usage| <= MAX_USAGE_ROWS && |r.filters| <= MAX_FILTER_ROWS && |r.sessions| <= MAX_SESSION_ROWS
    && |r.llm| <= MAX_LLM_ROWS && |r.destinations| <= MAX_DESTINATION_ROWS && TotalRows(r) <= MAX_TOTAL_ROLLUP_ROWS
  }

  // ---------- Runs of ingest ----------

  /** The rollup after a successful ingest; None when it fails. */
  function Accept(r: Rollup, e: AnalyticsEvent): Option<Rollup> {
    if DayOf(e.occurredAt) != r.day || ValidationError(e).Some? then None
    else if e.eventId in r.digests then (if r.digests[e.eventId] == e then Some(r) else None)
    else if CountersFit(Added(r, e)) && RowsFit(Added(r, e)) then Some(Added(r, e))
    else None
  }

  function IngestAll(r: Rollup, events: seq<AnalyticsEvent>): Option<Rollup>
    decreases |events|
  {
    if events == [] then Some(r)
    else match Accept(r, events[0])
         case None => None
         case Some(next) => IngestAll(next, events[1..])
  }

  function Elements(events: seq<AnalyticsEvent>): set<AnalyticsEvent> { set e | e in events }

  lemma AcceptMatches(r: Rollup, s: set<AnalyticsEvent>, e: AnalyticsEvent)
    requires Matches(r, s) && CountersFit(r) && RowsFit(r) && Accept(r, e).Some?
    ensures Matches(Accept(r, e).value, s + {e}) && Accept(r, e).value.day == r.day
    ensures CountersFit(Accept(r, e).value) && RowsFit(Accept(r, e).value)
  {
    if e.eventId in r.digests {
      ReplayedMatches(r, s, e);
    } else {
      ValidIdsDistinct(e);
      AddedMatches(r, s, e);
    }
  }

  lemma ReplayedMatches(r: Rollup, s: set<AnalyticsEvent>, e: AnalyticsEvent)
    requires Matches(r, s) && e.eventId in r.digests && r.digests[e.eventId] == e
    ensures s + {e} == s
  {
  }

  lemma ValidIdsDistinct(e: AnalyticsEvent)
    requires ValidationError(e).None?
    ensures Distinct(e.evaluatedFilterIds)
  {
    ValidMeans(e);
    StrictlySortedMeans(e.evaluatedFilterIds);
  }

  /** A run in which no ingest fails leaves the group-by over its distinct events, with every
      counter and row count within its limit. */
  lemma {:induction false} IngestIsGroupBy(
    r: Rollup, s: set<AnalyticsEvent>, events: seq<AnalyticsEvent>, all: set<AnalyticsEvent>)
    requires Matches(r, s) && CountersFit(r) && RowsFit(r)
    requires IngestAll(r, events).Some? && all == s + Elements(events)
    ensures
      var end := IngestAll(r, events).value;
      Matches(end, all) && end.day == r.day && CountersFit(end) && RowsFit(end)
    decreases |events|
  {
    if events == [] {
      assert all == s;
    } else {
      AcceptMatches(r, s, events[0]);
      ElementsSplit(s, events);
      IngestIsGroupBy(Accept(r, events[0]).value, s + {events[0]}, events[1..], all);
    }
  }

  lemma ElementsSplit(s: set<AnalyticsEvent>, events: seq<AnalyticsEvent>)
    requires events != []
    ensures s + {events[0]} + Elements(events[1..]) == s + Elements(events)
  {
    assert events == [events[0]] + events[1..];
  }

  lemma DayIsGroupBy(day: int, events: seq<AnalyticsEvent>, s: set<AnalyticsEvent>)
    requires IngestAll(Fresh(day), events).Some? && s == Elements(events)
    ensures
      var end := IngestAll(Fresh(day), events).value;
      Matches(end, s) && end.day == day && CountersFit(end) && RowsFit(end)
  {
    FreshMatches(day);
    assert s == {} + Elements(events);
    IngestIsGroupBy(Fresh(day), {}, events, s);
  }
}
