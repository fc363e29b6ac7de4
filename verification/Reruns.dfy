/** Running the same events through a second accumulator (crates/grith-analytics/src/accumulator.rs):
    when that cannot fail where the first run succeeded, and that it gives the same rollup. */
module Reruns {
  import opened Totals
  import opened Events
  import opened GroupBy
  import opened DayRollup

  ghost predicate DistinctIds(s: set<AnalyticsEvent>) {
    forall x, y :: x in s && y in s && x.eventId == y.eventId ==> x == y
  }

  /** Every event of the set passes validation and lies on the day. */
  ghost predicate AllValid(day: int, s: set<AnalyticsEvent>) {
    forall e :: e in s ==> DayOf(e.occurredAt) == day && ValidationError(e).None?
  }

  /** No score sum over this many events can leave the range of safe integers. */
  predicate ScoresInRange(events: nat) { events * MAX_ABS_SCORE_MICROS <= MAX_SAFE_INTEGER }

  // ---------- A part of the events fits where the whole does ----------

  lemma SizeWithin<T>(a: set<T>, b: set<T>)
    requires a <= b
    ensures |a| <= |b|
  {
    assert b == a + (b - a);
  }

  lemma OccursWithin(t: set<AnalyticsEvent>, s: set<AnalyticsEvent>, p: AnalyticsEvent -> bool)
    requires t <= s && Occurs(t, p)
    ensures Occurs(s, p)
  {
  }

  lemma SumWithin(t: set<AnalyticsEvent>, s: set<AnalyticsEvent>, p: AnalyticsEvent -> bool, f: AnalyticsEvent -> int)
    requires t <= s && forall e :: f(e) >= 0
    ensures 0 <= Sum(t, p, f) <= Sum(s, p, f)
  {
    TotalWithin(t, s, When(p, f));
  }

  lemma ScoreSumWithin(t: set<AnalyticsEvent>, s: set<AnalyticsEvent>, p: AnalyticsEvent -> bool)
    requires t <= s && forall e :: e in s ==> -MAX_ABS_SCORE_MICROS <= ScoreOf(e) <= MAX_ABS_SCORE_MICROS
    ensures -MAX_ABS_SCORE_MICROS * |s| <= Sum(t, p, ScoreOf) <= MAX_ABS_SCORE_MICROS * |s|
  {
    TotalBound(t, When(p, ScoreOf), MAX_ABS_SCORE_MICROS, Unit());
    TotalBoundBelow(t, -MAX_ABS_SCORE_MICROS, Unit(), When(p, ScoreOf));
    TotalOfOnes(t);
    SizeWithin(t, s);
  }

  ghost predicate ScoresBounded(s: set<AnalyticsEvent>) {
    && ScoresInRange(|s|)
    && forall e :: e in s ==> -MAX_ABS_SCORE_MICROS <= ScoreOf(e) <= MAX_ABS_SCORE_MICROS
  }

  lemma UsageWithin(
    t: set<AnalyticsEvent>, s: set<AnalyticsEvent>, m: map<UsageKey, UsageRow>, n: map<UsageKey, UsageRow>)
    requires t <= s && ScoresBounded(s) && UsageIs(t, m) && UsageIs(s, n) && UsageAllFit(n)
    ensures UsageAllFit(m) && |m| <= |n|
  {
    forall k | k in m ensures k in n && UsageFits(m[k]) {
      assert UsageAt(t, m, k) && UsageAt(s, n, k);
      OccursWithin(t, s, InUsage(k));
      SumWithin(t, s, InUsage(k), One);
      ScoreSumWithin(t, s, InUsage(k));
    }
    SizeWithin(m.Keys, n.Keys);
  }

  lemma FiltersWithin(
    t: set<AnalyticsEvent>, s: set<AnalyticsEvent>, m: map<FilterKey, FilterRow>, n: map<FilterKey, FilterRow>)
    requires t <= s && FiltersAre(t, m) && FiltersAre(s, n) && FiltersAllFit(n)
    ensures FiltersAllFit(m) && |m| <= |n|
  {
    forall k | k in m ensures k in n && FilterFits(m[k]) {
      assert FilterAt(t, m, k) && FilterAt(s, n, k);
      var p := InFilter(k);
      OccursWithin(t, s, p);
      SumWithin(t, s, p, One);
      SumWithin(t, s, p, TriggerOf(k.filterId));
      SumWithin(t, s, p, DeniedFlag);
      SumWithin(t, s, p, DeniedTriggerOf(k.filterId));
    }
    SizeWithin(m.Keys, n.Keys);
  }

  lemma SessionSumsWithin(
    t: set<AnalyticsEvent>, s: set<AnalyticsEvent>, p: AnalyticsEvent -> bool, a: SessionRow, b: SessionRow)
    requires t <= s && SessionSumsAre(t, p, a) && SessionSumsAre(s, p, b) && SessionFits(b)
    ensures SessionFits(a)
  {
    SumWithin(t, s, p, Decided);
    SumWithin(t, s, p, Queued);
    SumWithin(t, s, p, DeniedDecision);
    SumWithin(t, s, p, LlmCall);
    SumWithin(t, s, p, Prompt);
    SumWithin(t, s, p, Completion);
    SumWithin(t, s, p, Cost);
  }

  lemma SessionsWithin(
    t: set<AnalyticsEvent>, s: set<AnalyticsEvent>, m: map<SessionKey, SessionRow>, n: map<SessionKey, SessionRow>)
    requires t <= s && SessionsAre(t, m) && SessionsAre(s, n) && SessionsAllFit(n)
    ensures SessionsAllFit(m) && |m| <= |n|
  {
    forall k | k in m ensures k in n && SessionFits(m[k]) {
      assert SessionAt(t, m, k) && SessionAt(s, n, k);
      OccursWithin(t, s, InSession(k));
      SessionSumsWithin(t, s, InSession(k), m[k], n[k]);
    }
    SizeWithin(m.Keys, n.Keys);
  }

  lemma LlmWithin(t: set<AnalyticsEvent>, s: set<AnalyticsEvent>, m: map<LlmKey, LlmRow>, n: map<LlmKey, LlmRow>)
    requires t <= s && LlmIs(t, m) && LlmIs(s, n) && LlmAllFit(n)
    ensures LlmAllFit(m) && |m| <= |n|
  {
    forall k | k in m ensures k in n && LlmFits(m[k]) {
      assert LlmAt(t, m, k) && LlmAt(s, n, k);
      var p := InLlm(k);
      OccursWithin(t, s, p);
      SumWithin(t, s, p, One);
      SumWithin(t, s, p, Prompt);
      SumWithin(t, s, p, Completion);
      SumWithin(t, s, p, Cost);
    }
    SizeWithin(m.Keys, n.Keys);
  }

  lemma DestinationsWithin(
    t: set<AnalyticsEvent>, s: set<AnalyticsEvent>,
    m: map<DestinationKey, DestinationRow>, n: map<DestinationKey, DestinationRow>)
    requires t <= s && (m == map[] || DestinationsAre(t, m)) && DestinationsAre(s, n) && DestinationsAllFit(n)
    ensures DestinationsAllFit(m) && |m| <= |n|
  {
    forall k | k in m ensures k in n && DestinationFits(m[k]) {
      assert DestinationAt(t, m, k) && DestinationAt(s, n, k);
      OccursWithin(t, s, InDestination(k));
      SumWithin(t, s, InDestination(k), One);
    }
    SizeWithin(m.Keys, n.Keys);
  }

  /** The families of a rollup group these events; its destinations may have been dropped. */
  ghost predicate Groups4(r: Rollup, s: set<AnalyticsEvent>) {
    && r.sourceEventCount == |s|
    && UsageIs(s, r.usage) && FiltersAre(s, r.filters) && SessionsAre(s, r.sessions) && LlmIs(s, r.llm)
    && (r.destinations == map[] || DestinationsAre(s, r.destinations))
  }

  lemma RollupWithin(q: Rollup, t: set<AnalyticsEvent>, r: Rollup, s: set<AnalyticsEvent>)
    requires t <= s && Groups4(q, t) && Matches(r, s) && ScoresBounded(s)
    requires CountersFit(r) && RowsFit(r)
    ensures CountersFit(q) && RowsFit(q)
  {
    SizeWithin(t, s);
    UsageWithin(t, s, q.usage, r.usage);
    FiltersWithin(t, s, q.filters, r.filters);
    SessionsWithin(t, s, q.sessions, r.sessions);
    LlmWithin(t, s, q.llm, r.llm);
    DestinationsWithin(t, s, q.destinations, r.destinations);
  }

  // ---------- So a second run succeeds ----------

  /** Whatever part of the events a rollup has seen, it is within the limits. */
  ghost predicate Roomy(s: set<AnalyticsEvent>) {
    forall t, q :: t <= s && Matches(q, t) ==> CountersFit(q) && RowsFit(q)
  }

  /** The rollup groups these events, a part of all events. */
  ghost predicate GroupsPart(r: Rollup, t: set<AnalyticsEvent>, s: set<AnalyticsEvent>) { Matches(r, t) && t <= s }

  lemma {:induction false} RunsIfRoomy(
    r: Rollup, t: set<AnalyticsEvent>, events: seq<AnalyticsEvent>, s: set<AnalyticsEvent>)
    requires Matches(r, t) && t <= s && Roomy(s) && AllValid(r.day, s) && DistinctIds(s)
    requires forall e :: e in events ==> e in s
    ensures IngestAll(r, events).Some?
    decreases |events|
  {
    if events != [] {
      var e := events[0];
      assert e in s;
      AcceptsIfRoomy(r, t, e, s);
      RunsIfRoomy(Accept(r, e).value, t + {e}, events[1..], s);
    }
  }

  lemma AcceptsIfRoomy(r: Rollup, t: set<AnalyticsEvent>, e: AnalyticsEvent, s: set<AnalyticsEvent>)
    requires Matches(r, t) && t <= s && Roomy(s) && AllValid(r.day, s) && DistinctIds(s) && e in s
    ensures Accept(r, e).Some? && GroupsPart(Accept(r, e).value, t + {e}, s) && Accept(r, e).value.day == r.day
  {
    if e.eventId in r.digests {
      assert r.digests[e.eventId] in t;
      ReplayedMatches(r, t, e);
    } else {
      NewGroups(r, t, e, s);
    }
  }

  lemma NewGroups(r: Rollup, t: set<AnalyticsEvent>, e: AnalyticsEvent, s: set<AnalyticsEvent>)
    requires Matches(r, t) && t <= s && e in s && Roomy(s) && ValidationError(e).None? && e.eventId !in r.digests
    ensures GroupsPart(Added(r, e), t + {e}, s) && CountersFit(Added(r, e)) && RowsFit(Added(r, e))
  {
    ValidIdsDistinct(e);
    AddedMatches(r, t, e);
    MatchesPart(Added(r, e), t + {e}, s);
    RoomFor(Added(r, e), t + {e}, s);
  }

  lemma MatchesPart(q: Rollup, t: set<AnalyticsEvent>, s: set<AnalyticsEvent>)
    requires Matches(q, t) && t <= s
    ensures GroupsPart(q, t, s)
  {
  }

  lemma RoomFor(q: Rollup, t: set<AnalyticsEvent>, s: set<AnalyticsEvent>)
    requires Roomy(s) && t <= s && Matches(q, t)
    ensures CountersFit(q) && RowsFit(q)
  {
  }

  lemma {:induction false} AcceptedAreValid(r: Rollup, events: seq<AnalyticsEvent>)
    requires IngestAll(r, events).Some?
    ensures AllValid(r.day, Elements(events))
    decreases |events|
  {
    if events != [] {
      var next := Accept(r, events[0]).value;
      assert next.day == r.day;
      AcceptedAreValid(next, events[1..]);
      forall e | e in Elements(events) ensures DayOf(e.occurredAt) == r.day && ValidationError(e).None? {
        assert e == events[0] || e in events[1..];
      }
    }
  }

  /** What a successful first run says about its events. */
  lemma FirstRun(day: int, events: seq<AnalyticsEvent>, s: set<AnalyticsEvent>)
    requires IngestAll(Fresh(day), events).Some? && s == Elements(events)
    ensures AllValid(day, s) && DistinctIds(s) && Matches(IngestAll(Fresh(day), events).value, s)
    ensures ScoresInRange(|s|) ==> ScoresBounded(s) && Roomy(s)
  {
    AcceptedAreValid(Fresh(day), events);
    DayIsGroupBy(day, events, s);
    IdsApart(IngestAll(Fresh(day), events).value, s);
    if ScoresInRange(|s|) {
      ValidScores(day, s);
      RoomWithin(IngestAll(Fresh(day), events).value, s);
    }
  }

  lemma IdsApart(r: Rollup, s: set<AnalyticsEvent>)
    requires Matches(r, s)
    ensures DistinctIds(s)
  {
  }

  lemma ValidScores(day: int, s: set<AnalyticsEvent>)
    requires AllValid(day, s) && ScoresInRange(|s|)
    ensures ScoresBounded(s)
  {
  }

  lemma RoomWithin(r: Rollup, s: set<AnalyticsEvent>)
    requires Matches(r, s) && ScoresBounded(s) && CountersFit(r) && RowsFit(r)
    ensures Roomy(s)
  {
    forall t, q | t <= s && Matches(q, t) ensures CountersFit(q) && RowsFit(q) {
      RollupWithin(q, t, r, s);
    }
  }

  /** Order and identical replays do not matter: a run over the same events in another order, however
      often each is repeated, gives the same rollup. It can only fail by a score sum that leaves the
      safe range on the way, which takes more than 90 million events. */
  lemma OrderIsIrrelevant(day: int, a: seq<AnalyticsEvent>, b: seq<AnalyticsEvent>)
    requires Elements(a) == Elements(b) && DistinctSequences(Elements(a)) && IngestAll(Fresh(day), a).Some?
    ensures ScoresInRange(|Elements(a)|) ==> IngestAll(Fresh(day), b).Some?
    ensures IngestAll(Fresh(day), b).Some? ==> IngestAll(Fresh(day), b) == IngestAll(Fresh(day), a)
  {
    var s := Elements(a);
    FirstRun(day, a, s);
    if ScoresInRange(|s|) {
      FreshMatches(day);
      RunsIfRoomy(Fresh(day), {}, b, s);
    }
    if IngestAll(Fresh(day), b).Some? {
      DayIsGroupBy(day, a, s);
      DayIsGroupBy(day, b, s);
      MatchesUnique(IngestAll(Fresh(day), a).value, IngestAll(Fresh(day), b).value, s);
    }
  }
}
