/** Arithmetic every day rollup obeys (crates/grith-analytics/src/accumulator.rs, normalize.rs). */
module RollupLaws {
  import opened Basics
  import opened Records
  import opened Normalize
  import opened Totals
  import opened Events
  import opened GroupBy
  import opened DayRollup

  // ---------- Counts ----------

  /** What one event adds to the count of a usage row. */
  function CountShare(): UsageKey -> AnalyticsEvent -> int { (k: UsageKey) => When(InUsage(k), One) }

  function CountOf(m: map<UsageKey, UsageRow>): UsageKey -> int {
    (k: UsageKey) => if k in m then m[k].eventCount else 0
  }

  /** The sum of the event counts of all usage rows. */
  ghost function EventCounts(m: map<UsageKey, UsageRow>): int { Total(m.Keys, CountOf(m)) }

  lemma UsageRowsPartition(s: set<AnalyticsEvent>, m: map<UsageKey, UsageRow>)
    requires UsageIs(s, m)
    ensures EventCounts(m) == |s|
  {
    forall e | e in s ensures UsageKeyOf(e) in m.Keys {
      assert UsageAt(s, m, UsageKeyOf(e)) && InUsage(UsageKeyOf(e))(e);
    }
    TotalOfGroups(s, m.Keys, UsageKeyOf, One, CountShare());
    forall k | k in m.Keys ensures Groups(s, CountShare())(k) == CountOf(m)(k) {
      assert UsageAt(s, m, k);
    }
    TotalSame(m.Keys, Groups(s, CountShare()), CountOf(m));
    TotalSame(s, One, Unit());
    TotalOfOnes(s);
  }

  function EventIdOf(): AnalyticsEvent -> Uuid { (e: AnalyticsEvent) => e.eventId }

  lemma DigestsAreEvents(digests: map<Uuid, AnalyticsEvent>, s: set<AnalyticsEvent>)
    requires forall e :: e in s <==> e.eventId in digests && digests[e.eventId] == e
    requires forall id :: id in digests ==> digests[id].eventId == id
    ensures |digests| == |s|
  {
    forall id | id in digests.Keys ensures id in Image(s, EventIdOf()) {
      assert digests[id] in s && EventIdOf()(digests[id]) == id;
    }
    assert Image(s, EventIdOf()) == digests.Keys;
    ImageSize(s, EventIdOf());
  }

  /** The usage rows partition the distinct events: their counts add up to the source count, which
      is the number of distinct ids. */
  lemma UsageCountsAddUp(r: Rollup, s: set<AnalyticsEvent>)
    requires Matches(r, s)
    ensures EventCounts(r.usage) == r.sourceEventCount == |s| == |r.digests|
  {
    UsageRowsPartition(s, r.usage);
    DigestsAreEvents(r.digests, s);
  }

  // ---------- Bounds ----------

  lemma BinLow(s: set<AnalyticsEvent>, k: UsageKey, bin: nat)
    requires k.scoreBucket == Some(bin) && bin > 0
    ensures Sum(s, InUsage(k), ScoreOf) >= bin * SCORE_BIN_WIDTH_MICROS * Sum(s, InUsage(k), One)
  {
    TotalBoundBelow(s, bin * SCORE_BIN_WIDTH_MICROS, When(InUsage(k), One), When(InUsage(k), ScoreOf));
  }

  lemma BinHigh(s: set<AnalyticsEvent>, k: UsageKey, bin: nat)
    requires k.scoreBucket == Some(bin) && bin < SCORE_BIN_COUNT - 1
    ensures Sum(s, InUsage(k), ScoreOf) <= ((bin + 1) * SCORE_BIN_WIDTH_MICROS - 1) * Sum(s, InUsage(k), One)
  {
    TotalBound(s, When(InUsage(k), ScoreOf), (bin + 1) * SCORE_BIN_WIDTH_MICROS - 1, When(InUsage(k), One));
  }

  /** The score sum of a row lies where its bin says, except that the first bin is open below and the
      last is open above. */
  ghost predicate InBin(k: UsageKey, row: UsageRow) {
    k.scoreBucket.Some? ==>
      var bin := k.scoreBucket.value;
      && bin < SCORE_BIN_COUNT
      && (bin > 0 ==> row.scoreSum >= bin * SCORE_BIN_WIDTH_MICROS * row.eventCount)
      && (bin < SCORE_BIN_COUNT - 1 ==> row.scoreSum <= ((bin + 1) * SCORE_BIN_WIDTH_MICROS - 1) * row.eventCount)
  }

  lemma UsageInBin(s: set<AnalyticsEvent>, m: map<UsageKey, UsageRow>, k: UsageKey)
    requires UsageAt(s, m, k) && k in m
    ensures InBin(k, m[k])
  {
    if k.scoreBucket.Some? {
      var bin := k.scoreBucket.value;
      var member :| member in s && InUsage(k)(member);
      assert ScoreBin(member.scoreMicros.value) == bin;
      if bin > 0 {
        BinLow(s, k, bin);
      }
      if bin < SCORE_BIN_COUNT - 1 {
        BinHigh(s, k, bin);
      }
    }
  }

  lemma SumLeq(s: set<AnalyticsEvent>, p: AnalyticsEvent -> bool, f: AnalyticsEvent -> int, g: AnalyticsEvent -> int)
    requires forall e :: 0 <= f(e) <= g(e)
    ensures 0 <= Sum(s, p, f) <= Sum(s, p, g)
  {
    TotalBound(s, When(p, f), 1, When(p, g));
    TotalNonNegative(s, When(p, f));
  }

  /** A filter's positive contributions to denials are among its triggers and among its evaluations
      of denied calls, and both of those are among its evaluations. */
  predicate FilterCountsNest(row: FilterRow) {
    && 0 <= row.deniedPositive <= Min(row.triggered, row.deniedEvaluated)
    && row.triggered <= row.evaluated && row.deniedEvaluated <= row.evaluated
  }

  lemma FilterNests(s: set<AnalyticsEvent>, m: map<FilterKey, FilterRow>, k: FilterKey)
    requires FilterAt(s, m, k) && k in m
    ensures FilterCountsNest(m[k])
  {
    var p := InFilter(k);
    SumLeq(s, p, DeniedTriggerOf(k.filterId), TriggerOf(k.filterId));
    SumLeq(s, p, DeniedTriggerOf(k.filterId), DeniedFlag);
    SumLeq(s, p, TriggerOf(k.filterId), One);
    SumLeq(s, p, DeniedFlag, One);
  }

  function QueuedOrDenied(e: AnalyticsEvent): int { Queued(e) + DeniedDecision(e) }

  /** Queued and denied decisions are distinct decisions. */
  lemma SessionNests(s: set<AnalyticsEvent>, m: map<SessionKey, SessionRow>, k: SessionKey)
    requires SessionAt(s, m, k) && k in m
    ensures 0 <= m[k].queues + m[k].denies <= m[k].decisions
  {
    var p := InSession(k);
    TotalPlus(s, When(p, Queued), When(p, DeniedDecision), When(p, QueuedOrDenied));
    SumLeq(s, p, QueuedOrDenied, Decided);
  }

  /** The arithmetic of every rollup that a run of successful ingests leaves. */
  lemma RollupArithmetic(day: int, events: seq<AnalyticsEvent>)
    requires IngestAll(Fresh(day), events).Some?
    ensures
      var r := IngestAll(Fresh(day), events).value;
      && EventCounts(r.usage) == r.sourceEventCount == |Elements(events)| == |r.digests|
      && (forall k :: k in r.usage ==> InBin(k, r.usage[k]))
      && (forall k :: k in r.filters ==> FilterCountsNest(r.filters[k]))
      && (forall k :: k in r.sessions ==> 0 <= r.sessions[k].queues + r.sessions[k].denies <= r.sessions[k].decisions)
      && CountersFit(r) && RowsFit(r)
  {
    var s := Elements(events);
    var r := IngestAll(Fresh(day), events).value;
    DayIsGroupBy(day, events, s);
    UsageCountsAddUp(r, s);
    RowsObey(s, r.usage, r.filters, r.sessions);
  }

  lemma RowsObey(
    s: set<AnalyticsEvent>, usage: map<UsageKey, UsageRow>, filters: map<FilterKey, FilterRow>,
    sessions: map<SessionKey, SessionRow>)
    requires UsageIs(s, usage) && FiltersAre(s, filters) && SessionsAre(s, sessions)
    ensures forall k :: k in usage ==> InBin(k, usage[k])
    ensures forall k :: k in filters ==> FilterCountsNest(filters[k])
    ensures forall k :: k in sessions ==> 0 <= sessions[k].queues + sessions[k].denies <= sessions[k].decisions
  {
    forall k | k in usage ensures InBin(k, usage[k]) {
      assert UsageAt(s, usage, k);
      UsageInBin(s, usage, k);
    }
    forall k | k in filters ensures FilterCountsNest(filters[k]) {
      assert FilterAt(s, filters, k);
      FilterNests(s, filters, k);
    }
    forall k | k in sessions ensures 0 <= sessions[k].queues + sessions[k].denies <= sessions[k].decisions {
      assert SessionAt(s, sessions, k);
      SessionNests(s, sessions, k);
    }
  }
}
