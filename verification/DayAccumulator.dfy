/** The accumulator of crates/grith-analytics/src/accumulator.rs, updated in place; a failed ingest
    may leave some of its maps updated, as it does there. */
module DayAccumulator {
  import opened Basics
  import opened Contract
  import opened Records
  import opened Sorting
  import opened Normalize
  import opened Totals
  import opened Events
  import opened GroupBy
  import opened DayRollup

  /** The sum, or None when it leaves the exact-integer range. */
  function CheckedAdd(current: int, delta: int): (r: Option<int>)
    ensures r.Some? <==> Safe(current + delta)
    ensures r.Some? ==> r.value == current + delta
  {
    if Safe(current + delta) then Some(current + delta) else None
  }

  // ---------- The rows one event touches ----------

  predicate UsageTouched(m: map<UsageKey, UsageRow>, e: AnalyticsEvent) {
    UsageFits(AddedUsage(m, e)[UsageKeyOf(e)])
  }

  predicate FiltersTouched(m: map<FilterKey, FilterRow>, e: AnalyticsEvent) {
    var after := AddedFilters(m, e, e.evaluatedFilterIds);
    forall id :: id in e.evaluatedFilterIds ==> FilterKeyOf(e, id) in after && FilterFits(after[FilterKeyOf(e, id)])
  }

  predicate SessionTouched(m: map<SessionKey, SessionRow>, e: AnalyticsEvent) {
    SessionKeyOf(e).Some? ==> SessionFits(AddedSession(m, e)[SessionKeyOf(e).value])
  }

  predicate LlmTouched(m: map<LlmKey, LlmRow>, e: AnalyticsEvent) {
    LlmKeyOf(e).Some? ==> LlmFits(AddedLlm(m, e)[LlmKeyOf(e).value])
  }

  predicate DestinationTouched(m: map<DestinationKey, DestinationRow>, e: AnalyticsEvent) {
    DestinationKeyOf(e).Some? ==> DestinationFits(AddedDestination(m, e)[DestinationKeyOf(e).value])
  }

  predicate TouchedFit(r: Rollup, e: AnalyticsEvent) {
    && UsageTouched(r.usage, e) && FiltersTouched(r.filters, e) && SessionTouched(r.sessions, e)
    && LlmTouched(r.llm, e) && DestinationTouched(r.destinations, e)
  }

  lemma FiltersFitIff(m: map<FilterKey, FilterRow>, e: AnalyticsEvent)
    requires FiltersAllFit(m) && Distinct(e.evaluatedFilterIds)
    ensures FiltersAllFit(AddedFilters(m, e, e.evaluatedFilterIds)) <==> FiltersTouched(m, e)
  {
    var after := AddedFilters(m, e, e.evaluatedFilterIds);
    forall id | id in e.evaluatedFilterIds ensures FilterKeyOf(e, id) in after {
      AddedFiltersAt(m, e, e.evaluatedFilterIds, FilterKeyOf(e, id));
    }
    if FiltersTouched(m, e) {
      forall k | k in after ensures FilterFits(after[k]) {
        AddedFiltersAt(m, e, e.evaluatedFilterIds, k);
      }
    }
  }

  lemma UsageFitIff(m: map<UsageKey, UsageRow>, e: AnalyticsEvent)
    requires UsageAllFit(m)
    ensures UsageAllFit(AddedUsage(m, e)) <==> UsageTouched(m, e)
  {
    assert UsageKeyOf(e) in AddedUsage(m, e);
  }

  lemma SessionFitIff(m: map<SessionKey, SessionRow>, e: AnalyticsEvent)
    requires SessionsAllFit(m)
    ensures SessionsAllFit(AddedSession(m, e)) <==> SessionTouched(m, e)
  {
    assert SessionKeyOf(e).Some? ==> SessionKeyOf(e).value in AddedSession(m, e);
  }

  lemma LlmFitIff(m: map<LlmKey, LlmRow>, e: AnalyticsEvent)
    requires LlmAllFit(m)
    ensures LlmAllFit(AddedLlm(m, e)) <==> LlmTouched(m, e)
  {
    assert LlmKeyOf(e).Some? ==> LlmKeyOf(e).value in AddedLlm(m, e);
  }

  lemma DestinationFitIff(m: map<DestinationKey, DestinationRow>, e: AnalyticsEvent)
    requires DestinationsAllFit(m)
    ensures DestinationsAllFit(AddedDestination(m, e)) <==> DestinationTouched(m, e)
  {
    assert DestinationKeyOf(e).Some? ==> DestinationKeyOf(e).value in AddedDestination(m, e);
  }

  /** One more event leaves every counter within its limit exactly when the rows it touches stay so. */
  lemma FitsIff(r: Rollup, e: AnalyticsEvent)
    requires CountersFit(r) && Distinct(e.evaluatedFilterIds)
    ensures CountersFit(Added(r, e)) <==> Safe(r.sourceEventCount + 1) && TouchedFit(r, e)
  {
    UsageFitIff(r.usage, e);
    FiltersFitIff(r.filters, e);
    SessionFitIff(r.sessions, e);
    LlmFitIff(r.llm, e);
    DestinationFitIff(r.destinations, e);
  }

  /** The four counters of one filter row, as one evaluation of the filter moves them. */
  method BumpFilter(row: FilterRow, triggered: bool, denied: bool) returns (next: Option<FilterRow>)
    requires FilterFits(row)
    ensures
      var bumped := FilterRow(row.evaluated + 1, row.triggered + Flag(triggered), row.deniedEvaluated + Flag(denied),
                              row.deniedPositive + Flag(denied && triggered));
      next == if FilterFits(bumped) then Some(bumped) else None
  {
    var bumped := row;
    var evaluated := CheckedAdd(row.evaluated, 1);
    if evaluated.None? {
      return None;
    }
    bumped := bumped.(evaluated := evaluated.value);
    if triggered {
      var count := CheckedAdd(row.triggered, 1);
      if count.None? {
        return None;
      }
      bumped := bumped.(triggered := count.value);
    }
    if denied {
      var count := CheckedAdd(row.deniedEvaluated, 1);
      if count.None? {
        return None;
      }
      bumped := bumped.(deniedEvaluated := count.value);
      if triggered {
        var both := CheckedAdd(row.deniedPositive, 1);
        if both.None? {
          return None;
        }
        bumped := bumped.(deniedPositive := both.value);
      }
    }
    next := Some(bumped);
  }

  /** The verdict counters of a session row. */
  method BumpDecisions(row: SessionRow, e: AnalyticsEvent) returns (next: Option<SessionRow>)
    requires SessionFits(row)
    ensures
      var bumped := row.(decisions := row.decisions + Decided(e), queues := row.queues + Queued(e),
        denies := row.denies + DeniedDecision(e));
      next == if SessionFits(bumped) then Some(bumped) else None
  {
    var bumped := row;
    if e.recordClass == Decision {
      var decisions := CheckedAdd(row.decisions, 1);
      if decisions.None? {
        return None;
      }
      bumped := bumped.(decisions := decisions.value);
      if e.initialVerdict == Some(Queue) {
        var queues := CheckedAdd(row.queues, 1);
        if queues.None? {
          return None;
        }
        bumped := bumped.(queues := queues.value);
      }
      if e.initialVerdict == Some(Deny) {
        var denies := CheckedAdd(row.denies, 1);
        if denies.None? {
          return None;
        }
        bumped := bumped.(denies := denies.value);
      }
    }
    next := Some(bumped);
  }

  lemma SessionRowAdded(
    m: map<SessionKey, SessionRow>, e: AnalyticsEvent, k: SessionKey, row: SessionRow, next: SessionRow)
    requires SessionKeyOf(e) == Some(k) && next == NextSession(row, e)
    requires row == if k in m then m[k] else SessionRow(e.occurredAt, e.occurredAt, 0, 0, 0, 0, 0, 0, 0)
    ensures AddedSession(m, e) == m[k := next] && (SessionTouched(m, e) <==> SessionFits(next))
  {
  }

  lemma Overwritten(m: map<SessionKey, SessionRow>, k: SessionKey, a: SessionRow, b: SessionRow, c: SessionRow)
    ensures m[k := a][k := b][k := c] == m[k := c]
  {
  }

  /** Its LLM counters. */
  method BumpCalls(row: SessionRow, e: AnalyticsEvent) returns (next: Option<SessionRow>)
    requires SessionFits(row)
    ensures
      var bumped := row.(llmCalls := row.llmCalls + LlmCall(e), promptTokens := row.promptTokens + Prompt(e),
                         completionTokens := row.completionTokens + Completion(e),
                         costMicros := row.costMicros + Cost(e));
      next == if SessionFits(bumped) then Some(bumped) else None
  {
    if e.llmUsage.None? {
      return Some(row);
    }
    var calls := CheckedAdd(row.llmCalls, 1);
    var prompt := CheckedAdd(row.promptTokens, e.llmUsage.value.promptTokens);
    var completion := CheckedAdd(row.completionTokens, e.llmUsage.value.completionTokens);
    var cost := CheckedAdd(row.costMicros, e.llmUsage.value.costMicros);
    if calls.None? || prompt.None? || completion.None? || cost.None? {
      return None;
    }
    next := Some(row.(llmCalls := calls.value, promptTokens := prompt.value, completionTokens := completion.value,
      costMicros := cost.value));
  }

  class DayAccumulator {
    const day: int
    var digests: map<Uuid, AnalyticsEvent>
    var sourceEventCount: int
    var firstEventAt: Option<int>
    var lastEventAt: Option<int>
    var firstChainSequence: Option<nat>
    var lastChainSequence: Option<nat>
    var lastChainHash: Option<string>
    var usage: map<UsageKey, UsageRow>
    var filters: map<FilterKey, FilterRow>
    var sessions: map<SessionKey, SessionRow>
    var llm: map<LlmKey, LlmRow>
    var destinations: map<DestinationKey, DestinationRow>
    var security: map<Uuid, SecurityEvent>

    function State(): Rollup
      reads this
    {
      Rollup(day, digests, sourceEventCount, firstEventAt, lastEventAt, firstChainSequence, lastChainSequence,
             lastChainHash, usage, filters, sessions, llm, destinations, security)
    }

    ghost predicate Valid()
      reads this
    {
      && CountersFit(State()) && RowsFit(State())
      && forall id :: id in security ==> id in digests
    }

    constructor (day: int)
      ensures Valid() && State() == Fresh(day)
    {
      this.day := day;
      digests, sourceEventCount := map[], 0;
      firstEventAt, lastEventAt := None, None;
      firstChainSequence, lastChainSequence, lastChainHash := None, None, None;
      usage, filters, sessions, llm, destinations, security := map[], map[], map[], map[], map[], map[];
    }

    method AddUsage(e: AnalyticsEvent) returns (ok: bool)
      modifies this`usage
      ensures ok <==> UsageTouched(old(usage), e)
      ensures ok ==> usage == AddedUsage(old(usage), e)
    {
      var k := UsageKeyOf(e);
      var row := if k in usage then usage[k] else UsageRow(0, 0, e.occurredAt, e.occurredAt);
      usage := usage[k := row];
      var count := CheckedAdd(row.eventCount, 1);
      if count.None? {
        return false;
      }
      row := row.(eventCount := count.value, scoreSum := row.scoreSum + ScoreOf(e));
      usage := usage[k := row];
      if !Safe(row.scoreSum) {
        return false;
      }
      row := row.(firstEventAt := Min(row.firstEventAt, e.occurredAt),
        lastEventAt := Max(row.lastEventAt, e.occurredAt));
      usage := usage[k := row];
      ok := true;
    }

    method AddFilters(e: AnalyticsEvent) returns (ok: bool)
      requires ValidationError(e).None? && FiltersAllFit(filters)
      modifies this`filters
      ensures ok <==> FiltersTouched(old(filters), e)
      ensures ok ==> filters == AddedFilters(old(filters), e, e.evaluatedFilterIds)
    {
      ValidMeans(e);
      if e.recordClass != Decision {
        return true;
      }
      ValidIdsDistinct(e);
      ok, filters := BumpAll(filters, e);
    }

    method AddSession(e: AnalyticsEvent) returns (ok: bool)
      requires SessionsAllFit(sessions)
      modifies this`sessions
      ensures ok <==> SessionTouched(old(sessions), e)
      ensures ok ==> sessions == AddedSession(old(sessions), e)
    {
      var key := SessionKeyOf(e);
      if key.None? {
        return true;
      }
      var k := key.value;
      var row := if k in sessions then sessions[k] else SessionRow(e.occurredAt, e.occurredAt, 0, 0, 0, 0, 0, 0, 0);
      ghost var next := NextSession(row, e);
      SessionRowAdded(sessions, e, k, row, next);
      row := row.(firstEventAt := Min(row.firstEventAt, e.occurredAt),
        lastEventAt := Max(row.lastEventAt, e.occurredAt));
      sessions := sessions[k := row];
      var decided := BumpDecisions(row, e);
      if decided.None? {
        return false;
      }
      sessions := sessions[k := decided.value];
      var bumped := BumpCalls(decided.value, e);
      assert bumped == if SessionFits(next) then Some(next) else None;
      if bumped.None? {
        return false;
      }
      Overwritten(old(sessions), k, row, decided.value, bumped.value);
      sessions := sessions[k := bumped.value];
      ok := true;
    }

    method AddLlm(e: AnalyticsEvent) returns (ok: bool)
      modifies this`llm
      ensures ok <==> LlmTouched(old(llm), e)
      ensures ok ==> llm == AddedLlm(old(llm), e)
    {
      var key := LlmKeyOf(e);
      if key.None? {
        return true;
      }
      var k := key.value;
      var row := if k in llm then llm[k] else LlmRow(0, 0, 0, 0);
      llm := llm[k := row];
      var calls := CheckedAdd(row.calls, 1);
      var prompt := CheckedAdd(row.promptTokens, Prompt(e));
      var completion := CheckedAdd(row.completionTokens, Completion(e));
      var cost := CheckedAdd(row.costMicros, Cost(e));
      if calls.None? || prompt.None? || completion.None? || cost.None? {
        return false;
      }
      llm := llm[k := LlmRow(calls.value, prompt.value, completion.value, cost.value)];
      ok := true;
    }

    method AddDestination(e: AnalyticsEvent) returns (ok: bool)
      requires e.destination.Some? ==> e.initialVerdict.Some?
      modifies this`destinations
      ensures ok <==> DestinationTouched(old(destinations), e)
      ensures ok ==> destinations == AddedDestination(old(destinations), e)
    {
      var key := DestinationKeyOf(e);
      if key.None? {
        return true;
      }
      var k := key.value;
      var row := if k in destinations then destinations[k] else DestinationRow(0, e.occurredAt, e.occurredAt);
      destinations := destinations[k := row];
      var count := CheckedAdd(row.eventCount, 1);
      if count.None? {
        return false;
      }
      row := DestinationRow(count.value, Min(row.firstEventAt, e.occurredAt), Max(row.lastEventAt, e.occurredAt));
      destinations := destinations[k := row];
      ok := true;
    }

    /** The event's id is new, so its security projection never meets an earlier revision. */
    method AddSecurityEvent(e: AnalyticsEvent)
      requires e.eventId !in digests && forall id :: id in security ==> id in digests
      requires e.security.Some? ==> e.security.value.eventId == e.eventId
      modifies this`security
      ensures security == AddedSecurity(old(security), e)
    {
      if e.security.Some? {
        assert e.security.value.eventId !in security;
        security := security[e.security.value.eventId := e.security.value];
      }
    }

    method MergeBounds(e: AnalyticsEvent)
      modifies this`firstEventAt, this`lastEventAt
      ensures firstEventAt == Earliest(old(firstEventAt), e.occurredAt)
      ensures lastEventAt == Latest(old(lastEventAt), e.occurredAt)
    {
      firstEventAt := Some(if firstEventAt.Some? then Min(firstEventAt.value, e.occurredAt) else e.occurredAt);
      lastEventAt := Some(if lastEventAt.Some? then Max(lastEventAt.value, e.occurredAt) else e.occurredAt);
    }

    method MergeChain(e: AnalyticsEvent)
      modifies this`firstChainSequence, this`lastChainSequence, this`lastChainHash
      ensures firstChainSequence == LowestSequence(old(firstChainSequence), e)
      ensures lastChainSequence == HighestSequence(old(lastChainSequence), e)
      ensures lastChainHash == HighestHash(old(lastChainSequence), old(lastChainHash), e)
    {
      if e.chainSequence.Some? {
        var sequence := e.chainSequence.value;
        firstChainSequence := Some(
          if firstChainSequence.Some? && firstChainSequence.value <= sequence then firstChainSequence.value
          else sequence);
        if lastChainSequence.None? || sequence >= lastChainSequence.value {
          lastChainSequence, lastChainHash := Some(sequence), e.chainHash;
        }
      }
    }

    /** The family limits add up to the total limit, so the last check never fails. */
    method CheckRowLimits() returns (r: Result<(), AccumulatorError>)
      ensures r.Ok? <==> RowsFit(State())
      ensures r.Err? ==> r.error.RowLimit?
    {
      if |usage| > MAX_USAGE_ROWS {
        return Err(RowLimit(|usage|, MAX_USAGE_ROWS));
      }
      if |filters| > MAX_FILTER_ROWS {
        return Err(RowLimit(|filters|, MAX_FILTER_ROWS));
      }
      if |sessions| > MAX_SESSION_ROWS {
        return Err(RowLimit(|sessions|, MAX_SESSION_ROWS));
      }
      if |llm| > MAX_LLM_ROWS {
        return Err(RowLimit(|llm|, MAX_LLM_ROWS));
      }
      if |destinations| > MAX_DESTINATION_ROWS {
        return Err(RowLimit(|destinations|, MAX_DESTINATION_ROWS));
      }
      if TotalRows(State()) > MAX_TOTAL_ROLLUP_ROWS {
        assert false;
      }
      r := Ok(());
    }

    method AddCounts(e: AnalyticsEvent) returns (ok: bool)
      requires ValidationError(e).None? && FiltersAllFit(filters) && SessionsAllFit(sessions)
      modifies this`usage, this`filters, this`sessions
      ensures ok <==> UsageTouched(old(usage), e) && FiltersTouched(old(filters), e) && SessionTouched(old(sessions), e)
      ensures ok ==> usage == AddedUsage(old(usage), e)
      ensures ok ==> filters == AddedFilters(old(filters), e, e.evaluatedFilterIds)
      ensures ok ==> sessions == AddedSession(old(sessions), e)
    {
      ok := AddUsage(e);
      if !ok {
        return;
      }
      ok := AddFilters(e);
      if !ok {
        return;
      }
      ok := AddSession(e);
    }

    /** The six families in turn; the first counter that overflows ends the ingest. */
    method AddFamilies(e: AnalyticsEvent) returns (ok: bool)
      requires FiltersAllFit(filters) && SessionsAllFit(sessions) && forall id :: id in security ==> id in digests
      requires ValidationError(e).None? && e.eventId !in digests
      modifies this`usage, this`filters, this`sessions, this`llm, this`destinations, this`security
      ensures ok <==> TouchedFit(old(State()), e)
      ensures ok ==> usage == AddedUsage(old(usage), e)
      ensures ok ==> filters == AddedFilters(old(filters), e, e.evaluatedFilterIds)
      ensures ok ==> sessions == AddedSession(old(sessions), e) && llm == AddedLlm(old(llm), e)
      ensures ok ==> destinations == AddedDestination(old(destinations), e)
      ensures ok ==> security == AddedSecurity(old(security), e)
    {
      ok := AddCounts(e);
      if !ok {
        return;
      }
      ok := AddLlm(e);
      if !ok {
        return;
      }
      ok := AddDestination(e);
      if !ok {
        return;
      }
      AddSecurityEvent(e);
    }

    method AddHeader(e: AnalyticsEvent) returns (ok: bool)
      modifies this`sourceEventCount, this`firstEventAt, this`lastEventAt
      modifies this`firstChainSequence, this`lastChainSequence, this`lastChainHash, this`digests
      ensures ok <==> Safe(old(sourceEventCount) + 1)
      ensures ok ==> sourceEventCount == old(sourceEventCount) + 1 && digests == old(digests)[e.eventId := e]
      ensures ok ==> firstEventAt == Earliest(old(firstEventAt), e.occurredAt)
      ensures ok ==> lastEventAt == Latest(old(lastEventAt), e.occurredAt)
      ensures ok ==> firstChainSequence == LowestSequence(old(firstChainSequence), e)
      ensures ok ==> lastChainSequence == HighestSequence(old(lastChainSequence), e)
      ensures ok ==> lastChainHash == HighestHash(old(lastChainSequence), old(lastChainHash), e)
    {
      var count := CheckedAdd(sourceEventCount, 1);
      if count.None? {
        return false;
      }
      sourceEventCount := count.value;
      MergeBounds(e);
      MergeChain(e);
      digests := digests[e.eventId := e];
      ok := true;
    }

    /** Everything a new event adds, up to the row limits. */
    method Add(e: AnalyticsEvent) returns (ok: bool)
      requires FiltersAllFit(filters) && SessionsAllFit(sessions) && forall id :: id in security ==> id in digests
      requires ValidationError(e).None? && e.eventId !in digests
      modifies this
      ensures ok <==> TouchedFit(old(State()), e) && Safe(old(sourceEventCount) + 1)
      ensures ok ==> State() == Added(old(State()), e) && forall id :: id in security ==> id in digests
    {
      ok := AddFamilies(e);
      if ok {
        ok := AddHeader(e);
      }
    }

    /** A new event is added unless a counter or a row limit stands in the way. */
    method AddNew(e: AnalyticsEvent) returns (r: Result<bool, AccumulatorError>)
      requires Valid() && ValidationError(e).None? && e.eventId !in digests
      modifies this
      ensures r.Ok? <==> CountersFit(Added(old(State()), e)) && RowsFit(Added(old(State()), e))
      ensures r.Ok? ==> Valid() && State() == Added(old(State()), e) && r.value
      ensures r.Err? ==> r.error.CounterOverflow? || r.error.RowLimit?
    {
      ValidIdsDistinct(e);
      FitsIff(State(), e);
      var added := Add(e);
      if !added {
        return Err(CounterOverflow);
      }
      var limits := CheckRowLimits();
      if limits.Err? {
        return Err(limits.error);
      }
      r := Ok(true);
    }

    /** An identical replay changes nothing, different content under one id is a conflict, and a new
        event is added to every rollup it belongs to unless a counter or a row limit stands in the way. */
    method Ingest(e: AnalyticsEvent) returns (r: Result<bool, AccumulatorError>)
      requires Valid()
      modifies this
      ensures r.Ok? <==> Accept(old(State()), e).Some?
      ensures r.Ok? ==> Valid() && State() == Accept(old(State()), e).value && r.value == (e.eventId !in old(digests))
      ensures DayOf(e.occurredAt) != day ==> r == Err(WrongDay(e.eventId, day, DayOf(e.occurredAt)))
      ensures DayOf(e.occurredAt) == day && ValidationError(e).Some? ==> r == Err(ValidationError(e).value)
      ensures r.Err? && !r.error.CounterOverflow? && !r.error.RowLimit? ==> State() == old(State())
    {
      if DayOf(e.occurredAt) != day {
        return Err(WrongDay(e.eventId, day, DayOf(e.occurredAt)));
      }
      var invalid := ValidateEvent(e);
      if invalid.Some? {
        return Err(invalid.value);
      }
      if e.eventId in digests {
        if digests[e.eventId] == e {
          return Ok(false);
        }
        return Err(EventConflict(e.eventId));
      }
      r := AddNew(e);
    }
  }

  predicate FitUpTo(target: map<FilterKey, FilterRow>, e: AnalyticsEvent, ids: seq<string>, n: nat)
    requires n <= |ids|
  {
    forall j :: 0 <= j < n ==> FilterKeyOf(e, ids[j]) in target && FilterFits(target[FilterKeyOf(e, ids[j])])
  }

  /** The loop over the evaluated filters; it stops at the first counter that overflows. */
  method BumpAll(m: map<FilterKey, FilterRow>, e: AnalyticsEvent) returns (ok: bool, after: map<FilterKey, FilterRow>)
    requires Distinct(e.evaluatedFilterIds) && FiltersAllFit(m)
    ensures ok <==> FiltersTouched(m, e)
    ensures ok ==> after == AddedFilters(m, e, e.evaluatedFilterIds)
  {
    var ids := e.evaluatedFilterIds;
    var positive := PositiveIds(e);
    var denied := e.initialVerdict == Some(Deny);
    ghost var target := AddedFilters(m, e, ids);
    after := m;
    assert ids[0..] == ids;
    for i := 0 to |ids|
      invariant AddedFilters(after, e, ids[i..]) == target && FiltersAllFit(after)
      invariant FitUpTo(target, e, ids, i)
    {
      var k := FilterKeyOf(e, ids[i]);
      var row := if k in after then after[k] else FilterRow(0, 0, 0, 0);
      ghost var next := NextFilter(row, e, ids[i]);
      FilterStep(after, e, ids, i, k, row, next, target);
      var bumped := BumpFilter(row, ids[i] in positive, denied);
      assert bumped == if FilterFits(next) then Some(next) else None;
      if bumped.None? {
        return false, after[k := row];
      }
      after := after[k := bumped.value];
    }
    assert ids[|ids|..] == [];
    ok := true;
  }

  method PositiveIds(e: AnalyticsEvent) returns (ids: set<string>)
    ensures forall id :: id in ids <==> Triggered(e, id)
  {
    ids := {};
    var cs := e.positiveFilterContributions;
    for i := 0 to |cs|
      invariant forall id :: id in ids <==> exists k :: 0 <= k < i && cs[k].filterId == id
    {
      ids := ids + {cs[i].filterId};
    }
  }

  /** The next id's row in the final map is its bumped row, and bumping it is the next step. */
  lemma FilterStep(
    m: map<FilterKey, FilterRow>, e: AnalyticsEvent, ids: seq<string>, i: nat,
    k: FilterKey, row: FilterRow, bumped: FilterRow, target: map<FilterKey, FilterRow>)
    requires Distinct(ids) && i < |ids| && k == FilterKeyOf(e, ids[i])
    requires row == (if k in m then m[k] else FilterRow(0, 0, 0, 0)) && bumped == NextFilter(row, e, ids[i])
    requires target == AddedFilters(m, e, ids[i..])
    ensures target == AddedFilters(m[k := bumped], e, ids[i + 1..]) && k in target && target[k] == bumped
    ensures FiltersAllFit(m) && FilterFits(bumped) ==> FiltersAllFit(m[k := bumped])
    ensures FilterFits(bumped) && FitUpTo(target, e, ids, i) ==> FitUpTo(target, e, ids, i + 1)
  {
    assert ids[i..][0] == ids[i] && ids[i..][1..] == ids[i + 1..];
    DistinctSuffix(ids, i);
    AddedFiltersAt(m, e, ids[i..], FilterKeyOf(e, ids[i]));
  }

  lemma DistinctSuffix(ids: seq<string>, i: nat)
    requires Distinct(ids) && i <= |ids|
    ensures Distinct(ids[i..])
  {
  }

  /** The checks in the order they are made. */
  method ValidateEvent(e: AnalyticsEvent) returns (error: Option<AccumulatorError>)
    ensures error == ValidationError(e)
  {
    if e.scoreMicros.Some? && !(-MAX_ABS_SCORE_MICROS <= e.scoreMicros.value <= MAX_ABS_SCORE_MICROS) {
      return Some(ScoreOutOfRange(e.eventId));
    }
    if e.recordClass == Decision {
      if e.initialVerdict.None? || e.scoreMicros.None? {
        return Some(IncompleteDecision(e.eventId));
      }
      if e.filterSetVersion.None? || e.filterSetVersion.value == 0 {
        return Some(MissingFilterSetVersion(e.eventId));
      }
      var canonical := CanonicalFilterIds(e.evaluatedFilterIds);
      if canonical.Err? {
        return Some(Normalization(canonical.error));
      }
      if canonical.value != e.evaluatedFilterIds {
        return Some(NonCanonicalFilterSet(e.eventId));
      }
      var bad := CheckContributions(e.positiveFilterContributions, e.evaluatedFilterIds);
      if bad.Some? {
        return Some(InvalidFilterContribution(e.eventId, bad.value));
      }
    } else if e.filterSetVersion.Some? || |e.evaluatedFilterIds| > 0 || |e.positiveFilterContributions| > 0 {
      return Some(UnexpectedFilterData(e.eventId));
    }
    if e.recordClass == LlmUsage && e.llmUsage.None? {
      return Some(MissingLlmUsage(e.eventId));
    }
    if e.recordClass != LlmUsage && e.llmUsage.Some? {
      return Some(UnexpectedLlmUsage(e.eventId));
    }
    if e.destination.Some? && e.initialVerdict.None? {
      return Some(DestinationWithoutVerdict(e.eventId));
    }
    if e.security.Some? && !SecurityMatches(e, e.security.value) {
      return Some(SecurityEventMismatch(e.eventId));
    }
    error := None;
  }
}
