/** The analytics event of crates/grith-analytics/src/contract.rs and its validation in
    accumulator.rs. Times are microsecond counts, the resolution at which events are hashed. */
module Events {
  import opened Basics
  import opened Contract
  import opened Records
  import opened Sorting
  import opened Normalize

  const MAX_ABS_SCORE_MICROS := 100_000_000
  const MICROS_PER_HOUR := 3_600_000_000
  const MICROS_PER_DAY := 86_400_000_000

  datatype FilterContribution = FilterContribution(filterId: string, scoreMicros: int)

  datatype LlmUsageEvent = LlmUsageEvent(
    provider: string, model: string, promptTokens: nat, completionTokens: nat, costMicros: nat,
    currency: string, priceSource: string, pricingVersion: string)

  datatype DestinationEvent = DestinationEvent(
    kind: DestinationKind, destinationHmac: string, hmacKeyVersion: nat, approvedDisplayLabel: Option<string>)

  datatype SecurityResolution = SecurityResolution(
    status: ResolutionStatus, resolvedAt: Option<int>, resolutionCode: Option<string>)

  datatype SecurityEvent = SecurityEvent(
    eventId: Uuid, eventRevision: nat, occurredAt: int, eventType: SecurityEventType,
    initialVerdict: Option<Verdict>, resolution: Option<SecurityResolution>, sessionId: Option<Uuid>,
    project: string, profileId: string, supervisedTool: string, category: Category,
    scoreMicros: Option<int>, topFilterIds: seq<string>, enforcementOutcomeCode: Option<string>,
    gapCount: Option<nat>, chainSequence: Option<nat>, chainHash: Option<string>)

  datatype AnalyticsEvent = AnalyticsEvent(
    eventId: Uuid, occurredAt: int, sessionId: Option<Uuid>,
    project: string, profileId: string, configHash: string, supervisedTool: string,
    completeness: CompletenessTier, recordClass: RecordClass, category: Category,
    initialVerdict: Option<Verdict>, scoreMicros: Option<int>, filterSetVersion: Option<nat>,
    evaluatedFilterIds: seq<string>, positiveFilterContributions: seq<FilterContribution>,
    llmUsage: Option<LlmUsageEvent>, destination: Option<DestinationEvent>, security: Option<SecurityEvent>,
    chainSequence: Option<nat>, chainHash: Option<string>)

  datatype AccumulatorError =
    | WrongDay(eventId: Uuid, expected: int, actual: int)
    | EventConflict(eventId: Uuid)
    | IncompleteDecision(eventId: Uuid)
    | UnexpectedFilterData(eventId: Uuid)
    | MissingFilterSetVersion(eventId: Uuid)
    | NonCanonicalFilterSet(eventId: Uuid)
    | InvalidFilterContribution(eventId: Uuid, filterId: string)
    | ScoreOutOfRange(eventId: Uuid)
    | MissingLlmUsage(eventId: Uuid)
    | UnexpectedLlmUsage(eventId: Uuid)
    | DestinationWithoutVerdict(eventId: Uuid)
    | SecurityEventMismatch(eventId: Uuid)
    | CounterOverflow
    | RowLimit(rows: nat, limit: nat)
    | Normalization(cause: NormalizationError)

  function DayOf(at: int): int { at / MICROS_PER_DAY }

  function HourStart(at: int): int { at / MICROS_PER_HOUR * MICROS_PER_HOUR }

  function ScoreOf(e: AnalyticsEvent): int { if e.scoreMicros.Some? then e.scoreMicros.value else 0 }

  predicate IsDeny(e: AnalyticsEvent) { e.initialVerdict == Some(Deny) }

  /** Whether a filter contributed a positive score. */
  predicate Triggered(e: AnalyticsEvent, id: string) {
    exists i :: 0 <= i < |e.positiveFilterContributions| && e.positiveFilterContributions[i].filterId == id
  }

  // ---------- Validation ----------

  predicate BadContribution(c: FilterContribution, evaluated: seq<string>, previous: Option<string>) {
    || c.scoreMicros <= 0
    || c.scoreMicros > MAX_ABS_SCORE_MICROS
    || c.filterId !in evaluated
    || (previous.Some? && StringLeq(c.filterId, previous.value))
  }

  /** The first contribution out of the frozen form. */
  function FirstBad(cs: seq<FilterContribution>, evaluated: seq<string>, previous: Option<string>): Option<string> {
    if cs == [] then None
    else if BadContribution(cs[0], evaluated, previous) then Some(cs[0].filterId)
    else FirstBad(cs[1..], evaluated, Some(cs[0].filterId))
  }

  function DecisionError(e: AnalyticsEvent): Option<AccumulatorError> {
    if e.initialVerdict.None? || e.scoreMicros.None? then Some(IncompleteDecision(e.eventId))
    else if e.filterSetVersion.None? || e.filterSetVersion.value == 0 then Some(MissingFilterSetVersion(e.eventId))
    else FilterDataError(e, CanonicalFilterIds(e.evaluatedFilterIds),
           FirstBad(e.positiveFilterContributions, e.evaluatedFilterIds, None))
  }

  /** ... given the canonical form of the evaluated filters and the first bad contribution. */
  function FilterDataError(
    e: AnalyticsEvent, canonical: Result<seq<string>, NormalizationError>, bad: Option<string>)
    : Option<AccumulatorError>
  {
    match canonical
    case Err(error) => Some(Normalization(error))
    case Ok(ids) =>
      if ids != e.evaluatedFilterIds then Some(NonCanonicalFilterSet(e.eventId))
      else match bad case Some(id) => Some(InvalidFilterContribution(e.eventId, id)) case None => None
  }

  function ClassError(e: AnalyticsEvent): Option<AccumulatorError> {
    if e.recordClass == Decision then DecisionError(e)
    else if e.filterSetVersion.Some? || e.evaluatedFilterIds != [] || e.positiveFilterContributions != [] then
      Some(UnexpectedFilterData(e.eventId))
    else None
  }

  function ValidationError(e: AnalyticsEvent): Option<AccumulatorError> {
    if e.scoreMicros.Some? && !(-MAX_ABS_SCORE_MICROS <= e.scoreMicros.value <= MAX_ABS_SCORE_MICROS) then
      Some(ScoreOutOfRange(e.eventId))
    else if ClassError(e).Some? then ClassError(e)
    else if e.recordClass == LlmUsage && e.llmUsage.None? then Some(MissingLlmUsage(e.eventId))
    else if e.recordClass != LlmUsage && e.llmUsage.Some? then Some(UnexpectedLlmUsage(e.eventId))
    else if e.destination.Some? && e.initialVerdict.None? then Some(DestinationWithoutVerdict(e.eventId))
    else if e.security.Some? && !SecurityMatches(e, e.security.value) then Some(SecurityEventMismatch(e.eventId))
    else None
  }

  predicate SecurityMatches(e: AnalyticsEvent, s: SecurityEvent) {
    s.eventId == e.eventId && s.occurredAt == e.occurredAt && s.initialVerdict == e.initialVerdict
  }

  /** What validation guarantees to the counters. */
  lemma ValidMeans(e: AnalyticsEvent)
    requires ValidationError(e).None?
    ensures e.recordClass == Decision ==> e.initialVerdict.Some? && e.scoreMicros.Some? && e.filterSetVersion.Some?
    ensures CanonicalIds(e.evaluatedFilterIds)
    ensures e.recordClass != Decision ==> e.evaluatedFilterIds == []
    ensures forall id :: Triggered(e, id) ==> id in e.evaluatedFilterIds
    ensures e.llmUsage.Some? <==> e.recordClass == LlmUsage
    ensures e.destination.Some? ==> e.initialVerdict.Some?
  {
    CanonicalMeans(e.evaluatedFilterIds);
    CanonicalMeans([]);
    GoodContributions(e.positiveFilterContributions, e.evaluatedFilterIds, None);
  }

  lemma {:induction false} GoodContributions(
    cs: seq<FilterContribution>, evaluated: seq<string>, previous: Option<string>)
    requires FirstBad(cs, evaluated, previous).None?
    ensures forall i :: 0 <= i < |cs| ==> cs[i].filterId in evaluated
  {
    if cs != [] {
      GoodContributions(cs[1..], evaluated, Some(cs[0].filterId));
      assert cs == [cs[0]] + cs[1..];
    }
  }

  /** In a prefix without a bad contribution the last id is the greatest, so an id seen before is
      not above it. */
  lemma {:induction false} SeenIsBelow(
    cs: seq<FilterContribution>, evaluated: seq<string>, previous: Option<string>, k: nat)
    requires FirstBad(cs, evaluated, previous).None? && k < |cs|
    ensures StringLeq(cs[k].filterId, cs[|cs| - 1].filterId)
    ensures previous.Some? ==> StringLeq(previous.value, cs[|cs| - 1].filterId)
  {
    var first := cs[0].filterId;
    if previous.Some? {
      StringLeqTotal(previous.value, first);
    }
    if |cs| > 1 {
      SeenIsBelow(cs[1..], evaluated, Some(first), if k > 0 then k - 1 else 0);
      if previous.Some? {
        StringLeqTransitive(previous.value, first, cs[|cs| - 1].filterId);
      }
    } else {
      StringLeqTotal(first, first);
    }
  }

  lemma {:induction false} FirstBadSnoc(
    cs: seq<FilterContribution>, c: FilterContribution, evaluated: seq<string>, previous: Option<string>)
    requires FirstBad(cs, evaluated, previous).None?
    ensures
      var last := if cs == [] then previous else Some(cs[|cs| - 1].filterId);
      FirstBad(cs + [c], evaluated, previous) == if BadContribution(c, evaluated, last) then Some(c.filterId) else None
  {
    if cs == [] {
      assert cs + [c] == [c] && [c][1..] == [];
    } else {
      FirstBadSnoc(cs[1..], c, evaluated, Some(cs[0].filterId));
      assert (cs + [c])[1..] == cs[1..] + [c];
    }
  }

  lemma {:induction false} FirstBadPrefix(
    a: seq<FilterContribution>, b: seq<FilterContribution>, evaluated: seq<string>, previous: Option<string>)
    requires FirstBad(a, evaluated, previous).Some?
    ensures FirstBad(a + b, evaluated, previous) == FirstBad(a, evaluated, previous)
  {
    if !BadContribution(a[0], evaluated, previous) {
      FirstBadPrefix(a[1..], b, evaluated, Some(a[0].filterId));
      assert (a + b)[1..] == a[1..] + b;
    }
  }

  /** The loop over the contributions, with its set of ids seen so far. */
  method CheckContributions(cs: seq<FilterContribution>, evaluated: seq<string>) returns (bad: Option<string>)
    ensures bad == FirstBad(cs, evaluated, None)
  {
    var seen: set<string> := {};
    var previous: Option<string> := None;
    for i := 0 to |cs|
      invariant FirstBad(cs[..i], evaluated, None).None?
      invariant previous == if i == 0 then None else Some(cs[i - 1].filterId)
      invariant forall id :: id in seen <==> exists k :: 0 <= k < i && cs[k].filterId == id
    {
      var c := cs[i];
      assert cs[..i + 1] == cs[..i] + [c] && cs == cs[..i + 1] + cs[i + 1..];
      FirstBadSnoc(cs[..i], c, evaluated, None);
      if c.filterId in seen {
        var k :| 0 <= k < i && cs[k].filterId == c.filterId;
        SeenIsBelow(cs[..i], evaluated, None, k);
      }
      if c.scoreMicros <= 0 || c.scoreMicros > MAX_ABS_SCORE_MICROS || c.filterId !in evaluated
         || c.filterId in seen || (previous.Some? && StringLeq(c.filterId, previous.value)) {
        FirstBadPrefix(cs[..i + 1], cs[i + 1..], evaluated, None);
        return Some(c.filterId);
      }
      seen := seen + {c.filterId};
      previous := Some(c.filterId);
    }
    assert cs[..|cs|] == cs;
    bad := None;
  }
}
