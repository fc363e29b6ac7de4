/** The rollups of crates/grith-analytics/src/accumulator.rs twice over: as what one more event does
    to them, and as a group-by over the set of events seen. */
module GroupBy {
  import opened Basics
  import opened Contract
  import opened Records
  import opened Sorting
  import opened Normalize
  import opened Totals
  import opened Events

  // ---------- Keys and rows ----------

  datatype UsageKey = UsageKey(
    bucketStart: int, project: string, profileId: string, configHash: string, supervisedTool: string,
    recordClass: RecordClass, category: Category, verdict: Option<Verdict>, scoreBucket: Option<nat>)

  datatype FilterKey = FilterKey(
    project: string, profileId: string, configHash: string, filterSetVersion: nat, filterId: string)

  datatype SessionKey = SessionKey(
    sessionId: Uuid, project: string, profileId: string, configHash: string, supervisedTool: string)

  datatype LlmKey = LlmKey(
    project: string, provider: string, model: string, currency: string, priceSource: string, pricingVersion: string)

  datatype DestinationKey = DestinationKey(
    kind: DestinationKind, destinationHmac: string, hmacKeyVersion: nat,
    approvedDisplayLabel: Option<string>, verdict: Verdict)

  datatype UsageRow = UsageRow(eventCount: int, scoreSum: int, firstEventAt: int, lastEventAt: int)

  datatype FilterRow = FilterRow(evaluated: int, triggered: int, deniedEvaluated: int, deniedPositive: int)

  datatype SessionRow = SessionRow(
    firstEventAt: int, lastEventAt: int, decisions: int, queues: int, denies: int,
    llmCalls: int, promptTokens: int, completionTokens: int, costMicros: int)

  datatype LlmRow = LlmRow(calls: int, promptTokens: int, completionTokens: int, costMicros: int)

  datatype DestinationRow = DestinationRow(eventCount: int, firstEventAt: int, lastEventAt: int)

  function UsageKeyOf(e: AnalyticsEvent): UsageKey {
    UsageKey(HourStart(e.occurredAt), e.project, e.profileId, e.configHash, e.supervisedTool, e.recordClass, e.category,
             e.initialVerdict, if e.scoreMicros.Some? then Some(ScoreBin(e.scoreMicros.value)) else None)
  }

  function FilterKeyOf(e: AnalyticsEvent, id: string): FilterKey {
    FilterKey(e.project, e.profileId, e.configHash,
              if e.filterSetVersion.Some? then e.filterSetVersion.value else 0, id)
  }

  function SessionKeyOf(e: AnalyticsEvent): Option<SessionKey> {
    match e.sessionId
    case None => None
    case Some(id) => Some(SessionKey(id, e.project, e.profileId, e.configHash, e.supervisedTool))
  }

  function LlmKeyOf(e: AnalyticsEvent): Option<LlmKey> {
    match e.llmUsage
    case None => None
    case Some(l) => Some(LlmKey(e.project, l.provider, l.model, l.currency, l.priceSource, l.pricingVersion))
  }

  function DestinationKeyOf(e: AnalyticsEvent): Option<DestinationKey> {
    if e.destination.None? || e.initialVerdict.None? then None
    else
      var d := e.destination.value;
      Some(DestinationKey(d.kind, d.destinationHmac, d.hmacKeyVersion, d.approvedDisplayLabel, e.initialVerdict.value))
  }

  // ---------- One more event ----------

  function Flag(b: bool): int { if b then 1 else 0 }

  function One(e: AnalyticsEvent): int { 1 }

  function At(e: AnalyticsEvent): int { e.occurredAt }

  function Prompt(e: AnalyticsEvent): int { if e.llmUsage.Some? then e.llmUsage.value.promptTokens else 0 }

  function Completion(e: AnalyticsEvent): int { if e.llmUsage.Some? then e.llmUsage.value.completionTokens else 0 }

  function Cost(e: AnalyticsEvent): int { if e.llmUsage.Some? then e.llmUsage.value.costMicros else 0 }

  function Decided(e: AnalyticsEvent): int { Flag(e.recordClass == Decision) }

  function Queued(e: AnalyticsEvent): int { Flag(e.recordClass == Decision && e.initialVerdict == Some(Queue)) }

  function DeniedDecision(e: AnalyticsEvent): int { Flag(e.recordClass == Decision && IsDeny(e)) }

  function LlmCall(e: AnalyticsEvent): int { Flag(e.llmUsage.Some?) }

  function NextUsage(row: UsageRow, e: AnalyticsEvent): UsageRow {
    UsageRow(row.eventCount + 1, row.scoreSum + ScoreOf(e), Min(row.firstEventAt, e.occurredAt),
      Max(row.lastEventAt, e.occurredAt))
  }

  function AddedUsage(m: map<UsageKey, UsageRow>, e: AnalyticsEvent): map<UsageKey, UsageRow> {
    var k := UsageKeyOf(e);
    m[k := NextUsage(if k in m then m[k] else UsageRow(0, 0, e.occurredAt, e.occurredAt), e)]
  }

  function NextFilter(row: FilterRow, e: AnalyticsEvent, id: string): FilterRow {
    FilterRow(row.evaluated + 1, row.triggered + Flag(Triggered(e, id)),
              row.deniedEvaluated + Flag(IsDeny(e)), row.deniedPositive + Flag(IsDeny(e) && Triggered(e, id)))
  }

  function AddedFilter(m: map<FilterKey, FilterRow>, e: AnalyticsEvent, id: string): map<FilterKey, FilterRow> {
    var k := FilterKeyOf(e, id);
    m[k := NextFilter(if k in m then m[k] else FilterRow(0, 0, 0, 0), e, id)]
  }

  function AddedFilters(m: map<FilterKey, FilterRow>, e: AnalyticsEvent, ids: seq<string>): map<FilterKey, FilterRow>
    decreases |ids|
  {
    if ids == [] then m else AddedFilters(AddedFilter(m, e, ids[0]), e, ids[1..])
  }

  function NextSession(row: SessionRow, e: AnalyticsEvent): SessionRow {
    SessionRow(Min(row.firstEventAt, e.occurredAt), Max(row.lastEventAt, e.occurredAt),
               row.decisions + Decided(e), row.queues + Queued(e), row.denies + DeniedDecision(e),
               row.llmCalls + LlmCall(e), row.promptTokens + Prompt(e), row.completionTokens + Completion(e),
               row.costMicros + Cost(e))
  }

  function AddedSession(m: map<SessionKey, SessionRow>, e: AnalyticsEvent): map<SessionKey, SessionRow> {
    match SessionKeyOf(e)
    case None => m
    case Some(k) =>
      m[k := NextSession(if k in m then m[k] else SessionRow(e.occurredAt, e.occurredAt, 0, 0, 0, 0, 0, 0, 0), e)]
  }

  function NextLlm(row: LlmRow, e: AnalyticsEvent): LlmRow {
    LlmRow(row.calls + 1, row.promptTokens + Prompt(e), row.completionTokens + Completion(e), row.costMicros + Cost(e))
  }

  function AddedLlm(m: map<LlmKey, LlmRow>, e: AnalyticsEvent): map<LlmKey, LlmRow> {
    match LlmKeyOf(e)
    case None => m
    case Some(k) => m[k := NextLlm(if k in m then m[k] else LlmRow(0, 0, 0, 0), e)]
  }

  function NextDestination(row: DestinationRow, e: AnalyticsEvent): DestinationRow {
    DestinationRow(row.eventCount + 1, Min(row.firstEventAt, e.occurredAt), Max(row.lastEventAt, e.occurredAt))
  }

  function AddedDestination(
    m: map<DestinationKey, DestinationRow>, e: AnalyticsEvent): map<DestinationKey, DestinationRow>
  {
    match DestinationKeyOf(e)
    case None => m
    case Some(k) => m[k := NextDestination(if k in m then m[k] else DestinationRow(0, e.occurredAt, e.occurredAt), e)]
  }

  // ---------- The group-by ----------

  function When(p: AnalyticsEvent -> bool, f: AnalyticsEvent -> int): AnalyticsEvent -> int {
    (e: AnalyticsEvent) => if p(e) then f(e) else 0
  }

  /** The sum of a measure over the events of one group. */
  ghost function Sum(s: set<AnalyticsEvent>, p: AnalyticsEvent -> bool, f: AnalyticsEvent -> int): int {
    Total(s, When(p, f))
  }

  lemma SumAdd(s: set<AnalyticsEvent>, e: AnalyticsEvent, p: AnalyticsEvent -> bool, f: AnalyticsEvent -> int)
    requires e !in s
    ensures Sum(s + {e}, p, f) == Sum(s, p, f) + if p(e) then f(e) else 0
    ensures (forall x :: x in s ==> !p(x)) ==> Sum(s, p, f) == 0
  {
    TotalAdd(s, e, When(p, f));
    if forall x :: x in s ==> !p(x) {
      TotalBound(s, When(p, f), 0, When(p, f));
      TotalBound(s, (x: AnalyticsEvent) => -When(p, f)(x), 0, When(p, f));
      TotalNegate(s, When(p, f));
    }
  }

  lemma {:induction false} TotalNegate(s: set<AnalyticsEvent>, f: AnalyticsEvent -> int)
    ensures Total(s, (x: AnalyticsEvent) => -f(x)) == -Total(s, f)
    decreases |s|
  {
    var g := (x: AnalyticsEvent) => -f(x);
    if s != {} {
      var x :| x in s;
      TotalWithout(s, x, f);
      TotalWithout(s, x, g);
      TotalNegate(s - {x}, f);
    }
  }

  function InUsage(k: UsageKey): AnalyticsEvent -> bool { (e: AnalyticsEvent) => UsageKeyOf(e) == k }

  function InFilter(k: FilterKey): AnalyticsEvent -> bool {
    (e: AnalyticsEvent) => k.filterId in e.evaluatedFilterIds && FilterKeyOf(e, k.filterId) == k
  }

  function InSession(k: SessionKey): AnalyticsEvent -> bool { (e: AnalyticsEvent) => SessionKeyOf(e) == Some(k) }

  function InLlm(k: LlmKey): AnalyticsEvent -> bool { (e: AnalyticsEvent) => LlmKeyOf(e) == Some(k) }

  function InDestination(k: DestinationKey): AnalyticsEvent -> bool {
    (e: AnalyticsEvent) => DestinationKeyOf(e) == Some(k)
  }

  ghost predicate Occurs(s: set<AnalyticsEvent>, p: AnalyticsEvent -> bool) { exists e :: e in s && p(e) }

  ghost predicate UsageRowIs(s: set<AnalyticsEvent>, p: AnalyticsEvent -> bool, row: UsageRow) {
    && row.eventCount == Sum(s, p, One) && row.scoreSum == Sum(s, p, ScoreOf)
    && Spans(s, p, At, row.firstEventAt, row.lastEventAt)
  }

  ghost predicate UsageAt(s: set<AnalyticsEvent>, m: map<UsageKey, UsageRow>, k: UsageKey) {
    (k in m <==> Occurs(s, InUsage(k))) && (k in m ==> UsageRowIs(s, InUsage(k), m[k]))
  }

  ghost predicate UsageIs(s: set<AnalyticsEvent>, m: map<UsageKey, UsageRow>) { forall k :: UsageAt(s, m, k) }

  function TriggerOf(id: string): AnalyticsEvent -> int { (e: AnalyticsEvent) => Flag(Triggered(e, id)) }

  function DeniedFlag(e: AnalyticsEvent): int { Flag(IsDeny(e)) }

  function DeniedTriggerOf(id: string): AnalyticsEvent -> int {
    (e: AnalyticsEvent) => Flag(IsDeny(e) && Triggered(e, id))
  }

  ghost predicate FilterRowIs(s: set<AnalyticsEvent>, p: AnalyticsEvent -> bool, id: string, row: FilterRow) {
    && row.evaluated == Sum(s, p, One) && row.triggered == Sum(s, p, TriggerOf(id))
    && row.deniedEvaluated == Sum(s, p, DeniedFlag) && row.deniedPositive == Sum(s, p, DeniedTriggerOf(id))
  }

  ghost predicate FilterAt(s: set<AnalyticsEvent>, m: map<FilterKey, FilterRow>, k: FilterKey) {
    (k in m <==> Occurs(s, InFilter(k))) && (k in m ==> FilterRowIs(s, InFilter(k), k.filterId, m[k]))
  }

  ghost predicate FiltersAre(s: set<AnalyticsEvent>, m: map<FilterKey, FilterRow>) { forall k :: FilterAt(s, m, k) }

  ghost predicate SessionRowIs(s: set<AnalyticsEvent>, p: AnalyticsEvent -> bool, row: SessionRow) {
    Spans(s, p, At, row.firstEventAt, row.lastEventAt) && SessionSumsAre(s, p, row)
  }

  ghost predicate SessionSumsAre(s: set<AnalyticsEvent>, p: AnalyticsEvent -> bool, row: SessionRow) {
    && row.decisions == Sum(s, p, Decided) && row.queues == Sum(s, p, Queued) && row.denies == Sum(s, p, DeniedDecision)
    && row.llmCalls == Sum(s, p, LlmCall) && row.promptTokens == Sum(s, p, Prompt)
    && row.completionTokens == Sum(s, p, Completion) && row.costMicros == Sum(s, p, Cost)
  }

  ghost predicate SessionAt(s: set<AnalyticsEvent>, m: map<SessionKey, SessionRow>, k: SessionKey) {
    (k in m <==> Occurs(s, InSession(k))) && (k in m ==> SessionRowIs(s, InSession(k), m[k]))
  }

  ghost predicate SessionsAre(s: set<AnalyticsEvent>, m: map<SessionKey, SessionRow>) { forall k :: SessionAt(s, m, k) }

  ghost predicate LlmRowIs(s: set<AnalyticsEvent>, p: AnalyticsEvent -> bool, row: LlmRow) {
    && row.calls == Sum(s, p, One) && row.promptTokens == Sum(s, p, Prompt)
    && row.completionTokens == Sum(s, p, Completion) && row.costMicros == Sum(s, p, Cost)
  }

  ghost predicate LlmAt(s: set<AnalyticsEvent>, m: map<LlmKey, LlmRow>, k: LlmKey) {
    (k in m <==> Occurs(s, InLlm(k))) && (k in m ==> LlmRowIs(s, InLlm(k), m[k]))
  }

  ghost predicate LlmIs(s: set<AnalyticsEvent>, m: map<LlmKey, LlmRow>) { forall k :: LlmAt(s, m, k) }

  ghost predicate DestinationRowIs(s: set<AnalyticsEvent>, p: AnalyticsEvent -> bool, row: DestinationRow) {
    row.eventCount == Sum(s, p, One) && Spans(s, p, At, row.firstEventAt, row.lastEventAt)
  }

  ghost predicate DestinationAt(s: set<AnalyticsEvent>, m: map<DestinationKey, DestinationRow>, k: DestinationKey) {
    (k in m <==> Occurs(s, InDestination(k))) && (k in m ==> DestinationRowIs(s, InDestination(k), m[k]))
  }

  ghost predicate DestinationsAre(s: set<AnalyticsEvent>, m: map<DestinationKey, DestinationRow>) {
    forall k :: DestinationAt(s, m, k)
  }

  // ---------- One more event keeps the group-by ----------

  lemma OccursAdd(s: set<AnalyticsEvent>, e: AnalyticsEvent, p: AnalyticsEvent -> bool)
    ensures Occurs(s + {e}, p) <==> Occurs(s, p) || p(e)
  {
    if p(e) {
      assert e in s + {e};
    }
    if Occurs(s, p) {
      var x :| x in s && p(x);
      assert x in s + {e};
    }
  }

  /** The bounds of a group when an event joins it, or joins another. */
  lemma SpansNext(
    s: set<AnalyticsEvent>, e: AnalyticsEvent, p: AnalyticsEvent -> bool, known: bool, first: int, last: int)
    requires known <==> Occurs(s, p)
    requires known ==> Spans(s, p, At, first, last)
    ensures p(e) && known ==> Spans(s + {e}, p, At, Min(first, At(e)), Max(last, At(e)))
    ensures p(e) && !known ==> Spans(s + {e}, p, At, At(e), At(e))
    ensures !p(e) && known ==> Spans(s + {e}, p, At, first, last)
  {
    if known && p(e) {
      SpansAdd(s, e, p, At, first, last);
    } else if known {
      SpansOther(s, e, p, At, first, last);
    } else if p(e) {
      SpansOne(s, e, p, At);
    }
  }

  lemma UsageAddAt(s: set<AnalyticsEvent>, m: map<UsageKey, UsageRow>, e: AnalyticsEvent, k: UsageKey)
    requires UsageAt(s, m, k) && e !in s
    ensures UsageAt(s + {e}, AddedUsage(m, e), k)
  {
    var p := InUsage(k);
    OccursAdd(s, e, p);
    SumAdd(s, e, p, One);
    SumAdd(s, e, p, ScoreOf);
    SpansNext(s, e, p, k in m, if k in m then m[k].firstEventAt else 0, if k in m then m[k].lastEventAt else 0);
  }

  lemma SessionAddAt(s: set<AnalyticsEvent>, m: map<SessionKey, SessionRow>, e: AnalyticsEvent, k: SessionKey)
    requires SessionAt(s, m, k) && e !in s
    ensures SessionAt(s + {e}, AddedSession(m, e), k)
  {
    var p := InSession(k);
    var row := if k in m then m[k] else SessionRow(e.occurredAt, e.occurredAt, 0, 0, 0, 0, 0, 0, 0);
    OccursAdd(s, e, p);
    SessionSumsAdd(s, e, p, k in m, row);
    SpansNext(s, e, p, k in m, row.firstEventAt, row.lastEventAt);
  }

  lemma SessionSumsAdd(
    s: set<AnalyticsEvent>, e: AnalyticsEvent, p: AnalyticsEvent -> bool, known: bool, row: SessionRow)
    requires e !in s && (known <==> Occurs(s, p))
    requires if known then SessionSumsAre(s, p, row)
             else row == SessionRow(row.firstEventAt, row.lastEventAt, 0, 0, 0, 0, 0, 0, 0)
    ensures p(e) ==> SessionSumsAre(s + {e}, p, NextSession(row, e))
    ensures !p(e) && known ==> SessionSumsAre(s + {e}, p, row)
  {
    MeasureAdd(s, e, p, Decided, known, row.decisions);
    MeasureAdd(s, e, p, Queued, known, row.queues);
    MeasureAdd(s, e, p, DeniedDecision, known, row.denies);
    MeasureAdd(s, e, p, LlmCall, known, row.llmCalls);
    MeasureAdd(s, e, p, Prompt, known, row.promptTokens);
    MeasureAdd(s, e, p, Completion, known, row.completionTokens);
    MeasureAdd(s, e, p, Cost, known, row.costMicros);
  }

  /** One counter of a group when an event joins it, or joins another. */
  lemma MeasureAdd(
    s: set<AnalyticsEvent>, e: AnalyticsEvent, p: AnalyticsEvent -> bool, f: AnalyticsEvent -> int, known: bool,
    current: int)
    requires e !in s && (known <==> Occurs(s, p)) && current == if known then Sum(s, p, f) else 0
    ensures p(e) ==> Sum(s + {e}, p, f) == current + f(e)
    ensures !p(e) && known ==> Sum(s + {e}, p, f) == current
  {
    SumAdd(s, e, p, f);
  }

  lemma LlmAddAt(s: set<AnalyticsEvent>, m: map<LlmKey, LlmRow>, e: AnalyticsEvent, k: LlmKey)
    requires LlmAt(s, m, k) && e !in s
    ensures LlmAt(s + {e}, AddedLlm(m, e), k)
  {
    var p := InLlm(k);
    OccursAdd(s, e, p);
    SumAdd(s, e, p, One);
    SumAdd(s, e, p, Prompt);
    SumAdd(s, e, p, Completion);
    SumAdd(s, e, p, Cost);
  }

  lemma DestinationAddAt(
    s: set<AnalyticsEvent>, m: map<DestinationKey, DestinationRow>, e: AnalyticsEvent, k: DestinationKey)
    requires DestinationAt(s, m, k) && e !in s
    ensures DestinationAt(s + {e}, AddedDestination(m, e), k)
  {
    var p := InDestination(k);
    OccursAdd(s, e, p);
    SumAdd(s, e, p, One);
    SpansNext(s, e, p, k in m, if k in m then m[k].firstEventAt else 0, if k in m then m[k].lastEventAt else 0);
  }

  /** Adding the ids of one event one after the other updates each of its rows once. */
  lemma {:induction false} AddedFiltersAt(
    m: map<FilterKey, FilterRow>, e: AnalyticsEvent, ids: seq<string>, k: FilterKey)
    requires Distinct(ids)
    ensures
      var hit := k.filterId in ids && FilterKeyOf(e, k.filterId) == k;
      var after := AddedFilters(m, e, ids);
      && (k in after <==> k in m || hit)
      && (hit ==> after[k] == NextFilter(if k in m then m[k] else FilterRow(0, 0, 0, 0), e, k.filterId))
      && (!hit && k in m ==> after[k] == m[k])
    decreases |ids|
  {
    if ids != [] {
      AddedFiltersAt(AddedFilter(m, e, ids[0]), e, ids[1..], k);
      assert ids == [ids[0]] + ids[1..];
      assert ids[0] !in ids[1..];
    }
  }

  lemma FilterAddAt(s: set<AnalyticsEvent>, m: map<FilterKey, FilterRow>, e: AnalyticsEvent, k: FilterKey)
    requires FilterAt(s, m, k) && e !in s && Distinct(e.evaluatedFilterIds)
    ensures FilterAt(s + {e}, AddedFilters(m, e, e.evaluatedFilterIds), k)
  {
    var p := InFilter(k);
    AddedFiltersAt(m, e, e.evaluatedFilterIds, k);
    OccursAdd(s, e, p);
    SumAdd(s, e, p, One);
    SumAdd(s, e, p, TriggerOf(k.filterId));
    SumAdd(s, e, p, DeniedFlag);
    SumAdd(s, e, p, DeniedTriggerOf(k.filterId));
  }

  // ---------- The whole rollup ----------

  /** Everything a day accumulator holds. */
  datatype Rollup = Rollup(
    day: int, digests: map<Uuid, AnalyticsEvent>, sourceEventCount: int,
    firstEventAt: Option<int>, lastEventAt: Option<int>,
    firstChainSequence: Option<nat>, lastChainSequence: Option<nat>, lastChainHash: Option<string>,
    usage: map<UsageKey, UsageRow>, filters: map<FilterKey, FilterRow>, sessions: map<SessionKey, SessionRow>,
    llm: map<LlmKey, LlmRow>, destinations: map<DestinationKey, DestinationRow>, security: map<Uuid, SecurityEvent>)

  function Fresh(day: int): Rollup {
    Rollup(day, map[], 0, None, None, None, None, None, map[], map[], map[], map[], map[], map[])
  }

  /** The greater sequence wins; an equal one overwrites the hash. */
  predicate Advances(last: Option<nat>, e: AnalyticsEvent) {
    e.chainSequence.Some? && (last.None? || e.chainSequence.value >= last.value)
  }

  function Earliest(first: Option<int>, at: int): Option<int> {
    Some(if first.Some? then Min(first.value, at) else at)
  }

  function Latest(last: Option<int>, at: int): Option<int> {
    Some(if last.Some? then Max(last.value, at) else at)
  }

  function LowestSequence(first: Option<nat>, e: AnalyticsEvent): Option<nat> {
    if e.chainSequence.Some? && (first.None? || e.chainSequence.value < first.value) then e.chainSequence else first
  }

  function HighestSequence(last: Option<nat>, e: AnalyticsEvent): Option<nat> {
    if Advances(last, e) then e.chainSequence else last
  }

  function HighestHash(last: Option<nat>, hash: Option<string>, e: AnalyticsEvent): Option<string> {
    if Advances(last, e) then e.chainHash else hash
  }

  function AddedSecurity(m: map<Uuid, SecurityEvent>, e: AnalyticsEvent): map<Uuid, SecurityEvent> {
    if e.security.Some? then m[e.eventId := e.security.value] else m
  }

  function Added(r: Rollup, e: AnalyticsEvent): Rollup {
    Rollup(
      r.day, r.digests[e.eventId := e], r.sourceEventCount + 1,
      Earliest(r.firstEventAt, e.occurredAt), Latest(r.lastEventAt, e.occurredAt),
      LowestSequence(r.firstChainSequence, e), HighestSequence(r.lastChainSequence, e),
      HighestHash(r.lastChainSequence, r.lastChainHash, e),
      AddedUsage(r.usage, e), AddedFilters(r.filters, e, e.evaluatedFilterIds), AddedSession(r.sessions, e),
      AddedLlm(r.llm, e), AddedDestination(r.destinations, e),
      AddedSecurity(r.security, e))
  }

  // ---------- Header of the rollup ----------

  function Any(): AnalyticsEvent -> bool { (e: AnalyticsEvent) => true }

  function Sequenced(): AnalyticsEvent -> bool { (e: AnalyticsEvent) => e.chainSequence.Some? }

  function SequenceOf(e: AnalyticsEvent): int { if e.chainSequence.Some? then e.chainSequence.value else 0 }

  ghost predicate BoundsAre(
    s: set<AnalyticsEvent>, p: AnalyticsEvent -> bool, at: AnalyticsEvent -> int, first: Option<int>,
    last: Option<int>)
  {
    && (first.Some? <==> Occurs(s, p)) && (last.Some? <==> Occurs(s, p))
    && (first.Some? && last.Some? ==> Spans(s, p, at, first.value, last.value))
  }

  /** The last hash belongs to an event with the last sequence. */
  ghost predicate LastHashIs(s: set<AnalyticsEvent>, last: Option<nat>, hash: Option<string>) {
    if last.None? then hash.None? else exists e :: e in s && e.chainSequence == last && e.chainHash == hash
  }

  /** The rollup is the group-by over the distinct events it has seen. */
  ghost predicate Matches(r: Rollup, s: set<AnalyticsEvent>) {
    && (forall e :: e in s <==> e.eventId in r.digests && r.digests[e.eventId] == e)
    && (forall id :: id in r.digests ==> r.digests[id].eventId == id)
    && r.sourceEventCount == |s|
    && BoundsAre(s, Any(), At, r.firstEventAt, r.lastEventAt)
    && BoundsAre(s, Sequenced(), SequenceOf, r.firstChainSequence, r.lastChainSequence)
    && LastHashIs(s, r.lastChainSequence, r.lastChainHash)
    && UsageIs(s, r.usage) && FiltersAre(s, r.filters) && SessionsAre(s, r.sessions)
    && LlmIs(s, r.llm) && DestinationsAre(s, r.destinations)
    && SecurityIs(s, r.security)
  }

  ghost predicate SecurityIs(s: set<AnalyticsEvent>, m: map<Uuid, SecurityEvent>) {
    forall id ::
      && (id in m <==> exists e :: e in s && e.eventId == id && e.security.Some?)
      && (id in m ==> exists e :: e in s && e.eventId == id && e.security == Some(m[id]))
  }

  lemma BoundsAdd(s: set<AnalyticsEvent>, e: AnalyticsEvent, p: AnalyticsEvent -> bool, at: AnalyticsEvent -> int,
                  first: Option<int>, last: Option<int>)
    requires BoundsAre(s, p, at, first, last)
    ensures p(e) ==> BoundsAre(s + {e}, p, at,
      Some(if first.Some? then Min(first.value, at(e)) else at(e)),
      Some(if last.Some? then Max(last.value, at(e)) else at(e)))
    ensures !p(e) ==> BoundsAre(s + {e}, p, at, first, last)
  {
    OccursAdd(s, e, p);
    if first.Some? {
      if p(e) {
        SpansAdd(s, e, p, at, first.value, last.value);
      } else {
        SpansOther(s, e, p, at, first.value, last.value);
      }
    } else if p(e) {
      SpansOne(s, e, p, at);
    }
  }
}
