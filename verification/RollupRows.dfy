/** What every row of a day rollup says about the events behind it, column by column
    (crates/grith-analytics/src/accumulator.rs). */
module RollupRows {
  import opened Basics
  import opened Contract
  import opened Totals
  import opened Events
  import opened EventRules
  import opened GroupBy
  import opened DayRollup

  // ---------- Counting a group ----------

  lemma {:induction false} SumGroup(s: set<AnalyticsEvent>, p: AnalyticsEvent -> bool, f: AnalyticsEvent -> int)
    ensures Sum(s, p, f) == Total((set e | e in s && p(e)), f)
    decreases |s|
  {
    var group := set e | e in s && p(e);
    if s != {} {
      var x :| x in s;
      SumGroup(s - {x}, p, f);
      TotalWithout(s, x, When(p, f));
      var rest := set e | e in s - {x} && p(e);
      if p(x) {
        assert rest == group - {x};
        TotalWithout(group, x, f);
      } else {
        assert rest == group;
      }
    }
  }

  /** A measure that is one on a part of the events and zero on the others counts that part. */
  lemma {:induction false} TotalCounts(s: set<AnalyticsEvent>, f: AnalyticsEvent -> int, part: set<AnalyticsEvent>)
    requires part <= s && forall e :: e in s ==> f(e) == if e in part then 1 else 0
    ensures Total(s, f) == |part|
    decreases |s|
  {
    if s != {} {
      var x :| x in s;
      TotalWithout(s, x, f);
      TotalCounts(s - {x}, f, part - {x});
    }
  }

  /** A flag summed over a group counts the members that carry it. */
  lemma FlagGroup(
    s: set<AnalyticsEvent>, p: AnalyticsEvent -> bool, f: AnalyticsEvent -> int, group: set<AnalyticsEvent>,
    part: set<AnalyticsEvent>)
    requires forall e :: e in s ==> (p(e) <==> e in group)
    requires part <= group <= s && forall e :: e in group ==> f(e) == if e in part then 1 else 0
    ensures Sum(s, p, f) == |part|
  {
    SumGroup(s, p, f);
    assert group == set e | e in s && p(e);
    TotalCounts(group, f, part);
  }

  lemma MeasureGroup(
    s: set<AnalyticsEvent>, p: AnalyticsEvent -> bool, f: AnalyticsEvent -> int, group: set<AnalyticsEvent>,
    g: AnalyticsEvent -> int)
    requires forall e :: e in s ==> (p(e) <==> e in group)
    requires group <= s && forall e :: e in group ==> f(e) == g(e)
    ensures Sum(s, p, f) == Total(group, g)
  {
    SumGroup(s, p, f);
    assert group == set e | e in s && p(e);
    TotalSame(group, f, g);
  }

  lemma CountGroup(
    s: set<AnalyticsEvent>, p: AnalyticsEvent -> bool, f: AnalyticsEvent -> int, group: set<AnalyticsEvent>)
    requires forall e :: e in s ==> (p(e) <==> e in group)
    requires group <= s && forall e :: f(e) == 1
    ensures Sum(s, p, f) == |group|
  {
    FlagGroup(s, p, f, group, group);
  }

  /** The earliest and the latest time of a group. */
  ghost predicate Covers(group: set<AnalyticsEvent>, first: int, last: int) {
    && (exists e :: e in group && e.occurredAt == first) && (exists e :: e in group && e.occurredAt == last)
    && forall e :: e in group ==> first <= e.occurredAt <= last
  }

  lemma SpansGroup(
    s: set<AnalyticsEvent>, p: AnalyticsEvent -> bool, group: set<AnalyticsEvent>, first: int, last: int)
    requires forall e :: e in s ==> (p(e) <==> e in group)
    requires group <= s && Spans(s, p, At, first, last)
    ensures Covers(group, first, last)
  {
    var x :| x in s && p(x) && At(x) == first;
    var y :| y in s && p(y) && At(y) == last;
    assert x in group && y in group;
  }

  // ---------- Usage ----------

  predicate InScoreBin(score: Option<int>, bin: Option<nat>) {
    && (score.Some? <==> bin.Some?)
    && (bin.Some? ==>
          && bin.value < 30
          && (bin.value > 0 ==> bin.value * 500_000 <= score.value)
          && (bin.value < 29 ==> score.value < (bin.value + 1) * 500_000))
  }

  /** The event falls into the row's hour and score bin and has its other key columns. */
  predicate UsageMember(k: UsageKey, e: AnalyticsEvent) {
    && k.bucketStart % 3_600_000_000 == 0 && k.bucketStart <= e.occurredAt < k.bucketStart + 3_600_000_000
    && InScoreBin(e.scoreMicros, k.scoreBucket)
    && e.project == k.project && e.profileId == k.profileId && e.configHash == k.configHash
    && e.supervisedTool == k.supervisedTool && e.recordClass == k.recordClass && e.category == k.category
    && e.initialVerdict == k.verdict
  }

  lemma OneHour(at: int, start: int)
    ensures start == HourStart(at) <==> start % 3_600_000_000 == 0 && start <= at < start + 3_600_000_000
  {
  }

  lemma OneBin(score: int, a: nat, b: nat)
    requires InScoreBin(Some(score), Some(a)) && InScoreBin(Some(score), Some(b))
    ensures a == b
  {
  }

  lemma UsageMembership(k: UsageKey, e: AnalyticsEvent)
    ensures InUsage(k)(e) <==> UsageMember(k, e)
  {
    OneHour(e.occurredAt, k.bucketStart);
    var key := UsageKeyOf(e);
    if e.scoreMicros.Some? && k.scoreBucket.Some? && InScoreBin(e.scoreMicros, k.scoreBucket) {
      OneBin(e.scoreMicros.value, key.scoreBucket.value, k.scoreBucket.value);
    }
  }

  function Score(e: AnalyticsEvent): int { match e.scoreMicros case Some(score) => score case None => 0 }

  ghost predicate UsageRowMeans(s: set<AnalyticsEvent>, k: UsageKey, row: UsageRow) {
    var group := set e | e in s && UsageMember(k, e);
    && row.eventCount == |group| && row.scoreSum == Total(group, Score)
    && Covers(group, row.firstEventAt, row.lastEventAt)
  }

  lemma UsageMeans(s: set<AnalyticsEvent>, m: map<UsageKey, UsageRow>, k: UsageKey)
    requires UsageAt(s, m, k)
    ensures k in m <==> exists e :: e in s && UsageMember(k, e)
    ensures k in m ==> UsageRowMeans(s, k, m[k])
  {
    var group := set e | e in s && UsageMember(k, e);
    forall e ensures InUsage(k)(e) <==> UsageMember(k, e) {
      UsageMembership(k, e);
    }
    if k in m {
      CountGroup(s, InUsage(k), One, group);
      MeasureGroup(s, InUsage(k), ScoreOf, group, Score);
      SpansGroup(s, InUsage(k), group, m[k].firstEventAt, m[k].lastEventAt);
    }
  }

  // ---------- Filters ----------

  predicate FilterMember(k: FilterKey, e: AnalyticsEvent) {
    && k.filterId in e.evaluatedFilterIds
    && e.project == k.project && e.profileId == k.profileId && e.configHash == k.configHash
    && (match e.filterSetVersion case Some(v) => v == k.filterSetVersion case None => k.filterSetVersion == 0)
  }

  /** The filter contributed a positive score to the event. */
  predicate Fired(e: AnalyticsEvent, id: string) {
    exists i :: 0 <= i < |e.positiveFilterContributions| && e.positiveFilterContributions[i].filterId == id
  }

  ghost predicate FilterRowMeans(s: set<AnalyticsEvent>, k: FilterKey, row: FilterRow) {
    var group := set e | e in s && FilterMember(k, e);
    && row.evaluated == |group|
    && row.triggered == |set e | e in group && Fired(e, k.filterId)|
    && row.deniedEvaluated == |set e | e in group && e.initialVerdict == Some(Deny)|
    && row.deniedPositive == |set e | e in group && Fired(e, k.filterId) && e.initialVerdict == Some(Deny)|
  }

  lemma FiltersMean(s: set<AnalyticsEvent>, m: map<FilterKey, FilterRow>, k: FilterKey)
    requires FilterAt(s, m, k)
    ensures k in m <==> exists e :: e in s && FilterMember(k, e)
    ensures k in m ==> FilterRowMeans(s, k, m[k])
  {
    var group := set e | e in s && FilterMember(k, e);
    assert forall e :: InFilter(k)(e) <==> FilterMember(k, e);
    if k in m {
      FilterCounts(s, k, group, InFilter(k), m[k]);
    }
  }

  lemma FilterCounts(
    s: set<AnalyticsEvent>, k: FilterKey, group: set<AnalyticsEvent>, p: AnalyticsEvent -> bool, row: FilterRow)
    requires FilterRowIs(s, p, k.filterId, row) && group <= s && forall e :: e in s ==> (p(e) <==> e in group)
    ensures row.evaluated == |group|
    ensures row.triggered == |set e | e in group && Fired(e, k.filterId)|
    ensures row.deniedEvaluated == |set e | e in group && e.initialVerdict == Some(Deny)|
    ensures row.deniedPositive == |set e | e in group && Fired(e, k.filterId) && e.initialVerdict == Some(Deny)|
  {
    CountGroup(s, p, One, group);
    FlagGroup(s, p, TriggerOf(k.filterId), group, set e | e in group && Fired(e, k.filterId));
    FlagGroup(s, p, DeniedFlag, group, set e | e in group && e.initialVerdict == Some(Deny));
    FlagGroup(s, p, DeniedTriggerOf(k.filterId), group,
      set e | e in group && Fired(e, k.filterId) && e.initialVerdict == Some(Deny));
  }

  // ---------- Sessions ----------

  predicate SessionMember(k: SessionKey, e: AnalyticsEvent) {
    && e.sessionId == Some(k.sessionId) && e.project == k.project && e.profileId == k.profileId
    && e.configHash == k.configHash && e.supervisedTool == k.supervisedTool
  }

  function PromptTokens(e: AnalyticsEvent): int { match e.llmUsage case Some(l) => l.promptTokens case None => 0 }

  function CompletionTokens(e: AnalyticsEvent): int {
    match e.llmUsage case Some(l) => l.completionTokens case None => 0
  }

  function CostMicros(e: AnalyticsEvent): int { match e.llmUsage case Some(l) => l.costMicros case None => 0 }

  ghost predicate SessionRowMeans(s: set<AnalyticsEvent>, k: SessionKey, row: SessionRow) {
    var group := set e | e in s && SessionMember(k, e);
    && Covers(group, row.firstEventAt, row.lastEventAt)
    && SessionDecisions(group, row) && SessionUsage(group, row)
  }

  ghost predicate SessionDecisions(group: set<AnalyticsEvent>, row: SessionRow) {
    && row.decisions == |set e | e in group && e.recordClass == Decision|
    && row.queues == |set e | e in group && e.recordClass == Decision && e.initialVerdict == Some(Queue)|
    && row.denies == |set e | e in group && e.recordClass == Decision && e.initialVerdict == Some(Deny)|
  }

  ghost predicate SessionUsage(group: set<AnalyticsEvent>, row: SessionRow) {
    && row.llmCalls == |set e | e in group && e.llmUsage.Some?|
    && row.promptTokens == Total(group, PromptTokens) && row.completionTokens == Total(group, CompletionTokens)
    && row.costMicros == Total(group, CostMicros)
  }

  lemma SessionsMean(s: set<AnalyticsEvent>, m: map<SessionKey, SessionRow>, k: SessionKey)
    requires SessionAt(s, m, k)
    ensures k in m <==> exists e :: e in s && SessionMember(k, e)
    ensures k in m ==> SessionRowMeans(s, k, m[k])
  {
    var group := set e | e in s && SessionMember(k, e);
    assert forall e :: InSession(k)(e) <==> SessionMember(k, e);
    if k in m {
      SessionDecides(s, group, InSession(k), m[k]);
      SessionUses(s, group, InSession(k), m[k]);
      SpansGroup(s, InSession(k), group, m[k].firstEventAt, m[k].lastEventAt);
    }
  }

  lemma SessionDecides(
    s: set<AnalyticsEvent>, group: set<AnalyticsEvent>, p: AnalyticsEvent -> bool, row: SessionRow)
    requires SessionSumsAre(s, p, row) && group <= s && forall e :: e in s ==> (p(e) <==> e in group)
    ensures SessionDecisions(group, row)
  {
    FlagGroup(s, p, Decided, group, set e | e in group && e.recordClass == Decision);
    FlagGroup(s, p, Queued, group, set e | e in group && e.recordClass == Decision && e.initialVerdict == Some(Queue));
    FlagGroup(s, p, DeniedDecision, group,
      set e | e in group && e.recordClass == Decision && e.initialVerdict == Some(Deny));
  }

  lemma SessionUses(s: set<AnalyticsEvent>, group: set<AnalyticsEvent>, p: AnalyticsEvent -> bool, row: SessionRow)
    requires SessionSumsAre(s, p, row) && group <= s && forall e :: e in s ==> (p(e) <==> e in group)
    ensures SessionUsage(group, row)
  {
    FlagGroup(s, p, LlmCall, group, set e | e in group && e.llmUsage.Some?);
    MeasureGroup(s, p, Prompt, group, PromptTokens);
    MeasureGroup(s, p, Completion, group, CompletionTokens);
    MeasureGroup(s, p, Cost, group, CostMicros);
  }

  // ---------- Models and destinations ----------

  predicate LlmMember(k: LlmKey, e: AnalyticsEvent) {
    && e.llmUsage.Some? && e.project == k.project
    && e.llmUsage.value.provider == k.provider && e.llmUsage.value.model == k.model
    && e.llmUsage.value.currency == k.currency && e.llmUsage.value.priceSource == k.priceSource
    && e.llmUsage.value.pricingVersion == k.pricingVersion
  }

  ghost predicate LlmRowMeans(s: set<AnalyticsEvent>, k: LlmKey, row: LlmRow) {
    var group := set e | e in s && LlmMember(k, e);
    && row.calls == |group| && row.promptTokens == Total(group, PromptTokens)
    && row.completionTokens == Total(group, CompletionTokens) && row.costMicros == Total(group, CostMicros)
  }

  lemma LlmMeans(s: set<AnalyticsEvent>, m: map<LlmKey, LlmRow>, k: LlmKey)
    requires LlmAt(s, m, k)
    ensures k in m <==> exists e :: e in s && LlmMember(k, e)
    ensures k in m ==> LlmRowMeans(s, k, m[k])
  {
    var group := set e | e in s && LlmMember(k, e);
    assert forall e :: InLlm(k)(e) <==> LlmMember(k, e);
    if k in m {
      CountGroup(s, InLlm(k), One, group);
      MeasureGroup(s, InLlm(k), Prompt, group, PromptTokens);
      MeasureGroup(s, InLlm(k), Completion, group, CompletionTokens);
      MeasureGroup(s, InLlm(k), Cost, group, CostMicros);
    }
  }

  predicate DestinationMember(k: DestinationKey, e: AnalyticsEvent) {
    && e.destination.Some? && e.initialVerdict == Some(k.verdict)
    && e.destination.value.kind == k.kind && e.destination.value.destinationHmac == k.destinationHmac
    && e.destination.value.hmacKeyVersion == k.hmacKeyVersion
    && e.destination.value.approvedDisplayLabel == k.approvedDisplayLabel
  }

  ghost predicate DestinationRowMeans(s: set<AnalyticsEvent>, k: DestinationKey, row: DestinationRow) {
    var group := set e | e in s && DestinationMember(k, e);
    row.eventCount == |group| && Covers(group, row.firstEventAt, row.lastEventAt)
  }

  lemma DestinationsMean(s: set<AnalyticsEvent>, m: map<DestinationKey, DestinationRow>, k: DestinationKey)
    requires DestinationAt(s, m, k)
    ensures k in m <==> exists e :: e in s && DestinationMember(k, e)
    ensures k in m ==> DestinationRowMeans(s, k, m[k])
  {
    var group := set e | e in s && DestinationMember(k, e);
    assert forall e :: InDestination(k)(e) <==> DestinationMember(k, e);
    if k in m {
      CountGroup(s, InDestination(k), One, group);
      SpansGroup(s, InDestination(k), group, m[k].firstEventAt, m[k].lastEventAt);
    }
  }

  // ---------- Columns of the day ----------

  predicate Sequence(e: AnalyticsEvent, n: nat) { e.chainSequence == Some(n) }

  /** The time and chain bounds of the day. */
  ghost predicate HeaderMeans(s: set<AnalyticsEvent>, r: Rollup) {
    && r.sourceEventCount == |s|
    && (if s == {} then r.firstEventAt == None && r.lastEventAt == None
        else r.firstEventAt.Some? && r.lastEventAt.Some? && Covers(s, r.firstEventAt.value, r.lastEventAt.value))
    && (if forall e :: e in s ==> e.chainSequence.None?
        then r.firstChainSequence == None && r.lastChainSequence == None && r.lastChainHash == None
        else r.firstChainSequence.Some? && r.lastChainSequence.Some?
             && SequenceBounds(s, r.firstChainSequence.value, r.lastChainSequence.value, r.lastChainHash))
  }

  /** The least and the greatest chain sequence; the hash is that of an event with the greatest. */
  ghost predicate SequenceBounds(s: set<AnalyticsEvent>, first: nat, last: nat, hash: Option<string>) {
    && (exists e :: e in s && Sequence(e, first))
    && (exists e :: e in s && Sequence(e, last) && e.chainHash == hash)
    && forall e :: e in s && e.chainSequence.Some? ==> first <= e.chainSequence.value <= last
  }

  lemma HeaderIs(s: set<AnalyticsEvent>, r: Rollup)
    requires r.sourceEventCount == |s| && BoundsAre(s, Any(), At, r.firstEventAt, r.lastEventAt)
    requires BoundsAre(s, Sequenced(), SequenceOf, r.firstChainSequence, r.lastChainSequence)
    requires LastHashIs(s, r.lastChainSequence, r.lastChainHash)
    ensures HeaderMeans(s, r)
  {
    if s != {} {
      var x :| x in s;
      assert Any()(x);
      SpansGroup(s, Any(), s, r.firstEventAt.value, r.lastEventAt.value);
    }
    if r.firstChainSequence.Some? {
      var x :| x in s && Sequenced()(x) && SequenceOf(x) == r.firstChainSequence.value;
      assert Sequence(x, r.firstChainSequence.value);
      var y :| y in s && y.chainSequence == r.lastChainSequence && y.chainHash == r.lastChainHash;
      assert Sequence(y, r.lastChainSequence.value);
      assert forall e :: e in s && e.chainSequence.Some? ==> Sequenced()(e);
    } else {
      assert forall e :: e in s ==> !Sequenced()(e);
    }
  }

  // ---------- Limits ----------

  /** Every counter is an integer a double holds exactly, and no family outgrows its limit. */
  ghost predicate WithinLimits(r: Rollup) {
    && r.sourceEventCount <= 9_007_199_254_740_991
    && (forall k :: k in r.usage ==>
          r.usage[k].eventCount <= 9_007_199_254_740_991
          && -9_007_199_254_740_991 <= r.usage[k].scoreSum <= 9_007_199_254_740_991)
    && (forall k :: k in r.filters ==> r.filters[k].evaluated <= 9_007_199_254_740_991)
    && (forall k :: k in r.sessions ==> SessionWithin(r.sessions[k]))
    && (forall k :: k in r.llm ==> LlmWithin(r.llm[k]))
    && (forall k :: k in r.destinations ==> r.destinations[k].eventCount <= 9_007_199_254_740_991)
    && |r.usage| <= 20_000 && |r.filters| <= 10_000 && |r.sessions| <= 10_000 && |r.llm| <= 5_000
    && |r.destinations| <= 5_000
  }

  predicate SessionWithin(row: SessionRow) {
    && row.decisions <= 9_007_199_254_740_991 && row.llmCalls <= 9_007_199_254_740_991
    && row.promptTokens <= 9_007_199_254_740_991 && row.completionTokens <= 9_007_199_254_740_991
    && row.costMicros <= 9_007_199_254_740_991
  }

  predicate LlmWithin(row: LlmRow) {
    && row.calls <= 9_007_199_254_740_991 && row.promptTokens <= 9_007_199_254_740_991
    && row.completionTokens <= 9_007_199_254_740_991 && row.costMicros <= 9_007_199_254_740_991
  }

  lemma FitIsWithin(r: Rollup)
    requires CountersFit(r) && RowsFit(r)
    ensures WithinLimits(r)
  {
    forall k | k in r.sessions ensures SessionWithin(r.sessions[k]) {
      assert SessionFits(r.sessions[k]);
    }
    forall k | k in r.llm ensures LlmWithin(r.llm[k]) {
      assert LlmFits(r.llm[k]);
    }
    forall k | k in r.destinations ensures r.destinations[k].eventCount <= 9_007_199_254_740_991 {
      assert DestinationFits(r.destinations[k]);
    }
    forall k | k in r.filters ensures r.filters[k].evaluated <= 9_007_199_254_740_991 {
      assert FilterFits(r.filters[k]);
    }
  }

  // ---------- The whole day ----------

  /** Row by row and column by column, what a rollup says about the events behind it. */
  ghost predicate RollupMeans(s: set<AnalyticsEvent>, r: Rollup) {
    && HeaderMeans(s, r) && UsageTells(s, r.usage) && FiltersTell(s, r.filters) && SessionsTell(s, r.sessions)
    && LlmTells(s, r.llm) && DestinationsTell(s, r.destinations)
  }

  ghost predicate UsageTells(s: set<AnalyticsEvent>, m: map<UsageKey, UsageRow>) {
    forall k :: (k in m <==> exists e :: e in s && UsageMember(k, e)) && (k in m ==> UsageRowMeans(s, k, m[k]))
  }

  lemma UsageTold(s: set<AnalyticsEvent>, m: map<UsageKey, UsageRow>)
    requires UsageIs(s, m)
    ensures UsageTells(s, m)
  {
    forall k ensures k in m <==> exists e :: e in s && UsageMember(k, e)
             ensures k in m ==> UsageRowMeans(s, k, m[k])
    {
      assert UsageAt(s, m, k);
      UsageMeans(s, m, k);
    }
  }

  ghost predicate FiltersTell(s: set<AnalyticsEvent>, m: map<FilterKey, FilterRow>) {
    forall k :: (k in m <==> exists e :: e in s && FilterMember(k, e)) && (k in m ==> FilterRowMeans(s, k, m[k]))
  }

  lemma FiltersTold(s: set<AnalyticsEvent>, m: map<FilterKey, FilterRow>)
    requires FiltersAre(s, m)
    ensures FiltersTell(s, m)
  {
    forall k ensures k in m <==> exists e :: e in s && FilterMember(k, e)
             ensures k in m ==> FilterRowMeans(s, k, m[k])
    {
      assert FilterAt(s, m, k);
      FiltersMean(s, m, k);
    }
  }

  ghost predicate SessionsTell(s: set<AnalyticsEvent>, m: map<SessionKey, SessionRow>) {
    forall k :: (k in m <==> exists e :: e in s && SessionMember(k, e)) && (k in m ==> SessionRowMeans(s, k, m[k]))
  }

  lemma SessionsTold(s: set<AnalyticsEvent>, m: map<SessionKey, SessionRow>)
    requires SessionsAre(s, m)
    ensures SessionsTell(s, m)
  {
    forall k ensures k in m <==> exists e :: e in s && SessionMember(k, e)
             ensures k in m ==> SessionRowMeans(s, k, m[k])
    {
      assert SessionAt(s, m, k);
      SessionsMean(s, m, k);
    }
  }

  ghost predicate LlmTells(s: set<AnalyticsEvent>, m: map<LlmKey, LlmRow>) {
    forall k :: (k in m <==> exists e :: e in s && LlmMember(k, e)) && (k in m ==> LlmRowMeans(s, k, m[k]))
  }

  lemma LlmTold(s: set<AnalyticsEvent>, m: map<LlmKey, LlmRow>)
    requires LlmIs(s, m)
    ensures LlmTells(s, m)
  {
    forall k ensures k in m <==> exists e :: e in s && LlmMember(k, e)
             ensures k in m ==> LlmRowMeans(s, k, m[k])
    {
      assert LlmAt(s, m, k);
      LlmMeans(s, m, k);
    }
  }

  ghost predicate DestinationsTell(s: set<AnalyticsEvent>, m: map<DestinationKey, DestinationRow>) {
    forall k :: (k in m <==> exists e :: e in s && DestinationMember(k, e))
                && (k in m ==> DestinationRowMeans(s, k, m[k]))
  }

  lemma DestinationsTold(s: set<AnalyticsEvent>, m: map<DestinationKey, DestinationRow>)
    requires DestinationsAre(s, m)
    ensures DestinationsTell(s, m)
  {
    forall k ensures k in m <==> exists e :: e in s && DestinationMember(k, e)
             ensures k in m ==> DestinationRowMeans(s, k, m[k])
    {
      assert DestinationAt(s, m, k);
      DestinationsMean(s, m, k);
    }
  }

  lemma MatchesMeans(s: set<AnalyticsEvent>, r: Rollup)
    requires Matches(r, s)
    ensures RollupMeans(s, r)
  {
    HeaderIs(s, r);
    UsageTold(s, r.usage);
    FiltersTold(s, r.filters);
    SessionsTold(s, r.sessions);
    LlmTold(s, r.llm);
    DestinationsTold(s, r.destinations);
  }

  /** The event is well-formed and lies in the day. */
  ghost predicate OfDay(e: AnalyticsEvent, day: int) {
    WellFormed(e) && day * 86_400_000_000 <= e.occurredAt < (day + 1) * 86_400_000_000
  }

  lemma AcceptedOne(r: Rollup, e: AnalyticsEvent)
    requires Accept(r, e).Some?
    ensures Accept(r, e).value.day == r.day && OfDay(e, r.day)
  {
    ValidIff(e);
  }

  lemma {:induction false} AcceptedOnDay(r: Rollup, events: seq<AnalyticsEvent>, day: int, i: nat)
    requires IngestAll(r, events).Some? && i < |events| && r.day == day
    ensures OfDay(events[i], day)
    decreases |events|
  {
    AcceptedOne(r, events[0]);
    if i > 0 {
      AcceptedOnDay(Accept(r, events[0]).value, events[1..], day, i - 1);
    }
  }

  /** A run in which no ingest fails took in well-formed events of its day only, and each of its rows is the count,
      the sums and the bounds over exactly the distinct events with the row's key columns: for a usage
      row those of one clock hour and one score bin. */
  lemma RowsMean(day: int, events: seq<AnalyticsEvent>)
    requires IngestAll(Fresh(day), events).Some?
    ensures
      var r := IngestAll(Fresh(day), events).value;
      && RollupMeans((set e | e in events), r) && r.day == day && WithinLimits(r)
      && forall e :: e in events ==> OfDay(e, day)
  {
    var s := set e | e in events;
    assert s == Elements(events);
    DayIsGroupBy(day, events, s);
    MatchesMeans(s, IngestAll(Fresh(day), events).value);
    FitIsWithin(IngestAll(Fresh(day), events).value);
    forall e | e in events ensures OfDay(e, day) {
      var i :| 0 <= i < |events| && events[i] == e;
      AcceptedOnDay(Fresh(day), events, day, i);
    }
  }
}
