/** `compute_record_hash` of crates/grith-audit/src/types.rs: the three canonical forms and why
    equal hashes mean equal evidence. */
module RecordHash {
  import opened Basics
  import opened Canonical
  import opened Contract
  import opened FieldNames
  import opened Hexadecimal
  import opened Records
  import opened Sorting

  /** The library calls the hash depends on, as parameters. */
  datatype Lib = Lib(sha256: string -> string, rfc3339: int -> string, showFloat: Bits64 -> string)

  ghost predicate Injective<T(!new), U>(f: T -> U) {
    forall x, y :: f(x) == f(y) ==> x == y
  }

  /** SHA-256 read as collision-free, timestamp rendering as exact. */
  ghost predicate Faithful(lib: Lib) {
    Injective(lib.sha256) && Injective(lib.rfc3339)
  }

  /** Digests are written in lower-case hexadecimal. */
  ghost predicate HexDigests(lib: Lib) { forall x :: LowerHex(lib.sha256(x)) }

  /** Sixteen digits for every character: an injective text of hexadecimal digits. */
  function HexChars(s: string): string {
    if s == "" then "" else HexChars(s[..|s| - 1]) + HexBits(s[|s| - 1] as int)
  }

  lemma {:induction false} HexCharsIsHex(s: string)
    ensures LowerHex(HexChars(s)) && |HexChars(s)| == 16 * |s|
  {
    if s != "" {
      HexCharsIsHex(s[..|s| - 1]);
      HexLength(s[|s| - 1] as int, 16);
    }
  }

  lemma {:induction false} HexCharsInjective(s: string, t: string)
    requires HexChars(s) == HexChars(t)
    ensures s == t
  {
    HexCharsIsHex(s);
    HexCharsIsHex(t);
    if s != "" {
      var n := |s| - 1;
      HexCharsIsHex(s[..n]);
      HexCharsIsHex(t[..n]);
      Halves(HexChars(s[..n]), HexBits(s[n] as int), HexChars(t[..n]), HexBits(t[n] as int));
      HexCharsInjective(s[..n], t[..n]);
      HexBitsInjective(s[n] as int, t[n] as int);
      assert s == s[..n] + [s[n]] && t == t[..n] + [t[n]];
    }
  }

  /** The hypotheses are satisfiable: there are injective renderings, one of them in hexadecimal. */
  lemma FaithfulLibExists() returns (lib: Lib)
    ensures Faithful(lib) && HexDigests(lib)
  {
    lib := Lib(s => HexChars(s), n => DecInt(n), (x: Bits64) => HexBits(x));
    forall m, n | lib.rfc3339(m) == lib.rfc3339(n) ensures m == n {
      DecIntInjective(m, n);
    }
    forall s, t | lib.sha256(s) == lib.sha256(t) ensures s == t {
      HexCharsInjective(s, t);
    }
    forall s ensures LowerHex(lib.sha256(s)) {
      HexCharsIsHex(s);
    }
  }

  // ---------- Entries of the v2 form ----------

  function CountEntry(name: Name, n: nat): Entry { Text(name + ".len", Dec(n)) }

  function OptDecText(value: Option<nat>): Option<string> {
    match value case None => None case Some(n) => Some(Dec(n))
  }

  function OptDec(name: Name, value: Option<nat>): Entry { OptText(name, OptDecText(value)) }

  function Head(lib: Lib, r: AuditRecord): seq<Entry> {
    [Text(ID, UuidText(r.id)),
     Text(TIMESTAMP, lib.rfc3339(r.timestamp)),
     Text(SESSION_ID, UuidText(r.sessionId)),
     Text(PLUGIN_ID, r.pluginId),
     Text(TOOL_CALL_TYPE, r.toolCallType),
     Text(ARGUMENTS_SUMMARY, r.argumentsSummary),
     Text(ARGUMENTS_HASH, r.argumentsHash),
     Text(COMPOSITE_SCORE, HexBits(r.compositeScore)),
     Text(PROXY_ACTION, VerdictName(r.proxyAction)),
     OptText(DECISION_REASON, r.decisionReason),
     OptText(ENFORCEMENT_OUTCOME, r.enforcementOutcome)]
  }

  function FilterEntries(fr: FilterResult): seq<Entry> {
    [Text(FR_FILTER_NAME, fr.filterName),
     Text(FR_MATCHED, if fr.matched then "1" else "0"),
     Text(FR_SCORE, HexBits(fr.score)),
     Text(FR_RULE_ID, fr.ruleId),
     Text(FR_SEVERITY, fr.severity),
     Text(FR_MESSAGE, fr.message)]
  }

  function AllFilterEntries(frs: seq<FilterResult>): seq<Entry> {
    if frs == [] then [] else AllFilterEntries(frs[..|frs| - 1]) + FilterEntries(frs[|frs| - 1])
  }

  function Filters(r: AuditRecord): seq<Entry> {
    [CountEntry(FILTER_RESULTS, |r.filterResults|)] + AllFilterEntries(r.filterResults)
  }

  /** The sorted keys; sorting forgets the order the map hands them over in. */
  ghost function SortedKeys(scores: map<string, Bits64>): seq<string> {
    Sort(ListOf(scores.Keys), StringLeq)
  }

  function ScoreEntries(keys: seq<string>, scores: map<string, Bits64>): seq<Entry>
    requires forall k :: k in keys ==> k in scores
  {
    if keys == [] then []
    else
      var k := keys[|keys| - 1];
      ScoreEntries(keys[..|keys| - 1], scores) + [Text(FS_KEY, k), Text(FS_SCORE, HexBits(scores[k]))]
  }

  ghost function Scores(r: AuditRecord): seq<Entry> {
    match r.filterScores
    case None => [Absent(FILTER_SCORES)]
    case Some(scores) =>
      SortedKeysAreKeys(scores);
      [CountEntry(FILTER_SCORES, |SortedKeys(scores)|)] + ScoreEntries(SortedKeys(scores), scores)
  }

  function Tail(r: AuditRecord): seq<Entry> {
    [OptText(EXECUTION_RESULT, r.executionResult),
     Text(EVALUATION_TIME_MS, HexBits(r.evaluationTimeMs)),
     OptText(TASK_CONTEXT, r.taskContext),
     Text(SOURCE, r.source),
     OptText(SUPERVISED_TOOL, r.supervisedTool),
     OptDec(SUPERVISED_PID, r.supervisedPid),
     OptText(PROJECT_NAME, r.projectName),
     OptText(CORRELATION_ID, OptUuid(r.correlationId)),
     OptText(PREV_HASH, r.prevHash),
     OptText(CHAIN_SEQUENCE, OptInt(r.chainSequence))]
  }

  function LlmTail(r: AuditRecord): seq<Entry> {
    [OptText(LLM_PROVIDER, r.llmProvider),
     OptText(LLM_MODEL, r.llmModel),
     OptDec(PROMPT_TOKENS, r.promptTokens),
     OptDec(COMPLETION_TOKENS, r.completionTokens),
     OptText(ESTIMATED_COST_USD, OptBits(r.estimatedCostUsd)),
     OptText(SPAWN_SHA256, r.spawnSha256),
     OptText(MATCHED_ROUTINE_ROOT, r.matchedRoutineRoot),
     OptText(SHADOW_PHASE3_FILTERS, r.shadowPhase3Filters),
     OptText(ORIGINAL_ADDR, r.originalAddr),
     OptText(REWRITTEN_ADDR, r.rewrittenAddr),
     OptText(CLAMP_PROFILE_ENTRY, r.clampProfileEntry),
     Text(RECORD_TYPE, RecordTypeName(r.recordType)),
     Text(HASH_VERSION, Dec(r.hashVersion))]
  }

  function OptUuid(u: Option<Uuid>): Option<string> { match u case None => None case Some(v) => Some(UuidText(v)) }
  function OptInt(i: Option<int>): Option<string> { match i case None => None case Some(v) => Some(DecInt(v)) }
  function OptBits(b: Option<Bits64>): Option<string> { match b case None => None case Some(v) => Some(HexBits(v)) }

  ghost function V2Entries(lib: Lib, r: AuditRecord): seq<Entry> {
    Head(lib, r) + Filters(r) + Scores(r) + Tail(r) + LlmTail(r)
  }

  // ---------- Entries of the v3 form ----------

  function ConfigEntries(m: AnalyticsMetadata): seq<Entry> {
    [Text(ANALYTICS_METADATA_PRESENT, "1"),
     Text(METADATA_VERSION, Dec(m.metadataVersion)),
     Text(COMPLETENESS, CompletenessName(m.completeness)),
     Text(RECORD_CLASS, RecordClassName(m.recordClass)),
     Text(CATEGORY, CategoryName(m.category)),
     Text(CONFIG_PROFILE_ID, m.config.profileId),
     Text(CONFIG_PROFILE_VERSION, m.config.profileVersion),
     Text(CONFIG_CONFIG_HASH, m.config.configHash),
     Text(CONFIG_POLICY_VERSION, m.config.policyVersion),
     Text(CONFIG_AUTO_ALLOW_THRESHOLD_MICROS, DecInt(m.config.autoAllowThresholdMicros)),
     Text(CONFIG_AUTO_DENY_THRESHOLD_MICROS, DecInt(m.config.autoDenyThresholdMicros)),
     Text(CONFIG_QUEUE_POLICY, m.config.queuePolicy),
     Text(CONFIG_TEAM_DEFAULT_CONFIG_VERSION, m.config.teamDefaultConfigVersion),
     OptDec(FILTER_SET_VERSION, m.filterSetVersion)]
  }

  function PricingEntries(p: Option<LlmPricing>): seq<Entry> {
    match p
    case None => [Absent(LLM_PRICING)]
    case Some(v) =>
      [Text(LLM_PRICING_PRESENT, "1"),
       Text(LLM_PRICING_COST_MICROS, Dec(v.costMicros)),
       Text(LLM_PRICING_PRICE_SOURCE, v.priceSource),
       Text(LLM_PRICING_PRICING_VERSION, v.pricingVersion)]
  }

  function DestinationEntries(d: Option<DestinationMetadata>): seq<Entry> {
    match d
    case None => [Absent(DESTINATION)]
    case Some(v) =>
      [Text(DESTINATION_PRESENT, "1"),
       Text(DESTINATION_KIND, DestinationKindName(v.kind)),
       Text(DESTINATION_HMAC, v.destinationHmac),
       Text(DESTINATION_KEY_VERSION, Dec(v.hmacKeyVersion)),
       OptText(DESTINATION_APPROVED_DISPLAY_LABEL, v.approvedDisplayLabel)]
  }

  function OptStatus(s: Option<ResolutionStatus>): Option<string> {
    match s case None => None case Some(v) => Some(ResolutionStatusName(v))
  }

  function OptTime(lib: Lib, t: Option<int>): Option<string> {
    match t case None => None case Some(v) => Some(lib.rfc3339(v))
  }

  function SecurityEntries(lib: Lib, s: Option<SecurityMetadata>): seq<Entry> {
    match s
    case None => [Absent(SECURITY)]
    case Some(v) =>
      [Text(SECURITY_PRESENT, "1"),
       Text(SECURITY_EVENT_TYPE, SecurityEventTypeName(v.eventType)),
       Text(SECURITY_EVENT_REVISION, Dec(v.eventRevision)),
       OptText(SECURITY_RESOLUTION_STATUS, OptStatus(v.resolutionStatus)),
       OptText(SECURITY_RESOLVED_AT, OptTime(lib, v.resolvedAt)),
       OptText(SECURITY_RESOLUTION_CODE, v.resolutionCode),
       OptText(SECURITY_ENFORCEMENT_OUTCOME_CODE, v.enforcementOutcomeCode),
       OptDec(SECURITY_GAP_COUNT, v.gapCount)]
  }

  function MetadataEntries(lib: Lib, metadata: Option<AnalyticsMetadata>): seq<Entry> {
    match metadata
    case None => [Absent(ANALYTICS_METADATA)]
    case Some(m) =>
      ConfigEntries(m) + PricingEntries(m.llmPricing) + DestinationEntries(m.destination) +
      SecurityEntries(lib, m.security)
  }

  ghost function V3Entries(lib: Lib, r: AuditRecord): seq<Entry> {
    [Text(V2_CANONICAL_DIGEST, HashV2(lib, r))] + MetadataEntries(lib, r.analyticsMetadata)
  }

  // ---------- The hashes ----------

  const DOMAIN_V2 := "grith-audit-record-v2"
  const DOMAIN_V3 := "grith-audit-record-v3"

  /** The word the version-1 form writes for a predecessor that is not there. */
  const GENESIS := "GENESIS"

  function PrevText(prev: Option<string>): string { match prev case None => GENESIS case Some(h) => h }

  function FieldsV1(lib: Lib, r: AuditRecord): string {
    UuidText(r.id) + ("|" + lib.rfc3339(r.timestamp) + "|" + UuidText(r.sessionId) + "|" + r.pluginId + "|" +
    r.toolCallType + "|" + r.argumentsHash + "|" + lib.showFloat(r.compositeScore) + "|" + VerdictName(r.proxyAction))
  }

  /** The frozen pipe join over nine fields. */
  function PreimageV1(lib: Lib, r: AuditRecord): string { FieldsV1(lib, r) + "|" + PrevText(r.prevHash) }

  ghost function PreimageV2(lib: Lib, r: AuditRecord): string { Encode(DOMAIN_V2, V2Entries(lib, r)) }

  ghost function PreimageV3(lib: Lib, r: AuditRecord): string { Encode(DOMAIN_V3, V3Entries(lib, r)) }

  ghost function HashV2(lib: Lib, r: AuditRecord): string { lib.sha256(PreimageV2(lib, r)) }

  predicate Supported(r: AuditRecord) {
    r.hashVersion == LEGACY_HASH_VERSION || FullyHashed(r)
  }

  predicate FullyHashed(r: AuditRecord) {
    r.hashVersion == HASH_VERSION_V2 || r.hashVersion == CURRENT_HASH_VERSION
  }

  ghost function Preimage(lib: Lib, r: AuditRecord): string
    requires Supported(r)
  {
    if r.hashVersion == LEGACY_HASH_VERSION then PreimageV1(lib, r)
    else if r.hashVersion == HASH_VERSION_V2 then PreimageV2(lib, r)
    else PreimageV3(lib, r)
  }

  ghost function RecordHashOf(lib: Lib, r: AuditRecord): string {
    if Supported(r) then lib.sha256(Preimage(lib, r))
    else "UNSUPPORTED_HASH_VERSION:" + Dec(r.hashVersion)
  }

  /** What a version-2 or version-3 hash covers: all of the record but the stored hash itself and,
      under version 2, the analytics envelope that did not exist yet. */
  function Evidence(r: AuditRecord): AuditRecord {
    if r.hashVersion == HASH_VERSION_V2 then r.(recordHash := None, analyticsMetadata := None)
    else r.(recordHash := None)
  }

  // ---------- What the version-1 form determines ----------

  predicate Unjoined(s: string) { forall k :: 0 <= k < |s| ==> s[k] != '|' }

  lemma LastFieldDetermined(a: string, p: string, b: string, q: string)
    requires a + "|" + p == b + "|" + q && Unjoined(p) && Unjoined(q)
    ensures a == b && p == q
  {
    var s, t := a + "|" + p, b + "|" + q;
    assert s[|a|] == '|' && t[|b|] == '|';
    assert forall k :: |a| < k < |s| ==> s[k] == p[k - |a| - 1];
    assert forall k :: |b| < k < |t| ==> t[k] == q[k - |b| - 1];
    assert s[..|a|] == a && t[..|b|] == b && s[|a| + 1..] == p && t[|b| + 1..] == q;
  }

  /** Two records whose version-1 fields are the same share a hash only behind the same predecessor. */
  lemma FieldsV1Cancel(lib: Lib, r: AuditRecord, s: AuditRecord)
    requires FieldsV1(lib, r) == FieldsV1(lib, s) && PreimageV1(lib, r) == PreimageV1(lib, s)
    ensures PrevText(r.prevHash) == PrevText(s.prevHash)
  {
    Halves(FieldsV1(lib, r) + "|", PrevText(r.prevHash), FieldsV1(lib, s) + "|", PrevText(s.prevHash));
  }

  /** Behind predecessors that hold no bar, the version-1 form determines the id and the predecessor. */
  lemma PreimageV1Determines(lib: Lib, r: AuditRecord, s: AuditRecord)
    requires PreimageV1(lib, r) == PreimageV1(lib, s)
    requires Unjoined(PrevText(r.prevHash)) && Unjoined(PrevText(s.prevHash))
    ensures r.id == s.id && PrevText(r.prevHash) == PrevText(s.prevHash)
  {
    LastFieldDetermined(FieldsV1(lib, r), PrevText(r.prevHash), FieldsV1(lib, s), PrevText(s.prevHash));
    UuidTextStart(r.id);
    UuidTextStart(s.id);
    assert UuidText(r.id) == FieldsV1(lib, r)[..36] && UuidText(s.id) == FieldsV1(lib, s)[..36];
    UuidTextInjective(r.id, s.id);
  }

  // ---------- The score map has one encoding ----------

  lemma SortedKeysAreKeys(scores: map<string, Bits64>)
    ensures forall k :: k in SortedKeys(scores) <==> k in scores
  {
    ListOfElements(scores.Keys);
    SortKeepsElements(ListOf(scores.Keys), StringLeq);
  }

  /** Whatever order the map hands its keys over in, the sorted list is the same. */
  lemma KeyOrderIsIrrelevant(scores: map<string, Bits64>, iteration: seq<string>)
    requires multiset(iteration) == multiset(scores.Keys)
    ensures Sort(iteration, StringLeq) == SortedKeys(scores)
  {
    ListOfElements(scores.Keys);
    StringLeqIsPreorder();
    forall a, b | StringLeq(a, b) && StringLeq(b, a) ensures a == b {
      StringLeqAntisymmetric(a, b);
    }
    SortForgetsOrder(iteration, ListOf(scores.Keys), StringLeq);
  }

  // ---------- Each section determines its fields ----------

  lemma DecInjective(m: nat, n: nat)
    requires Dec(m) == Dec(n)
    ensures m == n
  {
    ParseDecInverts(m);
    ParseDecInverts(n);
  }

  lemma OptDecInjective(name: Name, v: Option<nat>, w: Option<nat>)
    requires OptDec(name, v) == OptDec(name, w)
    ensures v == w
  {
    if v.Some? && w.Some? {
      DecInjective(v.value, w.value);
    }
  }

  lemma OptTextInjective(name: Name, v: Option<string>, w: Option<string>)
    requires OptText(name, v) == OptText(name, w)
    ensures v == w
  {
  }

  lemma HeadInjective(lib: Lib, r: AuditRecord, s: AuditRecord)
    requires Faithful(lib) && Head(lib, r) == Head(lib, s)
    ensures r.id == s.id && r.timestamp == s.timestamp && r.sessionId == s.sessionId
    ensures r.pluginId == s.pluginId && r.toolCallType == s.toolCallType
    ensures r.argumentsSummary == s.argumentsSummary && r.argumentsHash == s.argumentsHash
    ensures r.compositeScore == s.compositeScore && r.proxyAction == s.proxyAction
    ensures r.decisionReason == s.decisionReason && r.enforcementOutcome == s.enforcementOutcome
  {
    var a, b := Head(lib, r), Head(lib, s);
    assert a[0] == b[0] && a[1] == b[1] && a[2] == b[2] && a[3] == b[3] && a[4] == b[4] && a[5] == b[5];
    assert a[6] == b[6] && a[7] == b[7] && a[8] == b[8] && a[9] == b[9] && a[10] == b[10];
    UuidTextInjective(r.id, s.id);
    UuidTextInjective(r.sessionId, s.sessionId);
    HexBitsInjective(r.compositeScore, s.compositeScore);
    VerdictRoundTrip(r.proxyAction);
    VerdictRoundTrip(s.proxyAction);
    OptTextInjective(DECISION_REASON, r.decisionReason, s.decisionReason);
    OptTextInjective(ENFORCEMENT_OUTCOME, r.enforcementOutcome, s.enforcementOutcome);
  }

  lemma FilterInjective(fr: FilterResult, gr: FilterResult)
    requires FilterEntries(fr) == FilterEntries(gr)
    ensures fr == gr
  {
    var a, b := FilterEntries(fr), FilterEntries(gr);
    assert a[0] == b[0] && a[1] == b[1] && a[2] == b[2] && a[3] == b[3] && a[4] == b[4] && a[5] == b[5];
    HexBitsInjective(fr.score, gr.score);
  }

  lemma {:induction false} FilterEntriesLength(frs: seq<FilterResult>)
    ensures |AllFilterEntries(frs)| == 6 * |frs|
  {
    if frs != [] {
      FilterEntriesLength(frs[..|frs| - 1]);
    }
  }

  lemma {:induction false} AllFiltersInjective(frs: seq<FilterResult>, grs: seq<FilterResult>)
    requires AllFilterEntries(frs) == AllFilterEntries(grs)
    ensures frs == grs
  {
    FilterEntriesLength(frs);
    FilterEntriesLength(grs);
    if frs != [] {
      var n := |frs| - 1;
      FilterEntriesLength(frs[..n]);
      FilterEntriesLength(grs[..n]);
      Halves(AllFilterEntries(frs[..n]), FilterEntries(frs[n]), AllFilterEntries(grs[..n]), FilterEntries(grs[n]));
      AllFiltersInjective(frs[..n], grs[..n]);
      FilterInjective(frs[n], grs[n]);
      assert frs == frs[..n] + [frs[n]] && grs == grs[..n] + [grs[n]];
    }
  }

  /** Equal concatenations with equally long first halves have equal halves. */
  lemma Halves<T>(a: seq<T>, b: seq<T>, c: seq<T>, d: seq<T>)
    requires a + b == c + d && |a| == |c|
    ensures a == c && b == d
  {
    assert (a + b)[..|a|] == a && (c + d)[..|c|] == c && (a + b)[|a|..] == b && (c + d)[|c|..] == d;
  }

  lemma {:induction false} ScoreEntriesLength(keys: seq<string>, scores: map<string, Bits64>)
    requires forall k :: k in keys ==> k in scores
    ensures |ScoreEntries(keys, scores)| == 2 * |keys|
  {
    if keys != [] {
      ScoreEntriesLength(keys[..|keys| - 1], scores);
    }
  }

  lemma {:induction false} ScoreEntriesInjective(
    keys: seq<string>, scores: map<string, Bits64>, keys': seq<string>, scores': map<string, Bits64>)
    requires (forall k :: k in keys ==> k in scores) && (forall k :: k in keys' ==> k in scores')
    requires ScoreEntries(keys, scores) == ScoreEntries(keys', scores')
    ensures keys == keys' && forall k :: k in keys ==> scores[k] == scores'[k]
  {
    ScoreEntriesLength(keys, scores);
    ScoreEntriesLength(keys', scores');
    if keys != [] {
      var n := |keys| - 1;
      var k, k' := keys[n], keys'[n];
      ScoreEntriesLength(keys[..n], scores);
      ScoreEntriesLength(keys'[..n], scores');
      var last, last' := [Text(FS_KEY, k), Text(FS_SCORE, HexBits(scores[k]))],
                         [Text(FS_KEY, k'), Text(FS_SCORE, HexBits(scores'[k']))];
      Halves(ScoreEntries(keys[..n], scores), last, ScoreEntries(keys'[..n], scores'), last');
      ScorePairInjective(k, scores[k], k', scores'[k']);
      ScoreEntriesInjective(keys[..n], scores, keys'[..n], scores');
      SameButLast(keys, keys', n);
    }
  }

  lemma ScorePairInjective(k: string, x: Bits64, k': string, y: Bits64)
    requires [Text(FS_KEY, k), Text(FS_SCORE, HexBits(x))] == [Text(FS_KEY, k'), Text(FS_SCORE, HexBits(y))]
    ensures k == k' && x == y
  {
    var a, b := [Text(FS_KEY, k), Text(FS_SCORE, HexBits(x))], [Text(FS_KEY, k'), Text(FS_SCORE, HexBits(y))];
    assert a[0] == b[0] && a[1] == b[1];
    HexBitsInjective(x, y);
  }

  lemma SameButLast(a: seq<string>, b: seq<string>, n: nat)
    requires |a| == n + 1 == |b| && a[..n] == b[..n] && a[n] == b[n]
    ensures a == b
  {
    assert a == a[..n] + [a[n]] && b == b[..n] + [b[n]];
  }

  /** The first entry of the score section fixes how long the section is. */
  lemma ScoresDetermined(r: AuditRecord, s: AuditRecord, x: seq<Entry>, y: seq<Entry>)
    requires Scores(r) + x == Scores(s) + y
    ensures r.filterScores == s.filterScores && x == y
  {
    var a, b := Scores(r), Scores(s);
    assert (a + x)[0] == (b + y)[0];
    if r.filterScores.Some? && s.filterScores.Some? {
      var m, m' := r.filterScores.value, s.filterScores.value;
      SortedKeysAreKeys(m);
      SortedKeysAreKeys(m');
      var keys, keys' := SortedKeys(m), SortedKeys(m');
      DecInjective(|keys|, |keys'|);
      ScoreEntriesLength(keys, m);
      ScoreEntriesLength(keys', m');
      Halves(a, x, b, y);
      Halves([CountEntry(FILTER_SCORES, |keys|)], ScoreEntries(keys, m), [CountEntry(FILTER_SCORES, |keys'|)],
        ScoreEntries(keys', m'));
      ScoreEntriesInjective(keys, m, keys', m');
      assert m.Keys == m'.Keys;
      assert m == m';
    } else {
      Halves(a, x, b, y);
    }
  }

  lemma FiltersDetermined(r: AuditRecord, s: AuditRecord, x: seq<Entry>, y: seq<Entry>)
    requires Filters(r) + x == Filters(s) + y
    ensures r.filterResults == s.filterResults && x == y
  {
    assert (Filters(r) + x)[0] == (Filters(s) + y)[0];
    DecInjective(|r.filterResults|, |s.filterResults|);
    FilterEntriesLength(r.filterResults);
    FilterEntriesLength(s.filterResults);
    Halves(Filters(r), x, Filters(s), y);
    Halves([CountEntry(FILTER_RESULTS, |r.filterResults|)], AllFilterEntries(r.filterResults),
           [CountEntry(FILTER_RESULTS, |s.filterResults|)], AllFilterEntries(s.filterResults));
    AllFiltersInjective(r.filterResults, s.filterResults);
  }

  lemma OptUuidInjective(u: Option<Uuid>, v: Option<Uuid>)
    requires OptUuid(u) == OptUuid(v)
    ensures u == v
  {
    if u.Some? && v.Some? {
      UuidTextInjective(u.value, v.value);
    }
  }

  lemma OptIntInjective(i: Option<int>, j: Option<int>)
    requires OptInt(i) == OptInt(j)
    ensures i == j
  {
    if i.Some? && j.Some? {
      DecIntInjective(i.value, j.value);
    }
  }

  lemma OptBitsInjective(x: Option<Bits64>, y: Option<Bits64>)
    requires OptBits(x) == OptBits(y)
    ensures x == y
  {
    if x.Some? && y.Some? {
      HexBitsInjective(x.value, y.value);
    }
  }

  lemma TailInjective(r: AuditRecord, s: AuditRecord)
    requires Tail(r) == Tail(s)
    ensures r.executionResult == s.executionResult && r.evaluationTimeMs == s.evaluationTimeMs
    ensures r.taskContext == s.taskContext && r.source == s.source && r.supervisedTool == s.supervisedTool
    ensures r.supervisedPid == s.supervisedPid && r.projectName == s.projectName
    ensures r.correlationId == s.correlationId && r.prevHash == s.prevHash && r.chainSequence == s.chainSequence
  {
    var a, b := Tail(r), Tail(s);
    assert a[0] == b[0] && a[1] == b[1] && a[2] == b[2] && a[3] == b[3] && a[4] == b[4];
    assert a[5] == b[5] && a[6] == b[6] && a[7] == b[7] && a[8] == b[8] && a[9] == b[9];
    HexBitsInjective(r.evaluationTimeMs, s.evaluationTimeMs);
    OptTextInjective(EXECUTION_RESULT, r.executionResult, s.executionResult);
    OptTextInjective(TASK_CONTEXT, r.taskContext, s.taskContext);
    OptTextInjective(SUPERVISED_TOOL, r.supervisedTool, s.supervisedTool);
    OptDecInjective(SUPERVISED_PID, r.supervisedPid, s.supervisedPid);
    OptTextInjective(PROJECT_NAME, r.projectName, s.projectName);
    OptTextInjective(CORRELATION_ID, OptUuid(r.correlationId), OptUuid(s.correlationId));
    OptUuidInjective(r.correlationId, s.correlationId);
    OptTextInjective(PREV_HASH, r.prevHash, s.prevHash);
    OptTextInjective(CHAIN_SEQUENCE, OptInt(r.chainSequence), OptInt(s.chainSequence));
    OptIntInjective(r.chainSequence, s.chainSequence);
  }

  lemma LlmTailInjective(r: AuditRecord, s: AuditRecord)
    requires LlmTail(r) == LlmTail(s)
    ensures r.llmProvider == s.llmProvider && r.llmModel == s.llmModel
    ensures r.promptTokens == s.promptTokens && r.completionTokens == s.completionTokens
    ensures r.estimatedCostUsd == s.estimatedCostUsd && r.spawnSha256 == s.spawnSha256
    ensures r.matchedRoutineRoot == s.matchedRoutineRoot && r.shadowPhase3Filters == s.shadowPhase3Filters
    ensures r.originalAddr == s.originalAddr && r.rewrittenAddr == s.rewrittenAddr
    ensures r.clampProfileEntry == s.clampProfileEntry
    ensures r.recordType == s.recordType && r.hashVersion == s.hashVersion
  {
    var a, b := LlmTail(r), LlmTail(s);
    assert a[0] == b[0] && a[1] == b[1] && a[2] == b[2] && a[3] == b[3] && a[4] == b[4] && a[5] == b[5];
    assert a[6] == b[6] && a[7] == b[7] && a[8] == b[8] && a[9] == b[9] && a[10] == b[10];
    assert a[11] == b[11] && a[12] == b[12];
    OptTextInjective(LLM_PROVIDER, r.llmProvider, s.llmProvider);
    OptTextInjective(LLM_MODEL, r.llmModel, s.llmModel);
    OptDecInjective(PROMPT_TOKENS, r.promptTokens, s.promptTokens);
    OptDecInjective(COMPLETION_TOKENS, r.completionTokens, s.completionTokens);
    OptTextInjective(ESTIMATED_COST_USD, OptBits(r.estimatedCostUsd), OptBits(s.estimatedCostUsd));
    OptBitsInjective(r.estimatedCostUsd, s.estimatedCostUsd);
    OptTextInjective(SPAWN_SHA256, r.spawnSha256, s.spawnSha256);
    OptTextInjective(MATCHED_ROUTINE_ROOT, r.matchedRoutineRoot, s.matchedRoutineRoot);
    OptTextInjective(SHADOW_PHASE3_FILTERS, r.shadowPhase3Filters, s.shadowPhase3Filters);
    OptTextInjective(ORIGINAL_ADDR, r.originalAddr, s.originalAddr);
    OptTextInjective(REWRITTEN_ADDR, r.rewrittenAddr, s.rewrittenAddr);
    OptTextInjective(CLAMP_PROFILE_ENTRY, r.clampProfileEntry, s.clampProfileEntry);
    DecInjective(r.hashVersion, s.hashVersion);
  }

  /** The v2 bytes determine every field they cover: the whole record but its stored hash and the
      analytics envelope. */
  lemma PreimageV2Injective(lib: Lib, r: AuditRecord, s: AuditRecord)
    requires Faithful(lib) && PreimageV2(lib, r) == PreimageV2(lib, s)
    ensures r.(recordHash := None, analyticsMetadata := None) == s.(recordHash := None, analyticsMetadata := None)
  {
    EncodeInjective(DOMAIN_V2, V2Entries(lib, r), V2Entries(lib, s));
    V2EntriesSplit(lib, r, s);
    HeadInjective(lib, r, s);
    TailInjective(r, s);
    LlmTailInjective(r, s);
  }

  lemma Regroup<T>(a: seq<T>, b: seq<T>, c: seq<T>, d: seq<T>, e: seq<T>)
    ensures a + b + c + d + e == a + (b + (c + (d + e)))
  {
  }

  lemma V2EntriesSplit(lib: Lib, r: AuditRecord, s: AuditRecord)
    requires V2Entries(lib, r) == V2Entries(lib, s)
    ensures Head(lib, r) == Head(lib, s) && Tail(r) == Tail(s) && LlmTail(r) == LlmTail(s)
    ensures r.filterResults == s.filterResults && r.filterScores == s.filterScores
  {
    var rest, rest' := Tail(r) + LlmTail(r), Tail(s) + LlmTail(s);
    Regroup(Head(lib, r), Filters(r), Scores(r), Tail(r), LlmTail(r));
    Regroup(Head(lib, s), Filters(s), Scores(s), Tail(s), LlmTail(s));
    Halves(Head(lib, r), Filters(r) + (Scores(r) + rest), Head(lib, s), Filters(s) + (Scores(s) + rest'));
    FiltersDetermined(r, s, Scores(r) + rest, Scores(s) + rest');
    ScoresDetermined(r, s, rest, rest');
    Halves(Tail(r), LlmTail(r), Tail(s), LlmTail(s));
  }

  // ---------- The analytics envelope ----------

  lemma ConfigInjective(m: AnalyticsMetadata, n: AnalyticsMetadata)
    requires ConfigEntries(m) == ConfigEntries(n)
    ensures m.metadataVersion == n.metadataVersion && m.completeness == n.completeness
    ensures m.recordClass == n.recordClass && m.category == n.category
    ensures m.config == n.config && m.filterSetVersion == n.filterSetVersion
  {
    var a, b := ConfigEntries(m), ConfigEntries(n);
    assert a[1] == b[1] && a[2] == b[2] && a[3] == b[3] && a[4] == b[4] && a[5] == b[5] && a[6] == b[6];
    assert a[7] == b[7] && a[8] == b[8] && a[9] == b[9] && a[10] == b[10] && a[11] == b[11] && a[12] == b[12];
    assert a[13] == b[13];
    DecInjective(m.metadataVersion, n.metadataVersion);
    CompletenessRoundTrip(m.completeness);
    CompletenessRoundTrip(n.completeness);
    RecordClassRoundTrip(m.recordClass);
    RecordClassRoundTrip(n.recordClass);
    CategoryRoundTrip(m.category);
    CategoryRoundTrip(n.category);
    DecIntInjective(m.config.autoAllowThresholdMicros, n.config.autoAllowThresholdMicros);
    DecIntInjective(m.config.autoDenyThresholdMicros, n.config.autoDenyThresholdMicros);
    OptDecInjective(FILTER_SET_VERSION, m.filterSetVersion, n.filterSetVersion);
  }

  lemma PricingDetermined(p: Option<LlmPricing>, q: Option<LlmPricing>, x: seq<Entry>, y: seq<Entry>)
    requires PricingEntries(p) + x == PricingEntries(q) + y
    ensures p == q && x == y
  {
    var a, b := PricingEntries(p), PricingEntries(q);
    assert (a + x)[0] == (b + y)[0];
    Halves(a, x, b, y);
    if p.Some? {
      assert a[1] == b[1] && a[2] == b[2] && a[3] == b[3];
      DecInjective(p.value.costMicros, q.value.costMicros);
    }
  }

  lemma DestinationDetermined(
    d: Option<DestinationMetadata>, e: Option<DestinationMetadata>, x: seq<Entry>, y: seq<Entry>)
    requires DestinationEntries(d) + x == DestinationEntries(e) + y
    ensures d == e && x == y
  {
    var a, b := DestinationEntries(d), DestinationEntries(e);
    assert (a + x)[0] == (b + y)[0];
    Halves(a, x, b, y);
    if d.Some? {
      assert a[1] == b[1] && a[2] == b[2] && a[3] == b[3] && a[4] == b[4];
      DestinationKindNameInjective(d.value.kind, e.value.kind);
      DecInjective(d.value.hmacKeyVersion, e.value.hmacKeyVersion);
      OptTextInjective(DESTINATION_APPROVED_DISPLAY_LABEL, d.value.approvedDisplayLabel, e.value.approvedDisplayLabel);
    }
  }

  lemma SecurityInjective(lib: Lib, s: Option<SecurityMetadata>, t: Option<SecurityMetadata>)
    requires Faithful(lib) && SecurityEntries(lib, s) == SecurityEntries(lib, t)
    ensures s == t
  {
    var a, b := SecurityEntries(lib, s), SecurityEntries(lib, t);
    assert a[0] == b[0];
    if s.Some? {
      var v, w := s.value, t.value;
      assert a[1] == b[1] && a[2] == b[2] && a[3] == b[3] && a[4] == b[4] && a[5] == b[5] && a[6] == b[6]
        && a[7] == b[7];
      SecurityEventTypeNameInjective(v.eventType, w.eventType);
      DecInjective(v.eventRevision, w.eventRevision);
      OptTextInjective(SECURITY_RESOLUTION_STATUS, OptStatus(v.resolutionStatus), OptStatus(w.resolutionStatus));
      if v.resolutionStatus.Some? {
        ResolutionStatusNameInjective(v.resolutionStatus.value, w.resolutionStatus.value);
      }
      OptTextInjective(SECURITY_RESOLVED_AT, OptTime(lib, v.resolvedAt), OptTime(lib, w.resolvedAt));
      OptTextInjective(SECURITY_RESOLUTION_CODE, v.resolutionCode, w.resolutionCode);
      OptTextInjective(SECURITY_ENFORCEMENT_OUTCOME_CODE, v.enforcementOutcomeCode, w.enforcementOutcomeCode);
      OptDecInjective(SECURITY_GAP_COUNT, v.gapCount, w.gapCount);
    }
  }

  lemma MetadataInjective(lib: Lib, m: Option<AnalyticsMetadata>, n: Option<AnalyticsMetadata>)
    requires Faithful(lib) && MetadataEntries(lib, m) == MetadataEntries(lib, n)
    ensures m == n
  {
    assert MetadataEntries(lib, m)[0] == MetadataEntries(lib, n)[0];
    if m.Some? {
      var v, w := m.value, n.value;
      var sec, sec' := SecurityEntries(lib, v.security), SecurityEntries(lib, w.security);
      Regroup(ConfigEntries(v), PricingEntries(v.llmPricing), DestinationEntries(v.destination), sec, []);
      Regroup(ConfigEntries(w), PricingEntries(w.llmPricing), DestinationEntries(w.destination), sec', []);
      assert sec + [] == sec && sec' + [] == sec';
      Halves(ConfigEntries(v), PricingEntries(v.llmPricing) + (DestinationEntries(v.destination) + sec),
             ConfigEntries(w), PricingEntries(w.llmPricing) + (DestinationEntries(w.destination) + sec'));
      ConfigInjective(v, w);
      PricingDetermined(v.llmPricing, w.llmPricing, DestinationEntries(v.destination) + sec,
        DestinationEntries(w.destination) + sec');
      DestinationDetermined(v.destination, w.destination, sec, sec');
      SecurityInjective(lib, v.security, w.security);
    }
  }

  /** The v3 bytes determine the v2 digest, hence the record, and the analytics envelope. */
  lemma PreimageV3Injective(lib: Lib, r: AuditRecord, s: AuditRecord)
    requires Faithful(lib) && PreimageV3(lib, r) == PreimageV3(lib, s)
    ensures r.(recordHash := None) == s.(recordHash := None)
  {
    EncodeInjective(DOMAIN_V3, V3Entries(lib, r), V3Entries(lib, s));
    assert V3Entries(lib, r)[0] == V3Entries(lib, s)[0];
    Halves([Text(V2_CANONICAL_DIGEST, HashV2(lib, r))], MetadataEntries(lib, r.analyticsMetadata),
           [Text(V2_CANONICAL_DIGEST, HashV2(lib, s))], MetadataEntries(lib, s.analyticsMetadata));
    MetadataInjective(lib, r.analyticsMetadata, s.analyticsMetadata);
    PreimageV2Injective(lib, r, s);
    assert r.(recordHash := None)
      == r.(recordHash := None, analyticsMetadata := None).(analyticsMetadata := r.analyticsMetadata);
    assert s.(recordHash := None)
      == s.(recordHash := None, analyticsMetadata := None).(analyticsMetadata := s.analyticsMetadata);
  }

  // ---------- Versions never meet ----------

  lemma DomainShows(domain: string, es: seq<Entry>, k: nat)
    requires k < |domain|
    ensures k < |Encode(domain, es)| && Encode(domain, es)[k] == domain[k]
  {
  }

  lemma V1Start(lib: Lib, r: AuditRecord)
    ensures |PreimageV1(lib, r)| > 0 && PreimageV1(lib, r)[0] != 'g'
  {
    UuidTextStart(r.id);
    assert PreimageV1(lib, r)[0] == UuidText(r.id)[0];
  }

  lemma PreimagesDiffer(lib: Lib, r: AuditRecord, s: AuditRecord)
    ensures PreimageV2(lib, r) != PreimageV3(lib, s)
    ensures PreimageV1(lib, r) != PreimageV2(lib, s)
    ensures PreimageV1(lib, r) != PreimageV3(lib, s)
  {
    DomainShows(DOMAIN_V2, V2Entries(lib, r), 20);
    DomainShows(DOMAIN_V3, V3Entries(lib, s), 20);
    DomainShows(DOMAIN_V2, V2Entries(lib, s), 0);
    DomainShows(DOMAIN_V3, V3Entries(lib, s), 0);
    assert DOMAIN_V2[20] == '2' && DOMAIN_V3[20] == '3' && DOMAIN_V2[0] == 'g' && DOMAIN_V3[0] == 'g';
    V1Start(lib, r);
  }

  lemma NoCollision(lib: Lib, x: string, y: string)
    requires Faithful(lib) && lib.sha256(x) == lib.sha256(y)
    ensures x == y
  {
  }

  /** Equal pre-images, one of them v2 or v3, are of one version. */
  lemma PreimageDeterminesVersion(lib: Lib, r: AuditRecord, s: AuditRecord)
    requires FullyHashed(r) && Supported(s) && Preimage(lib, r) == Preimage(lib, s)
    ensures r.hashVersion == s.hashVersion
  {
    PreimagesDiffer(lib, r, s);
    PreimagesDiffer(lib, s, r);
  }

  /** Equal record hashes of version-2 or version-3 records mean equal evidence; a record of
      another supported version never shares the hash. */
  lemma HashDeterminesEvidence(lib: Lib, r: AuditRecord, s: AuditRecord)
    requires Faithful(lib) && FullyHashed(r) && Supported(s)
    requires RecordHashOf(lib, r) == RecordHashOf(lib, s)
    ensures r.hashVersion == s.hashVersion && Evidence(r) == Evidence(s)
  {
    NoCollision(lib, Preimage(lib, r), Preimage(lib, s));
    PreimageDeterminesVersion(lib, r, s);
    if r.hashVersion == HASH_VERSION_V2 {
      PreimageV2Injective(lib, r, s);
    } else {
      PreimageV3Injective(lib, r, s);
    }
  }
}
