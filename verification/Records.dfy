/** The audit record of crates/grith-audit/src/types.rs. Doubles are bit patterns, a timestamp is
    its nanosecond count, a UUID is its 128 bits. */
module Records {
  import opened Basics
  import opened Hexadecimal
  import opened Canonical
  import opened Contract

  const LEGACY_HASH_VERSION := 1
  const HASH_VERSION_V2 := 2
  const CURRENT_HASH_VERSION := 3

  datatype Uuid = Uuid(hi: Bits64, lo: Bits64)

  /** The order of a UUID's bytes, which is also the order of its text. */
  predicate UuidLeq(a: Uuid, b: Uuid) { a.hi < b.hi || (a.hi == b.hi && a.lo <= b.lo) }

  datatype RecordType = Full | Compact

  /** The proxy's verdict on a call; types.rs calls it `ProxyActionSummary`. */
  type ProxyAction = Verdict

  datatype FilterResult = FilterResult(
    filterName: string, matched: bool, score: Bits64, ruleId: string, severity: string, message: string)

  datatype ConfigFacts = ConfigFacts(
    profileId: string, profileVersion: string, configHash: string, policyVersion: string,
    autoAllowThresholdMicros: int, autoDenyThresholdMicros: int, queuePolicy: string,
    teamDefaultConfigVersion: string)

  datatype LlmPricing = LlmPricing(costMicros: nat, priceSource: string, pricingVersion: string)

  datatype DestinationMetadata = DestinationMetadata(
    kind: DestinationKind, destinationHmac: string, hmacKeyVersion: nat, approvedDisplayLabel: Option<string>)

  datatype SecurityMetadata = SecurityMetadata(
    eventType: SecurityEventType, eventRevision: nat, resolutionStatus: Option<ResolutionStatus>,
    resolvedAt: Option<int>, resolutionCode: Option<string>, enforcementOutcomeCode: Option<string>,
    gapCount: Option<nat>)

  datatype AnalyticsMetadata = AnalyticsMetadata(
    metadataVersion: nat, completeness: CompletenessTier, recordClass: RecordClass, category: Category,
    config: ConfigFacts, filterSetVersion: Option<nat>, llmPricing: Option<LlmPricing>,
    destination: Option<DestinationMetadata>, security: Option<SecurityMetadata>)

  datatype AuditRecord = AuditRecord(
    id: Uuid, timestamp: int, sessionId: Uuid, pluginId: string, toolCallType: string,
    argumentsSummary: string, argumentsHash: string, compositeScore: Bits64, proxyAction: ProxyAction,
    decisionReason: Option<string>, enforcementOutcome: Option<string>,
    filterResults: seq<FilterResult>, filterScores: Option<map<string, Bits64>>,
    executionResult: Option<string>, evaluationTimeMs: Bits64, taskContext: Option<string>,
    source: string, supervisedTool: Option<string>, supervisedPid: Option<nat>,
    projectName: Option<string>, correlationId: Option<Uuid>,
    recordHash: Option<string>, prevHash: Option<string>, chainSequence: Option<int>,
    llmProvider: Option<string>, llmModel: Option<string>, promptTokens: Option<nat>,
    completionTokens: Option<nat>, estimatedCostUsd: Option<Bits64>,
    spawnSha256: Option<string>, matchedRoutineRoot: Option<string>, shadowPhase3Filters: Option<string>,
    originalAddr: Option<string>, rewrittenAddr: Option<string>, clampProfileEntry: Option<string>,
    recordType: RecordType, hashVersion: nat, analyticsMetadata: Option<AnalyticsMetadata>)

  function RecordTypeName(value: RecordType): string {
    match value
    case Full => "full"
    case Compact => "compact"
  }

  lemma {:induction false} HexLength(n: nat, width: nat)
    ensures |Hex(n, width)| == width
    ensures forall k :: 0 <= k < width ==> LowerHexDigit(Hex(n, width)[k])
  {
    if width > 0 {
      HexLength(n / 16, width - 1);
    }
  }

  function Hyphenated(hi: string, lo: string): string
    requires |hi| == 16 && |lo| == 16
  {
    hi[..8] + "-" + hi[8..12] + "-" + hi[12..] + "-" + lo[..4] + "-" + lo[4..]
  }

  /** The hyphenated lower-case form, 8-4-4-4-12 digits. */
  function UuidText(u: Uuid): string {
    HexLength(u.hi, 16);
    HexLength(u.lo, 16);
    Hyphenated(HexBits(u.hi), HexBits(u.lo))
  }

  lemma HyphenatedParts(hi: string, lo: string)
    requires |hi| == 16 && |lo| == 16
    ensures |Hyphenated(hi, lo)| == 36
    ensures hi == Hyphenated(hi, lo)[..8] + Hyphenated(hi, lo)[9..13] + Hyphenated(hi, lo)[14..18]
    ensures lo == Hyphenated(hi, lo)[19..23] + Hyphenated(hi, lo)[24..]
  {
    var t := Hyphenated(hi, lo);
    assert t[..8] == hi[..8] && t[9..13] == hi[8..12] && t[14..18] == hi[12..];
    assert t[19..23] == lo[..4] && t[24..] == lo[4..];
  }

  lemma UuidTextInjective(u: Uuid, v: Uuid)
    requires UuidText(u) == UuidText(v)
    ensures u == v
  {
    HexLength(u.hi, 16);
    HexLength(u.lo, 16);
    HexLength(v.hi, 16);
    HexLength(v.lo, 16);
    HyphenatedParts(HexBits(u.hi), HexBits(u.lo));
    HyphenatedParts(HexBits(v.hi), HexBits(v.lo));
    HexBitsInjective(u.hi, v.hi);
    HexBitsInjective(u.lo, v.lo);
  }

  /** A UUID's text never starts like a hash domain, which begins with 'g'. */
  lemma UuidTextStart(u: Uuid)
    ensures |UuidText(u)| == 36 && LowerHexDigit(UuidText(u)[0])
  {
    HexLength(u.hi, 16);
    HexLength(u.lo, 16);
    HyphenatedParts(HexBits(u.hi), HexBits(u.lo));
  }
}
