/** The hash functions of crates/grith-audit/src/types.rs as they run: a builder is fed field by
    field, the filter results and the sorted score keys in loops. */
module HashBuilder {
  import opened Basics
  import opened Canonical
  import opened Contract
  import opened FieldNames
  import opened Records
  import opened RecordHash
  import opened Sorting

  method PutHead(c: Builder, lib: Lib, r: AuditRecord)
    requires c.Valid()
    modifies c
    ensures c.Valid() && c.entries == old(c.entries) + Head(lib, r)
  {
    c.PutText(ID, UuidText(r.id));
    c.PutText(TIMESTAMP, lib.rfc3339(r.timestamp));
    c.PutText(SESSION_ID, UuidText(r.sessionId));
    c.PutText(PLUGIN_ID, r.pluginId);
    c.PutText(TOOL_CALL_TYPE, r.toolCallType);
    c.PutText(ARGUMENTS_SUMMARY, r.argumentsSummary);
    c.PutText(ARGUMENTS_HASH, r.argumentsHash);
    c.PutFloat(COMPOSITE_SCORE, r.compositeScore);
    c.PutText(PROXY_ACTION, VerdictName(r.proxyAction));
    c.PutOptText(DECISION_REASON, r.decisionReason);
    c.PutOptText(ENFORCEMENT_OUTCOME, r.enforcementOutcome);
  }

  method PutFilter(c: Builder, fr: FilterResult)
    requires c.Valid()
    modifies c
    ensures c.Valid() && c.entries == old(c.entries) + FilterEntries(fr)
  {
    c.PutText(FR_FILTER_NAME, fr.filterName);
    c.PutText(FR_MATCHED, if fr.matched then "1" else "0");
    c.PutFloat(FR_SCORE, fr.score);
    c.PutText(FR_RULE_ID, fr.ruleId);
    c.PutText(FR_SEVERITY, fr.severity);
    c.PutText(FR_MESSAGE, fr.message);
  }

  method PutTail(c: Builder, r: AuditRecord)
    requires c.Valid()
    modifies c
    ensures c.Valid() && c.entries == old(c.entries) + Tail(r)
  {
    c.PutOptText(EXECUTION_RESULT, r.executionResult);
    c.PutFloat(EVALUATION_TIME_MS, r.evaluationTimeMs);
    c.PutOptText(TASK_CONTEXT, r.taskContext);
    c.PutText(SOURCE, r.source);
    c.PutOptText(SUPERVISED_TOOL, r.supervisedTool);
    c.PutOptText(SUPERVISED_PID, OptDecText(r.supervisedPid));
    c.PutOptText(PROJECT_NAME, r.projectName);
    c.PutOptText(CORRELATION_ID, OptUuid(r.correlationId));
    c.PutOptText(PREV_HASH, r.prevHash);
    c.PutOptText(CHAIN_SEQUENCE, OptInt(r.chainSequence));
  }

  method PutLlm(c: Builder, r: AuditRecord)
    requires c.Valid()
    modifies c
    ensures c.Valid() && c.entries == old(c.entries) + LlmTail(r)[..5]
  {
    c.PutOptText(LLM_PROVIDER, r.llmProvider);
    c.PutOptText(LLM_MODEL, r.llmModel);
    c.PutOptText(PROMPT_TOKENS, OptDecText(r.promptTokens));
    c.PutOptText(COMPLETION_TOKENS, OptDecText(r.completionTokens));
    c.PutOptText(ESTIMATED_COST_USD, OptBits(r.estimatedCostUsd));
  }

  method PutForensics(c: Builder, r: AuditRecord)
    requires c.Valid()
    modifies c
    ensures c.Valid() && c.entries == old(c.entries) + LlmTail(r)[5..]
  {
    c.PutOptText(SPAWN_SHA256, r.spawnSha256);
    c.PutOptText(MATCHED_ROUTINE_ROOT, r.matchedRoutineRoot);
    c.PutOptText(SHADOW_PHASE3_FILTERS, r.shadowPhase3Filters);
    c.PutOptText(ORIGINAL_ADDR, r.originalAddr);
    c.PutOptText(REWRITTEN_ADDR, r.rewrittenAddr);
    c.PutOptText(CLAMP_PROFILE_ENTRY, r.clampProfileEntry);
    c.PutText(RECORD_TYPE, RecordTypeName(r.recordType));
    c.PutText(HASH_VERSION, Dec(r.hashVersion));
  }

  method PutLlmTail(c: Builder, r: AuditRecord)
    requires c.Valid()
    modifies c
    ensures c.Valid() && c.entries == old(c.entries) + LlmTail(r)
  {
    PutLlm(c, r);
    PutForensics(c, r);
    JoinHalves(old(c.entries), LlmTail(r), 5);
  }

  method PutClass(c: Builder, m: AnalyticsMetadata)
    requires c.Valid()
    modifies c
    ensures c.Valid() && c.entries == old(c.entries) + ConfigEntries(m)[..5]
  {
    c.PutText(ANALYTICS_METADATA_PRESENT, "1");
    c.PutText(METADATA_VERSION, Dec(m.metadataVersion));
    c.PutText(COMPLETENESS, CompletenessName(m.completeness));
    c.PutText(RECORD_CLASS, RecordClassName(m.recordClass));
    c.PutText(CATEGORY, CategoryName(m.category));
  }

  method PutConfigFacts(c: Builder, m: AnalyticsMetadata)
    requires c.Valid()
    modifies c
    ensures c.Valid() && c.entries == old(c.entries) + ConfigEntries(m)[5..]
  {
    c.PutText(CONFIG_PROFILE_ID, m.config.profileId);
    c.PutText(CONFIG_PROFILE_VERSION, m.config.profileVersion);
    c.PutText(CONFIG_CONFIG_HASH, m.config.configHash);
    c.PutText(CONFIG_POLICY_VERSION, m.config.policyVersion);
    c.PutText(CONFIG_AUTO_ALLOW_THRESHOLD_MICROS, DecInt(m.config.autoAllowThresholdMicros));
    c.PutText(CONFIG_AUTO_DENY_THRESHOLD_MICROS, DecInt(m.config.autoDenyThresholdMicros));
    c.PutText(CONFIG_QUEUE_POLICY, m.config.queuePolicy);
    c.PutText(CONFIG_TEAM_DEFAULT_CONFIG_VERSION, m.config.teamDefaultConfigVersion);
    c.PutOptText(FILTER_SET_VERSION, OptDecText(m.filterSetVersion));
  }

  method PutConfig(c: Builder, m: AnalyticsMetadata)
    requires c.Valid()
    modifies c
    ensures c.Valid() && c.entries == old(c.entries) + ConfigEntries(m)
  {
    PutClass(c, m);
    PutConfigFacts(c, m);
    JoinHalves(old(c.entries), ConfigEntries(m), 5);
  }

  method PutPricing(c: Builder, p: Option<LlmPricing>)
    requires c.Valid()
    modifies c
    ensures c.Valid() && c.entries == old(c.entries) + PricingEntries(p)
  {
    match p {
      case None => c.PutAbsent(LLM_PRICING);
      case Some(v) =>
        c.PutText(LLM_PRICING_PRESENT, "1");
        c.PutText(LLM_PRICING_COST_MICROS, Dec(v.costMicros));
        c.PutText(LLM_PRICING_PRICE_SOURCE, v.priceSource);
        c.PutText(LLM_PRICING_PRICING_VERSION, v.pricingVersion);
    }
  }

  method PutDestination(c: Builder, d: Option<DestinationMetadata>)
    requires c.Valid()
    modifies c
    ensures c.Valid() && c.entries == old(c.entries) + DestinationEntries(d)
  {
    match d {
      case None => c.PutAbsent(DESTINATION);
      case Some(v) =>
        c.PutText(DESTINATION_PRESENT, "1");
        c.PutText(DESTINATION_KIND, DestinationKindName(v.kind));
        c.PutText(DESTINATION_HMAC, v.destinationHmac);
        c.PutText(DESTINATION_KEY_VERSION, Dec(v.hmacKeyVersion));
        c.PutOptText(DESTINATION_APPROVED_DISPLAY_LABEL, v.approvedDisplayLabel);
    }
  }

  method PutSecurity(c: Builder, lib: Lib, s: Option<SecurityMetadata>)
    requires c.Valid()
    modifies c
    ensures c.Valid() && c.entries == old(c.entries) + SecurityEntries(lib, s)
  {
    match s {
      case None => c.PutAbsent(SECURITY);
      case Some(v) =>
        c.PutText(SECURITY_PRESENT, "1");
        c.PutText(SECURITY_EVENT_TYPE, SecurityEventTypeName(v.eventType));
        c.PutText(SECURITY_EVENT_REVISION, Dec(v.eventRevision));
        c.PutOptText(SECURITY_RESOLUTION_STATUS, OptStatus(v.resolutionStatus));
        c.PutOptText(SECURITY_RESOLVED_AT, OptTime(lib, v.resolvedAt));
        c.PutOptText(SECURITY_RESOLUTION_CODE, v.resolutionCode);
        c.PutOptText(SECURITY_ENFORCEMENT_OUTCOME_CODE, v.enforcementOutcomeCode);
        c.PutOptText(SECURITY_GAP_COUNT, OptDecText(v.gapCount));
    }
  }

  method PutMetadata(c: Builder, lib: Lib, metadata: Option<AnalyticsMetadata>)
    requires c.Valid()
    modifies c
    ensures c.Valid() && c.entries == old(c.entries) + MetadataEntries(lib, metadata)
  {
    match metadata {
      case None => c.PutAbsent(ANALYTICS_METADATA);
      case Some(m) =>
        PutConfig(c, m);
        PutPricing(c, m.llmPricing);
        PutDestination(c, m.destination);
        PutSecurity(c, lib, m.security);
        Regroup5(old(c.entries), ConfigEntries(m), PricingEntries(m.llmPricing), DestinationEntries(m.destination),
                 SecurityEntries(lib, m.security));
    }
  }

  lemma JoinHalves<T>(a: seq<T>, b: seq<T>, n: nat)
    requires n <= |b|
    ensures a + b[..n] + b[n..] == a + b
  {
  }

  lemma Regroup5<T>(a: seq<T>, b: seq<T>, c: seq<T>, d: seq<T>, e: seq<T>)
    ensures a + b + c + d + e == a + (b + c + d + e)
  {
  }

  method PutFilters(c: Builder, r: AuditRecord)
    requires c.Valid()
    modifies c
    ensures c.Valid() && c.entries == old(c.entries) + Filters(r)
  {
    c.PutCount(FILTER_RESULTS, |r.filterResults|);
    PutFilterResults(c, r.filterResults);
    ConcatAssociates(
      old(c.entries), [CountEntry(FILTER_RESULTS, |r.filterResults|)], AllFilterEntries(r.filterResults));
  }

  method PutFilterResults(c: Builder, frs: seq<FilterResult>)
    requires c.Valid()
    modifies c
    ensures c.Valid() && c.entries == old(c.entries) + AllFilterEntries(frs)
  {
    for i := 0 to |frs|
      invariant c.Valid() && c.entries == old(c.entries) + AllFilterEntries(frs[..i])
    {
      PutFilter(c, frs[i]);
      AllFilterEntriesNext(frs, i);
      ConcatAssociates(old(c.entries), AllFilterEntries(frs[..i]), FilterEntries(frs[i]));
    }
    assert frs[..|frs|] == frs;
  }

  lemma AllFilterEntriesNext(frs: seq<FilterResult>, i: nat)
    requires i < |frs|
    ensures AllFilterEntries(frs[..i + 1]) == AllFilterEntries(frs[..i]) + FilterEntries(frs[i])
  {
    assert frs[..i + 1][..i] == frs[..i];
  }

  /** The keys in whatever order the map yields them. */
  method CollectKeys(scores: map<string, Bits64>) returns (keys: seq<string>)
    ensures multiset(keys) == multiset(scores.Keys)
  {
    keys := [];
    var remaining := scores.Keys;
    while remaining != {}
      invariant remaining <= scores.Keys
      invariant multiset(keys) + multiset(remaining) == multiset(scores.Keys)
    {
      var k :| k in remaining;
      keys, remaining := keys + [k], remaining - {k};
    }
  }

  method PutScores(c: Builder, r: AuditRecord)
    requires c.Valid()
    modifies c
    ensures c.Valid() && c.entries == old(c.entries) + Scores(r)
  {
    match r.filterScores {
      case None => c.PutAbsent(FILTER_SCORES);
      case Some(scores) =>
        var collected := CollectKeys(scores);
        KeyOrderIsIrrelevant(scores, collected);
        SortedKeysAreKeys(scores);
        var keys := Sort(collected, StringLeq);
        c.PutCount(FILTER_SCORES, |keys|);
        PutScoreEntries(c, keys, scores);
        ConcatAssociates(old(c.entries), [CountEntry(FILTER_SCORES, |keys|)], ScoreEntries(keys, scores));
    }
  }

  method PutScoreEntries(c: Builder, keys: seq<string>, scores: map<string, Bits64>)
    requires c.Valid() && forall k :: k in keys ==> k in scores
    modifies c
    ensures c.Valid() && c.entries == old(c.entries) + ScoreEntries(keys, scores)
  {
    for i := 0 to |keys|
      invariant c.Valid() && c.entries == old(c.entries) + ScoreEntries(keys[..i], scores)
    {
      PutScore(c, keys[i], scores[keys[i]]);
      ScoreEntriesNext(keys, scores, i);
      ConcatAssociates(old(c.entries), ScoreEntries(keys[..i], scores), ScoreEntry(keys[i], scores[keys[i]]));
    }
    assert keys[..|keys|] == keys;
  }

  function ScoreEntry(key: string, score: Bits64): seq<Entry> {
    [Text(FS_KEY, key), Text(FS_SCORE, HexBits(score))]
  }

  method PutScore(c: Builder, key: string, score: Bits64)
    requires c.Valid()
    modifies c
    ensures c.Valid() && c.entries == old(c.entries) + ScoreEntry(key, score)
  {
    c.PutText(FS_KEY, key);
    c.PutText(FS_SCORE, HexBits(score));
  }

  lemma ScoreEntriesNext(keys: seq<string>, scores: map<string, Bits64>, i: nat)
    requires i < |keys| && forall k :: k in keys ==> k in scores
    ensures ScoreEntries(keys[..i + 1], scores)
         == ScoreEntries(keys[..i], scores) + ScoreEntry(keys[i], scores[keys[i]])
  {
    assert keys[..i + 1][..i] == keys[..i];
  }

  method BuildV2(lib: Lib, r: AuditRecord) returns (c: Builder)
    ensures c.Valid() && c.domain == DOMAIN_V2 && c.entries == V2Entries(lib, r)
  {
    c := new Builder(DOMAIN_V2);
    PutHead(c, lib, r);
    PutFilters(c, r);
    PutScores(c, r);
    PutTail(c, r);
    PutLlmTail(c, r);
    assert [] + Head(lib, r) == Head(lib, r);
  }

  method ComputeRecordHashV2(lib: Lib, r: AuditRecord) returns (hash: string)
    ensures hash == HashV2(lib, r)
  {
    var c := BuildV2(lib, r);
    var text := c.Finish();
    hash := lib.sha256(text);
  }

  method BuildV3(lib: Lib, r: AuditRecord, digest: string) returns (c: Builder)
    ensures c.Valid() && c.domain == DOMAIN_V3
    ensures c.entries == [Text(V2_CANONICAL_DIGEST, digest)] + MetadataEntries(lib, r.analyticsMetadata)
  {
    c := new Builder(DOMAIN_V3);
    c.PutText(V2_CANONICAL_DIGEST, digest);
    PutMetadata(c, lib, r.analyticsMetadata);
  }

  method ComputeRecordHashV3(lib: Lib, r: AuditRecord) returns (hash: string)
    ensures hash == lib.sha256(PreimageV3(lib, r))
  {
    var digest := ComputeRecordHashV2(lib, r);
    var c := BuildV3(lib, r, digest);
    var text := c.Finish();
    hash := lib.sha256(text);
  }

  /** Dispatch on the record's own version; an unknown one yields a marker, not a digest. */
  method ComputeRecordHash(lib: Lib, r: AuditRecord) returns (hash: string)
    ensures hash == RecordHashOf(lib, r)
  {
    if r.hashVersion == LEGACY_HASH_VERSION {
      hash := lib.sha256(PreimageV1(lib, r));
    } else if r.hashVersion == HASH_VERSION_V2 {
      hash := ComputeRecordHashV2(lib, r);
    } else if r.hashVersion == CURRENT_HASH_VERSION {
      hash := ComputeRecordHashV3(lib, r);
    } else {
      hash := "UNSUPPORTED_HASH_VERSION:" + Dec(r.hashVersion);
    }
  }
}
