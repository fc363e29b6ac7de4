/** The field names crates/grith-audit/src/types.rs hashes under. */
module FieldNames {
  import opened Canonical

  const ID: Name := "id"
  const TIMESTAMP: Name := "timestamp"
  const SESSION_ID: Name := "session_id"
  const PLUGIN_ID: Name := "plugin_id"
  const TOOL_CALL_TYPE: Name := "tool_call_type"
  const ARGUMENTS_SUMMARY: Name := "arguments_summary"
  const ARGUMENTS_HASH: Name := "arguments_hash"
  const COMPOSITE_SCORE: Name := "composite_score"
  const PROXY_ACTION: Name := "proxy_action"
  const DECISION_REASON: Name := "decision_reason"
  const ENFORCEMENT_OUTCOME: Name := "enforcement_outcome"
  const FR_FILTER_NAME: Name := "fr.filter_name"
  const FR_MATCHED: Name := "fr.matched"
  const FR_SCORE: Name := "fr.score"
  const FR_RULE_ID: Name := "fr.rule_id"
  const FR_SEVERITY: Name := "fr.severity"
  const FR_MESSAGE: Name := "fr.message"
  const FILTER_RESULTS: Name := "filter_results"
  const FS_KEY: Name := "fs.key"
  const FS_SCORE: Name := "fs.score"
  const FILTER_SCORES: Name := "filter_scores"
  const EXECUTION_RESULT: Name := "execution_result"
  const EVALUATION_TIME_MS: Name := "evaluation_time_ms"
  const TASK_CONTEXT: Name := "task_context"
  const SOURCE: Name := "source"
  const SUPERVISED_TOOL: Name := "supervised_tool"
  const SUPERVISED_PID: Name := "supervised_pid"
  const PROJECT_NAME: Name := "project_name"
  const CORRELATION_ID: Name := "correlation_id"
  const PREV_HASH: Name := "prev_hash"
  const CHAIN_SEQUENCE: Name := "chain_sequence"
  const LLM_PROVIDER: Name := "llm_provider"
  const LLM_MODEL: Name := "llm_model"
  const PROMPT_TOKENS: Name := "prompt_tokens"
  const COMPLETION_TOKENS: Name := "completion_tokens"
  const ESTIMATED_COST_USD: Name := "estimated_cost_usd"
  const SPAWN_SHA256: Name := "spawn_sha256"
  const MATCHED_ROUTINE_ROOT: Name := "matched_routine_root"
  const SHADOW_PHASE3_FILTERS: Name := "shadow_phase3_filters"
  const ORIGINAL_ADDR: Name := "original_addr"
  const REWRITTEN_ADDR: Name := "rewritten_addr"
  const CLAMP_PROFILE_ENTRY: Name := "clamp_profile_entry"
  const RECORD_TYPE: Name := "record_type"
  const HASH_VERSION: Name := "hash_version"
  const ANALYTICS_METADATA_PRESENT: Name := "analytics_metadata.present"
  const METADATA_VERSION: Name := "metadata_version"
  const COMPLETENESS: Name := "completeness"
  const RECORD_CLASS: Name := "record_class"
  const CATEGORY: Name := "category"
  const CONFIG_PROFILE_ID: Name := "config.profile_id"
  const CONFIG_PROFILE_VERSION: Name := "config.profile_version"
  const CONFIG_CONFIG_HASH: Name := "config.config_hash"
  const CONFIG_POLICY_VERSION: Name := "config.policy_version"
  const CONFIG_AUTO_ALLOW_THRESHOLD_MICROS: Name := "config.auto_allow_threshold_micros"
  const CONFIG_AUTO_DENY_THRESHOLD_MICROS: Name := "config.auto_deny_threshold_micros"
  const CONFIG_QUEUE_POLICY: Name := "config.queue_policy"
  const CONFIG_TEAM_DEFAULT_CONFIG_VERSION: Name := "config.team_default_config_version"
  const FILTER_SET_VERSION: Name := "filter_set_version"
  const LLM_PRICING: Name := "llm_pricing"
  const LLM_PRICING_PRESENT: Name := "llm_pricing.present"
  const LLM_PRICING_COST_MICROS: Name := "llm_pricing.cost_micros"
  const LLM_PRICING_PRICE_SOURCE: Name := "llm_pricing.price_source"
  const LLM_PRICING_PRICING_VERSION: Name := "llm_pricing.pricing_version"
  const DESTINATION: Name := "destination"
  const DESTINATION_PRESENT: Name := "destination.present"
  const DESTINATION_KIND: Name := "destination.kind"
  const DESTINATION_HMAC: Name := "destination.hmac"
  const DESTINATION_KEY_VERSION: Name := "destination.key_version"
  const DESTINATION_APPROVED_DISPLAY_LABEL: Name := "destination.approved_display_label"
  const SECURITY: Name := "security"
  const SECURITY_PRESENT: Name := "security.present"
  const SECURITY_EVENT_TYPE: Name := "security.event_type"
  const SECURITY_EVENT_REVISION: Name := "security.event_revision"
  const SECURITY_RESOLUTION_STATUS: Name := "security.resolution_status"
  const SECURITY_RESOLVED_AT: Name := "security.resolved_at"
  const SECURITY_RESOLUTION_CODE: Name := "security.resolution_code"
  const SECURITY_ENFORCEMENT_OUTCOME_CODE: Name := "security.enforcement_outcome_code"
  const SECURITY_GAP_COUNT: Name := "security.gap_count"
  const ANALYTICS_METADATA: Name := "analytics_metadata"
  const V2_CANONICAL_DIGEST: Name := "v2_canonical_digest"
}
