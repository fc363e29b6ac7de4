/** The enumerations of crates/grith-analytics/src/contract.rs with the wire names that
    types.rs and archive.rs give them. */
module Contract {
  import opened Basics

  datatype RecordClass = Decision | RoutineSpawn | RoutineIo | Noise | LlmUsage | System

  datatype CompletenessTier = Decisions | Spawns | Io | All

  datatype Category =
    | FileRead | FileMutation | Process | NetworkEgress | NetworkListen
    | CrossProcess | Namespace | Llm | SystemCategory | Other

  datatype Verdict = Allow | Queue | Deny

  datatype DestinationKind = Domain | HostPort | UrlOrigin | UnixSocketClass | OtherKind

  datatype SecurityEventType = QueueEvent | DenyEvent | Canary | Gap

  datatype ResolutionStatus = Pending | Approved | Denied | Expired | Escalated

  datatype SnapshotState = Partial | Final

  function RecordClassName(value: RecordClass): string {
    match value
    case Decision => "decision"
    case RoutineSpawn => "routine_spawn"
    case RoutineIo => "routine_io"
    case Noise => "noise"
    case LlmUsage => "llm_usage"
    case System => "system"
  }

  function CompletenessName(value: CompletenessTier): string {
    match value
    case Decisions => "decisions"
    case Spawns => "spawns"
    case Io => "io"
    case All => "all"
  }

  function CategoryName(value: Category): string {
    match value
    case FileRead => "file_read"
    case FileMutation => "file_mutation"
    case Process => "process"
    case NetworkEgress => "network_egress"
    case NetworkListen => "network_listen"
    case CrossProcess => "cross_process"
    case Namespace => "namespace"
    case Llm => "llm"
    case SystemCategory => "system"
    case Other => "other"
  }

  function VerdictName(value: Verdict): string {
    match value
    case Allow => "allow"
    case Queue => "queue"
    case Deny => "deny"
  }

  function DestinationKindName(value: DestinationKind): string {
    match value
    case Domain => "domain"
    case HostPort => "host_port"
    case UrlOrigin => "url_origin"
    case UnixSocketClass => "unix_socket_class"
    case OtherKind => "other"
  }

  function SecurityEventTypeName(value: SecurityEventType): string {
    match value
    case QueueEvent => "queue"
    case DenyEvent => "deny"
    case Canary => "canary"
    case Gap => "gap"
  }

  function ResolutionStatusName(value: ResolutionStatus): string {
    match value
    case Pending => "pending"
    case Approved => "approved"
    case Denied => "denied"
    case Expired => "expired"
    case Escalated => "escalated"
  }

  // ---------- Reading the names back ----------

  function ParseRecordClass(name: string): Option<RecordClass> {
    if name == "decision" then Some(Decision)
    else if name == "routine_spawn" then Some(RoutineSpawn)
    else if name == "routine_io" then Some(RoutineIo)
    else if name == "noise" then Some(Noise)
    else if name == "llm_usage" then Some(LlmUsage)
    else if name == "system" then Some(System)
    else None
  }

  function ParseCompleteness(name: string): Option<CompletenessTier> {
    if name == "decisions" then Some(Decisions)
    else if name == "spawns" then Some(Spawns)
    else if name == "io" then Some(Io)
    else if name == "all" then Some(All)
    else None
  }

  function ParseCategory(name: string): Option<Category> {
    if name == "file_read" then Some(FileRead)
    else if name == "file_mutation" then Some(FileMutation)
    else if name == "process" then Some(Process)
    else if name == "network_egress" then Some(NetworkEgress)
    else if name == "network_listen" then Some(NetworkListen)
    else if name == "cross_process" then Some(CrossProcess)
    else if name == "namespace" then Some(Namespace)
    else if name == "llm" then Some(Llm)
    else if name == "system" then Some(SystemCategory)
    else if name == "other" then Some(Other)
    else None
  }

  function ParseVerdict(name: string): Option<Verdict> {
    if name == "allow" then Some(Allow)
    else if name == "queue" then Some(Queue)
    else if name == "deny" then Some(Deny)
    else None
  }

  lemma RecordClassRoundTrip(value: RecordClass)
    ensures ParseRecordClass(RecordClassName(value)) == Some(value)
  {
  }

  lemma CompletenessRoundTrip(value: CompletenessTier)
    ensures ParseCompleteness(CompletenessName(value)) == Some(value)
  {
  }

  lemma CategoryRoundTrip(value: Category)
    ensures ParseCategory(CategoryName(value)) == Some(value)
  {
  }

  lemma VerdictRoundTrip(value: Verdict)
    ensures ParseVerdict(VerdictName(value)) == Some(value)
  {
  }

  lemma DestinationKindNameInjective(a: DestinationKind, b: DestinationKind)
    requires DestinationKindName(a) == DestinationKindName(b)
    ensures a == b
  {
  }

  lemma SecurityEventTypeNameInjective(a: SecurityEventType, b: SecurityEventType)
    requires SecurityEventTypeName(a) == SecurityEventTypeName(b)
    ensures a == b
  {
  }

  lemma ResolutionStatusNameInjective(a: ResolutionStatus, b: ResolutionStatus)
    requires ResolutionStatusName(a) == ResolutionStatusName(b)
    ensures a == b
  {
  }
}
