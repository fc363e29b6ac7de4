/** The day archive of crates/grith-analytics/src/archive.rs: rows in the frozen order, read back
    without destination and security data, replayed through a fresh accumulator. */
module DayArchive {
  import opened Basics
  import opened Contract
  import opened Hexadecimal
  import opened Records
  import opened Sorting
  import opened Totals
  import opened Events
  import opened GroupBy
  import opened DayRollup
  import opened Reruns

  // ---------- Hex ----------

  type Byte = n: nat | n < 256

  function DigitValue(c: char): Option<nat> {
    if '0' <= c <= '9' then Some((c - '0') as nat)
    else if 'a' <= c <= 'f' then Some((c - 'a') as nat + 10)
    else if 'A' <= c <= 'F' then Some((c - 'A') as nat + 10)
    else None
  }

  function HexDecode(s: string): (r: Option<seq<Byte>>)
    ensures r.Some? ==> |s| == 2 * |r.value|
  {
    if s == [] then Some([])
    else if |s| == 1 then None
    else
      var high := DigitValue(s[0]);
      var low := DigitValue(s[1]);
      var rest := HexDecode(s[2..]);
      if high.None? || low.None? || rest.None? || high.value >= 16 || low.value >= 16 then None
      else Some([16 * high.value + low.value] + rest.value)
  }

  function HexEncode(bytes: seq<Byte>): string {
    if bytes == [] then [] else [Digit(bytes[0] / 16), Digit(bytes[0] % 16)] + HexEncode(bytes[1..])
  }

  /** Lower-case hex text survives the round trip through bytes. */
  lemma {:induction false} HexRoundTrip(s: string)
    requires HexDecode(s).Some? && LowerHex(s)
    ensures HexEncode(HexDecode(s).value) == s
  {
    if s != [] {
      HexRoundTrip(s[2..]);
      DigitRoundTrip(s[0]);
      DigitRoundTrip(s[1]);
      HalvesOf(DigitValue(s[0]).value, DigitValue(s[1]).value);
      assert s == [s[0], s[1]] + s[2..];
      var bytes := HexDecode(s).value;
      assert bytes[1..] == HexDecode(s[2..]).value;
    }
  }

  lemma HalvesOf(high: nat, low: nat)
    requires high < 16 && low < 16
    ensures (16 * high + low) / 16 == high && (16 * high + low) % 16 == low
  {
  }

  lemma DigitRoundTrip(c: char)
    requires LowerHexDigit(c)
    ensures DigitValue(c).Some? && DigitValue(c).value < 16 && Digit(DigitValue(c).value) == c
  {
  }

  // ---------- Rows ----------

  datatype ArchiveError =
    | MissingConfig(eventId: Uuid, configHash: string)
    | MalformedConfigHash(eventId: Uuid)
    | MalformedDestinationHmac(eventId: Uuid)
    | MalformedChainHash(eventId: Uuid)
    | UnknownName(name: string)

  datatype LlmColumns = LlmColumns(
    provider: string, model: string, promptTokens: nat, completionTokens: nat, costMicros: nat,
    currency: string, priceSource: string, pricingVersion: string)

  /** The columns the reader consumes, and the destination columns it does not. */
  datatype ArchiveRow = ArchiveRow(
    eventId: Uuid, occurredAt: int, sessionId: Option<Uuid>, project: string, profileId: string,
    configHash: seq<Byte>, supervisedTool: string, completeness: string, recordClass: string, category: string,
    initialVerdict: Option<string>, scoreMicros: Option<int>, filterSetVersion: Option<nat>,
    evaluatedFilterIds: seq<string>, positiveFilterContributions: seq<FilterContribution>,
    llm: Option<LlmColumns>, destinationKind: Option<string>, destinationHmac: Option<seq<Byte>>,
    chainSequence: Option<nat>, chainHash: Option<seq<Byte>>)

  /** 32 bytes of hex text. */
  function Hex32(value: string, error: ArchiveError): Result<seq<Byte>, ArchiveError> {
    match HexDecode(value)
    case Some(bytes) => if |bytes| == 32 then Ok(bytes) else Err(error)
    case None => Err(error)
  }

  function OptionalHex32(value: Option<string>, error: ArchiveError): Result<Option<seq<Byte>>, ArchiveError> {
    match value
    case None => Ok(None)
    case Some(text) => match Hex32(text, error) case Ok(bytes) => Ok(Some(bytes)) case Err(e) => Err(e)
  }

  function HmacOf(e: AnalyticsEvent): Option<string> {
    if e.destination.Some? then Some(e.destination.value.destinationHmac) else None
  }

  function LlmColumnsOf(e: AnalyticsEvent): Option<LlmColumns> {
    match e.llmUsage
    case None => None
    case Some(l) => Some(LlmColumns(l.provider, l.model, l.promptTokens, l.completionTokens, l.costMicros,
                                    l.currency, l.priceSource, l.pricingVersion))
  }

  /** `configs` holds the hashes that have a definition; one hash is defined to have none. */
  function EncodeRow(e: AnalyticsEvent, configs: set<string>, unknown: string): Result<ArchiveRow, ArchiveError> {
    if e.configHash !in configs && e.configHash != unknown then Err(MissingConfig(e.eventId, e.configHash))
    else
      var config := Hex32(e.configHash, MalformedConfigHash(e.eventId));
      var hmac := OptionalHex32(HmacOf(e), MalformedDestinationHmac(e.eventId));
      var chain := OptionalHex32(e.chainHash, MalformedChainHash(e.eventId));
      if config.Err? then Err(config.error)
      else if hmac.Err? then Err(hmac.error)
      else if chain.Err? then Err(chain.error)
      else
        Ok(ArchiveRow(
          e.eventId, e.occurredAt, e.sessionId, e.project, e.profileId, config.value, e.supervisedTool,
          CompletenessName(e.completeness), RecordClassName(e.recordClass), CategoryName(e.category),
          if e.initialVerdict.Some? then Some(VerdictName(e.initialVerdict.value)) else None,
          e.scoreMicros, e.filterSetVersion, e.evaluatedFilterIds, e.positiveFilterContributions, LlmColumnsOf(e),
          if e.destination.Some? then Some(DestinationKindName(e.destination.value.kind)) else None, hmac.value,
          e.chainSequence, chain.value))
  }

  function LlmUsageOf(columns: Option<LlmColumns>): Option<LlmUsageEvent> {
    match columns
    case None => None
    case Some(l) => Some(LlmUsageEvent(l.provider, l.model, l.promptTokens, l.completionTokens, l.costMicros,
                                       l.currency, l.priceSource, l.pricingVersion))
  }

  function VerdictOf(name: Option<string>): Result<Option<Verdict>, ArchiveError> {
    match name
    case None => Ok(None)
    case Some(text) => match ParseVerdict(text) case Some(v) => Ok(Some(v)) case None => Err(UnknownName(text))
  }

  function DecodeRow(row: ArchiveRow): Result<AnalyticsEvent, ArchiveError> {
    var completeness := ParseCompleteness(row.completeness);
    var recordClass := ParseRecordClass(row.recordClass);
    var category := ParseCategory(row.category);
    var verdict := VerdictOf(row.initialVerdict);
    if completeness.None? then Err(UnknownName(row.completeness))
    else if recordClass.None? then Err(UnknownName(row.recordClass))
    else if category.None? then Err(UnknownName(row.category))
    else if verdict.Err? then Err(verdict.error)
    else
      Ok(AnalyticsEvent(
        row.eventId, row.occurredAt, row.sessionId, row.project, row.profileId,
        HexEncode(row.configHash), row.supervisedTool,
        completeness.value, recordClass.value, category.value, verdict.value, row.scoreMicros, row.filterSetVersion,
        row.evaluatedFilterIds, row.positiveFilterContributions, LlmUsageOf(row.llm), None, None,
        row.chainSequence, if row.chainHash.Some? then Some(HexEncode(row.chainHash.value)) else None))
  }

  /** What the reader gives back of an event. */
  function Erase(e: AnalyticsEvent): AnalyticsEvent { e.(destination := None, security := None) }

  predicate LowerHashes(e: AnalyticsEvent) {
    LowerHex(e.configHash) && (e.chainHash.Some? ==> LowerHex(e.chainHash.value))
  }

  /** A row reads back as its event, without destination and security data. */
  lemma RowRoundTrip(e: AnalyticsEvent, configs: set<string>, unknown: string)
    requires EncodeRow(e, configs, unknown).Ok? && LowerHashes(e)
    ensures DecodeRow(EncodeRow(e, configs, unknown).value) == Ok(Erase(e))
  {
    CompletenessRoundTrip(e.completeness);
    RecordClassRoundTrip(e.recordClass);
    CategoryRoundTrip(e.category);
    if e.initialVerdict.Some? {
      VerdictRoundTrip(e.initialVerdict.value);
    }
    HexRoundTrip(e.configHash);
    ChainHashRoundTrip(e);
    LlmRoundTrip(e);
  }

  lemma ChainHashRoundTrip(e: AnalyticsEvent)
    requires LowerHashes(e) && OptionalHex32(e.chainHash, MalformedChainHash(e.eventId)).Ok?
    ensures
      var stored := OptionalHex32(e.chainHash, MalformedChainHash(e.eventId)).value;
      e.chainHash == if stored.Some? then Some(HexEncode(stored.value)) else None
  {
    if e.chainHash.Some? {
      HexRoundTrip(e.chainHash.value);
    }
  }

  lemma LlmRoundTrip(e: AnalyticsEvent)
    ensures LlmUsageOf(LlmColumnsOf(e)) == e.llmUsage
  {
  }

  // ---------- Files ----------

  /** Time, then chain sequence with absent ones last, then id. */
  predicate FrozenLeq(a: AnalyticsEvent, b: AnalyticsEvent) {
    if a.occurredAt != b.occurredAt then a.occurredAt < b.occurredAt
    else if a.chainSequence != b.chainSequence then
      a.chainSequence.Some? && (b.chainSequence.None? || a.chainSequence.value < b.chainSequence.value)
    else UuidLeq(a.eventId, b.eventId)
  }

  function EncodeAll(
    events: seq<AnalyticsEvent>, configs: set<string>, unknown: string): Result<seq<ArchiveRow>, ArchiveError>
  {
    if events == [] then Ok([])
    else match EncodeRow(events[0], configs, unknown)
         case Err(e) => Err(e)
         case Ok(row) =>
           match EncodeAll(events[1..], configs, unknown) case Err(e) => Err(e) case Ok(rows) => Ok([row] + rows)
  }

  function DecodeAll(rows: seq<ArchiveRow>): Result<seq<AnalyticsEvent>, ArchiveError> {
    if rows == [] then Ok([])
    else match DecodeRow(rows[0])
         case Err(e) => Err(e)
         case Ok(event) => match DecodeAll(rows[1..]) case Err(e) => Err(e) case Ok(events) => Ok([event] + events)
  }

  function WriteArchive(
    events: seq<AnalyticsEvent>, configs: set<string>, unknown: string): Result<seq<ArchiveRow>, ArchiveError>
  {
    EncodeAll(Sort(events, FrozenLeq), configs, unknown)
  }

  lemma {:induction false} EncodeAllSnoc(
    events: seq<AnalyticsEvent>, e: AnalyticsEvent, configs: set<string>, unknown: string)
    requires EncodeAll(events, configs, unknown).Ok?
    ensures EncodeAll(events + [e], configs, unknown) ==
      match EncodeRow(e, configs, unknown)
      case Err(error) => Err(error)
      case Ok(row) => Ok(EncodeAll(events, configs, unknown).value + [row])
  {
    if events == [] {
      assert events + [e] == [e] && [e][1..] == [];
      if EncodeRow(e, configs, unknown).Ok? {
        var row := EncodeRow(e, configs, unknown).value;
        assert [row] + [] == [] + [row];
      }
    } else {
      EncodeAllSnoc(events[1..], e, configs, unknown);
      assert (events + [e])[1..] == events[1..] + [e] && (events + [e])[0] == events[0];
      if EncodeRow(e, configs, unknown).Ok? {
        ConcatAssociates([EncodeRow(events[0], configs, unknown).value],
          EncodeAll(events[1..], configs, unknown).value, [EncodeRow(e, configs, unknown).value]);
      }
    }
  }

  lemma {:induction false} EncodeAllFails(
    a: seq<AnalyticsEvent>, b: seq<AnalyticsEvent>, configs: set<string>, unknown: string)
    requires EncodeAll(a, configs, unknown).Err?
    ensures EncodeAll(a + b, configs, unknown) == EncodeAll(a, configs, unknown)
  {
    if EncodeRow(a[0], configs, unknown).Ok? {
      EncodeAllFails(a[1..], b, configs, unknown);
      assert (a + b)[1..] == a[1..] + b;
    }
  }

  lemma SplitAt(events: seq<AnalyticsEvent>, i: nat)
    requires i < |events|
    ensures events[..i + 1] == events[..i] + [events[i]] && events == events[..i + 1] + events[i + 1..]
  {
  }

  /** Sorts the events and fills the columns row by row; the first malformed event ends it. */
  method WriteDayArchive(events: seq<AnalyticsEvent>, configs: set<string>, unknown: string)
    returns (r: Result<seq<ArchiveRow>, ArchiveError>)
    ensures r == WriteArchive(events, configs, unknown)
  {
    var ordered := Sort(events, FrozenLeq);
    var rows := [];
    for i := 0 to |ordered|
      invariant EncodeAll(ordered[..i], configs, unknown) == Ok(rows)
    {
      SplitAt(ordered, i);
      EncodeAllSnoc(ordered[..i], ordered[i], configs, unknown);
      var row := EncodeRow(ordered[i], configs, unknown);
      if row.Err? {
        EncodeAllFails(ordered[..i + 1], ordered[i + 1..], configs, unknown);
        return Err(row.error);
      }
      rows := rows + [row.value];
    }
    assert ordered[..|ordered|] == ordered;
    r := Ok(rows);
  }

  /** What is decoded so far, in front of what the rest decodes to. */
  function Resumed(events: seq<AnalyticsEvent>, rest: Result<seq<AnalyticsEvent>, ArchiveError>)
    : Result<seq<AnalyticsEvent>, ArchiveError>
  {
    match rest case Err(e) => Err(e) case Ok(more) => Ok(events + more)
  }

  lemma ResumeNext(events: seq<AnalyticsEvent>, rows: seq<ArchiveRow>, i: nat)
    requires i < |rows|
    ensures Resumed(events, DecodeAll(rows[i..])) ==
      match DecodeRow(rows[i])
      case Err(e) => Err(e)
      case Ok(event) => Resumed(events + [event], DecodeAll(rows[i + 1..]))
  {
    assert rows[i..][0] == rows[i] && rows[i..][1..] == rows[i + 1..];
    if DecodeRow(rows[i]).Ok? && DecodeAll(rows[i + 1..]).Ok? {
      ConcatAssociates(events, [DecodeRow(rows[i]).value], DecodeAll(rows[i + 1..]).value);
    }
  }

  lemma NothingBefore(rest: Result<seq<AnalyticsEvent>, ArchiveError>)
    ensures Resumed([], rest) == rest
  {
    if rest.Ok? {
      assert [] + rest.value == rest.value;
    }
  }

  /** Reads a file row by row; the first row that does not decode ends it. */
  method ReadDayArchive(rows: seq<ArchiveRow>) returns (r: Result<seq<AnalyticsEvent>, ArchiveError>)
    ensures r == DecodeAll(rows)
  {
    var events := [];
    assert rows[0..] == rows;
    NothingBefore(DecodeAll(rows));
    for i := 0 to |rows|
      invariant Resumed(events, DecodeAll(rows[i..])) == DecodeAll(rows)
    {
      ResumeNext(events, rows, i);
      var event := DecodeRow(rows[i]);
      if event.Err? {
        return Err(event.error);
      }
      events := events + [event.value];
    }
    assert rows[|rows|..] == [] && events + [] == events;
    r := Ok(events);
  }

  lemma {:induction false} FileRoundTrip(events: seq<AnalyticsEvent>, configs: set<string>, unknown: string)
    requires EncodeAll(events, configs, unknown).Ok? && forall e :: e in events ==> LowerHashes(e)
    ensures DecodeAll(EncodeAll(events, configs, unknown).value) == Ok(Map(events, Erase))
  {
    if events != [] {
      assert events[0] in events;
      RowRoundTrip(events[0], configs, unknown);
      FileRoundTrip(events[1..], configs, unknown);
      var rows := EncodeAll(events, configs, unknown).value;
      assert rows[1..] == EncodeAll(events[1..], configs, unknown).value;
    }
  }

  /** Written and read back, a day is its events in the frozen order without destination and security
      data. */
  lemma ArchiveRoundTrip(events: seq<AnalyticsEvent>, configs: set<string>, unknown: string)
    requires WriteArchive(events, configs, unknown).Ok? && forall e :: e in events ==> LowerHashes(e)
    ensures DecodeAll(WriteArchive(events, configs, unknown).value) == Ok(Map(Sort(events, FrozenLeq), Erase))
  {
    SortKeepsElements(events, FrozenLeq);
    FileRoundTrip(Sort(events, FrozenLeq), configs, unknown);
  }

  // ---------- Replay ----------

  lemma SumErased(s: set<AnalyticsEvent>, p: AnalyticsEvent -> bool, f: AnalyticsEvent -> int)
    requires DistinctIds(s) && forall e :: p(Erase(e)) == p(e) && f(Erase(e)) == f(e)
    ensures Sum(Image(s, Erase), p, f) == Sum(s, p, f)
  {
    forall x, y | x in s && y in s && Erase(x) == Erase(y) ensures x == y {
      assert Erase(x).eventId == Erase(y).eventId;
    }
    TotalImage(s, Erase, When(p, f), When(p, f));
  }

  lemma OccursErased(s: set<AnalyticsEvent>, p: AnalyticsEvent -> bool)
    requires forall e :: p(Erase(e)) == p(e)
    ensures Occurs(Image(s, Erase), p) <==> Occurs(s, p)
  {
    if Occurs(s, p) {
      var e :| e in s && p(e);
      assert Erase(e) in Image(s, Erase);
    }
  }

  lemma SpansErased(s: set<AnalyticsEvent>, p: AnalyticsEvent -> bool, at: AnalyticsEvent -> int, first: int, last: int)
    requires forall e :: p(Erase(e)) == p(e) && at(Erase(e)) == at(e)
    requires Spans(Image(s, Erase), p, at, first, last)
    ensures Spans(s, p, at, first, last)
  {
    var t := Image(s, Erase);
    var x :| x in t && p(x) && at(x) == first;
    var a :| a in s && Erase(a) == x;
    var y :| y in t && p(y) && at(y) == last;
    var b :| b in s && Erase(b) == y;
    forall e | e in s && p(e) ensures first <= at(e) <= last {
      assert Erase(e) in t;
    }
  }

  lemma UsageErased(s: set<AnalyticsEvent>, m: map<UsageKey, UsageRow>)
    requires DistinctIds(s) && UsageIs(Image(s, Erase), m)
    ensures UsageIs(s, m)
  {
    forall k ensures UsageAt(s, m, k) {
      assert UsageAt(Image(s, Erase), m, k);
      OccursErased(s, InUsage(k));
      SumErased(s, InUsage(k), One);
      SumErased(s, InUsage(k), ScoreOf);
      if k in m {
        SpansErased(s, InUsage(k), At, m[k].firstEventAt, m[k].lastEventAt);
      }
    }
  }

  lemma FiltersErased(s: set<AnalyticsEvent>, m: map<FilterKey, FilterRow>)
    requires DistinctIds(s) && FiltersAre(Image(s, Erase), m)
    ensures FiltersAre(s, m)
  {
    forall k ensures FilterAt(s, m, k) {
      assert FilterAt(Image(s, Erase), m, k);
      OccursErased(s, InFilter(k));
      SumErased(s, InFilter(k), One);
      SumErased(s, InFilter(k), TriggerOf(k.filterId));
      SumErased(s, InFilter(k), DeniedFlag);
      SumErased(s, InFilter(k), DeniedTriggerOf(k.filterId));
    }
  }

  lemma SessionsErased(s: set<AnalyticsEvent>, m: map<SessionKey, SessionRow>)
    requires DistinctIds(s) && SessionsAre(Image(s, Erase), m)
    ensures SessionsAre(s, m)
  {
    forall k ensures SessionAt(s, m, k) {
      assert SessionAt(Image(s, Erase), m, k);
      OccursErased(s, InSession(k));
      if k in m {
        SessionSumsErased(s, InSession(k), m[k]);
        SpansErased(s, InSession(k), At, m[k].firstEventAt, m[k].lastEventAt);
      }
    }
  }

  lemma SessionSumsErased(s: set<AnalyticsEvent>, p: AnalyticsEvent -> bool, row: SessionRow)
    requires DistinctIds(s) && SessionSumsAre(Image(s, Erase), p, row) && forall e :: p(Erase(e)) == p(e)
    ensures SessionSumsAre(s, p, row)
  {
    SumErased(s, p, Decided);
    SumErased(s, p, Queued);
    SumErased(s, p, DeniedDecision);
    SumErased(s, p, LlmCall);
    SumErased(s, p, Prompt);
    SumErased(s, p, Completion);
    SumErased(s, p, Cost);
  }

  lemma LlmErased(s: set<AnalyticsEvent>, m: map<LlmKey, LlmRow>)
    requires DistinctIds(s) && LlmIs(Image(s, Erase), m)
    ensures LlmIs(s, m)
  {
    forall k ensures LlmAt(s, m, k) {
      assert LlmAt(Image(s, Erase), m, k);
      OccursErased(s, InLlm(k));
      SumErased(s, InLlm(k), One);
      SumErased(s, InLlm(k), Prompt);
      SumErased(s, InLlm(k), Completion);
      SumErased(s, InLlm(k), Cost);
    }
  }

  lemma BoundsErased(
    s: set<AnalyticsEvent>, p: AnalyticsEvent -> bool, at: AnalyticsEvent -> int, first: Option<int>,
    last: Option<int>)
    requires forall e :: p(Erase(e)) == p(e) && at(Erase(e)) == at(e)
    requires BoundsAre(Image(s, Erase), p, at, first, last)
    ensures BoundsAre(s, p, at, first, last)
  {
    OccursErased(s, p);
    if first.Some? {
      SpansErased(s, p, at, first.value, last.value);
    }
  }

  lemma LastHashErased(s: set<AnalyticsEvent>, last: Option<nat>, hash: Option<string>)
    requires LastHashIs(Image(s, Erase), last, hash)
    ensures LastHashIs(s, last, hash)
  {
    if last.Some? {
      var x :| x in Image(s, Erase) && x.chainSequence == last && x.chainHash == hash;
      var e :| e in s && Erase(e) == x;
    }
  }

  /** Everything but destination and security rows. */
  predicate SameReplay(q: Rollup, r: Rollup) {
    && q.usage == r.usage && q.filters == r.filters && q.sessions == r.sessions && q.llm == r.llm
    && q.sourceEventCount == r.sourceEventCount
    && q.firstEventAt == r.firstEventAt && q.lastEventAt == r.lastEventAt
    && q.firstChainSequence == r.firstChainSequence && q.lastChainSequence == r.lastChainSequence
    && q.lastChainHash == r.lastChainHash
  }

  lemma HeaderReplayed(s: set<AnalyticsEvent>, q: Rollup, r: Rollup)
    requires Matches(q, s) && Matches(r, Image(s, Erase)) && DistinctSequences(s) && DistinctIds(s)
    ensures q.sourceEventCount == r.sourceEventCount
    ensures q.firstEventAt == r.firstEventAt && q.lastEventAt == r.lastEventAt
    ensures q.firstChainSequence == r.firstChainSequence && q.lastChainSequence == r.lastChainSequence
    ensures q.lastChainHash == r.lastChainHash
  {
    SameBounds(s, Any(), At, q.firstEventAt, q.lastEventAt, r.firstEventAt, r.lastEventAt);
    SameBounds(s, Sequenced(), SequenceOf, q.firstChainSequence, q.lastChainSequence, r.firstChainSequence,
      r.lastChainSequence);
    LastHashErased(s, r.lastChainSequence, r.lastChainHash);
    SameLastHash(s, q.lastChainSequence, q.lastChainHash, r.lastChainHash);
    EraseApart(s);
    ImageSize(s, Erase);
  }

  lemma SameBounds(s: set<AnalyticsEvent>, p: AnalyticsEvent -> bool, at: AnalyticsEvent -> int,
                   a: Option<int>, b: Option<int>, c: Option<int>, d: Option<int>)
    requires forall e :: p(Erase(e)) == p(e) && at(Erase(e)) == at(e)
    requires BoundsAre(s, p, at, a, b) && BoundsAre(Image(s, Erase), p, at, c, d)
    ensures a == c && b == d
  {
    BoundsErased(s, p, at, c, d);
    BoundsUnique(s, p, at, a, b, c, d);
  }

  lemma SameLastHash(s: set<AnalyticsEvent>, last: Option<nat>, a: Option<string>, b: Option<string>)
    requires LastHashIs(s, last, a) && LastHashIs(s, last, b) && DistinctSequences(s)
    ensures a == b
  {
  }

  lemma EraseApart(s: set<AnalyticsEvent>)
    requires DistinctIds(s)
    ensures forall x, y :: x in s && y in s && Erase(x) == Erase(y) ==> x == y
  {
    forall x, y | x in s && y in s && Erase(x) == Erase(y) ensures x == y {
      assert Erase(x).eventId == Erase(y).eventId;
    }
  }

  lemma ReplayMatches(s: set<AnalyticsEvent>, q: Rollup, r: Rollup)
    requires Matches(q, s) && Matches(r, Image(s, Erase)) && DistinctSequences(s)
    ensures SameReplay(q, r)
    ensures (forall e :: e in s ==> e.destination.None?) ==> q.destinations == r.destinations
  {
    assert DistinctIds(s);
    HeaderReplayed(s, q, r);
    UsageErased(s, r.usage);
    FiltersErased(s, r.filters);
    SessionsErased(s, r.sessions);
    LlmErased(s, r.llm);
    UsageUnique(s, q.usage, r.usage);
    FiltersUnique(s, q.filters, r.filters);
    SessionsUnique(s, q.sessions, r.sessions);
    LlmUnique(s, q.llm, r.llm);
    if forall e :: e in s ==> e.destination.None? {
      NoDestinations(s, q.destinations);
      NoDestinations(Image(s, Erase), r.destinations);
    }
  }

  lemma NoDestinations(s: set<AnalyticsEvent>, m: map<DestinationKey, DestinationRow>)
    requires DestinationsAre(s, m) && forall e :: e in s ==> e.destination.None?
    ensures m == map[]
  {
    forall k ensures k !in m {
      assert DestinationAt(s, m, k);
    }
  }

  /** The events a rollup over erased events has seen. */
  ghost function Behind(t: set<AnalyticsEvent>, s: set<AnalyticsEvent>): set<AnalyticsEvent> {
    set e | e in s && Erase(e) in t
  }

  lemma ErasedGroups(q: Rollup, t: set<AnalyticsEvent>, s: set<AnalyticsEvent>)
    requires t <= Image(s, Erase) && DistinctIds(s) && Matches(q, t)
    ensures Groups4(q, Behind(t, s))
  {
    var u := Behind(t, s);
    assert Image(u, Erase) == t;
    EraseApart(u);
    ImageSize(u, Erase);
    UsageErased(u, q.usage);
    FiltersErased(u, q.filters);
    SessionsErased(u, q.sessions);
    LlmErased(u, q.llm);
    NoDestinations(t, q.destinations);
  }

  lemma ErasedRoomy(s: set<AnalyticsEvent>, r: Rollup)
    requires Matches(r, s) && CountersFit(r) && RowsFit(r) && ScoresBounded(s) && DistinctIds(s)
    ensures Roomy(Image(s, Erase))
  {
    forall t, q | t <= Image(s, Erase) && Matches(q, t) ensures CountersFit(q) && RowsFit(q) {
      ErasedGroups(q, t, s);
      RollupWithin(q, Behind(t, s), r, s);
    }
  }

  lemma ErasedValid(day: int, s: set<AnalyticsEvent>)
    requires AllValid(day, s) && DistinctIds(s)
    ensures AllValid(day, Image(s, Erase)) && DistinctIds(Image(s, Erase))
  {
  }

  /** A day that ingested once can be ingested from its archive. */
  lemma RecoveredIngests(day: int, events: seq<AnalyticsEvent>, recovered: seq<AnalyticsEvent>)
    requires IngestAll(Fresh(day), events).Some? && ScoresInRange(|Elements(events)|)
    requires Elements(recovered) == Image(Elements(events), Erase)
    ensures IngestAll(Fresh(day), recovered).Some?
  {
    var s := Elements(events);
    FirstRun(day, events, s);
    DayIsGroupBy(day, events, s);
    ErasedRoomy(s, IngestAll(Fresh(day), events).value);
    ErasedValid(day, s);
    FreshMatches(day);
    forall e | e in recovered ensures e in Image(s, Erase) {
      assert e in Elements(recovered);
    }
    RunsIfRoomy(Fresh(day), {}, recovered, Image(s, Erase));
  }

  /** Replaying an archived day through a fresh accumulator gives the usage, filter, session and LLM
      rows, the event count, the time bounds and the chain bounds it was written from; a day without
      destinations comes back whole. The replay succeeds unless a score sum leaves the safe range on
      the way, which takes more than 90 million events. */
  lemma ReplayReproduces(day: int, events: seq<AnalyticsEvent>, configs: set<string>, unknown: string)
    requires IngestAll(Fresh(day), events).Some? && DistinctSequences(Elements(events))
    requires WriteArchive(events, configs, unknown).Ok? && forall e :: e in events ==> LowerHashes(e)
    ensures DecodeAll(WriteArchive(events, configs, unknown).value).Ok?
    ensures
      var original := IngestAll(Fresh(day), events).value;
      var rebuilt := IngestAll(Fresh(day), DecodeAll(WriteArchive(events, configs, unknown).value).value);
      && (ScoresInRange(|Elements(events)|) ==> rebuilt.Some?)
      && (rebuilt.Some? ==> SameReplay(original, rebuilt.value))
      && (rebuilt.Some? && (forall e :: e in events ==> e.destination.None?) ==>
            original.destinations == rebuilt.value.destinations)
  {
    var recovered := Map(Sort(events, FrozenLeq), Erase);
    ArchiveRoundTrip(events, configs, unknown);
    RecoveredElements(events);
    DayIsGroupBy(day, events, Elements(events));
    if ScoresInRange(|Elements(events)|) {
      RecoveredIngests(day, events, recovered);
    }
    if IngestAll(Fresh(day), recovered).Some? {
      DayIsGroupBy(day, recovered, Image(Elements(events), Erase));
      ReplayMatches(Elements(events), IngestAll(Fresh(day), events).value, IngestAll(Fresh(day), recovered).value);
    }
  }

  lemma RecoveredElements(events: seq<AnalyticsEvent>)
    ensures Elements(Map(Sort(events, FrozenLeq), Erase)) == Image(Elements(events), Erase)
  {
    SortKeepsElements(events, FrozenLeq);
    assert Elements(Sort(events, FrozenLeq)) == Elements(events);
    MappedElements(Sort(events, FrozenLeq));
  }

  lemma {:induction false} MappedElements(events: seq<AnalyticsEvent>)
    ensures Elements(Map(events, Erase)) == Image(Elements(events), Erase)
  {
    if events != [] {
      MappedElements(events[1..]);
      var mapped := Map(events, Erase);
      assert events == [events[0]] + events[1..] && mapped == [Erase(events[0])] + Map(events[1..], Erase);
      assert Elements(events) == {events[0]} + Elements(events[1..]);
      assert Elements(mapped) == {Erase(events[0])} + Elements(Map(events[1..], Erase));
      ImageAdd(Elements(events[1..]), events[0]);
    }
  }

  lemma ImageAdd(s: set<AnalyticsEvent>, e: AnalyticsEvent)
    ensures Image({e} + s, Erase) == {Erase(e)} + Image(s, Erase)
  {
  }
}
