/** Which days the archive of crates/grith-analytics/src/archive.rs can hold, in which order, and what is
    read back of each event. */
module ArchivedDay {
  import opened Basics
  import opened Contract
  import opened Hexadecimal
  import opened Sorting
  import opened Events
  import opened DayArchive

  // ---------- What can be written ----------

  predicate HexDigit(c: char) { '0' <= c <= '9' || 'a' <= c <= 'f' || 'A' <= c <= 'F' }

  /** A 32-byte value in hexadecimal, in either case. */
  predicate Hex64(s: string) { |s| == 64 && forall i :: 0 <= i < 64 ==> HexDigit(s[i]) }

  lemma {:induction false} DecodesIff(s: string)
    ensures HexDecode(s).Some? <==> |s| % 2 == 0 && forall i :: 0 <= i < |s| ==> HexDigit(s[i])
  {
    if |s| >= 2 {
      DecodesIff(s[2..]);
      assert forall i :: 2 <= i < |s| ==> s[i] == s[2..][i - 2];
      assert DigitValue(s[0]).Some? ==> DigitValue(s[0]).value < 16;
      assert DigitValue(s[1]).Some? ==> DigitValue(s[1]).value < 16;
    }
  }

  lemma Hex32Iff(s: string, error: ArchiveError)
    ensures Hex32(s, error).Ok? <==> Hex64(s)
    ensures Hex32(s, error).Err? ==> Hex32(s, error).error == error
  {
    DecodesIff(s);
  }

  /** The event's configuration is known, or marked as unknown, and its hashes are hexadecimal. */
  predicate Archivable(e: AnalyticsEvent, configs: set<string>, unknown: string) {
    && (e.configHash in configs || e.configHash == unknown) && Hex64(e.configHash)
    && (e.destination.Some? ==> Hex64(e.destination.value.destinationHmac))
    && (e.chainHash.Some? ==> Hex64(e.chainHash.value))
  }

  lemma EncodesIff(e: AnalyticsEvent, configs: set<string>, unknown: string)
    ensures EncodeRow(e, configs, unknown).Ok? <==> Archivable(e, configs, unknown)
  {
    Hex32Iff(e.configHash, MalformedConfigHash(e.eventId));
    if e.destination.Some? {
      Hex32Iff(e.destination.value.destinationHmac, MalformedDestinationHmac(e.eventId));
    }
    if e.chainHash.Some? {
      Hex32Iff(e.chainHash.value, MalformedChainHash(e.eventId));
    }
  }

  lemma {:induction false} EncodesAllIff(events: seq<AnalyticsEvent>, configs: set<string>, unknown: string)
    ensures EncodeAll(events, configs, unknown).Ok? <==> forall e :: e in events ==> Archivable(e, configs, unknown)
  {
    if events != [] {
      EncodesIff(events[0], configs, unknown);
      EncodesAllIff(events[1..], configs, unknown);
      assert events == [events[0]] + events[1..];
    }
  }

  /** A day can be archived exactly when each of its events can. */
  lemma WritesIff(events: seq<AnalyticsEvent>, configs: set<string>, unknown: string)
    ensures WriteArchive(events, configs, unknown).Ok? <==> forall e :: e in events ==> Archivable(e, configs, unknown)
  {
    SortKeepsElements(events, FrozenLeq);
    EncodesAllIff(Sort(events, FrozenLeq), configs, unknown);
  }

  // ---------- What is read back ----------

  predicate SequenceBefore(a: Option<nat>, b: Option<nat>) { b.None? || (a.Some? && a.value <= b.value) }

  /** By time, then chain sequence with absent ones last, then id. */
  predicate Before(a: AnalyticsEvent, b: AnalyticsEvent) {
    && a.occurredAt <= b.occurredAt
    && (a.occurredAt == b.occurredAt ==> SequenceBefore(a.chainSequence, b.chainSequence))
    && (a.occurredAt == b.occurredAt && a.chainSequence == b.chainSequence ==>
          a.eventId.hi < b.eventId.hi || (a.eventId.hi == b.eventId.hi && a.eventId.lo <= b.eventId.lo))
  }

  lemma FrozenLeqIsPreorder()
    ensures Preorder(FrozenLeq)
  {
  }

  /** A written day reads back as its events, each without its destination and security data and otherwise
      unchanged, in the frozen order. */
  lemma ReadsBack(events: seq<AnalyticsEvent>, configs: set<string>, unknown: string)
    returns (read: seq<AnalyticsEvent>)
    requires WriteArchive(events, configs, unknown).Ok? && forall e :: e in events ==> LowerHashes(e)
    ensures DecodeAll(WriteArchive(events, configs, unknown).value) == Ok(read) && |read| == |events|
    ensures forall e :: e in events ==> e.(destination := None, security := None) in read
    ensures forall r :: r in read ==> exists e :: e in events && r == e.(destination := None, security := None)
    ensures forall i, j :: 0 <= i < j < |read| ==> Before(read[i], read[j])
  {
    var ordered := Sort(events, FrozenLeq);
    read := Map(ordered, Erase);
    ArchiveRoundTrip(events, configs, unknown);
    SortKeepsElements(events, FrozenLeq);
    ErasedAscends(events);
    ErasedOf(ordered);
    assert forall e :: e in events <==> e in ordered;
  }

  lemma ErasedOf(ordered: seq<AnalyticsEvent>)
    ensures forall e :: e in ordered ==> e.(destination := None, security := None) in Map(ordered, Erase)
    ensures forall r :: r in Map(ordered, Erase) ==>
      exists e :: e in ordered && r == e.(destination := None, security := None)
  {
    var read := Map(ordered, Erase);
    forall e | e in ordered ensures e.(destination := None, security := None) in read {
      var k :| 0 <= k < |ordered| && ordered[k] == e;
      assert read[k] == Erase(e);
    }
    forall r | r in read ensures exists e :: e in ordered && r == e.(destination := None, security := None) {
      var k :| 0 <= k < |read| && read[k] == r;
      assert ordered[k] in ordered && r == Erase(ordered[k]);
    }
  }

  lemma ErasedAscends(events: seq<AnalyticsEvent>)
    ensures
      var read := Map(Sort(events, FrozenLeq), Erase);
      forall i, j :: 0 <= i < j < |read| ==> Before(read[i], read[j])
  {
    var ordered := Sort(events, FrozenLeq);
    var read := Map(ordered, Erase);
    FrozenLeqIsPreorder();
    SortSorts(events, FrozenLeq);
    forall i, j | 0 <= i < j < |read| ensures Before(read[i], read[j]) {
      assert FrozenLeq(ordered[i], ordered[j]) && read[i] == Erase(ordered[i]) && read[j] == Erase(ordered[j]);
    }
  }

  /** The destination columns of a row, which the reader leaves alone. */
  lemma DestinationIsWritten(e: AnalyticsEvent, configs: set<string>, unknown: string)
    requires EncodeRow(e, configs, unknown).Ok?
    ensures
      var row := EncodeRow(e, configs, unknown).value;
      match e.destination
      case None => row.destinationKind == None && row.destinationHmac == None
      case Some(d) =>
        && row.destinationKind == Some(DestinationKindName(d.kind)) && row.destinationHmac.Some?
        && (LowerHex(d.destinationHmac) ==> HexEncode(row.destinationHmac.value) == d.destinationHmac)
  {
    if e.destination.Some? && LowerHex(e.destination.value.destinationHmac) {
      HexRoundTrip(e.destination.value.destinationHmac);
    }
  }

  /** The text is the wire name of some value. */
  ghost predicate Names<T(!new)>(name: T -> string, text: string) { exists value :: name(value) == text }

  lemma CompletenessNamed(text: string)
    ensures ParseCompleteness(text).Some? <==> Names(CompletenessName, text)
  {
    if ParseCompleteness(text).Some? {
      assert CompletenessName(ParseCompleteness(text).value) == text;
    }
    if Names(CompletenessName, text) {
      var value :| CompletenessName(value) == text;
      CompletenessRoundTrip(value);
    }
  }

  lemma ClassNamed(text: string)
    ensures ParseRecordClass(text).Some? <==> Names(RecordClassName, text)
  {
    if ParseRecordClass(text).Some? {
      assert RecordClassName(ParseRecordClass(text).value) == text;
    }
    if Names(RecordClassName, text) {
      var value :| RecordClassName(value) == text;
      RecordClassRoundTrip(value);
    }
  }

  lemma CategoryNamed(text: string)
    ensures ParseCategory(text).Some? <==> Names(CategoryName, text)
  {
    if ParseCategory(text).Some? {
      assert CategoryName(ParseCategory(text).value) == text;
    }
    if Names(CategoryName, text) {
      var value :| CategoryName(value) == text;
      CategoryRoundTrip(value);
    }
  }

  lemma VerdictNamed(text: string)
    ensures ParseVerdict(text).Some? <==> Names(VerdictName, text)
  {
    if ParseVerdict(text).Some? {
      assert VerdictName(ParseVerdict(text).value) == text;
    }
    if Names(VerdictName, text) {
      var value :| VerdictName(value) == text;
      VerdictRoundTrip(value);
    }
  }

  /** A row is read exactly when each of its enumeration columns holds the name of a value. */
  lemma RowReadsIff(row: ArchiveRow)
    ensures DecodeRow(row).Ok? <==>
      && Names(CompletenessName, row.completeness) && Names(RecordClassName, row.recordClass)
      && Names(CategoryName, row.category)
      && (row.initialVerdict.Some? ==> Names(VerdictName, row.initialVerdict.value))
  {
    CompletenessNamed(row.completeness);
    ClassNamed(row.recordClass);
    CategoryNamed(row.category);
    if row.initialVerdict.Some? {
      VerdictNamed(row.initialVerdict.value);
    }
  }
}
