/** What the version-1 hash of crates/grith-audit/src/types.rs covers: a pipe join over nine fields, which
    splits back into them where no field holds a bar and reacts to each of them in any case. */
module VersionOne {
  import opened Basics
  import opened Canonical
  import opened Contract
  import opened Records
  import opened RecordHash

  // ---------- Joining and splitting ----------

  function Join(parts: seq<string>): string
    requires parts != []
  {
    if |parts| == 1 then parts[0] else Join(parts[..|parts| - 1]) + "|" + parts[|parts| - 1]
  }

  /** The text cut at every bar. */
  function SplitBars(s: string): (parts: seq<string>)
    ensures parts != []
  {
    if s == "" then [""]
    else
      var rest := SplitBars(s[1..]);
      if s[0] == '|' then [""] + rest else [[s[0]] + rest[0]] + rest[1..]
  }

  lemma {:induction false} SplitPlain(s: string)
    requires Unjoined(s)
    ensures SplitBars(s) == [s]
  {
    if s != "" {
      SplitPlain(s[1..]);
      assert [s[0]] + s[1..] == s;
    }
  }

  /** A last part behind a bar. */
  lemma {:induction false} SplitLast(s: string, last: string)
    requires Unjoined(last)
    ensures SplitBars(s + "|" + last) == SplitBars(s) + [last]
  {
    var t := s + "|" + last;
    if s == "" {
      assert t[1..] == last && t[0] == '|';
      SplitPlain(last);
    } else {
      assert t[1..] == s[1..] + "|" + last && t[0] == s[0];
      SplitLast(s[1..], last);
    }
  }

  lemma {:induction false} SplitJoin(parts: seq<string>)
    requires parts != [] && forall i :: 0 <= i < |parts| ==> Unjoined(parts[i])
    ensures SplitBars(Join(parts)) == parts
  {
    var n := |parts| - 1;
    if n == 0 {
      SplitPlain(parts[0]);
    } else {
      SplitJoin(parts[..n]);
      SplitLast(Join(parts[..n]), parts[n]);
      assert parts == parts[..n] + [parts[n]];
    }
  }

  /** Joins that differ in one part differ. */
  lemma {:induction false} JoinReacts(a: seq<string>, b: seq<string>, k: nat)
    requires |a| == |b| && k < |a| && forall i :: 0 <= i < |a| && i != k ==> a[i] == b[i]
    requires Join(a) == Join(b)
    ensures a[k] == b[k]
  {
    var n := |a| - 1;
    if n > 0 {
      var front, front' := Join(a[..n]) + "|", Join(b[..n]) + "|";
      if k == n {
        assert a[..n] == b[..n];
        Halves(front, a[n], front', b[n]);
      } else {
        assert |front| == |Join(a)| - |a[n]| == |front'|;
        Halves(front, a[n], front', b[n]);
        Halves(Join(a[..n]), "|", Join(b[..n]), "|");
        JoinReacts(a[..n], b[..n], k);
      }
    }
  }

  // ---------- The pre-image ----------

  function Texts(lib: Lib, r: AuditRecord): seq<string> {
    [UuidText(r.id), lib.rfc3339(r.timestamp), UuidText(r.sessionId), r.pluginId, r.toolCallType, r.argumentsHash,
     lib.showFloat(r.compositeScore), VerdictName(r.proxyAction), PrevText(r.prevHash)]
  }

  lemma JoinSnoc(parts: seq<string>, x: string)
    requires parts != []
    ensures Join(parts + [x]) == Join(parts) + "|" + x
  {
    assert (parts + [x])[..|parts|] == parts;
  }

  lemma JoinNine(a: string, b: string, c: string, d: string, e: string, f: string, g: string, h: string, i: string)
    ensures Join([a, b, c, d, e, f, g, h, i])
         == a + "|" + b + "|" + c + "|" + d + "|" + e + "|" + f + "|" + g + "|" + h + "|" + i
  {
    JoinFive(a, b, c, d, e);
    JoinSnoc([a, b, c, d, e], f);
    JoinSnoc([a, b, c, d, e, f], g);
    JoinSnoc([a, b, c, d, e, f, g], h);
    JoinSnoc([a, b, c, d, e, f, g, h], i);
    assert [a, b, c, d, e] + [f] == [a, b, c, d, e, f] && [a, b, c, d, e, f] + [g] == [a, b, c, d, e, f, g];
    assert [a, b, c, d, e, f, g] + [h] == [a, b, c, d, e, f, g, h];
    assert [a, b, c, d, e, f, g, h] + [i] == [a, b, c, d, e, f, g, h, i];
  }

  lemma JoinFive(a: string, b: string, c: string, d: string, e: string)
    ensures Join([a, b, c, d, e]) == a + "|" + b + "|" + c + "|" + d + "|" + e
  {
    JoinSnoc([a], b);
    JoinSnoc([a, b], c);
    JoinSnoc([a, b, c], d);
    JoinSnoc([a, b, c, d], e);
    assert [a] + [b] == [a, b] && [a, b] + [c] == [a, b, c];
    assert [a, b, c] + [d] == [a, b, c, d] && [a, b, c, d] + [e] == [a, b, c, d, e];
  }

  lemma Inward(a: string, tail: string, x: string)
    ensures a + tail + "|" + x == a + (tail + "|" + x)
  {
  }

  /** The first part of a join in front of the rest. */
  lemma FirstInFront(a: string, b: string, c: string, d: string, e: string, f: string, g: string, h: string)
    ensures a + "|" + b + "|" + c + "|" + d + "|" + e + "|" + f + "|" + g + "|" + h
         == a + ("|" + b + "|" + c + "|" + d + "|" + e + "|" + f + "|" + g + "|" + h)
  {
    ConcatAssociates(a, "|", b);
    Inward(a, "|" + b, c);
    Inward(a, "|" + b + "|" + c, d);
    Inward(a, "|" + b + "|" + c + "|" + d, e);
    Inward(a, "|" + b + "|" + c + "|" + d + "|" + e, f);
    Inward(a, "|" + b + "|" + c + "|" + d + "|" + e + "|" + f, g);
    Inward(a, "|" + b + "|" + c + "|" + d + "|" + e + "|" + f + "|" + g, h);
  }

  lemma PreimageIsJoin(lib: Lib, r: AuditRecord)
    ensures PreimageV1(lib, r) == Join(Texts(lib, r))
  {
    var t := Texts(lib, r);
    JoinNine(t[0], t[1], t[2], t[3], t[4], t[5], t[6], t[7], t[8]);
    FirstInFront(t[0], t[1], t[2], t[3], t[4], t[5], t[6], t[7]);
  }

  // ---------- What it covers ----------

  /** No field holds a bar; ids and verdicts never do. */
  predicate Barless(lib: Lib, r: AuditRecord) {
    && Unjoined(lib.rfc3339(r.timestamp)) && Unjoined(r.pluginId) && Unjoined(r.toolCallType)
    && Unjoined(r.argumentsHash) && Unjoined(lib.showFloat(r.compositeScore)) && Unjoined(PrevText(r.prevHash))
  }

  lemma UuidUnjoined(u: Uuid)
    ensures Unjoined(UuidText(u))
  {
    HexLength(u.hi, 16);
    HexLength(u.lo, 16);
    HyphenatedParts(HexBits(u.hi), HexBits(u.lo));
    assert forall k :: 0 <= k < 16 ==> HexBits(u.hi)[k] != '|' && HexBits(u.lo)[k] != '|';
  }

  /** Cut at its bars, the version-1 pre-image is the nine texts in their frozen order. */
  lemma SplitsIntoNine(lib: Lib, r: AuditRecord)
    requires Barless(lib, r)
    ensures SplitBars(PreimageV1(lib, r)) == [
      UuidText(r.id), lib.rfc3339(r.timestamp), UuidText(r.sessionId), r.pluginId, r.toolCallType, r.argumentsHash,
      lib.showFloat(r.compositeScore), VerdictName(r.proxyAction),
      match r.prevHash case None => "GENESIS" case Some(hash) => hash]
  {
    PreimageIsJoin(lib, r);
    UuidUnjoined(r.id);
    UuidUnjoined(r.sessionId);
    SplitJoin(Texts(lib, r));
  }

  datatype Field =
    | IdField | TimeField | SessionField | PluginField | ToolField | ArgumentsField | ScoreField | VerdictField
    | PredecessorField

  /** The two records hold the same text, or the same value where the text determines it. */
  predicate AgreesOn(lib: Lib, r: AuditRecord, s: AuditRecord, field: Field) {
    match field
    case IdField => r.id == s.id
    case TimeField => lib.rfc3339(r.timestamp) == lib.rfc3339(s.timestamp)
    case SessionField => r.sessionId == s.sessionId
    case PluginField => r.pluginId == s.pluginId
    case ToolField => r.toolCallType == s.toolCallType
    case ArgumentsField => r.argumentsHash == s.argumentsHash
    case ScoreField => lib.showFloat(r.compositeScore) == lib.showFloat(s.compositeScore)
    case VerdictField => r.proxyAction == s.proxyAction
    case PredecessorField => PrevText(r.prevHash) == PrevText(s.prevHash)
  }

  function Position(field: Field): nat {
    match field
    case IdField => 0 case TimeField => 1 case SessionField => 2 case PluginField => 3 case ToolField => 4
    case ArgumentsField => 5 case ScoreField => 6 case VerdictField => 7 case PredecessorField => 8
  }

  function FieldAt(i: nat): (field: Field)
    requires i < 9
    ensures Position(field) == i
  {
    match i
    case 0 => IdField case 1 => TimeField case 2 => SessionField case 3 => PluginField case 4 => ToolField
    case 5 => ArgumentsField case 6 => ScoreField case 7 => VerdictField case _ => PredecessorField
  }

  lemma AgreeingTexts(lib: Lib, r: AuditRecord, s: AuditRecord, field: Field)
    ensures AgreesOn(lib, r, s, field) <==> Texts(lib, r)[Position(field)] == Texts(lib, s)[Position(field)]
  {
    match field
    case IdField =>
      if UuidText(r.id) == UuidText(s.id) {
        UuidTextInjective(r.id, s.id);
      }
    case SessionField =>
      if UuidText(r.sessionId) == UuidText(s.sessionId) {
        UuidTextInjective(r.sessionId, s.sessionId);
      }
    case VerdictField =>
      VerdictRoundTrip(r.proxyAction);
      VerdictRoundTrip(s.proxyAction);
    case _ =>
  }

  lemma AgreeingAll(lib: Lib, r: AuditRecord, s: AuditRecord)
    requires forall field :: AgreesOn(lib, r, s, field)
    ensures Texts(lib, r) == Texts(lib, s)
  {
    assert AgreesOn(lib, r, s, IdField) && AgreesOn(lib, r, s, TimeField) && AgreesOn(lib, r, s, SessionField);
    assert AgreesOn(lib, r, s, PluginField) && AgreesOn(lib, r, s, ToolField) && AgreesOn(lib, r, s, ArgumentsField);
    assert AgreesOn(lib, r, s, ScoreField) && AgreesOn(lib, r, s, VerdictField);
    assert AgreesOn(lib, r, s, PredecessorField);
  }

  /** Bars or no bars: two pre-images of records that agree on all the other fields are equal only
      if the records agree on this one too. */
  lemma EveryFieldCounts(lib: Lib, r: AuditRecord, s: AuditRecord, field: Field)
    requires forall other :: other != field ==> AgreesOn(lib, r, s, other)
    requires PreimageV1(lib, r) == PreimageV1(lib, s)
    ensures AgreesOn(lib, r, s, field)
  {
    PreimageIsJoin(lib, r);
    PreimageIsJoin(lib, s);
    forall i | 0 <= i < 9 && i != Position(field) ensures Texts(lib, r)[i] == Texts(lib, s)[i] {
      AgreeingTexts(lib, r, s, FieldAt(i));
    }
    JoinReacts(Texts(lib, r), Texts(lib, s), Position(field));
    AgreeingTexts(lib, r, s, field);
  }

  /** A collision-free digest then tells the records apart by that field. */
  lemma HashV1Reacts(lib: Lib, r: AuditRecord, s: AuditRecord, field: Field)
    requires Faithful(lib) && r.hashVersion == LEGACY_HASH_VERSION == s.hashVersion
    requires forall other :: other != field ==> AgreesOn(lib, r, s, other)
    requires RecordHashOf(lib, r) == RecordHashOf(lib, s)
    ensures AgreesOn(lib, r, s, field)
  {
    NoCollision(lib, PreimageV1(lib, r), PreimageV1(lib, s));
    EveryFieldCounts(lib, r, s, field);
  }

  /** Without bars the version-1 hash covers exactly the nine fields: it is the same for two records
      just when they agree on every one of them. */
  lemma HashV1CoversNine(lib: Lib, r: AuditRecord, s: AuditRecord)
    requires Faithful(lib) && r.hashVersion == LEGACY_HASH_VERSION == s.hashVersion
    requires Barless(lib, r) && Barless(lib, s)
    ensures RecordHashOf(lib, r) == RecordHashOf(lib, s) <==> forall field :: AgreesOn(lib, r, s, field)
  {
    PreimageIsJoin(lib, r);
    PreimageIsJoin(lib, s);
    if RecordHashOf(lib, r) == RecordHashOf(lib, s) {
      NoCollision(lib, PreimageV1(lib, r), PreimageV1(lib, s));
      SplitsIntoNine(lib, r);
      SplitsIntoNine(lib, s);
      forall field ensures AgreesOn(lib, r, s, field) {
        AgreeingTexts(lib, r, s, field);
      }
    }
    if forall field :: AgreesOn(lib, r, s, field) {
      AgreeingAll(lib, r, s);
    }
  }
}
