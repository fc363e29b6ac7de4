/** The length-prefixed canonical encoder of crates/grith-audit/src/types.rs and its decoder.
    A `string` stands for the UTF-8 bytes of a Rust string, one `char` per byte, so `|s|` is the
    byte length the encoder writes. */
module Canonical {
  import opened Basics
  import opened Hexadecimal

  const UNIT_SEP: char := '\U{1f}'
  const REC_SEP: char := '\U{1e}'

  predicate Printable(s: string) {
    forall k :: 0 <= k < |s| ==> s[k] >= ' '
  }

  /** Field names hold no control character; values may hold anything. */
  type Name = s: string | Printable(s) witness ""

  /** One named value of a canonical form; an absent value is not an empty one. */
  datatype Entry = Text(name: Name, value: string) | Absent(name: Name)

  /** An IEEE-754 double as its bit pattern. */
  type Bits64 = n: nat | n < 0x1_0000_0000_0000_0000

  // ---------- Decimal and hexadecimal text ----------

  function Dec(n: nat): string {
    if n < 10 then [Digit(n)] else Dec(n / 10) + [Digit(n % 10)]
  }

  function DecInt(i: int): string {
    if i < 0 then "-" + Dec(-i) else Dec(i)
  }

  /** `width` lower-case hexadecimal digits. */
  function Hex(n: nat, width: nat): string {
    if width == 0 then "" else Hex(n / 16, width - 1) + [Digit(n % 16)]
  }

  function Pow16(width: nat): nat {
    if width == 0 then 1 else 16 * Pow16(width - 1)
  }

  function HexBits(x: Bits64): string { Hex(x, 16) }

  predicate IsDecDigit(c: char) { '0' <= c <= '9' }

  function ParseDec(s: string): Option<nat> {
    if s == "" then None
    else if !IsDecDigit(s[|s| - 1]) then None
    else
      var d := (s[|s| - 1] as int) - ('0' as int);
      if |s| == 1 then Some(d)
      else match ParseDec(s[..|s| - 1])
           case None => None
           case Some(n) => Some(10 * n + d)
  }

  lemma {:induction false} ParseDecInverts(n: nat)
    ensures ParseDec(Dec(n)) == Some(n)
    ensures forall k :: 0 <= k < |Dec(n)| ==> IsDecDigit(Dec(n)[k])
    ensures |Dec(n)| > 0
  {
    if n >= 10 {
      ParseDecInverts(n / 10);
      assert Dec(n)[..|Dec(n)| - 1] == Dec(n / 10);
    }
  }

  lemma DecIntInjective(i: int, j: int)
    requires DecInt(i) == DecInt(j)
    ensures i == j
  {
    ParseDecInverts(if i < 0 then -i else i);
    ParseDecInverts(if j < 0 then -j else j);
    assert (i < 0 <==> DecInt(i)[0] == '-') && (j < 0 <==> DecInt(j)[0] == '-');
    if i < 0 && j < 0 {
      assert DecInt(i)[1..] == Dec(-i) && DecInt(j)[1..] == Dec(-j);
    }
  }

  lemma {:induction false} HexInjective(m: nat, n: nat, width: nat)
    requires m < Pow16(width) && n < Pow16(width)
    requires Hex(m, width) == Hex(n, width)
    ensures m == n
  {
    if width > 0 {
      var a, b := Hex(m, width), Hex(n, width);
      assert a[..|a| - 1] == Hex(m / 16, width - 1) && b[..|b| - 1] == Hex(n / 16, width - 1);
      HexInjective(m / 16, n / 16, width - 1);
      assert a[|a| - 1] == Digit(m % 16) && b[|b| - 1] == Digit(n % 16);
      DigitInjective(m % 16, n % 16);
    }
  }

  lemma DigitInjective(d: nat, e: nat)
    requires d < 16 && e < 16 && Digit(d) == Digit(e)
    ensures d == e
  {
  }

  lemma HexBitsInjective(x: Bits64, y: Bits64)
    requires HexBits(x) == HexBits(y)
    ensures x == y
  {
    assert Pow16(16) == 0x1_0000_0000_0000_0000 by {
      assert Pow16(4) == 0x1_0000;
      assert Pow16(8) == 0x1_0000_0000;
      assert Pow16(12) == 0x1_0000_0000_0000;
    }
    HexInjective(x, y, 16);
  }

  // ---------- The encoder ----------

  /** A value behind its byte length. */
  function Sized(value: string): string { Dec(|value|) + [UNIT_SEP] + (value + [REC_SEP]) }

  function EncodeEntry(e: Entry): string {
    match e
    case Text(name, value) => name + [UNIT_SEP] + ("+" + Sized(value))
    case Absent(name) => name + [UNIT_SEP] + ("-" + [UNIT_SEP] + [REC_SEP])
  }

  function EncodeEntries(es: seq<Entry>): string {
    if es == [] then "" else EncodeEntries(es[..|es| - 1]) + EncodeEntry(es[|es| - 1])
  }

  function Encode(domain: string, es: seq<Entry>): string {
    domain + [REC_SEP] + EncodeEntries(es)
  }

  function OptText(name: Name, value: Option<string>): Entry {
    match value
    case Some(v) => Text(name, v)
    case None => Absent(name)
  }

  /** The builder the hash functions drive: it only ever appends to `buf`. */
  class Builder {
    var buf: string
    ghost const domain: string
    ghost var entries: seq<Entry>

    /** The bytes so far encode the entries so far; stated over equal lists so that only a proof
        that mentions the encoding unfolds it. */
    ghost predicate Valid()
      reads this
    {
      forall es :: es == entries ==> buf == Encode(domain, es)
    }

    constructor (domain: string)
      ensures Valid() && this.domain == domain && entries == []
    {
      this.domain := domain;
      buf := domain + [REC_SEP];
      entries := [];
    }

    method PutText(name: Name, value: string)
      requires Valid()
      modifies this
      ensures Valid() && entries == old(entries) + [Entry.Text(name, value)]
    {
      buf := buf + (name + [UNIT_SEP] + ("+" + (Dec(|value|) + [UNIT_SEP] + (value + [REC_SEP]))));
      entries := entries + [Entry.Text(name, value)];
      EncodeAppend(domain, old(entries), Entry.Text(name, value));
    }

    method PutAbsent(name: Name)
      requires Valid()
      modifies this
      ensures Valid() && entries == old(entries) + [Entry.Absent(name)]
    {
      buf := buf + (name + [UNIT_SEP] + ("-" + [UNIT_SEP] + [REC_SEP]));
      entries := entries + [Entry.Absent(name)];
      EncodeAppend(domain, old(entries), Entry.Absent(name));
    }

    method PutOptText(name: Name, value: Option<string>)
      requires Valid()
      modifies this
      ensures Valid() && entries == old(entries) + [OptText(name, value)]
    {
      match value
      case Some(v) => PutText(name, v);
      case None => PutAbsent(name);
    }

    /** A double, as its bit pattern. */
    method PutFloat(name: Name, value: Bits64)
      requires Valid()
      modifies this
      ensures Valid() && entries == old(entries) + [Entry.Text(name, HexBits(value))]
    {
      PutText(name, HexBits(value));
    }

    method PutCount(name: Name, n: nat)
      requires Valid()
      modifies this
      ensures Valid() && entries == old(entries) + [Entry.Text(name + ".len", Dec(n))]
    {
      PutText(name + ".len", Dec(n));
    }

    method Finish() returns (text: string)
      requires Valid()
      ensures text == Encode(domain, entries)
    {
      text := buf;
    }
  }

  lemma EncodeAppend(domain: string, es: seq<Entry>, e: Entry)
    ensures Encode(domain, es + [e]) == Encode(domain, es) + EncodeEntry(e)
  {
    assert (es + [e])[..|es|] == es;
  }

  // ---------- The decoder ----------

  /** The text before the first `c` and the text after it. */
  function SplitAt(s: string, c: char): (r: Option<(string, string)>)
    ensures r.Some? ==> |r.value.0| + |r.value.1| + 1 == |s|
  {
    if s == "" then None
    else if s[0] == c then Some(("", s[1..]))
    else match SplitAt(s[1..], c)
         case None => None
         case Some(p) => Some(([s[0]] + p.0, p.1))
  }

  /** A present value, from just behind its '+' tag. */
  function DecodeText(name: Name, s: string): (r: Option<(Entry, string)>)
    ensures r.Some? ==> |r.value.1| < |s|
  {
    match SplitAt(s, UNIT_SEP)
    case None => None
    case Some(p) =>
      match ParseDec(p.0)
      case None => None
      case Some(n) =>
        if n < |p.1| && p.1[n] == REC_SEP then Some((Text(name, p.1[..n]), p.1[n + 1..])) else None
  }

  function DecodeValue(name: Name, rest: string): (r: Option<(Entry, string)>)
    ensures r.Some? ==> |r.value.1| < |rest|
  {
    if rest == "" then None
    else if rest[0] == '-' then
      if |rest| >= 3 && rest[1] == UNIT_SEP && rest[2] == REC_SEP then Some((Absent(name), rest[3..])) else None
    else if rest[0] == '+' then DecodeText(name, rest[1..])
    else None
  }

  function DecodeEntry(s: string): (r: Option<(Entry, string)>)
    ensures r.Some? ==> |r.value.1| < |s|
  {
    match SplitAt(s, UNIT_SEP)
    case None => None
    case Some(p) => if Printable(p.0) then DecodeValue(p.0, p.1) else None
  }

  function DecodeEntries(s: string): Option<seq<Entry>>
    decreases |s|
  {
    if s == "" then Some([])
    else match DecodeEntry(s)
         case None => None
         case Some(p) =>
           match DecodeEntries(p.1)
           case None => None
           case Some(es) => Some([p.0] + es)
  }

  lemma {:induction false} SplitInverts(a: string, b: string, c: char)
    requires c !in a
    ensures SplitAt(a + [c] + b, c) == Some((a, b))
  {
    if a == "" {
      assert a + [c] + b == [c] + b;
    } else {
      SplitInverts(a[1..], b, c);
      assert (a + [c] + b)[1..] == a[1..] + [c] + b;
      assert a == [a[0]] + a[1..];
    }
  }

  lemma DecodeEntryInverts(e: Entry, tail: string)
    ensures DecodeEntry(EncodeEntry(e) + tail) == Some((e, tail))
  {
    match e
    case Absent(name) =>
      var rest := "-" + [UNIT_SEP] + [REC_SEP];
      Associate(name + [UNIT_SEP], rest, tail);
      SplitInverts(name, rest + tail, UNIT_SEP);
      assert (rest + tail)[3..] == tail;
    case Text(name, value) =>
      Associate(name + [UNIT_SEP], "+" + Sized(value), tail);
      Associate("+", Sized(value), tail);
      SplitInverts(name, "+" + (Sized(value) + tail), UNIT_SEP);
      assert ("+" + (Sized(value) + tail))[1..] == Sized(value) + tail;
      DecodeTextInverts(name, value, tail);
  }

  lemma DecodeTextInverts(name: Name, value: string, tail: string)
    ensures DecodeText(name, Sized(value) + tail) == Some((Text(name, value), tail))
  {
    var body := value + [REC_SEP] + tail;
    Associate(Dec(|value|) + [UNIT_SEP], value + [REC_SEP], tail);
    ParseDecInverts(|value|);
    SplitInverts(Dec(|value|), body, UNIT_SEP);
    assert body[..|value|] == value && body[|value| + 1..] == tail;
  }

  lemma {:induction false} EncodeCons(e: Entry, es: seq<Entry>)
    ensures EncodeEntries([e] + es) == EncodeEntry(e) + EncodeEntries(es)
  {
    if es == [] {
      assert [e] + es == [] + [e];
      EntriesAppend([], e);
      assert EncodeEntries([]) == "";
    } else {
      var front, last := es[..|es| - 1], es[|es| - 1];
      assert es == front + [last] && [e] + es == ([e] + front) + [last];
      EntriesAppend([e] + front, last);
      EntriesAppend(front, last);
      EncodeCons(e, front);
      Associate(EncodeEntry(e), EncodeEntries(front), EncodeEntry(last));
    }
  }

  lemma Associate<T>(a: seq<T>, b: seq<T>, c: seq<T>)
    ensures (a + b) + c == a + (b + c)
  {
  }

  lemma EntriesAppend(es: seq<Entry>, e: Entry)
    ensures EncodeEntries(es + [e]) == EncodeEntries(es) + EncodeEntry(e)
  {
    assert (es + [e])[..|es|] == es;
  }

  /** Round trip: the bytes determine the entries, whatever the values contain. */
  lemma {:induction false} DecodeInverts(es: seq<Entry>)
    ensures DecodeEntries(EncodeEntries(es)) == Some(es)
  {
    if es != [] {
      DecodeInverts(es[1..]);
      EncodeCons(es[0], es[1..]);
      assert es == [es[0]] + es[1..];
      DecodeEntryInverts(es[0], EncodeEntries(es[1..]));
    }
  }

  /** Equal bytes under one domain come from equal entries. */
  lemma EncodeInjective(domain: string, es: seq<Entry>, fs: seq<Entry>)
    requires Encode(domain, es) == Encode(domain, fs)
    ensures es == fs
  {
    var p := |domain| + 1;
    assert Encode(domain, es)[p..] == EncodeEntries(es) && Encode(domain, fs)[p..] == EncodeEntries(fs);
    DecodeInverts(es);
    DecodeInverts(fs);
  }
}
