/** Filter identifiers and score bins of crates/grith-analytics/src/normalize.rs. */
module Normalize {
  import opened Basics
  import opened Sorting

  const MAX_FILTER_ID_BYTES := 64
  const MAX_EVALUATED_FILTERS := 64
  const SCORE_BIN_COUNT := 30
  const SCORE_BIN_WIDTH_MICROS := 500_000
  const SCORE_HISTOGRAM_MAX_MICROS := 15_000_000

  datatype NormalizationError = InvalidFilterId | TooManyFilters

  // ---------- Filter identifiers ----------

  predicate Space(c: char) { c == ' ' || 9 as char <= c <= 13 as char }

  function TrimStart(s: string): string {
    if s != [] && Space(s[0]) then TrimStart(s[1..]) else s
  }

  function TrimEnd(s: string): string {
    if s != [] && Space(s[|s| - 1]) then TrimEnd(s[..|s| - 1]) else s
  }

  /** `to_ascii_lowercase` and `replace('_', "-")` on one byte. */
  function Fold(c: char): char {
    if 'A' <= c <= 'Z' then c - 'A' + 'a' else if c == '_' then '-' else c
  }

  predicate KebabByte(c: char) { 'a' <= c <= 'z' || '0' <= c <= '9' || c == '-' }

  predicate LowerKebab(s: string) {
    && s != [] && |s| <= MAX_FILTER_ID_BYTES
    && s[0] != '-' && s[|s| - 1] != '-'
    && (forall i :: 0 <= i < |s| - 1 ==> !(s[i] == '-' && s[i + 1] == '-'))
    && (forall i :: 0 <= i < |s| ==> KebabByte(s[i]))
  }

  function NormalizeFilterId(value: string): Result<string, NormalizationError> {
    var normalized := Map(TrimEnd(TrimStart(value)), Fold);
    if LowerKebab(normalized) then Ok(normalized) else Err(InvalidFilterId)
  }

  /** Exactly the lower-kebab-case names are their own normal form. */
  lemma NormalFilterIds(value: string)
    ensures NormalizeFilterId(value) == Ok(value) <==> LowerKebab(value)
  {
    if LowerKebab(value) {
      assert KebabByte(value[0]) && KebabByte(value[|value| - 1]);
      assert Map(value, Fold) == value by {
        forall i | 0 <= i < |value| ensures Map(value, Fold)[i] == value[i] {
          assert KebabByte(value[i]);
        }
      }
    }
  }

  // ---------- Canonical sets ----------

  function NormalizeAll(values: seq<string>): Result<seq<string>, NormalizationError> {
    if values == [] then Ok([])
    else match NormalizeFilterId(values[0])
         case Err(e) => Err(e)
         case Ok(first) =>
           match NormalizeAll(values[1..]) case Err(e) => Err(e) case Ok(rest) => Ok([first] + rest)
  }

  /** Drops an element equal to the one before it. */
  function Dedup(s: seq<string>): seq<string> {
    if |s| <= 1 then s
    else if s[0] == s[1] then Dedup(s[1..])
    else [s[0]] + Dedup(s[1..])
  }

  function CanonicalFilterIds(values: seq<string>): Result<seq<string>, NormalizationError> {
    match NormalizeAll(values)
    case Err(e) => Err(e)
    case Ok(normalized) =>
      var sorted := Dedup(Sort(normalized, StringLeq));
      if |sorted| > MAX_EVALUATED_FILTERS then Err(TooManyFilters) else Ok(sorted)
  }

  /** Each name is strictly below the next. */
  predicate StrictlySorted(s: seq<string>) {
    |s| <= 1 || (StringLess(s[0], s[1]) && StrictlySorted(s[1..]))
  }

  predicate CanonicalIds(ids: seq<string>) {
    && |ids| <= MAX_EVALUATED_FILTERS
    && StrictlySorted(ids)
    && (forall i :: 0 <= i < |ids| ==> LowerKebab(ids[i]))
  }

  lemma {:induction false} StrictlySortedMeans(s: seq<string>)
    requires StrictlySorted(s)
    ensures SortedBy(s, StringLeq) && Distinct(s)
  {
    if |s| > 1 {
      StrictlySortedMeans(s[1..]);
      forall j | 1 <= j < |s| ensures StringLess(s[0], s[j]) {
        if j > 1 {
          assert StringLeq(s[1..][0], s[1..][j - 1]);
          StringLeqTransitive(s[0], s[1], s[j]);
          if s[0] == s[j] {
            StringLeqAntisymmetric(s[0], s[1]);
          }
        }
      }
      forall i, j | 0 <= i < j < |s| ensures StringLeq(s[i], s[j]) && s[i] != s[j] {
        if i > 0 {
          assert s[1..][i - 1] == s[i] && s[1..][j - 1] == s[j];
        }
      }
    }
  }

  lemma {:induction false} DedupFixesStrict(s: seq<string>)
    requires StrictlySorted(s)
    ensures Dedup(s) == s
  {
    if |s| > 1 {
      DedupFixesStrict(s[1..]);
    }
  }

  lemma {:induction false} DedupMakesStrict(s: seq<string>)
    requires SortedBy(s, StringLeq)
    ensures StrictlySorted(Dedup(s))
    ensures s != [] ==> Dedup(s) != [] && Dedup(s)[0] == s[0]
    ensures forall x :: x in Dedup(s) <==> x in s
  {
    if |s| > 1 {
      DedupMakesStrict(s[1..]);
      assert s == [s[0]] + s[1..];
      assert StringLeq(s[0], s[1]);
      if s[0] != s[1] {
        assert Dedup(s)[1..] == Dedup(s[1..]);
      }
    }
  }

  lemma {:induction false} NormalizeAllMeans(values: seq<string>)
    ensures NormalizeAll(values).Ok? ==> forall x :: x in NormalizeAll(values).value ==> LowerKebab(x)
    ensures (forall i :: 0 <= i < |values| ==> LowerKebab(values[i])) ==> NormalizeAll(values) == Ok(values)
  {
    if values != [] {
      NormalizeAllMeans(values[1..]);
      NormalFilterIds(values[0]);
      assert values == [values[0]] + values[1..];
    }
  }

  /** The canonical form is sorted without duplicates, and the canonical lists are exactly the lists
      it leaves alone. */
  lemma CanonicalMeans(values: seq<string>)
    ensures CanonicalFilterIds(values).Ok? ==> CanonicalIds(CanonicalFilterIds(values).value)
    ensures CanonicalFilterIds(values) == Ok(values) <==> CanonicalIds(values)
  {
    NormalizeAllMeans(values);
    if NormalizeAll(values).Ok? {
      var normalized := NormalizeAll(values).value;
      StringLeqIsPreorder();
      SortSorts(normalized, StringLeq);
      SortKeepsElements(normalized, StringLeq);
      DedupMakesStrict(Sort(normalized, StringLeq));
      DedupIsKebab(Sort(normalized, StringLeq), Dedup(Sort(normalized, StringLeq)));
    }
    if CanonicalIds(values) {
      StrictlySortedMeans(values);
      SortFixesSorted(values, StringLeq);
      DedupFixesStrict(values);
    }
  }

  lemma DedupIsKebab(s: seq<string>, t: seq<string>)
    requires (forall x :: x in s ==> LowerKebab(x)) && forall x :: x in t <==> x in s
    ensures forall i :: 0 <= i < |t| ==> LowerKebab(t[i])
  {
  }

  // ---------- Score bins ----------

  function Clamp(score: int): int {
    if score < 0 then 0 else if score > SCORE_HISTOGRAM_MAX_MICROS then SCORE_HISTOGRAM_MAX_MICROS else score
  }

  function ScoreBin(score: int): (bin: nat)
    ensures bin < SCORE_BIN_COUNT
    ensures 0 < bin ==> bin * SCORE_BIN_WIDTH_MICROS <= score
    ensures bin < SCORE_BIN_COUNT - 1 ==> score < (bin + 1) * SCORE_BIN_WIDTH_MICROS
  {
    var raw := Clamp(score) / SCORE_BIN_WIDTH_MICROS;
    if raw < SCORE_BIN_COUNT - 1 then raw else SCORE_BIN_COUNT - 1
  }
}
