/** Which events the accumulator accepts, and which filter ids normalise to which, said outright
    (crates/grith-analytics/src/accumulator.rs, normalize.rs). */
module EventRules {
  import opened Basics
  import opened Contract
  import opened Sorting
  import opened Normalize
  import opened Events

  // ---------- Filter identifiers ----------

  predicate IsSpace(c: char) { c == ' ' || c == '\t' || c == '\n' || c == '\r' || c == 11 as char || c == 12 as char }

  predicate AllSpace(s: string) { forall i :: 0 <= i < |s| ==> IsSpace(s[i]) }

  /** A byte of the name as someone may type it: in either case, an underscore for a hyphen. */
  predicate TypedAs(typed: char, c: char) {
    || typed == c
    || ('a' <= c <= 'z' && typed as int == c as int - 32)
    || (c == '-' && typed == '_')
  }

  predicate TypedName(typed: string, name: string) {
    |typed| == |name| && forall i :: 0 <= i < |name| ==> TypedAs(typed[i], name[i])
  }

  /** Words of lower-case letters and digits joined by single hyphens, at most 64 bytes. */
  predicate KebabName(s: string) {
    && 0 < |s| <= 64
    && (forall i :: 0 <= i < |s| ==> 'a' <= s[i] <= 'z' || '0' <= s[i] <= '9' || s[i] == '-')
    && s[0] != '-' && s[|s| - 1] != '-'
    && (forall i :: 0 < i < |s| ==> s[i - 1] != '-' || s[i] != '-')
  }

  lemma KebabIff(s: string)
    ensures LowerKebab(s) <==> KebabName(s)
  {
    if KebabName(s) {
      forall i | 0 <= i < |s| - 1 ensures !(s[i] == '-' && s[i + 1] == '-') {
        assert s[i + 1 - 1] != '-' || s[i + 1] != '-';
      }
    }
  }

  lemma {:induction false} TrimStartSplits(s: string) returns (space: string)
    ensures s == space + TrimStart(s) && AllSpace(space)
    ensures TrimStart(s) != "" ==> !IsSpace(TrimStart(s)[0])
  {
    if s != "" && Space(s[0]) {
      var rest := TrimStartSplits(s[1..]);
      space := [s[0]] + rest;
      assert s == [s[0]] + s[1..];
    } else {
      space := "";
    }
  }

  lemma {:induction false} TrimEndSplits(s: string) returns (space: string)
    ensures s == TrimEnd(s) + space && AllSpace(space)
    ensures TrimEnd(s) != "" ==> !IsSpace(TrimEnd(s)[|TrimEnd(s)| - 1])
    ensures TrimEnd(s) <= s
  {
    if s != "" && Space(s[|s| - 1]) {
      var rest := TrimEndSplits(s[..|s| - 1]);
      space := rest + [s[|s| - 1]];
      assert s == s[..|s| - 1] + [s[|s| - 1]];
    } else {
      space := "";
    }
  }

  lemma {:induction false} TrimStartDrops(space: string, s: string)
    requires AllSpace(space) && (s == "" || !IsSpace(s[0]))
    ensures TrimStart(space + s) == s
  {
    if space == "" {
      assert space + s == s;
    } else {
      assert (space + s)[1..] == space[1..] + s;
      TrimStartDrops(space[1..], s);
    }
  }

  lemma {:induction false} TrimEndDrops(s: string, space: string)
    requires AllSpace(space) && (s == "" || !IsSpace(s[|s| - 1]))
    ensures TrimEnd(s + space) == s
  {
    if space == "" {
      assert s + space == s;
    } else {
      var n := |space| - 1;
      assert (s + space)[..|s + space| - 1] == s + space[..n];
      TrimEndDrops(s, space[..n]);
    }
  }

  /** A typed name in the middle of white space. */
  predicate Around(value: string, before: string, typed: string, after: string) {
    value == before + typed + after && AllSpace(before) && AllSpace(after)
  }

  lemma FoldsTo(typed: string, name: string)
    requires KebabName(name)
    ensures Map(typed, Fold) == name <==> TypedName(typed, name)
  {
    if TypedName(typed, name) {
      forall i | 0 <= i < |name| ensures Fold(typed[i]) == name[i] {
        assert TypedAs(typed[i], name[i]);
      }
    }
    if Map(typed, Fold) == name {
      forall i | 0 <= i < |name| ensures TypedAs(typed[i], name[i]) {
        assert name[i] == Fold(typed[i]);
      }
    }
  }

  lemma TypedEnds(typed: string, name: string)
    requires KebabName(name) && TypedName(typed, name)
    ensures typed != "" && !IsSpace(typed[0]) && !IsSpace(typed[|typed| - 1])
  {
    assert TypedAs(typed[0], name[0]) && TypedAs(typed[|typed| - 1], name[|name| - 1]);
  }

  lemma TypedIn(value: string, name: string) returns (before: string, typed: string, after: string)
    requires NormalizeFilterId(value) == Ok(name)
    ensures KebabName(name) && Around(value, before, typed, after) && TypedName(typed, name)
  {
    var inner := TrimStart(value);
    typed := TrimEnd(inner);
    before := TrimStartSplits(value);
    after := TrimEndSplits(inner);
    KebabIff(name);
    FoldsTo(typed, name);
    ConcatAssociates(before, typed, after);
  }

  lemma TypedNormalises(value: string, name: string, before: string, typed: string, after: string)
    requires KebabName(name) && Around(value, before, typed, after) && TypedName(typed, name)
    ensures NormalizeFilterId(value) == Ok(name)
  {
    TypedEnds(typed, name);
    ConcatAssociates(before, typed, after);
    TrimStartDrops(before, typed + after);
    TrimEndDrops(typed, after);
    FoldsTo(typed, name);
    KebabIff(name);
  }

  /** A text normalises to a name exactly when it is that name, in any case, with underscores for hyphens
      and white space around it, and the name is in kebab case; any other text is refused. */
  lemma NormalisesIff(value: string, name: string)
    ensures NormalizeFilterId(value) == Ok(name) <==>
      KebabName(name) && exists before, typed, after :: Around(value, before, typed, after) && TypedName(typed, name)
  {
    if NormalizeFilterId(value) == Ok(name) {
      var before, typed, after := TypedIn(value, name);
    } else if KebabName(name) {
      forall before, typed, after | Around(value, before, typed, after) && TypedName(typed, name) ensures false {
        TypedNormalises(value, name, before, typed, after);
      }
    }
  }

  // ---------- Accepted events ----------

  /** Each id strictly below the next in byte order. */
  ghost predicate Ascending(ids: seq<string>) {
    forall i, j :: 0 <= i < j < |ids| ==> StringLeq(ids[i], ids[j]) && ids[i] != ids[j]
  }

  /** At most 64 kebab-case names, strictly ascending. */
  ghost predicate FilterSet(ids: seq<string>) {
    |ids| <= 64 && Ascending(ids) && forall i :: 0 <= i < |ids| ==> KebabName(ids[i])
  }

  /** Positive bounded scores of evaluated filters, strictly ascending by filter. */
  ghost predicate Contributions(cs: seq<FilterContribution>, evaluated: seq<string>) {
    && (forall i :: 0 <= i < |cs| ==> 0 < cs[i].scoreMicros <= 100_000_000 && cs[i].filterId in evaluated)
    && (forall i, j :: 0 <= i < j < |cs| ==>
          StringLeq(cs[i].filterId, cs[j].filterId) && cs[i].filterId != cs[j].filterId)
  }

  ghost predicate DecisionComplete(e: AnalyticsEvent) {
    && e.initialVerdict.Some? && e.scoreMicros.Some?
    && e.filterSetVersion.Some? && e.filterSetVersion.value > 0
    && FilterSet(e.evaluatedFilterIds) && Contributions(e.positiveFilterContributions, e.evaluatedFilterIds)
  }

  ghost predicate WellFormed(e: AnalyticsEvent) {
    && (e.scoreMicros.Some? ==> -100_000_000 <= e.scoreMicros.value <= 100_000_000)
    && (if e.recordClass == Decision then DecisionComplete(e)
        else e.filterSetVersion.None? && e.evaluatedFilterIds == [] && e.positiveFilterContributions == [])
    && (e.llmUsage.Some? <==> e.recordClass == LlmUsage)
    && (e.destination.Some? ==> e.initialVerdict.Some?)
    && (e.security.Some? ==>
          && e.security.value.eventId == e.eventId && e.security.value.occurredAt == e.occurredAt
          && e.security.value.initialVerdict == e.initialVerdict)
  }

  lemma {:induction false} StrictIff(ids: seq<string>)
    ensures StrictlySorted(ids) <==> Ascending(ids)
  {
    if StrictlySorted(ids) {
      StrictlySortedMeans(ids);
    } else if |ids| > 1 && Ascending(ids) {
      assert StringLeq(ids[0], ids[1]) && ids[0] != ids[1];
      assert Ascending(ids[1..]);
      StrictIff(ids[1..]);
    }
  }

  lemma FilterSetIff(ids: seq<string>)
    ensures CanonicalIds(ids) <==> FilterSet(ids)
  {
    StrictIff(ids);
    forall i | 0 <= i < |ids| ensures LowerKebab(ids[i]) <==> KebabName(ids[i]) {
      KebabIff(ids[i]);
    }
  }

  /** ... and above the one seen before. */
  ghost predicate ContributionsAfter(cs: seq<FilterContribution>, evaluated: seq<string>, previous: Option<string>) {
    && Contributions(cs, evaluated)
    && (cs != [] && previous.Some? ==> StringLeq(previous.value, cs[0].filterId) && previous.value != cs[0].filterId)
  }

  lemma StrictlyAbove(id: string, previous: string)
    ensures StringLeq(id, previous) <==> !(StringLeq(previous, id) && previous != id)
  {
    StringLeqTotal(id, previous);
    if StringLeq(id, previous) && StringLeq(previous, id) {
      StringLeqAntisymmetric(id, previous);
    }
  }

  lemma {:induction false} ContributionsIff(
    cs: seq<FilterContribution>, evaluated: seq<string>, previous: Option<string>)
    ensures FirstBad(cs, evaluated, previous).None? <==> ContributionsAfter(cs, evaluated, previous)
  {
    if cs != [] {
      if previous.Some? {
        StrictlyAbove(cs[0].filterId, previous.value);
      }
      ContributionsIff(cs[1..], evaluated, Some(cs[0].filterId));
      ContributionsSplit(cs, evaluated);
    }
  }

  lemma ContributionsSplit(cs: seq<FilterContribution>, evaluated: seq<string>)
    requires cs != []
    ensures Contributions(cs, evaluated) <==>
      && 0 < cs[0].scoreMicros <= 100_000_000 && cs[0].filterId in evaluated
      && ContributionsAfter(cs[1..], evaluated, Some(cs[0].filterId))
  {
    var rest := cs[1..];
    assert forall i :: 0 <= i < |rest| ==> rest[i] == cs[i + 1];
    if Contributions(cs, evaluated) {
      assert rest != [] ==> rest[0] == cs[1];
    }
    if 0 < cs[0].scoreMicros <= 100_000_000 && cs[0].filterId in evaluated
       && ContributionsAfter(rest, evaluated, Some(cs[0].filterId)) {
      forall i, j | 0 <= i < j < |cs|
        ensures StringLeq(cs[i].filterId, cs[j].filterId) && cs[i].filterId != cs[j].filterId
      {
        if i > 0 {
          assert rest[i - 1] == cs[i] && rest[j - 1] == cs[j];
        } else {
          BelowAll(cs[0].filterId, rest, evaluated, j - 1);
          assert rest[j - 1] == cs[j];
        }
      }
      forall i | 0 <= i < |cs| ensures 0 < cs[i].scoreMicros <= 100_000_000 && cs[i].filterId in evaluated {
        assert i > 0 ==> rest[i - 1] == cs[i];
      }
    }
  }

  lemma BelowAll(id: string, rest: seq<FilterContribution>, evaluated: seq<string>, j: nat)
    requires ContributionsAfter(rest, evaluated, Some(id)) && j < |rest|
    ensures StringLeq(id, rest[j].filterId) && id != rest[j].filterId
  {
    if j > 0 {
      StringLeqTransitive(id, rest[0].filterId, rest[j].filterId);
      if id == rest[j].filterId {
        StringLeqAntisymmetric(id, rest[0].filterId);
      }
    }
  }

  lemma CanonicalIff(ids: seq<string>)
    ensures CanonicalFilterIds(ids) == Ok(ids) <==> FilterSet(ids)
  {
    CanonicalMeans(ids);
    FilterSetIff(ids);
  }

  lemma NoneBadIff(cs: seq<FilterContribution>, evaluated: seq<string>)
    ensures FirstBad(cs, evaluated, None).None? <==> Contributions(cs, evaluated)
  {
    ContributionsIff(cs, evaluated, None);
  }

  lemma FilterDataIff(e: AnalyticsEvent, canonical: Result<seq<string>, NormalizationError>, bad: Option<string>)
    ensures FilterDataError(e, canonical, bad).None? <==> canonical == Ok(e.evaluatedFilterIds) && bad.None?
  {
  }

  lemma DecisionIff(e: AnalyticsEvent)
    ensures DecisionError(e).None? <==> DecisionComplete(e)
  {
    CanonicalIff(e.evaluatedFilterIds);
    NoneBadIff(e.positiveFilterContributions, e.evaluatedFilterIds);
    FilterDataIff(e, CanonicalFilterIds(e.evaluatedFilterIds),
      FirstBad(e.positiveFilterContributions, e.evaluatedFilterIds, None));
  }

  /** An event passes validation exactly when it is well-formed. */
  lemma ValidIff(e: AnalyticsEvent)
    ensures ValidationError(e).None? <==> WellFormed(e)
  {
    DecisionIff(e);
  }

  // ---------- The order of the checks ----------

  predicate ScoreFine(e: AnalyticsEvent) {
    e.scoreMicros.Some? ==> -100_000_000 <= e.scoreMicros.value <= 100_000_000
  }

  predicate DecisionFine(e: AnalyticsEvent) {
    e.recordClass == Decision ==> e.initialVerdict.Some? && e.scoreMicros.Some?
  }

  predicate SetVersionFine(e: AnalyticsEvent) {
    e.recordClass == Decision ==> e.filterSetVersion.Some? && e.filterSetVersion.value > 0
  }

  ghost predicate FilterSetFine(e: AnalyticsEvent) { e.recordClass == Decision ==> FilterSet(e.evaluatedFilterIds) }

  ghost predicate ContributionsFine(e: AnalyticsEvent) {
    e.recordClass == Decision ==> Contributions(e.positiveFilterContributions, e.evaluatedFilterIds)
  }

  predicate NoFilterData(e: AnalyticsEvent) {
    e.recordClass != Decision ==>
      e.filterSetVersion.None? && e.evaluatedFilterIds == [] && e.positiveFilterContributions == []
  }

  /** The filter data of the event's class is in order. */
  ghost predicate ClassFine(e: AnalyticsEvent) {
    DecisionFine(e) && SetVersionFine(e) && FilterSetFine(e) && ContributionsFine(e) && NoFilterData(e)
  }

  predicate DestinationFine(e: AnalyticsEvent) { e.destination.Some? ==> e.initialVerdict.Some? }

  /** Which error an event gets: that of the first rule it breaks, in this order. */
  lemma FirstRuleBroken(e: AnalyticsEvent)
    ensures
      var error := ValidationError(e);
      && (!ScoreFine(e) ==> error == Some(ScoreOutOfRange(e.eventId)))
      && (ScoreFine(e) && !DecisionFine(e) ==> error == Some(IncompleteDecision(e.eventId)))
      && (ScoreFine(e) && DecisionFine(e) && !SetVersionFine(e) ==> error == Some(MissingFilterSetVersion(e.eventId)))
      && (ScoreFine(e) && !NoFilterData(e) ==> error == Some(UnexpectedFilterData(e.eventId)))
      && (ScoreFine(e) && ClassFine(e) && e.recordClass == LlmUsage && e.llmUsage.None? ==>
            error == Some(MissingLlmUsage(e.eventId)))
      && (ScoreFine(e) && ClassFine(e) && e.recordClass != LlmUsage && e.llmUsage.Some? ==>
            error == Some(UnexpectedLlmUsage(e.eventId)))
      && (ScoreFine(e) && ClassFine(e) && (e.llmUsage.Some? <==> e.recordClass == LlmUsage) && !DestinationFine(e) ==>
            error == Some(DestinationWithoutVerdict(e.eventId)))
  {
    DecisionIff(e);
  }
}
