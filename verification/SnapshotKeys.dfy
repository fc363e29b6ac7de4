/** The order in which a day snapshot of crates/grith-analytics/src/contract.rs lists its rows: by the
    frozen key columns of each family. */
module SnapshotKeys {
  import opened Basics
  import opened Contract
  import opened Sorting
  import opened GroupBy
  import opened SnapshotOrder

  // ---------- The key columns ----------

  const CLASSES := [Decision, RoutineSpawn, RoutineIo, Noise, LlmUsage, System]

  const CATEGORIES := [FileRead, FileMutation, Process, NetworkEgress, NetworkListen, CrossProcess, Namespace, Llm,
                       SystemCategory, Other]

  const VERDICTS := [Allow, Queue, Deny]

  const KINDS := [Domain, HostPort, UrlOrigin, UnixSocketClass, OtherKind]

  /** Every enumeration is ranked by where its values are declared. */
  lemma RanksAreDeclared()
    ensures forall c :: 0 <= ClassRank(c) < |CLASSES| && CLASSES[ClassRank(c)] == c
    ensures forall c :: 0 <= CategoryRank(c) < |CATEGORIES| && CATEGORIES[CategoryRank(c)] == c
    ensures forall v :: 0 <= VerdictRank(v) < |VERDICTS| && VERDICTS[VerdictRank(v)] == v
    ensures forall k :: 0 <= KindRank(k) < |KINDS| && KINDS[KindRank(k)] == k
  {
  }

  /** An absent value comes before every present one. */
  function OrFirst(value: Option<int>): Atom { match value case None => Num(-1) case Some(n) => Num(n) }

  function VerdictPlace(v: Option<Verdict>): Option<int> {
    match v case None => None case Some(verdict) => Some(VerdictRank(verdict))
  }

  function UsageColumns(k: UsageKey): seq<Atom> {
    [Num(k.bucketStart), Text(k.project), Text(k.profileId), Text(k.configHash), Text(k.supervisedTool),
     Num(ClassRank(k.recordClass)), Num(CategoryRank(k.category)),
     OrFirst(VerdictPlace(k.verdict)), OrFirst(k.scoreBucket)]
  }

  function FilterColumns(k: FilterKey): seq<Atom> {
    [Text(k.project), Text(k.profileId), Text(k.configHash), Num(k.filterSetVersion), Text(k.filterId)]
  }

  /** A UUID by its upper and then its lower half. */
  function SessionColumns(k: SessionKey): seq<Atom> {
    [Num(k.sessionId.hi), Num(k.sessionId.lo), Text(k.project), Text(k.profileId), Text(k.configHash),
     Text(k.supervisedTool)]
  }

  function LlmColumns(k: LlmKey): seq<Atom> {
    [Text(k.project), Text(k.provider), Text(k.model), Text(k.currency), Text(k.priceSource), Text(k.pricingVersion)]
  }

  /** A label by whether there is one, and then by its text. */
  function DestinationColumns(k: DestinationKey): seq<Atom> {
    [Num(KindRank(k.kind)), Text(k.destinationHmac), Num(k.hmacKeyVersion),
     Num(if k.approvedDisplayLabel.Some? then 1 else 0),
     Text(match k.approvedDisplayLabel case None => "" case Some(text) => text), Num(VerdictRank(k.verdict))]
  }

  // ---------- Lexicographic order ----------

  /** Numbers by value, texts byte by byte. */
  predicate Less(a: Atom, b: Atom) {
    || (a.Num? && b.Num? && a.n < b.n)
    || (a.Text? && b.Text? && StringLeq(a.t, b.t) && a.t != b.t)
  }

  /** The same columns, or a smaller value at the first difference. */
  ghost predicate Ascends(a: seq<Atom>, b: seq<Atom>) {
    a == b || exists k :: Differ(a, b, k) && Less(a[k], b[k])
  }

  predicate Differ(a: seq<Atom>, b: seq<Atom>, k: int) {
    0 <= k < |a| && k < |b| && a[..k] == b[..k] && a[k] != b[k]
  }

  /** Columns of the same kinds, one by one. */
  ghost predicate SameKinds(a: seq<Atom>, b: seq<Atom>) {
    |a| == |b| && forall k :: 0 <= k < |a| ==> (a[k].Num? <==> b[k].Num?)
  }

  lemma {:induction false} LexCut(a: seq<Atom>, b: seq<Atom>, n: nat)
    requires LexLeq(a, b) && SameKinds(a, b) && n <= |a|
    ensures Ascends(a[..n], b[..n])
  {
    if n > 0 {
      if a[0] == b[0] {
        LexCut(a[1..], b[1..], n - 1);
        assert a[..n] == [a[0]] + a[1..][..n - 1] && b[..n] == [b[0]] + b[1..][..n - 1];
        if a[1..][..n - 1] != b[1..][..n - 1] {
          var k :| Differ(a[1..][..n - 1], b[1..][..n - 1], k) && Less(a[1..][..n - 1][k], b[1..][..n - 1][k]);
          assert a[..n][..k + 1] == [a[0]] + a[1..][..n - 1][..k] && b[..n][..k + 1] == [b[0]] + b[1..][..n - 1][..k];
          assert Differ(a[..n], b[..n], k + 1);
        }
      } else {
        assert Differ(a[..n], b[..n], 0);
      }
    }
  }

  lemma SortedAt<R(!new)>(rows: seq<R>, atoms: R -> seq<Atom>, i: nat, j: nat)
    requires SnapshotOrder.Injective(atoms) && i < j < |Sort(rows, By(atoms))|
    ensures LexLeq(atoms(Sort(rows, By(atoms))[i]), atoms(Sort(rows, By(atoms))[j]))
  {
    ByIsTotalOrder(atoms, rows);
    SortSorts(rows, By(atoms));
    assert By(atoms)(Sort(rows, By(atoms))[i], Sort(rows, By(atoms))[j]);
  }

  /** Sorting by atoms that start with the key columns lists the rows by those columns. */
  lemma SortedByColumns<K(!new), R(!new)>(
    rows: seq<(K, R)>, atoms: ((K, R)) -> seq<Atom>, columns: K -> seq<Atom>, n: nat, i: nat, j: nat)
    requires SnapshotOrder.Injective(atoms) && i < j < |Sort(rows, By(atoms))|
    requires forall row :: n <= |atoms(row)| && atoms(row)[..n] == columns(row.0)
    requires forall a, b :: SameKinds(atoms(a), atoms(b))
    ensures Ascends(columns(Sort(rows, By(atoms))[i].0), columns(Sort(rows, By(atoms))[j].0))
  {
    SortedAt(rows, atoms, i, j);
    LexCut(atoms(Sort(rows, By(atoms))[i]), atoms(Sort(rows, By(atoms))[j]), n);
  }

  // ---------- The canonical lists ----------

  ghost predicate UsageAscends(rows: seq<(UsageKey, UsageRow)>) {
    forall i, j :: 0 <= i < j < |rows| ==> Ascends(UsageColumns(rows[i].0), UsageColumns(rows[j].0))
  }

  ghost predicate FiltersAscend(rows: seq<(FilterKey, FilterRow)>) {
    forall i, j :: 0 <= i < j < |rows| ==> Ascends(FilterColumns(rows[i].0), FilterColumns(rows[j].0))
  }

  ghost predicate SessionsAscend(rows: seq<(SessionKey, SessionRow)>) {
    forall i, j :: 0 <= i < j < |rows| ==> Ascends(SessionColumns(rows[i].0), SessionColumns(rows[j].0))
  }

  ghost predicate LlmAscends(rows: seq<(LlmKey, LlmRow)>) {
    forall i, j :: 0 <= i < j < |rows| ==> Ascends(LlmColumns(rows[i].0), LlmColumns(rows[j].0))
  }

  ghost predicate DestinationsAscend(rows: seq<(DestinationKey, DestinationRow)>) {
    forall i, j :: 0 <= i < j < |rows| ==> Ascends(DestinationColumns(rows[i].0), DestinationColumns(rows[j].0))
  }

  lemma UsageAtomsStart(row: (UsageKey, UsageRow), other: (UsageKey, UsageRow))
    ensures UsageAtoms(row)[..9] == UsageColumns(row.0) && SameKinds(UsageAtoms(row), UsageAtoms(other))
  {
  }

  lemma UsageByColumns(rows: seq<(UsageKey, UsageRow)>)
    ensures UsageAscends(Sort(rows, By(UsageAtoms)))
  {
    var sorted := Sort(rows, By(UsageAtoms));
    UsageAtomsInjective();
    forall row, other
      ensures UsageAtoms(row)[..9] == UsageColumns(row.0) && SameKinds(UsageAtoms(row), UsageAtoms(other))
    {
      UsageAtomsStart(row, other);
    }
    forall i, j | 0 <= i < j < |sorted| ensures Ascends(UsageColumns(sorted[i].0), UsageColumns(sorted[j].0)) {
      SortedByColumns(rows, UsageAtoms, UsageColumns, 9, i, j);
    }
  }

  lemma FilterAtomsStart(row: (FilterKey, FilterRow), other: (FilterKey, FilterRow))
    ensures FilterAtoms(row)[..5] == FilterColumns(row.0) && SameKinds(FilterAtoms(row), FilterAtoms(other))
  {
  }

  lemma FiltersByColumns(rows: seq<(FilterKey, FilterRow)>)
    ensures FiltersAscend(Sort(rows, By(FilterAtoms)))
  {
    var sorted := Sort(rows, By(FilterAtoms));
    FilterAtomsInjective();
    forall row, other
      ensures FilterAtoms(row)[..5] == FilterColumns(row.0) && SameKinds(FilterAtoms(row), FilterAtoms(other))
    {
      FilterAtomsStart(row, other);
    }
    forall i, j | 0 <= i < j < |sorted| ensures Ascends(FilterColumns(sorted[i].0), FilterColumns(sorted[j].0)) {
      SortedByColumns(rows, FilterAtoms, FilterColumns, 5, i, j);
    }
  }

  lemma SessionAtomsStart(row: (SessionKey, SessionRow), other: (SessionKey, SessionRow))
    ensures SessionAtoms(row)[..6] == SessionColumns(row.0) && SameKinds(SessionAtoms(row), SessionAtoms(other))
  {
  }

  lemma SessionsByColumns(rows: seq<(SessionKey, SessionRow)>)
    ensures SessionsAscend(Sort(rows, By(SessionAtoms)))
  {
    var sorted := Sort(rows, By(SessionAtoms));
    SessionAtomsInjective();
    forall row, other
      ensures SessionAtoms(row)[..6] == SessionColumns(row.0) && SameKinds(SessionAtoms(row), SessionAtoms(other))
    {
      SessionAtomsStart(row, other);
    }
    forall i, j | 0 <= i < j < |sorted| ensures Ascends(SessionColumns(sorted[i].0), SessionColumns(sorted[j].0)) {
      SortedByColumns(rows, SessionAtoms, SessionColumns, 6, i, j);
    }
  }

  lemma LlmAtomsStart(row: (LlmKey, LlmRow), other: (LlmKey, LlmRow))
    ensures LlmAtoms(row)[..6] == LlmColumns(row.0) && SameKinds(LlmAtoms(row), LlmAtoms(other))
  {
  }

  lemma LlmByColumns(rows: seq<(LlmKey, LlmRow)>)
    ensures LlmAscends(Sort(rows, By(LlmAtoms)))
  {
    var sorted := Sort(rows, By(LlmAtoms));
    LlmAtomsInjective();
    forall row, other
      ensures LlmAtoms(row)[..6] == LlmColumns(row.0) && SameKinds(LlmAtoms(row), LlmAtoms(other))
    {
      LlmAtomsStart(row, other);
    }
    forall i, j | 0 <= i < j < |sorted| ensures Ascends(LlmColumns(sorted[i].0), LlmColumns(sorted[j].0)) {
      SortedByColumns(rows, LlmAtoms, LlmColumns, 6, i, j);
    }
  }

  lemma DestinationAtomsStart(row: (DestinationKey, DestinationRow), other: (DestinationKey, DestinationRow))
    ensures DestinationAtoms(row)[..6] == DestinationColumns(row.0)
    ensures SameKinds(DestinationAtoms(row), DestinationAtoms(other))
  {
  }

  lemma DestinationsByColumns(rows: seq<(DestinationKey, DestinationRow)>)
    ensures DestinationsAscend(Sort(rows, By(DestinationAtoms)))
  {
    var sorted := Sort(rows, By(DestinationAtoms));
    DestinationAtomsInjective();
    forall row, other
      ensures DestinationAtoms(row)[..6] == DestinationColumns(row.0)
      ensures SameKinds(DestinationAtoms(row), DestinationAtoms(other))
    {
      DestinationAtomsStart(row, other);
    }
    forall i, j | 0 <= i < j < |sorted|
      ensures Ascends(DestinationColumns(sorted[i].0), DestinationColumns(sorted[j].0))
    {
      SortedByColumns(rows, DestinationAtoms, DestinationColumns, 6, i, j);
    }
  }

  /** The canonical form of a snapshot holds the rows it was given, and every list ascends by its key
      columns in their frozen order: numbers and UUIDs by value, texts by bytes, enumerations as they are
      declared, absent values first. */
  lemma CanonicalAscends(rows: RowLists)
    ensures
      var sorted := CanonicalRows(rows);
      && SameRows(sorted, rows)
      && UsageAscends(sorted.usage) && FiltersAscend(sorted.filters) && SessionsAscend(sorted.sessions)
      && LlmAscends(sorted.llm) && DestinationsAscend(sorted.destinations)
  {
    UsageByColumns(rows.usage);
    FiltersByColumns(rows.filters);
    SessionsByColumns(rows.sessions);
    LlmByColumns(rows.llm);
    DestinationsByColumns(rows.destinations);
    SortKeepsElements(rows.usage, By(UsageAtoms));
    SortKeepsElements(rows.filters, By(FilterAtoms));
    SortKeepsElements(rows.sessions, By(SessionAtoms));
    SortKeepsElements(rows.llm, By(LlmAtoms));
    SortKeepsElements(rows.destinations, By(DestinationAtoms));
  }
}
