/** The canonical row order of a day snapshot (crates/grith-analytics/src/contract.rs): the frozen
    sort key first, the remaining fields after it, so that one set of rows has one list. */
module SnapshotOrder {
  import opened Basics
  import opened Contract
  import opened Sorting
  import opened GroupBy

  // ---------- Lexicographic order over fields ----------

  datatype Atom = Num(n: int) | Text(t: string)

  predicate AtomLeq(a: Atom, b: Atom) {
    match (a, b)
    case (Num(m), Num(n)) => m <= n
    case (Num(_), Text(_)) => true
    case (Text(_), Num(_)) => false
    case (Text(s), Text(t)) => StringLeq(s, t)
  }

  predicate LexLeq(a: seq<Atom>, b: seq<Atom>) {
    a == [] || (b != [] && (if a[0] == b[0] then LexLeq(a[1..], b[1..]) else AtomLeq(a[0], b[0])))
  }

  lemma AtomLeqOrder(a: Atom, b: Atom, c: Atom)
    ensures AtomLeq(a, b) || AtomLeq(b, a)
    ensures AtomLeq(a, b) && AtomLeq(b, a) ==> a == b
    ensures AtomLeq(a, b) && AtomLeq(b, c) ==> AtomLeq(a, c)
  {
    if a.Text? && b.Text? {
      StringLeqTotal(a.t, b.t);
      if StringLeq(a.t, b.t) && StringLeq(b.t, a.t) {
        StringLeqAntisymmetric(a.t, b.t);
      }
      if c.Text? && StringLeq(a.t, b.t) && StringLeq(b.t, c.t) {
        StringLeqTransitive(a.t, b.t, c.t);
      }
    }
  }

  lemma {:induction false} LexLeqTotal(a: seq<Atom>, b: seq<Atom>)
    ensures LexLeq(a, b) || LexLeq(b, a)
  {
    if a != [] && b != [] {
      AtomLeqOrder(a[0], b[0], a[0]);
      if a[0] == b[0] {
        LexLeqTotal(a[1..], b[1..]);
      }
    }
  }

  lemma {:induction false} LexLeqAntisymmetric(a: seq<Atom>, b: seq<Atom>)
    requires LexLeq(a, b) && LexLeq(b, a)
    ensures a == b
  {
    if a != [] {
      AtomLeqOrder(a[0], b[0], a[0]);
      LexLeqAntisymmetric(a[1..], b[1..]);
      assert a == [a[0]] + a[1..] && b == [b[0]] + b[1..];
    }
  }

  lemma {:induction false} LexLeqTransitive(a: seq<Atom>, b: seq<Atom>, c: seq<Atom>)
    requires LexLeq(a, b) && LexLeq(b, c)
    ensures LexLeq(a, c)
  {
    if a != [] {
      AtomLeqOrder(a[0], b[0], c[0]);
      AtomLeqOrder(b[0], a[0], c[0]);
      AtomLeqOrder(b[0], c[0], a[0]);
      if a[0] == b[0] && b[0] == c[0] {
        LexLeqTransitive(a[1..], b[1..], c[1..]);
      }
    }
  }

  function By<R>(atoms: R -> seq<Atom>): (R, R) -> bool { (a: R, b: R) => LexLeq(atoms(a), atoms(b)) }

  ghost predicate Injective<R(!new)>(atoms: R -> seq<Atom>) {
    forall a, b :: atoms(a) == atoms(b) ==> a == b
  }

  lemma ByIsTotalOrder<R(!new)>(atoms: R -> seq<Atom>, rows: seq<R>)
    requires Injective(atoms)
    ensures Preorder(By(atoms)) && Discriminates(rows, By(atoms))
  {
    forall x, y ensures By(atoms)(x, y) || By(atoms)(y, x) {
      LexLeqTotal(atoms(x), atoms(y));
    }
    forall x, y, z | By(atoms)(x, y) && By(atoms)(y, z) ensures By(atoms)(x, z) {
      LexLeqTransitive(atoms(x), atoms(y), atoms(z));
    }
    forall x, y | x in rows && y in rows && By(atoms)(x, y) && By(atoms)(y, x) ensures x == y {
      LexLeqAntisymmetric(atoms(x), atoms(y));
    }
  }

  /** The canonical list forgets the order the rows were loaded in. */
  lemma CanonicalForgetsOrder<R(!new)>(atoms: R -> seq<Atom>, a: seq<R>, b: seq<R>)
    requires Injective(atoms) && multiset(a) == multiset(b)
    ensures Sort(a, By(atoms)) == Sort(b, By(atoms))
  {
    ByIsTotalOrder(atoms, a);
    SortForgetsOrder(a, b, By(atoms));
  }

  // ---------- The five kinds of rows ----------

  /** `derive(Ord)` on an enum compares declaration positions; None comes before Some. */
  function ClassRank(c: RecordClass): int {
    match c
    case Decision => 0
    case RoutineSpawn => 1
    case RoutineIo => 2
    case Noise => 3
    case LlmUsage => 4
    case System => 5
  }

  function CategoryRank(c: Category): int {
    match c
    case FileRead => 0 case FileMutation => 1 case Process => 2 case NetworkEgress => 3 case NetworkListen => 4
    case CrossProcess => 5 case Namespace => 6 case Llm => 7 case SystemCategory => 8 case Other => 9
  }

  function VerdictRank(v: Verdict): int { match v case Allow => 0 case Queue => 1 case Deny => 2 }

  function KindRank(k: DestinationKind): int {
    match k case Domain => 0 case HostPort => 1 case UrlOrigin => 2 case UnixSocketClass => 3 case OtherKind => 4
  }

  function OptionalVerdict(v: Option<Verdict>): Atom { Num(if v.Some? then VerdictRank(v.value) else -1) }

  function OptionalBucket(b: Option<nat>): Atom { Num(if b.Some? then b.value else -1) }

  function LabelTag(t: Option<string>): Atom { Num(if t.Some? then 1 else 0) }

  function LabelText(t: Option<string>): Atom { Text(if t.Some? then t.value else "") }

  function UsageAtoms(row: (UsageKey, UsageRow)): seq<Atom> {
    var (k, r) := row;
    [Num(k.bucketStart), Text(k.project), Text(k.profileId), Text(k.configHash), Text(k.supervisedTool),
     Num(ClassRank(k.recordClass)), Num(CategoryRank(k.category)),
     OptionalVerdict(k.verdict), OptionalBucket(k.scoreBucket),
     Num(r.eventCount), Num(r.scoreSum), Num(r.firstEventAt), Num(r.lastEventAt)]
  }

  function FilterAtoms(row: (FilterKey, FilterRow)): seq<Atom> {
    var (k, r) := row;
    [Text(k.project), Text(k.profileId), Text(k.configHash), Num(k.filterSetVersion), Text(k.filterId),
     Num(r.evaluated), Num(r.triggered), Num(r.deniedEvaluated), Num(r.deniedPositive)]
  }

  function SessionAtoms(row: (SessionKey, SessionRow)): seq<Atom> {
    var (k, r) := row;
    [Num(k.sessionId.hi), Num(k.sessionId.lo), Text(k.project), Text(k.profileId),
     Text(k.configHash), Text(k.supervisedTool),
     Num(r.firstEventAt), Num(r.lastEventAt), Num(r.decisions), Num(r.queues), Num(r.denies),
     Num(r.llmCalls), Num(r.promptTokens), Num(r.completionTokens), Num(r.costMicros)]
  }

  function LlmAtoms(row: (LlmKey, LlmRow)): seq<Atom> {
    var (k, r) := row;
    [Text(k.project), Text(k.provider), Text(k.model), Text(k.currency), Text(k.priceSource), Text(k.pricingVersion),
     Num(r.calls), Num(r.promptTokens), Num(r.completionTokens), Num(r.costMicros)]
  }

  function DestinationAtoms(row: (DestinationKey, DestinationRow)): seq<Atom> {
    var (k, r) := row;
    [Num(KindRank(k.kind)), Text(k.destinationHmac), Num(k.hmacKeyVersion),
     LabelTag(k.approvedDisplayLabel), LabelText(k.approvedDisplayLabel), Num(VerdictRank(k.verdict)),
     Num(r.eventCount), Num(r.firstEventAt), Num(r.lastEventAt)]
  }

  /** Entry by entry, equal lists have equal entries. */
  ghost predicate SameEntries(a: seq<Atom>, b: seq<Atom>) {
    |a| == |b| && forall i :: 0 <= i < |a| ==> a[i] == b[i]
  }

  lemma UsageAtomsInjective()
    ensures Injective(UsageAtoms)
  {
    forall a, b | UsageAtoms(a) == UsageAtoms(b) ensures a.0 == b.0 && a.1 == b.1 {
      assert SameEntries(UsageAtoms(a), UsageAtoms(b));
    }
  }

  lemma FilterAtomsInjective()
    ensures Injective(FilterAtoms)
  {
    forall a, b | FilterAtoms(a) == FilterAtoms(b) ensures a.0 == b.0 && a.1 == b.1 {
      assert SameEntries(FilterAtoms(a), FilterAtoms(b));
    }
  }

  lemma SessionAtomsInjective()
    ensures Injective(SessionAtoms)
  {
    forall a, b | SessionAtoms(a) == SessionAtoms(b) ensures a.0 == b.0 && a.1 == b.1 {
      assert SameEntries(SessionAtoms(a), SessionAtoms(b));
    }
  }

  lemma LlmAtomsInjective()
    ensures Injective(LlmAtoms)
  {
    forall a, b | LlmAtoms(a) == LlmAtoms(b) ensures a.0 == b.0 && a.1 == b.1 {
      assert SameEntries(LlmAtoms(a), LlmAtoms(b));
    }
  }

  lemma DestinationAtomsInjective()
    ensures Injective(DestinationAtoms)
  {
    forall a, b | DestinationAtoms(a) == DestinationAtoms(b) ensures a.0 == b.0 && a.1 == b.1 {
      assert SameEntries(DestinationAtoms(a), DestinationAtoms(b));
    }
  }

  // ---------- A day's row lists ----------

  datatype RowLists = RowLists(
    usage: seq<(UsageKey, UsageRow)>, filters: seq<(FilterKey, FilterRow)>, sessions: seq<(SessionKey, SessionRow)>,
    llm: seq<(LlmKey, LlmRow)>, destinations: seq<(DestinationKey, DestinationRow)>)

  function CanonicalRows(rows: RowLists): RowLists {
    RowLists(Sort(rows.usage, By(UsageAtoms)), Sort(rows.filters, By(FilterAtoms)),
             Sort(rows.sessions, By(SessionAtoms)),
             Sort(rows.llm, By(LlmAtoms)), Sort(rows.destinations, By(DestinationAtoms)))
  }

  /** The same rows, in whatever order. */
  predicate SameRows(a: RowLists, b: RowLists) {
    && multiset(a.usage) == multiset(b.usage) && multiset(a.filters) == multiset(b.filters)
    && multiset(a.sessions) == multiset(b.sessions) && multiset(a.llm) == multiset(b.llm)
    && multiset(a.destinations) == multiset(b.destinations)
  }

  /** Reassembly does not depend on the order rows are loaded in. */
  lemma ReassemblyForgetsOrder(a: RowLists, b: RowLists)
    requires SameRows(a, b)
    ensures CanonicalRows(a) == CanonicalRows(b)
  {
    UsageAtomsInjective();
    FilterAtomsInjective();
    SessionAtomsInjective();
    LlmAtomsInjective();
    DestinationAtomsInjective();
    CanonicalForgetsOrder(UsageAtoms, a.usage, b.usage);
    CanonicalForgetsOrder(FilterAtoms, a.filters, b.filters);
    CanonicalForgetsOrder(SessionAtoms, a.sessions, b.sessions);
    CanonicalForgetsOrder(LlmAtoms, a.llm, b.llm);
    CanonicalForgetsOrder(DestinationAtoms, a.destinations, b.destinations);
  }

  /** The rows of the accumulator's maps. */
  predicate RowsOf(r: Rollup, rows: RowLists) {
    && multiset(rows.usage) == multiset(r.usage.Items) && multiset(rows.filters) == multiset(r.filters.Items)
    && multiset(rows.sessions) == multiset(r.sessions.Items) && multiset(rows.llm) == multiset(r.llm.Items)
    && multiset(rows.destinations) == multiset(r.destinations.Items)
  }

  /** The entries of a map, in no particular order. */
  method Entries<K(!new), V(!new, ==)>(m: map<K, V>) returns (rows: seq<(K, V)>)
    ensures multiset(rows) == multiset(m.Items)
  {
    rows := [];
    var keys := m.Keys;
    ghost var done: set<(K, V)> := {};
    while keys != {}
      invariant keys <= m.Keys
      invariant done == set k | k in m && k !in keys :: (k, m[k])
      invariant multiset(rows) == multiset(done)
      decreases |keys|
    {
      var k :| k in keys;
      rows := rows + [(k, m[k])];
      keys := keys - {k};
      done := done + {(k, m[k])};
    }
    forall row ensures row in done <==> row in m.Items {
      if row in m.Items {
        assert row.0 in m && m[row.0] == row.1;
        assert row == (row.0, m[row.0]);
      }
    }
    assert done == m.Items;
  }

  /** What the row checksum is computed from; the digest itself is taken to be collision-free. */
  datatype Covered = Covered(
    day: int, sourceEventCount: int, firstEventAt: Option<int>, lastEventAt: Option<int>,
    firstChainSequence: Option<nat>, lastChainSequence: Option<nat>, lastChainHash: Option<string>, rows: RowLists)

  /** The header columns of a day, which the checksum covers beside the rows. */
  datatype DayHeader = DayHeader(
    sourceEventCount: int, firstEventAt: Option<int>, lastEventAt: Option<int>,
    firstChainSequence: Option<nat>, lastChainSequence: Option<nat>, lastChainHash: Option<string>)

  function HeaderOf(r: Rollup): DayHeader {
    DayHeader(r.sourceEventCount, r.firstEventAt, r.lastEventAt, r.firstChainSequence, r.lastChainSequence,
              r.lastChainHash)
  }

  function CoveredBy(day: int, header: DayHeader, rows: RowLists): Covered {
    Covered(day, header.sourceEventCount, header.firstEventAt, header.lastEventAt, header.firstChainSequence,
            header.lastChainSequence, header.lastChainHash, rows)
  }

  class DaySnapshot {
    var day: int
    var dayRevision: nat
    var readModelGeneration: nat
    var state: SnapshotState
    var sourceEventCount: int
    var firstEventAt: Option<int>
    var lastEventAt: Option<int>
    var firstChainSequence: Option<nat>
    var lastChainSequence: Option<nat>
    var lastChainHash: Option<string>
    var rows: RowLists
    var checksum: Option<Covered>

    function CoveredNow(): Covered
      reads this
    {
      Covered(day, sourceEventCount, firstEventAt, lastEventAt, firstChainSequence, lastChainSequence,
              lastChainHash, rows)
    }

    constructor (r: Rollup, rows: RowLists, dayRevision: nat, readModelGeneration: nat, state: SnapshotState)
      ensures this.dayRevision == dayRevision && this.readModelGeneration == readModelGeneration && this.state == state
      ensures CoveredNow() == Covered(r.day, r.sourceEventCount, r.firstEventAt, r.lastEventAt, r.firstChainSequence,
                                      r.lastChainSequence, r.lastChainHash, rows)
      ensures checksum == None
    {
      this.day, this.state := r.day, state;
      this.dayRevision, this.readModelGeneration := dayRevision, readModelGeneration;
      sourceEventCount, firstEventAt, lastEventAt := r.sourceEventCount, r.firstEventAt, r.lastEventAt;
      firstChainSequence, lastChainSequence := r.firstChainSequence, r.lastChainSequence;
      lastChainHash := r.lastChainHash;
      this.rows, checksum := rows, None;
    }

    /** A day as it is stored: its columns, the rows loaded for it and the recorded checksum. */
    constructor FromColumns(
      day: int, header: DayHeader, rows: RowLists, dayRevision: nat, readModelGeneration: nat, state: SnapshotState,
      checksum: Option<Covered>)
      ensures this.dayRevision == dayRevision && this.readModelGeneration == readModelGeneration && this.state == state
      ensures this.day == day && this.rows == rows && this.checksum == checksum
      ensures CoveredNow() == CoveredBy(day, header, rows)
    {
      this.day, this.state := day, state;
      this.dayRevision, this.readModelGeneration := dayRevision, readModelGeneration;
      sourceEventCount := header.sourceEventCount;
      firstEventAt, lastEventAt := header.firstEventAt, header.lastEventAt;
      firstChainSequence, lastChainSequence := header.firstChainSequence, header.lastChainSequence;
      lastChainHash := header.lastChainHash;
      this.rows, this.checksum := rows, checksum;
    }

    method Canonicalize()
      modifies this`rows
      ensures rows == CanonicalRows(old(rows)) && CoveredNow() == old(CoveredNow()).(rows := rows)
    {
      rows := rows.(usage := Sort(rows.usage, By(UsageAtoms)));
      rows := rows.(filters := Sort(rows.filters, By(FilterAtoms)));
      rows := rows.(sessions := Sort(rows.sessions, By(SessionAtoms)));
      rows := rows.(llm := Sort(rows.llm, By(LlmAtoms)));
      rows := rows.(destinations := Sort(rows.destinations, By(DestinationAtoms)));
    }

    method RefreshChecksum()
      modifies this`rows, this`checksum
      ensures rows == CanonicalRows(old(rows)) && checksum == Some(CoveredNow())
    {
      Canonicalize();
      checksum := Some(CoveredNow());
    }
  }

  /** The checksum of a rollup: equal rollups have equal checksums, whatever order their maps are
      read in. */
  method TakeSnapshot(r: Rollup, dayRevision: nat, readModelGeneration: nat, state: SnapshotState)
    returns (snapshot: DaySnapshot, ghost loaded: RowLists)
    ensures RowsOf(r, loaded) && snapshot.rows == CanonicalRows(loaded)
    ensures snapshot.checksum == Some(Covered(r.day, r.sourceEventCount, r.firstEventAt, r.lastEventAt,
              r.firstChainSequence, r.lastChainSequence, r.lastChainHash, snapshot.rows))
    ensures snapshot.dayRevision == dayRevision && snapshot.readModelGeneration == readModelGeneration
  {
    var usage := Entries(r.usage);
    var filters := Entries(r.filters);
    var sessions := Entries(r.sessions);
    var llm := Entries(r.llm);
    var destinations := Entries(r.destinations);
    var rows := RowLists(usage, filters, sessions, llm, destinations);
    loaded := rows;
    snapshot := new DaySnapshot(r, rows, dayRevision, readModelGeneration, state);
    snapshot.RefreshChecksum();
  }

  lemma SnapshotIsDetermined(r: Rollup, a: RowLists, b: RowLists)
    requires RowsOf(r, a) && RowsOf(r, b)
    ensures CanonicalRows(a) == CanonicalRows(b)
  {
    ReassemblyForgetsOrder(a, b);
  }
}
