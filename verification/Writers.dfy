/** Writers that interleave on one database (crates/grith-audit/src/storage.rs). An append holds the
    write lock from BEGIN IMMEDIATE to COMMIT and reads the chain head under it; a backfill reads the
    legacy rows, and a delete the hash at its bound, before it takes the lock. */
module Writers {
  import opened Basics
  import opened Records
  import opened Sorting
  import opened Chain
  import opened ChainStore
  import opened Anchoring
  import opened Backfill

  /** Where one connection stands. */
  datatype Phase =
    | Idle
    | Begun
    | Writing(prev: Option<string>, last: int, staged: seq<Row>)
    | ReadLegacy(legacy: seq<Row>)
    | Joining(legacy: seq<Row>)
    | Cutting(maxSequence: int, hash: string)

  datatype World = World(store: Store, lock: Option<nat>, phases: seq<Phase>)

  datatype Event =
    | Begin(w: nat)
    | ReadHead(w: nat)
    | Insert(w: nat, record: AuditRecord)
    | Commit(w: nat)
    | Abort(w: nat)
    | Snapshot(w: nat)
    | BeginBackfill(w: nat)
    | CommitBackfill(w: nat)
    | ReadBound(w: nat, maxSequence: int)
    | CommitDelete(w: nat)

  predicate Holds(p: Phase) { p.Begun? || p.Writing? || p.Joining? }

  predicate InFlight(p: Phase) { p.ReadLegacy? || p.Joining? }

  /** What each connection's own code and the lock allow. */
  predicate Enabled(world: World, e: Event) {
    match e
    case Begin(w) => w < |world.phases| && world.phases[w].Idle? && world.lock.None?
    case ReadHead(w) => w < |world.phases| && world.phases[w].Begun?
    case Insert(w, record) => w < |world.phases| && world.phases[w].Writing?
    case Commit(w) => w < |world.phases| && world.phases[w].Writing?
    case Abort(w) => w < |world.phases| && Holds(world.phases[w])
    case Snapshot(w) => w < |world.phases| && world.phases[w].Idle?
    case BeginBackfill(w) => w < |world.phases| && world.phases[w].ReadLegacy? && world.lock.None?
    case CommitBackfill(w) => w < |world.phases| && world.phases[w].Joining?
    case ReadBound(w, maxSequence) => w < |world.phases| && world.phases[w].Idle?
    case CommitDelete(w) => w < |world.phases| && world.phases[w].Cutting? && world.lock.None?
  }

  function Move(world: World, w: nat, p: Phase): World
    requires w < |world.phases|
  {
    world.(phases := world.phases[w := p])
  }

  /** Leaves the transaction, with the database as it then is. */
  function Release(world: World, w: nat, store: Store): World
    requires w < |world.phases|
  {
    World(store, None, world.phases[w := Idle])
  }

  function Next(h: Hasher, world: World, e: Event): World
    requires Enabled(world, e)
  {
    match e
    case Begin(w) => Move(world, w, Begun).(lock := Some(w))
    case ReadHead(w) =>
      var (prev, last) := ChainHead(world.store.table);
      Move(world, w, Writing(prev, last, []))
    case Insert(w, record) =>
      var p := world.phases[w];
      if HasId(world.store.table + p.staged, record.id) then Release(world, w, world.store)
      else
        var row := Stamp(h, record, p.last + 1, p.prev);
        Move(world, w, Writing(row.recordHash, p.last + 1, p.staged + [row]))
    case Commit(w) =>
      Release(world, w, world.store.(table := world.store.table + world.phases[w].staged, cache := None))
    case Abort(w) => Release(world, w, world.store)
    case Snapshot(w) =>
      if Legacy(world.store.table) == [] then world else Move(world, w, ReadLegacy(Legacy(world.store.table)))
    case BeginBackfill(w) => Move(world, w, Joining(world.phases[w].legacy)).(lock := Some(w))
    case CommitBackfill(w) => Release(world, w, AfterBackfill(h, world.store, world.phases[w].legacy))
    case ReadBound(w, maxSequence) =>
      var found := RowAt(world.store.table, maxSequence);
      if maxSequence <= 0 || found.None? || found.value.recordHash.None? then world
      else Move(world, w, Cutting(maxSequence, found.value.recordHash.value))
    case CommitDelete(w) =>
      Release(world, w, AfterCut(world.store, world.phases[w].maxSequence, world.phases[w].hash))
  }

  // ---------- The serial execution it amounts to ----------

  datatype Transaction = Batch(records: seq<AuditRecord>) | JoinLegacy | PruneTo(maxSequence: int)

  function Apply(h: Hasher, s: Store, t: Transaction): Store {
    match t
    case Batch(records) => AfterInsert(h, s, records)
    case JoinLegacy => AfterBackfill(h, s, Legacy(s.table))
    case PruneTo(maxSequence) => AfterDelete(s, maxSequence)
  }

  function ContentOf(row: Row): AuditRecord { row.content }

  /** The transaction an event commits, if it commits one. */
  function Committed(world: World, e: Event): Option<Transaction>
    requires Enabled(world, e)
  {
    match e
    case Commit(w) => Some(Batch(Map(world.phases[w].staged, ContentOf)))
    case CommitBackfill(w) => Some(JoinLegacy)
    case CommitDelete(w) => Some(PruneTo(world.phases[w].maxSequence))
    case _ => None
  }

  // ---------- The invariant ----------

  /** The row at a sequence still carries a hash. */
  predicate Carries(table: seq<Row>, sequence: int, hash: string) {
    RowAt(table, sequence).Some? && RowAt(table, sequence).value.recordHash == Some(hash)
  }

  ghost predicate PhaseOk(h: Hasher, table: seq<Row>, p: Phase) {
    match p
    case Writing(prev, last, staged) =>
      && staged == StampAll(h, Map(staged, ContentOf), ChainHead(table).1, ChainHead(table).0)
      && last == ChainHead(table).1 + |staged| && prev == EndHash(staged, ChainHead(table).0)
      && UniqueIds(table + staged)
    case ReadLegacy(legacy) => legacy == Legacy(table)
    case Joining(legacy) => legacy == Legacy(table)
    case Cutting(maxSequence, hash) => maxSequence > 0 && Carries(table, maxSequence, hash)
    case _ => true
  }

  ghost predicate StoreOk(h: Hasher, s: Store) {
    Grounded(h, s) && UniqueIds(s.table) && AllCanonical(Legacy(s.table))
  }

  ghost predicate PhasesOk(h: Hasher, table: seq<Row>, phases: seq<Phase>, lock: Option<nat>) {
    forall w :: 0 <= w < |phases| ==> PhaseOk(h, table, phases[w]) && (Holds(phases[w]) <==> lock == Some(w))
  }

  predicate OneInFlight(phases: seq<Phase>) {
    forall v, w :: 0 <= v < w < |phases| ==>
      && (InFlight(phases[v]) ==> !InFlight(phases[w]))
      && (phases[v].Cutting? ==> !phases[w].Cutting?)
  }

  ghost predicate Safe(h: Hasher, world: World) {
    && StoreOk(h, world.store)
    && PhasesOk(h, world.store.table, world.phases, world.lock)
    && OneInFlight(world.phases)
  }

  /** No backfill reads the legacy rows while another one is in flight, and no delete its bound while
      another delete is. */
  predicate Solo(world: World, e: Event) {
    && (e.Snapshot? ==> forall v :: 0 <= v < |world.phases| ==> !InFlight(world.phases[v]))
    && (e.ReadBound? ==> forall v :: 0 <= v < |world.phases| ==> !world.phases[v].Cutting?)
  }

  // ---------- Each event ----------

  lemma {:induction false} StampAllSnoc(
    h: Hasher, batch: seq<AuditRecord>, record: AuditRecord, last: int, prev: Option<string>)
    ensures
      var rows := StampAll(h, batch, last, prev);
      StampAll(h, batch + [record], last, prev)
      == rows + [Stamp(h, record, last + |batch| + 1, EndHash(rows, prev))]
  {
    if batch == [] {
      assert batch + [record] == [record] && [record][1..] == [];
    } else {
      var row := Stamp(h, batch[0], last + 1, prev);
      StampAllSnoc(h, batch[1..], record, last + 1, row.recordHash);
      assert (batch + [record])[1..] == batch[1..] + [record];
      var rest := StampAll(h, batch[1..], last + 1, row.recordHash);
      assert ([row] + rest)[1..] == rest;
      ConcatAssociates([row], rest,
        [Stamp(h, record, last + |batch| + 1, EndHash(StampAll(h, batch, last, prev), prev))]);
      assert last + 1 + |batch[1..]| + 1 == last + |batch| + 1;
    }
  }

  lemma InsertKeepsPhase(h: Hasher, table: seq<Row>, p: Phase, record: AuditRecord)
    requires p.Writing? && PhaseOk(h, table, p) && !HasId(table + p.staged, record.id)
    ensures
      var row := Stamp(h, record, p.last + 1, p.prev);
      PhaseOk(h, table, Writing(row.recordHash, p.last + 1, p.staged + [row]))
  {
    var row := Stamp(h, record, p.last + 1, p.prev);
    StagedNext(h, p.staged, record, ChainHead(table).1, ChainHead(table).0, row);
    FreshRow(table + p.staged, row);
    assert table + (p.staged + [row]) == table + p.staged + [row];
  }

  lemma StagedNext(h: Hasher, staged: seq<Row>, record: AuditRecord, last: int, prev: Option<string>, row: Row)
    requires staged == StampAll(h, Map(staged, ContentOf), last, prev)
    requires row == Stamp(h, record, last + |staged| + 1, EndHash(staged, prev))
    ensures staged + [row] == StampAll(h, Map(staged + [row], ContentOf), last, prev)
    ensures EndHash(staged + [row], prev) == row.recordHash
  {
    StampAllSnoc(h, Map(staged, ContentOf), record, last, prev);
    assert Map(staged + [row], ContentOf) == Map(staged, ContentOf) + [record];
    EndHashConcat(staged, [row], prev);
    assert [row][1..] == [];
  }

  lemma FreshRow(table: seq<Row>, row: Row)
    requires UniqueIds(table) && !HasId(table, row.content.id)
    ensures UniqueIds(table + [row])
  {
  }

  /** What a commit writes is what an atomic batch insert would have written. */
  lemma CommitIsBatch(h: Hasher, s: Store, p: Phase)
    requires p.Writing? && PhaseOk(h, s.table, p)
    ensures s.(table := s.table + p.staged, cache := None) == AfterInsert(h, s, Map(p.staged, ContentOf))
    ensures Linked(h, p.staged, ChainHead(s.table).1, ChainHead(s.table).0)
  {
    var batch := Map(p.staged, ContentOf);
    StampAllLinked(h, batch, ChainHead(s.table).1, ChainHead(s.table).0);
    StagedAreFresh(s.table, p.staged);
  }

  lemma StagedAreFresh(table: seq<Row>, staged: seq<Row>)
    requires UniqueIds(table + staged)
    ensures FreshIds(table, Map(staged, ContentOf))
  {
    var batch := Map(staged, ContentOf);
    forall k | 0 <= k < |batch| ensures !HasId(table, batch[k].id) {
      StagedIsFresh(table, staged, k);
    }
    forall k, l | 0 <= k < l < |batch| ensures batch[k].id != batch[l].id {
      assert (table + staged)[|table| + k] == staged[k] && (table + staged)[|table| + l] == staged[l];
    }
  }

  lemma StagedIsFresh(table: seq<Row>, staged: seq<Row>, k: nat)
    requires UniqueIds(table + staged) && k < |staged|
    ensures !HasId(table, staged[k].content.id)
  {
    forall i | 0 <= i < |table| ensures table[i].content.id != staged[k].content.id {
      assert (table + staged)[i] == table[i] && (table + staged)[|table| + k] == staged[k];
    }
  }

  lemma CommitSafe(h: Hasher, world: World, w: nat)
    requires Safe(h, world) && Enabled(world, Commit(w))
    ensures Safe(h, Next(h, world, Commit(w)))
  {
    var s := world.store;
    var after := s.(table := s.table + world.phases[w].staged, cache := None);
    CommitIsBatch(h, s, world.phases[w]);
    AppendGrounded(h, s, world.phases[w].staged);
    assert Grounded(h, after);
    forall sequence, hash | Carries(s.table, sequence, hash) ensures Carries(after.table, sequence, hash) {
      AppendCarries(s.table, world.phases[w].staged, sequence, hash);
    }
    StoreSafe(h, world, w, after);
  }

  /** Appended rows come behind the row a delete has read. */
  lemma AppendCarries(table: seq<Row>, rows: seq<Row>, sequence: int, hash: string)
    requires Carries(table, sequence, hash)
    ensures Carries(table + rows, sequence, hash)
  {
    FilterConcat(table, rows, AtSequence(sequence));
  }

  /** What a delete reads stays readable. */
  ghost predicate StillCarried(was: seq<Row>, table: seq<Row>) {
    forall sequence, hash :: Carries(was, sequence, hash) ==> Carries(table, sequence, hash)
  }

  /** A commit whose database keeps the legacy rows: only its own connection was in a transaction. */
  lemma StoreSafe(h: Hasher, world: World, w: nat, after: Store)
    requires Safe(h, world) && w < |world.phases| && Holds(world.phases[w])
    requires Grounded(h, after) && UniqueIds(after.table) && Legacy(after.table) == Legacy(world.store.table)
    requires StillCarried(world.store.table, after.table)
    ensures Safe(h, Release(world, w, after))
  {
  }

  lemma BackfillSafe(h: Hasher, world: World, w: nat)
    requires Safe(h, world) && Enabled(world, CommitBackfill(w))
    ensures Safe(h, Next(h, world, CommitBackfill(w)))
    ensures Next(h, world, CommitBackfill(w)).store == Apply(h, world.store, JoinLegacy)
  {
    BackfillGrounded(h, world.store);
    forall sequence, hash | Carries(world.store.table, sequence, hash)
      ensures Carries(AfterBackfill(h, world.store, Legacy(world.store.table)).table, sequence, hash)
    {
      BackfillCarries(h, world.store, sequence, hash);
    }
    JoinedSafe(h, world, w, AfterBackfill(h, world.store, Legacy(world.store.table)));
  }

  /** Joined rows come behind the row a delete has read. */
  lemma BackfillCarries(h: Hasher, s: Store, sequence: int, hash: string)
    requires StoreOk(h, s) && Carries(s.table, sequence, hash)
    ensures Carries(AfterBackfill(h, s, Legacy(s.table)).table, sequence, hash)
  {
    if Legacy(s.table) != [] {
      var after := AfterBackfill(h, s, Legacy(s.table));
      HeadBounds(s.table);
      BackfillJoins(h, s.table, ChainHead(s.table).1, ChainHead(s.table).0);
      BackfillGrounded(h, s);
      LongerCarries(h, s.table, after.table, JoinAll(h, Legacy(s.table), ChainHead(s.table).1, ChainHead(s.table).0),
        sequence, hash);
    }
  }

  lemma LongerCarries(
    h: Hasher, table: seq<Row>, after: seq<Row>, more: seq<Row>, sequence: int, hash: string)
    requires Linked(h, Segment(table), StartOf(table), SeedOf(table)) && Carries(table, sequence, hash)
    requires Linked(h, Segment(after), StartOf(after), SeedOf(after)) && Segment(after) == Segment(table) + more
    ensures Carries(after, sequence, hash)
  {
    BoundRow(h, table, sequence);
    BoundRow(h, after, sequence);
    assert Segment(after)[0] == Segment(table)[0];
  }

  /** A commit of the only backfill in flight leaves at most a delete behind. */
  lemma JoinedSafe(h: Hasher, world: World, w: nat, after: Store)
    requires Safe(h, world) && w < |world.phases| && world.phases[w].Joining? && StoreOk(h, after)
    requires StillCarried(world.store.table, after.table)
    ensures Safe(h, Release(world, w, after))
  {
    var phases := world.phases[w := Idle];
    forall v | 0 <= v < |phases| ensures !InFlight(phases[v]) && !Holds(phases[v]) {
      assert v != w ==> phases[v] == world.phases[v];
    }
  }

  /** While its bound still carries the hash it read, a delete is what one atomic step would be. */
  lemma CutIsDelete(s: Store, maxSequence: int, hash: string)
    requires maxSequence > 0 && Carries(s.table, maxSequence, hash)
    ensures AfterCut(s, maxSequence, hash) == AfterDelete(s, maxSequence)
  {
  }

  lemma DeleteSafe(h: Hasher, world: World, w: nat)
    requires Safe(h, world) && Enabled(world, CommitDelete(w))
    ensures Safe(h, Next(h, world, CommitDelete(w)))
    ensures Next(h, world, CommitDelete(w)).store == AfterDelete(world.store, world.phases[w].maxSequence)
  {
    var maxSequence := world.phases[w].maxSequence;
    CutIsDelete(world.store, maxSequence, world.phases[w].hash);
    PruneGrounded(h, world.store, maxSequence);
    DeleteKeepsIds(world.store, maxSequence);
    CutSafe(h, world, w, AfterDelete(world.store, maxSequence));
  }

  /** The commit of the only delete in flight, with no transaction open. */
  lemma CutSafe(h: Hasher, world: World, w: nat, after: Store)
    requires Safe(h, world) && Enabled(world, CommitDelete(w))
    requires Grounded(h, after) && UniqueIds(after.table) && Legacy(after.table) == Legacy(world.store.table)
    ensures Safe(h, Release(world, w, after))
  {
    var phases := world.phases[w := Idle];
    forall v | 0 <= v < |phases| ensures !phases[v].Cutting? && !Holds(phases[v]) {
      assert v != w ==> phases[v] == world.phases[v];
    }
  }

  lemma DeleteKeepsIds(s: Store, maxSequence: int)
    requires UniqueIds(s.table)
    ensures UniqueIds(AfterDelete(s, maxSequence).table)
    ensures Legacy(AfterDelete(s, maxSequence).table) == Legacy(s.table)
  {
    PruneSegment(s.table, maxSequence);
    UniqueIdsFilter(s.table, Survives(maxSequence));
  }

  /** A step of one connection that neither takes nor gives up the lock. */
  lemma MoveSafe(h: Hasher, world: World, w: nat, p: Phase)
    requires Safe(h, world) && w < |world.phases| && PhaseOk(h, world.store.table, p)
    requires Holds(p) == Holds(world.phases[w])
    requires InFlight(p) ==> forall v :: 0 <= v < |world.phases| && v != w ==> !InFlight(world.phases[v])
    requires p.Cutting? ==> forall v :: 0 <= v < |world.phases| && v != w ==> !world.phases[v].Cutting?
    ensures Safe(h, Move(world, w, p))
  {
  }

  lemma AcquireSafe(h: Hasher, world: World, w: nat, p: Phase)
    requires Safe(h, world) && w < |world.phases| && PhaseOk(h, world.store.table, p)
    requires world.lock.None? && Holds(p) && (InFlight(p) ==> InFlight(world.phases[w]))
    ensures Safe(h, Move(world, w, p).(lock := Some(w)))
  {
  }

  lemma ReleaseSafe(h: Hasher, world: World, w: nat)
    requires Safe(h, world) && w < |world.phases| && Holds(world.phases[w])
    ensures Safe(h, Release(world, w, world.store))
  {
  }

  lemma InsertSafe(h: Hasher, world: World, w: nat, record: AuditRecord)
    requires Safe(h, world) && Enabled(world, Insert(w, record))
    ensures Safe(h, Next(h, world, Insert(w, record)))
  {
    if HasId(world.store.table + world.phases[w].staged, record.id) {
      assert Holds(world.phases[w]);
      ReleaseSafe(h, world, w);
    } else {
      StageSafe(h, world, w, record);
    }
  }

  lemma StageSafe(h: Hasher, world: World, w: nat, record: AuditRecord)
    requires Safe(h, world) && w < |world.phases| && world.phases[w].Writing?
    requires !HasId(world.store.table + world.phases[w].staged, record.id)
    ensures
      var p := world.phases[w];
      var row := Stamp(h, record, p.last + 1, p.prev);
      Safe(h, Move(world, w, Writing(row.recordHash, p.last + 1, p.staged + [row])))
  {
    var p := world.phases[w];
    var row := Stamp(h, record, p.last + 1, p.prev);
    InsertKeepsPhase(h, world.store.table, p, record);
    MoveSafe(h, world, w, Writing(row.recordHash, p.last + 1, p.staged + [row]));
  }

  lemma HeadReadSafe(h: Hasher, world: World, w: nat)
    requires Safe(h, world) && w < |world.phases| && world.phases[w].Begun?
    ensures Safe(h, Move(world, w, Writing(ChainHead(world.store.table).0, ChainHead(world.store.table).1, [])))
  {
    var table := world.store.table;
    NothingStaged(h, table, ChainHead(table).0, ChainHead(table).1);
    MoveSafe(h, world, w, Writing(ChainHead(table).0, ChainHead(table).1, []));
  }

  lemma NothingStaged(h: Hasher, table: seq<Row>, prev: Option<string>, last: int)
    requires UniqueIds(table) && (prev, last) == ChainHead(table)
    ensures PhaseOk(h, table, Writing(prev, last, []))
  {
    assert table + [] == table;
  }

  lemma OpenSafe(h: Hasher, world: World, e: Event)
    requires Safe(h, world) && Enabled(world, e) && Solo(world, e)
    requires e.Begin? || e.ReadHead? || e.Abort? || e.Snapshot? || e.BeginBackfill? || e.ReadBound?
    ensures Safe(h, Next(h, world, e))
  {
    var table := world.store.table;
    match e
    case Begin(w) => AcquireSafe(h, world, w, Begun);
    case ReadHead(w) => HeadReadSafe(h, world, w);
    case Abort(w) => ReleaseSafe(h, world, w);
    case Snapshot(w) =>
      if Legacy(table) != [] {
        MoveSafe(h, world, w, ReadLegacy(Legacy(table)));
      }
    case BeginBackfill(w) => AcquireSafe(h, world, w, Joining(world.phases[w].legacy));
    case ReadBound(w, maxSequence) =>
      var found := RowAt(table, maxSequence);
      if maxSequence > 0 && found.Some? && found.value.recordHash.Some? {
        MoveSafe(h, world, w, Cutting(maxSequence, found.value.recordHash.value));
      }
  }

  /** One event keeps the invariant, and changes the database only as its transaction says. */
  lemma EventSafe(h: Hasher, world: World, e: Event)
    requires Safe(h, world) && Enabled(world, e) && Solo(world, e)
    ensures Safe(h, Next(h, world, e))
    ensures Next(h, world, e).store ==
      match Committed(world, e) case Some(t) => Apply(h, world.store, t) case None => world.store
  {
    match e
    case Commit(w) =>
      CommitSafe(h, world, w);
      CommitIsBatch(h, world.store, world.phases[w]);
    case CommitBackfill(w) => BackfillSafe(h, world, w);
    case CommitDelete(w) => DeleteSafe(h, world, w);
    case Insert(w, record) => InsertSafe(h, world, w, record);
    case _ => OpenSafe(h, world, e);
  }

  // ---------- Every interleaving ----------

  predicate Runnable(h: Hasher, world: World, events: seq<Event>)
    decreases |events|
  {
    events == [] || (Enabled(world, events[0]) && Runnable(h, Next(h, world, events[0]), events[1..]))
  }

  /** Backfills come one at a time, and so do deletes. */
  predicate OneAtATime(h: Hasher, world: World, events: seq<Event>)
    requires Runnable(h, world, events)
    decreases |events|
  {
    events == [] || (Solo(world, events[0]) && OneAtATime(h, Next(h, world, events[0]), events[1..]))
  }

  function Run(h: Hasher, world: World, events: seq<Event>): World
    requires Runnable(h, world, events)
    decreases |events|
  {
    if events == [] then world else Run(h, Next(h, world, events[0]), events[1..])
  }

  /** The committed transactions, in the order of their commits. */
  function History(h: Hasher, world: World, events: seq<Event>): seq<Transaction>
    requires Runnable(h, world, events)
    decreases |events|
  {
    if events == [] then []
    else
      var rest := History(h, Next(h, world, events[0]), events[1..]);
      match Committed(world, events[0]) case Some(t) => [t] + rest case None => rest
  }

  function Serial(h: Hasher, s: Store, history: seq<Transaction>): Store
    decreases |history|
  {
    if history == [] then s else Serial(h, Apply(h, s, history[0]), history[1..])
  }

  /** However writers, backfills and prunes interleave, the database is what the committed
      transactions leave when they run one after the other, and its chain is distinct, gapless and
      linked: without legacy rows it verifies as Empty, or as Valid with the head as its count. */
  lemma {:induction false} InterleavingsAreSerial(h: Hasher, world: World, events: seq<Event>)
    requires Safe(h, world) && Runnable(h, world, events) && OneAtATime(h, world, events)
    ensures
      var end := Run(h, world, events);
      && end.store == Serial(h, world.store, History(h, world, events))
      && Safe(h, end)
      && (Legacy(end.store.table) == [] ==>
            VerifyChain(h, end.store) ==
              if end.store.table == [] then Empty else Valid(Max0(ChainHead(end.store.table).1)))
    decreases |events|
  {
    if events == [] {
      GroundedVerifies(h, world.store);
      HeadOf(h, world.store.table);
    } else {
      EventSafe(h, world, events[0]);
      InterleavingsAreSerial(h, Next(h, world, events[0]), events[1..]);
    }
  }

  /** So it is from the start: idle connections to a database no chained row was ever written to. */
  lemma SerialFromTheStart(h: Hasher, world: World, events: seq<Event>)
    requires NeverChained(world.store) && AllCanonical(Legacy(world.store.table))
    requires world.lock == None && forall w :: 0 <= w < |world.phases| ==> world.phases[w] == Idle
    requires Runnable(h, world, events) && OneAtATime(h, world, events)
    ensures Safe(h, world) && Run(h, world, events).store == Serial(h, world.store, History(h, world, events))
  {
    NoSegmentYet(world.store);
    InterleavingsAreSerial(h, world, events);
  }

  // ---------- Two deletes at once ----------

  /** The chain still carries the hash at a sequence, or nothing is left above it. */
  predicate OnChain(table: seq<Row>, sequence: int, hash: string) {
    || sequence >= ChainHead(table).1
    || (sequence >= StartOf(table) && sequence - StartOf(table) <= |Segment(table)|
        && EndHash(Segment(table)[..sequence - StartOf(table)], SeedOf(table)) == Some(hash))
  }

  /** A delete that commits with a hash read earlier: on a grounded store the boundary it publishes
      fits what is left exactly when the chain still carries that hash at its bound. */
  lemma StaleDeleteIff(h: Hasher, s: Store, maxSequence: int, hash: string)
    requires Grounded(h, s) && maxSequence > 0
    ensures Grounded(h, AfterCut(s, maxSequence, hash)) <==> OnChain(s.table, maxSequence, hash)
    ensures VerifyChain(h, AfterCut(s, maxSequence, hash)).AnchorMismatch? <==> !OnChain(s.table, maxSequence, hash)
  {
    var k := maxSequence - StartOf(s.table);
    HeadOf(h, s.table);
    if k >= |Segment(s.table)| {
      CutAll(h, s, maxSequence, hash);
    } else if k <= 0 {
      CutNothing(h, s, maxSequence, hash);
      assert Segment(s.table)[..0] == [];
    } else {
      CutSome(h, s, maxSequence, hash, k);
    }
  }

  /** What verification says of a chain that starts right behind a position. */
  lemma BehindBoundary(h: Hasher, s: Store, start: int, seed: Option<string>)
    requires Segment(s.table) != [] && Linked(h, Segment(s.table), start, seed) && start > 0 && s.boundary.Some?
    ensures
      var b := s.boundary.value;
      var fits := b.lastArchivedSequence == start && seed == Some(b.lastArchivedRecordHash);
      (Grounded(h, s) <==> fits) && (VerifyChain(h, s).AnchorMismatch? <==> !fits)
  {
    LinkedStart(h, s.table, start, seed);
    LinkedAt(h, Segment(s.table), start, seed, 0);
    if Grounded(h, s) {
      GroundedVerifies(h, s);
    }
  }

  lemma CutAll(h: Hasher, s: Store, maxSequence: int, hash: string)
    requires Grounded(h, s) && maxSequence >= StartOf(s.table) + |Segment(s.table)|
    ensures Grounded(h, AfterCut(s, maxSequence, hash))
    ensures !VerifyChain(h, AfterCut(s, maxSequence, hash)).AnchorMismatch?
  {
    PruneSegment(s.table, maxSequence);
    LinkedKeys(h, Segment(s.table), StartOf(s.table), SeedOf(s.table));
    FilterAll(Segment(s.table), Above(maxSequence));
    assert Segment(AfterCut(s, maxSequence, hash).table) == [];
    GroundedVerifies(h, AfterCut(s, maxSequence, hash));
  }

  lemma CutNothing(h: Hasher, s: Store, maxSequence: int, hash: string)
    requires Grounded(h, s) && 0 < maxSequence <= StartOf(s.table) && Segment(s.table) != []
    ensures
      var fits := maxSequence == StartOf(s.table) && SeedOf(s.table) == Some(hash);
      && (Grounded(h, AfterCut(s, maxSequence, hash)) <==> fits)
      && (VerifyChain(h, AfterCut(s, maxSequence, hash)).AnchorMismatch? <==> !fits)
  {
    PruneSegment(s.table, maxSequence);
    LinkedKeys(h, Segment(s.table), StartOf(s.table), SeedOf(s.table));
    FilterAll(Segment(s.table), Above(maxSequence));
    BehindBoundary(h, AfterCut(s, maxSequence, hash), StartOf(s.table), SeedOf(s.table));
  }

  lemma CutSome(h: Hasher, s: Store, maxSequence: int, hash: string, k: nat)
    requires Grounded(h, s) && 0 < k < |Segment(s.table)| && maxSequence == StartOf(s.table) + k
    ensures
      var fits := EndHash(Segment(s.table)[..k], SeedOf(s.table)) == Some(hash);
      && (Grounded(h, AfterCut(s, maxSequence, hash)) <==> fits)
      && (VerifyChain(h, AfterCut(s, maxSequence, hash)).AnchorMismatch? <==> !fits)
  {
    PruneSegment(s.table, maxSequence);
    AboveSuffix(h, Segment(s.table), StartOf(s.table), SeedOf(s.table), k, maxSequence);
    LinkedSplit(h, Segment(s.table), StartOf(s.table), SeedOf(s.table), k);
    BehindBoundary(h, AfterCut(s, maxSequence, hash), maxSequence, EndHash(Segment(s.table)[..k], SeedOf(s.table)));
  }

  /** Two deletes that read their bounds before either commits, the farther one first: the nearer one
      then publishes a boundary in front of rows that are gone, and the chain is unanchored. */
  lemma TwoDeletesBreakTheAnchor(h: Hasher, s: Store, near: int, far: int)
    requires Grounded(h, s) && StartOf(s.table) < near < far < ChainHead(s.table).1
    ensures
      var world := World(s, None, [Idle, Idle]);
      var events := [ReadBound(0, near), ReadBound(1, far), CommitDelete(1), CommitDelete(0)];
      && Runnable(h, world, events)
      && VerifyChain(h, Run(h, world, events).store).AnchorMismatch?
  {
    HeadOf(h, s.table);
    BoundHash(h, s.table, near);
    BoundHash(h, s.table, far);
    var a := RowAt(s.table, near).value.recordHash.value;
    var b := RowAt(s.table, far).value.recordHash.value;
    PruneGrounded(h, s, far);
    FarCut(h, s, far);
    StaleDeleteIff(h, AfterDelete(s, far), near, a);
    BothCut(h, s, near, a, far, b);
    BothBounds(h, s, near, a, far, b);
  }

  /** Both deletes read their bounds. */
  lemma BothBounds(h: Hasher, s: Store, near: int, a: string, far: int, b: string)
    requires 0 < near && Carries(s.table, near, a) && 0 < far && Carries(s.table, far, b)
    requires Runnable(h, World(s, None, [Cutting(near, a), Cutting(far, b)]), [CommitDelete(1), CommitDelete(0)])
    ensures
      var world := World(s, None, [Idle, Idle]);
      var events := [ReadBound(0, near), ReadBound(1, far), CommitDelete(1), CommitDelete(0)];
      && Runnable(h, world, events)
      && Run(h, world, events)
         == Run(h, World(s, None, [Cutting(near, a), Cutting(far, b)]), [CommitDelete(1), CommitDelete(0)])
  {
    var rest := [CommitDelete(1), CommitDelete(0)];
    RunStep(h, World(s, None, [Cutting(near, a), Idle]), ReadBound(1, far), rest);
    RunStep(h, World(s, None, [Idle, Idle]), ReadBound(0, near), [ReadBound(1, far)] + rest);
    assert [ReadBound(0, near)] + ([ReadBound(1, far)] + rest) == [ReadBound(0, near), ReadBound(1, far)] + rest;
  }

  /** The farther one commits, then the nearer one. */
  lemma BothCut(h: Hasher, s: Store, near: int, a: string, far: int, b: string)
    requires Carries(s.table, far, b) && 0 < far
    ensures
      var world := World(s, None, [Cutting(near, a), Cutting(far, b)]);
      var events := [CommitDelete(1), CommitDelete(0)];
      && Runnable(h, world, events) && Run(h, world, events).store == AfterCut(AfterDelete(s, far), near, a)
  {
    var once := AfterDelete(s, far);
    CutIsDelete(s, far, b);
    assert Runnable(h, World(AfterCut(once, near, a), None, [Idle, Idle]), []);
    RunStep(h, World(once, None, [Cutting(near, a), Idle]), CommitDelete(0), []);
    RunStep(h, World(s, None, [Cutting(near, a), Cutting(far, b)]), CommitDelete(1), [CommitDelete(0)]);
  }

  lemma BoundHash(h: Hasher, table: seq<Row>, sequence: int)
    requires Linked(h, Segment(table), StartOf(table), SeedOf(table))
    requires StartOf(table) < sequence <= StartOf(table) + |Segment(table)|
    ensures RowAt(table, sequence).Some? && RowAt(table, sequence).value.recordHash.Some?
  {
    BoundRow(h, table, sequence);
    LinkedAt(h, Segment(table), StartOf(table), SeedOf(table), sequence - StartOf(table) - 1);
  }

  /** What the farther delete leaves. */
  lemma FarCut(h: Hasher, s: Store, far: int)
    requires Grounded(h, s) && StartOf(s.table) < far < StartOf(s.table) + |Segment(s.table)|
    ensures
      var after := AfterDelete(s, far);
      Segment(after.table) != [] && StartOf(after.table) == far < ChainHead(after.table).1
  {
    var k := far - StartOf(s.table);
    PruneGrounded(h, s, far);
    PruneCuts(h, s, k, far);
    RestStarts(h, Segment(s.table), StartOf(s.table), SeedOf(s.table), k, AfterDelete(s, far).table);
    HeadOf(h, AfterDelete(s, far).table);
  }

  // ---------- Two backfills at once ----------

  ghost predicate SomeStored(table: seq<Row>, read: seq<Row>) {
    exists k :: 0 <= k < |read| && HasId(table, read[k].content.id)
  }

  ghost predicate AllChained(table: seq<Row>) {
    forall i :: 0 <= i < |table| ==> Chained(table[i])
  }

  lemma {:induction false} NothingToJoin(h: Hasher, table: seq<Row>, read: seq<Row>, last: int, prev: Option<string>)
    requires !SomeStored(table, read)
    ensures Backfilled(h, table, read, last, prev) == table
    decreases |read|
  {
    if read != [] {
      var hash := Some(h(read[0].content, last + 1, prev));
      var after := WriteRow(table, read[0].content.id, last + 1, prev, hash);
      forall i | 0 <= i < |table| ensures after[i] == table[i] {
        assert HasId(table, table[i].content.id);
      }
      assert after == table;
      forall k | 0 <= k < |read[1..]| ensures !HasId(table, read[1..][k].content.id) {
        assert read[1..][k] == read[k + 1];
      }
      NothingToJoin(h, table, read[1..], last + 1, hash);
    }
  }

  /** Joining rows that are already chained moves the last of them above the head. */
  lemma {:induction false} RejoinedMove(h: Hasher, table: seq<Row>, read: seq<Row>, last: int, prev: Option<string>)
    requires AllChained(table)
    ensures
      var after := Backfilled(h, table, read, last, prev);
      && |after| == |table| && AllChained(after)
      && (SomeStored(table, read) ==> exists i :: 0 <= i < |after| && Key(after[i]) > last)
    decreases |read|
  {
    if read != [] {
      var hash := Some(h(read[0].content, last + 1, prev));
      var next := WriteRow(table, read[0].content.id, last + 1, prev, hash);
      RejoinedMove(h, next, read[1..], last + 1, hash);
      if SomeStored(table, read) && !SomeStored(next, read[1..]) {
        NothingToJoin(h, next, read[1..], last + 1, hash);
        LaterStored(table, next, read);
        WrittenKey(table, read[0].content.id, last + 1, prev, hash);
      }
    }
  }

  lemma WrittenKey(table: seq<Row>, id: Uuid, sequence: int, prev: Option<string>, hash: Option<string>)
    requires HasId(table, id)
    ensures
      var next := WriteRow(table, id, sequence, prev, hash);
      exists i :: 0 <= i < |next| && Key(next[i]) > sequence - 1
  {
    var i :| 0 <= i < |table| && table[i].content.id == id;
    assert Key(WriteRow(table, id, sequence, prev, hash)[i]) == sequence;
  }

  lemma LaterStored(table: seq<Row>, next: seq<Row>, read: seq<Row>)
    requires read != [] && SomeStored(table, read) && !SomeStored(next, read[1..])
    requires |next| == |table| && forall i :: 0 <= i < |table| ==> next[i].content == table[i].content
    ensures HasId(table, read[0].content.id)
  {
    assert forall k :: 0 < k < |read| ==> read[k] == read[1..][k - 1];
    assert forall id :: HasId(table, id) ==> HasId(next, id);
  }

  /** As many chained rows as the table has cannot reach beyond that many sequences. */
  lemma BeyondIsInvalid(h: Hasher, table: seq<Row>, start: int, seed: Option<string>, already: nat, i: nat)
    requires AllChained(table) && start >= 0 && i < |table| && Key(table[i]) > start + |table|
    ensures !Walk(h, SegmentAbove(table, start), start, seed, already).Valid?
  {
    var rows := SegmentAbove(table, start);
    SegmentAboveFilters(table, start);
    SegmentMembers(table);
    FilterElements(table, Chained);
    FilterElements(Segment(table), Above(start));
    SortKeepsElements(Filter(table, Chained), KeyLeq);
    assert table[i] in rows;
    forall k | 0 <= k < |rows| ensures Chained(rows[k]) { assert rows[k] in rows; }
    WalkMeaning(h, rows, start, seed, already);
    if Linked(h, rows, start, seed) {
      var k :| 0 <= k < |rows| && rows[k] == table[i];
      LinkedAt(h, rows, start, seed, k);
    }
  }

  /** A backfill whose rows another backfill has chained in the meantime leaves the verdict as it was
      exactly when none of those rows is stored any more. */
  lemma StaleBackfillIff(h: Hasher, s: Store, read: seq<Row>)
    requires Grounded(h, s) && AllChained(s.table)
    ensures VerifyChain(h, AfterBackfill(h, s, read)) == VerifyChain(h, s) <==> !SomeStored(s.table, read)
  {
    if SomeStored(s.table, read) {
      StoredMove(h, s, read);
      BeyondIsMiscounted(h, AfterBackfill(h, s, read), StartOf(s.table));
      GroundedVerifies(h, s);
      AllChainedSegment(s.table);
    } else {
      NothingToJoin(h, s.table, read, ChainHead(s.table).1, ChainHead(s.table).0);
    }
  }

  lemma StoredMove(h: Hasher, s: Store, read: seq<Row>)
    requires Grounded(h, s) && AllChained(s.table) && SomeStored(s.table, read)
    ensures
      var after := AfterBackfill(h, s, read).table;
      && AllChained(after) && |after| == |s.table|
      && exists i :: 0 <= i < |after| && Key(after[i]) > StartOf(s.table) + |after|
  {
    HeadOf(h, s.table);
    AllChainedSegment(s.table);
    RejoinedMove(h, s.table, read, ChainHead(s.table).1, ChainHead(s.table).0);
  }

  /** Such a table never verifies with its own rows behind `start` as the count. */
  lemma BeyondIsMiscounted(h: Hasher, s: Store, start: int)
    requires AllChained(s.table) && start >= 0
    requires exists i :: 0 <= i < |s.table| && Key(s.table[i]) > start + |s.table|
    ensures s.table != [] && VerifyChain(h, s) != Valid(start + |s.table|) && !VerifyChain(h, s).Empty?
  {
    var i :| 0 <= i < |s.table| && Key(s.table[i]) > start + |s.table|;
    BeyondIsInvalid(h, s.table, 0, None, 0, i);
    WalkIsNeverEmpty(h, SegmentAbove(s.table, 0), 0, None, 0);
    match ResolveAnchor(s.table, s.boundary)
    case Anchored(b) => AnchoredCount(h, s, start, b, i);
    case _ =>
  }

  /** Behind another boundary than `start` the walk counts another number of rows. */
  lemma AnchoredCount(h: Hasher, s: Store, start: int, b: Boundary, i: nat)
    requires AllChained(s.table) && start >= 0 && i < |s.table| && Key(s.table[i]) > start + |s.table|
    requires ResolveAnchor(s.table, s.boundary) == Anchored(b)
    ensures VerifyChain(h, s) != Valid(start + |s.table|) && !VerifyChain(h, s).Empty?
  {
    var rows := Segment(s.table);
    AllChainedSegment(s.table);
    AnchoredSegment(s.table, b.lastArchivedSequence);
    WalkIsNeverEmpty(h, rows, b.lastArchivedSequence, Some(b.lastArchivedRecordHash), b.lastArchivedSequence);
    SegmentMembers(s.table);
    assert forall k :: 0 <= k < |rows| ==> rows[k] in rows;
    WalkMeaning(h, rows, b.lastArchivedSequence, Some(b.lastArchivedRecordHash), b.lastArchivedSequence);
    if b.lastArchivedSequence == start {
      BeyondIsInvalid(h, s.table, start, Some(b.lastArchivedRecordHash), start, i);
    }
  }

  lemma {:induction false} WalkIsNeverEmpty(h: Hasher, rows: seq<Row>, start: int, prev: Option<string>, count: nat)
    ensures !Walk(h, rows, start, prev, count).Empty?
  {
    if rows != [] && CheckRow(h, rows[0], start + 1, prev).None? {
      WalkIsNeverEmpty(h, rows[1..], start + 1, rows[0].recordHash, count + 1);
    }
  }

  lemma AllChainedSegment(table: seq<Row>)
    requires AllChained(table)
    ensures |Segment(table)| == |table| && Legacy(table) == []
  {
    FilterAll(table, Chained);
    FilterAll(table, Unchained);
    SortKeepsElements(table, KeyLeq);
  }

  /** Two backfills that read the same legacy row and then commit one after the other: the second
      moves the row to sequence 2 and nothing is left at 1. */
  lemma TwoBackfillsBreakTheChain(h: Hasher, row: Row)
    requires !Chained(row)
    ensures
      var world := World(Store([row], None, None, None), None, [Idle, Idle]);
      var events := [Snapshot(0), Snapshot(1), BeginBackfill(0), CommitBackfill(0), BeginBackfill(1),
        CommitBackfill(1)];
      && Runnable(h, world, events)
      && VerifyChain(h, Run(h, world, events).store) == Unanchored(2)
  {
    var s := Store([row], None, None, None);
    OneLegacyRow(row);
    OneRowTwice(h, row);
    BothCommit(h, s, row);
    BothRead(h, s, row, [BeginBackfill(0), CommitBackfill(0), BeginBackfill(1), CommitBackfill(1)]);
  }

  lemma BothRead(h: Hasher, s: Store, row: Row, rest: seq<Event>)
    requires Legacy(s.table) == [row] && Runnable(h, World(s, None, [ReadLegacy([row]), ReadLegacy([row])]), rest)
    ensures
      var world := World(s, None, [Idle, Idle]);
      var events := [Snapshot(0), Snapshot(1)] + rest;
      && Runnable(h, world, events)
      && Run(h, world, events) == Run(h, World(s, None, [ReadLegacy([row]), ReadLegacy([row])]), rest)
  {
    var p := ReadLegacy([row]);
    assert [Idle, Idle][0 := p] == [p, Idle] && [p, Idle][1 := p] == [p, p];
    RunStep(h, World(s, None, [p, Idle]), Snapshot(1), rest);
    RunStep(h, World(s, None, [Idle, Idle]), Snapshot(0), [Snapshot(1)] + rest);
    assert [Snapshot(0), Snapshot(1)] + rest == [Snapshot(0)] + ([Snapshot(1)] + rest);
  }

  /** Two connections that both hold what they read commit one after the other. */
  lemma BothCommit(h: Hasher, s: Store, row: Row)
    ensures
      var world := World(s, None, [ReadLegacy([row]), ReadLegacy([row])]);
      var events := [BeginBackfill(0), CommitBackfill(0), BeginBackfill(1), CommitBackfill(1)];
      && Runnable(h, world, events)
      && Run(h, world, events).store == AfterBackfill(h, AfterBackfill(h, s, [row]), [row])
  {
    var once := AfterBackfill(h, s, [row]);
    var twice := AfterBackfill(h, once, [row]);
    assert Runnable(h, World(twice, None, [Idle, Idle]), []);
    RunStep(h, World(once, Some(1), [Idle, Joining([row])]), CommitBackfill(1), []);
    RunStep(h, World(once, None, [Idle, ReadLegacy([row])]), BeginBackfill(1), [CommitBackfill(1)]);
    var last2 := [BeginBackfill(1), CommitBackfill(1)];
    RunStep(h, World(s, Some(0), [Joining([row]), ReadLegacy([row])]), CommitBackfill(0), last2);
    RunStep(h, World(s, None, [ReadLegacy([row]), ReadLegacy([row])]), BeginBackfill(0), [CommitBackfill(0)] + last2);
  }

  lemma RunStep(h: Hasher, world: World, e: Event, rest: seq<Event>)
    requires Enabled(world, e) && Runnable(h, Next(h, world, e), rest)
    ensures Runnable(h, world, [e] + rest) && Run(h, world, [e] + rest) == Run(h, Next(h, world, e), rest)
  {
    assert ([e] + rest)[1..] == rest;
  }

  lemma OneLegacyRow(row: Row)
    requires !Chained(row)
    ensures Legacy([row]) == [row] && Segment([row]) == []
  {
    FilterAll([row], Chained);
    FilterAll([row], Unchained);
    SortFixesSorted([row], TimeIdLeq);
  }

  lemma OneChainedRow(row: Row)
    requires Chained(row)
    ensures Legacy([row]) == [] && Segment([row]) == [row]
  {
    FilterAll([row], Chained);
    FilterAll([row], Unchained);
    SortFixesSorted([row], KeyLeq);
  }

  lemma OneRowTwice(h: Hasher, row: Row)
    requires !Chained(row)
    ensures
      var once := AfterBackfill(h, Store([row], None, None, None), [row]);
      VerifyChain(h, AfterBackfill(h, once, [row])) == Unanchored(2)
  {
    var s := Store([row], None, None, None);
    OneLegacyRow(row);
    var a := Joined(h, row, 1, None);
    JoinedAlone(h, row, row, 0, None);
    assert AfterBackfill(h, s, [row]).table == [a];
    OneChainedRow(a);
    var b := Joined(h, a, 2, a.recordHash);
    JoinedAlone(h, a, row, 1, a.recordHash);
    assert AfterBackfill(h, AfterBackfill(h, s, [row]), [row]).table == [b];
    OneChainedRow(b);
  }

  lemma JoinedAlone(h: Hasher, row: Row, read: Row, last: int, prev: Option<string>)
    requires read.content == row.content
    ensures Backfilled(h, [row], [read], last, prev) == [Joined(h, row, last + 1, prev)]
  {
    assert [read][1..] == [] && [row][1..] == [];
  }
}
