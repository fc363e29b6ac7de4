/** Exactly-once materialization: tail passes that may crash, mixed with appends, rebuilds and
    retention (crates/grith-audit/src/analytics.rs, retention.rs). */
module Materialization {
  import opened Basics
  import opened Records
  import opened Sorting
  import opened Chain
  import opened ChainStore
  import opened Anchoring
  import opened ColdFiles
  import opened Retention
  import opened Projection

  datatype World = World(store: Store, files: Files, projection: Projection)

  datatype Step =
    | Append(batch: seq<AuditRecord>)
    | TailPass(batchSize: nat, crash: CrashPoint)
    | Rebuild(key: DayKey)
    | Retain(pass: Pass)

  /** Retention asks the projection how far it may go. */
  function Gated(p: Projection, pass: Pass): Pass { pass.(covers := (sequence: int) => Covers(p, sequence)) }

  ghost function Next(h: Hasher, adapt: Adapter, w: World, step: Step): World {
    match step
    case Append(batch) => w.(store := AfterInsert(h, w.store, batch))
    case TailPass(batchSize, crash) =>
      w.(projection := AfterTail(adapt, w.projection, w.store.table, batchSize, crash).0)
    case Rebuild(key) => w.(projection := AfterRebuild(w.projection, key))
    case Retain(pass) =>
      var pruned := Pruned(h, w.store, w.files, Gated(w.projection, pass));
      World(pruned.0, pruned.1, w.projection)
  }

  ghost function Run(h: Hasher, adapt: Adapter, w: World, steps: seq<Step>): World
    decreases |steps|
  {
    if steps == [] then w else Run(h, adapt, Next(h, adapt, w, steps[0]), steps[1..])
  }

  /** New records have new ids, and a pass leaves at least one chained row. */
  ghost predicate Allowed(w: World, step: Step) {
    match step
    case Append(batch) => forall k :: 0 <= k < |batch| ==> batch[k].id !in w.projection.events
    case Retain(pass) => PruneBound(w.store.table, pass.cutoff, pass.respectSync) != ChainHead(w.store.table).1
    case _ => true
  }

  ghost predicate AllowedRun(h: Hasher, adapt: Adapter, w: World, steps: seq<Step>)
    decreases |steps|
  {
    steps == [] || (Allowed(w, steps[0]) && AllowedRun(h, adapt, Next(h, adapt, w, steps[0]), steps[1..]))
  }

  /** What the projection held when its epoch began at a baseline. */
  datatype Origin = Origin(baseline: int, events: nat, gaps: nat)

  /** How far the projection has looked: the cursor, or the baseline while the cursor still has its
      default. */
  function Examined(o: Origin, p: Projection): int { if p.cursor > o.baseline then p.cursor else o.baseline }

  ghost predicate Keeps(adapt: Adapter) { forall c :: adapt(c).Some? ==> adapt(c).value.eventId == c.content.id }

  // ---------- The invariant ----------

  ghost predicate ExactlyOnce(h: Hasher, o: Origin, w: World) {
    && Grounded(h, w.store) && UniqueIds(w.store.table)
    && Positioned(o, w.store.table, w.projection) && Counted(o, w.projection)
    && Unseen(w.store.table, w.projection.events, Examined(o, w.projection))
  }

  /** The examined position lies on the segment; before the first pass it is the position in front. */
  predicate Positioned(o: Origin, table: seq<Row>, p: Projection) {
    && o.baseline >= 0 && (p.cursor == 0 || p.cursor >= o.baseline)
    && StartOf(table) <= Examined(o, p) <= ChainHead(table).1
    && (Segment(table) == [] ==> Examined(o, p) == 0)
    && (p.cursor == 0 && Segment(table) != [] ==> StartOf(table) == o.baseline)
  }

  /** Since the epoch began every position became an event or a gap. */
  predicate Counted(o: Origin, p: Projection) {
    |p.events| + p.gapCount == o.events + o.gaps + Examined(o, p) - o.baseline
  }

  /** No row above the examined position has been projected. */
  ghost predicate Unseen(table: seq<Row>, events: map<Uuid, SourceEvent>, examined: int) {
    forall i :: 0 <= i < |table| && Chained(table[i]) && Key(table[i]) > examined ==> table[i].content.id !in events
  }

  // ---------- A batch ----------

  /** Records at consecutive positions, none of them seen, all of different ids. */
  predicate Consecutive(records: seq<Cold>, start: int) {
    records == [] || (records[0].chainSequence == Some(start + 1) && Consecutive(records[1..], start + 1))
  }

  ghost predicate NewIds(records: seq<Cold>, events: map<Uuid, SourceEvent>) {
    && (forall i :: 0 <= i < |records| ==> records[i].content.id !in events)
    && (forall i, j :: 0 <= i < j < |records| ==> records[i].content.id != records[j].content.id)
  }

  /** Every record of a new batch becomes one event or one gap, and the last one sets the cursor. */
  lemma {:induction false} BatchCounts(adapt: Adapter, epoch: nat, a: OpenBatch, records: seq<Cold>, start: int)
    requires Keeps(adapt) && Consecutive(records, start) && NewIds(records, a.events)
    requires ProjectAll(adapt, epoch, a, records).Ok? && (a.last.None? || a.last == Some(start))
    ensures
      var b := ProjectAll(adapt, epoch, a, records).value;
      && |b.events| + b.skipped == |a.events| + a.skipped + |records|
      && (records != [] ==> b.last == Some(start + |records|))
    decreases |records|
  {
    if records != [] {
      var next := ProjectOne(adapt, epoch, a, records[0]).value;
      OneCounts(adapt, epoch, a, records[0], start);
      NewIdsRest(records, a.events, next.events);
      BatchCounts(adapt, epoch, next, records[1..], start + 1);
    }
  }

  function IdsOf(records: seq<Cold>): set<Uuid> {
    if records == [] then {} else {records[0].content.id} + IdsOf(records[1..])
  }

  lemma {:induction false} IdsOfMember(records: seq<Cold>, id: Uuid)
    ensures id in IdsOf(records) <==> exists i :: 0 <= i < |records| && records[i].content.id == id
  {
    if records != [] {
      IdsOfMember(records[1..], id);
      assert records == [records[0]] + records[1..];
    }
  }

  /** A batch adds events of its own records only. */
  lemma {:induction false} BatchIds(adapt: Adapter, epoch: nat, a: OpenBatch, records: seq<Cold>)
    requires Keeps(adapt) && ProjectAll(adapt, epoch, a, records).Ok?
    ensures ProjectAll(adapt, epoch, a, records).value.events.Keys <= a.events.Keys + IdsOf(records)
    decreases |records|
  {
    if records != [] {
      var next := ProjectOne(adapt, epoch, a, records[0]).value;
      BatchIds(adapt, epoch, next, records[1..]);
      assert next.events.Keys <= a.events.Keys + {records[0].content.id};
    }
  }

  lemma OneCounts(adapt: Adapter, epoch: nat, a: OpenBatch, c: Cold, start: int)
    requires Keeps(adapt) && c.chainSequence == Some(start + 1) && c.content.id !in a.events
    requires ProjectOne(adapt, epoch, a, c).Ok? && (a.last.None? || a.last == Some(start))
    ensures
      var b := ProjectOne(adapt, epoch, a, c).value;
      && |b.events| + b.skipped == |a.events| + a.skipped + 1 && b.last == Some(start + 1)
      && (forall id :: id in b.events <==> id in a.events || (id == c.content.id && adapt(c).Some?))
  {
  }

  lemma NewIdsRest(records: seq<Cold>, events: map<Uuid, SourceEvent>, next: map<Uuid, SourceEvent>)
    requires records != [] && NewIds(records, events)
    requires forall id :: id in next ==> id in events || id == records[0].content.id
    ensures NewIds(records[1..], next)
  {
    forall i | 0 <= i < |records[1..]| ensures records[1..][i].content.id !in next {
      assert records[1..][i] == records[i + 1];
    }
  }

  // ---------- The tail of a linked segment ----------

  lemma {:induction false} LinkedConsecutive(h: Hasher, rows: seq<Row>, start: int, seed: Option<string>)
    requires Linked(h, rows, start, seed)
    ensures Consecutive(Map(rows, Archived), start)
  {
    if rows != [] {
      LinkedConsecutive(h, rows[1..], start + 1, rows[0].recordHash);
      assert Map(rows, Archived)[1..] == Map(rows[1..], Archived);
    }
  }

  lemma {:induction false} ConsecutiveTake(records: seq<Cold>, start: int, limit: nat)
    requires Consecutive(records, start)
    ensures Consecutive(Take(records, limit), start)
  {
    if limit > 0 && |records| > limit {
      ConsecutiveTake(records[1..], start + 1, limit - 1);
      assert Take(records, limit) == [records[0]] + Take(records[1..], limit - 1);
      assert Take(records, limit)[1..] == Take(records[1..], limit - 1);
    }
  }

  /** What a pass reads: the rows right behind the examined position. */
  lemma TailIs(h: Hasher, o: Origin, w: World)
    requires ExactlyOnce(h, o, w)
    ensures
      var k := Examined(o, w.projection) - StartOf(w.store.table);
      0 <= k <= |Segment(w.store.table)|
        && SegmentAbove(w.store.table, w.projection.cursor) == Segment(w.store.table)[k..]
  {
    var table := w.store.table;
    var k := Examined(o, w.projection) - StartOf(table);
    HeadOf(h, table);
    SegmentAboveFilters(table, w.projection.cursor);
    if w.projection.cursor == Examined(o, w.projection) {
      AboveSuffix(h, Segment(table), StartOf(table), SeedOf(table), k, w.projection.cursor);
    } else {
      AllAbove(h, Segment(table), StartOf(table), SeedOf(table), w.projection.cursor);
    }
  }

  lemma AllAbove(h: Hasher, rows: seq<Row>, start: int, seed: Option<string>, cut: int)
    requires Linked(h, rows, start, seed) && cut <= start
    ensures Filter(rows, Above(cut)) == rows[0..]
  {
    LinkedKeys(h, rows, start, seed);
    FilterAll(rows, Above(cut));
  }

  lemma {:induction false} ConsecutiveFrom(h: Hasher, rows: seq<Row>, start: int, seed: Option<string>, k: nat, at: int)
    requires Linked(h, rows, start, seed) && k <= |rows| && at == start + k
    ensures Consecutive(Map(rows[k..], Archived), at)
  {
    if k == 0 {
      assert rows[0..] == rows;
      LinkedConsecutive(h, rows, start, seed);
    } else {
      ConsecutiveFrom(h, rows[1..], start + 1, rows[0].recordHash, k - 1, at);
      assert rows[1..][k - 1..] == rows[k..];
    }
  }

  /** The records of a pass, by their place in the segment. */
  lemma TailReads(h: Hasher, o: Origin, w: World, limit: nat, k: int)
    requires ExactlyOnce(h, o, w) && k == Examined(o, w.projection) - StartOf(w.store.table)
    ensures 0 <= k <= |Segment(w.store.table)|
    ensures ReadTail(w.store.table, w.projection.cursor, limit)
      == Take(Map(Segment(w.store.table)[k..], Archived), limit)
  {
    TailIs(h, o, w);
  }

  /** The records a pass reads are consecutive and reach no further than the head. */
  lemma TailIsConsecutive(h: Hasher, o: Origin, w: World, limit: nat)
    requires ExactlyOnce(h, o, w)
    ensures
      var records := ReadTail(w.store.table, w.projection.cursor, limit);
      && Consecutive(records, Examined(o, w.projection))
      && Examined(o, w.projection) + |records| <= ChainHead(w.store.table).1
  {
    var k := Examined(o, w.projection) - StartOf(w.store.table);
    TailReads(h, o, w, limit, k);
    HeadOf(h, w.store.table);
    ConsecutiveFrom(h, Segment(w.store.table), StartOf(w.store.table), SeedOf(w.store.table), k,
      Examined(o, w.projection));
    ConsecutiveTake(Map(Segment(w.store.table)[k..], Archived), Examined(o, w.projection), limit);
  }

  /** ... and new. */
  lemma TailIsNew(h: Hasher, o: Origin, w: World, limit: nat)
    requires ExactlyOnce(h, o, w)
    ensures NewIds(ReadTail(w.store.table, w.projection.cursor, limit), w.projection.events)
  {
    var k := Examined(o, w.projection) - StartOf(w.store.table);
    TailReads(h, o, w, limit, k);
    TailIdsNew(h, w.store, w.projection.events, k, limit);
  }

  lemma TailIdsNew(h: Hasher, s: Store, events: map<Uuid, SourceEvent>, k: nat, limit: nat)
    requires Grounded(h, s) && UniqueIds(s.table) && k <= |Segment(s.table)|
    requires Unseen(s.table, events, StartOf(s.table) + k)
    ensures NewIds(Take(Map(Segment(s.table)[k..], Archived), limit), events)
  {
    var rows := Segment(s.table);
    SegmentUniqueIds(s.table);
    var records := Take(Map(rows[k..], Archived), limit);
    forall i | 0 <= i < |records|
      ensures records[i].content == rows[k + i].content && records[i].content.id !in events
    {
      UnseenRow(h, s, events, k + i, StartOf(s.table) + k);
    }
    forall i, j | 0 <= i < j < |records| ensures records[i].content.id != records[j].content.id {
      assert rows[k + i].content.id != rows[k + j].content.id;
    }
  }

  lemma UnseenRow(h: Hasher, s: Store, events: map<Uuid, SourceEvent>, n: nat, examined: int)
    requires Grounded(h, s) && n < |Segment(s.table)| && examined <= StartOf(s.table) + n
    requires Unseen(s.table, events, examined)
    ensures Segment(s.table)[n].content.id !in events
  {
    SegmentMembers(s.table);
    LinkedAt(h, Segment(s.table), StartOf(s.table), SeedOf(s.table), n);
    assert Segment(s.table)[n] in s.table;
    var i :| 0 <= i < |s.table| && s.table[i] == Segment(s.table)[n];
  }

  // ---------- Each step ----------

  lemma TailKeeps(h: Hasher, adapt: Adapter, o: Origin, w: World, batchSize: nat, crash: CrashPoint)
    requires ExactlyOnce(h, o, w) && Keeps(adapt)
    ensures ExactlyOnce(h, o, Next(h, adapt, w, TailPass(batchSize, crash)))
  {
    var p := w.projection;
    var records := ReadTail(w.store.table, p.cursor, Limit(batchSize));
    if records != [] && ProjectAll(adapt, p.epoch, Open(p), records).Ok? && crash == NoCrash {
      BatchKeeps(h, adapt, o, w, records, Limit(batchSize), ProjectAll(adapt, p.epoch, Open(p), records).value);
    }
  }

  lemma BatchKeeps(h: Hasher, adapt: Adapter, o: Origin, w: World, records: seq<Cold>, limit: nat, b: OpenBatch)
    requires ExactlyOnce(h, o, w) && Keeps(adapt)
    requires records == ReadTail(w.store.table, w.projection.cursor, limit) && records != []
    requires ProjectAll(adapt, w.projection.epoch, Open(w.projection), records) == Ok(b)
    ensures ExactlyOnce(h, o, w.(projection := WithCursor(WithBatch(w.projection, b), b, false)))
  {
    var p := w.projection;
    TailIsNew(h, o, w, limit);
    TailIsConsecutive(h, o, w, limit);
    BatchCounts(adapt, p.epoch, Open(p), records, Examined(o, p));
    BatchIds(adapt, p.epoch, Open(p), records);
    BatchUnseen(h, o, w, b, limit);
    MovedKeeps(h, o, w, WithCursor(WithBatch(p, b), b, false), |records|);
  }

  /** Columns and events moved over `n` more positions. */
  lemma MovedKeeps(h: Hasher, o: Origin, w: World, q: Projection, n: nat)
    requires ExactlyOnce(h, o, w) && 0 < n && Examined(o, w.projection) + n <= ChainHead(w.store.table).1
    requires q.cursor == Examined(o, w.projection) + n
    requires |q.events| + q.gapCount == |w.projection.events| + w.projection.gapCount + n
    requires Unseen(w.store.table, q.events, q.cursor)
    ensures ExactlyOnce(h, o, w.(projection := q))
  {
    HeadOf(h, w.store.table);
  }

  lemma BatchUnseen(h: Hasher, o: Origin, w: World, b: OpenBatch, limit: nat)
    requires ExactlyOnce(h, o, w)
    requires b.events.Keys <= w.projection.events.Keys + IdsOf(ReadTail(w.store.table, w.projection.cursor, limit))
    ensures Unseen(w.store.table, b.events,
      Examined(o, w.projection) + |ReadTail(w.store.table, w.projection.cursor, limit)|)
  {
    var table := w.store.table;
    var records := ReadTail(table, w.projection.cursor, limit);
    var examined := Examined(o, w.projection);
    forall i | 0 <= i < |table| && Chained(table[i]) && Key(table[i]) > examined + |records|
      ensures table[i].content.id !in b.events
    {
      if table[i].content.id in b.events {
        IdsOfMember(records, table[i].content.id);
        var j :| 0 <= j < |records| && records[j].content.id == table[i].content.id;
        ReadRow(h, o, w, limit, j, i);
        assert false;
      }
    }
  }

  /** A row that was read is the row of its id, at its own position. */
  lemma ReadRow(h: Hasher, o: Origin, w: World, limit: nat, j: nat, i: nat)
    requires ExactlyOnce(h, o, w) && i < |w.store.table|
    requires
      var records := ReadTail(w.store.table, w.projection.cursor, limit);
      j < |records| && records[j].content.id == w.store.table[i].content.id
    ensures Key(w.store.table[i]) <= Examined(o, w.projection) + |ReadTail(w.store.table, w.projection.cursor, limit)|
  {
    var k := Examined(o, w.projection) - StartOf(w.store.table);
    TailReads(h, o, w, limit, k);
    ReadAt(Segment(w.store.table), k, limit, j);
    RowOfSegment(h, w.store.table, k + j, i);
  }

  lemma ReadAt(rows: seq<Row>, k: nat, limit: nat, j: nat)
    requires k <= |rows| && j < |Take(Map(rows[k..], Archived), limit)|
    ensures k + j < |rows| && Take(Map(rows[k..], Archived), limit)[j] == Archived(rows[k + j])
  {
  }

  lemma RowOfSegment(h: Hasher, table: seq<Row>, n: nat, i: nat)
    requires Linked(h, Segment(table), StartOf(table), SeedOf(table)) && UniqueIds(table)
    requires n < |Segment(table)| && i < |table| && Segment(table)[n].content.id == table[i].content.id
    ensures Key(table[i]) == StartOf(table) + 1 + n
  {
    SegmentMembers(table);
    assert Segment(table)[n] in table;
    var a :| 0 <= a < |table| && table[a] == Segment(table)[n];
    LinkedAt(h, Segment(table), StartOf(table), SeedOf(table), n);
  }

  lemma AppendKeeps(h: Hasher, adapt: Adapter, o: Origin, w: World, batch: seq<AuditRecord>)
    requires ExactlyOnce(h, o, w) && Allowed(w, Append(batch))
    ensures ExactlyOnce(h, o, Next(h, adapt, w, Append(batch)))
  {
    if FreshIds(w.store.table, batch) {
      var (prev, last) := ChainHead(w.store.table);
      var rows := StampAll(h, batch, last, prev);
      StampAllLinked(h, batch, last, prev);
      AppendGrounded(h, w.store, rows);
      AppendKeepsIds(w.store.table, rows, batch);
      AppendedHead(h, w.store, rows);
      UnseenAppend(w.store.table, rows, batch, w.projection.events, Examined(o, w.projection));
    }
  }

  lemma UnseenAppend(
    table: seq<Row>, rows: seq<Row>, batch: seq<AuditRecord>, events: map<Uuid, SourceEvent>, examined: int)
    requires Unseen(table, events, examined) && |rows| == |batch|
    requires forall k :: 0 <= k < |batch| ==> rows[k].content == batch[k] && batch[k].id !in events
    ensures Unseen(table + rows, events, examined)
  {
    forall i | 0 <= i < |table + rows| && Chained((table + rows)[i]) && Key((table + rows)[i]) > examined
      ensures (table + rows)[i].content.id !in events
    {
      if i >= |table| {
        assert rows[i - |table|].content == batch[i - |table|];
      }
    }
  }

  lemma AppendedHead(h: Hasher, s: Store, rows: seq<Row>)
    requires Grounded(h, s) && Linked(h, rows, ChainHead(s.table).1, ChainHead(s.table).0)
    requires Grounded(h, s.(table := s.table + rows)) && Segment(s.table + rows) == Segment(s.table) + rows
    ensures ChainHead(s.table + rows).1 == ChainHead(s.table).1 + |rows|
    ensures Segment(s.table) == [] && rows != [] ==> StartOf(s.table + rows) == 0
  {
    HeadOf(h, s.table);
    HeadOf(h, s.table + rows);
    if Segment(s.table) == [] && rows != [] {
      LinkedStart(h, s.table + rows, 0, None);
    } else if Segment(s.table) != [] {
      assert Segment(s.table + rows)[0] == Segment(s.table)[0];
    }
  }

  /** Retention deletes only rows at or below the cursor, and only while no day is dirty. */
  lemma RetentionIsCovered(h: Hasher, w: World, pass: Pass)
    requires Pruned(h, w.store, w.files, Gated(w.projection, pass)).0 != w.store
    ensures
      var bound := PruneBound(w.store.table, pass.cutoff, pass.respectSync);
      && Pruned(h, w.store, w.files, Gated(w.projection, pass)).0 == AfterDelete(w.store, bound)
      && 0 < bound && Covers(w.projection, bound)
  {
  }

  lemma RetainKeeps(h: Hasher, adapt: Adapter, o: Origin, w: World, pass: Pass)
    requires ExactlyOnce(h, o, w) && Allowed(w, Retain(pass))
    ensures ExactlyOnce(h, o, Next(h, adapt, w, Retain(pass)))
  {
    var bound := PruneBound(w.store.table, pass.cutoff, pass.respectSync);
    var after := Pruned(h, w.store, w.files, Gated(w.projection, pass)).0;
    if after != w.store {
      RetentionIsCovered(h, w, pass);
      HeadOf(h, w.store.table);
      PruneGrounded(h, w.store, bound);
      DeleteKeeps(h, w.store, w.projection.events, Examined(o, w.projection), bound);
    }
  }

  lemma DeleteKeeps(h: Hasher, s: Store, events: map<Uuid, SourceEvent>, examined: int, bound: int)
    requires Grounded(h, s) && UniqueIds(s.table) && Unseen(s.table, events, examined)
    requires StartOf(s.table) < bound < StartOf(s.table) + |Segment(s.table)| && RowAt(s.table, bound).Some?
    ensures
      var after := AfterDelete(s, bound);
      && Grounded(h, after) && UniqueIds(after.table) && Unseen(after.table, events, examined)
      && Segment(after.table) != [] && StartOf(after.table) == bound && ChainHead(after.table).1 == ChainHead(s.table).1
  {
    var k := bound - StartOf(s.table);
    var after := AfterDelete(s, bound);
    PruneGrounded(h, s, bound);
    PruneCuts(h, s, k, bound);
    LinkedSplit(h, Segment(s.table), StartOf(s.table), SeedOf(s.table), k);
    LinkedStart(h, after.table, bound, Segment(s.table)[k - 1].recordHash);
    HeadOf(h, s.table);
    HeadOf(h, after.table);
    UniqueIdsFilter(s.table, Survives(bound));
    UnseenFilter(s.table, events, examined, Survives(bound));
  }

  lemma {:induction false} UnseenFilter(
    table: seq<Row>, events: map<Uuid, SourceEvent>, examined: int, keep: Row -> bool)
    requires Unseen(table, events, examined)
    ensures Unseen(Filter(table, keep), events, examined)
  {
    if table != [] {
      UnseenFilter(table[1..], events, examined, keep);
    }
  }

  lemma StepKeeps(h: Hasher, adapt: Adapter, o: Origin, w: World, step: Step)
    requires ExactlyOnce(h, o, w) && Keeps(adapt) && Allowed(w, step)
    ensures ExactlyOnce(h, o, Next(h, adapt, w, step))
  {
    match step
    case Append(batch) => AppendKeeps(h, adapt, o, w, batch);
    case TailPass(batchSize, crash) => TailKeeps(h, adapt, o, w, batchSize, crash);
    case Rebuild(key) =>
    case Retain(pass) => RetainKeeps(h, adapt, o, w, pass);
  }

  /** A projection created over a table: its baseline is the position in front of the oldest row, and
      its cursor column still has the default. */
  lemma FirstEpochBegins(h: Hasher, s: Store, files: Files, p: Projection)
    requires Grounded(h, s) && UniqueIds(s.table)
    requires p.cursor == 0 && p.baseline == StartOf(s.table) && p.events == map[] && p.gapCount == 0
    ensures ExactlyOnce(h, Origin(p.baseline, 0, 0), World(s, files, p))
  {
    HeadOf(h, s.table);
  }

  /** In every state of every run, events and gaps since the epoch began are exactly the rows between
      its baseline and the examined position: none missed, none counted twice. */
  lemma {:induction false} MaterializedExactlyOnce(h: Hasher, adapt: Adapter, o: Origin, w: World, steps: seq<Step>)
    requires ExactlyOnce(h, o, w) && Keeps(adapt) && AllowedRun(h, adapt, w, steps)
    ensures
      var end := Run(h, adapt, w, steps);
      && ExactlyOnce(h, o, end)
      && (end.projection.cursor > 0 ==>
            |end.projection.events| - o.events + end.projection.gapCount - o.gaps == end.projection.cursor - o.baseline)
    decreases |steps|
  {
    if steps != [] {
      StepKeeps(h, adapt, o, w, steps[0]);
      MaterializedExactlyOnce(h, adapt, o, Next(h, adapt, w, steps[0]), steps[1..]);
    }
  }
}
