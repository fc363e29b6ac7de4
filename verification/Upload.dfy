/** Uploading one day of the projection (crates/grith-audit/src/analytics.rs) over a network that may
    lose, repeat and reorder, to a server that accepts only newer revisions and acknowledges only
    what it stored. */
module Upload {
  import opened Basics
  import opened Chain
  import opened ColdFiles
  import opened SnapshotOrder
  import opened Projection

  datatype Snapshot = Snapshot(revision: int, content: Covered)

  /** Messages stay in flight for good: one that is never taken is lost, one taken twice repeated. */
  datatype World = World(
    projection: Projection, server: Option<Snapshot>, uploads: set<Snapshot>, acks: set<int>, stales: set<int>)

  datatype Event =
    | Local(step: Step)
    | Send
    | Receive(upload: Snapshot)
    | TakeAck(revision: int)
    | TakeStale(revision: int)

  /** `dirty = 0 AND (snapshot_ack_revision IS NULL OR snapshot_ack_revision < day_revision)`. */
  predicate Pending(s: DayState) {
    !s.dirty && (s.acknowledged.None? || s.acknowledged.value < s.dayRevision)
  }

  /** Acknowledgements and reconciles come from the server only, and the day is not pruned. */
  predicate Enabled(w: World, key: DayKey, e: Event) {
    key in w.projection.days &&
    match e
    case Local(step) => !step.Ack? && !step.Reconcile? && !step.PruneDays?
    case Send => Pending(w.projection.days[key]) && w.projection.days[key].checksum.Some?
    case Receive(upload) => upload in w.uploads
    case TakeAck(revision) => revision in w.acks
    case TakeStale(revision) => revision in w.stales
  }

  /** The server's side: a newer revision is stored and acknowledged, the stored one is acknowledged
      again, anything else is refused with the revision the server holds. */
  function Received(w: World, upload: Snapshot): World {
    if w.server.None? || upload.revision > w.server.value.revision then
      w.(server := Some(upload), acks := w.acks + {upload.revision})
    else if w.server == Some(upload) then w.(acks := w.acks + {upload.revision})
    else w.(stales := w.stales + {w.server.value.revision})
  }

  ghost function After(adapt: Adapter, w: World, key: DayKey, e: Event): World
    requires Enabled(w, key, e)
  {
    match e
    case Local(step) => w.(projection := Next(adapt, w.projection, step))
    case Send =>
      var s := w.projection.days[key];
      w.(uploads := w.uploads + {Snapshot(s.dayRevision, s.checksum.value)})
    case Receive(upload) => Received(w, upload)
    case TakeAck(revision) => w.(projection := AfterAck(w.projection, key, revision))
    case TakeStale(revision) => w.(projection := AfterReconcile(w.projection, key, revision))
  }

  // ---------- What local work does to a day ----------

  /** Local steps leave the acknowledgement alone; they keep the revision, possibly marking the day
      dirty, or move it up to a clean rebuild. */
  predicate Evolves(s: DayState, t: DayState) {
    && t.acknowledged == s.acknowledged
    && (|| (t.dayRevision == s.dayRevision && (t.dirty || (!s.dirty && t.checksum == s.checksum)))
        || (t.dayRevision > s.dayRevision && !t.dirty))
  }

  lemma LocalEvolves(adapt: Adapter, p: Projection, key: DayKey, step: Step)
    requires key in p.days && !step.Ack? && !step.Reconcile? && !step.PruneDays?
    ensures key in Next(adapt, p, step).days
    ensures Evolves(p.days[key], Next(adapt, p, step).days[key])
  {
    match step
    case Tail(table, batchSize, crash) => TailEvolves(adapt, p, key, table, batchSize, crash);
    case RebuildDay(other) => RebuildEvolves(p, key, other);
    case FullRebuild(table, records) =>
      if Replayed(adapt, Cleared(NextGeneration(p)), table, records).Some? {
        FullRebuildEvolves(adapt, p, key, table, records);
      }
    case _ =>
  }

  lemma TailEvolves(adapt: Adapter, p: Projection, key: DayKey, table: seq<Row>, batchSize: nat, crash: CrashPoint)
    requires key in p.days
    ensures key in AfterTail(adapt, p, table, batchSize, crash).0.days
    ensures Evolves(p.days[key], AfterTail(adapt, p, table, batchSize, crash).0.days[key])
  {
  }

  lemma RebuildEvolves(p: Projection, key: DayKey, other: DayKey)
    requires key in p.days
    ensures key in AfterRebuild(p, other).days && Evolves(p.days[key], AfterRebuild(p, other).days[key])
  {
  }

  lemma FullRebuildEvolves(adapt: Adapter, p: Projection, key: DayKey, table: seq<Row>, records: seq<Cold>)
    requires key in p.days && Replayed(adapt, Cleared(NextGeneration(p)), table, records).Some?
    ensures key in AfterFullRebuild(adapt, p, table, records).days
    ensures Evolves(p.days[key], AfterFullRebuild(adapt, p, table, records).days[key])
  {
    ReplayedEvolves(adapt, Cleared(NextGeneration(p)), key, table, records);
  }

  lemma ReplayedEvolves(adapt: Adapter, cleared: Projection, key: DayKey, table: seq<Row>, records: seq<Cold>)
    requires key in cleared.days && cleared.days[key].dirty && Replayed(adapt, cleared, table, records).Some?
    ensures
      var after := Replayed(adapt, cleared, table, records).value.days;
      && key in after && after[key].acknowledged == cleared.days[key].acknowledged
      && (|| (after[key].dayRevision == cleared.days[key].dayRevision && after[key].dirty)
          || (after[key].dayRevision > cleared.days[key].dayRevision && !after[key].dirty))
  {
    var b := ProjectAll(adapt, cleared.epoch, Open(cleared), records).value;
    var written := WithBatch(cleared, b);
    assert written.days[key].dirty && written.days[key].dayRevision == cleared.days[key].dayRevision;
  }

  // ---------- The invariant ----------

  /** An upload carries the content of its revision; the current one carries the current content. */
  predicate Current(s: DayState, u: Snapshot) {
    0 <= u.revision <= s.dayRevision && (u.revision == s.dayRevision && !s.dirty ==> s.checksum == Some(u.content))
  }

  predicate Agreed(w: World, s: DayState) {
    w.server.Some? && w.server.value.revision == s.dayRevision && s.checksum == Some(w.server.value.content)
  }

  predicate Converging(w: World, key: DayKey) {
    key in w.projection.days &&
    var s := w.projection.days[key];
    && (s.acknowledged.Some? ==> s.acknowledged.value <= s.dayRevision)
    && (forall u :: u in w.uploads ==> Current(s, u))
    && (w.acks != {} ==> w.server.Some? && w.server.value in w.uploads)
    && (forall r :: r in w.acks ==> w.server.Some? && 0 <= r <= w.server.value.revision)
    && (!s.dirty && s.acknowledged == Some(s.dayRevision) ==> Agreed(w, s))
    && s.dayRevision >= 0
  }

  lemma LocalConverges(adapt: Adapter, w: World, key: DayKey, step: Step)
    requires Converging(w, key) && Enabled(w, key, Local(step))
    ensures Converging(After(adapt, w, key, Local(step)), key)
  {
    LocalEvolves(adapt, w.projection, key, step);
    var s := w.projection.days[key];
    var t := Next(adapt, w.projection, step).days[key];
    forall u | u in w.uploads ensures Current(t, u) {
      assert Current(s, u);
    }
  }

  lemma ReceiveConverges(w: World, key: DayKey, upload: Snapshot)
    requires Converging(w, key) && upload in w.uploads
    ensures Converging(Received(w, upload), key)
  {
    var s := w.projection.days[key];
    assert Current(s, upload);
  }

  lemma AckConverges(w: World, key: DayKey, revision: int)
    requires Converging(w, key) && revision in w.acks
    ensures Converging(w.(projection := AfterAck(w.projection, key, revision)), key)
  {
    var s := w.projection.days[key];
    var t := Acknowledged(s, revision);
    assert Current(s, w.server.value);
    forall u | u in w.uploads ensures Current(t, u) {
      assert Current(s, u);
    }
  }

  lemma StaleConverges(w: World, key: DayKey, revision: int)
    requires Converging(w, key)
    ensures Converging(w.(projection := AfterReconcile(w.projection, key, revision)), key)
  {
    var s := w.projection.days[key];
    var t := AfterReconcile(w.projection, key, revision).days[key];
    forall u | u in w.uploads ensures Current(t, u) {
      assert Current(s, u);
    }
  }

  lemma EventConverges(adapt: Adapter, w: World, key: DayKey, e: Event)
    requires Converging(w, key) && Enabled(w, key, e)
    ensures Converging(After(adapt, w, key, e), key)
  {
    match e
    case Local(step) => LocalConverges(adapt, w, key, step);
    case Send =>
    case Receive(upload) => ReceiveConverges(w, key, upload);
    case TakeAck(revision) => AckConverges(w, key, revision);
    case TakeStale(revision) => StaleConverges(w, key, revision);
  }

  ghost predicate Runnable(adapt: Adapter, w: World, key: DayKey, events: seq<Event>)
    decreases |events|
  {
    events == [] || (Enabled(w, key, events[0]) && Runnable(adapt, After(adapt, w, key, events[0]), key, events[1..]))
  }

  ghost function Run(adapt: Adapter, w: World, key: DayKey, events: seq<Event>): World
    requires Runnable(adapt, w, key, events)
    decreases |events|
  {
    if events == [] then w else Run(adapt, After(adapt, w, key, events[0]), key, events[1..])
  }

  /** Whatever is lost, repeated or reordered, the acknowledged revision never exceeds the local one,
      and a clean day acknowledged at its revision is the snapshot the server holds. */
  lemma {:induction false} UploadsConverge(adapt: Adapter, w: World, key: DayKey, events: seq<Event>)
    requires Converging(w, key) && Runnable(adapt, w, key, events)
    ensures
      var end := Run(adapt, w, key, events);
      && Converging(end, key)
      && var s := end.projection.days[key];
         && (s.acknowledged.Some? ==> s.acknowledged.value <= s.dayRevision)
         && (!s.dirty && s.acknowledged == Some(s.dayRevision) ==> Agreed(end, s))
    decreases |events|
  {
    if events != [] {
      EventConverges(adapt, w, key, events[0]);
      UploadsConverge(adapt, After(adapt, w, key, events[0]), key, events[1..]);
    }
  }

  /** A day that was never uploaded converges from any server state, even a server that is ahead. */
  lemma NeverUploadedConverges(p: Projection, key: DayKey, server: Option<Snapshot>)
    requires key in p.days && p.days[key].acknowledged.None? && p.days[key].dayRevision >= 0
    ensures Converging(World(p, server, {}, {}, {}), key)
  {
  }

  // ---------- A way to agreement ----------

  /** Clean, acknowledged at its revision, and what the server holds. */
  predicate Settled(w: World, key: DayKey) {
    key in w.projection.days &&
    var s := w.projection.days[key];
    !s.dirty && s.acknowledged == Some(s.dayRevision) && Agreed(w, s)
  }

  /** A clean day waits for an upload exactly until it is settled: nothing is sent for a day the server is
      known to hold, and nothing the server is not known to hold is left unsent. */
  lemma PendingIff(w: World, key: DayKey)
    requires Converging(w, key) && !w.projection.days[key].dirty && w.projection.days[key].checksum.Some?
    ensures Enabled(w, key, Send) <==> !Settled(w, key)
  {
  }

  /** `e` and then `rest` lead to a settled day. */
  lemma StepThen(adapt: Adapter, w: World, key: DayKey, e: Event, rest: seq<Event>)
    requires Enabled(w, key, e) && Runnable(adapt, After(adapt, w, key, e), key, rest)
    requires Settled(Run(adapt, After(adapt, w, key, e), key, rest), key)
    ensures Runnable(adapt, w, key, [e] + rest) && Settled(Run(adapt, w, key, [e] + rest), key)
  {
    assert ([e] + rest)[1..] == rest;
  }

  ghost predicate Ready(w: World, key: DayKey) {
    Converging(w, key) && Pending(w.projection.days[key]) && w.projection.days[key].checksum.Some?
  }

  function CurrentSnapshot(w: World, key: DayKey): Snapshot
    requires key in w.projection.days && w.projection.days[key].checksum.Some?
  {
    Snapshot(w.projection.days[key].dayRevision, w.projection.days[key].checksum.value)
  }

  /** A server that is behind takes the upload, and its acknowledgement settles the day. */
  lemma NewerUploadSettles(adapt: Adapter, w: World, key: DayKey) returns (events: seq<Event>)
    requires Ready(w, key)
    requires w.server.None? || w.server.value.revision < w.projection.days[key].dayRevision
             || w.server.value == CurrentSnapshot(w, key)
    ensures Runnable(adapt, w, key, events) && Settled(Run(adapt, w, key, events), key)
  {
    var u := CurrentSnapshot(w, key);
    var sent := After(adapt, w, key, Send);
    EventConverges(adapt, w, key, Send);
    var received := After(adapt, sent, key, Receive(u));
    EventConverges(adapt, sent, key, Receive(u));
    var acked := After(adapt, received, key, TakeAck(u.revision));
    EventConverges(adapt, received, key, TakeAck(u.revision));
    assert Runnable(adapt, acked, key, []) && Run(adapt, acked, key, []) == acked;
    StepThen(adapt, received, key, TakeAck(u.revision), []);
    StepThen(adapt, sent, key, Receive(u), [TakeAck(u.revision)]);
    events := [Send] + ([Receive(u)] + [TakeAck(u.revision)]);
    StepThen(adapt, w, key, Send, [Receive(u)] + [TakeAck(u.revision)]);
  }

  /** Rebuilding a dirty day makes it ready at a revision of its own. */
  lemma RebuildReadies(adapt: Adapter, w: World, key: DayKey)
    requires Converging(w, key) && RollupOf(w.projection.events, key).Some?
    ensures
      var next := After(adapt, w, key, Local(RebuildDay(key)));
      && Ready(next, key) && next.server == w.server
      && next.projection.days[key].dayRevision == w.projection.days[key].dayRevision + 1
      && next.projection.events == w.projection.events
  {
    EventConverges(adapt, w, key, Local(RebuildDay(key)));
    assert CanRebuild(w.projection, {key});
  }

  /** A server that is ahead refuses the upload; adopting its revision and rebuilding overtakes it. */
  lemma StaleUploadSettles(adapt: Adapter, w: World, key: DayKey) returns (events: seq<Event>)
    requires Ready(w, key) && RollupOf(w.projection.events, key).Some?
    requires w.server.Some? && w.server.value.revision >= w.projection.days[key].dayRevision
    requires w.server.value != CurrentSnapshot(w, key)
    ensures Runnable(adapt, w, key, events) && Settled(Run(adapt, w, key, events), key)
  {
    var u := CurrentSnapshot(w, key);
    var held := w.server.value.revision;
    var sent := After(adapt, w, key, Send);
    EventConverges(adapt, w, key, Send);
    var refused := After(adapt, sent, key, Receive(u));
    EventConverges(adapt, sent, key, Receive(u));
    var adopted := After(adapt, refused, key, TakeStale(held));
    EventConverges(adapt, refused, key, TakeStale(held));
    RebuildReadies(adapt, adopted, key);
    var rest := NewerUploadSettles(adapt, After(adapt, adopted, key, Local(RebuildDay(key))), key);
    StepThen(adapt, adopted, key, Local(RebuildDay(key)), rest);
    var rebuilt := [Local(RebuildDay(key))] + rest;
    StepThen(adapt, refused, key, TakeStale(held), rebuilt);
    StepThen(adapt, sent, key, Receive(u), [TakeStale(held)] + rebuilt);
    events := [Send] + ([Receive(u)] + ([TakeStale(held)] + rebuilt));
    StepThen(adapt, w, key, Send, [Receive(u)] + ([TakeStale(held)] + rebuilt));
  }

  /** From every reachable state whose day can be aggregated some finite run, without any loss, settles
      the day: one refusal is enough to overtake a server that is ahead. */
  lemma AgreementIsReachable(adapt: Adapter, w: World, key: DayKey) returns (events: seq<Event>)
    requires Converging(w, key) && Coherent(w.projection) && RollupOf(w.projection.events, key).Some?
    ensures Runnable(adapt, w, key, events) && Settled(Run(adapt, w, key, events), key)
  {
    var s := w.projection.days[key];
    assert DayCoherent(w.projection, key);
    if s.dirty {
      RebuildReadies(adapt, w, key);
      var rest := ReadySettles(adapt, After(adapt, w, key, Local(RebuildDay(key))), key);
      events := [Local(RebuildDay(key))] + rest;
      StepThen(adapt, w, key, Local(RebuildDay(key)), rest);
    } else if Pending(s) {
      events := ReadySettles(adapt, w, key);
    } else {
      events := [];
    }
  }

  lemma ReadySettles(adapt: Adapter, w: World, key: DayKey) returns (events: seq<Event>)
    requires Ready(w, key) && RollupOf(w.projection.events, key).Some?
    ensures Runnable(adapt, w, key, events) && Settled(Run(adapt, w, key, events), key)
  {
    if w.server.None? || w.server.value.revision < w.projection.days[key].dayRevision
       || w.server.value == CurrentSnapshot(w, key) {
      events := NewerUploadSettles(adapt, w, key);
    } else {
      events := StaleUploadSettles(adapt, w, key);
    }
  }
}
