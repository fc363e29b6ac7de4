/** What retention guarantees over any number of passes that may crash anywhere
    (crates/grith-audit/src/retention.rs). */
module RetentionRuns {
  import opened Basics
  import opened Records
  import opened Sorting
  import opened Chain
  import opened ChainStore
  import opened Anchoring
  import opened ColdFiles
  import opened Retention

  // ---------- One pass ----------

  /** Some frame of the record's own file holds it, and that frame's last line with its id carries
      the same hash and the content the hash was computed from. */
  ghost predicate InProvenFrame(h: Hasher, files: Files, c: Cold) {
    exists k :: 0 <= k < |FramesOf(files, DateOf(c))| && FrameVouches(h, FramesOf(files, DateOf(c))[k], c)
  }

  predicate FrameVouches(h: Hasher, frame: seq<Cold>, c: Cold) {
    c in frame && Vouches(h, LastById(frame, c.content.id), c)
  }

  /** Flushing never takes a frame away. */
  lemma FlushKeepsProven(h: Hasher, files: Files, b: Batch, answer: Append, c: Cold)
    requires OldestFirst(files)
    ensures OldestFirst(FlushOutcome(h, files, b, answer).0)
    ensures InProvenFrame(h, files, c) ==> InProvenFrame(h, FlushOutcome(h, files, b, answer).0, c)
  {
    AddFrameMeaning(files, b.date, b.records, DateOf(c));
    if InProvenFrame(h, files, c) {
      var frames := FramesOf(files, DateOf(c));
      var k :| 0 <= k < |frames| && FrameVouches(h, frames[k], c);
      assert FramesOf(FlushOutcome(h, files, b, answer).0, DateOf(c))[k] == frames[k];
    }
  }

  lemma {:induction false} RunKeepsProven(h: Hasher, files: Files, batches: seq<Batch>, env: Env, n: nat, c: Cold)
    requires OldestFirst(files)
    ensures OldestFirst(RunFlushes(h, files, batches, env, n).0)
    ensures InProvenFrame(h, files, c) ==> InProvenFrame(h, RunFlushes(h, files, batches, env, n).0, c)
    decreases |batches|
  {
    if batches != [] {
      FlushKeepsProven(h, files, batches[0], env(n), c);
      RunKeepsProven(h, FlushOutcome(h, files, batches[0], env(n)).0, batches[1..], env, n + 1, c);
    }
  }

  /** A run of flushes that reports no error wrote and proved every batch. */
  lemma {:induction false} RunProves(h: Hasher, files: Files, batches: seq<Batch>, env: Env, n: nat, i: nat, c: Cold)
    requires OldestFirst(files) && RunFlushes(h, files, batches, env, n).1.None?
    requires i < |batches| && c in batches[i].records && DateOf(c) == batches[i].date
    ensures InProvenFrame(h, RunFlushes(h, files, batches, env, n).0, c)
    decreases |batches|
  {
    var b := batches[0];
    var after := FlushOutcome(h, files, b, env(n)).0;
    FlushKeepsProven(h, files, b, env(n), c);
    if i == 0 {
      AddFrameMeaning(files, b.date, b.records, b.date);
      var frames := FramesOf(after, b.date);
      var j :| 0 <= j < |b.records| && b.records[j] == c;
      assert Vouches(h, LastById(b.records, c.content.id), b.records[j]);
      assert FrameVouches(h, frames[|frames| - 1], c);
      RunKeepsProven(h, after, batches[1..], env, n + 1, c);
    } else {
      RunProves(h, after, batches[1..], env, n + 1, i - 1, c);
    }
  }

  /** A run without error adds exactly its batches. */
  lemma {:induction false} RunAddsAll(h: Hasher, files: Files, batches: seq<Batch>, env: Env, n: nat)
    requires RunFlushes(h, files, batches, env, n).1.None?
    ensures RunFlushes(h, files, batches, env, n).0 == AddAll(files, batches)
    decreases |batches|
  {
    if batches != [] {
      RunAddsAll(h, AddFrame(files, batches[0].date, batches[0].records), batches[1..], env, n + 1);
    }
  }

  /** Every pushed record is in some batch of its own date. */
  lemma {:induction false} FlushesCover(rest: seq<Cold>, date: Option<int>, buffer: seq<Cold>, c: Cold) returns (i: nat)
    requires Uniform(date, buffer) && (c in buffer || c in rest)
    ensures i < |Flushes(rest, date, buffer)|
    ensures c in Flushes(rest, date, buffer)[i].records && Flushes(rest, date, buffer)[i].date == DateOf(c)
    decreases |rest|
  {
    if rest == [] {
      i := 0;
    } else {
      var next := DateOf(rest[0]);
      var switch := buffer != [] && date.value != next;
      var held := if switch then [] else buffer;
      if switch && c in buffer {
        i := 0;
      } else {
        var j := PushedCover(rest, held, c);
        i := if switch then j + 1 else j;
      }
    }
  }

  lemma {:induction false} PushedCover(rest: seq<Cold>, held: seq<Cold>, c: Cold) returns (i: nat)
    requires rest != [] && Uniform(Some(DateOf(rest[0])), held) && (c in held || c in rest)
    ensures i < |FlushesFrom(rest, held)|
    ensures c in FlushesFrom(rest, held)[i].records && FlushesFrom(rest, held)[i].date == DateOf(c)
    decreases |rest|, 0
  {
    var date := DateOf(rest[0]);
    var full := held + [rest[0]];
    assert c in full || c in rest[1..];
    if |full| >= ARCHIVE_BATCH_RECORDS {
      if c in full {
        i := 0;
      } else {
        var j := FlushesCover(rest[1..], Some(date), [], c);
        i := j + 1;
      }
    } else {
      i := FlushesCover(rest[1..], Some(date), full, c);
    }
  }

  /** A pass that completes adds to each date's file exactly that date's records of the prefix, in
      chain order, and deletes exactly the prefix. */
  lemma CompletedPass(h: Hasher, s: Store, files: Files, p: Pass, date: int)
    requires OldestFirst(files) && p.coldStorage
    requires Pruned(h, s, files, p).2.Ok? && Pruned(h, s, files, p).2.value.archivedRows > 0
    ensures
      var (after, cold, r) := Pruned(h, s, files, p);
      var bound := r.value.maxPrunedSequence;
      && LinesOf(cold, date) == LinesOf(files, date) + Filter(Prefix(s.table, bound), OnDate(date))
      && after == AfterDelete(s, bound) && RowAt(s.table, bound).Some?
      && r.value.archivedRows == |Prefix(s.table, bound)|
  {
    var bound := PruneBound(s.table, p.cutoff, p.respectSync);
    var prefix := Prefix(s.table, bound);
    RunAddsAll(h, files, Flushes(prefix, None, []), p.env, 0);
    FlushesSort(files, prefix, None, [], date);
    assert LinesOf(files, date) + [] == LinesOf(files, date);
  }

  /** A pass that does not complete deletes nothing. */
  lemma FailedPass(h: Hasher, s: Store, files: Files, p: Pass)
    requires Pruned(h, s, files, p).2.Err?
    ensures Pruned(h, s, files, p).0 == s
  {
  }

  // ---------- The streamed prefix of a linked segment ----------

  lemma {:induction false} UpToPrefix(h: Hasher, rows: seq<Row>, start: int, seed: Option<string>, k: nat, cut: int)
    requires Linked(h, rows, start, seed) && k <= |rows| && cut == start + k
    ensures Filter(rows, UpTo(cut)) == rows[..k]
  {
    if k == 0 {
      LinkedKeys(h, rows, start, seed);
      FilterAll(rows, UpTo(cut));
    } else {
      UpToPrefix(h, rows[1..], start + 1, rows[0].recordHash, k - 1, cut);
      assert rows[..k] == [rows[0]] + rows[1..][..k - 1];
    }
  }

  lemma PrefixIs(h: Hasher, table: seq<Row>, k: nat, cut: int)
    requires Linked(h, Segment(table), StartOf(table), SeedOf(table))
    requires k <= |Segment(table)| && cut == StartOf(table) + k
    ensures Prefix(table, cut) == Map(Segment(table), Archived)[..k]
  {
    KeyLeqIsPreorder();
    FilterSort(Filter(table, Chained), UpTo(cut), KeyLeq);
    UpToPrefix(h, Segment(table), StartOf(table), SeedOf(table), k, cut);
    MapTake(Segment(table), k);
  }

  lemma MapTake(rows: seq<Row>, k: nat)
    requires k <= |rows|
    ensures Map(rows[..k], Archived) == Map(rows, Archived)[..k] && Map(rows[k..], Archived) == Map(rows, Archived)[k..]
  {
  }

  // ---------- A pass in which nothing goes wrong ----------

  /** Records of different ids, each with its own hash. */
  ghost predicate Provable(h: Hasher, records: seq<Cold>) {
    && (forall i :: 0 <= i < |records| ==> Authentic(h, records[i]))
    && (forall i, j :: 0 <= i < j < |records| ==> records[i].content.id != records[j].content.id)
  }

  lemma ProvableProves(h: Hasher, records: seq<Cold>)
    requires Provable(h, records)
    ensures Proves(h, records, records)
  {
    forall i | 0 <= i < |records| ensures Vouches(h, LastById(records, records[i].content.id), records[i]) {
      LastByIdFinds(records, i);
      LastByIdMember(records, records[i].content.id);
    }
  }

  lemma {:induction false} LastByIdFinds(records: seq<Cold>, i: nat)
    requires i < |records|
    ensures LastById(records, records[i].content.id).Some?
  {
    if records[|records| - 1].content.id != records[i].content.id {
      LastByIdFinds(records[..|records| - 1], i);
    }
  }

  lemma ProvableParts(h: Hasher, a: seq<Cold>, b: seq<Cold>)
    requires Provable(h, a + b)
    ensures Provable(h, a) && Provable(h, b)
  {
    assert forall i :: 0 <= i < |a| ==> (a + b)[i] == a[i];
    assert forall i :: 0 <= i < |b| ==> (a + b)[|a| + i] == b[i];
  }

  lemma {:induction false} FlushesProvable(h: Hasher, rest: seq<Cold>, date: Option<int>, buffer: seq<Cold>)
    requires (buffer != [] ==> date.Some?) && Provable(h, buffer + rest)
    ensures forall b :: b in Flushes(rest, date, buffer) ==> Provable(h, b.records)
    decreases |rest|
  {
    ProvableParts(h, buffer, rest);
    if rest != [] {
      if buffer != [] && date.value != DateOf(rest[0]) {
        assert [] + rest == rest;
        FlushesFromProvable(h, rest, []);
      } else {
        FlushesFromProvable(h, rest, buffer);
      }
    }
  }

  lemma {:induction false} FlushesFromProvable(h: Hasher, rest: seq<Cold>, held: seq<Cold>)
    requires rest != [] && Provable(h, held + rest)
    ensures forall b :: b in FlushesFrom(rest, held) ==> Provable(h, b.records)
    decreases |rest|, 0
  {
    var full := held + [rest[0]];
    assert held + rest == full + rest[1..] && [] + rest[1..] == rest[1..];
    ProvableParts(h, full, rest[1..]);
    if |full| >= ARCHIVE_BATCH_RECORDS {
      FlushesProvable(h, rest[1..], Some(DateOf(rest[0])), []);
    } else {
      FlushesProvable(h, rest[1..], Some(DateOf(rest[0])), full);
    }
  }

  lemma {:induction false} WrittenRun(h: Hasher, files: Files, batches: seq<Batch>, env: Env, n: nat)
    requires (forall k :: env(k) == Written) && forall b :: b in batches ==> Provable(h, b.records)
    ensures RunFlushes(h, files, batches, env, n).1.None?
    decreases |batches|
  {
    if batches != [] {
      ProvableProves(h, batches[0].records);
      WrittenRun(h, AddFrame(files, batches[0].date, batches[0].records), batches[1..], env, n + 1);
    }
  }

  lemma PrefixProvable(h: Hasher, table: seq<Row>, k: nat, bound: int)
    requires Linked(h, Segment(table), StartOf(table), SeedOf(table)) && UniqueIds(table)
    requires k <= |Segment(table)| && bound == StartOf(table) + k
    ensures Provable(h, Prefix(table, bound))
  {
    PrefixIs(h, table, k, bound);
    SegmentUniqueIds(table);
    LinkedProvable(h, Segment(table), StartOf(table), SeedOf(table), k);
  }

  /** Linked rows are archived with their own hashes. */
  lemma LinkedProvable(h: Hasher, rows: seq<Row>, start: int, seed: Option<string>, k: nat)
    requires Linked(h, rows, start, seed) && UniqueIds(rows) && k <= |rows|
    ensures Provable(h, Map(rows, Archived)[..k])
  {
    var prefix := Map(rows, Archived)[..k];
    forall i | 0 <= i < k ensures prefix[i] == Archived(rows[i]) && Authentic(h, prefix[i]) {
      LinkedAt(h, rows, start, seed, i);
    }
  }

  /** On a linked chain, with every append written and no crash, a pass over an old enough, synced row
      whose bound is covered completes: the bound is stored, the proofs of its own frames never fail,
      and the row is gone. */
  lemma HealthyPassCompletes(h: Hasher, s: Store, files: Files, p: Pass, row: Row)
    requires Linked(h, Segment(s.table), StartOf(s.table), SeedOf(s.table)) && UniqueIds(s.table)
    requires (p.coldStorage ==> forall n :: p.env(n) == Written) && !p.crashBeforeDelete
    requires row in s.table && Chained(row) && MayPrune(s.table, p.cutoff, p.respectSync, Key(row))
    requires p.covers(PruneBound(s.table, p.cutoff, p.respectSync))
    ensures
      var (after, cold, r) := Pruned(h, s, files, p);
      && r.Ok? && r.value.maxPrunedSequence >= Key(row)
      && MayPrune(s.table, p.cutoff, p.respectSync, r.value.maxPrunedSequence)
      && r.value.archivedRows == |Prefix(s.table, r.value.maxPrunedSequence)| > 0
      && after == AfterDelete(s, r.value.maxPrunedSequence)
      && (forall kept :: kept in after.table && Chained(kept) ==> Key(kept) > r.value.maxPrunedSequence)
  {
    var bound := PruneBound(s.table, p.cutoff, p.respectSync);
    BoundIsGreatest(s.table, p.cutoff, p.respectSync);
    BoundIsSafe(s.table, p.cutoff, p.respectSync);
    BoundIsStored(h, s.table, p.cutoff, p.respectSync, row);
    CoveredPassCompletes(h, s, files, p);
    BoundHashed(h, s.table, bound);
    FilterElements(s.table, Survives(bound));
  }

  /** On a linked chain the bound of a pass that may prune a stored row is a stored row's too. */
  lemma BoundIsStored(h: Hasher, table: seq<Row>, cutoff: int, respectSync: bool, row: Row)
    requires Linked(h, Segment(table), StartOf(table), SeedOf(table))
    requires row in table && Chained(row) && MayPrune(table, cutoff, respectSync, Key(row))
    ensures PruneBound(table, cutoff, respectSync) >= Key(row)
    ensures RowAt(table, PruneBound(table, cutoff, respectSync)).Some?
  {
    var bound := PruneBound(table, cutoff, respectSync);
    BoundIsGreatest(table, cutoff, respectSync);
    BoundIsSafe(table, cutoff, respectSync);
    var aged :| aged in table && Chained(aged) && aged.content.timestamp < cutoff && Key(aged) >= bound;
    KeyInRange(h, table, row);
    KeyInRange(h, table, aged);
    BoundRow(h, table, bound);
  }

  lemma KeyInRange(h: Hasher, table: seq<Row>, row: Row)
    requires Linked(h, Segment(table), StartOf(table), SeedOf(table)) && row in table && Chained(row)
    ensures StartOf(table) < Key(row) <= StartOf(table) + |Segment(table)|
  {
    SegmentMembers(table);
    LinkedKeys(h, Segment(table), StartOf(table), SeedOf(table));
    assert row in Segment(table);
  }

  lemma CoveredPassCompletes(h: Hasher, s: Store, files: Files, p: Pass)
    requires Linked(h, Segment(s.table), StartOf(s.table), SeedOf(s.table)) && UniqueIds(s.table)
    requires (p.coldStorage ==> forall n :: p.env(n) == Written) && !p.crashBeforeDelete
    requires
      var bound := PruneBound(s.table, p.cutoff, p.respectSync);
      bound > 0 && p.covers(bound) && RowAt(s.table, bound).Some?
    ensures
      var bound := PruneBound(s.table, p.cutoff, p.respectSync);
      var (after, cold, r) := Pruned(h, s, files, p);
      && r.Ok? && r.value.maxPrunedSequence == bound && r.value.archivedRows == |Prefix(s.table, bound)| > 0
      && after == AfterDelete(s, bound)
  {
    var bound := PruneBound(s.table, p.cutoff, p.respectSync);
    var prefix := Prefix(s.table, bound);
    BoundRow(h, s.table, bound);
    PrefixProvable(h, s.table, bound - StartOf(s.table), bound);
    if p.coldStorage {
      assert [] + prefix == prefix;
      FlushesProvable(h, prefix, None, []);
      WrittenRun(h, files, Flushes(prefix, None, []), p.env, 0);
    }
    PrefixNotEmpty(s.table, bound);
    BoundHashed(h, s.table, bound);
  }

  lemma BoundHashed(h: Hasher, table: seq<Row>, bound: int)
    requires Linked(h, Segment(table), StartOf(table), SeedOf(table)) && RowAt(table, bound).Some?
    ensures RowAt(table, bound).value.recordHash.Some?
  {
    BoundRow(h, table, bound);
    LinkedAt(h, Segment(table), StartOf(table), SeedOf(table), bound - StartOf(table) - 1);
  }

  // ---------- Every run ----------

  datatype World = World(store: Store, files: Files, history: seq<Cold>)

  datatype Step =
    | AppendBatch(batch: seq<AuditRecord>)
    | MarkSynced(ids: set<Uuid>)
    | IncrementalVerify
    | PassOnce(pass: Pass)

  function Synced(ids: set<Uuid>): Row -> Row {
    (row: Row) => if row.content.id in ids then row.(synced := true) else row
  }

  /** The history gains every record that is appended; nothing ever leaves it. */
  function Next(h: Hasher, w: World, step: Step): World {
    match step
    case AppendBatch(batch) =>
      var after := AfterInsert(h, w.store, batch);
      if FreshIds(w.store.table, batch)
      then World(after, w.files, w.history + Map(after.table[|w.store.table|..], Archived)) else w
    case MarkSynced(ids) => w.(store := w.store.(table := Map(w.store.table, Synced(ids)), cache := None))
    case IncrementalVerify => w.(store := AfterIncremental(h, w.store))
    case PassOnce(pass) =>
      var (after, files, _) := Pruned(h, w.store, w.files, pass);
      World(after, files, w.history)
  }

  function Run(h: Hasher, w: World, steps: seq<Step>): World
    decreases |steps|
  {
    if steps == [] then w else Run(h, Next(h, w, steps[0]), steps[1..])
  }

  ghost predicate Active(table: seq<Row>, c: Cold) {
    exists i :: 0 <= i < |table| && Archived(table[i]) == c
  }

  /** Nothing that was ever appended is lost. */
  ghost predicate NoLoss(h: Hasher, w: World) {
    && OldestFirst(w.files)
    && forall i :: 0 <= i < |w.history| ==>
         Active(w.store.table, w.history[i]) || InProvenFrame(h, w.files, w.history[i])
  }

  /** A row a prune deletes was in the streamed prefix. */
  lemma DeletedInPrefix(table: seq<Row>, bound: int, row: Row)
    requires row in table && !Survives(bound)(row)
    ensures Archived(row) in Prefix(table, bound)
  {
    FilterElements(table, Chained);
    FilterElements(Filter(table, Chained), UpTo(bound));
    var rows := Sort(Filter(Filter(table, Chained), UpTo(bound)), KeyLeq);
    SortKeepsElements(Filter(Filter(table, Chained), UpTo(bound)), KeyLeq);
    assert row in rows;
    var k :| 0 <= k < |rows| && rows[k] == row;
    assert Prefix(table, bound)[k] == Archived(row);
  }

  /** A pass does nothing, only adds frames, or adds all of them and deletes. */
  lemma PassCases(h: Hasher, s: Store, files: Files, p: Pass)
    requires p.coldStorage
    ensures
      var cut := PruneBound(s.table, p.cutoff, p.respectSync);
      var flushed := RunFlushes(h, files, Flushes(Prefix(s.table, cut), None, []), p.env, 0);
      var pruned := Pruned(h, s, files, p);
      || (pruned.0 == s && pruned.1 == files)
      || (RowAt(s.table, cut).Some? && pruned.1 == flushed.0
          && (pruned.0 == s || (pruned.0 == AfterDelete(s, cut) && flushed.1.None?)))
  {
  }

  lemma PassKeeps(h: Hasher, w: World, p: Pass, c: Cold)
    requires OldestFirst(w.files) && p.coldStorage
    requires Active(w.store.table, c) || InProvenFrame(h, w.files, c)
    ensures
      var after := Next(h, w, PassOnce(p));
      OldestFirst(after.files) && (Active(after.store.table, c) || InProvenFrame(h, after.files, c))
  {
    var bound := PruneBound(w.store.table, p.cutoff, p.respectSync);
    var batches := Flushes(Prefix(w.store.table, bound), None, []);
    PassCases(h, w.store, w.files, p);
    RunKeepsProven(h, w.files, batches, p.env, 0, c);
    if !InProvenFrame(h, w.files, c) {
      var i :| 0 <= i < |w.store.table| && Archived(w.store.table[i]) == c;
      if RunFlushes(h, w.files, batches, p.env, 0).1.None? {
        ActiveOrArchived(h, w.store, w.files, batches, p.env, bound, i);
      }
    }
  }

  /** After a delete whose flushes all succeeded, each row survives or is in a proven frame. */
  lemma ActiveOrArchived(h: Hasher, s: Store, files: Files, batches: seq<Batch>, env: Env, bound: int, i: nat)
    requires OldestFirst(files) && i < |s.table| && batches == Flushes(Prefix(s.table, bound), None, [])
    requires RunFlushes(h, files, batches, env, 0).1.None?
    ensures Active(AfterDelete(s, bound).table, Archived(s.table[i]))
         || InProvenFrame(h, RunFlushes(h, files, batches, env, 0).0, Archived(s.table[i]))
  {
    var row := s.table[i];
    FilterElements(s.table, Survives(bound));
    if Survives(bound)(row) {
      var kept := AfterDelete(s, bound).table;
      assert row in kept;
      var j :| 0 <= j < |kept| && kept[j] == row;
    } else {
      DeletedInPrefix(s.table, bound, row);
      var k := FlushesCover(Prefix(s.table, bound), None, [], Archived(row));
      RunProves(h, files, batches, env, 0, k, Archived(row));
    }
  }

  predicate ColdOnly(steps: seq<Step>) {
    forall i :: 0 <= i < |steps| && steps[i].PassOnce? ==> steps[i].pass.coldStorage
  }

  lemma AppendKeeps(h: Hasher, w: World, batch: seq<AuditRecord>)
    requires NoLoss(h, w)
    ensures NoLoss(h, Next(h, w, AppendBatch(batch)))
  {
    if FreshIds(w.store.table, batch) {
      var rows := StampAll(h, batch, ChainHead(w.store.table).1, ChainHead(w.store.table).0);
      assert (w.store.table + rows)[|w.store.table|..] == rows;
      forall i | 0 <= i < |w.history|
        ensures Active(w.store.table + rows, w.history[i]) || InProvenFrame(h, w.files, w.history[i])
      {
        StillActive(w.store.table, rows, w.history[i]);
      }
      NewActive(w.store.table, rows);
    }
  }

  lemma StillActive(table: seq<Row>, rows: seq<Row>, c: Cold)
    ensures Active(table, c) ==> Active(table + rows, c)
  {
    if Active(table, c) {
      var j :| 0 <= j < |table| && Archived(table[j]) == c;
      assert (table + rows)[j] == table[j];
    }
  }

  lemma NewActive(table: seq<Row>, rows: seq<Row>)
    ensures forall i :: 0 <= i < |rows| ==> Active(table + rows, Map(rows, Archived)[i])
  {
    forall i | 0 <= i < |rows| ensures Active(table + rows, Map(rows, Archived)[i]) {
      assert (table + rows)[|table| + i] == rows[i];
    }
  }

  lemma SyncKeeps(h: Hasher, w: World, ids: set<Uuid>)
    requires NoLoss(h, w)
    ensures NoLoss(h, Next(h, w, MarkSynced(ids)))
  {
    var table := Next(h, w, MarkSynced(ids)).store.table;
    forall i | 0 <= i < |w.history| && Active(w.store.table, w.history[i]) ensures Active(table, w.history[i]) {
      var j :| 0 <= j < |w.store.table| && Archived(w.store.table[j]) == w.history[i];
      assert Archived(table[j]) == Archived(w.store.table[j]);
    }
  }

  /** With cold storage on, after any run of appends, sync acknowledgements, verification and passes
      that may crash between any two steps, every record ever appended is in the active table or in
      a proven frame of its date's file. */
  lemma {:induction false} NothingIsLost(h: Hasher, w: World, steps: seq<Step>)
    requires NoLoss(h, w) && ColdOnly(steps)
    ensures NoLoss(h, Run(h, w, steps))
    decreases |steps|
  {
    if steps != [] {
      var next := Next(h, w, steps[0]);
      match steps[0] {
        case AppendBatch(batch) => AppendKeeps(h, w, batch);
        case MarkSynced(ids) => SyncKeeps(h, w, ids);
        case IncrementalVerify =>
        case PassOnce(p) =>
          forall i | 0 <= i < |w.history|
            ensures Active(next.store.table, w.history[i]) || InProvenFrame(h, next.files, w.history[i])
          {
            PassKeeps(h, w, p, w.history[i]);
          }
          PassKeepsOrder(h, w, p);
      }
      NothingIsLost(h, next, steps[1..]);
    }
  }

  /** So it is from the first append on. */
  lemma NothingIsLostFromTheStart(h: Hasher, s: Store, steps: seq<Step>)
    requires ColdOnly(steps)
    ensures NoLoss(h, Run(h, World(s, [], []), steps))
  {
    NothingIsLost(h, World(s, [], []), steps);
  }

  lemma PassKeepsOrder(h: Hasher, w: World, p: Pass)
    requires OldestFirst(w.files)
    ensures OldestFirst(Next(h, w, PassOnce(p)).files)
  {
    var bound := PruneBound(w.store.table, p.cutoff, p.respectSync);
    RunKeepsOrder(h, w.files, Flushes(Prefix(w.store.table, bound), None, []), p.env, 0);
  }

  lemma {:induction false} RunKeepsOrder(h: Hasher, files: Files, batches: seq<Batch>, env: Env, n: nat)
    requires OldestFirst(files)
    ensures OldestFirst(RunFlushes(h, files, batches, env, n).0)
    decreases |batches|
  {
    if batches != [] {
      AddFrameMeaning(files, batches[0].date, batches[0].records, 0);
      RunKeepsOrder(h, FlushOutcome(h, files, batches[0], env(n)).0, batches[1..], env, n + 1);
    }
  }
}
