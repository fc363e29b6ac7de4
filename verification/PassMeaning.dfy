/** What a retention pass of crates/grith-audit/src/retention.rs proves of a frame, which files its records
    land in, and that no record leaves the table before the server has seen it. */
module PassMeaning {
  import opened Basics
  import opened Records
  import opened Sorting
  import opened Chain
  import opened ChainStore
  import opened ColdFiles
  import opened Retention
  import opened RetentionRuns

  // ---------- The proof of a frame ----------

  /** The last line with this id: the one a later line has not replaced. */
  predicate LastWithId(frame: seq<Cold>, k: int, id: Uuid) {
    0 <= k < |frame| && frame[k].content.id == id && forall l :: k < l < |frame| ==> frame[l].content.id != id
  }

  /** Line `k` stands for the record: the same id and stored hash, and its own content and place give that
      hash. */
  predicate StandsFor(h: Hasher, frame: seq<Cold>, k: int, c: Cold) {
    && LastWithId(frame, k, c.content.id) && frame[k].recordHash == c.recordHash
    && frame[k].chainSequence.Some?
    && frame[k].recordHash == Some(h(frame[k].content, frame[k].chainSequence.value, frame[k].prevHash))
  }

  lemma {:induction false} FindsLast(frame: seq<Cold>, id: Uuid) returns (k: int)
    ensures LastById(frame, id).Some? ==> LastWithId(frame, k, id) && LastById(frame, id) == Some(frame[k])
    ensures LastById(frame, id).None? ==> forall l :: 0 <= l < |frame| ==> frame[l].content.id != id
  {
    k := |frame| - 1;
    if frame != [] && frame[k].content.id != id {
      var last := k;
      k := FindsLast(frame[..last], id);
      assert forall l :: 0 <= l < last ==> frame[l] == frame[..last][l];
    }
  }

  lemma VouchedIff(h: Hasher, frame: seq<Cold>, c: Cold)
    ensures Vouches(h, LastById(frame, c.content.id), c) <==> exists k :: StandsFor(h, frame, k, c)
  {
    var k := FindsLast(frame, c.content.id);
    if Vouches(h, LastById(frame, c.content.id), c) {
      assert StandsFor(h, frame, k, c);
    }
    if exists l :: StandsFor(h, frame, l, c) {
      var l :| StandsFor(h, frame, l, c);
      assert LastById(frame, c.content.id).Some? && l == k;
    }
  }

  /** A frame is accepted exactly when a line stands for every record it was to hold. */
  lemma ProvesIff(h: Hasher, frame: seq<Cold>, expected: seq<Cold>)
    ensures Proves(h, frame, expected) <==> forall c :: c in expected ==> exists k :: StandsFor(h, frame, k, c)
  {
    forall c | c in expected
      ensures Vouches(h, LastById(frame, c.content.id), c) <==> exists k :: StandsFor(h, frame, k, c)
    {
      VouchedIff(h, frame, c);
    }
    assert forall i :: 0 <= i < |expected| ==> expected[i] in expected;
    if Proves(h, frame, expected) {
      forall c | c in expected ensures exists k :: StandsFor(h, frame, k, c) {
        var i :| 0 <= i < |expected| && expected[i] == c;
        assert Vouches(h, LastById(frame, expected[i].content.id), expected[i]);
      }
    }
  }

  // ---------- Where the records of a pass land ----------

  /** A cold file of the record's day with the record in one of its frames. */
  ghost predicate FiledByDay(files: Files, c: Cold) {
    exists i, j ::
      && 0 <= i < |files| && 0 <= j < |files[i].frames| && c in files[i].frames[j]
      && files[i].date * 86_400_000_000_000 <= c.content.timestamp < (files[i].date + 1) * 86_400_000_000_000
  }

  lemma {:induction false} FramesOfFile(files: Files, date: int) returns (i: int)
    ensures FramesOf(files, date) == [] || (0 <= i < |files| && files[i].date == date
                                            && files[i].frames == FramesOf(files, date))
  {
    i := 0;
    if files != [] && files[0].date != date {
      var j := FramesOfFile(files[1..], date);
      i := j + 1;
    }
  }

  lemma ProvenIsFiled(h: Hasher, files: Files, c: Cold)
    requires InProvenFrame(h, files, c)
    ensures FiledByDay(files, c)
  {
    var date := DateOf(c);
    var frames := FramesOf(files, date);
    var j :| 0 <= j < |frames| && FrameVouches(h, frames[j], c);
    var i := FramesOfFile(files, date);
    assert files[i].frames[j] == frames[j];
  }

  /** Every record a completed pass deletes is in a file of its own day, in a frame where it is vouched for,
      and the pass reports as many files as its records have days. */
  lemma PassFiles(h: Hasher, s: Store, files: Files, p: Pass)
    requires OldestFirst(files) && p.coldStorage
    requires Pruned(h, s, files, p).2.Ok? && Pruned(h, s, files, p).2.value.archivedRows > 0
    ensures
      var (after, cold, r) := Pruned(h, s, files, p);
      && (forall row :: row in s.table && row !in after.table ==>
            FiledByDay(cold, Archived(row)) && InProvenFrame(h, cold, Archived(row)))
      && r.value.archiveFiles == |set c | c in Prefix(s.table, r.value.maxPrunedSequence) :: DateOf(c)|
  {
    var (after, cold, r) := Pruned(h, s, files, p);
    var bound := r.value.maxPrunedSequence;
    var batches := Flushes(Prefix(s.table, bound), None, []);
    DatesMean(Prefix(s.table, bound));
    forall row | row in s.table && row !in after.table
      ensures FiledByDay(cold, Archived(row)) && InProvenFrame(h, cold, Archived(row))
    {
      FilterElements(s.table, Survives(bound));
      DeletedInPrefix(s.table, bound, row);
      var k := FlushesCover(Prefix(s.table, bound), None, [], Archived(row));
      RunProves(h, files, batches, p.env, 0, k, Archived(row));
      ProvenIsFiled(h, cold, Archived(row));
    }
  }

  lemma {:induction false} DatesMean(records: seq<Cold>)
    ensures DatesOf(records) == set c | c in records :: DateOf(c)
  {
    if records != [] {
      DatesMean(records[1..]);
      assert records == [records[0]] + records[1..];
    }
  }

  // ---------- Only what the server has seen leaves ----------

  ghost function Acknowledged(steps: seq<Step>): set<Uuid>
    decreases |steps|
  {
    if steps == [] then {} else (if steps[0].MarkSynced? then steps[0].ids else {}) + Acknowledged(steps[1..])
  }

  ghost predicate RespectsSync(steps: seq<Step>) {
    forall i :: 0 <= i < |steps| && steps[i].PassOnce? ==> steps[i].pass.respectSync
  }

  /** Only acknowledged rows are marked, and every record that is gone was acknowledged. */
  ghost predicate SeenFirst(w: World, seen: set<Uuid>) {
    && (forall i :: 0 <= i < |w.store.table| && w.store.table[i].synced ==> w.store.table[i].content.id in seen)
    && (forall i :: 0 <= i < |w.history| ==>
          Active(w.store.table, w.history[i]) || w.history[i].content.id in seen)
  }

  lemma AppendSeen(h: Hasher, w: World, batch: seq<AuditRecord>, seen: set<Uuid>)
    requires SeenFirst(w, seen)
    ensures SeenFirst(Next(h, w, AppendBatch(batch)), seen)
  {
    if FreshIds(w.store.table, batch) {
      var rows := StampAll(h, batch, ChainHead(w.store.table).1, ChainHead(w.store.table).0);
      assert (w.store.table + rows)[|w.store.table|..] == rows;
      StampedUnsynced(h, batch, ChainHead(w.store.table).1, ChainHead(w.store.table).0);
      forall i | 0 <= i < |w.history|
        ensures Active(w.store.table + rows, w.history[i]) || w.history[i].content.id in seen
      {
        StillActive(w.store.table, rows, w.history[i]);
      }
      NewActive(w.store.table, rows);
    }
  }

  lemma {:induction false} StampedUnsynced(h: Hasher, batch: seq<AuditRecord>, last: int, prev: Option<string>)
    ensures forall i :: 0 <= i < |batch| ==> !StampAll(h, batch, last, prev)[i].synced
  {
    if batch != [] {
      StampedUnsynced(h, batch[1..], last + 1, Stamp(h, batch[0], last + 1, prev).recordHash);
    }
  }

  lemma SyncSeen(h: Hasher, w: World, ids: set<Uuid>, seen: set<Uuid>)
    requires SeenFirst(w, seen)
    ensures SeenFirst(Next(h, w, MarkSynced(ids)), seen + ids)
  {
    var table := Next(h, w, MarkSynced(ids)).store.table;
    forall i | 0 <= i < |w.history| && Active(w.store.table, w.history[i]) ensures Active(table, w.history[i]) {
      var j :| 0 <= j < |w.store.table| && Archived(w.store.table[j]) == w.history[i];
      assert Archived(table[j]) == Archived(w.store.table[j]);
    }
  }

  lemma DeleteSeen(s: Store, bound: int, seen: set<Uuid>, c: Cold)
    requires forall i :: 0 <= i < |s.table| && s.table[i].synced ==> s.table[i].content.id in seen
    requires forall row :: row in s.table && Chained(row) && Key(row) <= bound ==> row.synced
    requires Active(s.table, c)
    ensures Active(AfterDelete(s, bound).table, c) || c.content.id in seen
  {
    var i :| 0 <= i < |s.table| && Archived(s.table[i]) == c;
    var kept := AfterDelete(s, bound).table;
    FilterElements(s.table, Survives(bound));
    if s.table[i] in kept {
      var j :| 0 <= j < |kept| && kept[j] == s.table[i];
      assert Archived(kept[j]) == c;
    } else {
      assert s.table[i] in s.table;
    }
  }

  lemma KeptRows(s: Store, bound: int)
    ensures forall row :: row in AfterDelete(s, bound).table ==> row in s.table
  {
    FilterElements(s.table, Survives(bound));
  }

  lemma PassSeen(h: Hasher, w: World, p: Pass, seen: set<Uuid>)
    requires SeenFirst(w, seen) && p.respectSync
    ensures SeenFirst(Next(h, w, PassOnce(p)), seen)
  {
    var bound := PruneBound(w.store.table, p.cutoff, p.respectSync);
    var after := Next(h, w, PassOnce(p)).store;
    BoundIsSafe(w.store.table, p.cutoff, p.respectSync);
    assert after == w.store || (bound > 0 && after == AfterDelete(w.store, bound));
    if after != w.store {
      KeptRows(w.store, bound);
      forall i | 0 <= i < |after.table| && after.table[i].synced ensures after.table[i].content.id in seen {
        assert after.table[i] in after.table;
        var j :| 0 <= j < |w.store.table| && w.store.table[j] == after.table[i];
      }
      forall i | 0 <= i < |w.history| ensures Active(after.table, w.history[i]) || w.history[i].content.id in seen {
        if Active(w.store.table, w.history[i]) {
          DeleteSeen(w.store, bound, seen, w.history[i]);
        }
      }
    }
  }

  /** While every pass respects the sync state, whatever crashes: a record that has left the table was
      acknowledged by the server before. */
  lemma {:induction false} OnlySeenLeave(h: Hasher, w: World, steps: seq<Step>, seen: set<Uuid>)
    requires SeenFirst(w, seen) && RespectsSync(steps)
    ensures SeenFirst(Run(h, w, steps), seen + Acknowledged(steps))
    decreases |steps|
  {
    if steps == [] {
      assert seen + {} == seen;
    } else {
      var next := Next(h, w, steps[0]);
      var ids := if steps[0].MarkSynced? then steps[0].ids else {};
      match steps[0] {
        case AppendBatch(batch) => AppendSeen(h, w, batch, seen);
        case MarkSynced(marked) => SyncSeen(h, w, marked, seen);
        case IncrementalVerify =>
        case PassOnce(p) => PassSeen(h, w, p, seen);
      }
      assert seen + ids + Acknowledged(steps[1..]) == seen + Acknowledged(steps);
      assert steps[0].MarkSynced? || seen + ids == seen;
      OnlySeenLeave(h, next, steps[1..], seen + ids);
    }
  }

  /** From an empty database: every record ever appended is active or was acknowledged. */
  lemma OnlySeenLeaveFromTheStart(h: Hasher, steps: seq<Step>)
    requires RespectsSync(steps)
    ensures
      var end := Run(h, World(Store([], None, None, None), [], []), steps);
      forall i :: 0 <= i < |end.history| ==>
        Active(end.store.table, end.history[i]) || end.history[i].content.id in Acknowledged(steps)
  {
    OnlySeenLeave(h, World(Store([], None, None, None), [], []), steps, {});
    assert {} + Acknowledged(steps) == Acknowledged(steps);
  }
}
