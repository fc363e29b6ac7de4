/** Every run of appends and crash-prone passes leaves archives from which a lost boundary can be
    recovered exactly (crates/grith-audit/src/retention.rs, storage.rs). */
module RecoveryRuns {
  import opened Basics
  import opened Records
  import opened Sorting
  import opened Chain
  import opened ChainStore
  import opened Anchoring
  import opened ColdFiles
  import opened Retention
  import opened RetentionRuns
  import opened BoundaryRecovery

  // ---------- What flushes do to the files ----------

  lemma {:induction false} AddFrameFrom(files: Files, date: int, frame: seq<Cold>, history: seq<Cold>)
    requires FilesFrom(files, history) && AllFrom(frame, history)
    ensures FilesFrom(AddFrame(files, date, frame), history)
  {
    LinesConcat([], [frame]);
    assert [frame][1..] == [] && frame + [] == frame;
    if files != [] && date >= files[0].date {
      if files[0].date == date {
        LinesConcat(files[0].frames, [frame]);
      } else {
        AddFrameFrom(files[1..], date, frame, history);
      }
    }
  }

  lemma {:induction false} RunFrom(h: Hasher, files: Files, batches: seq<Batch>, env: Env, n: nat, history: seq<Cold>)
    requires FilesFrom(files, history) && forall b :: b in batches ==> AllFrom(b.records, history)
    ensures FilesFrom(RunFlushes(h, files, batches, env, n).0, history)
    decreases |batches|
  {
    if batches != [] {
      assert batches[0] in batches;
      AddFrameFrom(files, batches[0].date, batches[0].records, history);
      RunFrom(h, FlushOutcome(h, files, batches[0], env(n)).0, batches[1..], env, n + 1, history);
    }
  }

  lemma {:induction false} BatchesFrom(rest: seq<Cold>, date: Option<int>, buffer: seq<Cold>, history: seq<Cold>)
    requires buffer != [] ==> date.Some?
    requires AllFrom(rest, history) && AllFrom(buffer, history)
    ensures forall b :: b in Flushes(rest, date, buffer) ==> AllFrom(b.records, history)
    decreases |rest|
  {
    if rest != [] {
      var next := DateOf(rest[0]);
      var full := (if buffer != [] && date.value != next then [] else buffer) + [rest[0]];
      assert rest[0] in rest;
      if |full| >= ARCHIVE_BATCH_RECORDS {
        BatchesFrom(rest[1..], Some(next), [], history);
      } else {
        BatchesFrom(rest[1..], Some(next), full, history);
      }
    }
  }

  lemma {:induction false} RunKeepsLines(
    h: Hasher, files: Files, batches: seq<Batch>, env: Env, n: nat, date: int, c: Cold)
    requires OldestFirst(files) && c in LinesOf(files, date)
    ensures c in LinesOf(RunFlushes(h, files, batches, env, n).0, date)
    decreases |batches|
  {
    if batches != [] {
      AddFrameMeaning(files, batches[0].date, batches[0].records, date);
      AddFrameLines(files, batches[0].date, batches[0].records, date);
      RunKeepsLines(h, FlushOutcome(h, files, batches[0], env(n)).0, batches[1..], env, n + 1, date, c);
    }
  }

  lemma {:induction false} FileOfLine(files: Files, date: int, c: Cold) returns (i: nat)
    requires c in LinesOf(files, date)
    ensures i < |files| && c in Lines(files[i].frames)
  {
    if files[0].date == date {
      i := 0;
    } else {
      var j := FileOfLine(files[1..], date, c);
      i := j + 1;
    }
  }

  // ---------- The invariant ----------

  /** The archived part of the history is in its files, the rest is the active segment, and the
      files hold nothing else. */
  ghost predicate Recoverable(h: Hasher, w: World) {
    && Grounded(h, w.store)
    && ColdLinked(h, w.history, 0, None)
    && StartOf(w.store.table) <= |w.history|
    && Map(Segment(w.store.table), Archived) == w.history[StartOf(w.store.table)..]
    && (w.history != [] ==> Segment(w.store.table) != [])
    && ArchivesHold(w.files, w.history, StartOf(w.store.table))
  }

  ghost predicate ArchivesHold(files: Files, history: seq<Cold>, pruned: int)
    requires pruned <= |history|
  {
    && OldestFirst(files) && FilesFrom(files, history)
    && forall i :: 0 <= i < pruned ==> history[i] in LinesOf(files, DateOf(history[i]))
  }

  /** The lost boundary is what the archives give back. */
  lemma RecoversBoundary(h: Hasher, w: World)
    requires Recoverable(h, w) && Segment(w.store.table) != []
    ensures
      var first := Segment(w.store.table)[0];
      var r := ResolveBoundary(h, w.files, Key(first), first.prevHash);
      if StartOf(w.store.table) == 0 then r == NotNeeded
      else w.store.boundary.Some? && r == Resolved(w.store.boundary.value)
  {
    var k := StartOf(w.store.table);
    if k > 0 {
      var i := FileOfLine(w.files, DateOf(w.history[k - 1]), w.history[k - 1]);
      ColdLinkedAt(h, w.history, 0, None, k);
      assert Map(Segment(w.store.table), Archived)[0] == w.history[k];
      SearchResolves(h, w.history, w.files, k - 1);
    }
  }

  // ---------- Each step ----------

  ghost predicate Allowed(w: World, step: Step) {
    step.PassOnce? ==>
      && step.pass.coldStorage
      && PruneBound(w.store.table, step.pass.cutoff, step.pass.respectSync) != ChainHead(w.store.table).1
  }

  ghost predicate AllowedRun(h: Hasher, w: World, steps: seq<Step>)
    decreases |steps|
  {
    steps == [] || (Allowed(w, steps[0]) && AllowedRun(h, Next(h, w, steps[0]), steps[1..]))
  }

  lemma GrowFrom(files: Files, history: seq<Cold>, more: seq<Cold>, pruned: int)
    requires pruned <= |history| && ArchivesHold(files, history, pruned)
    ensures ArchivesHold(files, history + more, pruned)
  {
    forall i | 0 <= i < |files| ensures AllFrom(Lines(files[i].frames), history + more) {
    }
  }

  lemma AppendRecoverable(h: Hasher, w: World, batch: seq<AuditRecord>)
    requires Recoverable(h, w)
    ensures Recoverable(h, RetentionRuns.Next(h, w, AppendBatch(batch)))
  {
    if FreshIds(w.store.table, batch) {
      var (prev, last) := ChainHead(w.store.table);
      var rows := StampAll(h, batch, last, prev);
      StampAllLinked(h, batch, last, prev);
      AppendGrounded(h, w.store, rows);
      assert (w.store.table + rows)[|w.store.table|..] == rows;
      HistoryGrows(h, w, rows);
    }
  }

  lemma HistoryGrows(h: Hasher, w: World, rows: seq<Row>)
    requires Recoverable(h, w) && Linked(h, rows, ChainHead(w.store.table).1, ChainHead(w.store.table).0)
    requires Grounded(h, w.store.(table := w.store.table + rows))
    requires Segment(w.store.table + rows) == Segment(w.store.table) + rows
    requires Segment(w.store.table) != [] ==> StartOf(w.store.table + rows) == StartOf(w.store.table)
    ensures Recoverable(h,
      World(w.store.(table := w.store.table + rows, cache := None), w.files, w.history + Map(rows, Archived)))
  {
    var k := StartOf(w.store.table);
    var cold := Map(rows, Archived);
    HistoryLinked(h, w, rows);
    TailGrows(Segment(w.store.table), rows, w.history, k);
    GrowFrom(w.files, w.history, cold, k);
    if Segment(w.store.table) == [] && rows != [] {
      HeadOf(h, w.store.table);
      LinkedStart(h, w.store.table + rows, 0, None);
    }
  }

  lemma TailGrows(segment: seq<Row>, rows: seq<Row>, history: seq<Cold>, k: nat)
    requires k <= |history| && Map(segment, Archived) == history[k..]
    ensures Map(segment + rows, Archived) == (history + Map(rows, Archived))[k..]
  {
    MapConcat(segment, rows, Archived);
    DropConcat(history, Map(rows, Archived), k);
  }

  lemma DropConcat(a: seq<Cold>, b: seq<Cold>, k: nat)
    requires k <= |a|
    ensures (a + b)[k..] == a[k..] + b
  {
  }

  lemma TailShrinks(segment: seq<Row>, history: seq<Cold>, start: nat, k: nat, cut: nat)
    requires start <= |history| && Map(segment, Archived) == history[start..] && k <= |segment| && cut == start + k
    ensures cut <= |history| && Map(segment[k..], Archived) == history[cut..]
  {
    MapTake(segment, k);
    assert history[start..][k..] == history[cut..];
  }

  lemma HistoryLinked(h: Hasher, w: World, rows: seq<Row>)
    requires Recoverable(h, w) && Linked(h, rows, ChainHead(w.store.table).1, ChainHead(w.store.table).0)
    ensures ColdLinked(h, w.history + Map(rows, Archived), 0, None)
  {
    HistoryEnd(h, w);
    ArchivedLinked(h, rows, ChainHead(w.store.table).1, ChainHead(w.store.table).0);
    var (prev, last) := ChainHead(w.store.table);
    ColdLinkedConcat(h, w.history, Map(rows, Archived), 0, None, last, prev);
  }

  /** The head of the table is the end of the history. */
  lemma HistoryEnd(h: Hasher, w: World)
    requires Recoverable(h, w)
    ensures ChainHead(w.store.table).1 == |w.history|
    ensures ChainHead(w.store.table).0 == if w.history == [] then None else w.history[|w.history| - 1].recordHash
  {
    var rows := Segment(w.store.table);
    HeadOf(h, w.store.table);
    EndHashIsLast(rows, SeedOf(w.store.table));
    assert |Map(rows, Archived)| == |rows|;
    if rows != [] {
      assert Map(rows, Archived)[|rows| - 1] == w.history[|w.history| - 1];
    }
  }

  lemma SyncedLinked(h: Hasher, rows: seq<Row>, ids: set<Uuid>, start: int, seed: Option<string>)
    requires Linked(h, rows, start, seed)
    ensures Linked(h, Map(rows, Synced(ids)), start, seed)
    ensures Map(Map(rows, Synced(ids)), Archived) == Map(rows, Archived)
  {
    if rows != [] {
      SyncedLinked(h, rows[1..], ids, start + 1, rows[0].recordHash);
      assert Map(rows, Synced(ids))[1..] == Map(rows[1..], Synced(ids));
    }
  }

  lemma SyncRecoverable(h: Hasher, w: World, ids: set<Uuid>)
    requires Recoverable(h, w)
    ensures Recoverable(h, RetentionRuns.Next(h, w, MarkSynced(ids)))
  {
    var table := w.store.table;
    SyncedSegment(table, ids);
    SyncedLinked(h, Segment(table), ids, StartOf(table), SeedOf(table));
    if Segment(table) != [] {
      LinkedStart(h, Map(table, Synced(ids)), StartOf(table), SeedOf(table));
    }
  }

  lemma SyncedSegment(table: seq<Row>, ids: set<Uuid>)
    ensures Segment(Map(table, Synced(ids))) == Map(Segment(table), Synced(ids))
  {
    FilterMap(table, Chained, Synced(ids));
    SortMap(Filter(table, Chained), KeyLeq, Synced(ids));
  }

  /** Whatever a pass's flushes come to, the archives still hold what they must. */
  lemma FlushesRecoverable(h: Hasher, w: World, k: nat, cut: int, env: Env)
    requires Recoverable(h, w) && 0 < k <= |Segment(w.store.table)| && cut == StartOf(w.store.table) + k
    ensures
      var (after, error) := RunFlushes(h, w.files, Flushes(Prefix(w.store.table, cut), None, []), env, 0);
      && ArchivesHold(after, w.history, StartOf(w.store.table))
      && (error.None? ==> cut <= |w.history| && ArchivesHold(after, w.history, cut))
  {
    var prefix := Prefix(w.store.table, cut);
    var batches := Flushes(prefix, None, []);
    var start := StartOf(w.store.table);
    PrefixIs(h, w.store.table, k, cut);
    PrefixOfHistory(w, k, prefix);
    BatchesFrom(prefix, None, [], w.history);
    RunHolds(h, w.files, w.history, batches, env, start);
    if RunFlushes(h, w.files, batches, env, 0).1.None? {
      PrefixHeld(h, w.files, w.history, prefix, env, start, cut);
    }
  }

  /** Batches of known records, written or not, keep what the archives hold. */
  lemma RunHolds(h: Hasher, files: Files, history: seq<Cold>, batches: seq<Batch>, env: Env, start: nat)
    requires start <= |history| && ArchivesHold(files, history, start)
    requires forall b :: b in batches ==> AllFrom(b.records, history)
    ensures ArchivesHold(RunFlushes(h, files, batches, env, 0).0, history, start)
  {
    RunFrom(h, files, batches, env, 0, history);
    RunKeepsOrder(h, files, batches, env, 0);
    forall i | 0 <= i < start
      ensures history[i] in LinesOf(RunFlushes(h, files, batches, env, 0).0, DateOf(history[i]))
    {
      RunKeepsLines(h, files, batches, env, 0, DateOf(history[i]), history[i]);
    }
  }

  /** Once all batches of a prefix are written, the archives hold the prefix too. */
  lemma PrefixHeld(
    h: Hasher, files: Files, history: seq<Cold>, prefix: seq<Cold>, env: Env, start: nat, cut: nat)
    requires start <= cut <= |history| && |prefix| == cut - start && OldestFirst(files)
    requires forall j :: 0 <= j < cut - start ==> prefix[j] == history[start + j]
    requires RunFlushes(h, files, Flushes(prefix, None, []), env, 0).1.None?
    requires ArchivesHold(RunFlushes(h, files, Flushes(prefix, None, []), env, 0).0, history, start)
    ensures ArchivesHold(RunFlushes(h, files, Flushes(prefix, None, []), env, 0).0, history, cut)
  {
    forall i | start <= i < cut
      ensures history[i] in LinesOf(RunFlushes(h, files, Flushes(prefix, None, []), env, 0).0, DateOf(history[i]))
    {
      assert prefix[i - start] == history[i];
      FlushedLine(h, files, prefix, env, history[i]);
    }
  }

  lemma PrefixOfHistory(w: World, k: nat, prefix: seq<Cold>)
    requires 0 <= StartOf(w.store.table) <= |w.history| && k <= |Segment(w.store.table)|
    requires Map(Segment(w.store.table), Archived) == w.history[StartOf(w.store.table)..]
    requires prefix == Map(Segment(w.store.table), Archived)[..k]
    ensures AllFrom(prefix, w.history) && StartOf(w.store.table) + k <= |w.history| && |prefix| == k
    ensures forall j :: 0 <= j < k ==> prefix[j] == w.history[StartOf(w.store.table) + j]
  {
    assert |Map(Segment(w.store.table), Archived)| == |Segment(w.store.table)|;
    forall c | c in prefix ensures c in w.history {
      var j :| 0 <= j < |prefix| && prefix[j] == c;
      assert w.history[StartOf(w.store.table) + j] == c;
    }
  }

  lemma FlushedLine(h: Hasher, files: Files, prefix: seq<Cold>, env: Env, c: Cold)
    requires OldestFirst(files) && c in prefix
    requires RunFlushes(h, files, Flushes(prefix, None, []), env, 0).1.None?
    ensures c in LinesOf(RunFlushes(h, files, Flushes(prefix, None, []), env, 0).0, DateOf(c))
  {
    RunAddsAll(h, files, Flushes(prefix, None, []), env, 0);
    FlushesSort(files, prefix, None, [], DateOf(c));
    FilterElements(prefix, OnDate(DateOf(c)));
  }

  lemma PassRecoverable(h: Hasher, w: World, p: Pass)
    requires Recoverable(h, w) && Allowed(w, PassOnce(p))
    ensures Recoverable(h, RetentionRuns.Next(h, w, PassOnce(p)))
  {
    var cut := PruneBound(w.store.table, p.cutoff, p.respectSync);
    var k := cut - StartOf(w.store.table);
    BoundRow(h, w.store.table, cut);
    HeadOf(h, w.store.table);
    PassCases(h, w.store, w.files, p);
    var (after, files, _) := Pruned(h, w.store, w.files, p);
    assert RetentionRuns.Next(h, w, PassOnce(p)) == World(after, files, w.history);
    if 0 < k < |Segment(w.store.table)| {
      FlushesRecoverable(h, w, k, cut, p.env);
      DeletedRecoverable(h, w, k, cut,
        RunFlushes(h, w.files, Flushes(Prefix(w.store.table, cut), None, []), p.env, 0).0);
    }
  }

  lemma DeletedRecoverable(h: Hasher, w: World, k: nat, cut: int, after: Files)
    requires Recoverable(h, w) && 0 < k < |Segment(w.store.table)| && cut == StartOf(w.store.table) + k
    requires ArchivesHold(after, w.history, StartOf(w.store.table))
    ensures Recoverable(h, w.(files := after))
    ensures cut <= |w.history| && ArchivesHold(after, w.history, cut) ==>
      Recoverable(h, World(AfterDelete(w.store, cut), after, w.history))
  {
    CutRecoverable(h, w, k, cut);
  }

  /** The delete moves the line between the archives and the active segment. */
  lemma CutRecoverable(h: Hasher, w: World, k: nat, cut: int)
    requires Recoverable(h, w) && 0 < k < |Segment(w.store.table)| && cut == StartOf(w.store.table) + k
    ensures
      var after := AfterDelete(w.store, cut);
      && Grounded(h, after) && StartOf(after.table) == cut <= |w.history|
      && Segment(after.table) != []
      && Map(Segment(after.table), Archived) == w.history[cut..]
  {
    var rows := Segment(w.store.table);
    var after := AfterDelete(w.store, cut);
    PruneGrounded(h, w.store, cut);
    PruneCuts(h, w.store, k, cut);
    LinkedSplit(h, rows, StartOf(w.store.table), SeedOf(w.store.table), k);
    LinkedStart(h, after.table, cut, rows[k - 1].recordHash);
    TailShrinks(rows, w.history, StartOf(w.store.table), k, cut);
  }

  /** In every state of every run whose passes leave at least one row, a store that lost both its
      checkpoint and its boundary gets back, from the archives alone, exactly the boundary it lost. */
  lemma {:induction false} LostBoundaryRecovered(h: Hasher, w: World, steps: seq<Step>)
    requires Recoverable(h, w) && AllowedRun(h, w, steps)
    ensures
      var end := RetentionRuns.Run(h, w, steps);
      && Recoverable(h, end)
      && (StartOf(end.store.table) > 0 ==>
            var first := Segment(end.store.table)[0];
            && end.store.boundary.Some?
            && ResolveBoundary(h, end.files, Key(first), first.prevHash) == Resolved(end.store.boundary.value))
    decreases |steps|
  {
    if steps == [] {
      if StartOf(w.store.table) > 0 {
        RecoversBoundary(h, w);
      }
    } else {
      match steps[0] {
        case AppendBatch(batch) => AppendRecoverable(h, w, batch);
        case MarkSynced(ids) => SyncRecoverable(h, w, ids);
        case IncrementalVerify =>
        case PassOnce(p) => PassRecoverable(h, w, p);
      }
      LostBoundaryRecovered(h, RetentionRuns.Next(h, w, steps[0]), steps[1..]);
    }
  }

  /** So it is in every such run from a database no chained row was ever written to. */
  lemma RecoveredFromTheStart(h: Hasher, s: Store, steps: seq<Step>)
    requires NeverChained(s) && AllowedRun(h, World(s, [], []), steps)
    ensures Recoverable(h, RetentionRuns.Run(h, World(s, [], []), steps))
  {
    NoSegmentYet(s);
    LostBoundaryRecovered(h, World(s, [], []), steps);
  }
}
