/** The prune-and-archive pass of crates/grith-audit/src/retention.rs: archive, prove, then delete.
    The file system and crashes are an environment that answers each append. */
module Retention {
  import opened Basics
  import opened Records
  import opened Sorting
  import opened Chain
  import opened ChainStore
  import opened ColdFiles
  import opened Storage

  /** What becomes of one append: a frame is written whole or not at all, and the process may stop
      on either side of it. */
  datatype Append = Written | WroteNothing | CrashBefore | CrashAfter

  /** The environment's answer to the n-th append of a pass. */
  type Env = nat -> Append

  datatype RetentionError = Crashed | NothingWritten | ProofFailed | StorageFailed

  datatype PruneStats = PruneStats(archivedRows: nat, archiveFiles: nat, maxPrunedSequence: int)

  const NOTHING_PRUNED := PruneStats(0, 0, 0)

  // ---------- Proof of a frame ----------

  /** The stored hash is the one the record's own content gives. */
  predicate Authentic(h: Hasher, c: Cold) {
    c.chainSequence.Some? && c.recordHash == Some(h(c.content, c.chainSequence.value, c.prevHash))
  }

  /** The last line of a frame with this id. */
  function LastById(frame: seq<Cold>, id: Uuid): Option<Cold> {
    if frame == [] then None
    else if frame[|frame| - 1].content.id == id then Some(frame[|frame| - 1])
    else LastById(frame[..|frame| - 1], id)
  }

  predicate Vouches(h: Hasher, found: Option<Cold>, c: Cold) {
    found.Some? && found.value.recordHash == c.recordHash && Authentic(h, found.value)
  }

  predicate Proves(h: Hasher, frame: seq<Cold>, expected: seq<Cold>) {
    forall i :: 0 <= i < |expected| ==> Vouches(h, LastById(frame, expected[i].content.id), expected[i])
  }

  method ProveArchivedFrame(h: Hasher, frame: seq<Cold>, expected: seq<Cold>) returns (ok: bool)
    ensures ok <==> Proves(h, frame, expected)
  {
    var byId: map<Uuid, Cold> := map[];
    for i := 0 to |frame|
      invariant forall id :: LastById(frame[..i], id) == if id in byId then Some(byId[id]) else None
    {
      assert frame[..i + 1][..i] == frame[..i] && frame[..i + 1][i] == frame[i];
      byId := byId[frame[i].content.id := frame[i]];
    }
    assert frame[..|frame|] == frame;
    for i := 0 to |expected|
      invariant Proves(h, frame, expected[..i])
    {
      var id := expected[i].content.id;
      assert !Vouches(h, LastById(frame, id), expected[i]) ==> !Proves(h, frame, expected);
      if id !in byId {
        return false;
      }
      if byId[id].recordHash != expected[i].recordHash || !Authentic(h, byId[id]) {
        return false;
      }
    }
    ok := true;
  }

  lemma {:induction false} LastByIdMember(frame: seq<Cold>, id: Uuid)
    ensures LastById(frame, id).Some?
      ==> LastById(frame, id).value in frame && LastById(frame, id).value.content.id == id
  {
    if frame != [] && frame[|frame| - 1].content.id != id {
      LastByIdMember(frame[..|frame| - 1], id);
    }
  }

  // ---------- Writing batches ----------

  /** One flush: append, then prove what was appended. */
  function FlushOutcome(h: Hasher, files: Files, b: Batch, answer: Append): (Files, Option<RetentionError>) {
    match answer
    case CrashBefore => (files, Some(Crashed))
    case WroteNothing => (files, Some(NothingWritten))
    case CrashAfter => (AddFrame(files, b.date, b.records), Some(Crashed))
    case Written =>
      (AddFrame(files, b.date, b.records), if Proves(h, b.records, b.records) then None else Some(ProofFailed))
  }

  function RunFlushes(h: Hasher, files: Files, batches: seq<Batch>, env: Env, n: nat): (Files, Option<RetentionError>)
    decreases |batches|
  {
    if batches == [] then (files, None)
    else
      var (after, error) := FlushOutcome(h, files, batches[0], env(n));
      if error.Some? then (after, error) else RunFlushes(h, after, batches[1..], env, n + 1)
  }

  lemma RunFirst(h: Hasher, files: Files, b: Batch, later: seq<Batch>, env: Env, n: nat)
    ensures RunFlushes(h, files, [b] + later, env, n) ==
      var (after, error) := FlushOutcome(h, files, b, env(n));
      if error.Some? then (after, error) else RunFlushes(h, after, later, env, n + 1)
    ensures [b] + [] == [b]
  {
    assert ([b] + later)[1..] == later;
  }

  function PushedFrom(record: Cold, rest: seq<Cold>, held: seq<Cold>): seq<Batch> {
    if |held + [record]| >= ARCHIVE_BATCH_RECORDS
    then [Batch(DateOf(record), held + [record])] + Flushes(rest, Some(DateOf(record)), [])
    else Flushes(rest, Some(DateOf(record)), held + [record])
  }

  /** The flushes that pushing one record takes. */
  lemma PushUnfolds(record: Cold, rest: seq<Cold>, date: Option<int>, buffer: seq<Cold>)
    requires buffer != [] ==> date.Some?
    ensures
      var all := [record] + rest;
      Flushes(all, date, buffer) ==
        if buffer != [] && date.value != DateOf(record) then [Batch(date.value, buffer)] + FlushesFrom(all, [])
        else FlushesFrom(all, buffer)
    ensures forall held :: FlushesFrom([record] + rest, held) == PushedFrom(record, rest, held)
  {
    assert ([record] + rest)[1..] == rest;
  }

  class BatchedArchiver {
    const h: Hasher
    const enabled: bool
    const env: Env
    var files: Files
    var appends: nat
    var date: Option<int>
    var buffer: seq<Cold>
    var dates: set<int>

    /** The buffer is one date's and never reaches the batch size between calls. */
    ghost predicate Valid()
      reads this
    {
      Uniform(date, buffer) && |buffer| < ARCHIVE_BATCH_RECORDS
    }

    /** What pushing `rest` and finishing will come to. */
    ghost function Outcome(rest: seq<Cold>): (Files, Option<RetentionError>)
      reads this
      requires Valid()
    {
      if enabled then RunFlushes(h, files, Flushes(rest, date, buffer), env, appends) else (files, None)
    }

    /** The dates written or about to be. */
    ghost function Seen(): set<int>
      reads this
      requires Valid()
    {
      dates + if buffer == [] then {} else {date.value}
    }

    constructor (h: Hasher, enabled: bool, env: Env, files: Files)
      ensures Valid() && this.h == h && this.enabled == enabled && this.env == env
      ensures this.files == files && appends == 0 && date == None && buffer == [] && dates == {}
    {
      this.h, this.enabled, this.env, this.files := h, enabled, env, files;
      appends, date, buffer, dates := 0, None, [], {};
    }

    method Flush() returns (r: Result<(), RetentionError>)
      requires buffer != [] ==> date.Some?
      modifies this
      ensures date == old(date)
      ensures r.Ok? ==> buffer == [] && dates == old(dates) + if old(buffer) == [] then {} else {date.value}
      ensures old(buffer) == [] ==> r.Ok? && files == old(files) && appends == old(appends)
      ensures old(buffer) != [] ==>
        && appends == old(appends) + 1
        && (files, if r.Ok? then None else Some(r.error))
           == FlushOutcome(h, old(files), Batch(old(date).value, old(buffer)), env(old(appends)))
    {
      if |buffer| == 0 {
        return Ok(());
      }
      var answer := env(appends);
      appends := appends + 1;
      if answer == CrashBefore {
        return Err(Crashed);
      }
      if answer == WroteNothing {
        return Err(NothingWritten);
      }
      files := AddFrame(files, date.value, buffer);
      if answer == CrashAfter {
        return Err(Crashed);
      }
      var ok := ProveArchivedFrame(h, buffer, buffer);
      if !ok {
        return Err(ProofFailed);
      }
      dates := dates + {date.value};
      buffer := [];
      r := Ok(());
    }

    /** Buffers a record, flushing first when its date is another one and afterwards when the
        batch is full. */
    method Push(record: Cold, ghost rest: seq<Cold>) returns (r: Result<(), RetentionError>)
      requires Valid()
      modifies this
      ensures r.Ok? ==> Valid() && Outcome(rest) == old(Outcome([record] + rest))
      ensures !enabled ==> r.Ok? && buffer == old(buffer) && dates == old(dates)
      ensures r.Ok? && enabled ==> Seen() == old(Seen()) + {DateOf(record)}
      ensures r.Err? ==> old(Outcome([record] + rest)) == (files, Some(r.error))
    {
      if !enabled {
        return Ok(());
      }
      var next := DateOf(record);
      PushUnfolds(record, rest, date, buffer);
      if date.Some? && date.value != next {
        if buffer != [] {
          RunFirst(h, files, Batch(date.value, buffer), FlushesFrom([record] + rest, []), env, appends);
        }
        r := Flush();
        if r.Err? {
          return;
        }
      }
      date := Some(next);
      buffer := buffer + [record];
      if |buffer| >= ARCHIVE_BATCH_RECORDS {
        RunFirst(h, files, Batch(next, buffer), Flushes(rest, Some(next), []), env, appends);
        r := Flush();
        if r.Err? {
          return;
        }
      }
      r := Ok(());
    }

    method Finish() returns (r: Result<(), RetentionError>)
      requires Valid()
      modifies this
      ensures enabled ==> old(Outcome([])) == (files, if r.Ok? then None else Some(r.error))
      ensures r.Ok? ==> dates == old(Seen())
      ensures !enabled && old(buffer) == [] ==> r.Ok? && files == old(files)
    {
      if buffer != [] {
        RunFirst(h, files, Batch(date.value, buffer), [], env, appends);
      }
      r := Flush();
    }
  }

  // ---------- How far a pass may prune ----------

  function OlderThan(cutoff: int): Row -> bool { (row: Row) => Chained(row) && row.content.timestamp < cutoff }

  predicate Unsynced(row: Row) { Chained(row) && !row.synced }

  function MaxKey(rows: seq<Row>): Option<int> {
    if rows == [] then None
    else match MaxKey(rows[1..])
         case None => Some(Key(rows[0]))
         case Some(k) => Some(if k < Key(rows[0]) then Key(rows[0]) else k)
  }

  function MinKey(rows: seq<Row>): Option<int> {
    if rows == [] then None
    else match MinKey(rows[1..])
         case None => Some(Key(rows[0]))
         case Some(k) => Some(if Key(rows[0]) < k then Key(rows[0]) else k)
  }

  /** The highest contiguously synced sequence: everything below the first unsynced row. */
  function SyncedPrefix(table: seq<Row>): int {
    match MinKey(Filter(table, Unsynced))
    case Some(gap) => gap - 1
    case None => match MaxKey(Filter(table, Chained)) case Some(k) => k case None => 0
  }

  /** The sequence a pass may prune up to; 0 when there is nothing to prune. */
  function PruneBound(table: seq<Row>, cutoff: int, respectSync: bool): int {
    match MaxKey(Filter(table, OlderThan(cutoff)))
    case None => 0
    case Some(t) =>
      if t <= 0 then 0
      else if !respectSync then t
      else if SyncedPrefix(table) <= 0 then 0
      else if SyncedPrefix(table) < t then SyncedPrefix(table) else t
  }

  lemma {:induction false} MaxKeyMeaning(rows: seq<Row>)
    ensures match MaxKey(rows)
            case None => rows == []
            case Some(k) => (exists row :: row in rows && Key(row) == k) && forall row :: row in rows ==> Key(row) <= k
  {
    if rows != [] {
      MaxKeyMeaning(rows[1..]);
      assert rows[0] in rows;
    }
  }

  lemma {:induction false} MinKeyMeaning(rows: seq<Row>)
    ensures match MinKey(rows)
            case None => rows == []
            case Some(k) => (exists row :: row in rows && Key(row) == k) && forall row :: row in rows ==> Key(row) >= k
  {
    if rows != [] {
      MinKeyMeaning(rows[1..]);
      assert rows[0] in rows;
    }
  }

  /** A sequence a pass may delete up to: not past the newest row that is old enough and, when sync is
      respected, not past an unsynced row. */
  ghost predicate MayPrune(table: seq<Row>, cutoff: int, respectSync: bool, b: int) {
    && b > 0
    && (exists row :: row in table && Chained(row) && row.content.timestamp < cutoff && Key(row) >= b)
    && (respectSync ==> forall row :: row in table && Chained(row) && Key(row) <= b ==> row.synced)
  }

  /** A pass never goes further than it may. */
  lemma BoundIsSafe(table: seq<Row>, cutoff: int, respectSync: bool)
    ensures
      var bound := PruneBound(table, cutoff, respectSync);
      bound > 0 ==>
        && (exists row :: row in table && Chained(row) && row.content.timestamp < cutoff && Key(row) >= bound)
        && (respectSync ==> forall row :: row in table && Chained(row) && Key(row) <= bound ==> row.synced)
  {
    MaxKeyMeaning(Filter(table, OlderThan(cutoff)));
    FilterElements(table, OlderThan(cutoff));
    MinKeyMeaning(Filter(table, Unsynced));
    FilterElements(table, Unsynced);
  }

  /** And it goes as far as it may: no sequence it may delete up to is beyond the bound, so a pass has
      nothing to prune exactly when there is no such sequence. */
  lemma BoundIsGreatest(table: seq<Row>, cutoff: int, respectSync: bool)
    ensures forall b :: MayPrune(table, cutoff, respectSync, b) ==> b <= PruneBound(table, cutoff, respectSync)
    ensures PruneBound(table, cutoff, respectSync) > 0 <==> exists b :: MayPrune(table, cutoff, respectSync, b)
    ensures PruneBound(table, cutoff, respectSync) >= 0
  {
    MaxKeyMeaning(Filter(table, OlderThan(cutoff)));
    FilterElements(table, OlderThan(cutoff));
    if respectSync {
      MinKeyMeaning(Filter(table, Unsynced));
      FilterElements(table, Unsynced);
      MaxKeyMeaning(Filter(table, Chained));
      FilterElements(table, Chained);
    }
    BoundIsSafe(table, cutoff, respectSync);
    assert PruneBound(table, cutoff, respectSync) > 0 ==>
      MayPrune(table, cutoff, respectSync, PruneBound(table, cutoff, respectSync));
  }

  // ---------- The pass ----------

  function UpTo(maxSequence: int): Row -> bool { (row: Row) => Key(row) <= maxSequence }

  /** The rows a pass streams out, as they are archived. */
  function Prefix(table: seq<Row>, maxSequence: int): seq<Cold> {
    Map(Sort(Filter(Filter(table, Chained), UpTo(maxSequence)), KeyLeq), Archived)
  }

  /** `read_prefix_into` of storage.rs: it looks up the row at its bound before it streams anything, and
      streams nothing when there is none. */
  function ReadPrefix(table: seq<Row>, maxSequence: int): Result<seq<Cold>, RetentionError> {
    if maxSequence <= 0 || RowAt(table, maxSequence).None? then Ok([])
    else if RowAt(table, maxSequence).value.recordHash.None? then Err(StorageFailed)
    else Ok(Prefix(table, maxSequence))
  }

  function DatesOf(records: seq<Cold>): set<int> {
    if records == [] then {} else {DateOf(records[0])} + DatesOf(records[1..])
  }

  datatype Pass = Pass(
    cutoff: int, coldStorage: bool, respectSync: bool, covers: int -> bool, env: Env, crashBeforeDelete: bool)

  function Pruned(h: Hasher, s: Store, files: Files, p: Pass): (Store, Files, Result<PruneStats, RetentionError>) {
    var bound := PruneBound(s.table, p.cutoff, p.respectSync);
    if bound <= 0 || !p.covers(bound) then (s, files, Ok(NOTHING_PRUNED))
    else if ReadPrefix(s.table, bound).Err? then (s, files, Err(ReadPrefix(s.table, bound).error))
    else
      var prefix := ReadPrefix(s.table, bound).value;
      var (after, error) := if p.coldStorage then RunFlushes(h, files, Flushes(prefix, None, []), p.env, 0)
        else (files, None);
      if error.Some? then (s, after, Err(error.value))
      else if prefix == [] then (s, after, Ok(NOTHING_PRUNED))
      else if p.crashBeforeDelete then (s, after, Err(Crashed))
      else (AfterDelete(s, bound), after,
            Ok(PruneStats(|prefix|, if p.coldStorage then |DatesOf(prefix)| else 0, bound)))
  }

  lemma PrefixNotEmpty(table: seq<Row>, bound: int)
    requires RowAt(table, bound).Some?
    ensures Prefix(table, bound) != []
  {
    var row := RowAt(table, bound).value;
    FilterElements(table, AtSequence(bound));
    assert row in Filter(table, AtSequence(bound));
    FilterElements(table, Chained);
    FilterElements(Filter(table, Chained), UpTo(bound));
    SortKeepsElements(Filter(Filter(table, Chained), UpTo(bound)), KeyLeq);
    assert row in Sort(Filter(Filter(table, Chained), UpTo(bound)), KeyLeq);
  }

  /** Streams the prefix through the archiver. */
  method ArchivePrefix(archiver: BatchedArchiver, prefix: seq<Cold>) returns (r: Result<(), RetentionError>)
    requires archiver.Valid() && archiver.buffer == [] && archiver.dates == {}
    modifies archiver
    ensures old(archiver.Outcome(prefix)) == (archiver.files, if r.Ok? then None else Some(r.error))
    ensures r.Ok? ==> archiver.dates == if archiver.enabled then DatesOf(prefix) else {}
  {
    ghost var target := archiver.Outcome(prefix);
    assert prefix[0..] == prefix;
    for i := 0 to |prefix|
      invariant archiver.Valid() && archiver.Outcome(prefix[i..]) == target
      invariant archiver.enabled ==> archiver.Seen() + DatesOf(prefix[i..]) == DatesOf(prefix)
      invariant !archiver.enabled ==> archiver.buffer == [] && archiver.dates == {}
    {
      assert [prefix[i]] + prefix[i + 1..] == prefix[i..];
      assert prefix[i..][0] == prefix[i] && prefix[i..][1..] == prefix[i + 1..];
      r := archiver.Push(prefix[i], prefix[i + 1..]);
      if r.Err? {
        return;
      }
    }
    assert prefix[|prefix|..] == [];
    r := archiver.Finish();
  }

  /** One pass: catch-up has run, `covers` is the projection's answer. */
  method PruneAndArchive(storage: AuditStorage, files: Files, p: Pass)
    returns (r: Result<PruneStats, RetentionError>, after: Files)
    modifies storage
    ensures (storage.State(), after, r) == Pruned(storage.hasher, old(storage.State()), files, p)
  {
    after := files;
    var bound := PruneBound(storage.table, p.cutoff, p.respectSync);
    if bound <= 0 || !p.covers(bound) {
      return Ok(NOTHING_PRUNED), files;
    }
    var read := ReadPrefix(storage.table, bound);
    if read.Err? {
      return Err(read.error), files;
    }
    var archiver := new BatchedArchiver(storage.hasher, p.coldStorage, p.env, files);
    var prefix := read.value;
    var archived := ArchivePrefix(archiver, prefix);
    after := archiver.files;
    if archived.Err? {
      return Err(archived.error), after;
    }
    if |prefix| == 0 {
      return Ok(NOTHING_PRUNED), after;
    }
    if p.crashBeforeDelete {
      return Err(Crashed), after;
    }
    var deleted := storage.DeletePrefix(bound);
    r := Ok(PruneStats(|prefix|, |archiver.dates|, bound));
  }
}
