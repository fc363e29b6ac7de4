/** Cold storage of crates/grith-audit/src/retention.rs: one file per date, appended to frame by
    frame, and the batches a streamed prefix is cut into. */
module ColdFiles {
  import opened Basics
  import opened Records
  import opened Sorting
  import opened Chain

  const ARCHIVE_BATCH_RECORDS := 2000
  const NANOS_PER_DAY := 86_400_000_000_000

  /** A record as an archive line carries it. */
  datatype Cold = Cold(
    content: AuditRecord, chainSequence: Option<int>, prevHash: Option<string>, recordHash: Option<string>)

  /** One `<date>.jsonl.zst`; its frames are whole. */
  datatype ColdFile = ColdFile(date: int, frames: seq<seq<Cold>>)

  /** The directory, oldest file first. */
  type Files = seq<ColdFile>

  function Archived(row: Row): Cold { Cold(row.content, row.chainSequence, row.prevHash, row.recordHash) }

  /** The UTC date of a record, as a day number. */
  function DateOf(c: Cold): (date: int)
    ensures date * 86_400_000_000_000 <= c.content.timestamp < (date + 1) * 86_400_000_000_000
  {
    c.content.timestamp / NANOS_PER_DAY
  }

  function OnDate(date: int): Cold -> bool { (c: Cold) => DateOf(c) == date }

  function FramesOf(files: Files, date: int): seq<seq<Cold>> {
    if files == [] then []
    else if files[0].date == date then files[0].frames
    else FramesOf(files[1..], date)
  }

  /** Appends a frame, creating the file in its place if it is new. */
  function AddFrame(files: Files, date: int, frame: seq<Cold>): Files {
    if files == [] || date < files[0].date then [ColdFile(date, [frame])] + files
    else if files[0].date == date then [ColdFile(date, files[0].frames + [frame])] + files[1..]
    else [files[0]] + AddFrame(files[1..], date, frame)
  }

  /** All lines of a file. */
  function Lines(frames: seq<seq<Cold>>): seq<Cold> {
    if frames == [] then [] else frames[0] + Lines(frames[1..])
  }

  function LinesOf(files: Files, date: int): seq<Cold> { Lines(FramesOf(files, date)) }

  predicate OldestFirst(files: Files) {
    |files| <= 1 || (files[0].date < files[1].date && OldestFirst(files[1..]))
  }

  lemma {:induction false} AddFrameMeaning(files: Files, date: int, frame: seq<Cold>, other: int)
    requires OldestFirst(files)
    ensures FramesOf(AddFrame(files, date, frame), other) ==
      if other == date then FramesOf(files, date) + [frame] else FramesOf(files, other)
    ensures OldestFirst(AddFrame(files, date, frame))
    ensures AddFrame(files, date, frame)[0].date == if files != [] && files[0].date < date then files[0].date else date
  {
    var after := AddFrame(files, date, frame);
    if files == [] || date < files[0].date {
      NoFile(files, date);
      assert after[1..] == files;
      assert [] + [frame] == [frame];
    } else if files[0].date == date {
      assert after[1..] == files[1..];
    } else {
      AddFrameMeaning(files[1..], date, frame, other);
      assert after[1..] == AddFrame(files[1..], date, frame);
    }
  }

  lemma {:induction false} NoFile(files: Files, date: int)
    requires OldestFirst(files) && (files == [] || date < files[0].date)
    ensures FramesOf(files, date) == []
  {
    if files != [] {
      NoFile(files[1..], date);
    }
  }

  lemma {:induction false} LinesConcat(a: seq<seq<Cold>>, b: seq<seq<Cold>>)
    ensures Lines(a + b) == Lines(a) + Lines(b)
  {
    if a == [] {
      assert a + b == b;
    } else {
      LinesConcat(a[1..], b);
      assert (a + b)[1..] == a[1..] + b;
      assert a[0] + Lines(a[1..]) + Lines(b) == a[0] + (Lines(a[1..]) + Lines(b));
    }
  }

  /** Appending a frame adds its lines at the end of its date's file and changes no other file. */
  lemma AddFrameLines(files: Files, date: int, frame: seq<Cold>, other: int)
    requires OldestFirst(files)
    ensures LinesOf(AddFrame(files, date, frame), other) ==
      if other == date then LinesOf(files, date) + frame else LinesOf(files, other)
  {
    AddFrameMeaning(files, date, frame, other);
    if other == date {
      LinesConcat(FramesOf(files, date), [frame]);
      assert [frame][1..] == [] && frame + [] == frame;
    }
  }

  // ---------- Batches ----------

  datatype Batch = Batch(date: int, records: seq<Cold>)

  /** The frames that pushing `rest` and finishing writes, from what the archiver holds. */
  function Flushes(rest: seq<Cold>, date: Option<int>, buffer: seq<Cold>): seq<Batch>
    requires buffer != [] ==> date.Some?
    decreases |rest|
  {
    if rest == [] then (if buffer == [] then [] else [Batch(date.value, buffer)])
    else if buffer != [] && date.value != DateOf(rest[0]) then
      [Batch(date.value, buffer)] + FlushesFrom(rest, [])
    else FlushesFrom(rest, buffer)
  }

  /** ... once the buffer holds only the next record's date. */
  function FlushesFrom(rest: seq<Cold>, held: seq<Cold>): seq<Batch>
    requires rest != []
    decreases |rest|, 0
  {
    var date := DateOf(rest[0]);
    var buffer := held + [rest[0]];
    if |buffer| >= ARCHIVE_BATCH_RECORDS then [Batch(date, buffer)] + Flushes(rest[1..], Some(date), [])
    else Flushes(rest[1..], Some(date), buffer)
  }

  function AddAll(files: Files, batches: seq<Batch>): Files
    decreases |batches|
  {
    if batches == [] then files else AddAll(AddFrame(files, batches[0].date, batches[0].records), batches[1..])
  }

  predicate Uniform(date: Option<int>, buffer: seq<Cold>) {
    && (buffer != [] ==> date.Some?)
    && (forall i :: 0 <= i < |buffer| ==> DateOf(buffer[i]) == date.value)
  }

  lemma UniformFilter(date: int, buffer: seq<Cold>, other: int)
    requires Uniform(Some(date), buffer)
    ensures Filter(buffer, OnDate(other)) == if other == date then buffer else []
  {
    FilterAll(buffer, OnDate(other));
  }

  /** Everything pushed lands, in order, in the file of its own date. */
  lemma {:induction false} FlushesSort(files: Files, rest: seq<Cold>, date: Option<int>, buffer: seq<Cold>, other: int)
    requires OldestFirst(files) && Uniform(date, buffer) && |buffer| < ARCHIVE_BATCH_RECORDS
    ensures OldestFirst(AddAll(files, Flushes(rest, date, buffer)))
    ensures LinesOf(AddAll(files, Flushes(rest, date, buffer)), other)
         == LinesOf(files, other) + Filter(buffer, OnDate(other)) + Filter(rest, OnDate(other))
    decreases |rest|
  {
    if rest == [] {
      if buffer != [] {
        FlushOne(files, date.value, buffer, [], other);
      }
    } else if buffer != [] && date.value != DateOf(rest[0]) {
      FlushOne(files, date.value, buffer, FlushesFrom(rest, []), other);
      FlushesFromSort(AddFrame(files, date.value, buffer), rest, [], other);
    } else {
      FlushesFromSort(files, rest, buffer, other);
    }
  }

  lemma {:induction false} FlushesFromSort(files: Files, rest: seq<Cold>, held: seq<Cold>, other: int)
    requires rest != [] && OldestFirst(files) && |held| < ARCHIVE_BATCH_RECORDS && Uniform(Some(DateOf(rest[0])), held)
    ensures OldestFirst(AddAll(files, FlushesFrom(rest, held)))
    ensures LinesOf(AddAll(files, FlushesFrom(rest, held)), other)
         == LinesOf(files, other) + Filter(held, OnDate(other)) + Filter(rest, OnDate(other))
    decreases |rest|, 0
  {
    var date := DateOf(rest[0]);
    var buffer := held + [rest[0]];
    PushRegroups(LinesOf(files, other), held, rest, OnDate(other));
    if |buffer| >= ARCHIVE_BATCH_RECORDS {
      FlushOne(files, date, buffer, Flushes(rest[1..], Some(date), []), other);
      FlushesSort(AddFrame(files, date, buffer), rest[1..], Some(date), [], other);
    } else {
      FlushesSort(files, rest[1..], Some(date), buffer, other);
    }
  }

  lemma PushRegroups(lines: seq<Cold>, held: seq<Cold>, rest: seq<Cold>, keep: Cold -> bool)
    requires rest != []
    ensures lines + Filter(held, keep) + Filter(rest, keep)
      == lines + Filter(held + [rest[0]], keep) + Filter(rest[1..], keep)
  {
    FilterConcat(held, [rest[0]], keep);
    FilterConcat([rest[0]], rest[1..], keep);
    assert [rest[0]] + rest[1..] == rest;
    Regroup(lines, Filter(held, keep), Filter([rest[0]], keep), Filter(rest[1..], keep));
  }

  lemma Regroup(a: seq<Cold>, b: seq<Cold>, c: seq<Cold>, d: seq<Cold>)
    ensures a + (b + c) + d == a + b + (c + d)
  {
  }

  /** One frame of one date in front of others. */
  lemma FlushOne(files: Files, date: int, buffer: seq<Cold>, later: seq<Batch>, other: int)
    requires OldestFirst(files) && Uniform(Some(date), buffer)
    ensures AddAll(files, [Batch(date, buffer)] + later) == AddAll(AddFrame(files, date, buffer), later)
    ensures OldestFirst(AddFrame(files, date, buffer))
    ensures LinesOf(AddFrame(files, date, buffer), other) == LinesOf(files, other) + Filter(buffer, OnDate(other))
  {
    assert ([Batch(date, buffer)] + later)[1..] == later;
    AddFrameMeaning(files, date, buffer, other);
    AddFrameLines(files, date, buffer, other);
    UniformFilter(date, buffer, other);
    assert LinesOf(files, other) + [] == LinesOf(files, other);
  }

  /** No frame exceeds the batch size, and none is empty. */
  lemma {:induction false} FlushesBounded(rest: seq<Cold>, date: Option<int>, buffer: seq<Cold>)
    requires Uniform(date, buffer) && |buffer| < ARCHIVE_BATCH_RECORDS
    ensures forall b :: b in Flushes(rest, date, buffer) ==> 0 < |b.records| <= ARCHIVE_BATCH_RECORDS
    decreases |rest|
  {
    if rest != [] {
      var next := DateOf(rest[0]);
      var held := if buffer != [] && date.value != next then [] else buffer;
      var full := held + [rest[0]];
      if |full| >= ARCHIVE_BATCH_RECORDS {
        FlushesBounded(rest[1..], Some(next), []);
      } else {
        FlushesBounded(rest[1..], Some(next), full);
      }
    }
  }

  /** The first frame written while records are pushed is one of the first record's date. */
  lemma {:induction false} FirstFramePushed(rest: seq<Cold>, held: seq<Cold>)
    requires rest != []
    ensures FlushesFrom(rest, held) != [] && FlushesFrom(rest, held)[0].date == DateOf(rest[0])
    decreases |rest|
  {
    var full := held + [rest[0]];
    if |full| < ARCHIVE_BATCH_RECORDS && |rest| > 1 && DateOf(rest[1]) == DateOf(rest[0]) {
      FirstFramePushed(rest[1..], full);
    }
  }

  ghost predicate FullButLast(batches: seq<Batch>) {
    forall i :: 0 < i < |batches| && batches[i].date == batches[i - 1].date ==> |batches[i - 1].records| == 2_000
  }

  lemma FullInFront(b: Batch, later: seq<Batch>)
    requires FullButLast(later) && (later != [] && later[0].date == b.date ==> |b.records| == 2_000)
    ensures FullButLast([b] + later)
  {
    var all := [b] + later;
    forall i | 0 < i < |all| && all[i].date == all[i - 1].date ensures |all[i - 1].records| == 2_000 {
      assert all[i] == later[i - 1] && (i > 1 ==> all[i - 1] == later[i - 2]);
    }
  }

  /** A frame is followed by another one of its date only when it is full: 2,000 records. */
  lemma {:induction false} FlushesFull(rest: seq<Cold>, date: Option<int>, buffer: seq<Cold>)
    requires Uniform(date, buffer) && |buffer| < ARCHIVE_BATCH_RECORDS
    ensures FullButLast(Flushes(rest, date, buffer))
    decreases |rest|
  {
    if rest != [] {
      if buffer != [] && date.value != DateOf(rest[0]) {
        PushedFull(rest, []);
        FirstFramePushed(rest, []);
        FullInFront(Batch(date.value, buffer), FlushesFrom(rest, []));
      } else {
        PushedFull(rest, buffer);
      }
    }
  }

  lemma {:induction false} PushedFull(rest: seq<Cold>, held: seq<Cold>)
    requires rest != [] && Uniform(Some(DateOf(rest[0])), held) && |held| < ARCHIVE_BATCH_RECORDS
    ensures FullButLast(FlushesFrom(rest, held))
    decreases |rest|, 0
  {
    var date := DateOf(rest[0]);
    var full := held + [rest[0]];
    if |full| >= ARCHIVE_BATCH_RECORDS {
      FlushesFull(rest[1..], Some(date), []);
      FullInFront(Batch(date, full), Flushes(rest[1..], Some(date), []));
    } else {
      FlushesFull(rest[1..], Some(date), full);
    }
  }
}
