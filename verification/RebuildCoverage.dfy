/** What a full rebuild of crates/grith-audit/src/analytics.rs takes in: every line of every cold file and
    every active row, and nothing else. */
module RebuildCoverage {
  import opened Basics
  import opened Records
  import opened Sorting
  import opened Chain
  import opened ColdFiles
  import opened Projection

  // ---------- What is stored ----------

  ghost predicate OnDisk(cold: Files, c: Cold) {
    exists i, j, k ::
      0 <= i < |cold| && 0 <= j < |cold[i].frames| && 0 <= k < |cold[i].frames[j]| && cold[i].frames[j][k] == c
  }

  ghost predicate InTable(table: seq<Row>, c: Cold) {
    exists k :: 0 <= k < |table| && c == Cold(
      table[k].content, table[k].chainSequence, table[k].prevHash, table[k].recordHash)
  }

  ghost predicate Stored(cold: Files, table: seq<Row>, c: Cold) { OnDisk(cold, c) || InTable(table, c) }

  /** Two stored records with one id and different content. */
  ghost predicate Conflicting(cold: Files, table: seq<Row>) {
    exists c, d :: Stored(cold, table, c) && Stored(cold, table, d) && c.content.id == d.content.id && c != d
  }

  ghost function DiskIds(cold: Files): set<Uuid> {
    set i, j, k | 0 <= i < |cold| && 0 <= j < |cold[i].frames| && 0 <= k < |cold[i].frames[j]| ::
      cold[i].frames[j][k].content.id
  }

  ghost function StoredIds(cold: Files, table: seq<Row>): set<Uuid> {
    DiskIds(cold) + set k | 0 <= k < |table| :: table[k].content.id
  }

  /** The ids of stored records that the adapter cannot express. */
  ghost function GapIds(adapt: Adapter, cold: Files, table: seq<Row>): set<Uuid> {
    set id | id in StoredIds(cold, table) && exists c :: Stored(cold, table, c) && c.content.id == id && adapt(c).None?
  }

  /** The source events are exactly the adaptations of what is stored, under their own ids and in the
      active epoch. */
  ghost predicate Reflects(
    adapt: Adapter, cold: Files, table: seq<Row>, epoch: nat, events: map<Uuid, SourceEvent>)
  {
    && (forall c :: Stored(cold, table, c) && adapt(c).Some? ==>
          adapt(c).value.eventId in events && events[adapt(c).value.eventId] == SourceEvent(epoch, adapt(c).value))
    && (forall id :: id in events ==>
          events[id].event.eventId == id && exists c :: Stored(cold, table, c) && adapt(c) == Some(events[id].event))
  }

  // ---------- Reading everything ----------

  lemma {:induction false} LinesHoldFrames(frames: seq<seq<Cold>>, c: Cold)
    ensures c in Lines(frames) <==> exists j, k :: 0 <= j < |frames| && 0 <= k < |frames[j]| && frames[j][k] == c
  {
    if frames != [] {
      LinesHoldFrames(frames[1..], c);
      if exists j, k :: 0 <= j < |frames| && 0 <= k < |frames[j]| && frames[j][k] == c {
        var j, k :| 0 <= j < |frames| && 0 <= k < |frames[j]| && frames[j][k] == c;
        assert j > 0 ==> frames[1..][j - 1][k] == c;
      }
      if c in Lines(frames[1..]) {
        var j, k :| 0 <= j < |frames[1..]| && 0 <= k < |frames[1..][j]| && frames[1..][j][k] == c;
        assert frames[j + 1][k] == c;
      }
    }
  }

  lemma {:induction false} AllLinesHold(cold: Files, c: Cold)
    ensures c in AllLines(cold) <==> exists i :: 0 <= i < |cold| && c in Lines(cold[i].frames)
  {
    if cold != [] {
      AllLinesHold(cold[1..], c);
      if exists i :: 0 <= i < |cold| && c in Lines(cold[i].frames) {
        var i :| 0 <= i < |cold| && c in Lines(cold[i].frames);
        assert i > 0 ==> cold[1..][i - 1] == cold[i];
      }
    }
  }

  /** The list that is merged holds exactly what is stored. */
  lemma ReadsStored(cold: Files, table: seq<Row>, c: Cold)
    ensures c in AllLines(cold) + Map(table, Archived) <==> Stored(cold, table, c)
  {
    ReadsDisk(cold, c);
    var rows := Map(table, Archived);
    if InTable(table, c) {
      var k :| 0 <= k < |table| && c == Cold(
        table[k].content, table[k].chainSequence, table[k].prevHash, table[k].recordHash);
      assert rows[k] == c;
    }
    if c in rows {
      var k :| 0 <= k < |rows| && rows[k] == c;
      assert c == Archived(table[k]);
    }
  }

  lemma ReadsDisk(cold: Files, c: Cold)
    ensures c in AllLines(cold) <==> OnDisk(cold, c)
  {
    AllLinesHold(cold, c);
    if c in AllLines(cold) {
      var i :| 0 <= i < |cold| && c in Lines(cold[i].frames);
      LinesHoldFrames(cold[i].frames, c);
    }
    if OnDisk(cold, c) {
      var i, j, k :|
        0 <= i < |cold| && 0 <= j < |cold[i].frames| && 0 <= k < |cold[i].frames[j]| && cold[i].frames[j][k] == c;
      LinesHoldFrames(cold[i].frames, c);
    }
  }

  // ---------- Merging ----------

  /** A merge keeps every record under its id. */
  lemma {:induction false} MergeHolds(byId: map<Uuid, Cold>, records: seq<Cold>)
    requires Merge(byId, records).Some?
    ensures
      var merged := Merge(byId, records).value;
      && (forall c :: c in records ==> c.content.id in merged && merged[c.content.id] == c)
      && (forall id :: id in byId ==> id in merged && merged[id] == byId[id])
      && (forall id :: id in merged && id !in byId ==> merged[id] in records)
    decreases |records|
  {
    if records != [] {
      var id := records[0].content.id;
      MergeHolds(if id in byId then byId else byId[id := records[0]], records[1..]);
      assert records == [records[0]] + records[1..];
    }
  }

  /** A merge that fails met two different records with one id. */
  lemma {:induction false} MergeFails(byId: map<Uuid, Cold>, records: seq<Cold>, all: seq<Cold>)
    returns (c: Cold, d: Cold)
    requires Merge(byId, records).None? && KeyedById(byId)
    requires (forall r :: r in records ==> r in all) && forall id :: id in byId ==> byId[id] in all
    ensures c in all && d in all && c.content.id == d.content.id && c != d
    decreases |records|
  {
    var id := records[0].content.id;
    assert records[0] in all;
    if id in byId && byId[id] != records[0] {
      c, d := byId[id], records[0];
    } else {
      assert forall r :: r in records[1..] ==> r in records;
      c, d := MergeFails(if id in byId then byId else byId[id := records[0]], records[1..], all);
    }
  }

  /** The merge fails exactly on a conflict. */
  lemma MergeFailsIff(cold: Files, table: seq<Row>)
    ensures Merge(map[], AllLines(cold) + Map(table, Archived)).None? <==> Conflicting(cold, table)
  {
    var all := AllLines(cold) + Map(table, Archived);
    if Merge(map[], all).None? {
      var c, d := MergeFails(map[], all, all);
      ReadsStored(cold, table, c);
      ReadsStored(cold, table, d);
    } else {
      MergeHolds(map[], all);
      if Conflicting(cold, table) {
        var c, d :| Stored(cold, table, c) && Stored(cold, table, d) && c.content.id == d.content.id && c != d;
        ReadsStored(cold, table, c);
        ReadsStored(cold, table, d);
        assert false;
      }
    }
  }

  /** The merged map holds exactly what is stored, once. */
  lemma MergedIsStored(cold: Files, table: seq<Row>, merged: map<Uuid, Cold>)
    requires Merge(map[], AllLines(cold) + Map(table, Archived)) == Some(merged)
    ensures forall c :: c in merged.Values <==> Stored(cold, table, c)
    ensures KeyedById(merged) && merged.Keys == StoredIds(cold, table) && |merged| == |StoredIds(cold, table)|
  {
    var all := AllLines(cold) + Map(table, Archived);
    MergeKeyed(map[], all);
    MergeHolds(map[], all);
    forall c ensures c in merged.Values <==> Stored(cold, table, c) {
      ReadsStored(cold, table, c);
      if c in all {
        assert merged[c.content.id] == c;
      }
    }
    forall id ensures id in merged.Keys <==> id in StoredIds(cold, table) {
      if id in merged.Keys {
        StoredHasId(cold, table, merged[id]);
      }
      if id in StoredIds(cold, table) {
        var c := IdIsStored(cold, table, id);
        ReadsStored(cold, table, c);
      }
    }
    assert |merged| == |merged.Keys|;
  }

  lemma StoredHasId(cold: Files, table: seq<Row>, c: Cold)
    requires Stored(cold, table, c)
    ensures c.content.id in StoredIds(cold, table)
  {
  }

  lemma IdIsStored(cold: Files, table: seq<Row>, id: Uuid) returns (c: Cold)
    requires id in StoredIds(cold, table)
    ensures Stored(cold, table, c) && c.content.id == id
  {
    if id in DiskIds(cold) {
      var i, j, k :| 0 <= i < |cold| && 0 <= j < |cold[i].frames| && 0 <= k < |cold[i].frames[j]|
        && cold[i].frames[j][k].content.id == id;
      c := cold[i].frames[j][k];
      assert OnDisk(cold, c);
    } else {
      var k :| 0 <= k < |table| && table[k].content.id == id;
      c := Cold(table[k].content, table[k].chainSequence, table[k].prevHash, table[k].recordHash);
      assert InTable(table, c);
    }
  }

  // ---------- Projecting ----------

  /** A batch's events: those that were there, and one for every record the adapter expresses. */
  lemma {:induction false} ProjectedEvents(adapt: Adapter, epoch: nat, a: OpenBatch, records: seq<Cold>)
    requires ProjectAll(adapt, epoch, a, records).Ok?
    ensures
      var b := ProjectAll(adapt, epoch, a, records).value;
      && (forall c :: c in records && adapt(c).Some? ==>
            adapt(c).value.eventId in b.events && b.events[adapt(c).value.eventId].event == adapt(c).value)
      && (forall id :: id in a.events ==> id in b.events && b.events[id] == a.events[id])
      && (forall id :: id in b.events && id !in a.events ==>
            b.events[id].epoch == epoch && exists c :: c in records && adapt(c) == Some(b.events[id].event))
    decreases |records|
  {
    if records != [] {
      ProjectedEvents(adapt, epoch, ProjectOne(adapt, epoch, a, records[0]).value, records[1..]);
      assert records == [records[0]] + records[1..];
    }
  }

  function Gap(adapt: Adapter): Cold -> bool { (c: Cold) => adapt(c).None? }

  /** A batch's gaps, and whether it saw a sequence at all. */
  lemma {:induction false} ProjectedGaps(adapt: Adapter, epoch: nat, a: OpenBatch, records: seq<Cold>)
    requires ProjectAll(adapt, epoch, a, records).Ok?
    ensures
      var b := ProjectAll(adapt, epoch, a, records).value;
      && b.skipped == a.skipped + |Filter(records, Gap(adapt))|
      && (b.last.Some? <==> a.last.Some? || exists c :: c in records && c.chainSequence.Some?)
    decreases |records|
  {
    if records != [] {
      ProjectedGaps(adapt, epoch, ProjectOne(adapt, epoch, a, records[0]).value, records[1..]);
      assert records == [records[0]] + records[1..];
    }
  }

  ghost predicate IdsApart(records: seq<Cold>) {
    forall i, j :: 0 <= i < j < |records| ==> records[i].content.id != records[j].content.id
  }

  ghost function GapsOf(adapt: Adapter, records: seq<Cold>): set<Uuid> {
    set c | c in records && adapt(c).None? :: c.content.id
  }

  lemma {:induction false} GapsCounted(adapt: Adapter, records: seq<Cold>)
    requires IdsApart(records)
    ensures |Filter(records, Gap(adapt))| == |GapsOf(adapt, records)|
  {
    if records != [] {
      IdsApartRest(records);
      GapsCounted(adapt, records[1..]);
      GapsSplit(adapt, records);
    }
  }

  lemma IdsApartRest(records: seq<Cold>)
    requires IdsApart(records) && records != []
    ensures IdsApart(records[1..]) && forall c :: c in records[1..] ==> c.content.id != records[0].content.id
  {
    var rest := records[1..];
    assert forall i :: 0 <= i < |rest| ==> rest[i] == records[i + 1];
  }

  lemma GapsSplit(adapt: Adapter, records: seq<Cold>)
    requires records != [] && forall c :: c in records[1..] ==> c.content.id != records[0].content.id
    ensures GapsOf(adapt, records) == (if adapt(records[0]).None? then {records[0].content.id} else {})
                                      + GapsOf(adapt, records[1..])
    ensures records[0].content.id !in GapsOf(adapt, records[1..])
  {
    assert records == [records[0]] + records[1..];
  }

  lemma OrderHolds(merged: map<Uuid, Cold>)
    requires KeyedById(merged)
    ensures forall c :: c in ReplayOrder(merged) <==> c in merged.Values
    ensures IdsApart(ReplayOrder(merged))
  {
    var records := ReplayOrder(merged);
    ReplayOrderSorts(merged);
    InMultiset(records);
    assert forall c :: c in multiset(merged.Values) <==> c in merged.Values;
    DistinctCounts(records);
    forall i, j | 0 <= i < j < |records| ensures records[i].content.id != records[j].content.id {
      assert records[i] in records && records[j] in records;
    }
  }

  /** A projection never blames the merge. */
  lemma {:induction false} ProjectErrors(adapt: Adapter, epoch: nat, a: OpenBatch, records: seq<Cold>)
    ensures ProjectAll(adapt, epoch, a, records).Err? ==> ProjectAll(adapt, epoch, a, records).error != MergeConflict
    decreases |records|
  {
    if records != [] && ProjectOne(adapt, epoch, a, records[0]).Ok? {
      ProjectErrors(adapt, epoch, ProjectOne(adapt, epoch, a, records[0]).value, records[1..]);
    }
  }

  // ---------- The whole replay ----------

  /** After a full rebuild the source events are exactly what the stored records read as. */
  lemma ReplayReflects(adapt: Adapter, p: Projection, table: seq<Row>, cold: Files, merged: map<Uuid, Cold>)
    requires Merge(map[], AllLines(cold) + Map(table, Archived)) == Some(merged)
    requires Replayed(adapt, Cleared(p), table, ReplayOrder(merged)).Some?
    ensures Reflects(adapt, cold, table, p.epoch, Replayed(adapt, Cleared(p), table, ReplayOrder(merged)).value.events)
  {
    var records := ReplayOrder(merged);
    var cleared := Cleared(p);
    var b := ProjectAll(adapt, cleared.epoch, Open(cleared), records).value;
    MergedIsStored(cold, table, merged);
    OrderHolds(merged);
    FreshEvents(adapt, p.epoch, Open(cleared), records);
    EventsReflect(adapt, cold, table, p.epoch, b, records);
    HeadKeepsEvents(adapt, cleared, table, b);
  }

  /** The gap count is the number of stored records the adapter cannot express, unless none of the
      stored records has a sequence, in which case the old count stays. */
  lemma ReplayCountsGaps(adapt: Adapter, p: Projection, table: seq<Row>, cold: Files, merged: map<Uuid, Cold>)
    requires Merge(map[], AllLines(cold) + Map(table, Archived)) == Some(merged)
    requires Replayed(adapt, Cleared(p), table, ReplayOrder(merged)).Some?
    ensures Replayed(adapt, Cleared(p), table, ReplayOrder(merged)).value.gapCount
         == if exists c :: Stored(cold, table, c) && c.chainSequence.Some? then |GapIds(adapt, cold, table)|
            else p.gapCount
  {
    var records := ReplayOrder(merged);
    var cleared := Cleared(p);
    MergedIsStored(cold, table, merged);
    OrderHolds(merged);
    ProjectedGaps(adapt, cleared.epoch, Open(cleared), records);
    GapsCounted(adapt, records);
    SameGaps(adapt, cold, table, records);
    HeadKeepsEvents(adapt, cleared, table, ProjectAll(adapt, cleared.epoch, Open(cleared), records).value);
  }

  lemma SameGaps(adapt: Adapter, cold: Files, table: seq<Row>, records: seq<Cold>)
    requires forall c :: c in records <==> Stored(cold, table, c)
    ensures GapsOf(adapt, records) == GapIds(adapt, cold, table)
  {
    forall id ensures id in GapsOf(adapt, records) <==> id in GapIds(adapt, cold, table) {
      if id in GapsOf(adapt, records) {
        var c :| c in records && adapt(c).None? && c.content.id == id;
        StoredHasId(cold, table, c);
      }
    }
  }

  /** A batch that starts without events holds exactly what its records read as. */
  ghost predicate ReadsAs(adapt: Adapter, epoch: nat, records: seq<Cold>, b: OpenBatch) {
    && (forall c :: c in records && adapt(c).Some? ==>
          adapt(c).value.eventId in b.events && b.events[adapt(c).value.eventId].event == adapt(c).value)
    && (forall id :: id in b.events ==>
          && b.events[id].epoch == epoch && b.events[id].event.eventId == id
          && exists c :: c in records && adapt(c) == Some(b.events[id].event))
  }

  lemma FreshEvents(adapt: Adapter, epoch: nat, open: OpenBatch, records: seq<Cold>)
    requires open.events == map[] && ProjectAll(adapt, epoch, open, records).Ok?
    ensures ReadsAs(adapt, epoch, records, ProjectAll(adapt, epoch, open, records).value)
  {
    ProjectGrows(adapt, epoch, open, records);
    ProjectedEvents(adapt, epoch, open, records);
  }

  lemma EventsReflect(adapt: Adapter, cold: Files, table: seq<Row>, epoch: nat, b: OpenBatch, records: seq<Cold>)
    requires forall c :: c in records <==> Stored(cold, table, c)
    requires ReadsAs(adapt, epoch, records, b)
    ensures Reflects(adapt, cold, table, epoch, b.events)
  {
  }

  lemma HeadKeepsEvents(adapt: Adapter, cleared: Projection, table: seq<Row>, b: OpenBatch)
    requires CanRebuild(WithBatch(cleared, b), b.touched)
    ensures
      var q := AtHead(WithCursor(Rebuilt(WithBatch(cleared, b), b.touched), b, true), table);
      q.events == b.events && q.gapCount == if b.last.Some? then b.skipped else cleared.gapCount
  {
  }

  /** The cursor is at the highest sequence in the table, or back at the epoch's baseline. */
  ghost predicate CursorAtHead(p: Projection, table: seq<Row>) {
    if exists k :: 0 <= k < |table| && table[k].chainSequence.Some? then
      exists k :: 0 <= k < |table| && table[k].chainSequence == Some(p.cursor) && table[k].recordHash == p.cursorHash
                  && forall i :: 0 <= i < |table| && table[i].chainSequence.Some? ==>
                       table[i].chainSequence.value <= p.cursor
    else p.cursor == p.baseline && p.cursorHash == p.baselineHash
  }

  lemma AtHeadMeaning(p: Projection, table: seq<Row>)
    ensures CursorAtHead(AtHead(p, table), table)
  {
    var rows := Segment(table);
    SegmentMembers(table);
    if rows != [] {
      assert rows[0] in rows;
      var k :| 0 <= k < |table| && table[k] == rows[0];
    }
    if exists k :: 0 <= k < |table| && table[k].chainSequence.Some? {
      var i :| 0 <= i < |table| && table[i].chainSequence.Some?;
      assert table[i] in rows;
      var last := rows[|rows| - 1];
      assert last in rows;
      var k :| 0 <= k < |table| && table[k] == last;
      forall j | 0 <= j < |table| && table[j].chainSequence.Some? ensures table[j].chainSequence.value <= Key(last) {
        assert table[j] in rows;
        var l :| 0 <= l < |rows| && rows[l] == table[j];
        assert l == |rows| - 1 || KeyLeq(rows[l], last);
      }
    }
  }

  /** Configurations are never forgotten: days whose records have aged out still need them. */
  ghost predicate KeepsConfigs(before: map<string, ConfigFacts>, after: map<string, ConfigFacts>) {
    forall hash :: hash in before ==> hash in after && after[hash] == before[hash]
  }

  lemma {:induction false} ProjectingKeepsConfigs(adapt: Adapter, epoch: nat, a: OpenBatch, records: seq<Cold>)
    requires ProjectAll(adapt, epoch, a, records).Ok?
    ensures KeepsConfigs(a.configs, ProjectAll(adapt, epoch, a, records).value.configs)
    decreases |records|
  {
    if records != [] {
      ProjectingKeepsConfigs(adapt, epoch, ProjectOne(adapt, epoch, a, records[0]).value, records[1..]);
    }
  }

  /** What a full rebuild of `p` into `q` took in, over `count` different records. */
  ghost predicate TakesIn(
    adapt: Adapter, p: Projection, table: seq<Row>, cold: Files, q: Projection, count: nat)
  {
    && q.epoch == p.epoch && q.baseline == p.baseline && q.baselineHash == p.baselineHash
    && q.generation == p.generation + 1 && KeepsConfigs(p.configs, q.configs)
    && Reflects(adapt, cold, table, p.epoch, q.events)
    && count == |StoredIds(cold, table)|
    && CursorAtHead(q, table)
    && q.gapCount == if exists c :: Stored(cold, table, c) && c.chainSequence.Some? then |GapIds(adapt, cold, table)|
                     else p.gapCount
  }

  lemma ReplayTakesIn(adapt: Adapter, p: Projection, table: seq<Row>, cold: Files, merged: map<Uuid, Cold>)
    requires Merge(map[], AllLines(cold) + Map(table, Archived)) == Some(merged)
    ensures
      var replayed := Replayed(adapt, Cleared(NextGeneration(p)), table, ReplayOrder(merged));
      replayed.Some? ==> TakesIn(adapt, p, table, cold, replayed.value, |merged|)
  {
    if Replayed(adapt, Cleared(NextGeneration(p)), table, ReplayOrder(merged)).Some? {
      MergedIsStored(cold, table, merged);
      ReplayReflects(adapt, NextGeneration(p), table, cold, merged);
      ReplayCountsGaps(adapt, NextGeneration(p), table, cold, merged);
      ReplayEndsAtHead(adapt, Cleared(NextGeneration(p)), table, ReplayOrder(merged));
    }
  }

  lemma ReplayEndsAtHead(adapt: Adapter, cleared: Projection, table: seq<Row>, records: seq<Cold>)
    requires Replayed(adapt, cleared, table, records).Some?
    ensures
      var q := Replayed(adapt, cleared, table, records).value;
      CursorAtHead(q, table) && q.epoch == cleared.epoch && q.baseline == cleared.baseline
      && q.baselineHash == cleared.baselineHash && q.generation == cleared.generation
      && KeepsConfigs(cleared.configs, q.configs)
  {
    var b := ProjectAll(adapt, cleared.epoch, Open(cleared), records).value;
    ProjectingKeepsConfigs(adapt, cleared.epoch, Open(cleared), records);
    AtHeadMeaning(WithCursor(Rebuilt(WithBatch(cleared, b), b.touched), b, true), table);
  }

  /** Every day is still there, at a higher revision or waiting for one, with its acknowledgement. */
  ghost predicate KeepsDays(before: map<DayKey, DayState>, after: map<DayKey, DayState>) {
    forall key :: key in before ==> key in after && Republished(before[key], after[key])
  }

  predicate Republished(s: DayState, t: DayState) {
    t.acknowledged == s.acknowledged && (t.dayRevision > s.dayRevision || (t.dirty && t.dayRevision == s.dayRevision))
  }

  lemma ReplayKeepsDays(adapt: Adapter, p: Projection, table: seq<Row>, records: seq<Cold>)
    requires Replayed(adapt, Cleared(p), table, records).Some?
    ensures KeepsDays(p.days, Replayed(adapt, Cleared(p), table, records).value.days)
  {
    var cleared := Cleared(p);
    var b := ProjectAll(adapt, cleared.epoch, Open(cleared), records).value;
    var written := WithBatch(cleared, b);
    HeadKeepsDays(Rebuilt(written, b.touched), b, table);
    forall key | key in p.days ensures key in RebuiltDays(written, b.touched)
                                    && Republished(p.days[key], RebuiltDays(written, b.touched)[key]) {
      assert written.days[key].dirty && written.days[key].dayRevision == p.days[key].dayRevision;
    }
  }

  /** Once every dirty day is rebuilt, each day of before is at a higher revision. */
  lemma SettledDaysMoveOn(before: map<DayKey, DayState>, q: Projection, keys: set<DayKey>)
    requires KeepsDays(before, q.days) && CanRebuild(q, keys) && keys == DirtyKeys(q)
    ensures forall key :: key in before ==>
      && key in RebuiltDays(q, keys)
      && RebuiltDays(q, keys)[key].acknowledged == before[key].acknowledged
      && RebuiltDays(q, keys)[key].dayRevision > before[key].dayRevision
  {
  }

  /** Settling the days that are left changes none of it. */
  lemma SettlingTakesIn(
    adapt: Adapter, p: Projection, table: seq<Row>, cold: Files, q: Projection, keys: set<DayKey>, count: nat)
    requires TakesIn(adapt, p, table, cold, q, count) && CanRebuild(q, keys)
    ensures TakesIn(adapt, p, table, cold, Rebuilt(q, keys), count)
  {
  }
}
