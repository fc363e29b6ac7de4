/** What one tail pass of crates/grith-audit/src/analytics.rs reads, when it fails and what it leaves in the
    tables. */
module TailMeaning {
  import opened Basics
  import opened Records
  import opened Sorting
  import opened Chain
  import opened ColdFiles
  import opened SnapshotOrder
  import opened Projection
  import opened RebuildCoverage

  // ---------- What is read ----------

  predicate AboveCursor(table: seq<Row>, cursor: int, row: Row) {
    row in table && row.chainSequence.Some? && row.chainSequence.value > cursor
  }

  /** The lowest sequences above the cursor, ascending, as many as the limit allows. */
  ghost predicate NextRows(table: seq<Row>, cursor: int, limit: nat, read: seq<Row>) {
    && |read| <= limit
    && (forall row :: row in read ==> AboveCursor(table, cursor, row))
    && (forall i, j :: 0 <= i < j < |read| ==> Key(read[i]) <= Key(read[j]))
    && (forall row :: AboveCursor(table, cursor, row) && row !in read ==>
          |read| == limit && forall kept :: kept in read ==> Key(kept) <= Key(row))
  }

  /** The rows as records. */
  ghost predicate RecordsOf(read: seq<Row>, records: seq<Cold>) {
    |records| == |read| && forall k :: 0 <= k < |read| ==>
      records[k] == Cold(read[k].content, read[k].chainSequence, read[k].prevHash, read[k].recordHash)
  }

  lemma SegmentAboveMeans(table: seq<Row>, cursor: int)
    ensures forall row :: row in SegmentAbove(table, cursor) <==> AboveCursor(table, cursor, row)
    ensures forall i, j :: 0 <= i < j < |SegmentAbove(table, cursor)| ==>
      Key(SegmentAbove(table, cursor)[i]) <= Key(SegmentAbove(table, cursor)[j])
  {
    FilterElements(table, Chained);
    FilterElements(Filter(table, Chained), Above(cursor));
    SortKeepsElements(Filter(Filter(table, Chained), Above(cursor)), KeyLeq);
    SortSorts(Filter(Filter(table, Chained), Above(cursor)), KeyLeq);
    var rows := SegmentAbove(table, cursor);
    forall i, j | 0 <= i < j < |rows| ensures Key(rows[i]) <= Key(rows[j]) {
      assert KeyLeq(rows[i], rows[j]);
    }
  }

  lemma TailReads(table: seq<Row>, cursor: int, limit: nat) returns (read: seq<Row>)
    ensures NextRows(table, cursor, limit, read) && RecordsOf(read, ReadTail(table, cursor, limit))
  {
    var rows := SegmentAbove(table, cursor);
    SegmentAboveMeans(table, cursor);
    read := if |rows| <= limit then rows else rows[..limit];
    forall row | AboveCursor(table, cursor, row)
      ensures row in read || (|read| == limit && forall kept :: kept in read ==> Key(kept) <= Key(row))
    {
      assert row in rows;
      var j :| 0 <= j < |rows| && rows[j] == row;
      if j < |read| {
        assert read[j] == row;
      }
    }
  }

  // ---------- When a batch is refused ----------

  /** Where the adapter expresses the record, what it reads as must be what is stored under its id, and its
      configuration what is stored under its hash. */
  ghost predicate FitsStored(
    adapt: Adapter, events: map<Uuid, SourceEvent>, configs: map<string, ConfigFacts>, c: Cold)
  {
    adapt(c).Some? ==>
      && (adapt(c).value.eventId in events ==> events[adapt(c).value.eventId].event == adapt(c).value)
      && (forall m :: c.content.analyticsMetadata == Some(m) && m.config.configHash in configs ==>
            configs[m.config.configHash] == m.config)
  }

  /** No two of them read as different events of one id or name different facts by one hash. */
  ghost predicate FitTogether(adapt: Adapter, c: Cold, d: Cold) {
    adapt(c).Some? && adapt(d).Some? ==>
      && (adapt(c).value.eventId == adapt(d).value.eventId ==> adapt(c) == adapt(d))
      && (forall m, n ::
            (c.content.analyticsMetadata == Some(m) && d.content.analyticsMetadata == Some(n)
             && m.config.configHash == n.config.configHash) ==>
              m.config == n.config)
  }

  ghost predicate Compatible(
    adapt: Adapter, events: map<Uuid, SourceEvent>, configs: map<string, ConfigFacts>, records: seq<Cold>)
  {
    && (forall c :: c in records ==> FitsStored(adapt, events, configs, c))
    && (forall c, d :: c in records && d in records ==> FitTogether(adapt, c, d))
  }

  lemma OneFits(adapt: Adapter, epoch: nat, b: OpenBatch, c: Cold)
    ensures ProjectOne(adapt, epoch, b, c).Ok? <==> FitsStored(adapt, b.events, b.configs, c)
  {
    if adapt(c).Some? && c.content.analyticsMetadata.Some? {
      var m := c.content.analyticsMetadata.value;
      assert c.content.analyticsMetadata == Some(m);
    }
  }

  /** Behind the first record, a record fits exactly if it fitted before and fits together with it. */
  lemma FitsNext(adapt: Adapter, epoch: nat, b: OpenBatch, c: Cold, d: Cold)
    requires ProjectOne(adapt, epoch, b, c).Ok?
    ensures
      var next := ProjectOne(adapt, epoch, b, c).value;
      FitsStored(adapt, next.events, next.configs, d)
      <==> FitsStored(adapt, b.events, b.configs, d) && FitTogether(adapt, c, d)
  {
    OneFits(adapt, epoch, b, c);
    if adapt(d).Some? && d.content.analyticsMetadata.Some? {
      var m := d.content.analyticsMetadata.value;
      assert d.content.analyticsMetadata == Some(m);
      if adapt(c).Some? && c.content.analyticsMetadata.Some? {
        var n := c.content.analyticsMetadata.value;
        assert c.content.analyticsMetadata == Some(n);
      }
    }
  }

  /** A batch is projected exactly when its records are compatible with the tables and each other. */
  lemma {:induction false} ProjectsIff(adapt: Adapter, epoch: nat, b: OpenBatch, records: seq<Cold>)
    ensures ProjectAll(adapt, epoch, b, records).Ok? <==> Compatible(adapt, b.events, b.configs, records)
    decreases |records|
  {
    if records != [] {
      OneFits(adapt, epoch, b, records[0]);
      assert records == [records[0]] + records[1..];
      if ProjectOne(adapt, epoch, b, records[0]).Ok? {
        ProjectsIff(adapt, epoch, ProjectOne(adapt, epoch, b, records[0]).value, records[1..]);
        CompatibleSplits(adapt, epoch, b, records);
      }
    }
  }

  lemma CompatibleSplits(adapt: Adapter, epoch: nat, b: OpenBatch, records: seq<Cold>)
    requires records != [] && ProjectOne(adapt, epoch, b, records[0]).Ok?
    ensures
      var next := ProjectOne(adapt, epoch, b, records[0]).value;
      Compatible(adapt, b.events, b.configs, records)
      <==> Compatible(adapt, next.events, next.configs, records[1..])
  {
    var next := ProjectOne(adapt, epoch, b, records[0]).value;
    OneFits(adapt, epoch, b, records[0]);
    assert records == [records[0]] + records[1..];
    forall d ensures FitsStored(adapt, next.events, next.configs, d)
                <==> FitsStored(adapt, b.events, b.configs, d) && FitTogether(adapt, records[0], d)
    {
      FitsNext(adapt, epoch, b, records[0], d);
    }
    if Compatible(adapt, next.events, next.configs, records[1..]) {
      forall c, d | c in records && d in records ensures FitTogether(adapt, c, d) {
        if c == records[0] && d in records[1..] {
          assert FitsStored(adapt, next.events, next.configs, d);
        } else if d == records[0] && c in records[1..] {
          assert FitsStored(adapt, next.events, next.configs, c);
        }
      }
    }
  }

  // ---------- Configurations ----------

  /** The configuration is one a record of the batch names. */
  ghost predicate Named(adapt: Adapter, records: seq<Cold>, hash: string, facts: ConfigFacts) {
    exists c, m :: c in records && adapt(c).Some? && c.content.analyticsMetadata == Some(m)
                   && m.config == facts && facts.configHash == hash
  }

  ghost predicate ConfigsGrow(
    adapt: Adapter, records: seq<Cold>, before: map<string, ConfigFacts>, after: map<string, ConfigFacts>)
  {
    && (forall hash :: hash in before ==> hash in after && after[hash] == before[hash])
    && (forall hash :: hash in after && hash !in before ==> Named(adapt, records, hash, after[hash]))
    && (forall c, m :: c in records && adapt(c).Some? && c.content.analyticsMetadata == Some(m) ==>
          m.config.configHash in after && after[m.config.configHash] == m.config)
  }

  lemma OneConfig(adapt: Adapter, epoch: nat, b: OpenBatch, c: Cold)
    requires ProjectOne(adapt, epoch, b, c).Ok?
    ensures
      var after := ProjectOne(adapt, epoch, b, c).value.configs;
      && (forall hash :: hash in b.configs ==> hash in after && after[hash] == b.configs[hash])
      && (forall hash :: hash in after && hash !in b.configs ==>
            adapt(c).Some? && c.content.analyticsMetadata.Some?
            && c.content.analyticsMetadata.value.config == after[hash] && after[hash].configHash == hash)
      && (adapt(c).Some? && c.content.analyticsMetadata.Some? ==>
            var facts := c.content.analyticsMetadata.value.config;
            facts.configHash in after && after[facts.configHash] == facts)
  {
  }

  lemma {:induction false} ProjectedConfigs(adapt: Adapter, epoch: nat, b: OpenBatch, records: seq<Cold>)
    requires ProjectAll(adapt, epoch, b, records).Ok?
    ensures ConfigsGrow(adapt, records, b.configs, ProjectAll(adapt, epoch, b, records).value.configs)
    decreases |records|
  {
    if records != [] {
      var next := ProjectOne(adapt, epoch, b, records[0]).value;
      OneConfig(adapt, epoch, b, records[0]);
      ProjectedConfigs(adapt, epoch, next, records[1..]);
      ConfigsGrowOn(adapt, records, b.configs, next.configs, ProjectAll(adapt, epoch, b, records).value.configs);
    }
  }

  lemma ConfigsGrowOn(
    adapt: Adapter, records: seq<Cold>, before: map<string, ConfigFacts>, next: map<string, ConfigFacts>,
    after: map<string, ConfigFacts>)
    requires records != [] && ConfigsGrow(adapt, records[1..], next, after)
    requires forall hash :: hash in before ==> hash in next && next[hash] == before[hash]
    requires forall hash :: hash in next && hash !in before ==>
      && adapt(records[0]).Some? && records[0].content.analyticsMetadata.Some?
      && records[0].content.analyticsMetadata.value.config == next[hash] && next[hash].configHash == hash
    requires adapt(records[0]).Some? && records[0].content.analyticsMetadata.Some? ==>
      var facts := records[0].content.analyticsMetadata.value.config;
      facts.configHash in next && next[facts.configHash] == facts
    ensures ConfigsGrow(adapt, records, before, after)
  {
    assert records == [records[0]] + records[1..];
    forall hash | hash in after && hash !in before ensures Named(adapt, records, hash, after[hash]) {
      if hash in next {
        var m := records[0].content.analyticsMetadata.value;
        assert records[0] in records && records[0].content.analyticsMetadata == Some(m);
      } else {
        var c, m :| c in records[1..] && adapt(c).Some? && c.content.analyticsMetadata == Some(m)
                    && m.config == after[hash] && after[hash].configHash == hash;
        assert c in records;
      }
    }
  }

  // ---------- The pass ----------

  ghost predicate NewDays(p: Projection, events: map<Uuid, SourceEvent>, days: map<DayKey, DayState>) {
    && (forall key :: key in p.days ==> key in days && days[key] == p.days[key].(dirty := days[key].dirty))
    && (forall key :: key in days && key !in p.days ==>
          days[key] == DayState(0, p.generation, true, DayHeader(0, None, None, None, None, None), None, None))
    && (forall key :: key in days && (key in p.days ==> days[key] != p.days[key]) ==> days[key].dirty)
    && (forall id :: id in events && id !in p.events ==>
          DayOfEvent(events[id]) in days && days[DayOfEvent(events[id])].dirty)
  }

  /** The UTC day of the event, in its epoch. */
  function DayOfEvent(s: SourceEvent): DayKey { DayKey(s.epoch, s.event.occurredAt / 86_400_000_000) }

  ghost predicate EventsGrow(
    adapt: Adapter, epoch: nat, records: seq<Cold>, before: map<Uuid, SourceEvent>, after: map<Uuid, SourceEvent>)
  {
    && (forall id :: id in before ==> id in after && after[id] == before[id])
    && (forall c :: c in records && adapt(c).Some? ==>
          adapt(c).value.eventId in after && after[adapt(c).value.eventId].event == adapt(c).value)
    && (forall id :: id in after && id !in before ==>
          after[id].epoch == epoch && after[id].event.eventId == id
          && exists c :: c in records && adapt(c) == Some(after[id].event))
  }

  /** What a pass over these rows leaves: events, configurations and days grow by what they name, the cursor
      is at the last of them, and each record the adapter cannot express is one more gap. */
  ghost predicate TailTakes(adapt: Adapter, p: Projection, read: seq<Row>, records: seq<Cold>, q: Projection) {
    && EventsGrow(adapt, p.epoch, records, p.events, q.events)
    && ConfigsGrow(adapt, records, p.configs, q.configs)
    && NewDays(p, q.events, q.days)
    && q == p.(events := q.events, configs := q.configs, days := q.days, cursor := q.cursor,
               cursorHash := q.cursorHash, gapCount := q.gapCount)
    && (read == [] ==> q == p)
    && (read != [] ==> q.cursor == Key(read[|read| - 1]) && q.cursorHash == read[|read| - 1].recordHash)
    && q.gapCount == p.gapCount + |Filter(records, Gap(adapt))|
  }

  /** The last record of a batch in sequence order sets the cursor. */
  lemma {:induction false} LastSets(adapt: Adapter, epoch: nat, a: OpenBatch, records: seq<Cold>)
    requires ProjectAll(adapt, epoch, a, records).Ok? && records != []
    requires forall k :: 0 <= k < |records| ==> records[k].chainSequence.Some?
    requires forall i, j :: 0 <= i < j < |records| ==>
               records[i].chainSequence.value <= records[j].chainSequence.value
    requires a.last.Some? ==> a.last.value <= records[0].chainSequence.value
    ensures
      var b := ProjectAll(adapt, epoch, a, records).value;
      b.last == records[|records| - 1].chainSequence && b.lastHash == records[|records| - 1].recordHash
    decreases |records|
  {
    var next := ProjectOne(adapt, epoch, a, records[0]).value;
    assert next.last == records[0].chainSequence && next.lastHash == records[0].recordHash;
    if |records| > 1 {
      assert records[1..][0] == records[1];
      LastSets(adapt, epoch, next, records[1..]);
    }
  }

  lemma BatchEvents(adapt: Adapter, epoch: nat, a: OpenBatch, records: seq<Cold>)
    requires ProjectAll(adapt, epoch, a, records).Ok?
    ensures
      var b := ProjectAll(adapt, epoch, a, records).value;
      && EventsGrow(adapt, epoch, records, a.events, b.events)
      && forall id :: id in b.events && id !in a.events ==> KeyOf(b.events[id]) in b.touched
  {
    ProjectGrows(adapt, epoch, a, records);
    ProjectedEvents(adapt, epoch, a, records);
  }

  lemma BatchLast(adapt: Adapter, epoch: nat, a: OpenBatch, read: seq<Row>, records: seq<Cold>)
    requires RecordsOf(read, records) && read != [] && ProjectAll(adapt, epoch, a, records).Ok? && a.last.None?
    requires forall row :: row in read ==> row.chainSequence.Some?
    requires forall i, j :: 0 <= i < j < |read| ==> Key(read[i]) <= Key(read[j])
    ensures
      var b := ProjectAll(adapt, epoch, a, records).value;
      b.last == Some(Key(read[|read| - 1])) && b.lastHash == read[|read| - 1].recordHash
  {
    assert forall k :: 0 <= k < |read| ==> read[k] in read;
    assert forall k :: 0 <= k < |records| ==> records[k].chainSequence == Some(Key(read[k]));
    LastSets(adapt, epoch, a, records);
  }

  lemma TakesFromBatch(adapt: Adapter, p: Projection, read: seq<Row>, records: seq<Cold>, b: OpenBatch)
    requires EventsGrow(adapt, p.epoch, records, p.events, b.events)
    requires ConfigsGrow(adapt, records, p.configs, b.configs)
    requires forall id :: id in b.events && id !in p.events ==> KeyOf(b.events[id]) in b.touched
    requires read != [] && b.last == Some(Key(read[|read| - 1])) && b.lastHash == read[|read| - 1].recordHash
    requires b.skipped == |Filter(records, Gap(adapt))|
    ensures TailTakes(adapt, p, read, records, WithCursor(WithBatch(p, b), b, false))
  {
    MarkedDays(p, b.events, b.touched);
  }

  lemma BatchTakes(adapt: Adapter, p: Projection, read: seq<Row>, records: seq<Cold>)
    requires RecordsOf(read, records) && read != [] && ProjectAll(adapt, p.epoch, Open(p), records).Ok?
    requires forall row :: row in read ==> row.chainSequence.Some?
    requires forall i, j :: 0 <= i < j < |read| ==> Key(read[i]) <= Key(read[j])
    ensures
      var b := ProjectAll(adapt, p.epoch, Open(p), records).value;
      TailTakes(adapt, p, read, records, WithCursor(WithBatch(p, b), b, false))
  {
    BatchEvents(adapt, p.epoch, Open(p), records);
    ProjectedGaps(adapt, p.epoch, Open(p), records);
    ProjectedConfigs(adapt, p.epoch, Open(p), records);
    BatchLast(adapt, p.epoch, Open(p), read, records);
    TakesFromBatch(adapt, p, read, records, ProjectAll(adapt, p.epoch, Open(p), records).value);
  }

  lemma MarkedDays(p: Projection, events: map<Uuid, SourceEvent>, touched: set<DayKey>)
    requires forall id :: id in events && id !in p.events ==> KeyOf(events[id]) in touched
    ensures NewDays(p, events, Marked(p.days, touched, p.generation))
  {
  }

  /** A pass without a crash takes the lowest sequences above the cursor, between 1 and 2,048 of them as asked;
      it succeeds exactly when they are compatible with the tables and each other. */
  lemma TailPassMeans(adapt: Adapter, p: Projection, table: seq<Row>, batchSize: nat)
    returns (read: seq<Row>, records: seq<Cold>)
    ensures
      var limit := if batchSize == 0 then 1 else if batchSize > 2_048 then 2_048 else batchSize;
      NextRows(table, p.cursor, limit, read) && RecordsOf(read, records)
    ensures
      var (q, r) := AfterTail(adapt, p, table, batchSize, NoCrash);
      && (r.Ok? <==> Compatible(adapt, p.events, p.configs, records))
      && (r.Ok? ==> r.value == |read| && TailTakes(adapt, p, read, records, q))
      && (r.Err? ==> q == p)
  {
    read := TailReads(table, p.cursor, Limit(batchSize));
    records := ReadTail(table, p.cursor, Limit(batchSize));
    ProjectsIff(adapt, p.epoch, Open(p), records);
    if records == [] {
      NothingTaken(adapt, p);
    } else if Compatible(adapt, p.events, p.configs, records) {
      BatchTakes(adapt, p, read, records);
    }
  }

  lemma NothingTaken(adapt: Adapter, p: Projection)
    ensures TailTakes(adapt, p, [], [], p)
  {
  }
}
