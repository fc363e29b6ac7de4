/** What verification says after a stored record was edited behind the storage's back: the row is named,
    and the reason is its hash (crates/grith-audit/src/storage.rs, types.rs). */
module EditDetection {
  import opened Basics
  import opened Contract
  import opened Records
  import opened RecordHash
  import opened Sorting
  import opened Chain
  import opened ChainStore
  import opened TamperEvidence
  import opened VersionOne

  /** `UPDATE audit_log SET ... WHERE id`, on any columns but the chain columns. */
  function Edited(id: Uuid, content: AuditRecord, recordType: Option<string>, action: string): Row -> Row {
    (row: Row) =>
      if row.content.id == id then row.(content := content, rawRecordType := recordType, rawProxyAction := action)
      else row
  }

  /** The hash of the new content, at the row's own place, is not the stored one any more. */
  ghost predicate Exposed(h: Hasher, row: Row, content: AuditRecord) {
    h(content, Key(row), row.prevHash) != h(row.content, Key(row), row.prevHash)
  }

  /** The walk reaches the edited row and stops there. */
  lemma {:induction false} WalkStopsAtEdit(
    h: Hasher, rows: seq<Row>, start: int, seed: Option<string>, count: nat, k: nat, id: Uuid, content: AuditRecord,
    recordType: Option<string>, action: string)
    requires Linked(h, rows, start, seed) && k < |rows| && rows[k].content.id == id
    requires forall i :: 0 <= i < k ==> rows[i].content.id != id
    requires Exposed(h, rows[k], content)
    ensures Walk(h, Map(rows, Edited(id, content, recordType, action)), start, seed, count)
         == Broken(Key(rows[k]), content.id, RecordHashMismatch)
  {
    var edited := Map(rows, Edited(id, content, recordType, action));
    assert edited[0] == Edited(id, content, recordType, action)(rows[0]);
    if k > 0 {
      CheckRowMeaning(h, rows[0], start + 1, seed);
      assert edited[1..] == Map(rows[1..], Edited(id, content, recordType, action));
      WalkStopsAtEdit(h, rows[1..], start + 1, rows[0].recordHash, count + 1, k - 1, id, content, recordType, action);
    }
  }

  /** Updates that leave the sequences alone may be made before or after the queries. */
  lemma SequencesKept(table: seq<Row>, start: int, f: Row -> Row)
    requires forall row :: f(row).chainSequence == row.chainSequence
    ensures Segment(Map(table, f)) == Map(Segment(table), f)
    ensures SegmentAbove(Map(table, f), start) == Map(SegmentAbove(table, start), f)
  {
    FilterMap(table, Chained, f);
    SortMap(Filter(table, Chained), KeyLeq, f);
    FilterMap(Filter(table, Chained), Above(start), f);
    SortMap(Filter(Filter(table, Chained), Above(start)), KeyLeq, f);
  }

  lemma EditKeepsSequences(id: Uuid, content: AuditRecord, recordType: Option<string>, action: string)
    ensures forall row :: Edited(id, content, recordType, action)(row).chainSequence == row.chainSequence
  {
  }

  lemma EditKeepsSegment(table: seq<Row>, id: Uuid, content: AuditRecord, recordType: Option<string>, action: string)
    ensures
      var edit := Edited(id, content, recordType, action);
      Segment(Map(table, edit)) == Map(Segment(table), edit)
  {
    EditKeepsSequences(id, content, recordType, action);
    SequencesKept(table, 0, Edited(id, content, recordType, action));
  }

  lemma EditKeepsSegmentAbove(
    table: seq<Row>, start: int, id: Uuid, content: AuditRecord, recordType: Option<string>, action: string)
    ensures
      var edit := Edited(id, content, recordType, action);
      SegmentAbove(Map(table, edit), start) == Map(SegmentAbove(table, start), edit)
  {
    EditKeepsSequences(id, content, recordType, action);
    SequencesKept(table, start, Edited(id, content, recordType, action));
  }

  lemma EditKeepsLegacy(table: seq<Row>, id: Uuid, content: AuditRecord, recordType: Option<string>, action: string)
    requires Legacy(table) == []
    ensures Legacy(Map(table, Edited(id, content, recordType, action))) == []
  {
    var edit := Edited(id, content, recordType, action);
    FilterMap(table, Unchained, edit);
    SortKeepsElements(Filter(table, Unchained), TimeIdLeq);
    assert Filter(table, Unchained) == [];
    assert Map(Filter(table, Unchained), edit) == [];
  }

  /** The anchor reads only chain columns. */
  lemma EditKeepsAnchor(s: Store, id: Uuid, content: AuditRecord, recordType: Option<string>, action: string)
    ensures ResolveAnchor(Map(s.table, Edited(id, content, recordType, action)), s.boundary)
         == ResolveAnchor(s.table, s.boundary)
  {
    EditKeepsSegment(s.table, id, content, recordType, action);
    var rows := Segment(s.table);
    if rows != [] {
      assert Map(rows, Edited(id, content, recordType, action))[0]
          == Edited(id, content, recordType, action)(rows[0]);
    }
  }

  /** After an edit verification still walks over the whole segment. */
  lemma EditedVerdict(h: Hasher, s: Store, id: Uuid, content: AuditRecord, recordType: Option<string>, action: string)
    requires VerifyChain(h, s).Valid? && forall row :: row in Segment(s.table) ==> Key(row) > 0
    ensures
      var edit := Edited(id, content, recordType, action);
      var anchor := ResolveAnchor(s.table, s.boundary);
      VerifyChain(h, s.(table := Map(s.table, edit)))
      == Walk(h, Map(Segment(s.table), edit), AnchorStart(anchor), AnchorSeed(anchor), Max0(AnchorStart(anchor)))
  {
    var anchor := ResolveAnchor(s.table, s.boundary);
    EditKeepsAnchor(s, id, content, recordType, action);
    EditKeepsSegmentAbove(s.table, AnchorStart(anchor), id, content, recordType, action);
    if anchor.Anchored? {
      AnchoredSegment(s.table, AnchorStart(anchor));
    } else {
      PositiveSegment(s.table);
    }
    if AnchorStart(anchor) == 0 {
      EditKeepsLegacy(s.table, id, content, recordType, action);
    }
  }

  /** An edit that the row's hash exposes turns a Valid chain into one broken at that row, by its hash. */
  lemma EditIsReported(h: Hasher, s: Store, row: Row, content: AuditRecord, recordType: Option<string>, action: string)
    requires VerifyChain(h, s).Valid? && UniqueIds(s.table)
    requires forall other :: other in Segment(s.table) ==> Key(other) > 0
    requires row in Segment(s.table) && Exposed(h, row, content)
    ensures VerifyChain(h, s.(table := Map(s.table, Edited(row.content.id, content, recordType, action))))
         == Broken(Key(row), content.id, RecordHashMismatch)
  {
    var anchor := ResolveAnchor(s.table, s.boundary);
    EditedVerdict(h, s, row.content.id, content, recordType, action);
    ValidIsLinked(h, s);
    SegmentUniqueIds(s.table);
    EditedWalk(h, Segment(s.table), AnchorStart(anchor), AnchorSeed(anchor), row, content, recordType, action);
  }

  lemma EditedWalk(
    h: Hasher, rows: seq<Row>, start: int, seed: Option<string>, row: Row, content: AuditRecord,
    recordType: Option<string>, action: string)
    requires Linked(h, rows, start, seed) && UniqueIds(rows) && row in rows && Exposed(h, row, content)
    ensures Walk(h, Map(rows, Edited(row.content.id, content, recordType, action)), start, seed, Max0(start))
         == Broken(Key(row), content.id, RecordHashMismatch)
  {
    var k :| 0 <= k < |rows| && rows[k] == row;
    WalkStopsAtEdit(h, rows, start, seed, Max0(start), k, row.content.id, content, recordType, action);
  }

  // ---------- What incremental verification notices ----------

  /** Behind a checkpoint the pass walks over the rows above it. */
  lemma EditedIncrement(h: Hasher, s: Store, id: Uuid, content: AuditRecord, recordType: Option<string>, action: string)
    requires s.checkpoint.Some? && s.checkpoint.value.lastVerifiedSequence != 0 && s.table != []
    ensures
      var edit := Edited(id, content, recordType, action);
      var c := s.checkpoint.value;
      IncrementalResult(h, s.(table := Map(s.table, edit)))
      == Walk(h, Map(SegmentAbove(s.table, c.lastVerifiedSequence), edit), c.lastVerifiedSequence,
              c.lastVerifiedRecordHash, Max0(c.lastVerifiedSequence))
  {
    EditKeepsSegmentAbove(s.table, s.checkpoint.value.lastVerifiedSequence, id, content, recordType, action);
  }

  lemma {:induction false} EditElsewhere(
    rows: seq<Row>, id: Uuid, content: AuditRecord, recordType: Option<string>, action: string)
    requires forall i :: 0 <= i < |rows| ==> rows[i].content.id != id
    ensures Map(rows, Edited(id, content, recordType, action)) == rows
  {
  }

  lemma AboveMembers(table: seq<Row>, start: int)
    ensures forall row :: row in SegmentAbove(table, start) <==> row in table && Chained(row) && Key(row) > start
  {
    FilterElements(table, Chained);
    FilterElements(Filter(table, Chained), Above(start));
    SortKeepsElements(Filter(Filter(table, Chained), Above(start)), KeyLeq);
  }

  lemma AboveUniqueIds(table: seq<Row>, start: int)
    requires UniqueIds(table)
    ensures UniqueIds(SegmentAbove(table, start))
  {
    UniqueIdsFilter(table, Chained);
    UniqueIdsFilter(Filter(table, Chained), Above(start));
    SortKeepsElements(Filter(Filter(table, Chained), Above(start)), KeyLeq);
    UniqueIdsPermute(Filter(Filter(table, Chained), Above(start)), SegmentAbove(table, start));
  }

  /** An exposed edit changes the verdict of incremental verification exactly when its row lies above the
      checkpoint; then the row is named and its hash blamed. */
  lemma IncrementalNoticesIff(
    h: Hasher, s: Store, row: Row, content: AuditRecord, recordType: Option<string>, action: string)
    requires s.checkpoint.Some? && s.checkpoint.value.lastVerifiedSequence != 0 && UniqueIds(s.table)
    requires IncrementalResult(h, s).Valid? && row in s.table && Chained(row) && Exposed(h, row, content)
    ensures IncrementalResult(h, s.(table := Map(s.table, Edited(row.content.id, content, recordType, action)))) ==
      if Key(row) > s.checkpoint.value.lastVerifiedSequence then Broken(Key(row), content.id, RecordHashMismatch)
      else IncrementalResult(h, s)
  {
    var c := s.checkpoint.value;
    var rows := SegmentAbove(s.table, c.lastVerifiedSequence);
    EditedIncrement(h, s, row.content.id, content, recordType, action);
    AboveMembers(s.table, c.lastVerifiedSequence);
    if row in rows {
      AboveUniqueIds(s.table, c.lastVerifiedSequence);
      AboveLinked(h, s);
      EditedWalk(h, rows, c.lastVerifiedSequence, c.lastVerifiedRecordHash, row, content, recordType, action);
    } else {
      OthersAbove(s.table, c.lastVerifiedSequence, row);
      EditElsewhere(rows, row.content.id, content, recordType, action);
    }
  }

  lemma AboveLinked(h: Hasher, s: Store)
    requires s.checkpoint.Some? && s.checkpoint.value.lastVerifiedSequence != 0 && IncrementalResult(h, s).Valid?
    ensures
      var c := s.checkpoint.value;
      Linked(h, SegmentAbove(s.table, c.lastVerifiedSequence), c.lastVerifiedSequence, c.lastVerifiedRecordHash)
  {
    var c := s.checkpoint.value;
    var rows := SegmentAbove(s.table, c.lastVerifiedSequence);
    AboveMembers(s.table, c.lastVerifiedSequence);
    assert forall k :: 0 <= k < |rows| ==> rows[k] in rows;
    WalkMeaning(h, rows, c.lastVerifiedSequence, c.lastVerifiedRecordHash, Max0(c.lastVerifiedSequence));
  }

  lemma OthersAbove(table: seq<Row>, start: int, row: Row)
    requires UniqueIds(table) && row in table && row !in SegmentAbove(table, start)
    ensures forall i :: 0 <= i < |SegmentAbove(table, start)| ==>
      SegmentAbove(table, start)[i].content.id != row.content.id
  {
    var rows := SegmentAbove(table, start);
    AboveMembers(table, start);
    forall i | 0 <= i < |rows| ensures rows[i].content.id != row.content.id {
      assert rows[i] in rows;
      var j :| 0 <= j < |table| && table[j] == rows[i];
      var k :| 0 <= k < |table| && table[k] == row;
    }
  }

  // ---------- Edits the record hash exposes ----------

  /** The edited record as it would be read back from its row. */
  function EditedRecord(row: Row, content: AuditRecord): AuditRecord { Assemble(row.(content := content)) }

  /** A version-1 record with one covered field changed. */
  lemma FieldEditExposed(lib: Lib, row: Row, content: AuditRecord, field: Field)
    requires Faithful(lib) && row.chainSequence.Some?
    requires row.content.hashVersion == LEGACY_HASH_VERSION == content.hashVersion
    requires forall other :: other != field ==> AgreesOn(lib, Assemble(row), EditedRecord(row, content), other)
    requires !AgreesOn(lib, Assemble(row), EditedRecord(row, content), field)
    ensures Exposed(RecordHasher(lib), row, content)
  {
    var r := row.content.(chainSequence := row.chainSequence, prevHash := row.prevHash);
    var s := content.(chainSequence := row.chainSequence, prevHash := row.prevHash);
    forall other | other != field ensures AgreesOn(lib, r, s, other) {
      assert AgreesOn(lib, Assemble(row), EditedRecord(row, content), other);
    }
    if RecordHashOf(lib, r) == RecordHashOf(lib, s) {
      HashV1Reacts(lib, r, s, field);
    }
  }

  /** A version-2 or version-3 record with any covered field changed, its version included. */
  lemma EvidenceEditExposed(lib: Lib, row: Row, content: AuditRecord)
    requires Faithful(lib) && row.chainSequence.Some?
    requires FullyHashed(row.content) && Supported(content)
    requires row.content.hashVersion != content.hashVersion
             || Evidence(Assemble(row)) != Evidence(EditedRecord(row, content))
    ensures Exposed(RecordHasher(lib), row, content)
  {
    var r := row.content.(chainSequence := row.chainSequence, prevHash := row.prevHash);
    var s := content.(chainSequence := row.chainSequence, prevHash := row.prevHash);
    assert Evidence(Assemble(row)) == Evidence(r) && Evidence(EditedRecord(row, content)) == Evidence(s);
    if RecordHashOf(lib, r) == RecordHashOf(lib, s) {
      HashDeterminesEvidence(lib, r, s);
    }
  }

  /** A stored verdict that was flipped, in the typed and in the raw column, whatever the record's
      version: verification names the row and blames its hash. */
  lemma FlippedVerdictIsReported(lib: Lib, s: Store, row: Row, verdict: Verdict)
    requires Faithful(lib) && VerifyChain(RecordHasher(lib), s).Valid? && UniqueIds(s.table)
    requires forall other :: other in Segment(s.table) ==> Key(other) > 0
    requires row in Segment(s.table) && Supported(row.content) && verdict != row.content.proxyAction
    ensures
      var edit := Edited(row.content.id, row.content.(proxyAction := verdict), row.rawRecordType, VerdictName(verdict));
      VerifyChain(RecordHasher(lib), s.(table := Map(s.table, edit)))
      == Broken(Key(row), row.content.id, RecordHashMismatch)
  {
    SegmentMembers(s.table);
    FlipExposed(lib, row, verdict);
    EditIsReported(RecordHasher(lib), s, row, row.content.(proxyAction := verdict), row.rawRecordType,
      VerdictName(verdict));
  }

  lemma FlipExposed(lib: Lib, row: Row, verdict: Verdict)
    requires Faithful(lib) && row.chainSequence.Some? && Supported(row.content) && verdict != row.content.proxyAction
    ensures Exposed(RecordHasher(lib), row, row.content.(proxyAction := verdict))
  {
    var content := row.content.(proxyAction := verdict);
    if FullyHashed(row.content) {
      assert Evidence(Assemble(row)).proxyAction != Evidence(EditedRecord(row, content)).proxyAction;
      EvidenceEditExposed(lib, row, content);
    } else {
      FieldEditExposed(lib, row, content, VerdictField);
    }
  }
}
