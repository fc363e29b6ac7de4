/** Why the chain is evidence: from one hash at its end, every covered field of every row. */
module TamperEvidence {
  import opened Basics
  import opened Hexadecimal
  import opened Records
  import opened RecordHash
  import opened Chain
  import opened ChainStore
  import opened Agreement

  /** The hasher the storage really uses. */
  ghost function RecordHasher(lib: Lib): Hasher {
    (content: AuditRecord, sequence: int, prev: Option<string>) =>
      RecordHashOf(lib, content.(chainSequence := Some(sequence), prevHash := prev))
  }

  /** The row as the record it decodes to. */
  function Assemble(row: Row): AuditRecord {
    row.content.(chainSequence := row.chainSequence, prevHash := row.prevHash, recordHash := row.recordHash)
  }

  /** Same covered fields, same stored hash, same stored enum text; a NULL record type is only
      known to read as the same type. */
  predicate SameRow(a: Row, b: Row) {
    && Evidence(Assemble(a)) == Evidence(Assemble(b))
    && a.recordHash == b.recordHash
    && a.rawProxyAction == b.rawProxyAction
    && (a.rawRecordType.Some? && b.rawRecordType.Some? ==> a.rawRecordType == b.rawRecordType)
  }

  lemma EqualHashesEqualRows(lib: Lib, a: Row, m: int, p: Option<string>, b: Row, n: int, q: Option<string>)
    requires Faithful(lib) && RowOk(RecordHasher(lib), a, m, p) && RowOk(RecordHasher(lib), b, n, q)
    requires FullyHashed(a.content) && FullyHashed(b.content)
    requires a.recordHash == b.recordHash
    ensures m == n && p == q && SameRow(a, b)
  {
    var r := a.content.(chainSequence := Some(m), prevHash := p);
    var s := b.content.(chainSequence := Some(n), prevHash := q);
    HashDeterminesEvidence(lib, r, s);
    assert Evidence(r).chainSequence == Evidence(s).chainSequence && Evidence(r).prevHash == Evidence(s).prevHash;
    assert Evidence(r).proxyAction == Evidence(s).proxyAction && Evidence(r).recordType == Evidence(s).recordType;
    assert Evidence(Assemble(a)) == Evidence(r) && Evidence(Assemble(b)) == Evidence(s);
  }

  predicate Covered(row: Row) { FullyHashed(row.content) }

  lemma RecordHasherDetermines(lib: Lib)
    requires Faithful(lib)
    ensures HashDetermines(RecordHasher(lib), Covered, SameRow) && HashPlaces(RecordHasher(lib), Covered)
  {
    var h := RecordHasher(lib);
    forall a, m, p, b, n, q |
      RowOk(h, a, m, p) && RowOk(h, b, n, q) && Covered(a) && Covered(b) && a.recordHash == b.recordHash
      ensures m == n && p == q && SameRow(a, b)
    {
      EqualHashesEqualRows(lib, a, m, p, b, n, q);
    }
  }

  // ---------- Records of every version ----------

  predicate PlainPrev(prev: Option<string>) { prev.None? || (Unjoined(prev.value) && prev.value != GENESIS) }

  /** A hashed record, or a version-1 record whose predecessor is a plain text such as a digest. */
  predicate Traceable(row: Row) {
    FullyHashed(row.content) || (row.content.hashVersion == LEGACY_HASH_VERSION && PlainPrev(row.prevHash))
  }

  /** Same id, same stored hash, same predecessor; for hashed records, the same row. */
  predicate SameLink(a: Row, b: Row) {
    && a.content.id == b.content.id && a.recordHash == b.recordHash && a.prevHash == b.prevHash
    && (FullyHashed(a.content) ==> SameRow(a, b))
  }

  lemma EqualHashesSameLink(lib: Lib, a: Row, m: int, p: Option<string>, b: Row, n: int, q: Option<string>)
    requires Faithful(lib) && RowOk(RecordHasher(lib), a, m, p) && RowOk(RecordHasher(lib), b, n, q)
    requires Traceable(a) && Traceable(b) && a.recordHash == b.recordHash
    ensures p == q && SameLink(a, b)
  {
    var r := a.content.(chainSequence := Some(m), prevHash := p);
    var s := b.content.(chainSequence := Some(n), prevHash := q);
    SameVersions(lib, r, s);
    if FullyHashed(a.content) {
      EqualHashesEqualRows(lib, a, m, p, b, n, q);
      assert Evidence(Assemble(a)).id == Evidence(Assemble(b)).id;
    } else {
      SameVersionOne(lib, r, s);
    }
  }

  lemma SameVersionOne(lib: Lib, r: AuditRecord, s: AuditRecord)
    requires Faithful(lib) && RecordHashOf(lib, r) == RecordHashOf(lib, s)
    requires r.hashVersion == LEGACY_HASH_VERSION == s.hashVersion && PlainPrev(r.prevHash) && PlainPrev(s.prevHash)
    ensures r.id == s.id && r.prevHash == s.prevHash
  {
    NoCollision(lib, PreimageV1(lib, r), PreimageV1(lib, s));
    PreimageV1Determines(lib, r, s);
  }

  lemma SameVersions(lib: Lib, r: AuditRecord, s: AuditRecord)
    requires Faithful(lib) && Supported(r) && Supported(s) && RecordHashOf(lib, r) == RecordHashOf(lib, s)
    ensures r.hashVersion == s.hashVersion
  {
    if FullyHashed(r) {
      HashDeterminesEvidence(lib, r, s);
    } else if FullyHashed(s) {
      HashDeterminesEvidence(lib, s, r);
    }
  }

  lemma DigestIsPlain(lib: Lib, content: AuditRecord, n: int, prev: Option<string>)
    requires HexDigests(lib) && Supported(content)
    ensures PlainPrev(Some(RecordHasher(lib)(content, n, prev)))
  {
    HexIsNotGenesis(RecordHasher(lib)(content, n, prev));
  }

  lemma {:induction false} StampedTraceable(lib: Lib, batch: seq<AuditRecord>, last: int, prev: Option<string>)
    requires HexDigests(lib) && PlainPrev(prev) && forall r :: r in batch ==> Supported(r)
    ensures forall row :: row in StampAll(RecordHasher(lib), batch, last, prev) ==> Traceable(row)
  {
    if batch != [] {
      var row := Stamp(RecordHasher(lib), batch[0], last + 1, prev);
      DigestIsPlain(lib, batch[0], last + 1, prev);
      assert Traceable(row);
      StampedTraceable(lib, batch[1..], last + 1, row.recordHash);
    }
  }

  lemma CarriedIsPlain(lib: Lib, row: Row, n: int, prev: Option<string>)
    requires HexDigests(lib) && RowOk(RecordHasher(lib), row, n, prev) && Supported(row.content)
    ensures PlainPrev(row.recordHash)
  {
    DigestIsPlain(lib, row.content, n, prev);
  }

  lemma {:induction false} EndIsPlain(lib: Lib, rows: seq<Row>, start: int, seed: Option<string>)
    requires HexDigests(lib) && Linked(RecordHasher(lib), rows, start, seed) && (rows == [] ==> PlainPrev(seed))
    requires forall row :: row in rows ==> Traceable(row)
    ensures PlainPrev(EndHash(rows, seed))
  {
    if rows != [] {
      assert Traceable(rows[0]);
      CarriedIsPlain(lib, rows[0], start + 1, seed);
      EndIsPlain(lib, rows[1..], start + 1, rows[0].recordHash);
    }
  }

  lemma SameLinkKeeps()
    ensures forall row :: SameLink(row, row)
    ensures forall a, b :: SameLink(a, b) ==> a.recordHash == b.recordHash && a.content.id == b.content.id
  {
  }

  lemma RecordHasherLinks(lib: Lib)
    requires Faithful(lib)
    ensures HashDetermines(RecordHasher(lib), Traceable, SameLink)
  {
    var h := RecordHasher(lib);
    forall a, m, p, b, n, q |
      RowOk(h, a, m, p) && RowOk(h, b, n, q) && Traceable(a) && Traceable(b) && a.recordHash == b.recordHash
      ensures p == q && SameLink(a, b)
    {
      EqualHashesSameLink(lib, a, m, p, b, n, q);
    }
  }

  // ---------- Tamper evidence ----------

  /** Tamper evidence: two lists of rows that verify from one anchor and end in one record hash
      are the same rows. */
  lemma TamperEvident(lib: Lib, a: seq<Row>, b: seq<Row>, start: int, seed: Option<string>)
    requires Faithful(lib)
    requires (forall k :: 0 <= k < |a| ==> Chained(a[k])) && (forall k :: 0 <= k < |b| ==> Chained(b[k]))
    requires Walk(RecordHasher(lib), a, start, seed, 0).Valid? && Walk(RecordHasher(lib), b, start, seed, 0).Valid?
    requires (forall row :: row in a ==> Covered(row)) && (forall row :: row in b ==> Covered(row))
    requires a != [] && b != [] && a[|a| - 1].recordHash == b[|b| - 1].recordHash
    ensures |a| == |b| && forall k :: 0 <= k < |a| ==> SameRow(a[k], b[k])
  {
    WalkMeaning(RecordHasher(lib), a, start, seed, 0);
    WalkMeaning(RecordHasher(lib), b, start, seed, 0);
    RecordHasherDetermines(lib);
    AgreeThroughout(RecordHasher(lib), Covered, SameRow, a, b, start, seed);
  }

  function AnchorStart(a: AnchorResolution): int { if a.Anchored? then a.boundary.lastArchivedSequence else 0 }

  function AnchorSeed(a: AnchorResolution): Option<string> {
    if a.Anchored? then Some(a.boundary.lastArchivedRecordHash) else None
  }

  /** A Valid verdict over positive sequences is about the whole segment. */
  lemma ValidIsLinked(h: Hasher, s: Store)
    requires VerifyChain(h, s).Valid? && forall row :: row in Segment(s.table) ==> Key(row) > 0
    ensures
      var anchor := ResolveAnchor(s.table, s.boundary);
      Linked(h, Segment(s.table), AnchorStart(anchor), AnchorSeed(anchor))
  {
    var rows := Segment(s.table);
    var anchor := ResolveAnchor(s.table, s.boundary);
    SegmentMembers(s.table);
    assert forall k :: 0 <= k < |rows| ==> rows[k] in rows;
    if anchor.Anchored? {
      AnchoredSegment(s.table, AnchorStart(anchor));
    } else {
      PositiveSegment(s.table);
    }
    WalkMeaning(h, rows, AnchorStart(anchor), AnchorSeed(anchor), Max0(AnchorStart(anchor)));
  }

  /** Two databases that verify as Valid behind one anchor and whose heads carry one hash. */
  ghost predicate SameEnds(h: Hasher, covered: Row -> bool, s: Store, t: Store) {
    && VerifyChain(h, s).Valid? && VerifyChain(h, t).Valid?
    && ResolveAnchor(s.table, s.boundary) == ResolveAnchor(t.table, t.boundary)
    && (forall row :: row in Segment(s.table) ==> covered(row) && Key(row) > 0)
    && (forall row :: row in Segment(t.table) ==> covered(row) && Key(row) > 0)
    && Segment(s.table) != [] && Segment(t.table) != [] && ChainHead(s.table).0 == ChainHead(t.table).0
  }

  lemma ValidStoresAgree(h: Hasher, covered: Row -> bool, same: (Row, Row) -> bool, s: Store, t: Store)
    requires HashDetermines(h, covered, same) && HashPlaces(h, covered) && SameEnds(h, covered, s, t)
    ensures |Segment(s.table)| == |Segment(t.table)|
    ensures forall k :: 0 <= k < |Segment(s.table)| ==> same(Segment(s.table)[k], Segment(t.table)[k])
  {
    var anchor := ResolveAnchor(s.table, s.boundary);
    ValidIsLinked(h, s);
    ValidIsLinked(h, t);
    assert ChainHead(s.table).0 == Last(Segment(s.table)).recordHash;
    assert ChainHead(t.table).0 == Last(Segment(t.table)).recordHash;
    AgreeThroughout(h, covered, same, Segment(s.table), Segment(t.table), AnchorStart(anchor), AnchorSeed(anchor));
  }

  /** They hold the same chained rows. */
  lemma TamperEvidentStores(lib: Lib, s: Store, t: Store)
    requires Faithful(lib) && SameEnds(RecordHasher(lib), Covered, s, t)
    ensures |Segment(s.table)| == |Segment(t.table)|
    ensures forall k :: 0 <= k < |Segment(s.table)| ==> SameRow(Segment(s.table)[k], Segment(t.table)[k])
  {
    RecordHasherDetermines(lib);
    ValidStoresAgree(RecordHasher(lib), Covered, SameRow, s, t);
  }

  /** Two positions of one record share a hash only behind the same predecessor, as it is written. */
  ghost predicate LinkSensitive(h: Hasher, content: AuditRecord) {
    forall m, p, n, q :: h(content, m, p) == h(content, n, q) ==> PrevText(p) == PrevText(q)
  }

  ghost predicate AllLinkSensitive(h: Hasher, rows: seq<Row>) {
    forall i :: 0 <= i < |rows| ==> LinkSensitive(h, rows[i].content)
  }

  /** Every supported version covers at least the predecessor; version 1 covers no sequence. */
  lemma SupportedIsLinkSensitive(lib: Lib, content: AuditRecord)
    requires Faithful(lib) && Supported(content)
    ensures LinkSensitive(RecordHasher(lib), content)
  {
    var h := RecordHasher(lib);
    forall m, p, n, q | h(content, m, p) == h(content, n, q) ensures PrevText(p) == PrevText(q) {
      if FullyHashed(content) {
        FullyHashedIsSensitive(lib, content);
      } else {
        FieldsV1Cancel(lib, content.(chainSequence := Some(m), prevHash := p),
          content.(chainSequence := Some(n), prevHash := q));
      }
    }
  }

  lemma VersionOneForgetsSequence(lib: Lib, content: AuditRecord, m: int, n: int, prev: Option<string>)
    requires content.hashVersion == LEGACY_HASH_VERSION
    ensures RecordHasher(lib)(content, m, prev) == RecordHasher(lib)(content, n, prev)
  {
  }

  /** No digest in hexadecimal is the word for no predecessor. */
  lemma HashIsNotGenesis(lib: Lib, content: AuditRecord, n: int, prev: Option<string>)
    requires HexDigests(lib)
    ensures RecordHasher(lib)(content, n, prev) != GENESIS
  {
    var r := content.(chainSequence := Some(n), prevHash := prev);
    if Supported(r) {
      assert LowerHex(RecordHashOf(lib, r));
      HexIsNotGenesis(RecordHashOf(lib, r));
    } else {
      assert RecordHashOf(lib, r)[0] == 'U' && GENESIS[0] == 'G';
    }
  }

  lemma HexIsNotGenesis(s: string)
    requires LowerHex(s)
    ensures s != GENESIS && Unjoined(s)
  {
    assert GENESIS[0] == 'G';
  }

  /** No two positions of one record share a hash. */
  ghost predicate Sensitive(h: Hasher, content: AuditRecord) {
    forall m, p, n, q :: h(content, m, p) == h(content, n, q) ==> m == n && p == q
  }

  lemma FullyHashedIsSensitive(lib: Lib, content: AuditRecord)
    requires Faithful(lib) && FullyHashed(content)
    ensures Sensitive(RecordHasher(lib), content)
  {
    var h := RecordHasher(lib);
    forall m, p, n, q | h(content, m, p) == h(content, n, q) ensures m == n && p == q {
      var r := content.(chainSequence := Some(m), prevHash := p);
      var s := content.(chainSequence := Some(n), prevHash := q);
      HashDeterminesEvidence(lib, r, s);
      assert Evidence(r).chainSequence == Evidence(s).chainSequence && Evidence(r).prevHash == Evidence(s).prevHash;
    }
  }
}
