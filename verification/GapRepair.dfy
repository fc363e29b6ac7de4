/** Which gaps `repair_chain` of crates/grith-audit/src/storage.rs closes, said by what the table
    stores: it compares nothing but hashes, and the version-1 hash does not cover the sequence. */
module GapRepair {
  import opened Basics
  import opened Records
  import opened Sorting
  import opened Chain
  import opened ChainStore
  import opened Repair
  import opened RecordHash
  import opened TamperEvidence

  /** Every stored hash is the one its content gives at the position it is stored with. */
  predicate SelfConsistent(h: Hasher, rows: seq<Row>) {
    forall k :: 0 <= k < |rows| ==>
      Chained(rows[k]) && rows[k].recordHash == Some(h(rows[k].content, Key(rows[k]), rows[k].prevHash))
  }

  ghost predicate AllSensitive(h: Hasher, rows: seq<Row>) {
    forall k :: 0 <= k < |rows| ==> Sensitive(h, rows[k].content)
  }

  /** The repair yields a chain that verifies as Valid over all its rows. */
  predicate Mended(h: Hasher, s: Store) { VerifyChain(h, AfterRepair(h, s)) == Valid(|Segment(s.table)|) }

  lemma SettledMends(h: Hasher, s: Store, settled: bool)
    requires Segment(s.table) != [] && UniqueIds(s.table) && PositiveKeys(s.table)
    requires Legacy(s.table) == [] && AllCanonical(Segment(s.table))
    requires Settled(h, Segment(s.table), 0, None) <==> settled
    ensures Mended(h, s) <==> settled
  {
    RepairValidIff(h, s);
  }

  // ---------- Rows whose hash covers their position ----------

  lemma {:induction false} SensitiveSettles(h: Hasher, rows: seq<Row>, start: int, prev: Option<string>)
    requires SelfConsistent(h, rows) && AllSensitive(h, rows)
    ensures Settled(h, rows, start, prev)
  {
    if rows != [] {
      assert Sensitive(h, rows[0].content);
      SensitiveSettles(h, rows[1..], start + 1, RepairedRow(h, rows[0], start + 1, prev).recordHash);
    }
  }

  /** Whatever gaps and forks the sequences have and whatever the rows name as predecessors: if every
      hash is the row's own and covers its position, the repair yields 1..n, all of it verified. */
  lemma RepairMends(h: Hasher, s: Store)
    requires Segment(s.table) != [] && UniqueIds(s.table) && PositiveKeys(s.table)
    requires Legacy(s.table) == [] && AllCanonical(Segment(s.table))
    requires SelfConsistent(h, Segment(s.table)) && AllSensitive(h, Segment(s.table))
    ensures Mended(h, s)
  {
    SensitiveSettles(h, Segment(s.table), 0, None);
    SettledMends(h, s, true);
  }

  /** So it is for version-2 and version-3 records. */
  lemma RepairMendsRecords(lib: Lib, s: Store)
    requires Faithful(lib) && Segment(s.table) != [] && UniqueIds(s.table) && PositiveKeys(s.table)
    requires Legacy(s.table) == [] && AllCanonical(Segment(s.table))
    requires SelfConsistent(RecordHasher(lib), Segment(s.table))
    requires forall k :: 0 <= k < |Segment(s.table)| ==> FullyHashed(Segment(s.table)[k].content)
    ensures Mended(RecordHasher(lib), s)
  {
    forall k | 0 <= k < |Segment(s.table)| ensures Sensitive(RecordHasher(lib), Segment(s.table)[k].content) {
      FullyHashedIsSensitive(lib, Segment(s.table)[k].content);
    }
    RepairMends(RecordHasher(lib), s);
  }

  // ---------- Linked rows with a gap ----------

  /** Each row names the hash of the row before it. */
  predicate HashLinked(rows: seq<Row>, prev: Option<string>) {
    rows == [] || (rows[0].prevHash == prev && HashLinked(rows[1..], rows[0].recordHash))
  }

  /** Row `j` is the first whose sequence is not its place behind `start`. */
  predicate FirstOff(rows: seq<Row>, start: int, j: nat) {
    && j < |rows| && Key(rows[j]) != start + 1 + j
    && forall k :: 0 <= k < j ==> Key(rows[k]) == start + 1 + k
  }

  /** The row's hash at its stored sequence is not its hash at another one. */
  predicate TellsFrom(h: Hasher, row: Row, sequence: int) {
    h(row.content, sequence, row.prevHash) != h(row.content, Key(row), row.prevHash)
  }

  /** Behind another predecessor every hash changes, row after row. */
  lemma {:induction false} MovedSettles(
    h: Hasher, rows: seq<Row>, start: int, seed: Option<string>, prev: Option<string>)
    requires SelfConsistent(h, rows) && AllLinkSensitive(h, rows) && HashLinked(rows, seed)
    requires PrevText(seed) != PrevText(prev)
    ensures Settled(h, rows, start, prev)
  {
    if rows != [] {
      var row := RepairedRow(h, rows[0], start + 1, prev);
      assert LinkSensitive(h, rows[0].content);
      assert rows[0].recordHash != row.recordHash;
      MovedSettles(h, rows[1..], start + 1, rows[0].recordHash, row.recordHash);
    }
  }

  lemma {:induction false} GapSettlesIff(h: Hasher, rows: seq<Row>, start: int, prev: Option<string>, j: nat)
    requires SelfConsistent(h, rows) && AllLinkSensitive(h, rows) && HashLinked(rows, prev)
    requires FirstOff(rows, start, j)
    ensures Settled(h, rows, start, prev) <==> TellsFrom(h, rows[j], start + 1 + j)
  {
    if j == 0 {
      OffAtOnce(h, rows, start, prev);
    } else {
      InPlace(h, rows, start, prev);
      GapSettlesIff(h, rows[1..], start + 1, rows[0].recordHash, j - 1);
    }
  }

  lemma InPlace(h: Hasher, rows: seq<Row>, start: int, prev: Option<string>)
    requires SelfConsistent(h, rows) && HashLinked(rows, prev) && rows != [] && Key(rows[0]) == start + 1
    ensures RepairedRow(h, rows[0], start + 1, prev) == rows[0]
    ensures Settled(h, rows, start, prev) <==> Settled(h, rows[1..], start + 1, rows[0].recordHash)
  {
  }

  lemma OffAtOnce(h: Hasher, rows: seq<Row>, start: int, prev: Option<string>)
    requires SelfConsistent(h, rows) && AllLinkSensitive(h, rows) && HashLinked(rows, prev)
    requires rows != [] && Key(rows[0]) != start + 1
    ensures Settled(h, rows, start, prev) <==> TellsFrom(h, rows[0], start + 1)
  {
    var row := RepairedRow(h, rows[0], start + 1, prev);
    if rows[0].recordHash != row.recordHash {
      MovedSettles(h, rows[1..], start + 1, rows[0].recordHash, row.recordHash);
    }
  }

  /** Over rows that are linked by their hashes but not numbered 1..n, the repair yields a valid chain
      exactly when the hash of the first row out of place covers its sequence. */
  lemma GapClosesIff(h: Hasher, s: Store, j: nat)
    requires UniqueIds(s.table) && PositiveKeys(s.table) && Legacy(s.table) == []
    requires SelfConsistent(h, Segment(s.table)) && AllCanonical(Segment(s.table))
    requires AllLinkSensitive(h, Segment(s.table))
    requires HashLinked(Segment(s.table), None) && FirstOff(Segment(s.table), 0, j)
    ensures Mended(h, s) <==> TellsFrom(h, Segment(s.table)[j], 0 + 1 + j)
  {
    GapSettlesIff(h, Segment(s.table), 0, None, j);
    SettledMends(h, s, TellsFrom(h, Segment(s.table)[j], 0 + 1 + j));
  }

  /** With the record hash itself: exactly when that row is of version 2 or 3. */
  lemma RecordGapClosesIff(lib: Lib, s: Store, j: nat)
    requires Faithful(lib) && UniqueIds(s.table) && PositiveKeys(s.table) && Legacy(s.table) == []
    requires SelfConsistent(RecordHasher(lib), Segment(s.table)) && AllCanonical(Segment(s.table))
    requires forall k :: 0 <= k < |Segment(s.table)| ==> Supported(Segment(s.table)[k].content)
    requires HashLinked(Segment(s.table), None) && FirstOff(Segment(s.table), 0, j)
    ensures Mended(RecordHasher(lib), s) <==> FullyHashed(Segment(s.table)[j].content)
  {
    var row := Segment(s.table)[j];
    forall k | 0 <= k < |Segment(s.table)| ensures LinkSensitive(RecordHasher(lib), Segment(s.table)[k].content) {
      SupportedIsLinkSensitive(lib, Segment(s.table)[k].content);
    }
    GapClosesIff(RecordHasher(lib), s, j);
    if FullyHashed(row.content) {
      FullyHashedIsSensitive(lib, row.content);
    } else {
      VersionOneForgetsSequence(lib, row.content, 0 + 1 + j, Key(row), row.prevHash);
    }
  }

  // ---------- A gap that stays ----------

  /** Two rows at sequences 1 and 3, each with its own hash and the right predecessor. */
  predicate Gap(h: Hasher, a: Row, b: Row) {
    RowOk(h, a, 1, None) && RowOk(h, b, 3, a.recordHash) && a.content.id != b.content.id
  }

  function GapStore(a: Row, b: Row): Store { Store([a, b], None, None, None) }

  /** When the second hash does not cover its sequence, the repair changes nothing, counts nothing and
      leaves the chain as broken as it was. */
  lemma GapStays(h: Hasher, a: Row, b: Row)
    requires Gap(h, a, b) && h(b.content, 2, a.recordHash) == h(b.content, 3, a.recordHash)
    ensures Segment([a, b]) == [a, b] && RepairCount([a, b], Repaired(h, [a, b], 0, None)) == 0
    ensures AfterRepair(h, GapStore(a, b)) == GapStore(a, b)
    ensures VerifyChain(h, GapStore(a, b)) == Broken(3, b.content.id, NonContiguous)
  {
    GapSegment(a, b);
    GapRepaired(h, a, b);
    RepairedTableKeeps(h, [a, b]);
    assert Segment(GapStore(a, b).table) == [a, b];
    GapBroken(h, a, b);
  }

  /** Two version-1 records are such rows. */
  lemma RecordGapStays(lib: Lib, first: AuditRecord, second: AuditRecord)
    requires first.hashVersion == LEGACY_HASH_VERSION && second.hashVersion == LEGACY_HASH_VERSION
    requires first.id != second.id
    ensures
      var h := RecordHasher(lib);
      var a := Stamp(h, first, 1, None);
      var b := Stamp(h, second, 3, a.recordHash);
      && AfterRepair(h, GapStore(a, b)) == GapStore(a, b)
      && VerifyChain(h, GapStore(a, b)) == Broken(3, second.id, NonContiguous)
  {
    var h := RecordHasher(lib);
    var a := Stamp(h, first, 1, None);
    var b := Stamp(h, second, 3, a.recordHash);
    VersionOneForgetsSequence(lib, second, 2, 3, a.recordHash);
    GapStays(h, a, b);
  }

  lemma GapSegment(a: Row, b: Row)
    requires Chained(a) && Chained(b) && 0 < Key(a) <= Key(b) && a.content.id != b.content.id
    ensures Segment([a, b]) == [a, b] && Legacy([a, b]) == [] && UniqueIds([a, b]) && PositiveKeys([a, b])
  {
    FilterAll([a, b], Chained);
    FilterNone([a, b], Unchained);
    SortFixesSorted([a, b], KeyLeq);
  }

  lemma GapRepaired(h: Hasher, a: Row, b: Row)
    requires a.recordHash == Some(h(a.content, 1, None)) && b.recordHash == Some(h(b.content, 2, a.recordHash))
    ensures Repaired(h, [a, b], 0, None) == [a, b] && RepairCount([a, b], [a, b]) == 0
  {
    assert [a, b][1..] == [b] && [b][1..] == [];
    assert RepairedRow(h, a, 1, None) == a && RepairedRow(h, b, 2, a.recordHash) == b;
    assert Repaired(h, [b], 1, a.recordHash) == [b] && RepairCount([b], [b]) == 0;
  }

  lemma GapBroken(h: Hasher, a: Row, b: Row)
    requires Gap(h, a, b) && Segment([a, b]) == [a, b] && Legacy([a, b]) == []
    ensures VerifyChain(h, GapStore(a, b)) == Broken(3, b.content.id, NonContiguous)
  {
    PositiveSegment([a, b]);
    GapWalk(h, a, b);
  }

  lemma GapWalk(h: Hasher, a: Row, b: Row)
    requires RowOk(h, a, 1, None) && Key(b) == 3
    ensures Walk(h, [a, b], 0, None, 0) == Broken(3, b.content.id, NonContiguous)
  {
    assert [a, b][1..] == [b];
  }
}
