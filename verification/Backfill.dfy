/** `backfill_chain_for_legacy_rows` of crates/grith-audit/src/storage.rs: rows written before the
    chain existed are chained behind the head, oldest first. */
module Backfill {
  import opened Basics
  import opened Records
  import opened Sorting
  import opened Chain
  import opened ChainStore
  import opened Anchoring

  /** A legacy row at its place in the chain. */
  function Joined(h: Hasher, row: Row, sequence: int, prev: Option<string>): Row {
    row.(chainSequence := Some(sequence), prevHash := prev, recordHash := Some(h(row.content, sequence, prev)))
  }

  function JoinAll(h: Hasher, rows: seq<Row>, last: int, prev: Option<string>): seq<Row> {
    if rows == [] then []
    else
      var row := Joined(h, rows[0], last + 1, prev);
      [row] + JoinAll(h, rows[1..], last + 1, row.recordHash)
  }

  /** Joined rows are linked exactly when none of their enum columns is off. */
  lemma {:induction false} JoinedLinked(h: Hasher, rows: seq<Row>, last: int, prev: Option<string>)
    ensures |JoinAll(h, rows, last, prev)| == |rows|
    ensures Linked(h, JoinAll(h, rows, last, prev), last, prev) <==> AllCanonical(rows)
  {
    if rows != [] {
      var row := Joined(h, rows[0], last + 1, prev);
      JoinedLinked(h, rows[1..], last + 1, row.recordHash);
      assert JoinAll(h, rows, last, prev)[1..] == JoinAll(h, rows[1..], last + 1, row.recordHash);
      AllCanonicalSplits(rows);
    }
  }

  /** An update by id touches the one row that has it. */
  lemma UpdateSplits(table: seq<Row>, i: nat, sequence: int, prev: Option<string>, hash: Option<string>)
    requires UniqueIds(table) && i < |table|
    ensures WriteRow(table, table[i].content.id, sequence, prev, hash) ==
      table[..i] + [table[i].(chainSequence := Some(sequence), prevHash := prev, recordHash := hash)] + table[i + 1..]
  {
    var written := WriteRow(table, table[i].content.id, sequence, prev, hash);
    var row := table[i].(chainSequence := Some(sequence), prevHash := prev, recordHash := hash);
    forall k | 0 <= k < |table| ensures written[k] == if k == i then row else table[k] {
    }
    ReplaceOne(table, i, row, written);
  }

  lemma ReplaceOne(table: seq<Row>, i: nat, row: Row, written: seq<Row>)
    requires i < |table| && |written| == |table|
    requires forall k :: 0 <= k < |table| ==> written[k] == if k == i then row else table[k]
    ensures written == table[..i] + [row] + table[i + 1..]
  {
  }

  lemma FilterMiddle(a: seq<Row>, x: Row, b: seq<Row>, keep: Row -> bool)
    ensures Filter(a + [x] + b, keep) ==
      if keep(x) then Filter(a, keep) + [x] + Filter(b, keep) else Filter(a, keep) + Filter(b, keep)
  {
    FilterConcat(a + [x], b, keep);
    FilterConcat(a, [x], keep);
    assert [x][1..] == [];
    assert Filter([x], keep) == if keep(x) then [x] else [];
    assert Filter(a, keep) + [] == Filter(a, keep);
  }

  /** Chaining an unchained row behind the head: the segment grows by it, and it is no longer
      a legacy row. */
  lemma JoinOne(a: seq<Row>, x: Row, b: seq<Row>, y: Row, last: int)
    requires !Chained(x) && y.chainSequence == Some(last + 1) && KeysUpTo(a + [x] + b, last)
    ensures Segment(a + [y] + b) == Segment(a + [x] + b) + [y]
    ensures Filter(a + [y] + b, Unchained) == Filter(a, Unchained) + Filter(b, Unchained)
    ensures Filter(a + [x] + b, Unchained) == Filter(a, Unchained) + [x] + Filter(b, Unchained)
    ensures KeysUpTo(a + [y] + b, last + 1)
  {
    FilterMiddle(a, x, b, Chained);
    FilterMiddle(a, y, b, Chained);
    FilterMiddle(a, x, b, Unchained);
    FilterMiddle(a, y, b, Unchained);
    var fa, fb := Filter(a, Chained), Filter(b, Chained);
    FilterElements(a, Chained);
    FilterElements(b, Chained);
    forall r | r in fa || r in fb ensures Key(r) <= last {
      assert r in a + [x] + b;
    }
    SortToEnd(fa, y, fb, KeyLeq);
  }

  lemma TimeIdIsPreorder()
    ensures Preorder(TimeIdLeq)
  {
  }

  lemma UniqueIdsDiscriminate(table: seq<Row>, rows: seq<Row>)
    requires UniqueIds(table) && forall row :: row in rows ==> row in table
    ensures Discriminates(rows, TimeIdLeq)
  {
    forall x, y | x in rows && y in rows && TimeIdLeq(x, y) && TimeIdLeq(y, x) ensures x == y {
      var i :| 0 <= i < |table| && table[i] == x;
      var j :| 0 <= j < |table| && table[j] == y;
    }
  }

  lemma LegacyHead(table: seq<Row>) returns (i: nat)
    requires Legacy(table) != []
    ensures i < |table| && table[i] == Legacy(table)[0] && !Chained(table[i])
  {
    var unchained := Filter(table, Unchained);
    SortKeepsElements(unchained, TimeIdLeq);
    FilterElements(table, Unchained);
    assert Legacy(table)[0] in Legacy(table);
    i :| 0 <= i < |table| && table[i] == Legacy(table)[0];
  }

  /** The first update of a backfill. */
  lemma BackfillStep(h: Hasher, table: seq<Row>, last: int, prev: Option<string>)
    requires UniqueIds(table) && KeysUpTo(table, last) && Legacy(table) != []
    ensures
      var row := Joined(h, Legacy(table)[0], last + 1, prev);
      var after := WriteRow(table, row.content.id, last + 1, prev, row.recordHash);
      && Segment(after) == Segment(table) + [row]
      && Legacy(after) == Legacy(table)[1..]
      && UniqueIds(after) && KeysUpTo(after, last + 1)
  {
    var i := LegacyHead(table);
    var a, x, b := table[..i], table[i], table[i + 1..];
    var y := Joined(h, x, last + 1, prev);
    assert table == a + [x] + b;
    UpdateSplits(table, i, last + 1, prev, y.recordHash);
    UpdateKeepsIds(table, x.content.id, last + 1, prev, y.recordHash);
    JoinOne(a, x, b, y, last);
    LegacyRest(table, a, x, b);
  }

  lemma UpdateKeepsIds(table: seq<Row>, id: Uuid, sequence: int, prev: Option<string>, hash: Option<string>)
    requires UniqueIds(table)
    ensures UniqueIds(WriteRow(table, id, sequence, prev, hash))
  {
  }

  lemma LegacyRest(table: seq<Row>, a: seq<Row>, x: Row, b: seq<Row>)
    requires table == a + [x] + b && UniqueIds(table) && !Chained(x)
    requires Legacy(table) != [] && Legacy(table)[0] == x
    ensures Sort(Filter(a, Unchained) + Filter(b, Unchained), TimeIdLeq) == Legacy(table)[1..]
  {
    var fa, fb := Filter(a, Unchained), Filter(b, Unchained);
    FilterMiddle(a, x, b, Unchained);
    FilterElements(a, Unchained);
    FilterElements(b, Unchained);
    UniqueIdsDiscriminate(table, fa + fb);
    TimeIdIsPreorder();
    SortWithoutFirst(fa, x, fb, TimeIdLeq);
  }

  /** A backfill that read the legacy rows the table still has chains all of them, in order, behind
      the head. */
  lemma {:induction false} BackfillJoins(h: Hasher, table: seq<Row>, last: int, prev: Option<string>)
    requires UniqueIds(table) && KeysUpTo(table, last)
    ensures
      var after := Backfilled(h, table, Legacy(table), last, prev);
      && Segment(after) == Segment(table) + JoinAll(h, Legacy(table), last, prev)
      && Legacy(after) == []
      && UniqueIds(after)
    decreases |Legacy(table)|
  {
    var legacy := Legacy(table);
    if legacy == [] {
      assert Segment(table) + [] == Segment(table);
    } else {
      var row := Joined(h, legacy[0], last + 1, prev);
      var next := WriteRow(table, row.content.id, last + 1, prev, row.recordHash);
      BackfillStep(h, table, last, prev);
      BackfillJoins(h, next, last + 1, row.recordHash);
      ConcatAssociates(Segment(table), [row], JoinAll(h, legacy[1..], last + 1, row.recordHash));
    }
  }

  /** So a grounded store whose legacy rows carry clean enum columns is grounded afterwards, with
      no legacy row left. */
  lemma BackfillGrounded(h: Hasher, s: Store)
    requires Grounded(h, s) && UniqueIds(s.table)
    requires AllCanonical(Legacy(s.table))
    ensures
      var after := AfterBackfill(h, s, Legacy(s.table));
      && Grounded(h, after) && Legacy(after.table) == [] && UniqueIds(after.table)
      && |Segment(after.table)| == |Segment(s.table)| + |Legacy(s.table)|
  {
    if Legacy(s.table) != [] {
      var (prev, last) := ChainHead(s.table);
      HeadBounds(s.table);
      BackfillJoins(h, s.table, last, prev);
      JoinedExtends(h, s.table, Legacy(s.table));
      LinkedStart(h, AfterBackfill(h, s, Legacy(s.table)).table, StartOf(s.table), SeedOf(s.table));
    }
  }

  lemma JoinedExtends(h: Hasher, table: seq<Row>, rows: seq<Row>)
    requires Linked(h, Segment(table), StartOf(table), SeedOf(table)) && AllCanonical(rows)
    ensures
      var joined := JoinAll(h, rows, ChainHead(table).1, ChainHead(table).0);
      |joined| == |rows| && Linked(h, Segment(table) + joined, StartOf(table), SeedOf(table))
  {
    var joined := JoinAll(h, rows, ChainHead(table).1, ChainHead(table).0);
    HeadOf(h, table);
    JoinedLinked(h, rows, ChainHead(table).1, ChainHead(table).0);
    LinkedConcat(h, Segment(table), joined, StartOf(table), SeedOf(table));
  }

  // ---------- The order of the backfill ----------

  /** Written earlier, or at the same time under the lower id. */
  predicate Earlier(a: AuditRecord, b: AuditRecord) {
    || a.timestamp < b.timestamp
    || (a.timestamp == b.timestamp && (a.id.hi < b.id.hi || (a.id.hi == b.id.hi && a.id.lo < b.id.lo)))
  }

  lemma {:induction false} JoinAllKeeps(h: Hasher, rows: seq<Row>, last: int, prev: Option<string>, k: nat)
    requires k < |rows|
    ensures |JoinAll(h, rows, last, prev)| == |rows|
    ensures
      var joined := JoinAll(h, rows, last, prev)[k];
      joined.chainSequence == Some(last + 1 + k)
      && rows[k] == joined.(chainSequence := rows[k].chainSequence, prevHash := rows[k].prevHash,
                            recordHash := rows[k].recordHash)
  {
    var row := Joined(h, rows[0], last + 1, prev);
    if k > 0 {
      JoinAllKeeps(h, rows[1..], last + 1, row.recordHash, k - 1);
    } else if |rows| > 1 {
      JoinAllKeeps(h, rows[1..], last + 1, row.recordHash, 0);
    }
  }

  /** The rows of the table that have no sequence, each once, in order of time and then id. */
  ghost predicate InOrderOfAge(table: seq<Row>, read: seq<Row>) {
    && (forall row :: row in read <==> row in table && row.chainSequence.None?)
    && (forall i, j :: 0 <= i < j < |read| ==> Earlier(read[i].content, read[j].content))
  }

  /** Row by row the added rows are those read, with nothing but their chain columns changed and at the
      sequences behind `last`. */
  ghost predicate ChainedBehind(read: seq<Row>, added: seq<Row>, last: int) {
    |added| == |read| && forall k :: 0 <= k < |added| ==> ChainedAt(read[k], added[k], last + 1 + k)
  }

  predicate ChainedAt(row: Row, added: Row, sequence: int) {
    && row.chainSequence.None? && added.chainSequence == Some(sequence)
    && row == added.(chainSequence := None, prevHash := row.prevHash, recordHash := row.recordHash)
  }

  lemma LegacyAscends(table: seq<Row>)
    requires UniqueIds(table)
    ensures InOrderOfAge(table, Legacy(table))
  {
    var legacy := Legacy(table);
    TimeIdIsPreorder();
    UniqueIdsFilter(table, Unchained);
    FilterElements(table, Unchained);
    SortSorts(Filter(table, Unchained), TimeIdLeq);
    SortKeepsElements(Filter(table, Unchained), TimeIdLeq);
    UniqueIdsPermute(Filter(table, Unchained), legacy);
    forall i, j | 0 <= i < j < |legacy| ensures Earlier(legacy[i].content, legacy[j].content) {
      assert TimeIdLeq(legacy[i], legacy[j]) && legacy[i].content.id != legacy[j].content.id;
    }
  }

  lemma JoinAllChains(h: Hasher, table: seq<Row>, rows: seq<Row>, last: int, prev: Option<string>)
    requires InOrderOfAge(table, rows)
    ensures ChainedBehind(rows, JoinAll(h, rows, last, prev), last)
  {
    var added := JoinAll(h, rows, last, prev);
    JoinedLinked(h, rows, last, prev);
    forall k | 0 <= k < |added| ensures ChainedAt(rows[k], added[k], last + 1 + k) {
      JoinAllKeeps(h, rows, last, prev, k);
      assert rows[k] in rows;
    }
  }

  lemma BackfilledSegment(h: Hasher, s: Store)
    requires UniqueIds(s.table)
    ensures Segment(AfterBackfill(h, s, Legacy(s.table)).table)
         == Segment(s.table) + JoinAll(h, Legacy(s.table), ChainHead(s.table).1, ChainHead(s.table).0)
  {
    if Legacy(s.table) == [] {
      assert Segment(s.table) + [] == Segment(s.table);
    } else {
      HeadBounds(s.table);
      BackfillJoins(h, s.table, ChainHead(s.table).1, ChainHead(s.table).0);
    }
  }

  /** A backfill leaves the segment in place. Behind it come the rows that had no sequence, oldest first,
      with nothing but their chain columns changed. */
  lemma BackfillAscends(h: Hasher, s: Store) returns (read: seq<Row>, added: seq<Row>)
    requires UniqueIds(s.table)
    ensures InOrderOfAge(s.table, read) && ChainedBehind(read, added, ChainHead(s.table).1)
    ensures Segment(AfterBackfill(h, s, Legacy(s.table)).table) == Segment(s.table) + added
  {
    read := Legacy(s.table);
    added := JoinAll(h, read, ChainHead(s.table).1, ChainHead(s.table).0);
    LegacyAscends(s.table);
    BackfilledSegment(h, s);
    JoinAllChains(h, s.table, read, ChainHead(s.table).1, ChainHead(s.table).0);
  }

  /** Beside a chain from genesis the oldest row without a sequence is what full verification reports. */
  lemma LegacyIsReported(h: Hasher, s: Store, oldest: Row)
    requires UniqueIds(s.table) && ResolveAnchor(s.table, s.boundary).Genesis?
    requires oldest in s.table && oldest.chainSequence.None?
    requires forall row :: row in s.table && row.chainSequence.None? && row != oldest ==>
               Earlier(oldest.content, row.content)
    ensures VerifyChain(h, s) == Broken(0, oldest.content.id, MissingSequence)
  {
    var legacy := Legacy(s.table);
    LegacyAscends(s.table);
    assert oldest in legacy;
    assert legacy[0] in legacy;
    var k :| 0 <= k < |legacy| && legacy[k] == oldest;
    assert k > 0 ==> Earlier(legacy[0].content, legacy[k].content);
  }
}
