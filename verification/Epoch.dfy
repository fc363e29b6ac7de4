/** Detecting a restarted chain when the database is opened: `reconcile_analytics_epoch` of
    crates/grith-audit/src/analytics.rs, and which rows a projection can leave stranded. */
module Epoch {
  import opened Basics
  import opened Chain
  import opened ChainStore
  import opened Anchoring
  import opened Agreement
  import opened RecordHash
  import opened TamperEvidence

  /** The cursor columns, and the rows the projection has examined since its epoch began. */
  datatype Progress = Progress(baseline: int, cursor: int, cursorHash: Option<string>, seen: seq<Row>)

  function ArchivedThrough(boundary: Option<Boundary>): nat {
    if boundary.Some? then Max0(boundary.value.lastArchivedSequence) else 0
  }

  /** Whether the chain under the cursor is another one. */
  predicate Regenerated(s: Store, p: Progress) {
    var rows := Segment(s.table);
    p.cursor != 0 &&
    (if rows == [] then ArchivedThrough(s.boundary) < p.cursor
     else if Max0(Key(rows[|rows| - 1])) < p.cursor then true
     else
       var at := RowAt(s.table, p.cursor);
       at.Some? && p.cursorHash.Some? && at.value.recordHash != p.cursorHash)
  }

  /** A rotation starts a fresh epoch at the beginning of the new chain. */
  function Reconciled(s: Store, p: Progress): Progress {
    if Regenerated(s, p) then Progress(0, 0, None, []) else p
  }

  method ReconcileAnalyticsEpoch(s: Store, p: Progress) returns (next: Progress, rotated: bool)
    ensures next == Reconciled(s, p) && (rotated <==> Regenerated(s, p))
  {
    if p.cursor == 0 {
      return p, false;
    }
    var rows := Segment(s.table);
    if |rows| == 0 {
      rotated := ArchivedThrough(s.boundary) < p.cursor;
    } else if Max0(Key(rows[|rows| - 1])) < p.cursor {
      rotated := true;
    } else {
      var at := RowAt(s.table, p.cursor);
      rotated := at.Some? && p.cursorHash.Some? && at.value.recordHash != p.cursorHash;
    }
    next := if rotated then Progress(0, 0, None, []) else p;
  }

  // ---------- Stranded rows ----------

  /** The examined rows are one chain from the baseline to the cursor; before the first pass the
      cursor column still has its default. */
  ghost predicate OneChain(h: Hasher, p: Progress, seed: Option<string>) {
    && p.baseline >= 0 && Linked(h, p.seen, p.baseline, seed)
    && (p.cursor == p.baseline + |p.seen| || (p.cursor == 0 && p.seen == []))
    && (p.seen != [] ==> p.cursorHash == Last(p.seen).recordHash)
  }

  /** The row is ahead of the cursor, from before the epoch, or one the projection has examined. */
  ghost predicate Accounted(same: (Row, Row) -> bool, p: Progress, row: Row) {
    || Key(row) > p.cursor
    || Key(row) <= p.baseline
    || (Key(row) - p.baseline <= |p.seen| && same(row, p.seen[Key(row) - p.baseline - 1]))
  }

  ghost predicate NoneStranded(same: (Row, Row) -> bool, table: seq<Row>, p: Progress) {
    forall row :: row in Segment(table) ==> Accounted(same, p, row)
  }

  ghost predicate Reflexive(same: (Row, Row) -> bool) { forall row :: same(row, row) }

  ghost predicate KeepsHash(same: (Row, Row) -> bool) { forall a, b :: same(a, b) ==> a.recordHash == b.recordHash }

  ghost predicate AllCovered(covered: Row -> bool, rows: seq<Row>) { forall row :: row in rows ==> covered(row) }

  lemma LinkedHash(h: Hasher, rows: seq<Row>, start: int, seed: Option<string>)
    requires Linked(h, rows, start, seed) && rows != []
    ensures Last(rows).recordHash.Some?
  {
    LinkedAt(h, rows, start, seed, |rows| - 1);
  }

  /** Active rows up to one whose hash ends the examined chain are examined rows. */
  lemma AgreedRows(
    h: Hasher, covered: Row -> bool, same: (Row, Row) -> bool, rows: seq<Row>, start: int, seed: Option<string>,
    p: Progress, seed': Option<string>, n: nat, k: nat, i: int)
    requires HashDetermines(h, covered, same) && Linked(h, rows, start, seed) && OneChain(h, p, seed')
    requires AllCovered(covered, rows) && AllCovered(covered, p.seen)
    requires p.seen != [] && 0 < n <= |rows| && rows[n - 1].recordHash == Last(p.seen).recordHash
    requires k < n && start + n == p.cursor && i == start + k - p.baseline >= 0
    ensures i < |p.seen| && same(rows[k], p.seen[i])
  {
    LinkedSplit(h, rows, start, seed, n);
    assert Last(rows[..n]) == rows[n - 1];
    AgreeBackwards(h, covered, same, rows[..n], start, seed, p.seen, p.baseline, seed');
    AgreeFromEndAt(same, rows[..n], p.seen, k, i);
  }

  /** Once a reconcile has run over a contiguous, hash-linked segment, no active row is stranded, even
      if the chain restarted and grew past the old cursor. */
  lemma NoStrandedRows(
    h: Hasher, covered: Row -> bool, same: (Row, Row) -> bool, s: Store, p: Progress, seed: Option<string>)
    requires HashDetermines(h, covered, same) && OneChain(h, p, seed)
    requires StartOf(s.table) >= 0 && Linked(h, Segment(s.table), StartOf(s.table), SeedOf(s.table))
    requires AllCovered(covered, Segment(s.table)) && AllCovered(covered, p.seen)
    ensures NoneStranded(same, s.table, Reconciled(s, p))
  {
    var rows := Segment(s.table);
    forall row | row in rows ensures Accounted(same, Reconciled(s, p), row) {
      var k :| 0 <= k < |rows| && rows[k] == row;
      AccountedAt(h, covered, same, s, p, seed, k);
    }
  }

  lemma AccountedAt(
    h: Hasher, covered: Row -> bool, same: (Row, Row) -> bool, s: Store, p: Progress, seed: Option<string>, k: nat)
    requires HashDetermines(h, covered, same) && OneChain(h, p, seed)
    requires StartOf(s.table) >= 0 && Linked(h, Segment(s.table), StartOf(s.table), SeedOf(s.table))
    requires AllCovered(covered, Segment(s.table)) && AllCovered(covered, p.seen)
    requires k < |Segment(s.table)|
    ensures Accounted(same, Reconciled(s, p), Segment(s.table)[k])
  {
    LinkedAt(h, Segment(s.table), StartOf(s.table), SeedOf(s.table), k);
    if !Regenerated(s, p) && p.baseline < Key(Segment(s.table)[k]) <= p.cursor {
      AccountedUnder(h, covered, same, s, p, seed, k);
    }
  }

  lemma AccountedUnder(
    h: Hasher, covered: Row -> bool, same: (Row, Row) -> bool, s: Store, p: Progress, seed: Option<string>, k: nat)
    requires HashDetermines(h, covered, same) && OneChain(h, p, seed)
    requires StartOf(s.table) >= 0 && Linked(h, Segment(s.table), StartOf(s.table), SeedOf(s.table))
    requires AllCovered(covered, Segment(s.table)) && AllCovered(covered, p.seen)
    requires k < |Segment(s.table)| && !Regenerated(s, p)
    requires p.baseline < StartOf(s.table) + 1 + k <= p.cursor
    ensures Accounted(same, p, Segment(s.table)[k])
  {
    CursorRow(h, s, p, k);
    LinkedHash(h, p.seen, p.baseline, seed);
    AccountedBelow(h, covered, same, Segment(s.table), StartOf(s.table), SeedOf(s.table), p, seed,
      p.cursor - StartOf(s.table), k);
  }

  /** Rows at or below a cursor whose own row carries the recorded hash. */
  lemma AccountedBelow(
    h: Hasher, covered: Row -> bool, same: (Row, Row) -> bool, rows: seq<Row>, start: int, seed: Option<string>,
    p: Progress, seed': Option<string>, n: nat, k: nat)
    requires HashDetermines(h, covered, same) && Linked(h, rows, start, seed) && OneChain(h, p, seed')
    requires AllCovered(covered, rows) && AllCovered(covered, p.seen)
    requires p.seen != [] && 0 < n <= |rows| && rows[n - 1].recordHash == Last(p.seen).recordHash && k < n
    requires start + n == p.cursor
    ensures Accounted(same, p, rows[k])
  {
    LinkedAt(h, rows, start, seed, k);
    var i := start + k - p.baseline;
    if i >= 0 {
      AgreedRows(h, covered, same, rows, start, seed, p, seed', n, k, i);
      SeenAccounts(same, p, rows[k], i);
    }
  }

  lemma SeenAccounts(same: (Row, Row) -> bool, p: Progress, row: Row, i: nat)
    requires i < |p.seen| && Key(row) == p.baseline + 1 + i && same(row, p.seen[i])
    ensures Accounted(same, p, row)
  {
  }

  /** A reconcile that finds no new chain has found the cursor's own row, or nothing at or below it. */
  lemma CursorRow(h: Hasher, s: Store, p: Progress, k: nat)
    requires Linked(h, Segment(s.table), StartOf(s.table), SeedOf(s.table)) && k < |Segment(s.table)|
    requires !Regenerated(s, p) && p.cursor >= StartOf(s.table) + 1 + k && StartOf(s.table) >= 0
    ensures 0 < p.cursor - StartOf(s.table) <= |Segment(s.table)|
    ensures p.cursorHash.Some? ==> Segment(s.table)[p.cursor - StartOf(s.table) - 1].recordHash == p.cursorHash
  {
    var rows := Segment(s.table);
    LinkedAt(h, rows, StartOf(s.table), SeedOf(s.table), |rows| - 1);
    BoundRow(h, s.table, p.cursor);
  }

  // ---------- Tail passes over a restarted chain ----------

  /** The rows a tail pass examines. */
  function Passed(p: Progress, tail: seq<Row>): Progress {
    if tail == [] then p
    else Progress(p.baseline, Key(Last(tail)), Last(tail).recordHash, p.seen + tail)
  }

  /** A pass keeps the examined rows one chain exactly when its first row names the cursor's hash. */
  lemma PassKeepsChain(h: Hasher, p: Progress, seed: Option<string>, tail: seq<Row>)
    requires OneChain(h, p, seed) && p.cursor == p.baseline + |p.seen| && p.cursorHash == EndHash(p.seen, seed)
    requires tail != [] && Linked(h, tail, p.cursor, tail[0].prevHash)
    ensures OneChain(h, Passed(p, tail), seed) <==> tail[0].prevHash == p.cursorHash
  {
    LinkedConcat(h, p.seen, tail, p.baseline, seed);
    LinkedAt(h, tail, p.cursor, tail[0].prevHash, |tail| - 1);
    LinkedFrom(h, tail, p.cursor, p.cursorHash);
    assert Last(p.seen + tail) == Last(tail);
  }

  /** Linked rows follow another predecessor only if they name it. */
  lemma LinkedFrom(h: Hasher, tail: seq<Row>, start: int, seed: Option<string>)
    requires tail != [] && Linked(h, tail, start, tail[0].prevHash)
    ensures Linked(h, tail, start, seed) <==> tail[0].prevHash == seed
  {
  }

  /** `tail` is what a pass reads from the cursor on, `c` the stored rows at or below the cursor. */
  ghost predicate ReadsOn(s: Store, p: Progress, c: int, tail: seq<Row>) {
    && StartOf(s.table) >= 0 && c == p.cursor - StartOf(s.table) && 0 <= c
    && tail != [] && c + |tail| <= |Segment(s.table)| && tail == Segment(s.table)[c..c + |tail|]
  }

  /** A pass that reads on from the old cursor over the chain now stored, followed by a reconcile,
      leaves no row stranded exactly when no row at or below the old cursor is stored or the row at
      the old cursor still carries the recorded hash. Between a restart of the chain and the next
      opening of the database nothing checks this. */
  lemma PassStrandsIff(
    h: Hasher, covered: Row -> bool, same: (Row, Row) -> bool, s: Store, p: Progress, seed: Option<string>, c: int,
    tail: seq<Row>)
    requires HashDetermines(h, covered, same) && Reflexive(same) && KeepsHash(same)
    requires OneChain(h, p, seed) && p.seen != []
    requires Linked(h, Segment(s.table), StartOf(s.table), SeedOf(s.table)) && ReadsOn(s, p, c, tail)
    requires AllCovered(covered, Segment(s.table)) && AllCovered(covered, p.seen)
    ensures NoneStranded(same, s.table, Reconciled(s, Passed(p, tail))) <==>
            c == 0 || Segment(s.table)[c - 1].recordHash == p.cursorHash
  {
    PassedCursor(h, s, p, c, tail);
    if c > 0 && Segment(s.table)[c - 1].recordHash != p.cursorHash {
      StrandedRow(h, same, s, p, Passed(p, tail), c);
    } else {
      PassedAll(h, covered, same, s, p, seed, c, tail);
    }
  }

  lemma PassedAll(
    h: Hasher, covered: Row -> bool, same: (Row, Row) -> bool, s: Store, p: Progress, seed: Option<string>, c: int,
    tail: seq<Row>)
    requires HashDetermines(h, covered, same) && Reflexive(same) && OneChain(h, p, seed) && p.seen != []
    requires Linked(h, Segment(s.table), StartOf(s.table), SeedOf(s.table)) && ReadsOn(s, p, c, tail)
    requires AllCovered(covered, Segment(s.table)) && AllCovered(covered, p.seen)
    requires c == 0 || Segment(s.table)[c - 1].recordHash == p.cursorHash
    requires Passed(p, tail).cursor == p.cursor + |tail|
    ensures NoneStranded(same, s.table, Passed(p, tail))
  {
    var rows := Segment(s.table);
    forall row | row in rows ensures Accounted(same, Passed(p, tail), row) {
      var k :| 0 <= k < |rows| && rows[k] == row;
      PassedAt(h, covered, same, s, p, seed, c, tail, k);
    }
  }

  lemma PassedAt(
    h: Hasher, covered: Row -> bool, same: (Row, Row) -> bool, s: Store, p: Progress, seed: Option<string>, c: int,
    tail: seq<Row>, k: nat)
    requires HashDetermines(h, covered, same) && Reflexive(same) && OneChain(h, p, seed) && p.seen != []
    requires Linked(h, Segment(s.table), StartOf(s.table), SeedOf(s.table)) && ReadsOn(s, p, c, tail)
    requires AllCovered(covered, Segment(s.table)) && AllCovered(covered, p.seen)
    requires c == 0 || Segment(s.table)[c - 1].recordHash == p.cursorHash
    requires Passed(p, tail).cursor == p.cursor + |tail| && k < |Segment(s.table)|
    ensures Accounted(same, Passed(p, tail), Segment(s.table)[k])
  {
    var rows := Segment(s.table);
    LinkedAt(h, rows, StartOf(s.table), SeedOf(s.table), k);
    if k < c {
      LinkedHash(h, p.seen, p.baseline, seed);
      AccountedBelow(h, covered, same, rows, StartOf(s.table), SeedOf(s.table), p, seed, c, k);
      StillAccounted(same, p, tail, rows[k]);
    } else if k < c + |tail| {
      JustRead(same, p, tail, k - c, rows[k]);
    }
  }

  /** Examining more rows keeps what was accounted for at or below the old cursor. */
  lemma StillAccounted(same: (Row, Row) -> bool, p: Progress, tail: seq<Row>, row: Row)
    requires Accounted(same, p, row) && Key(row) <= p.cursor && tail != []
    ensures Accounted(same, Passed(p, tail), row)
  {
    if Key(row) > p.baseline {
      assert (p.seen + tail)[Key(row) - p.baseline - 1] == p.seen[Key(row) - p.baseline - 1];
    }
  }

  lemma JustRead(same: (Row, Row) -> bool, p: Progress, tail: seq<Row>, i: nat, row: Row)
    requires Reflexive(same) && i < |tail| && tail[i] == row
    requires Key(row) == p.cursor + 1 + i && p.cursor == p.baseline + |p.seen|
    ensures Accounted(same, Passed(p, tail), row)
  {
    assert (p.seen + tail)[|p.seen| + i] == row;
  }

  /** After the pass the cursor's own row is stored, so the reconcile does not rotate. */
  lemma PassedCursor(h: Hasher, s: Store, p: Progress, c: int, tail: seq<Row>)
    requires Linked(h, Segment(s.table), StartOf(s.table), SeedOf(s.table)) && ReadsOn(s, p, c, tail)
    ensures Passed(p, tail).cursor == p.cursor + |tail| && Reconciled(s, Passed(p, tail)) == Passed(p, tail)
  {
    var rows := Segment(s.table);
    assert Last(tail) == rows[c + |tail| - 1];
    LinkedAt(h, rows, StartOf(s.table), SeedOf(s.table), c + |tail| - 1);
    CursorIsStored(h, s, Passed(p, tail), c + |tail|);
  }

  /** A cursor whose own row is stored with its hash is not on another chain. */
  lemma CursorIsStored(h: Hasher, s: Store, p: Progress, n: nat)
    requires Linked(h, Segment(s.table), StartOf(s.table), SeedOf(s.table)) && StartOf(s.table) >= 0
    requires 0 < n <= |Segment(s.table)| && p.cursor == StartOf(s.table) + n
    requires Segment(s.table)[n - 1].recordHash == p.cursorHash
    ensures !Regenerated(s, p)
  {
    LinkedAt(h, Segment(s.table), StartOf(s.table), SeedOf(s.table), |Segment(s.table)| - 1);
    BoundRow(h, s.table, p.cursor);
  }

  /** The row at the old cursor is neither ahead nor from before the epoch, and it is not the row
      that was examined there. */
  lemma StrandedRow(h: Hasher, same: (Row, Row) -> bool, s: Store, p: Progress, q: Progress, c: int)
    requires KeepsHash(same) && Linked(h, Segment(s.table), StartOf(s.table), SeedOf(s.table))
    requires 0 < c <= |Segment(s.table)| && c == p.cursor - StartOf(s.table)
    requires p.seen != [] && p.cursor == p.baseline + |p.seen| && p.cursorHash == Last(p.seen).recordHash
    requires Segment(s.table)[c - 1].recordHash != p.cursorHash
    requires q.baseline == p.baseline && q.cursor > p.cursor && p.seen <= q.seen
    ensures !NoneStranded(same, s.table, q)
  {
    var row := Segment(s.table)[c - 1];
    LinkedAt(h, Segment(s.table), StartOf(s.table), SeedOf(s.table), c - 1);
    assert q.seen[|p.seen| - 1] == Last(p.seen);
    assert row in Segment(s.table) && !Accounted(same, q, row);
  }

  /** With the hash the records really carry: every active row the cursor claims is a row the projection
      examined, by id, hash and predecessor and, for hashed records, in every covered field. */
  lemma NoStrandedRecords(lib: Lib, s: Store, p: Progress, seed: Option<string>)
    requires Faithful(lib) && OneChain(RecordHasher(lib), p, seed)
    requires StartOf(s.table) >= 0 && Linked(RecordHasher(lib), Segment(s.table), StartOf(s.table), SeedOf(s.table))
    requires AllCovered(Traceable, Segment(s.table)) && AllCovered(Traceable, p.seen)
    ensures NoneStranded(SameLink, s.table, Reconciled(s, p))
  {
    RecordHasherLinks(lib);
    NoStrandedRows(RecordHasher(lib), Traceable, SameLink, s, p, seed);
  }
}
