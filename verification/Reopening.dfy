/** When opening the database starts a new epoch, in terms of the stored rows and the boundary
    (`reconcile_analytics_epoch` of crates/grith-audit/src/analytics.rs). */
module Reopening {
  import opened Basics
  import opened Sorting
  import opened Chain
  import opened ChainStore
  import opened Epoch

  /** No sequence is held twice: the unique index. */
  ghost predicate OneRowEach(table: seq<Row>) {
    forall a, b :: a in table && b in table && a.chainSequence.Some? && a.chainSequence == b.chainSequence ==> a == b
  }

  /** The chain ends before the cursor. */
  ghost predicate EndsBefore(table: seq<Row>, cursor: int) {
    forall row :: row in table && row.chainSequence.Some? ==> row.chainSequence.value < cursor
  }

  /** Another record than the one that was examined holds the cursor's sequence. */
  ghost predicate OtherAtCursor(table: seq<Row>, cursor: int, hash: Option<string>) {
    hash.Some? && exists row :: row in table && row.chainSequence == Some(cursor) && row.recordHash != hash
  }

  ghost predicate HasChain(table: seq<Row>) { exists row :: row in table && row.chainSequence.Some? }

  lemma HeadBefore(table: seq<Row>, cursor: int)
    requires Segment(table) != []
    ensures Key(Segment(table)[|Segment(table)| - 1]) < cursor <==> EndsBefore(table, cursor)
  {
    var rows := Segment(table);
    var last := rows[|rows| - 1];
    SegmentMembers(table);
    HeadBounds(table);
    assert last in rows;
  }

  lemma AtCursor(table: seq<Row>, cursor: int, hash: Option<string>)
    requires OneRowEach(table) && hash.Some?
    ensures (RowAt(table, cursor).Some? && RowAt(table, cursor).value.recordHash != hash)
            <==> OtherAtCursor(table, cursor, hash)
  {
    var found := Filter(table, AtSequence(cursor));
    FilterElements(table, AtSequence(cursor));
    if found != [] {
      assert found[0] in found;
    }
    if OtherAtCursor(table, cursor, hash) {
      var row :| row in table && row.chainSequence == Some(cursor) && row.recordHash != hash;
      assert row in found;
    }
  }

  lemma ChainIff(table: seq<Row>)
    ensures Segment(table) != [] <==> HasChain(table)
  {
    SegmentMembers(table);
    if Segment(table) != [] {
      assert Segment(table)[0] in Segment(table);
    }
    if HasChain(table) {
      var row :| row in table && row.chainSequence.Some?;
      assert row in Segment(table);
    }
  }

  /** A projection that has examined something starts over exactly when the chain ends before its cursor,
      when another record is stored at the cursor, or, for an empty chain, when no archive boundary
      reaches the cursor; the new epoch begins at the beginning. */
  lemma RotatesIff(s: Store, p: Progress)
    requires OneRowEach(s.table) && p.cursor >= 0
    ensures
      var rotates := p.cursor > 0 && if HasChain(s.table)
        then EndsBefore(s.table, p.cursor) || OtherAtCursor(s.table, p.cursor, p.cursorHash)
        else s.boundary.None? || s.boundary.value.lastArchivedSequence < p.cursor;
      Reconciled(s, p) == if rotates then Progress(0, 0, None, []) else p
  {
    ChainIff(s.table);
    if Segment(s.table) != [] && p.cursor > 0 {
      HeadBefore(s.table, p.cursor);
      if p.cursorHash.Some? {
        AtCursor(s.table, p.cursor, p.cursorHash);
      }
    }
  }
}
