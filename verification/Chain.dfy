/** The rows of the audit table, what it means for them to be chained, and what the verification
    walk of crates/grith-audit/src/storage.rs says about them. */
module Chain {
  import opened Basics
  import opened Contract
  import opened Records
  import opened Sorting

  /** The record hash as a function of a row's content and the chain position it is given. */
  type Hasher = (AuditRecord, int, Option<string>) -> string

  /** One table row: the decoded content (whose own chain columns are not read), the chain columns
      and the enum columns as they are stored. */
  datatype Row = Row(
    content: AuditRecord,
    chainSequence: Option<int>, prevHash: Option<string>, recordHash: Option<string>,
    rawRecordType: Option<string>, rawProxyAction: string,
    synced: bool)

  predicate Chained(row: Row) { row.chainSequence.Some? }

  function Key(row: Row): int { if row.chainSequence.Some? then row.chainSequence.value else 0 }

  predicate KeyLeq(a: Row, b: Row) { Key(a) <= Key(b) }

  /** `WHERE chain_sequence IS NOT NULL ORDER BY chain_sequence ASC`. */
  function Segment(table: seq<Row>): seq<Row> { Sort(Filter(table, Chained), KeyLeq) }

  function Above(start: int): Row -> bool { (row: Row) => Key(row) > start }

  /** The same query restricted to `chain_sequence > start`. */
  function SegmentAbove(table: seq<Row>, start: int): seq<Row> {
    Sort(Filter(Filter(table, Chained), Above(start)), KeyLeq)
  }

  // ---------- Linked rows ----------

  /** No stored enum column differs from the text its value is written as; a NULL record type is
      a legacy row. */
  predicate CanonicalEnums(row: Row) {
    && (row.rawRecordType.None? || row.rawRecordType.value == RecordTypeName(row.content.recordType))
    && row.rawProxyAction == VerdictName(row.content.proxyAction)
  }

  predicate AllCanonical(rows: seq<Row>) {
    forall k :: 0 <= k < |rows| ==> CanonicalEnums(rows[k])
  }

  lemma AllCanonicalSplits(rows: seq<Row>)
    requires rows != []
    ensures AllCanonical(rows) <==> CanonicalEnums(rows[0]) && AllCanonical(rows[1..])
  {
    assert rows == [rows[0]] + rows[1..];
  }

  predicate RowOk(h: Hasher, row: Row, sequence: int, prev: Option<string>) {
    && row.chainSequence == Some(sequence)
    && row.prevHash == prev
    && row.recordHash == Some(h(row.content, sequence, prev))
    && CanonicalEnums(row)
  }

  /** The record hash a row behind `rows` must name as its predecessor. */
  function EndHash(rows: seq<Row>, seed: Option<string>): Option<string> {
    if rows == [] then seed else EndHash(rows[1..], rows[0].recordHash)
  }

  /** A valid chain behind position (start, seed): consecutive sequences, each row naming the hash
      of the one before it and carrying its own. */
  predicate Linked(h: Hasher, rows: seq<Row>, start: int, seed: Option<string>) {
    rows == [] || (RowOk(h, rows[0], start + 1, seed) && Linked(h, rows[1..], start + 1, rows[0].recordHash))
  }

  lemma {:induction false} EndHashIsLast(rows: seq<Row>, seed: Option<string>)
    ensures EndHash(rows, seed) == if rows == [] then seed else rows[|rows| - 1].recordHash
  {
    if rows != [] {
      EndHashIsLast(rows[1..], rows[0].recordHash);
    }
  }

  lemma {:induction false} EndHashConcat(a: seq<Row>, b: seq<Row>, seed: Option<string>)
    ensures EndHash(a + b, seed) == EndHash(b, EndHash(a, seed))
  {
    if a == [] {
      assert a + b == b;
    } else {
      EndHashConcat(a[1..], b, a[0].recordHash);
      assert (a + b)[1..] == a[1..] + b;
    }
  }

  lemma {:induction false} LinkedConcat(h: Hasher, a: seq<Row>, b: seq<Row>, start: int, seed: Option<string>)
    ensures Linked(h, a + b, start, seed) <==>
            Linked(h, a, start, seed) && Linked(h, b, start + |a|, EndHash(a, seed))
  {
    if a == [] {
      assert a + b == b;
    } else {
      LinkedConcat(h, a[1..], b, start + 1, a[0].recordHash);
      assert (a + b)[1..] == a[1..] + b;
    }
  }

  /** What the chain says of one row. */
  lemma {:induction false} LinkedAt(h: Hasher, rows: seq<Row>, start: int, seed: Option<string>, k: nat)
    requires Linked(h, rows, start, seed) && k < |rows|
    ensures RowOk(h, rows[k], start + 1 + k, if k == 0 then seed else rows[k - 1].recordHash)
  {
    if k > 0 {
      LinkedAt(h, rows[1..], start + 1, rows[0].recordHash, k - 1);
    }
  }

  /** The last of linked rows follows the chain in front of it. */
  lemma {:induction false} LinkedLast(h: Hasher, rows: seq<Row>, start: int, seed: Option<string>)
    requires rows != [] && Linked(h, rows, start, seed)
    ensures Linked(h, rows[..|rows| - 1], start, seed)
    ensures RowOk(h, rows[|rows| - 1], start + |rows|, EndHash(rows[..|rows| - 1], seed))
  {
    var front := rows[..|rows| - 1];
    if |rows| > 1 {
      LinkedLast(h, rows[1..], start + 1, rows[0].recordHash);
      assert front[1..] == rows[1..][..|rows[1..]| - 1];
    }
  }

  /** The sequences of linked rows are consecutive. */
  lemma {:induction false} LinkedKeys(h: Hasher, rows: seq<Row>, start: int, seed: Option<string>)
    requires Linked(h, rows, start, seed)
    ensures forall k :: 0 <= k < |rows| ==> Chained(rows[k]) && Key(rows[k]) == start + 1 + k
  {
    forall k | 0 <= k < |rows| ensures Chained(rows[k]) && Key(rows[k]) == start + 1 + k {
      LinkedAt(h, rows, start, seed, k);
    }
  }

  // ---------- The verification walk ----------

  datatype BreakReason = MissingSequence | NonContiguous | PrevHashMismatch | RecordHashMismatch | NonCanonicalEnum

  datatype ChainVerification =
    | Valid(recordCount: nat)
    | Broken(atSequence: int, recordId: Uuid, reason: BreakReason)
    | Empty
    | Unanchored(firstSequence: int)
    | AnchorMismatch(boundarySequence: int, expectedPrevHash: string, foundPrevHash: Option<string>, firstSequence: int)

  /** The checks on one row, in the order the walk makes them. */
  function CheckRow(h: Hasher, row: Row, expected: int, prev: Option<string>): Option<BreakReason> {
    if Key(row) != expected then Some(NonContiguous)
    else if row.prevHash != prev then Some(PrevHashMismatch)
    else if row.recordHash != Some(h(row.content, Key(row), row.prevHash)) then Some(RecordHashMismatch)
    else if !CanonicalEnums(row) then Some(NonCanonicalEnum)
    else None
  }

  /** The walk from expected sequence `start + 1`, counting on from `count`. */
  function Walk(h: Hasher, rows: seq<Row>, start: int, prev: Option<string>, count: nat): ChainVerification {
    if rows == [] then Valid(count)
    else match CheckRow(h, rows[0], start + 1, prev)
         case Some(reason) => Broken(Key(rows[0]), rows[0].content.id, reason)
         case None => Walk(h, rows[1..], start + 1, rows[0].recordHash, count + 1)
  }

  lemma CheckRowMeaning(h: Hasher, row: Row, expected: int, prev: Option<string>)
    requires Chained(row)
    ensures CheckRow(h, row, expected, prev).None? <==> RowOk(h, row, expected, prev)
  {
  }

  /** The walk's next step, at row `i`. */
  lemma WalkNext(h: Hasher, rows: seq<Row>, i: nat, start: int, prev: Option<string>, count: nat)
    requires i < |rows|
    ensures Walk(h, rows[i..], start + i, prev, count) ==
      match CheckRow(h, rows[i], start + 1 + i, prev)
      case Some(reason) => Broken(Key(rows[i]), rows[i].content.id, reason)
      case None => Walk(h, rows[i + 1..], start + 1 + i, rows[i].recordHash, count + 1)
  {
    assert rows[i..][0] == rows[i] && rows[i..][1..] == rows[i + 1..];
  }

  /** Walking past a linked prefix changes nothing but the count. */
  lemma {:induction false} WalkPastLinked(
    h: Hasher, a: seq<Row>, b: seq<Row>, start: int, seed: Option<string>, count: nat)
    requires Linked(h, a, start, seed)
    ensures Walk(h, a + b, start, seed, count) == Walk(h, b, start + |a|, EndHash(a, seed), count + |a|)
  {
    if a == [] {
      assert a + b == b;
    } else {
      CheckRowMeaning(h, a[0], start + 1, seed);
      assert (a + b)[1..] == a[1..] + b;
      WalkPastLinked(h, a[1..], b, start + 1, a[0].recordHash, count + 1);
    }
  }

  /** The first row of `rows` that does not follow the linked rows before it. */
  function FirstBreak(h: Hasher, rows: seq<Row>, start: int, seed: Option<string>): nat {
    if rows == [] || !RowOk(h, rows[0], start + 1, seed) then 0
    else 1 + FirstBreak(h, rows[1..], start + 1, rows[0].recordHash)
  }

  lemma {:induction false} FirstBreakMeaning(h: Hasher, rows: seq<Row>, start: int, seed: Option<string>)
    ensures FirstBreak(h, rows, start, seed) <= |rows|
    ensures FirstBreak(h, rows, start, seed) == |rows| <==> Linked(h, rows, start, seed)
    ensures Linked(h, rows[..FirstBreak(h, rows, start, seed)], start, seed)
  {
    if rows != [] && RowOk(h, rows[0], start + 1, seed) {
      FirstBreakMeaning(h, rows[1..], start + 1, rows[0].recordHash);
      var k := FirstBreak(h, rows, start, seed);
      assert rows[..k][1..] == rows[1..][..k - 1];
    }
  }

  /** A row that fails its checks is reported with the first one it fails. */
  lemma CheckRowReports(h: Hasher, row: Row, expected: int, prev: Option<string>)
    requires Chained(row) && !RowOk(h, row, expected, prev)
    ensures CheckRow(h, row, expected, prev).Some?
    ensures FailsFirst(h, row, expected, prev, CheckRow(h, row, expected, prev).value)
  {
  }

  function PrevOf(rows: seq<Row>, k: nat, seed: Option<string>): Option<string>
    requires k <= |rows|
  {
    if k == 0 then seed else rows[k - 1].recordHash
  }

  lemma {:induction false} WalkReports(h: Hasher, rows: seq<Row>, start: int, seed: Option<string>, count: nat, k: nat)
    requires forall i :: 0 <= i < |rows| ==> Chained(rows[i])
    requires k == FirstBreak(h, rows, start, seed) < |rows|
    ensures Reports(h, Walk(h, rows, start, seed, count), rows[k], start + 1 + k, PrevOf(rows, k, seed))
  {
    if k == 0 {
      CheckRowReports(h, rows[0], start + 1, seed);
    } else {
      CheckRowMeaning(h, rows[0], start + 1, seed);
      WalkReports(h, rows[1..], start + 1, rows[0].recordHash, count + 1, k - 1);
    }
  }

  /** The walk answers Valid exactly on linked rows, with the rows counted; otherwise it names the
      first row that does not follow and the first check that row fails. */
  lemma WalkMeaning(h: Hasher, rows: seq<Row>, start: int, seed: Option<string>, count: nat)
    requires forall k :: 0 <= k < |rows| ==> Chained(rows[k])
    ensures Linked(h, rows, start, seed) ==> Walk(h, rows, start, seed, count) == Valid(count + |rows|)
    ensures !Linked(h, rows, start, seed) ==>
      && FirstBreak(h, rows, start, seed) < |rows|
      && var k := FirstBreak(h, rows, start, seed);
         Reports(h, Walk(h, rows, start, seed, count), rows[k], start + 1 + k, PrevOf(rows, k, seed))
  {
    FirstBreakMeaning(h, rows, start, seed);
    if Linked(h, rows, start, seed) {
      WalkPastLinked(h, rows, [], start, seed, count);
      assert rows + [] == rows;
    } else {
      WalkReports(h, rows, start, seed, count, FirstBreak(h, rows, start, seed));
    }
  }

  predicate Reports(h: Hasher, v: ChainVerification, row: Row, expected: int, prev: Option<string>) {
    && v.Broken? && v.atSequence == Key(row) && v.recordId == row.content.id
    && FailsFirst(h, row, expected, prev, v.reason)
  }

  /** The row fails this check and passes those made before it. */
  predicate FailsFirst(h: Hasher, row: Row, expected: int, prev: Option<string>, reason: BreakReason) {
    match reason
    case MissingSequence => false
    case NonContiguous => row.chainSequence != Some(expected)
    case PrevHashMismatch => row.chainSequence == Some(expected) && row.prevHash != prev
    case RecordHashMismatch =>
      row.chainSequence == Some(expected) && row.prevHash == prev
      && row.recordHash != Some(h(row.content, expected, prev))
    case NonCanonicalEnum =>
      row.chainSequence == Some(expected) && row.prevHash == prev
      && row.recordHash == Some(h(row.content, expected, prev))
      && (|| row.rawProxyAction != VerdictName(row.content.proxyAction)
          || (row.rawRecordType.Some? && row.rawRecordType != Some(RecordTypeName(row.content.recordType))))
  }

  // ---------- Appending ----------

  /** A record as it is written at a chain position. */
  function Stamp(h: Hasher, content: AuditRecord, sequence: int, prev: Option<string>): Row {
    Row(content, Some(sequence), prev, Some(h(content, sequence, prev)),
        Some(RecordTypeName(content.recordType)), VerdictName(content.proxyAction), false)
  }

  /** A batch of records chained behind (last, prev). */
  function StampAll(h: Hasher, batch: seq<AuditRecord>, last: int, prev: Option<string>): (r: seq<Row>)
    ensures |r| == |batch|
  {
    if batch == [] then []
    else
      var row := Stamp(h, batch[0], last + 1, prev);
      [row] + StampAll(h, batch[1..], last + 1, row.recordHash)
  }

  lemma StampAllNext(h: Hasher, batch: seq<AuditRecord>, i: nat, last: int, prev: Option<string>)
    requires i < |batch|
    ensures StampAll(h, batch[i..], last, prev) ==
      [Stamp(h, batch[i], last + 1, prev)] +
      StampAll(h, batch[i + 1..], last + 1, Stamp(h, batch[i], last + 1, prev).recordHash)
  {
    assert batch[i..][0] == batch[i] && batch[i..][1..] == batch[i + 1..];
  }

  lemma {:induction false} StampAllLinked(h: Hasher, batch: seq<AuditRecord>, last: int, prev: Option<string>)
    ensures |StampAll(h, batch, last, prev)| == |batch|
    ensures Linked(h, StampAll(h, batch, last, prev), last, prev)
    ensures forall k :: 0 <= k < |batch| ==> StampAll(h, batch, last, prev)[k].content == batch[k]
  {
    if batch != [] {
      var row := Stamp(h, batch[0], last + 1, prev);
      StampAllLinked(h, batch[1..], last + 1, row.recordHash);
      assert StampAll(h, batch, last, prev)[1..] == StampAll(h, batch[1..], last + 1, row.recordHash);
    }
  }

  // ---------- Facts about the queries ----------

  lemma KeyLeqIsPreorder()
    ensures Preorder(KeyLeq)
  {
  }

  lemma SegmentMembers(table: seq<Row>)
    ensures forall row :: row in Segment(table) <==> row in table && Chained(row)
    ensures SortedBy(Segment(table), KeyLeq)
  {
    FilterElements(table, Chained);
    SortKeepsElements(Filter(table, Chained), KeyLeq);
    SortSorts(Filter(table, Chained), KeyLeq);
  }

  /** The restricted query returns the rows of the segment above the start, in the same order. */
  lemma SegmentAboveFilters(table: seq<Row>, start: int)
    ensures SegmentAbove(table, start) == Filter(Segment(table), Above(start))
  {
    KeyLeqIsPreorder();
    FilterSort(Filter(table, Chained), Above(start), KeyLeq);
  }

  /** A row above every chained row extends the segment at its end. */
  lemma SegmentAppend(table: seq<Row>, row: Row)
    requires forall r :: r in table && Chained(r) && Chained(row) ==> Key(r) <= Key(row)
    ensures Segment(table + [row]) == if Chained(row) then Segment(table) + [row] else Segment(table)
  {
    FilterConcat(table, [row], Chained);
    assert [row][1..] == [];
    if Chained(row) {
      assert Filter([row], Chained) == [row];
      FilterElements(table, Chained);
      KeyLeqIsPreorder();
      SortAppend(Filter(table, Chained), row, KeyLeq);
    } else {
      assert Filter([row], Chained) == [];
      assert Filter(table, Chained) + [] == Filter(table, Chained);
    }
  }
}
