/** What two chains that end in one hash have in common, for any hash that determines its row. */
module Agreement {
  import opened Basics
  import opened Chain

  function Front(rows: seq<Row>): seq<Row>
    requires rows != []
  {
    rows[..|rows| - 1]
  }

  function Last(rows: seq<Row>): Row
    requires rows != []
  {
    rows[|rows| - 1]
  }

  /** Two covered rows that follow their chains and store the same hash name the same predecessor and
      are `same`. */
  ghost predicate HashDetermines(h: Hasher, covered: Row -> bool, same: (Row, Row) -> bool) {
    forall a, m, p, b, n, q ::
      RowOk(h, a, m, p) && RowOk(h, b, n, q) && covered(a) && covered(b) && a.recordHash == b.recordHash ==>
        p == q && same(a, b)
  }

  /** ... and are at the same sequence. */
  ghost predicate HashPlaces(h: Hasher, covered: Row -> bool) {
    forall a, m, p, b, n, q ::
      RowOk(h, a, m, p) && RowOk(h, b, n, q) && covered(a) && covered(b) && a.recordHash == b.recordHash ==> m == n
  }

  /** Compared from their ends, the rows are `same` as far as both lists reach. */
  predicate AgreeFromEnd(same: (Row, Row) -> bool, a: seq<Row>, b: seq<Row>) {
    a == [] || b == [] || (same(Last(a), Last(b)) && AgreeFromEnd(same, Front(a), Front(b)))
  }

  lemma {:induction false} AgreeFromEndAt(same: (Row, Row) -> bool, a: seq<Row>, b: seq<Row>, i: nat, j: nat)
    requires AgreeFromEnd(same, a, b) && i < |a| && j < |b| && |a| - i == |b| - j
    ensures same(a[i], b[j])
  {
    if i < |a| - 1 {
      AgreeFromEndAt(same, Front(a), Front(b), i, j);
    }
  }

  /** Two chains that carry the same hash at their ends agree, row by row, as far back as both reach. */
  lemma {:induction false} AgreeBackwards(
    h: Hasher, covered: Row -> bool, same: (Row, Row) -> bool,
    a: seq<Row>, start: int, seed: Option<string>, b: seq<Row>, start': int, seed': Option<string>)
    requires HashDetermines(h, covered, same)
    requires a != [] && b != []
    requires Linked(h, a, start, seed) && Linked(h, b, start', seed')
    requires (forall row :: row in a ==> covered(row)) && (forall row :: row in b ==> covered(row))
    requires Last(a).recordHash == Last(b).recordHash
    ensures AgreeFromEnd(same, a, b)
    decreases |a|
  {
    assert Last(a) in a && Last(b) in b;
    AgreeAtEnd(h, covered, same, a, start, seed, b, start', seed');
    if |a| > 1 && |b| > 1 {
      AgreeBackwards(h, covered, same, Front(a), start, seed, Front(b), start', seed');
    }
  }

  /** The last rows of two such chains are the same, behind one hash. */
  lemma AgreeAtEnd(
    h: Hasher, covered: Row -> bool, same: (Row, Row) -> bool,
    a: seq<Row>, start: int, seed: Option<string>, b: seq<Row>, start': int, seed': Option<string>)
    requires HashDetermines(h, covered, same)
    requires a != [] && b != [] && covered(Last(a)) && covered(Last(b))
    requires Linked(h, a, start, seed) && Linked(h, b, start', seed')
    requires Last(a).recordHash == Last(b).recordHash
    ensures same(Last(a), Last(b))
    ensures |a| > 1 && |b| > 1 ==> Last(Front(a)).recordHash == Last(Front(b)).recordHash
    ensures Linked(h, Front(a), start, seed) && Linked(h, Front(b), start', seed')
  {
    LinkedLast(h, a, start, seed);
    LinkedLast(h, b, start', seed');
    EndHashIsLast(Front(a), seed);
    EndHashIsLast(Front(b), seed');
  }

  /** If the hash covers the sequence, the chains carry it at the same one. */
  lemma SameSequence(
    h: Hasher, covered: Row -> bool,
    a: seq<Row>, start: int, seed: Option<string>, b: seq<Row>, start': int, seed': Option<string>)
    requires HashPlaces(h, covered) && a != [] && b != [] && covered(Last(a)) && covered(Last(b))
    requires Linked(h, a, start, seed) && Linked(h, b, start', seed')
    requires Last(a).recordHash == Last(b).recordHash
    ensures start + |a| == start' + |b|
  {
    LinkedLast(h, a, start, seed);
    LinkedLast(h, b, start', seed');
  }

  /** Behind one anchor the two chains are the same throughout. */
  lemma AgreeThroughout(
    h: Hasher, covered: Row -> bool, same: (Row, Row) -> bool, a: seq<Row>, b: seq<Row>, start: int,
    seed: Option<string>)
    requires HashDetermines(h, covered, same) && HashPlaces(h, covered)
    requires a != [] && b != [] && Linked(h, a, start, seed) && Linked(h, b, start, seed)
    requires (forall row :: row in a ==> covered(row)) && (forall row :: row in b ==> covered(row))
    requires Last(a).recordHash == Last(b).recordHash
    ensures |a| == |b| && forall k :: 0 <= k < |a| ==> same(a[k], b[k])
  {
    AgreeBackwards(h, covered, same, a, start, seed, b, start, seed);
    assert Last(a) in a && Last(b) in b;
    SameSequence(h, covered, a, start, seed, b, start, seed);
    forall k | 0 <= k < |a| ensures same(a[k], b[k]) {
      AgreeFromEndAt(same, a, b, k, k);
    }
  }
}
