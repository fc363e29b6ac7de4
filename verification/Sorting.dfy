/** A stable sort by an arbitrary comparison and the facts the model needs about it: Rust's
    `sort_by` and SQL's `ORDER BY` are both read as this function. */
module Sorting {

  ghost predicate Preorder<T(!new)>(leq: (T, T) -> bool) {
    && (forall x, y :: leq(x, y) || leq(y, x))
    && (forall x, y, z :: leq(x, y) && leq(y, z) ==> leq(x, z))
  }

  ghost predicate SortedBy<T(!new)>(s: seq<T>, leq: (T, T) -> bool) {
    forall i, j :: 0 <= i < j < |s| ==> leq(s[i], s[j])
  }

  /** Elements of `s` that compare equal both ways are the same element. */
  ghost predicate Discriminates<T(!new)>(s: seq<T>, leq: (T, T) -> bool) {
    forall x, y :: x in s && y in s && leq(x, y) && leq(y, x) ==> x == y
  }

  function Insert<T(!new)>(x: T, s: seq<T>, leq: (T, T) -> bool): seq<T> {
    if s == [] || leq(x, s[0]) then [x] + s else [s[0]] + Insert(x, s[1..], leq)
  }

  function Sort<T(!new)>(s: seq<T>, leq: (T, T) -> bool): seq<T> {
    if s == [] then [] else Insert(s[0], Sort(s[1..], leq), leq)
  }

  lemma {:induction false} InsertKeepsElements<T(!new)>(x: T, s: seq<T>, leq: (T, T) -> bool)
    ensures multiset(Insert(x, s, leq)) == multiset([x] + s)
  {
    if s != [] && !leq(x, s[0]) {
      InsertKeepsElements(x, s[1..], leq);
      assert s == [s[0]] + s[1..];
    }
  }

  lemma {:induction false} SortKeepsElements<T(!new)>(s: seq<T>, leq: (T, T) -> bool)
    ensures multiset(Sort(s, leq)) == multiset(s)
    ensures |Sort(s, leq)| == |s|
    ensures forall x :: x in Sort(s, leq) <==> x in s
  {
    if s != [] {
      SortKeepsElements(s[1..], leq);
      InsertKeepsElements(s[0], Sort(s[1..], leq), leq);
      assert s == [s[0]] + s[1..];
    }
    assert |multiset(Sort(s, leq))| == |multiset(s)|;
    forall x ensures x in Sort(s, leq) <==> x in s {
      assert x in Sort(s, leq) <==> x in multiset(Sort(s, leq));
    }
  }

  lemma {:induction false} InsertSorts<T(!new)>(x: T, s: seq<T>, leq: (T, T) -> bool)
    requires Preorder(leq) && SortedBy(s, leq)
    ensures SortedBy(Insert(x, s, leq), leq)
  {
    if s != [] && !leq(x, s[0]) {
      InsertSorts(x, s[1..], leq);
      InsertKeepsElements(x, s[1..], leq);
      forall y | y in Insert(x, s[1..], leq) ensures leq(s[0], y) {
        assert y in multiset([x] + s[1..]);
      }
    }
  }

  lemma {:induction false} SortSorts<T(!new)>(s: seq<T>, leq: (T, T) -> bool)
    requires Preorder(leq)
    ensures SortedBy(Sort(s, leq), leq)
  {
    if s != [] {
      SortSorts(s[1..], leq);
      InsertSorts(s[0], Sort(s[1..], leq), leq);
    }
  }

  /** The sort leaves sorted input alone. */
  lemma {:induction false} SortFixesSorted<T(!new)>(s: seq<T>, leq: (T, T) -> bool)
    requires SortedBy(s, leq)
    ensures Sort(s, leq) == s
  {
    if s != [] {
      SortFixesSorted(s[1..], leq);
      assert |s| > 1 ==> leq(s[0], s[1]);
    }
  }

  /** There is one sorted arrangement of any elements the comparison tells apart. */
  lemma {:induction false} SortedUnique<T(!new)>(s: seq<T>, t: seq<T>, leq: (T, T) -> bool)
    requires SortedBy(s, leq) && SortedBy(t, leq)
    requires multiset(s) == multiset(t)
    requires Discriminates(s, leq)
    ensures s == t
  {
    assert |multiset(s)| == |s| && |multiset(t)| == |t|;
    if s != [] {
      SortedHeads(s, t, leq);
      SameTails(s, t);
      SortedUnique(s[1..], t[1..], leq);
      assert s == [s[0]] + s[1..] && t == [t[0]] + t[1..];
    }
  }

  lemma SameTails<T(!new)>(s: seq<T>, t: seq<T>)
    requires s != [] && t != [] && s[0] == t[0] && multiset(s) == multiset(t)
    ensures multiset(s[1..]) == multiset(t[1..])
  {
    assert s == [s[0]] + s[1..] && t == [t[0]] + t[1..];
    assert multiset(s[1..]) == multiset(s) - multiset{s[0]};
  }

  lemma SortedHeads<T(!new)>(s: seq<T>, t: seq<T>, leq: (T, T) -> bool)
    requires SortedBy(s, leq) && SortedBy(t, leq)
    requires multiset(s) == multiset(t) && s != [] && t != []
    requires Discriminates(s, leq)
    ensures s[0] == t[0]
  {
    assert s[0] in multiset(t) && t[0] in multiset(s);
    var i :| 0 <= i < |t| && t[i] == s[0];
    var j :| 0 <= j < |s| && s[j] == t[0];
    if i > 0 && j > 0 {
      assert leq(t[0], t[i]) && leq(s[0], s[j]);
    }
  }

  /** Sorting forgets the order its input came in. */
  lemma SortForgetsOrder<T(!new)>(s: seq<T>, t: seq<T>, leq: (T, T) -> bool)
    requires Preorder(leq) && multiset(s) == multiset(t) && Discriminates(s, leq)
    ensures Sort(s, leq) == Sort(t, leq)
  {
    SortSorts(s, leq);
    SortSorts(t, leq);
    SortKeepsElements(s, leq);
    SortKeepsElements(t, leq);
    SortedUnique(Sort(s, leq), Sort(t, leq), leq);
  }

  // ---------- Filtering ----------

  function Filter<T(!new)>(s: seq<T>, keep: T -> bool): seq<T> {
    if s == [] then []
    else if keep(s[0]) then [s[0]] + Filter(s[1..], keep)
    else Filter(s[1..], keep)
  }

  lemma {:induction false} FilterElements<T(!new)>(s: seq<T>, keep: T -> bool)
    ensures forall x :: x in Filter(s, keep) <==> x in s && keep(x)
    ensures |Filter(s, keep)| <= |s|
  {
    if s != [] {
      FilterElements(s[1..], keep);
      assert s == [s[0]] + s[1..];
    }
  }

  lemma {:induction false} FilterConcat<T(!new)>(s: seq<T>, t: seq<T>, keep: T -> bool)
    ensures Filter(s + t, keep) == Filter(s, keep) + Filter(t, keep)
  {
    if s == [] {
      assert s + t == t;
    } else {
      FilterConcat(s[1..], t, keep);
      assert (s + t)[1..] == s[1..] + t && (s + t)[0] == s[0];
    }
  }

  lemma {:induction false} FilterAll<T(!new)>(s: seq<T>, keep: T -> bool)
    ensures (forall x :: x in s ==> keep(x)) ==> Filter(s, keep) == s
    ensures (forall x :: x in s ==> !keep(x)) ==> Filter(s, keep) == []
  {
    if s != [] {
      FilterAll(s[1..], keep);
      assert s[0] in s;
    }
  }

  lemma {:induction false} FilterNone<T(!new)>(s: seq<T>, keep: T -> bool)
    requires forall k :: 0 <= k < |s| ==> !keep(s[k])
    ensures Filter(s, keep) == []
  {
    if s != [] {
      FilterNone(s[1..], keep);
    }
  }

  lemma {:induction false} FilterSorted<T(!new)>(s: seq<T>, keep: T -> bool, leq: (T, T) -> bool)
    requires SortedBy(s, leq)
    ensures SortedBy(Filter(s, keep), leq)
  {
    if s != [] {
      FilterSorted(s[1..], keep, leq);
      HeadBelowKept(s, keep, leq);
    }
  }

  lemma HeadBelowKept<T(!new)>(s: seq<T>, keep: T -> bool, leq: (T, T) -> bool)
    requires s != [] && SortedBy(s, leq)
    ensures forall k :: 0 <= k < |Filter(s[1..], keep)| ==> leq(s[0], Filter(s[1..], keep)[k])
  {
    var rest := s[1..];
    FilterElements(rest, keep);
    forall k | 0 <= k < |Filter(rest, keep)| ensures leq(s[0], Filter(rest, keep)[k]) {
      var y := Filter(rest, keep)[k];
      assert y in Filter(rest, keep);
      var j :| 0 <= j < |rest| && rest[j] == y;
      assert leq(s[0], s[j + 1]);
    }
  }

  lemma {:induction false} FilterInsert<T(!new)>(x: T, s: seq<T>, keep: T -> bool, leq: (T, T) -> bool)
    requires Preorder(leq) && SortedBy(s, leq)
    ensures Filter(Insert(x, s, leq), keep) == if keep(x) then Insert(x, Filter(s, keep), leq) else Filter(s, keep)
  {
    if s == [] || leq(x, s[0]) {
      assert ([x] + s)[1..] == s;
      if keep(x) {
        InsertAtFront(x, Filter(s, keep), s, leq, keep);
      }
    } else {
      FilterInsert(x, s[1..], keep, leq);
      assert ([s[0]] + Insert(x, s[1..], leq))[1..] == Insert(x, s[1..], leq);
    }
  }

  lemma InsertAtFront<T(!new)>(x: T, kept: seq<T>, s: seq<T>, leq: (T, T) -> bool, keep: T -> bool)
    requires Preorder(leq) && SortedBy(s, leq) && (s == [] || leq(x, s[0]))
    requires kept == Filter(s, keep)
    ensures Insert(x, kept, leq) == [x] + kept
  {
    FilterElements(s, keep);
    if kept != [] {
      assert kept[0] in s;
      assert leq(s[0], kept[0]) && leq(x, s[0]);
    }
  }

  /** A stable sort and a filter may be done in either order. */
  lemma {:induction false} FilterSort<T(!new)>(s: seq<T>, keep: T -> bool, leq: (T, T) -> bool)
    requires Preorder(leq)
    ensures Filter(Sort(s, leq), keep) == Sort(Filter(s, keep), leq)
  {
    if s != [] {
      FilterSort(s[1..], keep, leq);
      SortSorts(s[1..], leq);
      FilterInsert(s[0], Sort(s[1..], leq), keep, leq);
      if keep(s[0]) {
        assert Filter(s, keep)[1..] == Filter(s[1..], keep);
      }
    }
  }

  /** An element that nothing comes after sorts to the end. */
  lemma {:induction false} SortAppend<T(!new)>(s: seq<T>, x: T, leq: (T, T) -> bool)
    requires Preorder(leq) && forall y :: y in s ==> leq(y, x)
    ensures Sort(s + [x], leq) == Sort(s, leq) + [x]
  {
    if s == [] {
      assert s + [x] == [x];
    } else {
      SortAppend(s[1..], x, leq);
      assert (s + [x])[1..] == s[1..] + [x];
      InsertBeforeLast(s[0], Sort(s[1..], leq), x, leq);
    }
  }

  lemma {:induction false} InsertBeforeLast<T(!new)>(y: T, s: seq<T>, x: T, leq: (T, T) -> bool)
    requires leq(y, x)
    ensures Insert(y, s + [x], leq) == Insert(y, s, leq) + [x]
  {
    if s != [] && !leq(y, s[0]) {
      InsertBeforeLast(y, s[1..], x, leq);
      assert (s + [x])[1..] == s[1..] + [x];
    }
  }

  /** An element strictly after all others sorts to the end wherever it stood. */
  lemma {:induction false} SortToEnd<T(!new)>(a: seq<T>, x: T, b: seq<T>, leq: (T, T) -> bool)
    requires forall y :: y in a || y in b ==> leq(y, x) && !leq(x, y)
    ensures Sort(a + [x] + b, leq) == Sort(a + b, leq) + [x]
  {
    if a == [] {
      assert a + [x] + b == [x] + b && a + b == b;
      assert ([x] + b)[1..] == b;
      SortKeepsElements(b, leq);
      InsertAtEnd(x, Sort(b, leq), leq);
    } else {
      SortToEnd(a[1..], x, b, leq);
      assert (a + [x] + b)[1..] == a[1..] + [x] + b && (a + b)[1..] == a[1..] + b;
      InsertBeforeLast(a[0], Sort(a[1..] + b, leq), x, leq);
    }
  }

  lemma {:induction false} InsertAtEnd<T(!new)>(x: T, s: seq<T>, leq: (T, T) -> bool)
    requires forall y :: y in s ==> !leq(x, y)
    ensures Insert(x, s, leq) == s + [x]
  {
    if s != [] {
      InsertAtEnd(x, s[1..], leq);
    }
  }

  /** Taking out the element that sorts first leaves the rest sorted as before. */
  lemma SortWithoutFirst<T(!new)>(a: seq<T>, x: T, b: seq<T>, leq: (T, T) -> bool)
    requires Preorder(leq) && Discriminates(a + b, leq)
    requires Sort(a + [x] + b, leq) != [] && Sort(a + [x] + b, leq)[0] == x
    ensures Sort(a + b, leq) == Sort(a + [x] + b, leq)[1..]
  {
    var all := Sort(a + [x] + b, leq);
    SortSorts(a + [x] + b, leq);
    SameRest(a, x, b, leq);
    assert SortedBy(all[1..], leq);
    SortForgetsOrder(a + b, all[1..], leq);
    SortFixesSorted(all[1..], leq);
  }

  lemma SameRest<T(!new)>(a: seq<T>, x: T, b: seq<T>, leq: (T, T) -> bool)
    requires Sort(a + [x] + b, leq) != [] && Sort(a + [x] + b, leq)[0] == x
    ensures multiset(Sort(a + [x] + b, leq)[1..]) == multiset(a + b)
  {
    var all := Sort(a + [x] + b, leq);
    SortKeepsElements(a + [x] + b, leq);
    assert all == [x] + all[1..];
    assert multiset(all) == multiset{x} + multiset(all[1..]);
    assert multiset(a + [x] + b) == multiset(a + b) + multiset{x};
    assert multiset(all[1..]) == multiset(all) - multiset{x};
  }

  lemma {:induction false} FilterSwap<T(!new)>(s: seq<T>, p: T -> bool, q: T -> bool)
    ensures Filter(Filter(s, p), q) == Filter(Filter(s, q), p)
  {
    if s != [] {
      FilterSwap(s[1..], p, q);
    }
  }

  /** Two filters that agree on the elements at hand. */
  lemma {:induction false} FilterSame<T(!new)>(s: seq<T>, p: T -> bool, q: T -> bool)
    requires forall x :: x in s ==> p(x) == q(x)
    ensures Filter(s, p) == Filter(s, q)
  {
    if s != [] {
      FilterSame(s[1..], p, q);
      assert s[0] in s;
    }
  }

  /** A filter whose survivors all pass a second one. */
  lemma {:induction false} FilterTwice<T(!new)>(s: seq<T>, p: T -> bool, q: T -> bool)
    requires forall x :: x in s && q(x) ==> p(x)
    ensures Filter(Filter(s, p), q) == Filter(s, q)
  {
    if s != [] {
      FilterTwice(s[1..], p, q);
      assert s[0] in s;
    }
  }

  // ---------- Mapping ----------

  function Map<T(!new), U(!new)>(s: seq<T>, f: T -> U): (r: seq<U>)
    ensures |r| == |s| && forall k :: 0 <= k < |s| ==> r[k] == f(s[k])
  {
    if s == [] then [] else [f(s[0])] + Map(s[1..], f)
  }

  lemma MapConcat<T(!new), U(!new)>(s: seq<T>, t: seq<T>, f: T -> U)
    ensures Map(s + t, f) == Map(s, f) + Map(t, f)
  {
  }

  function Without<T(!new)>(s: seq<T>, i: nat): seq<T>
    requires i < |s|
  {
    s[..i] + s[i + 1..]
  }

  lemma WithoutElements<T(!new)>(s: seq<T>, i: nat)
    requires i < |s|
    ensures multiset(s) == multiset{s[i]} + multiset(Without(s, i))
    ensures multiset(Without(s, i)) == multiset(s) - multiset{s[i]}
  {
    assert s == s[..i] + ([s[i]] + s[i + 1..]);
  }

  lemma MapWithout<T(!new), U(!new)>(s: seq<T>, i: nat, f: T -> U)
    requires i < |s|
    ensures Without(Map(s, f), i) == Map(Without(s, i), f)
  {
    MapConcat(s[..i], s[i + 1..], f);
    MapCut(s, i, f);
    MapCut(s, i + 1, f);
  }

  lemma MapCut<T(!new), U(!new)>(s: seq<T>, i: nat, f: T -> U)
    requires i <= |s|
    ensures Map(s, f)[..i] == Map(s[..i], f) && Map(s, f)[i..] == Map(s[i..], f)
  {
    MapTaken(s, i, f);
    MapDropped(s, i, f);
  }

  lemma MapTaken<T(!new), U(!new)>(s: seq<T>, i: nat, f: T -> U)
    requires i <= |s|
    ensures Map(s, f)[..i] == Map(s[..i], f)
  {
  }

  lemma MapDropped<T(!new), U(!new)>(s: seq<T>, i: nat, f: T -> U)
    requires i <= |s|
    ensures Map(s, f)[i..] == Map(s[i..], f)
  {
  }

  /** Mapping respects rearrangement. */
  lemma {:induction false} MapMultiset<T(!new), U(!new)>(s: seq<T>, t: seq<T>, f: T -> U)
    requires multiset(s) == multiset(t)
    ensures multiset(Map(s, f)) == multiset(Map(t, f))
  {
    assert |multiset(s)| == |s| && |multiset(t)| == |t|;
    if s != [] {
      assert s[0] in multiset(t);
      var i :| 0 <= i < |t| && t[i] == s[0];
      WithoutElements(s, 0);
      WithoutElements(t, i);
      MapMultiset(Without(s, 0), Without(t, i), f);
      MapWithout(s, 0, f);
      MapWithout(t, i, f);
      WithoutElements(Map(s, f), 0);
      WithoutElements(Map(t, f), i);
    }
  }

  /** A map that keeps the filter's verdict may be done before it. */
  lemma {:induction false} FilterMap<T(!new)>(s: seq<T>, keep: T -> bool, f: T -> T)
    requires forall x :: x in s ==> keep(f(x)) == keep(x)
    ensures Filter(Map(s, f), keep) == Map(Filter(s, keep), f)
  {
    if s != [] {
      FilterMap(s[1..], keep, f);
      assert Map(s, f)[1..] == Map(s[1..], f);
      assert s[0] in s;
    }
  }

  /** A map that keeps the comparison's verdicts may be done before the sort. */
  lemma {:induction false} SortMap<T(!new)>(s: seq<T>, leq: (T, T) -> bool, f: T -> T)
    requires forall x, y :: leq(f(x), f(y)) == leq(x, y)
    ensures Sort(Map(s, f), leq) == Map(Sort(s, leq), f)
  {
    if s != [] {
      SortMap(s[1..], leq, f);
      InsertMap(s[0], Sort(s[1..], leq), leq, f);
      assert Map(s, f)[1..] == Map(s[1..], f);
    }
  }

  lemma {:induction false} InsertMap<T(!new)>(x: T, s: seq<T>, leq: (T, T) -> bool, f: T -> T)
    requires forall x, y :: leq(f(x), f(y)) == leq(x, y)
    ensures Insert(f(x), Map(s, f), leq) == Map(Insert(x, s, leq), f)
  {
    if s != [] {
      InsertMap(x, s[1..], leq, f);
      assert Map(s, f)[1..] == Map(s[1..], f);
    }
  }

  // ---------- Lists of sets ----------

  /** The elements of a set in some order. */
  ghost function ListOf<T(!new)>(s: set<T>): seq<T>
    decreases |s|
  {
    if s == {} then []
    else
      var x :| x in s;
      [x] + ListOf(s - {x})
  }

  lemma {:induction false} ListOfElements<T(!new)>(s: set<T>)
    ensures multiset(ListOf(s)) == multiset(s)
    ensures forall x :: x in ListOf(s) <==> x in s
    decreases |s|
  {
    if s != {} {
      var x :| x in s && ListOf(s) == [x] + ListOf(s - {x});
      ListOfElements(s - {x});
      assert multiset(s) == multiset{x} + multiset(s - {x});
    }
    InMultiset(ListOf(s));
  }

  lemma InMultiset<T(!new)>(s: seq<T>)
    ensures forall x :: x in s <==> x in multiset(s)
  {
  }

  // ---------- Distinctness ----------

  ghost predicate Distinct<T(!new)>(s: seq<T>) {
    forall i, j :: 0 <= i < j < |s| ==> s[i] != s[j]
  }

  lemma DistinctCounts<T(!new)>(s: seq<T>)
    ensures Distinct(s) <==> forall x :: multiset(s)[x] <= 1
  {
    if Distinct(s) {
      DistinctOnce(s);
    }
    if forall x :: multiset(s)[x] <= 1 {
      forall i, j | 0 <= i < j < |s| ensures s[i] != s[j] {
        WithoutElements(s, j);
        assert Without(s, j)[i] == s[i];
        assert multiset(s)[s[j]] <= 1;
      }
    }
  }

  lemma {:induction false} DistinctOnce<T(!new)>(s: seq<T>)
    requires Distinct(s)
    ensures forall x :: multiset(s)[x] <= 1
  {
    if s != [] {
      DistinctOnce(s[1..]);
      WithoutElements(s, 0);
      assert Without(s, 0) == s[1..];
      assert s[0] !in s[1..];
    }
  }

  lemma DistinctPermute<T(!new)>(s: seq<T>, t: seq<T>)
    requires Distinct(s) && multiset(s) == multiset(t)
    ensures Distinct(t)
  {
    DistinctCounts(s);
    DistinctCounts(t);
  }

  // ---------- The order of strings ----------

  /** Byte by byte, a prefix first: the order of Rust's `String`. */
  predicate StringLeq(a: string, b: string) {
    a == [] || (b != [] && (a[0] < b[0] || (a[0] == b[0] && StringLeq(a[1..], b[1..]))))
  }

  predicate StringLess(a: string, b: string) { StringLeq(a, b) && a != b }

  lemma {:induction false} StringLeqTotal(a: string, b: string)
    ensures StringLeq(a, b) || StringLeq(b, a)
  {
    if a != [] && b != [] && a[0] == b[0] {
      StringLeqTotal(a[1..], b[1..]);
    }
  }

  lemma {:induction false} StringLeqTransitive(a: string, b: string, c: string)
    requires StringLeq(a, b) && StringLeq(b, c)
    ensures StringLeq(a, c)
  {
    if a != [] && a[0] == b[0] && b[0] == c[0] {
      StringLeqTransitive(a[1..], b[1..], c[1..]);
    }
  }

  lemma {:induction false} StringLeqAntisymmetric(a: string, b: string)
    requires StringLeq(a, b) && StringLeq(b, a)
    ensures a == b
  {
    if a != [] {
      StringLeqAntisymmetric(a[1..], b[1..]);
      assert a == [a[0]] + a[1..] && b == [b[0]] + b[1..];
    }
  }

  lemma StringLeqIsPreorder()
    ensures Preorder(StringLeq)
  {
    forall x, y ensures StringLeq(x, y) || StringLeq(y, x) {
      StringLeqTotal(x, y);
    }
    forall x, y, z | StringLeq(x, y) && StringLeq(y, z) ensures StringLeq(x, z) {
      StringLeqTransitive(x, y, z);
    }
  }
}
