/** Sums and bounds over a set: what a group-by row is, without an order of arrival. */
module Totals {

  ghost function Total<T(!new)>(s: set<T>, f: T -> int): int
    decreases |s|
  {
    if s == {} then 0
    else
      var x :| x in s;
      f(x) + Total(s - {x}, f)
  }

  /** The sum does not depend on which element is taken first. */
  lemma {:induction false} TotalWithout<T(!new)>(s: set<T>, x: T, f: T -> int)
    requires x in s
    ensures Total(s, f) == f(x) + Total(s - {x}, f)
    decreases |s|
  {
    var y :| y in s && Total(s, f) == f(y) + Total(s - {y}, f);
    if y != x {
      TotalWithout(s - {y}, x, f);
      TotalWithout(s - {x}, y, f);
      assert s - {y} - {x} == s - {x} - {y};
    }
  }

  lemma TotalAdd<T(!new)>(s: set<T>, x: T, f: T -> int)
    requires x !in s
    ensures Total(s + {x}, f) == Total(s, f) + f(x)
  {
    TotalWithout(s + {x}, x, f);
    assert s + {x} - {x} == s;
  }

  /** A measure that is never negative sums to no more over a part of the set. */
  lemma {:induction false} TotalWithin<T(!new)>(t: set<T>, s: set<T>, f: T -> int)
    requires t <= s && forall x :: x in s ==> f(x) >= 0
    ensures 0 <= Total(t, f) <= Total(s, f)
    decreases |t|
  {
    if t == {} {
      TotalNonNegative(s, f);
    } else {
      var x :| x in t;
      TotalWithout(t, x, f);
      TotalWithout(s, x, f);
      TotalWithin(t - {x}, s - {x}, f);
    }
  }

  /** Two measures that agree on the set have one sum. */
  lemma {:induction false} TotalSame<T(!new)>(s: set<T>, f: T -> int, g: T -> int)
    requires forall x :: x in s ==> f(x) == g(x)
    ensures Total(s, f) == Total(s, g)
    decreases |s|
  {
    if s != {} {
      var x :| x in s;
      TotalWithout(s, x, f);
      TotalWithout(s, x, g);
      TotalSame(s - {x}, f, g);
    }
  }

  /** A linear bound that holds of every element holds of the sums. */
  lemma {:induction false} TotalBound<T(!new)>(s: set<T>, f: T -> int, c: int, g: T -> int)
    requires forall x :: x in s ==> f(x) <= c * g(x)
    ensures Total(s, f) <= c * Total(s, g)
    decreases |s|
  {
    if s != {} {
      var x :| x in s;
      TotalWithout(s, x, f);
      TotalWithout(s, x, g);
      TotalBound(s - {x}, f, c, g);
      assert c * (g(x) + Total(s - {x}, g)) == c * g(x) + c * Total(s - {x}, g);
    }
  }

  lemma {:induction false} TotalBoundBelow<T(!new)>(s: set<T>, c: int, g: T -> int, f: T -> int)
    requires forall x :: x in s ==> c * g(x) <= f(x)
    ensures c * Total(s, g) <= Total(s, f)
    decreases |s|
  {
    if s != {} {
      var x :| x in s;
      TotalWithout(s, x, f);
      TotalWithout(s, x, g);
      TotalBoundBelow(s - {x}, c, g, f);
      assert c * (g(x) + Total(s - {x}, g)) == c * g(x) + c * Total(s - {x}, g);
    }
  }

  lemma {:induction false} TotalPlus<T(!new)>(s: set<T>, f: T -> int, g: T -> int, both: T -> int)
    requires forall x :: x in s ==> both(x) == f(x) + g(x)
    ensures Total(s, both) == Total(s, f) + Total(s, g)
    decreases |s|
  {
    if s != {} {
      var x :| x in s;
      TotalWithout(s, x, f);
      TotalWithout(s, x, g);
      TotalWithout(s, x, both);
      TotalPlus(s - {x}, f, g, both);
    }
  }

  /** A measure that is zero but at one element. */
  lemma TotalAtOne<T(!new)>(s: set<T>, k: T, f: T -> int)
    requires k in s && forall x :: x in s && x != k ==> f(x) == 0
    ensures Total(s, f) == f(k)
  {
    TotalWithout(s, k, f);
    TotalZero(s - {k}, f);
  }

  lemma {:induction false} TotalZero<T(!new)>(s: set<T>, f: T -> int)
    requires forall x :: x in s ==> f(x) == 0
    ensures Total(s, f) == 0
    decreases |s|
  {
    if s != {} {
      var x :| x in s;
      TotalWithout(s, x, f);
      TotalZero(s - {x}, f);
    }
  }

  /** The sum of each group; `share(k)` is what the elements add to group `k`. */
  ghost function Groups<T(!new), K>(s: set<T>, share: K -> T -> int): K -> int {
    (k: K) => Total(s, share(k))
  }

  function ShareOf<T, K>(share: K -> T -> int, x: T): K -> int { (k: K) => share(k)(x) }

  /** Groups that take in every element add up to the whole. */
  lemma {:induction false} TotalOfGroups<T(!new), K(!new)>(
    s: set<T>, keys: set<K>, key: T -> K, f: T -> int, share: K -> T -> int)
    requires forall x :: x in s ==> key(x) in keys
    requires forall k, x :: x in s ==> share(k)(x) == if key(x) == k then f(x) else 0
    ensures Total(keys, Groups(s, share)) == Total(s, f)
    decreases |s|
  {
    if s == {} {
      TotalZero(keys, Groups(s, share));
    } else {
      var x :| x in s;
      TotalOfGroups(s - {x}, keys, key, f, share);
      GroupsWithout(s, keys, share, x);
      ShareOfOne(keys, key(x), f(x), share, x);
      TotalWithout(s, x, f);
    }
  }

  lemma ShareOfOne<T(!new), K(!new)>(keys: set<K>, own: K, value: int, share: K -> T -> int, x: T)
    requires own in keys && forall k :: share(k)(x) == if own == k then value else 0
    ensures Total(keys, ShareOf(share, x)) == value
  {
    TotalAtOne(keys, own, ShareOf(share, x));
  }

  lemma GroupsWithout<T(!new), K(!new)>(s: set<T>, keys: set<K>, share: K -> T -> int, x: T)
    requires x in s
    ensures Total(keys, Groups(s, share)) == Total(keys, Groups(s - {x}, share)) + Total(keys, ShareOf(share, x))
  {
    forall k | k in keys ensures Groups(s, share)(k) == Groups(s - {x}, share)(k) + ShareOf(share, x)(k) {
      TotalWithout(s, x, share(k));
    }
    TotalPlus(keys, Groups(s - {x}, share), ShareOf(share, x), Groups(s, share));
  }

  lemma {:induction false} TotalNonNegative<T(!new)>(s: set<T>, f: T -> int)
    requires forall x :: x in s ==> f(x) >= 0
    ensures Total(s, f) >= 0
    ensures Total(s, f) == 0 ==> forall x :: x in s ==> f(x) == 0
    decreases |s|
  {
    if s != {} {
      var x :| x in s;
      TotalWithout(s, x, f);
      TotalNonNegative(s - {x}, f);
    }
  }

  function Unit<T>(): T -> int { (x: T) => 1 }

  lemma {:induction false} TotalOfOnes<T(!new)>(s: set<T>)
    ensures Total(s, Unit()) == |s|
    decreases |s|
  {
    if s != {} {
      var x :| x in s;
      TotalWithout(s, x, Unit());
      TotalOfOnes(s - {x});
    }
  }

  /** A sum over an image is a sum over the set, when the image keeps the elements apart. */
  lemma {:induction false} TotalImage<T(!new), U(!new)>(s: set<T>, image: T -> U, f: U -> int, g: T -> int)
    requires forall x, y :: x in s && y in s && image(x) == image(y) ==> x == y
    requires forall x :: x in s ==> f(image(x)) == g(x)
    ensures Total(Image(s, image), f) == Total(s, g)
    decreases |s|
  {
    if s == {} {
      assert Image(s, image) == {};
    } else {
      var x :| x in s;
      TotalWithout(s, x, g);
      TotalImage(s - {x}, image, f, g);
      TotalWithout(Image(s, image), image(x), f);
      assert Image(s, image) - {image(x)} == Image(s - {x}, image);
    }
  }

  ghost function Image<T(!new), U(!new)>(s: set<T>, image: T -> U): set<U> { set x | x in s :: image(x) }

  lemma {:induction false} ImageSize<T(!new), U(!new)>(s: set<T>, image: T -> U)
    requires forall x, y :: x in s && y in s && image(x) == image(y) ==> x == y
    ensures |Image(s, image)| == |s|
    decreases |s|
  {
    if s == {} {
      assert Image(s, image) == {};
    } else {
      var x :| x in s;
      ImageSize(s - {x}, image);
      assert Image(s, image) == Image(s - {x}, image) + {image(x)};
    }
  }

  // ---------- Bounds ----------

  /** `first` and `last` are the least and greatest time of the elements that satisfy `p`. */
  ghost predicate Spans<T(!new)>(s: set<T>, p: T -> bool, at: T -> int, first: int, last: int) {
    && (exists x :: x in s && p(x) && at(x) == first)
    && (exists x :: x in s && p(x) && at(x) == last)
    && (forall x :: x in s && p(x) ==> first <= at(x) <= last)
  }

  function Min(a: int, b: int): int { if b < a then b else a }

  function Max(a: int, b: int): int { if b > a then b else a }

  lemma SpansUnique<T(!new)>(s: set<T>, p: T -> bool, at: T -> int, a: int, b: int, c: int, d: int)
    requires Spans(s, p, at, a, b) && Spans(s, p, at, c, d)
    ensures a == c && b == d
  {
  }

  lemma SpansAdd<T(!new)>(s: set<T>, x: T, p: T -> bool, at: T -> int, first: int, last: int)
    requires Spans(s, p, at, first, last) && p(x)
    ensures Spans(s + {x}, p, at, Min(first, at(x)), Max(last, at(x)))
  {
    var t := s + {x};
    var y :| y in s && p(y) && at(y) == first;
    var z :| z in s && p(z) && at(z) == last;
    assert x in t && y in t && z in t;
  }

  lemma SpansOne<T(!new)>(s: set<T>, x: T, p: T -> bool, at: T -> int)
    requires p(x) && forall y :: y in s ==> !p(y)
    ensures Spans(s + {x}, p, at, at(x), at(x))
  {
    assert x in s + {x};
  }

  lemma SpansOther<T(!new)>(s: set<T>, x: T, p: T -> bool, at: T -> int, first: int, last: int)
    requires Spans(s, p, at, first, last) && !p(x)
    ensures Spans(s + {x}, p, at, first, last)
  {
    var y :| y in s && p(y) && at(y) == first;
    var z :| z in s && p(z) && at(z) == last;
    assert y in s + {x} && z in s + {x};
  }
}
