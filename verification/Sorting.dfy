/** The stable sort and the filter of the source's list pipelines. */
module Sorting {

  function Filter<T(!new)>(xs: seq<T>, p: T -> bool): (r: seq<T>)
    ensures forall x :: x in r <==> x in xs && p(x)
  {
    if xs == [] then []
    else
      var last := xs[|xs| - 1];
      var front := Filter(xs[..|xs| - 1], p);
      assert forall x :: x in xs <==> x in xs[..|xs| - 1] || x == last;
      if p(last) then front + [last] else front
  }

  ghost predicate Sorted<T(!new)>(xs: seq<T>, key: T -> real) {
    forall i, j :: 0 <= i < j < |xs| ==> key(xs[i]) <= key(xs[j])
  }

  /** Puts x behind every element whose key is not larger. */
  function Insert<T(!new)>(xs: seq<T>, x: T, key: T -> real): (r: seq<T>)
    ensures multiset(r) == multiset(xs) + multiset{x}
    ensures |r| == |xs| + 1
  {
    if xs == [] then [x]
    else
      var last := xs[|xs| - 1];
      assert xs == xs[..|xs| - 1] + [last];
      if key(last) <= key(x) then xs + [x] else Insert(xs[..|xs| - 1], x, key) + [last]
  }

  /** Array.prototype.sort with `a.key - b.key`: ascending, and stable. */
  function SortBy<T(!new)>(xs: seq<T>, key: T -> real): (r: seq<T>)
    ensures multiset(r) == multiset(xs)
    ensures |r| == |xs|
  {
    if xs == [] then []
    else
      assert xs == xs[..|xs| - 1] + [xs[|xs| - 1]];
      Insert(SortBy(xs[..|xs| - 1], key), xs[|xs| - 1], key)
  }

  lemma {:induction false} InsertKeepsSorted<T(!new)>(xs: seq<T>, x: T, key: T -> real)
    requires Sorted(xs, key)
    ensures Sorted(Insert(xs, x, key), key)
  {
    if xs != [] {
      var front, last := xs[..|xs| - 1], xs[|xs| - 1];
      if key(x) < key(last) {
        InsertKeepsSorted(front, x, key);
        var r := Insert(front, x, key);
        forall y | y in r ensures key(y) <= key(last) {
          assert y in multiset(r);
          assert y in front || y == x;
        }
      }
    }
  }

  lemma {:induction false} SortSorts<T(!new)>(xs: seq<T>, key: T -> real)
    ensures Sorted(SortBy(xs, key), key)
  {
    if xs != [] {
      SortSorts(xs[..|xs| - 1], key);
      InsertKeepsSorted(SortBy(xs[..|xs| - 1], key), xs[|xs| - 1], key);
    }
  }

  lemma SortKeepsMembers<T(!new)>(xs: seq<T>, key: T -> real)
    ensures forall x :: x in SortBy(xs, key) <==> x in xs
  {
    assert forall x :: x in SortBy(xs, key) <==> x in multiset(SortBy(xs, key));
  }

  lemma FilterOfLast<T(!new)>(xs: seq<T>, x: T, p: T -> bool)
    ensures Filter(xs + [x], p) == Filter(xs, p) + (if p(x) then [x] else [])
  {
    assert (xs + [x])[..|xs|] == xs;
  }

  lemma {:induction false} FilterAppends<T(!new)>(a: seq<T>, b: seq<T>, p: T -> bool)
    ensures Filter(a + b, p) == Filter(a, p) + Filter(b, p)
  {
    if b == [] {
      assert a + b == a;
    } else {
      var front, last := b[..|b| - 1], b[|b| - 1];
      assert a + b == (a + front) + [last];
      FilterAppends(a, front, p);
      FilterOfLast(a + front, last, p);
    }
  }

  lemma {:induction false} FilterTwice<T(!new)>(xs: seq<T>, p: T -> bool, q: T -> bool, r: T -> bool)
    requires forall x :: x in xs ==> r(x) == (p(x) && q(x))
    ensures Filter(Filter(xs, p), q) == Filter(xs, r)
  {
    if xs != [] {
      var front, last := xs[..|xs| - 1], xs[|xs| - 1];
      assert last in xs;
      FilterTwice(front, p, q, r);
      FilterOfLast(Filter(front, p), last, q);
    }
  }

  lemma {:induction false} FilterAgrees<T(!new)>(xs: seq<T>, p: T -> bool, q: T -> bool)
    requires forall x :: x in xs ==> p(x) == q(x)
    ensures Filter(xs, p) == Filter(xs, q)
  {
    if xs != [] {
      assert xs[|xs| - 1] in xs;
      FilterAgrees(xs[..|xs| - 1], p, q);
    }
  }

  lemma {:induction false} FilterAll<T(!new)>(xs: seq<T>, p: T -> bool)
    requires forall x :: x in xs ==> p(x)
    ensures Filter(xs, p) == xs
  {
    if xs != [] {
      assert xs[|xs| - 1] in xs;
      FilterAll(xs[..|xs| - 1], p);
    }
  }

  lemma {:induction false} FilterNone<T(!new)>(xs: seq<T>, p: T -> bool)
    requires forall x :: x in xs ==> !p(x)
    ensures Filter(xs, p) == []
  {
    if xs != [] {
      assert xs[|xs| - 1] in xs;
      FilterNone(xs[..|xs| - 1], p);
    }
  }

  function WithKey<T(!new)>(key: T -> real, v: real): T -> bool {
    x => key(x) == v
  }

  lemma {:induction false} InsertGoesLast<T(!new)>(xs: seq<T>, x: T, key: T -> real, v: real)
    ensures Filter(Insert(xs, x, key), WithKey(key, v))
         == Filter(xs, WithKey(key, v)) + (if key(x) == v then [x] else [])
  {
    if xs == [] || key(xs[|xs| - 1]) <= key(x) {
      FilterOfLast(xs, x, WithKey(key, v));
    } else {
      var front, last := xs[..|xs| - 1], xs[|xs| - 1];
      InsertGoesLast(front, x, key, v);
      FilterOfLast(Insert(front, x, key), last, WithKey(key, v));
    }
  }

  /** Elements with equal keys keep their order. */
  lemma {:induction false} SortIsStable<T(!new)>(xs: seq<T>, key: T -> real, v: real)
    ensures Filter(SortBy(xs, key), WithKey(key, v)) == Filter(xs, WithKey(key, v))
  {
    if xs != [] {
      var front, last := xs[..|xs| - 1], xs[|xs| - 1];
      SortIsStable(front, key, v);
      InsertGoesLast(SortBy(front, key), last, key, v);
    }
  }

  lemma {:induction false} InsertDrops<T(!new)>(xs: seq<T>, x: T, key: T -> real, p: T -> bool)
    requires Sorted(xs, key)
    ensures Filter(Insert(xs, x, key), p) == if p(x) then Insert(Filter(xs, p), x, key) else Filter(xs, p)
  {
    if xs != [] {
      var front, last := xs[..|xs| - 1], xs[|xs| - 1];
      if key(last) <= key(x) {
        FilterOfLast(xs, x, p);
        if p(x) { InsertAtEnd(Filter(xs, p), x, key, xs); }
      } else {
        InsertDrops(front, x, key, p);
        FilterOfLast(Insert(front, x, key), last, p);
      }
    }
  }

  lemma InsertAtEnd<T(!new)>(ys: seq<T>, x: T, key: T -> real, xs: seq<T>)
    requires xs != [] && Sorted(xs, key) && key(xs[|xs| - 1]) <= key(x)
    requires forall y :: y in ys ==> y in xs
    ensures Insert(ys, x, key) == ys + [x]
  {
    if ys != [] {
      var last := ys[|ys| - 1];
      assert last in ys;
      var i :| 0 <= i < |xs| && xs[i] == last;
      assert key(xs[i]) <= key(xs[|xs| - 1]);
    }
  }

  /** Sorting what is left of a list leaves the rest of the sorted list. */
  lemma {:induction false} SortCommutesWithFilter<T(!new)>(xs: seq<T>, key: T -> real, p: T -> bool)
    ensures SortBy(Filter(xs, p), key) == Filter(SortBy(xs, key), p)
  {
    if xs != [] {
      var front, last := xs[..|xs| - 1], xs[|xs| - 1];
      SortCommutesWithFilter(front, key, p);
      SortSorts(front, key);
      InsertDrops(SortBy(front, key), last, key, p);
      if p(last) {
        assert Filter(xs, p)[..|Filter(front, p)|] == Filter(front, p);
      }
    }
  }

  // ---- identities survive filtering and sorting ----

  ghost predicate UniqueBy<T>(xs: seq<T>, idOf: T -> string) {
    forall i, j :: 0 <= i < j < |xs| ==> idOf(xs[i]) != idOf(xs[j])
  }

  lemma {:induction false} FilterKeepsUnique<T(!new)>(xs: seq<T>, p: T -> bool, idOf: T -> string)
    requires UniqueBy(xs, idOf)
    ensures UniqueBy(Filter(xs, p), idOf)
  {
    if xs != [] {
      var front, last := xs[..|xs| - 1], xs[|xs| - 1];
      FilterKeepsUnique(front, p, idOf);
      forall x | x in Filter(front, p) ensures idOf(x) != idOf(last) {
        assert x in front;
      }
    }
  }

  lemma InsertKeepsMembers<T(!new)>(xs: seq<T>, x: T, key: T -> real)
    ensures forall y :: y in Insert(xs, x, key) ==> y in xs || y == x
  {
    forall y | y in Insert(xs, x, key) ensures y in xs || y == x {
      assert y in multiset(Insert(xs, x, key));
    }
  }

  lemma {:induction false} InsertKeepsUnique<T(!new)>(xs: seq<T>, x: T, key: T -> real, idOf: T -> string)
    requires UniqueBy(xs, idOf) && forall y :: y in xs ==> idOf(y) != idOf(x)
    ensures UniqueBy(Insert(xs, x, key), idOf)
  {
    if xs != [] && key(x) < key(xs[|xs| - 1]) {
      var front, last := xs[..|xs| - 1], xs[|xs| - 1];
      InsertKeepsUnique(front, x, key, idOf);
      InsertKeepsMembers(front, x, key);
      assert last in xs && forall y :: y in front ==> y in xs && idOf(y) != idOf(last);
    }
  }

  lemma {:induction false} SortKeepsUnique<T(!new)>(xs: seq<T>, key: T -> real, idOf: T -> string)
    requires UniqueBy(xs, idOf)
    ensures UniqueBy(SortBy(xs, key), idOf)
  {
    if xs != [] {
      var front, last := xs[..|xs| - 1], xs[|xs| - 1];
      SortKeepsUnique(front, key, idOf);
      SortKeepsMembers(front, key);
      forall x | x in SortBy(front, key) ensures idOf(x) != idOf(last) {
        assert x in front;
      }
      InsertKeepsUnique(SortBy(front, key), last, key, idOf);
    }
  }
}
