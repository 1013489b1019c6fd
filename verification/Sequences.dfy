/** Sequences without repetition, what is collected from a sequence, and sizes of sets. */
module Sequences {

  predicate Distinct<T(==)>(s: seq<T>) {
    forall i, j :: 0 <= i < j < |s| ==> s[i] != s[j]
  }

  /** What f makes of each element, one after the other. */
  function Collect<S, T>(s: seq<S>, f: S -> seq<T>): seq<T> {
    if s == [] then [] else f(s[0]) + Collect(s[1..], f)
  }

  lemma {:induction false} CollectAppends<S, T>(s: seq<S>, t: seq<S>, f: S -> seq<T>)
    ensures Collect(s + t, f) == Collect(s, f) + Collect(t, f)
  {
    if s == [] {
      assert s + t == t;
    } else {
      assert (s + t)[1..] == s[1..] + t;
      CollectAppends(s[1..], t, f);
    }
  }

  lemma {:induction false} CollectNothing<S, T>(s: seq<S>, f: S -> seq<T>)
    requires forall i :: 0 <= i < |s| ==> f(s[i]) == []
    ensures Collect(s, f) == []
  {
    if s != [] {
      CollectNothing(s[1..], f);
    }
  }

  lemma {:induction false} CollectOne<S, T>(x: S, f: S -> seq<T>)
    ensures Collect([x], f) == f(x)
  {
  }

  lemma {:induction false} SubsetSize<T>(a: set<T>, b: set<T>)
    requires a <= b
    ensures |a| <= |b|
  {
    if a != {} {
      var x :| x in a;
      SubsetSize(a - {x}, b - {x});
    }
  }
}
