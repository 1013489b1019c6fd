/** The bounded lists of the browser app: push at the end, shift the front once past the cap. */
module Rings {

  /** The last n elements of s, or all of s when it is shorter. */
  function Last<T>(n: nat, s: seq<T>): (r: seq<T>)
    ensures |r| == if |s| <= n then |s| else n
  {
    if |s| <= n then s else s[|s| - n..]
  }

  /** One `push` followed by `if (length > n) shift()`. */
  function Push<T>(n: nat, s: seq<T>, x: T): seq<T> {
    var t := s + [x];
    if |t| > n then t[1..] else t
  }

  function PushAll<T>(n: nat, s: seq<T>, xs: seq<T>): seq<T> {
    if xs == [] then s else Push(n, PushAll(n, s, xs[..|xs| - 1]), xs[|xs| - 1])
  }

  /** A ring that starts within its cap holds exactly the last n things ever pushed. */
  lemma {:induction false} RingHoldsLast<T>(n: nat, s: seq<T>, xs: seq<T>)
    requires |s| <= n
    ensures PushAll(n, s, xs) == Last(n, s + xs)
  {
    if xs == [] {
      assert s + xs == s;
    } else {
      var front, x := xs[..|xs| - 1], xs[|xs| - 1];
      RingHoldsLast(n, s, front);
      assert s + xs == (s + front) + [x];
    }
  }

  lemma LastThenMore<T>(n: nat, s: seq<T>, t: seq<T>)
    ensures Last(n, Last(n, s) + t) == Last(n, s + t)
  {
  }
}
