/** Version comparison of the extension manager (`cmpVersion`): three numbers, left to right. */
module Versions {

  /** The numbers between the dots; a missing or non-numeric part reads as 0. */
  type Version = seq<int>

  function Part(v: Version, i: nat): int {
    if i < |v| then v[i] else 0
  }

  /** a comes strictly before b: they agree up to some part i, where a is smaller. */
  ghost predicate Precedes(a: Version, b: Version) {
    exists i :: 0 <= i < 3 && Part(a, i) < Part(b, i) && AgreeBelow(a, b, i)
  }

  ghost predicate AgreeBelow(a: Version, b: Version, n: nat) {
    forall j :: 0 <= j < n ==> Part(a, j) == Part(b, j)
  }

  function Compare(a: Version, b: Version): (c: int)
    ensures c < 0 <==> Precedes(a, b)
    ensures c > 0 <==> Precedes(b, a)
    ensures c == 0 <==> AgreeBelow(a, b, 3)
  {
    if Part(a, 0) != Part(b, 0) then
      assert AgreeBelow(a, b, 0) && AgreeBelow(b, a, 0);
      Part(a, 0) - Part(b, 0)
    else if Part(a, 1) != Part(b, 1) then
      assert AgreeBelow(a, b, 1) && AgreeBelow(b, a, 1);
      Part(a, 1) - Part(b, 1)
    else
      assert AgreeBelow(a, b, 2) && AgreeBelow(b, a, 2);
      Part(a, 2) - Part(b, 2)
  }

  method CmpVersion(a: Version, b: Version) returns (c: int)
    ensures c == Compare(a, b)
  {
    for i := 0 to 3
      invariant AgreeBelow(a, b, i)
    {
      if Part(a, i) != Part(b, i) {
        return Part(a, i) - Part(b, i);
      }
    }
    return 0;
  }

  /** cmpVersion is a total preorder whose ties are exactly the versions with equal three numbers. */
  lemma CompareIsTotalPreorder(a: Version, b: Version, c: Version)
    ensures Compare(a, a) == 0
    ensures Compare(a, b) < 0 <==> Compare(b, a) > 0
    ensures Compare(a, b) <= 0 && Compare(b, c) <= 0 ==> Compare(a, c) <= 0
    ensures Compare(a, b) <= 0 && Compare(b, c) <= 0 && Compare(a, c) == 0 ==>
      AgreeBelow(a, b, 3) && AgreeBelow(b, c, 3)
  {
  }
}
