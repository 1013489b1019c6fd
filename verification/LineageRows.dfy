/** What the lineage view shows, for arbitrary parent pointers. */
module LineageRows {
  import opened Wrappers
  import opened Sorting
  import opened Preorder
  import opened Sequences
  import opened Lineage

  // ---- ancestors, without paths ----

  /** The n-th ancestor: the clone itself for n = 0, its parent for n = 1, and so on while parents resolve. */
  function Ancestor(cs: seq<Clone>, id: Id, n: nat): Option<Id>
    decreases n
  {
    if n == 0 then Some(id)
    else
      var p := ParentOf(cs, id);
      if p.None? then None else Ancestor(cs, p.value, n - 1)
  }

  lemma {:induction false} ParentIsKnown(cs: seq<Clone>, among: seq<Clone>, id: Id)
    ensures ParentAmong(cs, among, id).Some? ==> Known(cs, ParentAmong(cs, among, id).value)
  {
    if among != [] && among[0].id != id {
      ParentIsKnown(cs, among[1..], id);
    }
  }

  /** The path to a clone lists its ancestors, the root first. */
  lemma {:induction false} PathListsAncestors(cs: seq<Clone>, p: seq<Id>, k: nat)
    requires UniqueIds(cs) && IsPath(cs, p) && p != [] && k <= |p|
    ensures Ancestor(cs, p[|p| - 1], k) == if k == |p| then None else Some(p[|p| - 1 - k])
  {
    var n := |p| - 1;
    if k > 0 && n > 0 {
      PathListsAncestors(cs, p[..n], k - 1);
    }
  }

  /** A clone whose chain of parents ends after n steps has a path of that length. */
  lemma {:induction false} PathFromAncestors(cs: seq<Clone>, id: Id, n: nat) returns (p: seq<Id>)
    requires UniqueIds(cs) && Known(cs, id) && Ancestor(cs, id, n).Some? && Ancestor(cs, id, n + 1).None?
    ensures IsPath(cs, p) && |p| == n + 1 && p[n] == id
    decreases n
  {
    var parent := ParentOf(cs, id);
    if n == 0 {
      p := [id];
      assert parent.None?;
      assert p[..0] == [] && IsChild(cs, Above([]), id);
    } else {
      ParentIsKnown(cs, cs, id);
      var q := PathFromAncestors(cs, parent.value, n - 1);
      p := q + [id];
      assert p[..|p| - 1] == q;
    }
  }

  // ---- which rows appear ----

  /** q is a path through `path` to the clone of this row, at the row's depth. */
  ghost predicate Reaches(cs: seq<Clone>, path: seq<Id>, r: Row, q: seq<Id>) {
    && IsPath(cs, q) && |path| < |q| && q[..|path|] == path
    && q[|q| - 1] == r.value && |q| == r.depth + 1
  }

  lemma {:induction false} WalkReaches(cs: seq<Clone>, path: seq<Id>, r: Row) returns (q: seq<Id>)
    requires UniqueIds(cs) && IsPath(cs, path) && r in Walk(cs, path)
    ensures Reaches(cs, path, r, q)
    decreases |cs| - |path|, 1, 0
  {
    PathIsShort(cs, path);
    ChildrenAreChildren(cs, path);
    q := WalkKidsReach(cs, path, Kids(cs, Above(path)), r);
  }

  lemma {:induction false} WalkKidsReach(cs: seq<Clone>, path: seq<Id>, kids: seq<Clone>, r: Row) returns (q: seq<Id>)
    requires UniqueIds(cs) && IsPath(cs, path) && AllChildren(cs, path, kids) && r in WalkKids(cs, path, kids)
    ensures Reaches(cs, path, r, q) && exists c :: c in kids && c.id == q[|path|]
    decreases |cs| - |path|, 0, |kids|
  {
    PathGrows(cs, path, kids[0].id);
    if r in WalkKid(cs, path, kids[0]) {
      q := WalkKidReaches(cs, path, kids[0], r);
    } else {
      q := WalkKidsReach(cs, path, kids[1..], r);
    }
  }

  lemma {:induction false} WalkKidReaches(cs: seq<Clone>, path: seq<Id>, kid: Clone, r: Row) returns (q: seq<Id>)
    requires UniqueIds(cs) && IsPath(cs, path) && IsChild(cs, Above(path), kid.id) && r in WalkKid(cs, path, kid)
    ensures Reaches(cs, path, r, q) && q[|path|] == kid.id
    decreases |cs| - |path| - 1, 2, 0
  {
    PathGrows(cs, path, kid.id);
    if r == Node(kid.id, |path|) {
      q := path + [kid.id];
      assert q[..|path|] == path;
    } else {
      q := WalkReaches(cs, path + [kid.id], r);
      assert q[..|path|] == q[..|path| + 1][..|path|];
      assert q[|path|] == q[..|path| + 1][|path|];
    }
  }

  lemma StepOfPath(cs: seq<Clone>, q: seq<Id>, n: nat)
    requires IsPath(cs, q) && n < |q|
    ensures IsPath(cs, q[..n]) && IsChild(cs, Above(q[..n]), q[n])
  {
    PrefixIsPath(cs, q, n + 1);
    assert q[..n + 1][..n] == q[..n];
  }

  lemma NextStep(cs: seq<Clone>, path: seq<Id>, q: seq<Id>) returns (kid: Clone)
    requires UniqueIds(cs) && IsPath(cs, q) && |path| < |q| && q[..|path|] == path
    ensures kid in Kids(cs, Above(path)) && IsChild(cs, Above(path), kid.id) && q[..|path| + 1] == path + [kid.id]
  {
    StepOfPath(cs, q, |path|);
    kid := ChildIsMember(cs, Above(path), q[|path|]);
    KidsAreFiled(cs, Above(path), kid);
  }

  lemma {:induction false} WalkFinds(cs: seq<Clone>, path: seq<Id>, r: Row, q: seq<Id>)
    requires UniqueIds(cs) && IsPath(cs, path) && Reaches(cs, path, r, q)
    ensures r in Walk(cs, path)
    decreases |q| - |path|
  {
    var kid := NextStep(cs, path, q);
    var below := path + [kid.id];
    PathGrows(cs, path, kid.id);
    if |q| == |below| {
      assert q == below && r == Node(kid.id, |path|);
    } else {
      WalkFinds(cs, below, r, q);
    }
    assert r in WalkKid(cs, path, kid);
    ChildrenAreChildren(cs, path);
    WalkKidsContain(cs, path, Kids(cs, Above(path)), kid, r);
  }

  lemma {:induction false} WalkKidsContain(cs: seq<Clone>, path: seq<Id>, kids: seq<Clone>, kid: Clone, r: Row)
    requires UniqueIds(cs) && IsPath(cs, path) && AllChildren(cs, path, kids) && kid in kids
    requires IsChild(cs, Above(path), kid.id) && r in WalkKid(cs, path, kid)
    ensures r in WalkKids(cs, path, kids)
    decreases |kids|
  {
    if kids[0] != kid {
      WalkKidsContain(cs, path, kids[1..], kid, r);
    }
  }

  /** The chain of parents of this clone ends after exactly n steps. */
  predicate RootedAt(cs: seq<Clone>, id: Id, n: nat) {
    Known(cs, id) && Ancestor(cs, id, n).Some? && Ancestor(cs, id, n + 1).None?
  }

  lemma RowsAreRooted(cs: seq<Clone>, id: Id, depth: nat)
    requires UniqueIds(cs) && Node(id, depth) in Walk(cs, [])
    ensures RootedAt(cs, id, depth)
  {
    var q := WalkReaches(cs, [], Node(id, depth));
    PathListsAncestors(cs, q, depth);
    PathListsAncestors(cs, q, depth + 1);
  }

  lemma RootedHaveRows(cs: seq<Clone>, id: Id, depth: nat)
    requires UniqueIds(cs) && RootedAt(cs, id, depth)
    ensures Node(id, depth) in Walk(cs, [])
  {
    var q := PathFromAncestors(cs, id, depth);
    assert q[..0] == [];
    WalkFinds(cs, [], Node(id, depth), q);
  }

  /**
   * A row appears exactly for a clone whose chain of parents reaches a root, at the depth of its number of ancestors.
   */
  lemma RowsAreRootedClones(cs: seq<Clone>, id: Id, depth: nat)
    requires UniqueIds(cs)
    ensures Node(id, depth) in Walk(cs, []) <==> RootedAt(cs, id, depth)
  {
    if Node(id, depth) in Walk(cs, []) {
      RowsAreRooted(cs, id, depth);
    }
    if RootedAt(cs, id, depth) {
      RootedHaveRows(cs, id, depth);
    }
  }

  // ---- each once ----

  ghost predicate NoRepeats(t: seq<Row>) {
    forall i, j :: 0 <= i < j < |t| ==> t[i].value != t[j].value
  }

  lemma NoRepeatsJoin(t: seq<Row>, u: seq<Row>)
    requires NoRepeats(t) && NoRepeats(u)
    requires forall a, b :: a in t && b in u ==> a.value != b.value
    ensures NoRepeats(t + u)
  {
    forall i, j | 0 <= i < j < |t + u| ensures (t + u)[i].value != (t + u)[j].value {
      if i < |t| <= j {
        assert t[i] in t && u[j - |t|] in u;
      }
    }
  }

  /** Two rows reached through different paths of the same length are rows of different clones. */
  lemma ReachedApart(cs: seq<Clone>, path: seq<Id>, a: Row, p: seq<Id>, b: Row, q: seq<Id>)
    requires UniqueIds(cs) && Reaches(cs, path, a, p) && Reaches(cs, path, b, q)
    requires p != q
    ensures a.value != b.value
  {
    if a.value == b.value {
      PathIsUnique(cs, p, q);
    }
  }

  lemma {:induction false} WalkHasNoRepeats(cs: seq<Clone>, path: seq<Id>)
    requires UniqueIds(cs) && IsPath(cs, path)
    ensures NoRepeats(Walk(cs, path))
    decreases |cs| - |path|, 1, 0
  {
    PathIsShort(cs, path);
    ChildrenAreChildren(cs, path);
    KidsAreUnique(cs, Above(path));
    WalkKidsHaveNoRepeats(cs, path, Kids(cs, Above(path)));
  }

  lemma {:induction false} WalkKidsHaveNoRepeats(cs: seq<Clone>, path: seq<Id>, kids: seq<Clone>)
    requires UniqueIds(cs) && IsPath(cs, path) && AllChildren(cs, path, kids) && UniqueIds(kids)
    ensures NoRepeats(WalkKids(cs, path, kids))
    decreases |cs| - |path|, 0, |kids|
  {
    if kids != [] {
      var kid, rest := kids[0], kids[1..];
      PathGrows(cs, path, kid.id);
      WalkKidHasNoRepeats(cs, path, kid);
      WalkKidsHaveNoRepeats(cs, path, rest);
      forall a, b | a in WalkKid(cs, path, kid) && b in WalkKids(cs, path, rest) ensures a.value != b.value {
        var p := WalkKidReaches(cs, path, kid, a);
        var q := WalkKidsReach(cs, path, rest, b);
        assert p[|path|] != q[|path|];
        ReachedApart(cs, path, a, p, b, q);
      }
      NoRepeatsJoin(WalkKid(cs, path, kid), WalkKids(cs, path, rest));
    }
  }

  lemma {:induction false} WalkKidHasNoRepeats(cs: seq<Clone>, path: seq<Id>, kid: Clone)
    requires UniqueIds(cs) && IsPath(cs, path) && IsChild(cs, Above(path), kid.id)
    ensures NoRepeats(WalkKid(cs, path, kid))
    decreases |cs| - |path| - 1, 2, 0
  {
    PathGrows(cs, path, kid.id);
    var mine, below := Node(kid.id, |path|), path + [kid.id];
    WalkHasNoRepeats(cs, below);
    assert below[..|path|] == path;
    forall b | b in Walk(cs, below) ensures b.value != kid.id {
      var q := WalkReaches(cs, below, b);
      assert q[..|path|] == q[..|below|][..|path|];
      ReachedApart(cs, path, mine, below, b, q);
    }
    NoRepeatsJoin([mine], Walk(cs, below));
  }

  lemma KidsAreUnique(cs: seq<Clone>, key: Option<Id>)
    requires UniqueIds(cs)
    ensures UniqueIds(Kids(cs, key))
  {
    var idOf := (c: Clone) => c.id;
    FilterKeepsUnique(cs, FiledUnder(cs, key), idOf);
    SortKeepsUnique(Filter(cs, FiledUnder(cs, key)), Created, idOf);
    assert UniqueBy(Kids(cs, key), idOf);
  }

  /** No clone has two rows. */
  lemma EachCloneOnce(cs: seq<Clone>)
    requires UniqueIds(cs)
    ensures NoRepeats(Walk(cs, []))
  {
    WalkHasNoRepeats(cs, []);
  }

  // ---- preorder ----

  ghost function ParentIn(cs: seq<Clone>): Relation<Id> {
    (a, b) => IsChild(cs, Some(a), b)
  }

  ghost function ChildOf(cs: seq<Clone>, key: Option<Id>): Id -> bool {
    b => IsChild(cs, key, b)
  }

  lemma {:induction false} WalkIsNested(cs: seq<Clone>, path: seq<Id>)
    requires UniqueIds(cs) && IsPath(cs, path)
    ensures Nested(ParentIn(cs), Walk(cs, path), ChildOf(cs, Above(path)), |path|)
    decreases |cs| - |path|, 1, 0
  {
    PathIsShort(cs, path);
    ChildrenAreChildren(cs, path);
    WalkKidsAreNested(cs, path, Kids(cs, Above(path)));
  }

  lemma {:induction false} WalkKidsAreNested(cs: seq<Clone>, path: seq<Id>, kids: seq<Clone>)
    requires UniqueIds(cs) && IsPath(cs, path) && AllChildren(cs, path, kids)
    ensures Nested(ParentIn(cs), WalkKids(cs, path, kids), ChildOf(cs, Above(path)), |path|)
    decreases |cs| - |path|, 0, |kids|
  {
    if kids != [] {
      PathGrows(cs, path, kids[0].id);
      var below := path + [kids[0].id];
      WalkIsNested(cs, below);
      var here := ChildOf(cs, Above(path));
      NestedUnderRoot(ParentIn(cs), kids[0].id, Walk(cs, below), ChildOf(cs, Above(below)), here, |path|);
      WalkKidsAreNested(cs, path, kids[1..]);
      NestedAppends(ParentIn(cs), WalkKid(cs, path, kids[0]), WalkKids(cs, path, kids[1..]), here, |path|);
    }
  }

  /** The rows are in preorder: the row of a clone's parent is the nearest row above that is indented one step less. */
  lemma RowsAreInPreorder(cs: seq<Clone>, j: nat)
    requires UniqueIds(cs) && j < |Walk(cs, [])|
    ensures var t := Walk(cs, []);
      (t[j].depth == 0 && IsChild(cs, None, t[j].value)) || HasParent(ParentIn(cs), t, j)
  {
    WalkIsNested(cs, []);
    assert NestedAt(ParentIn(cs), Walk(cs, []), ChildOf(cs, None), 0, j);
  }

  // ---- siblings ----

  function IdAt(depth: nat): Row -> seq<Id> {
    (r: Row) => if r.depth == depth then [r.value] else []
  }

  /** The clones with a row at this depth, in order. */
  function AtDepth(t: seq<Row>, depth: nat): seq<Id> {
    Collect(t, IdAt(depth))
  }

  function IdsOf(cs: seq<Clone>): seq<Id> {
    if cs == [] then [] else [cs[0].id] + IdsOf(cs[1..])
  }

  lemma OneRowAtItsDepth(cs: seq<Clone>, path: seq<Id>, kid: Clone)
    requires UniqueIds(cs) && IsPath(cs, path) && IsChild(cs, Above(path), kid.id)
    ensures AtDepth(WalkKid(cs, path, kid), |path|) == [kid.id]
  {
    PathGrows(cs, path, kid.id);
    var below := path + [kid.id];
    WalkIsNested(cs, below);
    CollectNothing(Walk(cs, below), IdAt(|path|));
    CollectAppends([Node(kid.id, |path|)], Walk(cs, below), IdAt(|path|));
    CollectOne(Node(kid.id, |path|), IdAt(|path|));
  }

  lemma {:induction false} KidsInOrder(cs: seq<Clone>, path: seq<Id>, kids: seq<Clone>)
    requires UniqueIds(cs) && IsPath(cs, path) && AllChildren(cs, path, kids)
    ensures AtDepth(WalkKids(cs, path, kids), |path|) == IdsOf(kids)
    decreases |kids|
  {
    if kids != [] {
      OneKid(cs, path, kids);
      OneRowAtItsDepth(cs, path, kids[0]);
      CollectAppends(WalkKid(cs, path, kids[0]), WalkKids(cs, path, kids[1..]), IdAt(|path|));
      KidsInOrder(cs, path, kids[1..]);
    }
  }

  /** Below any clone (or at the top) the direct children are listed oldest first, none missing. */
  lemma SiblingsAreOldestFirst(cs: seq<Clone>, path: seq<Id>)
    requires UniqueIds(cs) && IsPath(cs, path)
    ensures AtDepth(Walk(cs, path), |path|) == IdsOf(Kids(cs, Above(path)))
    ensures Sorted(Kids(cs, Above(path)), Created)
    ensures forall c :: c in Kids(cs, Above(path)) <==> c in cs && KeyOf(cs, c) == Above(path)
  {
    ChildrenAreChildren(cs, path);
    KidsInOrder(cs, path, Kids(cs, Above(path)));
    SortSorts(Filter(cs, FiledUnder(cs, Above(path))), Created);
    forall c {
      KidsAreFiled(cs, Above(path), c);
    }
  }

  // ---- completeness and cycles ----

  /** Some clone is its own n-th ancestor. */
  ghost predicate Cyclic(cs: seq<Clone>) {
    exists id, n: nat :: n > 0 && Known(cs, id) && Ancestor(cs, id, n) == Some(id)
  }

  ghost predicate HasRow(cs: seq<Clone>, id: Id)
    requires UniqueIds(cs)
  {
    exists d: nat :: Node(id, d) in Walk(cs, [])
  }

  ghost predicate ShowsAll(cs: seq<Clone>)
    requires UniqueIds(cs)
  {
    forall id :: Known(cs, id) ==> HasRow(cs, id)
  }

  lemma {:induction false} AncestorsAdd(cs: seq<Clone>, id: Id, m: nat, n: nat)
    ensures Ancestor(cs, id, m + n) ==
              var a := Ancestor(cs, id, m); if a.None? then None else Ancestor(cs, a.value, n)
    decreases m
  {
    if m > 0 && ParentOf(cs, id).Some? {
      AncestorsAdd(cs, ParentOf(cs, id).value, m - 1, n);
    }
  }

  lemma {:induction false} AncestorIsKnown(cs: seq<Clone>, id: Id, n: nat)
    requires Known(cs, id)
    ensures Ancestor(cs, id, n).Some? ==> Known(cs, Ancestor(cs, id, n).value)
    decreases n
  {
    if n > 0 && ParentOf(cs, id).Some? {
      ParentIsKnown(cs, cs, id);
      AncestorIsKnown(cs, ParentOf(cs, id).value, n - 1);
    }
  }

  /** Going round a cycle never ends. */
  lemma {:induction false} CycleGoesOn(cs: seq<Clone>, id: Id, n: nat, k: nat)
    requires n > 0 && Ancestor(cs, id, n) == Some(id)
    ensures Ancestor(cs, id, k).Some?
    decreases k
  {
    if k > n {
      AncestorsAdd(cs, id, n, k - n);
      CycleGoesOn(cs, id, n, k - n);
    } else {
      AncestorsAdd(cs, id, k, n - k);
    }
  }

  /** Without cycles, a chain of parents ends before it has more steps than there are clones. */
  lemma ChainEnds(cs: seq<Clone>, id: Id)
    requires UniqueIds(cs) && Known(cs, id) && !Cyclic(cs)
    ensures Ancestor(cs, id, |cs|).None?
  {
    if Ancestor(cs, id, |cs|).Some? {
      forall k | 0 <= k <= |cs| ensures Ancestor(cs, id, k).Some? {
        AncestorsAdd(cs, id, k, |cs| - k);
      }
      var chain := seq(|cs| + 1, k requires 0 <= k <= |cs| => Ancestor(cs, id, k).value);
      forall x | x in chain ensures x in IdSet(cs) {
        var k :| 0 <= k < |chain| && chain[k] == x;
        AncestorIsKnown(cs, id, k);
        var i := KnownIsSome(cs, x);
        assert cs[i] in cs;
      }
      forall i, j | 0 <= i < j < |chain| ensures chain[i] != chain[j] {
        AncestorsAdd(cs, id, i, j - i);
        AncestorIsKnown(cs, id, i);
      }
      DistinctFits(chain, IdSet(cs));
      IdSetIsSmall(cs);
      assert false;
    }
  }

  lemma {:induction false} LastAncestor(cs: seq<Clone>, id: Id, n: nat) returns (d: nat)
    requires Ancestor(cs, id, n).None?
    ensures Ancestor(cs, id, d).Some? && Ancestor(cs, id, d + 1).None?
    decreases n
  {
    if Ancestor(cs, id, n - 1).Some? {
      d := n - 1;
    } else {
      d := LastAncestor(cs, id, n - 1);
    }
  }

  lemma CyclesAreNotShown(cs: seq<Clone>)
    requires UniqueIds(cs) && Cyclic(cs)
    ensures !ShowsAll(cs)
  {
    var id, n: nat :| n > 0 && Known(cs, id) && Ancestor(cs, id, n) == Some(id);
    if HasRow(cs, id) {
      var d: nat :| Node(id, d) in Walk(cs, []);
      RowsAreRooted(cs, id, d);
      CycleGoesOn(cs, id, n, d + 1);
    }
  }

  /** Every clone has a row exactly when no clone is its own ancestor. */
  lemma AllShownExactlyWithoutCycles(cs: seq<Clone>)
    requires UniqueIds(cs)
    ensures ShowsAll(cs) <==> !Cyclic(cs)
  {
    if Cyclic(cs) {
      CyclesAreNotShown(cs);
    } else {
      forall id | Known(cs, id) ensures HasRow(cs, id) {
        ChainEnds(cs, id);
        var d := LastAncestor(cs, id, |cs|);
        RootedHaveRows(cs, id, d);
      }
    }
  }
}
