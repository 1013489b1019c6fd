/** The lineage view: a walk over clones whose parent pointers may be missing, dangling or cyclic. */
module Lineage {
  import opened Wrappers
  import opened Sorting
  import opened Preorder
  import opened Sequences

  type Id = string

  datatype Clone = Clone(id: Id, parentId: Option<Id>, createdAt: real)

  /** Row of the view: the clone's id and how far it is indented. */
  type Row = Node<Id>

  ghost predicate UniqueIds(cs: seq<Clone>) {
    forall i, j :: 0 <= i < j < |cs| ==> cs[i].id != cs[j].id
  }

  /** Some clone has this id. */
  predicate Known(cs: seq<Clone>, id: Id) {
    cs != [] && (cs[0].id == id || Known(cs[1..], id))
  }

  lemma {:induction false} KnownIsSome(cs: seq<Clone>, id: Id) returns (i: nat)
    requires Known(cs, id)
    ensures i < |cs| && cs[i].id == id
  {
    if cs[0].id == id {
      i := 0;
    } else {
      i := KnownIsSome(cs[1..], id);
      i := i + 1;
    }
  }

  lemma {:induction false} SomeIsKnown(cs: seq<Clone>, i: nat)
    requires i < |cs|
    ensures Known(cs, cs[i].id)
  {
    if i > 0 {
      SomeIsKnown(cs[1..], i - 1);
    }
  }

  /** The key a clone is filed under: its parent's id when that clone exists, and none otherwise. */
  function KeyOf(cs: seq<Clone>, c: Clone): Option<Id> {
    if c.parentId.Some? && Known(cs, c.parentId.value) then c.parentId else None
  }

  function FiledUnder(cs: seq<Clone>, key: Option<Id>): Clone -> bool {
    c => KeyOf(cs, c) == key
  }

  function Created(c: Clone): real {
    c.createdAt
  }

  /** The children of a key, oldest first. */
  function Kids(cs: seq<Clone>, key: Option<Id>): seq<Clone> {
    SortBy(Filter(cs, FiledUnder(cs, key)), Created)
  }

  lemma KidsAreFiled(cs: seq<Clone>, key: Option<Id>, c: Clone)
    ensures c in Kids(cs, key) <==> c in cs && KeyOf(cs, c) == key
  {
    SortKeepsMembers(Filter(cs, FiledUnder(cs, key)), Created);
  }

  // ---- paths from a root ----

  function Above(path: seq<Id>): Option<Id> {
    if path == [] then None else Some(path[|path| - 1])
  }

  /** The key of the clone with this id: the parent's id when it has a parent that exists. */
  function ParentOf(cs: seq<Clone>, id: Id): Option<Id> {
    ParentAmong(cs, cs, id)
  }

  function ParentAmong(cs: seq<Clone>, among: seq<Clone>, id: Id): Option<Id> {
    if among == [] then None
    else if among[0].id == id then KeyOf(cs, among[0])
    else ParentAmong(cs, among[1..], id)
  }

  lemma {:induction false} ParentAmongIsKey(cs: seq<Clone>, among: seq<Clone>, i: nat)
    requires UniqueIds(among) && i < |among|
    ensures ParentAmong(cs, among, among[i].id) == KeyOf(cs, among[i])
  {
    if i > 0 {
      ParentAmongIsKey(cs, among[1..], i - 1);
    }
  }

  /** The clone with this id is filed under this key. */
  predicate IsChild(cs: seq<Clone>, key: Option<Id>, id: Id) {
    Known(cs, id) && ParentOf(cs, id) == key
  }

  lemma MemberIsChild(cs: seq<Clone>, c: Clone)
    requires UniqueIds(cs) && c in cs
    ensures IsChild(cs, KeyOf(cs, c), c.id)
  {
    var i :| 0 <= i < |cs| && cs[i] == c;
    ParentAmongIsKey(cs, cs, i);
    SomeIsKnown(cs, i);
  }

  lemma ChildIsMember(cs: seq<Clone>, key: Option<Id>, id: Id) returns (c: Clone)
    requires UniqueIds(cs) && IsChild(cs, key, id)
    ensures c in cs && c.id == id && KeyOf(cs, c) == key
  {
    var i := KnownIsSome(cs, id);
    ParentAmongIsKey(cs, cs, i);
    c := cs[i];
  }

  /** A chain of ids from a root down, each the child of the one before. */
  ghost predicate IsPath(cs: seq<Clone>, path: seq<Id>) {
    path == [] ||
    var front := path[..|path| - 1];
    IsPath(cs, front) && IsChild(cs, Above(front), path[|path| - 1])
  }

  /** There is at most one path to a clone. */
  lemma {:induction false} PathIsUnique(cs: seq<Clone>, p: seq<Id>, q: seq<Id>)
    requires UniqueIds(cs) && IsPath(cs, p) && IsPath(cs, q) && p != [] && q != []
    requires p[|p| - 1] == q[|q| - 1]
    ensures p == q
  {
    var m, n := |p| - 1, |q| - 1;
    if m > 0 && n > 0 {
      PathIsUnique(cs, p[..m], q[..n]);
    }
    assert p == p[..m] + [p[m]] && q == q[..n] + [q[n]];
  }

  lemma {:induction false} PrefixIsPath(cs: seq<Clone>, p: seq<Id>, n: nat)
    requires IsPath(cs, p) && n <= |p|
    ensures IsPath(cs, p[..n])
  {
    if n == |p| {
      assert p[..n] == p;
    } else {
      PrefixIsPath(cs, p[..|p| - 1], n);
      assert p[..|p| - 1][..n] == p[..n];
    }
  }

  lemma PathIsDistinct(cs: seq<Clone>, p: seq<Id>)
    requires UniqueIds(cs) && IsPath(cs, p)
    ensures Distinct(p)
  {
    forall i, j | 0 <= i < j < |p| ensures p[i] != p[j] {
      PrefixIsPath(cs, p, i + 1);
      PrefixIsPath(cs, p, j + 1);
      if p[i] == p[j] {
        PathIsUnique(cs, p[..i + 1], p[..j + 1]);
        assert false;
      }
    }
  }

  function IdSet(cs: seq<Clone>): set<Id> {
    set c | c in cs :: c.id
  }

  lemma {:induction false} IdSetIsSmall(cs: seq<Clone>)
    ensures |IdSet(cs)| <= |cs|
  {
    if cs == [] {
      assert IdSet(cs) == {};
    } else {
      var front, last := cs[..|cs| - 1], cs[|cs| - 1];
      IdSetIsSmall(front);
      assert cs == front + [last];
      assert IdSet(cs) == IdSet(front) + {last.id};
    }
  }

  lemma {:induction false} DistinctFits(s: seq<Id>, S: set<Id>)
    requires Distinct(s) && forall x :: x in s ==> x in S
    ensures |s| <= |S|
  {
    if s != [] {
      var n := |s| - 1;
      assert s[n] in s;
      assert forall x :: x in s[..n] ==> x in s;
      DistinctFits(s[..n], S - {s[n]});
    }
  }

  lemma {:induction false} PathIsKnown(cs: seq<Clone>, p: seq<Id>)
    requires IsPath(cs, p)
    ensures forall x :: x in p ==> x in IdSet(cs)
  {
    if p != [] {
      PathIsKnown(cs, p[..|p| - 1]);
      var i := KnownIsSome(cs, p[|p| - 1]);
      assert cs[i] in cs;
    }
  }

  /** A path visits no more clones than there are. */
  lemma PathIsShort(cs: seq<Clone>, p: seq<Id>)
    requires UniqueIds(cs) && IsPath(cs, p)
    ensures |p| <= |cs|
  {
    PathIsDistinct(cs, p);
    PathIsKnown(cs, p);
    DistinctFits(p, IdSet(cs));
    IdSetIsSmall(cs);
  }

  lemma PathGrows(cs: seq<Clone>, path: seq<Id>, id: Id)
    requires UniqueIds(cs) && IsPath(cs, path) && IsChild(cs, Above(path), id)
    ensures IsPath(cs, path + [id]) && |path| + 1 <= |cs|
  {
    assert (path + [id])[..|path|] == path;
    PathIsShort(cs, path + [id]);
  }

  ghost predicate AllChildren(cs: seq<Clone>, path: seq<Id>, kids: seq<Clone>) {
    forall c :: c in kids ==> IsChild(cs, Above(path), c.id)
  }

  // ---- the walk ----

  /** The rows below the end of a path. It terminates because paths are short. */
  ghost function Walk(cs: seq<Clone>, path: seq<Id>): seq<Row>
    requires UniqueIds(cs) && IsPath(cs, path)
    decreases |cs| - |path|, 1, 0
  {
    PathIsShort(cs, path);
    ChildrenAreChildren(cs, path);
    WalkKids(cs, path, Kids(cs, Above(path)))
  }

  ghost function WalkKids(cs: seq<Clone>, path: seq<Id>, kids: seq<Clone>): seq<Row>
    requires UniqueIds(cs) && IsPath(cs, path) && AllChildren(cs, path, kids)
    decreases |cs| - |path|, 0, |kids|
  {
    if kids == [] then []
    else
      PathGrows(cs, path, kids[0].id);
      WalkKid(cs, path, kids[0]) + WalkKids(cs, path, kids[1..])
  }

  /** One child's row and the rows below it. */
  ghost function WalkKid(cs: seq<Clone>, path: seq<Id>, kid: Clone): seq<Row>
    requires UniqueIds(cs) && IsPath(cs, path) && IsChild(cs, Above(path), kid.id)
    decreases |cs| - |path| - 1, 2, 0
  {
    PathGrows(cs, path, kid.id);
    [Node(kid.id, |path|)] + Walk(cs, path + [kid.id])
  }

  // ---- the view itself ----

  type Filing = map<Option<Id>, seq<Clone>>

  function Under(f: Filing, key: Option<Id>): seq<Clone> {
    if key in f then f[key] else []
  }

  /** Every clone is filed under its key, in the order of the list. */
  ghost predicate Files(byParent: Filing, cs: seq<Clone>) {
    forall key :: Under(byParent, key) == Filter(cs, FiledUnder(cs, key))
  }

  method SortedKids(cs: seq<Clone>, byParent: Filing, parent: Option<Id>) returns (kids: seq<Clone>)
    requires Files(byParent, cs)
    ensures kids == Kids(cs, parent)
  {
    kids := SortBy(Under(byParent, parent), Created);
  }

  method BuildByParent(cs: seq<Clone>) returns (byParent: Filing)
    ensures Files(byParent, cs)
  {
    byParent := map[];
    for i := 0 to |cs|
      invariant forall key :: Under(byParent, key) == Filter(cs[..i], FiledUnder(cs, key))
    {
      var key := KeyOf(cs, cs[i]);
      if key !in byParent {
        byParent := byParent[key := []];
      }
      byParent := byParent[key := byParent[key] + [cs[i]]];
      assert cs[..i + 1][..i] == cs[..i];
    }
    assert cs[..|cs|] == cs;
  }

  /** walk: the children of one key, each with its row and everything below it. */
  method WalkInto(cs: seq<Clone>, byParent: Filing, parent: Option<Id>, depth: nat, rows: seq<Row>, ghost path: seq<Id>)
    returns (out: seq<Row>)
    requires UniqueIds(cs) && IsPath(cs, path) && parent == Above(path) && depth == |path|
    requires Files(byParent, cs)
    ensures out == rows + Walk(cs, path)
    decreases |cs| - |path|, 1
  {
    PathIsShort(cs, path);
    var kids := SortedKids(cs, byParent, parent);
    ChildrenAreChildren(cs, path);
    out := rows;
    for i := 0 to |kids|
      invariant AllChildren(cs, path, kids[i..])
      invariant out + WalkKids(cs, path, kids[i..]) == rows + Walk(cs, path)
    {
      OneKid(cs, path, kids[i..]);
      assert kids[i..][1..] == kids[i + 1..];
      Regroup(out, WalkKid(cs, path, kids[i]), WalkKids(cs, path, kids[i + 1..]));
      out := WalkChild(cs, byParent, kids[i], depth, out, path);
    }
    assert kids[|kids|..] == [];
  }

  lemma OneKid(cs: seq<Clone>, path: seq<Id>, kids: seq<Clone>)
    requires UniqueIds(cs) && IsPath(cs, path) && AllChildren(cs, path, kids) && kids != []
    ensures IsChild(cs, Above(path), kids[0].id) && AllChildren(cs, path, kids[1..]) && |path| < |cs|
    ensures WalkKids(cs, path, kids) == WalkKid(cs, path, kids[0]) + WalkKids(cs, path, kids[1..])
  {
    PathGrows(cs, path, kids[0].id);
  }

  lemma Regroup<T>(a: seq<T>, b: seq<T>, c: seq<T>)
    ensures a + (b + c) == (a + b) + c
  {
  }

  method WalkChild(cs: seq<Clone>, byParent: Filing, kid: Clone, depth: nat, rows: seq<Row>, ghost path: seq<Id>)
    returns (out: seq<Row>)
    requires UniqueIds(cs) && IsPath(cs, path) && IsChild(cs, Above(path), kid.id) && depth == |path| < |cs|
    requires Files(byParent, cs)
    ensures out == rows + WalkKid(cs, path, kid)
    decreases |cs| - |path|, 0
  {
    PathGrows(cs, path, kid.id);
    out := rows + [Node(kid.id, depth)];
    out := WalkInto(cs, byParent, Some(kid.id), depth + 1, out, path + [kid.id]);
  }

  method Render(cs: seq<Clone>) returns (rows: seq<Row>)
    requires UniqueIds(cs)
    ensures rows == Walk(cs, [])
  {
    var byParent := BuildByParent(cs);
    rows := WalkInto(cs, byParent, None, 0, [], []);
  }

  lemma ChildrenAreChildren(cs: seq<Clone>, path: seq<Id>)
    requires UniqueIds(cs)
    ensures AllChildren(cs, path, Kids(cs, Above(path)))
  {
    forall c | c in Kids(cs, Above(path)) ensures IsChild(cs, Above(path), c.id) {
      KidsAreFiled(cs, Above(path), c);
      MemberIsChild(cs, c);
    }
  }
}
