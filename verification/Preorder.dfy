/** Sequences that list a forest in preorder, each node with its depth. */
module Preorder {

  datatype Node<T> = Node(value: T, depth: nat)

  function Values<T>(t: seq<Node<T>>): seq<T> {
    seq(|t|, i requires 0 <= i < |t| => t[i].value)
  }

  type Relation<!T> = (T, T) -> bool

  /** t[i] is the nearest node before t[j] that lies a level higher, and it is related to t[j]. */
  ghost predicate IsParent<T>(rel: Relation<T>, t: seq<Node<T>>, i: nat, j: nat)
    requires j < |t|
  {
    && i < j && t[i].depth + 1 == t[j].depth && rel(t[i].value, t[j].value)
    && forall k :: i < k < j ==> t[j].depth <= t[k].depth
  }

  ghost predicate HasParent<T>(rel: Relation<T>, t: seq<Node<T>>, j: nat)
    requires j < |t|
  {
    exists i: nat :: IsParent(rel, t, i, j)
  }

  /** The node at j has its parent in t, or lies at the top level and may stand there. */
  ghost predicate NestedAt<T>(rel: Relation<T>, t: seq<Node<T>>, top: T -> bool, depth: nat, j: nat)
    requires j < |t|
  {
    HasParent(rel, t, j) || (t[j].depth == depth && top(t[j].value))
  }

  /** Nothing lies above the given depth, and every node is nested in t or stands at the top. */
  ghost predicate Nested<T>(rel: Relation<T>, t: seq<Node<T>>, top: T -> bool, depth: nat) {
    forall j :: 0 <= j < |t| ==> depth <= t[j].depth && NestedAt(rel, t, top, depth, j)
  }

  lemma ParentInFront<T>(rel: Relation<T>, t: seq<Node<T>>, u: seq<Node<T>>, j: nat)
    requires j < |t| && HasParent(rel, t, j)
    ensures HasParent(rel, t + u, j)
  {
    var i: nat :| IsParent(rel, t, i, j);
    assert IsParent(rel, t + u, i, j);
  }

  lemma ParentBehind<T>(rel: Relation<T>, t: seq<Node<T>>, u: seq<Node<T>>, j: nat)
    requires j < |u| && HasParent(rel, u, j)
    ensures HasParent(rel, t + u, |t| + j)
  {
    var i: nat :| IsParent(rel, u, i, j);
    var w := t + u;
    assert w[|t| + i] == u[i] && w[|t| + j] == u[j];
    forall k | |t| + i < k < |t| + j ensures w[|t| + j].depth <= w[k].depth {
      assert w[k] == u[k - |t|];
    }
    assert IsParent(rel, w, |t| + i, |t| + j);
  }

  lemma NestedAppends<T>(rel: Relation<T>, t: seq<Node<T>>, u: seq<Node<T>>, top: T -> bool, depth: nat)
    requires Nested(rel, t, top, depth) && Nested(rel, u, top, depth)
    ensures Nested(rel, t + u, top, depth)
  {
    forall j | 0 <= j < |t + u| ensures depth <= (t + u)[j].depth && NestedAt(rel, t + u, top, depth, j) {
      if j < |t| {
        assert NestedAt(rel, t, top, depth, j);
        if HasParent(rel, t, j) { ParentInFront(rel, t, u, j); }
      } else {
        assert NestedAt(rel, u, top, depth, j - |t|);
        if HasParent(rel, u, j - |t|) { ParentBehind(rel, t, u, j - |t|); }
      }
    }
  }

  lemma ParentUnderRoot<T(!new)>(rel: Relation<T>, x: T, rest: seq<Node<T>>, below: T -> bool, depth: nat, j: nat)
    requires Nested(rel, rest, below, depth + 1) && forall y :: below(y) ==> rel(x, y)
    requires j < |rest|
    ensures HasParent(rel, [Node(x, depth)] + rest, 1 + j)
  {
    var t := [Node(x, depth)] + rest;
    assert NestedAt(rel, rest, below, depth + 1, j);
    if HasParent(rel, rest, j) {
      ParentBehind(rel, [Node(x, depth)], rest, j);
    } else {
      assert t[1 + j] == rest[j];
      forall k | 0 < k < 1 + j ensures t[1 + j].depth <= t[k].depth {
        assert t[k] == rest[k - 1];
      }
      assert IsParent(rel, t, 0, 1 + j);
    }
  }

  /** A node in front of the nodes below it. */
  lemma NestedUnderRoot<T(!new)>(
      rel: Relation<T>, x: T, rest: seq<Node<T>>, below: T -> bool, top: T -> bool, depth: nat)
    requires Nested(rel, rest, below, depth + 1) && forall y :: below(y) ==> rel(x, y)
    ensures var t := [Node(x, depth)] + rest;
      && (forall j :: 0 < j < |t| ==> HasParent(rel, t, j))
      && (top(x) ==> Nested(rel, t, top, depth))
  {
    var t := [Node(x, depth)] + rest;
    forall j | 0 < j < |t| ensures HasParent(rel, t, j) && depth <= t[j].depth {
      ParentUnderRoot(rel, x, rest, below, depth, j - 1);
      assert t[j] == rest[j - 1];
    }
  }
}
