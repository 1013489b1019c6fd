/** Which documents get linked, what a deletion undoes, and which documents the vault keeps. */
module KnowledgeEdits {
  import opened Wrappers
  import opened Rings
  import opened Sorting
  import opened Knowledge
  import opened KnowledgeRuns

  // ---- which documents are alike ----

  /** The word occurs in the title, the tags or the opening of both. */
  predicate Shared(a: Doc, b: Doc, w: string) {
    && (w in a.title || w in a.tagWords || w in a.body.opening)
    && (w in b.title || w in b.tagWords || w in b.body.opening)
  }

  /** Two shared words within one category, three across categories. */
  ghost predicate Alike(a: Doc, b: Doc) {
    if a.category == b.category then exists v, w :: v != w && Shared(a, b, v) && Shared(a, b, w)
    else exists u, v, w :: u != v && v != w && u != w && Shared(a, b, u) && Shared(a, b, v) && Shared(a, b, w)
  }

  lemma {:induction false} AtLeastOne(words: set<string>)
    ensures |words| >= 1 <==> exists w :: w in words
  {
    if words != {} {
      var w :| w in words;
    }
  }

  lemma {:induction false} AtLeastTwo(words: set<string>)
    ensures |words| >= 2 <==> exists v, w :: v != w && v in words && w in words
  {
    forall v | v in words ensures |words| >= 2 <==> exists w :: w != v && w in words {
      AtLeastOne(words - {v});
      assert |words - {v}| == |words| - 1;
      if |words| >= 2 {
        var w :| w in words - {v};
      }
      if w :| w != v && w in words {
        assert w in words - {v};
      }
    }
    AtLeastOne(words);
  }

  lemma {:induction false} AtLeastThree(words: set<string>)
    ensures |words| >= 3 <==>
      exists u, v, w :: u != v && v != w && u != w && u in words && v in words && w in words
  {
    if |words| >= 3 {
      var u :| u in words;
      AtLeastTwo(words - {u});
      var v, w :| v != w && v in words - {u} && w in words - {u};
      assert u != v && v != w && u != w;
    }
    if u, v, w :| u != v && v != w && u != w && u in words && v in words && w in words {
      assert v in words - {u} && w in words - {u};
      AtLeastTwo(words - {u});
    }
  }

  lemma SimilarExactly(d: Doc, o: Doc)
    ensures SimilarTo(d)(o) <==> o.id != d.id && Alike(d, o)
  {
    var common := d.Topics() * o.Topics();
    assert forall w :: w in common <==> Shared(d, o, w);
    AtLeastTwo(common);
    AtLeastThree(common);
  }

  // ---- which documents are linked ----

  lemma {:induction false} JoinedToTarget(d: Doc, targets: seq<Doc>, id: Id)
    requires id != d.id
    ensures Joined(LinksTo(d, targets), d.id, id) <==> exists t :: t in targets && t.id == id
  {
    var links := LinksTo(d, targets);
    if Joined(links, d.id, id) {
      var i :| 0 <= i < |links| && links[i].Joins(d.id, id);
      assert targets[i] in targets;
    }
    if t :| t in targets && t.id == id {
      var i :| 0 <= i < |targets| && targets[i] == t;
      assert links[i].Joins(d.id, id);
    }
  }

  lemma {:induction false} JoinedInEither(a: seq<Link>, b: seq<Link>, x: Id, y: Id)
    ensures Joined(a + b, x, y) <==> Joined(a, x, y) || Joined(b, x, y)
  {
    if Joined(a, x, y) {
      var i :| 0 <= i < |a| && a[i].Joins(x, y);
      assert (a + b)[i].Joins(x, y);
    }
    if Joined(b, x, y) {
      var i :| 0 <= i < |b| && b[i].Joins(x, y);
      assert (a + b)[|a| + i].Joins(x, y);
    }
  }

  lemma {:induction false} SameIdSameDoc(docs: seq<Doc>, a: Doc, b: Doc)
    requires UniqueDocs(docs) && a in docs && b in docs && a.id == b.id
    ensures a == b
  {
    var i :| 0 <= i < |docs| && docs[i] == a;
    var j :| 0 <= j < |docs| && docs[j] == b;
    assert i == j;
  }

  /** After storing d, it is linked with the first two of its candidates and nobody else. */
  lemma LinkedExactly(s: State, d: Doc, o: Doc)
    requires Inv(s) && Fresh(s, AddDoc(d)) && o in Store(s, d).docs && o.id != d.id
    ensures Joined(Step(s, AddDoc(d)).links, d.id, o.id) <==> o in Take(2, RankedCandidates(Store(s, d).docs, d))
  {
    var docs := Store(s, d).docs;
    var targets := Take(2, RankedCandidates(docs, d));
    NewDocLinks(s, d);
    JoinedInEither(s.links, LinksTo(d, targets), d.id, o.id);
    NothingJoinsNewDoc(s, d, o.id);
    JoinedToTarget(d, targets, o.id);
    StoreKeepsInv(s, d);
    RankedCandidatesAreUnique(docs, d);
    if t :| t in targets && t.id == o.id {
      assert t in RankedCandidates(docs, d);
      SameIdSameDoc(docs, t, o);
    }
  }

  /**
   * A new document is linked only with documents like it: two shared words within its category, three in another one.
   * With at most two such documents in the vault, it is linked with all of them.
   */
  lemma LinkedWhenAlike(s: State, d: Doc, o: Doc)
    requires Inv(s) && Fresh(s, AddDoc(d)) && o in Store(s, d).docs && o.id != d.id
    ensures Joined(Step(s, AddDoc(d)).links, d.id, o.id) ==> Alike(d, o)
    ensures Alike(d, o) && |Filter(Store(s, d).docs, SimilarTo(d))| <= 2
        ==> Joined(Step(s, AddDoc(d)).links, d.id, o.id)
  {
    var docs := Store(s, d).docs;
    LinkedExactly(s, d, o);
    SimilarExactly(d, o);
    StoreKeepsInv(s, d);
    RankedCandidatesAreUnique(docs, d);
    RankedCount(docs, d);
    if o in Take(2, RankedCandidates(docs, d)) {
      assert o in RankedCandidates(docs, d);
    }
  }

  lemma RankedCount(docs: seq<Doc>, d: Doc)
    ensures |RankedCandidates(docs, d)| == |Filter(docs, SimilarTo(d))|
  {
    SortSorts(Filter(docs, SimilarTo(d)), Unlike(d));
    assert |multiset(RankedCandidates(docs, d))| == |multiset(Filter(docs, SimilarTo(d)))|;
  }

  /** Adding a link by hand joins these two, when both are live and different, and nobody else. */
  lemma AddLinkExactly(s: State, from: Id, to: Id, tag: string, x: Id, y: Id)
    ensures var t := Step(s, AddLink(from, to, tag));
      && t.docs == s.docs
      && (Joined(t.links, x, y) <==>
            Joined(s.links, x, y) || (from != to && Live(s.docs, from) && Live(s.docs, to) && {x, y} == {from, to}))
  {
    var link := Link(from, to, tag);
    JoinedInEither(s.links, [link], x, y);
    assert Joined([link], x, y) <==> [link][0].Joins(x, y);
    assert {x, y} == {from, to} <==> link.Joins(x, y) by {
      if {x, y} == {from, to} {
        assert x in {from, to} && y in {from, to} && from in {x, y} && to in {x, y};
      }
    }
    if Joined(s.links, from, to) && link.Joins(x, y) {
      var i :| 0 <= i < |s.links| && s.links[i].Joins(from, to);
      assert s.links[i].Joins(x, y);
    }
  }

  // ---- deleting ----

  /** Deleting removes the document with this id and the links that touch it, and nothing else. */
  lemma DeleteExactly(s: State, id: Id)
    ensures var t := Step(s, DeleteDoc(id));
      && (forall d :: d in t.docs <==> d in s.docs && d.id != id)
      && (forall l :: l in t.links <==> l in s.links && l.from != id && l.to != id)
  {
  }

  lemma {:induction false} NothingTouchesNew(s: State, d: Doc)
    requires Inv(s) && Fresh(s, AddDoc(d))
    ensures forall l :: l in s.links ==> !l.Touches(d.id)
  {
    forall l | l in s.links ensures !l.Touches(d.id) {
      assert GoodLink(s, l);
    }
  }

  lemma {:induction false} FilterFront<T(!new)>(xs: seq<T>, ys: seq<T>, p: T -> bool)
    requires (forall x :: x in xs ==> p(x)) && forall y :: y in ys ==> !p(y)
    ensures Filter(xs + ys, p) == xs
  {
    FilterAppends(xs, ys, p);
    FilterAll(xs, p);
    FilterNone(ys, p);
  }

  /** What the store keeps when one more document comes in. */
  function Staying(docs: seq<Doc>): seq<Doc> {
    if |docs| < 300 then docs else docs[1..]
  }

  lemma {:induction false} StayingAreOthers(s: State, d: Doc)
    requires Fresh(s, AddDoc(d))
    ensures Store(s, d).docs == Staying(s.docs) + [d]
    ensures forall x :: x in Staying(s.docs) ==> OtherThan(d.id)(x)
  {
    forall x | x in Staying(s.docs) ensures x.id != d.id {
      assert x in s.docs;
    }
  }

  /** A document stored and deleted again leaves documents and links as they were, but for one pushed out by the cap. */
  lemma {:induction false} DeleteUndoesAdd(s: State, d: Doc)
    requires Inv(s) && Fresh(s, AddDoc(d))
    ensures var t := Step(Step(s, AddDoc(d)), DeleteDoc(d.id));
      t.docs == (if |s.docs| < 300 then s.docs else s.docs[1..]) && t.links == s.links
  {
    var targets := Take(2, RankedCandidates(Store(s, d).docs, d));
    ConnectAllKeepsRest(Store(s, d), d, targets);
    NewDocLinks(s, d);
    StayingAreOthers(s, d);
    FilterFront(Staying(s.docs), [d], OtherThan(d.id));
    NothingTouchesNew(s, d);
    forall l | l in LinksTo(d, targets) ensures l.Touches(d.id) {
    }
    FilterFront(s.links, LinksTo(d, targets), NotTouching(d.id));
  }

  // ---- what the cap keeps ----

  function Ids(docs: seq<Doc>): seq<Id> {
    seq(|docs|, i requires 0 <= i < |docs| => docs[i].id)
  }

  function Added(ops: seq<Op>): seq<Id> {
    if ops == [] then []
    else AddedBy(ops[0]) + Added(ops[1..])
  }

  function AddedBy(op: Op): seq<Id> {
    if op.AddDoc? then [op.d.id] else []
  }

  /** Nothing is deleted or imported. */
  predicate StoresOnly(ops: seq<Op>) {
    ops == [] || (!ops[0].DeleteDoc? && !ops[0].Import? && StoresOnly(ops[1..]))
  }

  lemma LastOfMore(before: seq<Id>, more: seq<Id>, mid: seq<Id>, rest: seq<Id>)
    requires mid == Last(300, before + more)
    ensures Last(300, mid + rest) == Last(300, before + (more + rest))
  {
    LastThenMore(300, before + more, rest);
    assert before + (more + rest) == (before + more) + rest;
  }

  /** As long as nothing is deleted or imported, the vault holds the last 300 documents ever stored. */
  lemma {:induction false} VaultHoldsLatest(s: State, ops: seq<Op>)
    requires |s.docs| <= 300 && StoresOnly(ops)
    ensures Ids(Run(s, ops).docs) == Last(300, Ids(s.docs) + Added(ops))
    decreases |ops|
  {
    if ops == [] {
      assert Ids(s.docs) + Added(ops) == Ids(s.docs);
    } else {
      var t := Step(s, ops[0]);
      IdsAfterStep(s, ops[0]);
      VaultHoldsLatest(t, ops[1..]);
      LastOfMore(Ids(s.docs), AddedBy(ops[0]), Ids(t.docs), Added(ops[1..]));
    }
  }

  lemma IdsAfterStep(s: State, op: Op)
    requires |s.docs| <= 300 && !op.DeleteDoc? && !op.Import?
    ensures |Step(s, op).docs| <= 300
    ensures Ids(Step(s, op).docs) == Last(300, Ids(s.docs) + AddedBy(op))
  {
    assert Ids(s.docs) + [] == Ids(s.docs);
    if op.AddDoc? {
      ConnectAllKeepsRest(Store(s, op.d), op.d, Take(2, RankedCandidates(Store(s, op.d).docs, op.d)));
      IdsAfterStore(s, op.d);
    } else if op.Retrieve? {
      assert Ids(Step(s, op).docs) == Ids(s.docs);
    }
  }

  lemma IdsAfterStore(s: State, d: Doc)
    requires |s.docs| <= 300
    ensures |Store(s, d).docs| <= 300 && Ids(Store(s, d).docs) == Last(300, Ids(s.docs) + [d.id])
  {
  }

  // ---- what a sender may leave out ----

  /** A missing confidence counts as 55, and a missing date as the beginning of time, until the copy gets today's. */
  lemma MissingFigures(docs: seq<Doc>, x: Incoming, now: real)
    ensures x.confidence.None? ==> Receive(docs, x, now) == Receive(docs, x.(confidence := Some(55.0)), now)
    ensures x.stamp.None? ==>
      var i := NameIndex(docs, x.doc.name);
      Receive(docs, x, now) == Receive(docs, x.(stamp := Some(if i < |docs| then 0.0 else now)), now)
  {
  }
}
