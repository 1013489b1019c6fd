/** The link graph over all runs of the vault. */
module KnowledgeRuns {
  import opened Wrappers
  import opened Sorting
  import opened Knowledge

  ghost predicate UniqueDocs(docs: seq<Doc>) {
    forall i, j :: 0 <= i < j < |docs| ==> docs[i].id != docs[j].id
  }

  /** A link joins two different documents, live or pushed out by the cap, and none that was deleted. */
  ghost predicate GoodLink(s: State, l: Link) {
    && l.from != l.to
    && Endpoint(s, l.from) && Endpoint(s, l.to)
  }

  ghost predicate Endpoint(s: State, id: Id) {
    (Live(s.docs, id) || id in s.evicted) && id !in s.deleted
  }

  ghost predicate OncePerPair(links: seq<Link>) {
    forall i, j :: 0 <= i < j < |links| ==> !links[i].Joins(links[j].from, links[j].to)
  }

  ghost predicate GoodDocs(s: State) {
    && UniqueDocs(s.docs)
    && forall i :: 0 <= i < |s.docs| ==> s.docs[i].id !in s.evicted && s.docs[i].id !in s.deleted
  }

  ghost predicate Inv(s: State) {
    GoodDocs(s) && OncePerPair(s.links) && forall l :: l in s.links ==> GoodLink(s, l)
  }

  function Run(s: State, ops: seq<Op>): State
    decreases |ops|
  {
    if ops == [] then s else Run(Step(s, ops[0]), ops[1..])
  }

  predicate AllFresh(s: State, ops: seq<Op>)
    decreases |ops|
  {
    ops == [] || (Fresh(s, ops[0]) && AllFresh(Step(s, ops[0]), ops[1..]))
  }

  lemma ConnectKeepsInv(s: State, from: Id, to: Id, tag: string)
    requires Inv(s)
    ensures Inv(Connect(s, from, to, tag))
  {
    var t := Connect(s, from, to, tag);
    if t != s {
      assert t.links == s.links + [Link(from, to, tag)];
      forall l | l in t.links ensures GoodLink(t, l) {
        assert l in s.links || l == Link(from, to, tag);
      }
    }
  }

  lemma {:induction false} ConnectAllKeepsInv(s: State, d: Doc, targets: seq<Doc>)
    requires Inv(s)
    ensures Inv(ConnectAll(s, d, targets))
    decreases |targets|
  {
    if targets != [] {
      ConnectKeepsInv(s, d.id, targets[0].id, "auto");
      ConnectAllKeepsInv(Connect(s, d.id, targets[0].id, "auto"), d, targets[1..]);
    }
  }

  lemma StoreKeepsInv(s: State, d: Doc)
    requires Inv(s) && Fresh(s, AddDoc(d))
    ensures Inv(Store(s, d)) && Live(Store(s, d).docs, d.id)
  {
    var t := Store(s, d);
    var grown := s.docs + [d];
    assert t.docs[|t.docs| - 1] == d;
    forall id | Endpoint(s, id) ensures Endpoint(t, id) {
      if Live(s.docs, id) {
        var i :| 0 <= i < |s.docs| && s.docs[i].id == id;
        assert grown[i].id == id;
        assert i > 0 && |grown| > DOC_CAP ==> t.docs[i - 1] == grown[i];
      }
    }
    forall i | 0 <= i < |t.docs| ensures t.docs[i].id !in t.evicted && t.docs[i].id !in t.deleted {
      assert t.docs[i] == grown[i] || (|grown| > DOC_CAP && t.docs[i] == grown[i + 1]);
    }
    forall l | l in t.links ensures GoodLink(t, l) {
      assert GoodLink(s, l);
    }
  }

  function IdOf(d: Doc): string {
    d.id
  }

  lemma {:induction false} FilterKeepsPairs(links: seq<Link>, p: Link -> bool)
    requires OncePerPair(links)
    ensures OncePerPair(Filter(links, p))
  {
    if links != [] {
      var front, last := links[..|links| - 1], links[|links| - 1];
      FilterKeepsPairs(front, p);
      forall l | l in Filter(front, p) ensures !l.Joins(last.from, last.to) {
        assert l in front;
      }
    }
  }

  lemma DeleteKeepsInv(s: State, id: Id)
    requires Inv(s)
    ensures Inv(Step(s, DeleteDoc(id)))
  {
    var t := Step(s, DeleteDoc(id));
    FilterKeepsUnique(s.docs, OtherThan(id), IdOf);
    assert UniqueBy(t.docs, IdOf);
    FilterKeepsPairs(s.links, NotTouching(id));
    forall i | 0 <= i < |t.docs| ensures t.docs[i].id !in t.evicted && t.docs[i].id !in t.deleted {
      assert t.docs[i] in t.docs;
      assert t.docs[i] in s.docs;
    }
    forall x | x != id && Endpoint(s, x) ensures Endpoint(t, x) {
      if Live(s.docs, x) {
        var i :| 0 <= i < |s.docs| && s.docs[i].id == x;
        assert s.docs[i] in s.docs && s.docs[i] in t.docs;
      }
    }
    forall l | l in t.links ensures GoodLink(t, l) {
      assert l in s.links && !l.Touches(id);
    }
  }

  /** Changing documents under their ids. */
  lemma SameIdsKeepInv(s: State, t: State)
    requires Inv(s) && t == s.(docs := t.docs)
    requires |t.docs| == |s.docs| && forall i :: 0 <= i < |s.docs| ==> t.docs[i].id == s.docs[i].id
    ensures Inv(t)
  {
    forall id | Live(s.docs, id) ensures Live(t.docs, id) {
      var i :| 0 <= i < |s.docs| && s.docs[i].id == id;
      assert t.docs[i].id == id;
    }
    forall l | l in t.links ensures GoodLink(t, l) {
      assert GoodLink(s, l);
    }
  }

  /** A document that arrives under an id of its own. */
  lemma ArrivalKeepsInv(s: State, d: Doc)
    requires Inv(s) && Unused(s, d.id)
    ensures Inv(s.(docs := s.docs + [d]))
  {
    var t := s.(docs := s.docs + [d]);
    forall id | Live(s.docs, id) ensures Live(t.docs, id) {
      var i :| 0 <= i < |s.docs| && s.docs[i].id == id;
      assert t.docs[i].id == id;
    }
    forall l | l in t.links ensures GoodLink(t, l) {
      assert GoodLink(s, l);
    }
  }

  lemma ImportKeepsInv(s: State, x: Incoming, now: real)
    requires Inv(s) && Fresh(s, Import(x, now))
    ensures Inv(Step(s, Import(x, now)))
  {
    if NameIndex(s.docs, x.doc.name) == |s.docs| {
      ArrivalKeepsInv(s, x.Copy(now));
    } else {
      SameIdsKeepInv(s, Step(s, Import(x, now)));
    }
  }

  lemma StepKeepsInv(s: State, op: Op)
    requires Inv(s) && Fresh(s, op)
    ensures Inv(Step(s, op))
  {
    match op
    case AddDoc(d) =>
      StoreKeepsInv(s, d);
      ConnectAllKeepsInv(Store(s, d), d, Take(2, RankedCandidates(Store(s, d).docs, d)));
    case DeleteDoc(id) => DeleteKeepsInv(s, id);
    case AddLink(from, to, tag) => ConnectKeepsInv(s, from, to, tag);
    case Retrieve(_, _) => SameIdsKeepInv(s, Step(s, op));
    case Import(x, now) => ImportKeepsInv(s, x, now);
  }

  /**
   * Over all runs with fresh ids: no self-loop, at most one link per unordered pair, every endpoint live or pushed out
   * by the cap, and never again a link to a deleted document.
   */
  lemma {:induction false} LinkGraphStaysSound(s: State, ops: seq<Op>)
    requires Inv(s) && AllFresh(s, ops)
    ensures Inv(Run(s, ops))
    ensures s.deleted <= Run(s, ops).deleted
    decreases |ops|
  {
    if ops != [] {
      StepKeepsInv(s, ops[0]);
      DeletedOnlyGrows(s, ops[0]);
      LinkGraphStaysSound(Step(s, ops[0]), ops[1..]);
    }
  }

  lemma {:induction false} ConnectAllKeepsRest(s: State, d: Doc, targets: seq<Doc>)
    ensures var t := ConnectAll(s, d, targets); t.docs == s.docs && t.evicted == s.evicted && t.deleted == s.deleted
    decreases |targets|
  {
    if targets != [] {
      ConnectAllKeepsRest(Connect(s, d.id, targets[0].id, "auto"), d, targets[1..]);
    }
  }

  lemma DeletedOnlyGrows(s: State, op: Op)
    ensures s.deleted <= Step(s, op).deleted
  {
    if op.AddDoc? {
      ConnectAllKeepsRest(Store(s, op.d), op.d, Take(2, RankedCandidates(Store(s, op.d).docs, op.d)));
    }
  }

  lemma {:induction false} FilterIsShorter(docs: seq<Doc>, p: Doc -> bool)
    ensures |Filter(docs, p)| <= |docs|
  {
    if docs != [] {
      FilterIsShorter(docs[..|docs| - 1], p);
    }
  }

  function Imports(xs: seq<Incoming>, now: real): seq<Op> {
    if xs == [] then [] else [Import(xs[0], now)] + Imports(xs[1..], now)
  }

  /** Importing a payload is a run of imports. */
  lemma {:induction false} ImportIsRun(s: State, xs: seq<Incoming>, now: real)
    ensures Run(s, Imports(xs, now)) == s.(docs := ReceiveAll(s.docs, xs, now))
    decreases |xs|
  {
    if xs != [] {
      var ops := Imports(xs, now);
      assert ops[0] == Import(xs[0], now) && ops[1..] == Imports(xs[1..], now);
      ImportIsRun(Step(s, ops[0]), xs[1..], now);
    }
  }

  /** The documents a run receives from other nodes under titles unknown here. */
  function Received(s: State, ops: seq<Op>): nat
    decreases |ops|
  {
    if ops == [] then 0
    else
      var op := ops[0];
      (if op.Import? && NameIndex(s.docs, op.x.doc.name) == |s.docs| then 1 else 0)
      + Received(Step(s, op), ops[1..])
  }

  lemma SizeAfterStep(s: State, op: Op)
    ensures var (n, m) := (|s.docs|, |Step(s, op).docs|);
      match op
      case AddDoc(_) => m == if n < DOC_CAP then n + 1 else n
      case Import(x, _) => m == if NameIndex(s.docs, x.doc.name) == n then n + 1 else n
      case _ => m <= n
  {
    match op
    case AddDoc(d) => ConnectAllKeepsRest(Store(s, d), d, Take(2, RankedCandidates(Store(s, d).docs, d)));
    case DeleteDoc(id) => FilterIsShorter(s.docs, OtherThan(id));
    case _ =>
  }

  /**
   * The cap of 300 holds for what is stored here: a run without imports stays within it, and every imported document
   * may exceed it by one, because storing beyond the cap pushes out one document only.
   */
  lemma {:induction false} OnlyImportsExceedCap(s: State, ops: seq<Op>)
    ensures |Run(s, ops).docs| <= (if |s.docs| <= 300 then 300 else |s.docs|) + Received(s, ops)
    decreases |ops|
  {
    if ops != [] {
      SizeAfterStep(s, ops[0]);
      OnlyImportsExceedCap(Step(s, ops[0]), ops[1..]);
    }
  }

  // ---- what was retrieved stays used ----

  /** The id is taken, and its document, if it is still here, was retrieved. */
  ghost predicate WasUsed(s: State, id: Id) {
    !Unused(s, id) && forall d :: d in s.docs && d.id == id ==> d.uses > 0
  }

  lemma ImportKeepsUsed(s: State, x: Incoming, now: real, id: Id)
    requires WasUsed(s, id) && Unused(s, x.doc.id)
    ensures WasUsed(Step(s, Import(x, now)), id)
  {
    var t := Step(s, Import(x, now));
    forall i | 0 <= i < |s.docs| ensures t.docs[i].id == s.docs[i].id && t.docs[i].uses == s.docs[i].uses {
    }
    forall d | d in t.docs && d.id == id ensures d.uses > 0 {
      var i :| 0 <= i < |t.docs| && t.docs[i] == d;
      if i < |s.docs| {
        assert s.docs[i] in s.docs;
      }
    }
    if Live(s.docs, id) {
      var i :| 0 <= i < |s.docs| && s.docs[i].id == id;
      assert t.docs[i].id == id;
    }
  }

  lemma RetrieveKeepsUsed(s: State, ids: set<Id>, now: real, id: Id)
    requires WasUsed(s, id)
    ensures WasUsed(Step(s, Retrieve(ids, now)), id)
  {
    var t := Step(s, Retrieve(ids, now));
    forall d | d in t.docs && d.id == id ensures d.uses > 0 {
      var i :| 0 <= i < |t.docs| && t.docs[i] == d;
      assert s.docs[i] in s.docs;
    }
    if Live(s.docs, id) {
      var i :| 0 <= i < |s.docs| && s.docs[i].id == id;
      assert t.docs[i].id == id;
    }
  }

  lemma StoreKeepsUsed(s: State, d: Doc, id: Id)
    requires WasUsed(s, id) && Unused(s, d.id)
    ensures WasUsed(Store(s, d), id)
  {
    var t, grown := Store(s, d), s.docs + [d];
    forall x | x in t.docs && x.id == id ensures x.uses > 0 {
      assert x in grown;
    }
    if Live(s.docs, id) {
      var i :| 0 <= i < |s.docs| && s.docs[i].id == id;
      assert grown[i].id == id;
      assert i > 0 && |grown| > DOC_CAP ==> t.docs[i - 1] == grown[i];
    }
  }

  lemma DeleteKeepsUsed(s: State, gone: Id, id: Id)
    requires WasUsed(s, id)
    ensures WasUsed(Step(s, DeleteDoc(gone)), id)
  {
    var t := Step(s, DeleteDoc(gone));
    if id != gone && Live(s.docs, id) {
      var i :| 0 <= i < |s.docs| && s.docs[i].id == id;
      assert s.docs[i] in s.docs && s.docs[i] in t.docs;
    }
  }

  lemma StepKeepsUsed(s: State, op: Op, id: Id)
    requires WasUsed(s, id) && Fresh(s, op)
    ensures WasUsed(Step(s, op), id)
  {
    match op
    case AddDoc(d) =>
      StoreKeepsUsed(s, d, id);
      ConnectAllKeepsRest(Store(s, d), d, Take(2, RankedCandidates(Store(s, d).docs, d)));
    case DeleteDoc(gone) => DeleteKeepsUsed(s, gone, id);
    case AddLink(_, _, _) =>
    case Retrieve(ids, now) => RetrieveKeepsUsed(s, ids, now, id);
    case Import(x, now) => ImportKeepsUsed(s, x, now, id);
  }

  /** Once a retrieval has hit a document, whatever the vault does later, that document counts as used. */
  lemma {:induction false} HitsStayUsed(s: State, ops: seq<Op>, id: Id)
    requires WasUsed(s, id) && AllFresh(s, ops)
    ensures WasUsed(Run(s, ops), id)
    decreases |ops|
  {
    if ops != [] {
      StepKeepsUsed(s, ops[0], id);
      HitsStayUsed(Step(s, ops[0]), ops[1..], id);
    }
  }

  lemma HitIsUsed(s: State, ids: set<Id>, now: real, id: Id)
    requires id in ids && Live(s.docs, id)
    ensures WasUsed(Step(s, Retrieve(ids, now)), id)
  {
    var t := Step(s, Retrieve(ids, now));
    var i :| 0 <= i < |s.docs| && s.docs[i].id == id;
    assert t.docs[i].id == id;
  }

  // ---- automatic links ----

  function LinksTo(d: Doc, targets: seq<Doc>): seq<Link> {
    seq(|targets|, i requires 0 <= i < |targets| => Link(d.id, targets[i].id, "auto"))
  }

  lemma LinksToFirst(links: seq<Link>, d: Doc, targets: seq<Doc>)
    requires targets != []
    ensures links + LinksTo(d, targets) == (links + [Link(d.id, targets[0].id, "auto")]) + LinksTo(d, targets[1..])
  {
  }

  lemma JoinedByOneMore(links: seq<Link>, l: Link, a: Id, b: Id)
    ensures Joined(links + [l], a, b) ==> Joined(links, a, b) || l.Joins(a, b)
  {
  }

  lemma {:induction false} ConnectAllSucceeds(s: State, d: Doc, targets: seq<Doc>)
    requires Live(s.docs, d.id) && UniqueDocs(targets)
    requires forall t :: t in targets ==> t.id != d.id && Live(s.docs, t.id) && !Joined(s.links, d.id, t.id)
    ensures ConnectAll(s, d, targets) == s.(links := s.links + LinksTo(d, targets))
    decreases |targets|
  {
    if targets == [] {
      assert s.links + LinksTo(d, targets) == s.links;
    } else {
      var first, rest := targets[0], targets[1..];
      assert first in targets;
      var t := Connect(s, d.id, first.id, "auto");
      assert t.docs == s.docs && t.links == s.links + [Link(d.id, first.id, "auto")];
      forall x | x in rest ensures x.id != d.id && Live(t.docs, x.id) && !Joined(t.links, d.id, x.id) {
        var i :| 0 <= i < |rest| && rest[i] == x;
        assert targets[i + 1] == x && x in targets;
        JoinedByOneMore(s.links, Link(d.id, first.id, "auto"), d.id, x.id);
      }
      ConnectAllSucceeds(t, d, rest);
      LinksToFirst(s.links, d, targets);
    }
  }

  lemma RankedCandidatesAreUnique(docs: seq<Doc>, d: Doc)
    requires UniqueDocs(docs)
    ensures UniqueDocs(RankedCandidates(docs, d))
    ensures forall o :: o in RankedCandidates(docs, d) <==> o in docs && SimilarTo(d)(o)
  {
    FilterKeepsUnique(docs, SimilarTo(d), IdOf);
    SortKeepsUnique(Filter(docs, SimilarTo(d)), Unlike(d), IdOf);
    assert UniqueBy(RankedCandidates(docs, d), IdOf);
    SortKeepsMembers(Filter(docs, SimilarTo(d)), Unlike(d));
  }

  lemma NothingJoinsNewDoc(s: State, d: Doc, id: Id)
    requires Inv(s) && Fresh(s, AddDoc(d))
    ensures !Joined(s.links, d.id, id)
  {
    forall i | 0 <= i < |s.links| ensures !s.links[i].Joins(d.id, id) {
      assert GoodLink(s, s.links[i]);
    }
  }

  lemma BestCandidatesAreFree(s: State, d: Doc)
    requires Inv(s) && Fresh(s, AddDoc(d))
    ensures var t := Store(s, d);
      var targets := Take(2, RankedCandidates(t.docs, d));
      && Live(t.docs, d.id) && UniqueDocs(targets)
      && forall x :: x in targets ==> x.id != d.id && Live(t.docs, x.id) && !Joined(t.links, d.id, x.id)
  {
    var t := Store(s, d);
    StoreKeepsInv(s, d);
    RankedCandidatesAreUnique(t.docs, d);
    forall x | x in Take(2, RankedCandidates(t.docs, d))
      ensures x.id != d.id && Live(t.docs, x.id) && !Joined(t.links, d.id, x.id)
    {
      assert x in RankedCandidates(t.docs, d);
      assert x in t.docs && SimilarTo(d)(x);
      NothingJoinsNewDoc(s, d, x.id);
    }
  }

  lemma RankedBySimilarity(docs: seq<Doc>, d: Doc)
    ensures var ranked := RankedCandidates(docs, d);
      forall i, j :: 0 <= i < j < |ranked| ==> Similarity(d, ranked[j]) <= Similarity(d, ranked[i])
  {
    var ranked := RankedCandidates(docs, d);
    SortSorts(Filter(docs, SimilarTo(d)), Unlike(d));
    forall i, j | 0 <= i < j < |ranked| ensures Similarity(d, ranked[j]) <= Similarity(d, ranked[i]) {
      assert Unlike(d)(ranked[i]) <= Unlike(d)(ranked[j]);
    }
  }

  /**
   * A new document gets exactly min(2, number of documents at least 3 similar) links, each to a document that no
   * unlinked candidate exceeds in similarity.
   */
  lemma NewDocGetsBestLinks(s: State, d: Doc)
    requires Inv(s) && Fresh(s, AddDoc(d))
    ensures Step(s, AddDoc(d)).links == s.links + LinksTo(d, Take(2, RankedCandidates(Store(s, d).docs, d)))
    ensures var n := |Filter(Store(s, d).docs, SimilarTo(d))|;
      |Step(s, AddDoc(d)).links| == |s.links| + if n < 2 then n else 2
    ensures multiset(RankedCandidates(Store(s, d).docs, d)) == multiset(Filter(Store(s, d).docs, SimilarTo(d)))
    ensures var ranked := RankedCandidates(Store(s, d).docs, d);
      forall i, j :: 0 <= i < 2 <= j < |ranked| ==> Similarity(d, ranked[j]) <= Similarity(d, ranked[i])
  {
    RankedBySimilarity(Store(s, d).docs, d);
    NewDocLinks(s, d);
  }

  lemma NewDocLinks(s: State, d: Doc)
    requires Inv(s) && Fresh(s, AddDoc(d))
    ensures Step(s, AddDoc(d)).links == s.links + LinksTo(d, Take(2, RankedCandidates(Store(s, d).docs, d)))
  {
    BestCandidatesAreFree(s, d);
    ConnectAllSucceeds(Store(s, d), d, Take(2, RankedCandidates(Store(s, d).docs, d)));
  }
}
