/** The knowledge vault: a capped document store and an undirected link graph. */
module Knowledge {
  import opened Wrappers
  import opened Rings
  import opened Sorting

  type Id = string

  const DOC_CAP := 300
  const DEFAULT_CONFIDENCE := 55.0

  /** A body as the search reads it, token by token, and the tokens of its opening, which similarity compares. */
  datatype Body = Body(words: seq<string>, opening: set<string>)

  /** `name` is the raw title; token lists and token sets stand for the tokenised texts. Times are counted in days. */
  datatype Doc = Doc(
    id: Id, name: string, title: seq<string>, tags: seq<string>, tagWords: set<string>, body: Body,
    category: string, layer: string, archived: bool, verified: bool, uses: nat, lastUsedAt: Option<real>,
    baseConfidence: real, updatedAt: real)
  {
    function Topics(): set<string> {
      (set w | w in title) + tagWords + body.opening
    }
  }

  datatype Link = Link(from: Id, to: Id, tag: string)
  {
    predicate Touches(id: Id) {
      from == id || to == id
    }

    /** The link joins these two, in either direction. */
    predicate Joins(a: Id, b: Id) {
      (from == a && to == b) || (from == b && to == a)
    }
  }

  /** `evicted` and `deleted` remember what left the store, by the cap or explicitly. */
  datatype State = State(docs: seq<Doc>, links: seq<Link>, evicted: set<Id>, deleted: set<Id>)

  const Empty := State([], [], {}, {})

  predicate Live(docs: seq<Doc>, id: Id) {
    exists i :: 0 <= i < |docs| && docs[i].id == id
  }

  predicate Joined(links: seq<Link>, a: Id, b: Id) {
    exists i :: 0 <= i < |links| && links[i].Joins(a, b)
  }

  function Similarity(a: Doc, b: Doc): nat {
    |a.Topics() * b.Topics()| + (if a.category == b.category then 1 else 0)
  }

  /** addLink: only between two different live documents that are not joined yet. */
  function Connect(s: State, from: Id, to: Id, tag: string): State {
    if from == to || !Live(s.docs, from) || !Live(s.docs, to) || Joined(s.links, from, to) then s
    else s.(links := s.links + [Link(from, to, tag)])
  }

  function SimilarTo(d: Doc): Doc -> bool {
    (o: Doc) => o.id != d.id && Similarity(d, o) >= 3
  }

  /** Sorts the most similar document first. */
  function Unlike(d: Doc): Doc -> real {
    (o: Doc) => -(Similarity(d, o) as real)
  }

  function Take<T>(n: nat, xs: seq<T>): seq<T> {
    if |xs| <= n then xs else xs[..n]
  }

  function RankedCandidates(docs: seq<Doc>, d: Doc): seq<Doc> {
    SortBy(Filter(docs, SimilarTo(d)), Unlike(d))
  }

  function ConnectAll(s: State, d: Doc, targets: seq<Doc>): State
    decreases |targets|
  {
    if targets == [] then s
    else ConnectAll(Connect(s, d.id, targets[0].id, "auto"), d, targets[1..])
  }

  function Store(s: State, d: Doc): State {
    var grown := s.docs + [d];
    if |grown| > DOC_CAP
    then s.(docs := grown[1..], evicted := s.evicted + {grown[0].id})
    else s.(docs := grown)
  }

  /** A document another node sends, under the id it would get here; the two figures may be missing. */
  datatype Incoming = Incoming(doc: Doc, confidence: Option<real>, stamp: Option<real>)
  {
    function Confidence(): real {
      if confidence.Some? then confidence.value else DEFAULT_CONFIDENCE
    }

    function Stamp(): real {
      if stamp.Some? then stamp.value else 0.0
    }

    function Copy(now: real): Doc {
      doc.(baseConfidence := Confidence(), updatedAt := if stamp.Some? then stamp.value else now)
    }

    /** Higher confidence wins, and of equal ones the newer document. */
    predicate Beats(d: Doc) {
      Confidence() > d.baseConfidence || (Confidence() == d.baseConfidence && Stamp() > d.updatedAt)
    }
  }

  /** The first document with this title, or the length of the store. */
  function NameIndex(docs: seq<Doc>, name: string): (i: nat)
    ensures i <= |docs|
    ensures i < |docs| ==> docs[i].name == name
    ensures forall j :: 0 <= j < i ==> docs[j].name != name
  {
    if docs == [] || docs[0].name == name then 0
    else
      assert forall j :: 0 < j < |docs| ==> docs[j] == docs[1..][j - 1];
      1 + NameIndex(docs[1..], name)
  }

  /** One incoming document: unknown titles are added without regard to the cap, known ones are compared. */
  function Receive(docs: seq<Doc>, x: Incoming, now: real): seq<Doc> {
    var i := NameIndex(docs, x.doc.name);
    if i == |docs| then docs + [x.Copy(now)]
    else if x.Beats(docs[i]) then
      docs[i := docs[i].(body := x.doc.body, baseConfidence := x.Confidence(), updatedAt := now)]
    else docs
  }

  function ReceiveAll(docs: seq<Doc>, xs: seq<Incoming>, now: real): seq<Doc>
    decreases |xs|
  {
    if xs == [] then docs else ReceiveAll(Receive(docs, xs[0], now), xs[1..], now)
  }

  function OtherThan(id: Id): Doc -> bool {
    (x: Doc) => x.id != id
  }

  function NotTouching(id: Id): Link -> bool {
    (l: Link) => !l.Touches(id)
  }

  datatype Op =
    | AddDoc(d: Doc)
    | DeleteDoc(id: Id)
    | AddLink(from: Id, to: Id, tag: string)
    | Retrieve(ids: set<Id>, now: real)
    | Import(x: Incoming, now: real)

  function Used(docs: seq<Doc>, ids: set<Id>, now: real): seq<Doc> {
    seq(|docs|, i requires 0 <= i < |docs| =>
      if docs[i].id in ids then docs[i].(uses := docs[i].uses + 1, lastUsedAt := Some(now)) else docs[i])
  }

  function Step(s: State, op: Op): State {
    match op
    case AddDoc(d) =>
      var stored := Store(s, d);
      ConnectAll(stored, d, Take(2, RankedCandidates(stored.docs, d)))
    case DeleteDoc(id) =>
      State(Filter(s.docs, OtherThan(id)), Filter(s.links, NotTouching(id)),
            s.evicted, s.deleted + {id})
    case AddLink(from, to, tag) => Connect(s, from, to, tag)
    case Retrieve(ids, now) => s.(docs := Used(s.docs, ids, now))
    case Import(x, now) => s.(docs := Receive(s.docs, x, now))
  }

  predicate Unused(s: State, id: Id) {
    !Live(s.docs, id) && id !in s.evicted && id !in s.deleted
  }

  /** A new document's id was never used before. */
  predicate Fresh(s: State, op: Op) {
    (op.AddDoc? ==> Unused(s, op.d.id)) && (op.Import? ==> Unused(s, op.x.doc.id))
  }

  /** The running vault; what left it is remembered for the specification only. */
  class Vault {
    var docs: seq<Doc>
    var links: seq<Link>
    ghost var evicted: set<Id>
    ghost var deleted: set<Id>

    ghost function Model(): State
      reads this
    {
      State(docs, links, evicted, deleted)
    }

    constructor ()
      ensures Model() == Empty
    {
      docs, links, evicted, deleted := [], [], {}, {};
    }

    method IsLive(id: Id) returns (b: bool)
      ensures b == Live(docs, id)
    {
      for i := 0 to |docs|
        invariant forall j :: 0 <= j < i ==> docs[j].id != id
      {
        if docs[i].id == id { return true; }
      }
      return false;
    }

    method AddLinkBetween(from: Id, to: Id, tag: string)
      modifies this
      ensures Model() == Connect(old(Model()), from, to, tag)
    {
      var a := IsLive(from);
      var b := IsLive(to);
      if from == to || !a || !b { return; }
      for i := 0 to |links|
        invariant Model() == old(Model())
        invariant forall j :: 0 <= j < i ==> !links[j].Joins(from, to)
      {
        if links[i].Joins(from, to) { return; }
      }
      links := links + [Link(from, to, tag)];
    }

    method AutoLink(d: Doc)
      modifies this
      ensures Model() == ConnectAll(old(Model()), d, Take(2, RankedCandidates(old(docs), d)))
    {
      var targets := Take(2, RankedCandidates(docs, d));
      for i := 0 to |targets|
        invariant ConnectAll(Model(), d, targets[i..]) == ConnectAll(old(Model()), d, targets)
      {
        assert targets[i..][1..] == targets[i + 1..];
        AddLinkBetween(d.id, targets[i].id, "auto");
      }
    }

    method AddDocument(d: Doc)
      modifies this
      ensures Model() == Step(old(Model()), AddDoc(d))
    {
      docs := docs + [d];
      if |docs| > DOC_CAP {
        evicted := evicted + {docs[0].id};
        docs := docs[1..];
      }
      AutoLink(d);
    }

    method DeleteDocument(id: Id)
      modifies this
      ensures Model() == Step(old(Model()), DeleteDoc(id))
    {
      docs := Filter(docs, OtherThan(id));
      links := Filter(links, NotTouching(id));
      deleted := deleted + {id};
    }

    /** Counts one retrieval for each hit. */
    method MarkUsed(ids: set<Id>, now: real)
      modifies this
      ensures Model() == Step(old(Model()), Retrieve(ids, now))
    {
      var was := docs;
      for i := 0 to |was|
        invariant links == old(links) && evicted == old(evicted) && deleted == old(deleted)
        invariant |docs| == |was|
        invariant forall j :: 0 <= j < |was| ==> docs[j] == if j < i then Used(was, ids, now)[j] else was[j]
      {
        if docs[i].id in ids {
          docs := docs[i := docs[i].(uses := docs[i].uses + 1, lastUsedAt := Some(now))];
        }
      }
      assert docs == Used(was, ids, now);
    }

    /** The import of a payload; the result counts documents added, incoming versions that won, and local ones kept. */
    method ImportAll(xs: seq<Incoming>, readOnly: bool, now: real) returns (added: nat, won: nat, kept: nat)
      modifies this
      ensures Model() == if readOnly then old(Model()) else old(Model()).(docs := ReceiveAll(old(docs), xs, now))
      ensures |docs| == |old(docs)| + added && added + won + kept == if readOnly then 0 else |xs|
    {
      added, won, kept := 0, 0, 0;
      if readOnly { return; }
      for i := 0 to |xs|
        invariant links == old(links) && evicted == old(evicted) && deleted == old(deleted)
        invariant ReceiveAll(docs, xs[i..], now) == ReceiveAll(old(docs), xs, now)
        invariant |docs| == |old(docs)| + added && added + won + kept == i
      {
        assert xs[i..][1..] == xs[i + 1..];
        var k := FindName(xs[i].doc.name);
        if k == |docs| {
          docs := docs + [xs[i].Copy(now)];
          added := added + 1;
        } else {
          var mine, theirs := docs[k].baseConfidence, xs[i].Confidence();
          if theirs > mine || (theirs == mine && xs[i].Stamp() > docs[k].updatedAt) {
            docs := docs[k := docs[k].(body := xs[i].doc.body, baseConfidence := theirs, updatedAt := now)];
            won := won + 1;
          } else {
            kept := kept + 1;
          }
        }
      }
    }

    method FindName(name: string) returns (i: nat)
      ensures i == NameIndex(docs, name)
    {
      i := 0;
      while i < |docs| && docs[i].name != name
        invariant i <= |docs| && forall j :: 0 <= j < i ==> docs[j].name != name
      {
        i := i + 1;
      }
    }
  }
}
