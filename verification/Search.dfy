/** Ranked retrieval: lexical scores re-ranked by confidence and freshness. */
module Search {
  import opened Wrappers
  import opened Sorting
  import opened Texts
  import opened Rounding
  import opened Knowledge

  /** A query term with its weight: 1 for a word of the query, less for a synonym. */
  datatype Term = Term(word: string, weight: real)

  datatype Query = Query(terms: seq<Term>, layer: Option<string>, category: Option<string>, limit: nat)

  /** Some of the words contains the term or is contained in it. */
  predicate Overlaps(words: seq<string>, word: string) {
    exists i :: 0 <= i < |words| && (Has(words[i], word) || Has(word, words[i]))
  }

  function Points(d: Doc, t: Term): real {
    if Overlaps(d.title, t.word) then 3.0 * t.weight
    else if Overlaps(d.tags, t.word) then 2.0 * t.weight
    else if t.word in d.body.words then t.weight
    else 0.0
  }

  function Total(d: Doc, terms: seq<Term>): real {
    if terms == [] then 0.0 else Total(d, terms[..|terms| - 1]) + Points(d, terms[|terms| - 1])
  }

  /** The raw score: 0 outside the asked layer or category. */
  function Raw(d: Doc, q: Query): real {
    if q.layer.Some? && d.layer != q.layer.value then 0.0
    else if q.category.Some? && d.category != q.category.value then 0.0
    else Total(d, q.terms)
  }

  method ScoreDoc(d: Doc, q: Query) returns (score: real)
    ensures score == Raw(d, q)
  {
    score := 0.0;
    for i := 0 to |q.terms|
      invariant score == Total(d, q.terms[..i])
    {
      var t := q.terms[i];
      assert q.terms[..i + 1][..i] == q.terms[..i];
      if Overlaps(d.title, t.word) {
        score := score + 3.0 * t.weight;
      } else if Overlaps(d.tags, t.word) {
        score := score + 2.0 * t.weight;
      } else if t.word in d.body.words {
        score := score + t.weight;
      }
    }
    assert q.terms[..|q.terms|] == q.terms;
    if q.layer.Some? && d.layer != q.layer.value { score := 0.0; }
    if q.category.Some? && d.category != q.category.value { score := 0.0; }
  }

  // ---- reliability ----

  function UseBonus(uses: nat): int {
    if 3 * uses < 15 then 3 * uses else 15
  }

  function Confidence(d: Doc): int {
    var c := Round(d.baseConfidence + (if d.verified then 15.0 else 0.0) + UseBonus(d.uses) as real);
    if c < 100 then c else 100
  }

  /** `now` and updatedAt are counted in days. */
  function Freshness(d: Doc, now: real): int {
    var f := Round(100.0 - (now - d.updatedAt) * 2.0);
    if f < 20 then 20 else f
  }

  function Multiplier(d: Doc, now: real): real {
    0.7 + Confidence(d) as real / 250.0 + Freshness(d, now) as real / 500.0
  }

  function Rank(q: Query, now: real): Doc -> real {
    d => if Raw(d, q) > 0.0 then Raw(d, q) * Multiplier(d, now) else 0.0
  }

  function Matches(q: Query, now: real): Doc -> bool {
    (d: Doc) => !d.archived && Rank(q, now)(d) > 0.0
  }

  /** Sorts the highest rank first. */
  function Worst(q: Query, now: real): Doc -> real {
    d => -Rank(q, now)(d)
  }

  /** All matches, best first. */
  function Ranking(docs: seq<Doc>, q: Query, now: real): seq<Doc> {
    SortBy(Filter(docs, Matches(q, now)), Worst(q, now))
  }

  function Limit(q: Query): nat {
    if q.limit == 0 then 8 else q.limit
  }

  function Results(docs: seq<Doc>, q: Query, now: real): seq<Doc> {
    Take(Limit(q), Ranking(docs, q, now))
  }

  /**
   * The results are the first k of all unarchived, positively ranked documents in order of rank: no omitted match ranks
   * above a returned one.
   */
  lemma ResultsAreTopK(docs: seq<Doc>, q: Query, now: real)
    ensures var (all, k) := (Ranking(docs, q, now), if q.limit == 0 then 8 else q.limit);
      && Results(docs, q, now) <= all
      && |Results(docs, q, now)| == (if |all| <= k then |all| else k)
      && multiset(all) == multiset(Filter(docs, Matches(q, now)))
      && forall i, j :: 0 <= i < j < |all| ==> Rank(q, now)(all[j]) <= Rank(q, now)(all[i])
  {
    var all, key := Ranking(docs, q, now), Worst(q, now);
    SortSorts(Filter(docs, Matches(q, now)), key);
    forall i, j | 0 <= i < j < |all| ensures Rank(q, now)(all[j]) <= Rank(q, now)(all[i]) {
      assert key(all[i]) <= key(all[j]);
    }
  }

  /** Matches of equal rank stay in vault order. */
  lemma EqualRanksKeepVaultOrder(docs: seq<Doc>, q: Query, now: real, v: real)
    ensures Filter(Ranking(docs, q, now), WithKey(Worst(q, now), v))
         == Filter(Filter(docs, Matches(q, now)), WithKey(Worst(q, now), v))
  {
    SortIsStable(Filter(docs, Matches(q, now)), Worst(q, now), v);
  }

  // ---- archiving ----

  function Other(id: Id): Doc -> bool {
    (d: Doc) => d.id != id
  }

  function Archive(docs: seq<Doc>, id: Id): seq<Doc> {
    seq(|docs|, i requires 0 <= i < |docs| => if docs[i].id == id then docs[i].(archived := true) else docs[i])
  }

  lemma {:induction false} ArchivedDropOut(docs: seq<Doc>, id: Id, p: Doc -> bool)
    requires forall d: Doc :: p(d) ==> !d.archived
    ensures Filter(Archive(docs, id), p) == Filter(Filter(docs, p), Other(id))
  {
    if docs != [] {
      var front, last := docs[..|docs| - 1], docs[|docs| - 1];
      ArchivedDropOut(front, id, p);
      assert Archive(docs, id)[..|docs| - 1] == Archive(front, id);
      if p(last) {
        FilterOfLast(Filter(front, p), last, Other(id));
      }
    }
  }

  /** Archiving a document takes exactly that document out of every ranking and leaves the others in order. */
  lemma ArchivingRemovesFromRanking(docs: seq<Doc>, id: Id, q: Query, now: real)
    ensures Ranking(Archive(docs, id), q, now) == Filter(Ranking(docs, q, now), Other(id))
  {
    ArchivedDropOut(docs, id, Matches(q, now));
    SortCommutesWithFilter(Filter(docs, Matches(q, now)), Worst(q, now), Other(id));
  }

  // ---- bounds of the re-rank ----

  /** Nonnegative base confidence, and not updated in the future. */
  predicate Plausible(d: Doc, now: real) {
    d.baseConfidence >= 0.0 && d.updatedAt <= now
  }

  lemma MultiplierBounds(d: Doc, now: real)
    requires Plausible(d, now)
    ensures 0.74 <= Multiplier(d, now) <= 1.3
  {
    assert 0 <= Confidence(d) <= 100 && 20 <= Freshness(d, now) <= 100;
  }

  /** As doubtful and as outdated as can be. */
  predicate Poorest(d: Doc, now: real) {
    d.baseConfidence == 0.0 && !d.verified && d.uses == 0 && d.updatedAt == now - 40.0
  }

  /** As certain and as fresh as can be. */
  predicate Richest(d: Doc, now: real) {
    d.baseConfidence == 100.0 && d.updatedAt == now
  }

  lemma MultiplierExtremes(d: Doc, now: real)
    ensures Poorest(d, now) ==> Plausible(d, now) && Multiplier(d, now) == 0.74
    ensures Richest(d, now) ==> Plausible(d, now) && Multiplier(d, now) == 1.3
  {
    assert Poorest(d, now) ==> Confidence(d) == 0 && Freshness(d, now) == 20;
    assert Richest(d, now) ==> Confidence(d) == 100 && Freshness(d, now) == 100;
  }

  function Blank(baseConfidence: real, updatedAt: real): Doc {
    Doc("d", "d", [], [], {}, Body([], {}), "", "", false, false, 0, None, baseConfidence, updatedAt)
  }

  /**
   * A raw score a beats a raw score b under every confidence and freshness exactly when 37 a > 65 b, that is when it is
   * more than 1.3 / 0.74 times as large.
   */
  lemma RawGapDecides(a: real, b: real, now: real)
    requires a > 0.0 && b > 0.0
    ensures (forall d: Doc, e: Doc :: Plausible(d, now) && Plausible(e, now)
              ==> a * Multiplier(d, now) > b * Multiplier(e, now))
            <==> 37.0 * a > 65.0 * b
  {
    if 37.0 * a > 65.0 * b {
      forall d: Doc, e: Doc | Plausible(d, now) && Plausible(e, now)
        ensures a * Multiplier(d, now) > b * Multiplier(e, now)
      {
        GapWins(a, d, b, e, now);
      }
    } else {
      var d, e := Blank(0.0, now - 40.0), Blank(100.0, now);
      MultiplierExtremes(d, now);
      MultiplierExtremes(e, now);
      assert Plausible(d, now) && Plausible(e, now) && !(a * Multiplier(d, now) > b * Multiplier(e, now));
    }
  }

  lemma GapWins(a: real, d: Doc, b: real, e: Doc, now: real)
    requires a > 0.0 && b > 0.0 && 37.0 * a > 65.0 * b && Plausible(d, now) && Plausible(e, now)
    ensures a * Multiplier(d, now) > b * Multiplier(e, now)
  {
    MultiplierBounds(d, now);
    MultiplierBounds(e, now);
    ScaledGap(a, Multiplier(d, now), b, Multiplier(e, now));
  }

  lemma ScaledGap(a: real, m: real, b: real, n: real)
    requires a > 0.0 && b > 0.0 && 37.0 * a > 65.0 * b && 0.74 <= m && n <= 1.3
    ensures a * m > b * n
  {
    ProductsGrow(a, 0.74, m);
    ProductsGrow(b, n, 1.3);
  }


  /** The query's layer and category filters let the document through. */
  predicate Admits(q: Query, d: Doc) {
    (q.layer.Some? ==> d.layer == q.layer.value) && (q.category.Some? ==> d.category == q.category.value)
  }

  // ---- what is found at all ----

  predicate Weighted(terms: seq<Term>) {
    forall i :: 0 <= i < |terms| ==> terms[i].weight > 0.0
  }

  /** One of the words contains the other text or lies in it. */
  ghost predicate Meets(words: seq<string>, text: string) {
    exists w :: w in words && (Contains(w, text) || Contains(text, w))
  }

  lemma MeetsWhenOverlapping(words: seq<string>, text: string)
    ensures Overlaps(words, text) <==> Meets(words, text)
  {
    forall w ensures (Has(w, text) || Has(text, w)) <==> (Contains(w, text) || Contains(text, w)) {
      HasExactly(w, text);
      HasExactly(text, w);
    }
    if Overlaps(words, text) {
      var i :| 0 <= i < |words| && (Has(words[i], text) || Has(text, words[i]));
      assert words[i] in words;
    }
  }

  /** The term meets the title or the tags, or is a word of the body. */
  ghost predicate Mentions(d: Doc, text: string) {
    Meets(d.title, text) || Meets(d.tags, text) || text in d.body.words
  }

  lemma PointsExactly(d: Doc, t: Term)
    requires t.weight > 0.0
    ensures Points(d, t) >= 0.0 && (Points(d, t) > 0.0 <==> Mentions(d, t.word))
    ensures Points(d, t) == t.weight *
      (if Meets(d.title, t.word) then 3.0 else if Meets(d.tags, t.word) then 2.0
       else if t.word in d.body.words then 1.0 else 0.0)
  {
    MeetsWhenOverlapping(d.title, t.word);
    MeetsWhenOverlapping(d.tags, t.word);
  }

  lemma {:induction false} TotalExactly(d: Doc, terms: seq<Term>)
    requires Weighted(terms)
    ensures Total(d, terms) >= 0.0
    ensures Total(d, terms) > 0.0 <==> exists t :: t in terms && Mentions(d, t.word)
  {
    if terms != [] {
      var n := |terms| - 1;
      TotalExactly(d, terms[..n]);
      PointsExactly(d, terms[n]);
      assert terms == terms[..n] + [terms[n]];
    }
  }

  lemma RankIsPositive(d: Doc, q: Query, now: real)
    requires Plausible(d, now)
    ensures Rank(q, now)(d) > 0.0 <==> Raw(d, q) > 0.0
  {
    MultiplierBounds(d, now);
    if Raw(d, q) > 0.0 {
      ProductsGrow(Raw(d, q), 0.74, Multiplier(d, now));
    }
  }

  lemma ProductsGrow(a: real, m: real, n: real)
    requires a > 0.0 && m <= n
    ensures a * m <= a * n
  {
  }

  /**
   * A document is found exactly when it is in the vault, not archived, let through by the filters, and some term meets
   * its title or its tags or is a word of its body.
   */
  lemma FoundExactly(docs: seq<Doc>, q: Query, now: real, d: Doc)
    requires Weighted(q.terms) && Plausible(d, now)
    ensures d in Ranking(docs, q, now) <==>
      d in docs && !d.archived && Admits(q, d) && exists t :: t in q.terms && Mentions(d, t.word)
  {
    SortKeepsMembers(Filter(docs, Matches(q, now)), Worst(q, now));
    RankIsPositive(d, q, now);
    TotalExactly(d, q.terms);
  }

  // ---- what confidence and freshness are made of ----

  /** For a whole base, confidence adds 15 when verified and 3 for each of the first five uses, up to 100. */
  lemma ConfidenceExactly(d: Doc, base: int)
    requires d.baseConfidence == base as real
    ensures var sum := base + (if d.verified then 15 else 0) + 3 * (if d.uses <= 5 then d.uses else 5);
      Confidence(d) == if sum <= 100 then sum else 100
  {
  }

  /** Freshness is 100 on the day of the update, 2 less each day, and never below 20. */
  lemma FreshnessExactly(d: Doc, now: real, days: nat)
    requires now - d.updatedAt == days as real
    ensures Freshness(d, now) == if days <= 40 then 100 - 2 * days else 20
  {
  }

  // ---- retrieval feeds back into confidence ----

  lemma RoundShifts(x: real, n: int)
    ensures Round(x + n as real) == Round(x) + n
  {
  }

  lemma UsesRaiseConfidenceALittle(d: Doc, more: nat)
    ensures Confidence(d) <= Confidence(d.(uses := d.uses + more)) <= Confidence(d) + 15
  {
    var x := d.baseConfidence + (if d.verified then 15.0 else 0.0);
    RoundShifts(x, UseBonus(d.uses));
    RoundShifts(x, UseBonus(d.uses + more));
  }

  function Ids(docs: seq<Doc>): set<Id> {
    set d | d in docs :: d.id
  }

  /** retrieve: search without filters, three hits unless told otherwise, and count one use for each. */
  method RetrieveFrom(v: Vault, terms: seq<Term>, n: nat, now: real) returns (hits: seq<Doc>)
    modifies v
    ensures hits == Results(old(v.docs), Query(terms, None, None, if n == 0 then 3 else n), now)
    ensures v.Model() == Step(old(v.Model()), Retrieve(Ids(hits), now))
  {
    hits := Results(v.docs, Query(terms, None, None, if n == 0 then 3 else n), now);
    v.MarkUsed(Ids(hits), now);
  }

  /** A retrieval: what it hit, and when. */
  datatype Retrieval = Retrieval(hits: set<Id>, when: real)

  /** The vault after a series of retrievals. */
  function Retrieved(docs: seq<Doc>, rs: seq<Retrieval>): seq<Doc>
    decreases |rs|
  {
    if rs == [] then docs else Retrieved(Used(docs, rs[0].hits, rs[0].when), rs[1..])
  }

  function TimesHit(rs: seq<Retrieval>, id: Id): nat {
    if rs == [] then 0 else (if id in rs[0].hits then 1 else 0) + TimesHit(rs[1..], id)
  }

  /** The time of the latest hit, or what stood there before. */
  function LastHit(rs: seq<Retrieval>, id: Id, before: Option<real>): Option<real> {
    if rs == [] then before
    else
      var last := rs[|rs| - 1];
      if id in last.hits then Some(last.when) else LastHit(rs[..|rs| - 1], id, before)
  }

  lemma {:induction false} LastHitFromFirst(rs: seq<Retrieval>, id: Id, before: Option<real>)
    requires rs != []
    ensures LastHit(rs, id, before)
         == LastHit(rs[1..], id, if id in rs[0].hits then Some(rs[0].when) else before)
  {
    var front := rs[..|rs| - 1];
    if front != [] {
      LastHitFromFirst(front, id, before);
      assert rs[1..][..|rs| - 2] == front[1..];
    }
  }

  lemma {:induction false} RetrievalsCountHits(docs: seq<Doc>, rs: seq<Retrieval>, i: nat)
    requires i < |docs|
    ensures |Retrieved(docs, rs)| == |docs|
    ensures var d := docs[i];
      Retrieved(docs, rs)[i] ==
        d.(uses := d.uses + TimesHit(rs, d.id), lastUsedAt := LastHit(rs, d.id, d.lastUsedAt))
    decreases |rs|
  {
    if rs != [] {
      RetrievalsCountHits(Used(docs, rs[0].hits, rs[0].when), rs[1..], i);
      LastHitFromFirst(rs, docs[i].id, docs[i].lastUsedAt);
    }
  }

  /**
   * A series of retrievals changes nothing in a document but its uses, by exactly the times it was hit, and the time of
   * its last use; its confidence never falls, and all retrievals together raise it by at most 15.
   */
  lemma RetrievalRaisesConfidenceALittle(docs: seq<Doc>, rs: seq<Retrieval>, i: nat)
    requires i < |docs|
    ensures |Retrieved(docs, rs)| == |docs|
    ensures var (d, later) := (docs[i], Retrieved(docs, rs)[i]);
      && later == d.(uses := d.uses + TimesHit(rs, d.id), lastUsedAt := LastHit(rs, d.id, d.lastUsedAt))
      && Confidence(d) <= Confidence(later) <= Confidence(d) + 15
  {
    RetrievalsCountHits(docs, rs, i);
    UsesRaiseConfidenceALittle(docs[i], TimesHit(rs, docs[i].id));
  }
}
