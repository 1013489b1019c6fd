/** When a match in one place of a document outranks a match in another, whatever else is known of the two. */
module Thresholds {
  import opened Wrappers
  import opened Texts
  import opened Knowledge
  import opened Search

  /** Where a term is found, from the place that counts most. */
  datatype Place = InTitle | InTags | InBody

  predicate Found(d: Doc, word: string, p: Place) {
    match p
    case InTitle => Overlaps(d.title, word)
    case InTags => Overlaps(d.tags, word)
    case InBody => word in d.body.words
  }

  function Worth(p: Place): real {
    match p
    case InTitle => 3.0
    case InTags => 2.0
    case InBody => 1.0
  }

  /** No term is found in a place that counts more. */
  predicate NoneAbove(e: Doc, terms: seq<Term>, p: Place) {
    && (!p.InTitle? ==> forall i :: 0 <= i < |terms| ==> !Overlaps(e.title, terms[i].word))
    && (p.InBody? ==> forall i :: 0 <= i < |terms| ==> !Overlaps(e.tags, terms[i].word))
  }

  function Weight(terms: seq<Term>): real {
    if terms == [] then 0.0 else Weight(terms[..|terms| - 1]) + terms[|terms| - 1].weight
  }

  // ---- what a place earns ----

  lemma {:induction false} PlaceEarns(d: Doc, terms: seq<Term>, i: nat, p: Place)
    requires Weighted(terms) && i < |terms| && Found(d, terms[i].word, p)
    ensures Total(d, terms) >= Worth(p) * terms[i].weight
  {
    var n := |terms| - 1;
    if i < n {
      PlaceEarns(d, terms[..n], i, p);
      PointsExactly(d, terms[n]);
    } else {
      TotalExactly(d, terms[..n]);
    }
  }

  lemma {:induction false} PlaceEarnsAtMost(e: Doc, terms: seq<Term>, p: Place)
    requires Weighted(terms) && NoneAbove(e, terms, p)
    ensures Total(e, terms) <= Worth(p) * Weight(terms)
  {
    if terms != [] {
      var n := |terms| - 1;
      PlaceEarnsAtMost(e, terms[..n], p);
      assert Points(e, terms[n]) <= Worth(p) * terms[n].weight;
    }
  }

  // ---- a duel ----

  /** A document that the filters admit with this term in this place, and one with no term above the other place. */
  predicate Duel(q: Query, i: nat, high: Place, low: Place, d: Doc, e: Doc, now: real)
    requires i < |q.terms|
  {
    && Plausible(d, now) && Plausible(e, now) && Admits(q, d)
    && Found(d, q.terms[i].word, high) && NoneAbove(e, q.terms, low)
  }

  /** The first place wins every such duel. */
  ghost predicate Wins(q: Query, i: nat, high: Place, low: Place, now: real)
    requires i < |q.terms|
  {
    forall d: Doc, e: Doc :: Duel(q, i, high, low, d, e, now) ==> Rank(q, now)(d) > Rank(q, now)(e)
  }

  /** The weight of the term, scaled by the worst multiplier, is more than that of all terms, scaled by the best one. */
  predicate Heavy(q: Query, i: nat, high: Place, low: Place)
    requires i < |q.terms|
  {
    37.0 * Worth(high) * q.terms[i].weight > 65.0 * Worth(low) * Weight(q.terms)
  }

  lemma RankAtLeast(q: Query, d: Doc, now: real)
    requires Plausible(d, now) && Raw(d, q) > 0.0
    ensures Rank(q, now)(d) >= 0.74 * Raw(d, q)
  {
    MultiplierBounds(d, now);
    ProductsGrow(Raw(d, q), 0.74, Multiplier(d, now));
  }

  lemma RankAtMost(q: Query, e: Doc, now: real)
    requires Plausible(e, now)
    ensures Rank(q, now)(e) <= if Raw(e, q) > 0.0 then 1.3 * Raw(e, q) else 0.0
  {
    MultiplierBounds(e, now);
    if Raw(e, q) > 0.0 {
      ProductsGrow(Raw(e, q), Multiplier(e, now), 1.3);
    }
  }

  lemma RawGapRanks(q: Query, d: Doc, e: Doc, now: real)
    requires Plausible(d, now) && Plausible(e, now) && Raw(d, q) > 0.0 && 37.0 * Raw(d, q) > 65.0 * Raw(e, q)
    ensures Rank(q, now)(d) > Rank(q, now)(e)
  {
    RankAtLeast(q, d, now);
    RankAtMost(q, e, now);
  }

  lemma HeavyGap(a: real, b: real, x: real, y: real)
    requires x > 0.0 && 37.0 * x > 65.0 * y && a >= x && (b <= y || b == 0.0)
    ensures a > 0.0 && 37.0 * a > 65.0 * b
  {
  }

  lemma HeavyWins(q: Query, i: nat, high: Place, low: Place, d: Doc, e: Doc, now: real)
    requires i < |q.terms| && Weighted(q.terms) && Heavy(q, i, high, low) && Duel(q, i, high, low, d, e, now)
    ensures Rank(q, now)(d) > Rank(q, now)(e)
  {
    PlaceEarns(d, q.terms, i, high);
    PlaceEarnsAtMost(e, q.terms, low);
    HeavyGap(Raw(d, q), Raw(e, q), Worth(high) * q.terms[i].weight, Worth(low) * Weight(q.terms));
    RawGapRanks(q, d, e, now);
  }

  // ---- two documents that meet the bound ----

  /** This term neither contains another term of the query nor lies in one. */
  predicate StandsApart(terms: seq<Term>, i: nat)
    requires i < |terms|
  {
    forall j :: 0 <= j < |terms| && j != i ==> !Has(terms[i].word, terms[j].word) && !Has(terms[j].word, terms[i].word)
  }

  function AskedCategory(q: Query): string {
    if q.category.Some? then q.category.value else ""
  }

  function AskedLayer(q: Query): string {
    if q.layer.Some? then q.layer.value else ""
  }

  /** A document that the filters admit with these words in this place and nothing else. */
  function Bare(q: Query, words: seq<string>, p: Place, confidence: real, updatedAt: real): Doc {
    Doc("d", "d", if p.InTitle? then words else [], if p.InTags? then words else [], {},
        Body(if p.InBody? then words else [], {}), AskedCategory(q), AskedLayer(q), false, false, 0, None,
        confidence, updatedAt)
  }

  function Words(terms: seq<Term>): seq<string> {
    seq(|terms|, i requires 0 <= i < |terms| => terms[i].word)
  }

  lemma WordOverlapsItself(words: seq<string>, k: nat)
    requires k < |words|
    ensures Overlaps(words, words[k])
  {
    assert HasAt(words[k], words[k], 0) && Has(words[k], words[k]);
  }

  lemma BarePoints(q: Query, words: seq<string>, p: Place, confidence: real, updatedAt: real, t: Term)
    ensures var d := Bare(q, words, p, confidence, updatedAt);
      Points(d, t) == if Found(d, t.word, p) then Worth(p) * t.weight else 0.0
  {
  }

  lemma {:induction false} OneWordEarns(d: Doc, q: Query, i: nat, p: Place, n: nat, confidence: real, updatedAt: real)
    requires i < |q.terms| && n <= |q.terms| && StandsApart(q.terms, i)
    requires d == Bare(q, [q.terms[i].word], p, confidence, updatedAt)
    ensures Found(d, q.terms[i].word, p)
    ensures Total(d, q.terms[..n]) == if i < n then Worth(p) * q.terms[i].weight else 0.0
  {
    var word := q.terms[i].word;
    WordOverlapsItself([word], 0);
    assert [word][0] == word && word in [word];
    if n > 0 {
      var t := q.terms[n - 1];
      OneWordEarns(d, q, i, p, n - 1, confidence, updatedAt);
      assert q.terms[..n][..n - 1] == q.terms[..n - 1];
      BarePoints(q, [word], p, confidence, updatedAt, t);
      if n - 1 != i {
        OtherWordIsMissing(d, word, t.word, p);
      }
    }
  }

  lemma OtherWordIsMissing(d: Doc, word: string, other: string, p: Place)
    requires !Has(word, other) && !Has(other, word)
    requires d.title == (if p.InTitle? then [word] else []) && d.tags == (if p.InTags? then [word] else [])
    requires d.body.words == if p.InBody? then [word] else []
    ensures !Found(d, other, p)
  {
    if word == other {
      assert HasAt(word, other, 0);
    }
  }

  lemma {:induction false} AllWordsEarn(e: Doc, q: Query, p: Place, n: nat, confidence: real, updatedAt: real)
    requires n <= |q.terms| && e == Bare(q, Words(q.terms), p, confidence, updatedAt)
    ensures Total(e, q.terms[..n]) == Worth(p) * Weight(q.terms[..n])
  {
    if n > 0 {
      AllWordsEarn(e, q, p, n - 1, confidence, updatedAt);
      assert q.terms[..n][..n - 1] == q.terms[..n - 1];
      WordOverlapsItself(Words(q.terms), n - 1);
      assert Words(q.terms)[n - 1] == q.terms[n - 1].word;
      BarePoints(q, Words(q.terms), p, confidence, updatedAt, q.terms[n - 1]);
    }
  }

  lemma WorstOfOneWord(q: Query, i: nat, p: Place, now: real) returns (d: Doc)
    requires i < |q.terms| && Weighted(q.terms) && StandsApart(q.terms, i)
    ensures d == Bare(q, [q.terms[i].word], p, 0.0, now - 40.0)
    ensures Plausible(d, now) && Admits(q, d) && Found(d, q.terms[i].word, p)
    ensures Rank(q, now)(d) == 0.74 * (Worth(p) * q.terms[i].weight)
  {
    d := Bare(q, [q.terms[i].word], p, 0.0, now - 40.0);
    MultiplierExtremes(d, now);
    assert q.terms[..|q.terms|] == q.terms;
    OneWordEarns(d, q, i, p, |q.terms|, 0.0, now - 40.0);
    assert Raw(d, q) == Worth(p) * q.terms[i].weight;
  }

  lemma BestOfAllWords(q: Query, p: Place, now: real) returns (e: Doc)
    requires Weighted(q.terms)
    ensures e == Bare(q, Words(q.terms), p, 100.0, now)
    ensures Plausible(e, now) && NoneAbove(e, q.terms, p)
    ensures Rank(q, now)(e) == 1.3 * (Worth(p) * Weight(q.terms))
  {
    e := Bare(q, Words(q.terms), p, 100.0, now);
    MultiplierExtremes(e, now);
    assert q.terms[..|q.terms|] == q.terms;
    AllWordsEarn(e, q, p, |q.terms|, 100.0, now);
    TotalExactly(e, q.terms);
    assert Raw(e, q) == Worth(p) * Weight(q.terms);
  }

  // ---- the thresholds ----

  /** For a term that overlaps no other one, a place wins every duel exactly when the term is heavy enough. */
  lemma PlaceWinsExactly(q: Query, i: nat, high: Place, low: Place, now: real)
    requires i < |q.terms| && Weighted(q.terms) && StandsApart(q.terms, i)
    ensures Wins(q, i, high, low, now) <==> Heavy(q, i, high, low)
  {
    if Heavy(q, i, high, low) {
      forall d: Doc, e: Doc | Duel(q, i, high, low, d, e, now) ensures Rank(q, now)(d) > Rank(q, now)(e) {
        HeavyWins(q, i, high, low, d, e, now);
      }
    } else {
      LightMayLose(q, i, high, low, now);
    }
  }

  lemma LightMayLose(q: Query, i: nat, high: Place, low: Place, now: real)
    requires i < |q.terms| && Weighted(q.terms) && StandsApart(q.terms, i) && !Heavy(q, i, high, low)
    ensures !Wins(q, i, high, low, now)
  {
    var d := WorstOfOneWord(q, i, high, now);
    var e := BestOfAllWords(q, low, now);
    assert Duel(q, i, high, low, d, e, now) && !(Rank(q, now)(d) > Rank(q, now)(e));
  }

  /** A title match beats every match in bodies only exactly when its term has more than 65/111 of all weights. */
  lemma TitleBeatsBodyExactly(q: Query, i: nat, now: real)
    requires i < |q.terms| && Weighted(q.terms) && StandsApart(q.terms, i)
    ensures Wins(q, i, InTitle, InBody, now) <==> 111.0 * q.terms[i].weight > 65.0 * Weight(q.terms)
  {
    PlaceWinsExactly(q, i, InTitle, InBody, now);
  }

  /** A tag match beats every match in bodies only exactly when its term has more than 65/74 of all weights. */
  lemma TagBeatsBodyExactly(q: Query, i: nat, now: real)
    requires i < |q.terms| && Weighted(q.terms) && StandsApart(q.terms, i)
    ensures Wins(q, i, InTags, InBody, now) <==> 74.0 * q.terms[i].weight > 65.0 * Weight(q.terms)
  {
    PlaceWinsExactly(q, i, InTags, InBody, now);
  }

  lemma {:induction false} WeightOfOne(terms: seq<Term>, i: nat)
    requires Weighted(terms) && i < |terms|
    ensures Weight(terms) >= terms[i].weight
  {
    var n := |terms| - 1;
    if i < n {
      WeightOfOne(terms[..n], i);
    } else if n > 0 {
      WeightOfOne(terms[..n], 0);
    }
  }

  /**
   * A title match would have to carry more than 130/111 of all weights to beat every tag match, so it is never safe
   * from a fresher and more reliable document with the words in its tags, not even for a query of one word.
   */
  lemma TitleIsNeverSafeFromTags(q: Query, i: nat, now: real)
    requires i < |q.terms| && Weighted(q.terms) && StandsApart(q.terms, i)
    ensures Wins(q, i, InTitle, InTags, now) <==> 111.0 * q.terms[i].weight > 130.0 * Weight(q.terms)
    ensures !Wins(q, i, InTitle, InTags, now)
  {
    PlaceWinsExactly(q, i, InTitle, InTags, now);
    WeightOfOne(q.terms, i);
  }

  /** expand, for one word: the word with weight 1 and its synonyms with weight 0.6. */
  function Expanded(word: string, synonyms: seq<string>): seq<Term> {
    if synonyms == [] then [Term(word, 1.0)]
    else Expanded(word, synonyms[..|synonyms| - 1]) + [Term(synonyms[|synonyms| - 1], 0.6)]
  }

  lemma {:induction false} WeightOfExpanded(word: string, synonyms: seq<string>)
    ensures var terms := Expanded(word, synonyms);
      |terms| == |synonyms| + 1 && terms[0] == Term(word, 1.0) && Weighted(terms)
      && Weight(terms) == 1.0 + 0.6 * |synonyms| as real
  {
    var terms := Expanded(word, synonyms);
    if synonyms == [] {
      assert terms[..0] == [];
    } else {
      WeightOfExpanded(word, synonyms[..|synonyms| - 1]);
      assert terms[..|synonyms|] == Expanded(word, synonyms[..|synonyms| - 1]);
    }
  }

  /** So a title match on a one-word query is safe exactly when the word has at most one synonym. */
  lemma SynonymsOutweighTitleExactly(q: Query, word: string, synonyms: seq<string>, now: real)
    requires q.terms == Expanded(word, synonyms) && q.terms != [] && StandsApart(q.terms, 0)
    ensures Wins(q, 0, InTitle, InBody, now) <==> |synonyms| <= 1
  {
    WeightOfExpanded(word, synonyms);
    TitleBeatsBodyExactly(q, 0, now);
  }

  /** And a tag match on it exactly when the word has no synonym. */
  lemma SynonymsOutweighTagExactly(q: Query, word: string, synonyms: seq<string>, now: real)
    requires q.terms == Expanded(word, synonyms) && q.terms != [] && StandsApart(q.terms, 0)
    ensures Wins(q, 0, InTags, InBody, now) <==> synonyms == []
  {
    WeightOfExpanded(word, synonyms);
    TagBeatsBodyExactly(q, 0, now);
  }

  /**
   * For a query of one term, with or without filters, an admitted document with the term in its title always ranks
   * above one with it only in the body.
   */
  lemma TitleBeatsBody(q: Query, t: Term, d: Doc, e: Doc, now: real)
    requires q.terms == [t] && t.weight > 0.0 && Plausible(d, now) && Plausible(e, now) && Admits(q, d)
    requires Overlaps(d.title, t.word)
    requires !Overlaps(e.title, t.word) && !Overlaps(e.tags, t.word) && t.word in e.body.words
    ensures Rank(q, now)(d) > Rank(q, now)(e)
  {
    assert q.terms[..0] == [] && Weight(q.terms[..0]) == 0.0;
    HeavyWins(q, 0, InTitle, InBody, d, e, now);
  }

  /**
   * With two terms it need not: one title word (3 points) may lose to two body words (2 points) of a fresher and more
   * reliable document.
   */
  lemma TitleMayLoseToTwoBodyWords(now: real)
    ensures exists q: Query, d: Doc, e: Doc ::
      && |q.terms| == 2 && Plausible(d, now) && Plausible(e, now)
      && Overlaps(d.title, q.terms[0].word) && q.terms[0].weight == q.terms[1].weight == 1.0
      && e.title == [] && e.tags == [] && Rank(q, now)(d) < Rank(q, now)(e)
  {
    var q := Query([Term("a", 1.0), Term("b", 1.0)], None, None, 0);
    TwoLettersApart(q.terms);
    WeightOfTwo(q.terms[0], q.terms[1]);
    var d := WorstOfOneWord(q, 0, InTitle, now);
    var e := BestOfAllWords(q, InBody, now);
    assert |q.terms| == 2 && Overlaps(d.title, q.terms[0].word);
  }

  lemma TwoLettersApart(terms: seq<Term>)
    requires |terms| == 2 && terms[0].word == "a" && terms[1].word == "b"
    ensures StandsApart(terms, 0)
  {
    assert "a"[0..1][0] == 'a' && "b"[0..1][0] == 'b';
    assert !HasAt("a", "b", 0) && !HasAt("b", "a", 0);
  }

  lemma WeightOfTwo(s: Term, t: Term)
    ensures Weight([s, t]) == s.weight + t.weight
  {
    assert [s, t][..1] == [s] && [s][..0] == [];
    assert Weight([s]) == Weight([]) + s.weight;
  }
}
