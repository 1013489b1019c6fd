/** What importing documents of other nodes makes of a vault. */
module KnowledgeSync {
  import opened Wrappers
  import opened Knowledge

  // ---- one title ----

  /** The document at this position is the one that incoming documents of its title are compared with. */
  predicate Leading(docs: seq<Doc>, i: nat) {
    i < |docs| && NameIndex(docs, docs[i].name) == i
  }

  function Overwritten(d: Doc, x: Incoming, now: real): Doc {
    d.(body := x.doc.body, baseConfidence := x.Confidence(), updatedAt := now)
  }

  lemma {:induction false} NameIndexIs(docs: seq<Doc>, name: string, i: nat)
    requires i < |docs| && docs[i].name == name && forall j :: 0 <= j < i ==> docs[j].name != name
    ensures NameIndex(docs, name) == i
  {
  }

  lemma LeadingStays(docs: seq<Doc>, x: Incoming, now: real, i: nat)
    requires Leading(docs, i)
    ensures var t := Receive(docs, x, now);
      && Leading(t, i)
      && t[i] == (if x.doc.name == docs[i].name && x.Beats(docs[i]) then Overwritten(docs[i], x, now) else docs[i])
  {
    var t := Receive(docs, x, now);
    NameIndexIs(t, t[i].name, i);
  }

  /** Some incoming document of this title beats d. */
  ghost predicate Beaten(d: Doc, xs: seq<Incoming>) {
    exists x :: x in xs && x.doc.name == d.name && x.Beats(d)
  }

  ghost predicate NoneMoreConfident(d: Doc, xs: seq<Incoming>) {
    forall x :: x in xs && x.doc.name == d.name ==> x.Confidence() <= d.baseConfidence
  }

  lemma {:induction false} BeatenByRest(d: Doc, xs: seq<Incoming>)
    requires xs != []
    ensures Beaten(d, xs) <==> (xs[0].doc.name == d.name && xs[0].Beats(d)) || Beaten(d, xs[1..])
  {
    assert xs == [xs[0]] + xs[1..];
  }

  lemma {:induction false} NoneMoreConfidentJoins(d: Doc, xs: seq<Incoming>)
    requires xs != [] && NoneMoreConfident(d, xs[1..])
    requires xs[0].doc.name == d.name ==> xs[0].Confidence() <= d.baseConfidence
    ensures NoneMoreConfident(d, xs)
  {
    assert xs == [xs[0]] + xs[1..];
  }

  /**
   * The document of a title ends with the highest confidence that it had or that came in. It stays as it is unless an
   * incoming document of its title beats it; then it takes body and confidence from one of them.
   */
  lemma {:induction false} ImportTakesTheBest(docs: seq<Doc>, xs: seq<Incoming>, now: real, i: nat)
    requires Leading(docs, i)
    ensures var t := ReceiveAll(docs, xs, now);
      && Leading(t, i) && NoneMoreConfident(t[i], xs) && docs[i].baseConfidence <= t[i].baseConfidence
      && (!Beaten(docs[i], xs) ==> t[i] == docs[i])
      && (Beaten(docs[i], xs) ==>
            exists x :: x in xs && x.doc.name == docs[i].name && t[i] == Overwritten(docs[i], x, now))
    decreases |xs|
  {
    if xs != [] {
      var x, rest := xs[0], xs[1..];
      var mid, t := Receive(docs, x, now), ReceiveAll(docs, xs, now);
      LeadingStays(docs, x, now, i);
      ImportTakesTheBest(mid, rest, now, i);
      BeatenByRest(docs[i], xs);
      NoneMoreConfidentJoins(t[i], xs);
      if Beaten(docs[i], xs) {
        if Beaten(mid[i], rest) {
          var y :| y in rest && y.doc.name == mid[i].name && t[i] == Overwritten(mid[i], y, now);
          assert y in xs && t[i] == Overwritten(docs[i], y, now);
        } else {
          assert x in xs && t[i] == Overwritten(docs[i], x, now);
        }
      }
    }
  }

  /**
   * Of two equally confident versions in one payload, the older one first, the newer one should be taken when it beats
   * what is here. It is exactly when the older one does not beat it too, and for an unknown title exactly when the
   * older one carries a time stamp: a version that was taken counts as written at the time of the import.
   */
  lemma TieTakesNewerExactly(docs: seq<Doc>, a: Incoming, b: Incoming, now: real)
    requires a.doc.name == b.doc.name && a.doc.body != b.doc.body
    requires a.Confidence() == b.Confidence() && a.Stamp() < b.Stamp() <= now
    requires var i := NameIndex(docs, a.doc.name); i < |docs| ==> b.Beats(docs[i])
    ensures var (i, t) := (NameIndex(docs, a.doc.name), ReceiveAll(docs, [a, b], now));
      && i < |t| && t[i].name == a.doc.name
      && (t[i].body == b.doc.body <==> if i < |docs| then !a.Beats(docs[i]) else a.stamp.Some?)
  {
    var i, mid := NameIndex(docs, a.doc.name), Receive(docs, a, now);
    var one := [b];
    assert [a, b][1..] == one && one[1..] == [];
    assert ReceiveAll(mid, one, now) == Receive(mid, b, now);
    NameIndexIs(mid, a.doc.name, i);
  }

  // ---- when an import changes nothing ----

  /** A document of this title is here, and the incoming one does not beat it. */
  predicate Settled(docs: seq<Doc>, x: Incoming) {
    var i := NameIndex(docs, x.doc.name);
    i < |docs| && !x.Beats(docs[i])
  }

  ghost predicate AllSettled(docs: seq<Doc>, xs: seq<Incoming>) {
    forall x :: x in xs ==> Settled(docs, x)
  }

  /** None of these documents was written in the future. */
  ghost predicate NoneAhead(xs: seq<Incoming>, now: real) {
    forall x :: x in xs ==> x.Stamp() <= now
  }

  lemma {:induction false} SettledChangeNothing(docs: seq<Doc>, xs: seq<Incoming>, now: real)
    requires AllSettled(docs, xs)
    ensures ReceiveAll(docs, xs, now) == docs
    decreases |xs|
  {
    if xs != [] {
      assert xs[0] in xs;
      SettledChangeNothing(docs, xs[1..], now);
    }
  }

  lemma {:induction false} ImportsKeepOrGrow(docs: seq<Doc>, xs: seq<Incoming>, now: real)
    ensures |docs| <= |ReceiveAll(docs, xs, now)|
    ensures (exists x :: x in xs && NameIndex(docs, x.doc.name) == |docs|) ==> |docs| < |ReceiveAll(docs, xs, now)|
    decreases |xs|
  {
    if xs != [] {
      var mid := Receive(docs, xs[0], now);
      ImportsKeepOrGrow(mid, xs[1..], now);
      if |mid| == |docs| && exists x :: x in xs && NameIndex(docs, x.doc.name) == |docs| {
        var x :| x in xs && NameIndex(docs, x.doc.name) == |docs|;
        assert x in xs[1..] && forall j :: 0 <= j < |docs| ==> mid[j].name == docs[j].name;
        assert NameIndex(mid, x.doc.name) == |mid|;
      }
    }
  }

  /** An import changes nothing exactly when every document in it is known here by title and beats nothing. */
  lemma {:induction false} ImportChangesNothingExactly(docs: seq<Doc>, xs: seq<Incoming>, now: real)
    requires NoneAhead(xs, now)
    ensures ReceiveAll(docs, xs, now) == docs <==> AllSettled(docs, xs)
  {
    if AllSettled(docs, xs) {
      SettledChangeNothing(docs, xs, now);
    } else {
      var x :| x in xs && !Settled(docs, x);
      var i := NameIndex(docs, x.doc.name);
      ImportsKeepOrGrow(docs, xs, now);
      if i < |docs| {
        ImportTakesTheBest(docs, xs, now, i);
        assert Beaten(docs[i], xs);
      }
    }
  }

  // ---- importing twice ----

  lemma ReceivedIsSettled(docs: seq<Doc>, x: Incoming, now: real)
    requires x.Stamp() <= now
    ensures Settled(Receive(docs, x, now), x)
  {
    var i, t := NameIndex(docs, x.doc.name), Receive(docs, x, now);
    NameIndexIs(t, x.doc.name, i);
  }

  lemma SettledStays(docs: seq<Doc>, x: Incoming, y: Incoming, now: real)
    requires Settled(docs, x) && x.Stamp() <= now
    ensures Settled(Receive(docs, y, now), x)
  {
    var i := NameIndex(docs, x.doc.name);
    LeadingStays(docs, y, now, i);
  }

  lemma {:induction false} SettledStaysThroughout(docs: seq<Doc>, x: Incoming, ys: seq<Incoming>, now: real)
    requires Settled(docs, x) && x.Stamp() <= now
    ensures Settled(ReceiveAll(docs, ys, now), x)
    decreases |ys|
  {
    if ys != [] {
      SettledStays(docs, x, ys[0], now);
      SettledStaysThroughout(Receive(docs, ys[0], now), x, ys[1..], now);
    }
  }

  lemma {:induction false} ImportSettlesAll(docs: seq<Doc>, xs: seq<Incoming>, now: real)
    requires NoneAhead(xs, now)
    ensures AllSettled(ReceiveAll(docs, xs, now), xs)
    decreases |xs|
  {
    if xs != [] {
      var mid := Receive(docs, xs[0], now);
      assert xs[0] in xs;
      ReceivedIsSettled(docs, xs[0], now);
      SettledStaysThroughout(mid, xs[0], xs[1..], now);
      ImportSettlesAll(mid, xs[1..], now);
      assert xs == [xs[0]] + xs[1..];
    }
  }

  /** The same payload imported again, at any time, changes nothing more. */
  lemma {:induction false} SecondImportChangesNothing(docs: seq<Doc>, xs: seq<Incoming>, now: real, again: real)
    requires NoneAhead(xs, now)
    ensures ReceiveAll(ReceiveAll(docs, xs, now), xs, again) == ReceiveAll(docs, xs, now)
  {
    ImportSettlesAll(docs, xs, now);
    SettledChangeNothing(ReceiveAll(docs, xs, now), xs, again);
  }

  // ---- export and import ----

  /** The payload of an export; ids are those a receiving node would give. */
  function Export(docs: seq<Doc>, ids: nat -> Id): seq<Incoming> {
    seq(|docs|, i requires 0 <= i < |docs| =>
      Incoming(docs[i].(id := ids(i)), Some(docs[i].baseConfidence), Some(docs[i].updatedAt)))
  }

  function Renamed(docs: seq<Doc>, ids: nat -> Id): seq<Doc> {
    seq(|docs|, i requires 0 <= i < |docs| => docs[i].(id := ids(i)))
  }

  ghost predicate TitlesDiffer(docs: seq<Doc>) {
    forall i, j :: 0 <= i < j < |docs| ==> docs[i].name != docs[j].name
  }

  /** This document is no better version of the first one with its title. */
  predicate FirstIsAsGood(docs: seq<Doc>, d: Doc) {
    var i := NameIndex(docs, d.name);
    i < |docs| &&
    (d.baseConfidence < docs[i].baseConfidence
     || (d.baseConfidence == docs[i].baseConfidence && d.updatedAt <= docs[i].updatedAt))
  }

  ghost predicate FirstIsBest(docs: seq<Doc>) {
    forall d :: d in docs ==> FirstIsAsGood(docs, d)
  }

  lemma ExportAt(docs: seq<Doc>, ids: nat -> Id, j: nat)
    requires j < |docs|
    ensures var x := Export(docs, ids)[j];
      x.Stamp() == docs[j].updatedAt && (Settled(docs, x) <==> FirstIsAsGood(docs, docs[j]))
  {
  }

  lemma {:induction false} ExportSettles(docs: seq<Doc>, ids: nat -> Id)
    ensures AllSettled(docs, Export(docs, ids)) <==> FirstIsBest(docs)
  {
    var xs := Export(docs, ids);
    if FirstIsBest(docs) {
      forall x | x in xs ensures Settled(docs, x) {
        var j :| 0 <= j < |xs| && xs[j] == x;
        assert docs[j] in docs;
        ExportAt(docs, ids, j);
      }
    }
    if AllSettled(docs, xs) {
      forall d | d in docs ensures FirstIsAsGood(docs, d) {
        var j :| 0 <= j < |docs| && docs[j] == d;
        assert xs[j] in xs;
        ExportAt(docs, ids, j);
      }
    }
  }

  /** A vault that imports its own export stays as it is exactly when no title has a better version further on. */
  lemma {:induction false} OwnExportChangesNothingExactly(docs: seq<Doc>, ids: nat -> Id, now: real)
    requires forall d :: d in docs ==> d.updatedAt <= now
    ensures ReceiveAll(docs, Export(docs, ids), now) == docs <==> FirstIsBest(docs)
  {
    var xs := Export(docs, ids);
    forall x | x in xs ensures x.Stamp() <= now {
      var j :| 0 <= j < |xs| && xs[j] == x;
      assert docs[j] in docs;
      ExportAt(docs, ids, j);
    }
    ImportChangesNothingExactly(docs, xs, now);
    ExportSettles(docs, ids);
  }

  lemma {:induction false} ImportKeepsTitlesApart(docs: seq<Doc>, xs: seq<Incoming>, now: real)
    requires TitlesDiffer(docs)
    ensures TitlesDiffer(ReceiveAll(docs, xs, now))
    decreases |xs|
  {
    if xs != [] {
      ImportKeepsTitlesApart(Receive(docs, xs[0], now), xs[1..], now);
    }
  }

  lemma {:induction false} ReceiveNew(docs: seq<Doc>, x: Incoming, now: real)
    requires forall i :: 0 <= i < |docs| ==> docs[i].name != x.doc.name
    ensures Receive(docs, x, now) == docs + [x.Copy(now)]
  {
  }

  lemma {:induction false} ReceiveFrom(docs: seq<Doc>, ids: nat -> Id, now: real, k: nat)
    requires TitlesDiffer(docs) && k <= |docs|
    ensures ReceiveAll(Renamed(docs, ids)[..k], Export(docs, ids)[k..], now) == Renamed(docs, ids)
    decreases |docs| - k
  {
    var xs, all := Export(docs, ids), Renamed(docs, ids);
    if k < |docs| {
      ReceiveNew(all[..k], xs[k], now);
      assert all[..k] + [xs[k].Copy(now)] == all[..k + 1] && xs[k..][1..] == xs[k + 1..];
      ReceiveFrom(docs, ids, now, k + 1);
    } else {
      assert all[..k] == all && xs[k..] == [];
    }
  }

  /** An empty node that imports an export holds the same documents, under its own ids, exactly when titles differ. */
  lemma {:induction false} ExportImportExactly(docs: seq<Doc>, ids: nat -> Id, now: real)
    ensures ReceiveAll([], Export(docs, ids), now) == Renamed(docs, ids) <==> TitlesDiffer(docs)
  {
    ImportKeepsTitlesApart([], Export(docs, ids), now);
    if TitlesDiffer(docs) {
      ReceiveFrom(docs, ids, now, 0);
      assert Renamed(docs, ids)[..0] == [] && Export(docs, ids)[0..] == Export(docs, ids);
    } else if ReceiveAll([], Export(docs, ids), now) == Renamed(docs, ids) {
      forall i, j | 0 <= i < j < |docs| ensures docs[i].name != docs[j].name {
        assert Renamed(docs, ids)[i].name == docs[i].name && Renamed(docs, ids)[j].name == docs[j].name;
      }
    }
  }
}
