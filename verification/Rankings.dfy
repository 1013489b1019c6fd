/** Which catalogs have only finite cascades: those whose listeners never lead a kind of event back to itself. */
module Rankings {
  import opened Wrappers
  import opened Sequences
  import opened Extensions
  import opened EventBus

  // ---- chains of a relation ----

  type Link = (string, string) -> bool

  /** Each kind of the path leads to the next. */
  ghost predicate Chain(rel: Link, path: seq<string>) {
    |path| >= 2 && forall i :: 0 <= i < |path| - 1 ==> rel(path[i], path[i + 1])
  }

  ghost predicate Leads(rel: Link, path: seq<string>, a: string, b: string) {
    Chain(rel, path) && path[0] == a && path[|path| - 1] == b
  }

  ghost predicate Reaches(rel: Link, a: string, b: string) {
    exists path :: Leads(rel, path, a, b)
  }

  ghost predicate Acyclic(rel: Link) {
    forall a :: !Reaches(rel, a, a)
  }

  lemma OneLink(rel: Link, a: string, b: string)
    requires rel(a, b)
    ensures Reaches(rel, a, b)
  {
    assert Leads(rel, [a, b], a, b);
  }

  lemma OneMoreLink(rel: Link, a: string, b: string, c: string)
    requires rel(a, b) && Reaches(rel, b, c)
    ensures Reaches(rel, a, c)
  {
    var path :| Leads(rel, path, b, c);
    var longer := [a] + path;
    forall i | 0 <= i < |longer| - 1 ensures rel(longer[i], longer[i + 1]) {
      if i > 0 {
        assert longer[i] == path[i - 1] && longer[i + 1] == path[i];
      }
    }
    assert Leads(rel, longer, a, c);
  }

  /** The kinds of S that a kind leads to, directly or not. */
  ghost function Below(rel: Link, S: set<string>, a: string): set<string> {
    set x | x in S && Reaches(rel, a, x)
  }

  lemma {:induction false} ProperSubsetIsSmaller(a: set<string>, b: set<string>)
    requires a < b
    ensures |a| < |b|
  {
    var x :| x in b && x !in a;
    SubsetSize(a, b - {x});
  }

  lemma BelowShrinks(rel: Link, S: set<string>, a: string, b: string)
    requires Acyclic(rel) && rel(a, b) && b in S
    ensures |Below(rel, S, b)| < |Below(rel, S, a)|
  {
    OneLink(rel, a, b);
    forall x | x in Below(rel, S, b) ensures x in Below(rel, S, a) {
      OneMoreLink(rel, a, b, x);
    }
    assert b in Below(rel, S, a) && b !in Below(rel, S, b);
    ProperSubsetIsSmaller(Below(rel, S, b), Below(rel, S, a));
  }

  lemma {:induction false} ChainDescends(rel: Link, rank: string -> nat, path: seq<string>, n: nat)
    requires Chain(rel, path) && 0 < n < |path| && forall a, b :: rel(a, b) ==> rank(b) < rank(a)
    ensures rank(path[n]) < rank(path[0])
  {
    assert rel(path[n - 1], path[n]);
    if n > 1 {
      ChainDescends(rel, rank, path, n - 1);
    }
  }

  // ---- the kinds that listeners raise ----

  /** A listener of an event of kind a may raise an event of kind b. */
  ghost predicate KindRaises(cat: Catalog, state: State, tap: Tap, react: Reaction, a: string, b: string) {
    exists id, name, ev, at, c, e ::
      RaisesAt(cat, state, tap, react, id, name, ev, at, c, e) && ev.kind == a && e.kind == b
  }

  ghost predicate RaisesAt(
      cat: Catalog, state: State, tap: Tap, react: Reaction,
      id: Id, name: string, ev: Event, at: nat, c: Call, e: Event)
  {
    name in tap(ev) && Hears(cat, state, id, name) && c in react(id, name, ev, at) && c.Call? && e in c.raises
  }

  ghost function KindsOf(cat: Catalog, state: State, tap: Tap, react: Reaction): Link {
    (a, b) => KindRaises(cat, state, tap, react, a, b)
  }

  lemma RankedDescends(cat: Catalog, state: State, tap: Tap, react: Reaction, rank: string -> nat)
    ensures Env(cat, state, tap, react, rank).Ranked()
         <==> forall a, b :: KindRaises(cat, state, tap, react, a, b) ==> rank(b) < rank(a)
  {
    var env := Env(cat, state, tap, react, rank);
    if env.Ranked() {
      forall a, b | KindRaises(cat, state, tap, react, a, b) ensures rank(b) < rank(a) {
        var id, name, ev, at, c, e :|
          RaisesAt(cat, state, tap, react, id, name, ev, at, c, e) && ev.kind == a && e.kind == b;
        assert env.CallsBelow(env.react(id, name, ev, at), rank(ev.kind));
      }
    }
    if forall a, b :: KindRaises(cat, state, tap, react, a, b) ==> rank(b) < rank(a) {
      forall id, name, ev, at | name in tap(ev) && Hears(cat, state, id, name)
        ensures env.CallsBelow(env.react(id, name, ev, at), rank(ev.kind))
      {
        forall c, e | c in env.react(id, name, ev, at) && c.Call? && e in c.raises
          ensures rank(e.kind) < rank(ev.kind)
        {
          assert RaisesAt(cat, state, tap, react, id, name, ev, at, c, e);
          assert KindRaises(cat, state, tap, react, ev.kind, e.kind);
        }
      }
    }
  }

  /**
   * When the listeners of a catalog raise finitely many kinds of events, a ranking that makes every cascade finite
   * exists exactly when no kind leads back to itself.
   */
  lemma RankingExistsExactly(cat: Catalog, state: State, tap: Tap, react: Reaction, S: set<string>)
    requires forall a, b :: KindRaises(cat, state, tap, react, a, b) ==> b in S
    ensures (exists rank: string -> nat :: Env(cat, state, tap, react, rank).Ranked())
       <==> Acyclic(KindsOf(cat, state, tap, react))
  {
    var rel := KindsOf(cat, state, tap, react);
    if rank: string -> nat :| Env(cat, state, tap, react, rank).Ranked() {
      RankedDescends(cat, state, tap, react, rank);
      forall a ensures !Reaches(rel, a, a) {
        if path :| Leads(rel, path, a, a) {
          ChainDescends(rel, rank, path, |path| - 1);
        }
      }
    }
    if Acyclic(rel) {
      var rank: string -> nat := k => |Below(rel, S, k)|;
      forall a, b | KindRaises(cat, state, tap, react, a, b) ensures rank(b) < rank(a) {
        BelowShrinks(rel, S, a, b);
      }
      RankedDescends(cat, state, tap, react, rank);
    }
  }

  // ---- the shipped catalog ----

  /**
   * What the shipped listeners do. Whether the ledger guard fires, and every generated text, is left open: crm-pulse
   * only writes its log, ledger-guard emits, mission-narrator stores a document.
   */
  function ShippedReaction(alarm: (Event, nat) -> bool, text: Event -> string): Reaction {
    (id: Id, name: string, ev: Event, at: nat) =>
      if id == "ledger-guard" && name == "core:org" && alarm(ev, at) then
        [Call(None, [Event("extension", text(ev))])]
      else if id == "mission-narrator" && name == "MissionCompleted" then
        [Call(Some("Store Knowledge"), [Event("knowledge", text(ev))])]
      else []
  }

  function ShippedRank(kind: string): nat {
    if kind == "org" || kind == "mission" then 1 else 0
  }

  lemma CoreNameTellsKind(ev: Event, name: string)
    requires name in PublishedNames(ev)
    ensures name == "core:org" ==> ev.kind == "org"
    ensures name == "MissionCompleted" ==> ev.kind == "mission"
  {
    var core := "core:" + ev.kind;
    assert core[0] == 'c' && core[5..] == ev.kind;
    assert "MissionCompleted"[0] == 'M';
    assert name != core ==> name[0] != 'c';
    assert "core:org"[5..] == "org" && "core:org"[0] == 'c';
  }

  /**
   * Every cascade of the shipped catalog is finite: its listeners only lead from org and mission events to other kinds.
   */
  lemma ShippedCatalogIsRanked(cat: Catalog, state: State, alarm: (Event, nat) -> bool, text: Event -> string)
    ensures Env(cat, state, PublishedNames, ShippedReaction(alarm, text), ShippedRank).Ranked()
  {
    var env := Env(cat, state, PublishedNames, ShippedReaction(alarm, text), ShippedRank);
    forall id, name, ev, at | name in env.tap(ev) && Hears(cat, state, id, name)
      ensures env.CallsBelow(env.react(id, name, ev, at), env.rank(ev.kind))
    {
      CoreNameTellsKind(ev, name);
    }
  }
}
