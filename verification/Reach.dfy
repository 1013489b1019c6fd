/** Whom an event reaches, told beforehand from what the listeners do. */
module Reach {
  import opened Wrappers
  import opened Sequences
  import opened Versions
  import opened Extensions
  import opened EventBus
  import opened Traces
  import opened Cascades
  import ExtensionRuns

  /** Some reaction of the listener throws what cannot be read. */
  ghost predicate MayBreak(env: Env, id: Id, name: string, ev: Event) {
    exists at: nat :: Breaks(env, id, name, ev, at)
  }

  /** Every reaction of the listener does. */
  ghost predicate AlwaysBreaks(env: Env, id: Id, name: string, ev: Event) {
    forall at: nat :: Breaks(env, id, name, ev, at)
  }

  /** Whether the listener throws what cannot be read does not depend on what has happened before. */
  ghost predicate Steady(env: Env, id: Id, name: string, ev: Event) {
    MayBreak(env, id, name, ev) ==> AlwaysBreaks(env, id, name, ev)
  }

  // ---- every delivery is a reaction ----

  /** This delivery is to a subscriber of the name, and ends as some reaction of the listener ends. */
  ghost predicate IsReaction(env: Env, ev: Event, o: Obs) {
    && o.Delivered? && o.ext in Subscribers(env.cat, env.state, o.name)
    && (Unreadable(o) ==> MayBreak(env, o.ext, o.name, ev))
    && (!Unreadable(o) ==> !AlwaysBreaks(env, o.ext, o.name, ev))
  }

  ghost predicate AllReactions(env: Env, ev: Event, ds: seq<Obs>) {
    forall d :: d in ds ==> IsReaction(env, ev, d)
  }

  lemma ReactionsJoin(env: Env, ev: Event, t: seq<Obs>, u: seq<Obs>, depth: nat)
    requires AllReactions(env, ev, DeliveredAt(t, depth)) && AllReactions(env, ev, DeliveredAt(u, depth))
    ensures AllReactions(env, ev, DeliveredAt(t + u, depth))
  {
    CollectAppends(t, u, DeliveryAt(depth));
  }

  lemma ListenerReacts(env: Env, id: Id, name: string, ev: Event, depth: nat, at: nat)
    requires env.Ranked() && name in env.tap(ev) && id in Subscribers(env.cat, env.state, name)
    ensures AllReactions(env, ev, DeliveredAt(ListenerTrace(env, id, name, ev, depth, at), depth))
  {
    var o := Delivered(id, name, env.EndOf(id, env.react(id, name, ev, at)), depth);
    ListenerDeliversOnce(env, id, name, ev, depth, at);
    assert Unreadable(o) <==> Breaks(env, id, name, ev, at);
    assert IsReaction(env, ev, o);
  }

  lemma {:induction false} DeliveriesReact(env: Env, exts: seq<Id>, name: string, ev: Event, depth: nat, at: nat)
    requires env.Ranked() && name in env.tap(ev) && AllHear(env, exts, name)
    requires forall x :: x in exts ==> x in Subscribers(env.cat, env.state, name)
    ensures AllReactions(env, ev, DeliveredAt(DeliverTrace(env, exts, name, ev, depth, at).obs, depth))
    decreases |exts|
  {
    if exts != [] {
      var first, rest, next := FirstListener(env, exts, name, ev, depth, at);
      ListenerReacts(env, exts[0], name, ev, depth, at);
      if !Breaks(env, exts[0], name, ev, at) {
        DeliveriesReact(env, exts[1..], name, ev, depth, next);
        ReactionsJoin(env, ev, first, rest.obs, depth);
      }
    }
  }

  lemma PublishReacts(env: Env, name: string, ev: Event, depth: nat, at: nat)
    requires env.Ranked() && name in env.tap(ev)
    ensures AllReactions(env, ev, DeliveredAt(PublishTrace(env, name, ev, depth, at).obs, depth))
  {
    var exts := Subscribers(env.cat, env.state, name);
    DeliveriesReact(env, exts, name, ev, depth, at + 1);
    NameDeliversNothing(name, depth, DeliverTrace(env, exts, name, ev, depth, at + 1).obs);
  }

  lemma {:induction false} NamesReact(env: Env, names: seq<string>, ev: Event, depth: nat, at: nat)
    requires env.Ranked() && AllTapped(env, names, ev)
    ensures AllReactions(env, ev, DeliveredAt(NamesTrace(env, names, ev, depth, at).obs, depth))
    decreases |names|
  {
    if names != [] {
      var first, rest, next := FirstName(env, names, ev, depth, at);
      PublishReacts(env, names[0], ev, depth, at);
      if !first.cut {
        NamesReact(env, names[1..], ev, depth, next);
        ReactionsJoin(env, ev, first.obs, rest.obs, depth);
      }
    }
  }

  // ---- one publish ----

  /** All but the last. */
  function Earlier<T>(s: seq<T>): seq<T> {
    if s == [] then [] else s[..|s| - 1]
  }

  lemma {:induction false} ReachFromReactions(
      env: Env, ds: seq<Obs>, subs: seq<Id>, name: string, ev: Event, cut: bool)
    requires DeliveredTo(ds, subs, name, cut) && AllReactions(env, ev, ds)
    ensures (forall x :: x in Earlier(subs) ==> !MayBreak(env, x, name, ev)) ==> |ds| == |subs|
    ensures (exists x :: x in Earlier(subs) && AlwaysBreaks(env, x, name, ev)) ==> |ds| < |subs|
  {
    if |ds| < |subs| {
      var last := |ds| - 1;
      assert ds[last] in ds && IsReaction(env, ev, ds[last]);
      assert subs[last] == Earlier(subs)[last];
    } else if x :| x in Earlier(subs) && AlwaysBreaks(env, x, name, ev) {
      var i :| 0 <= i < |subs| - 1 && subs[i] == x;
      assert ds[i] in ds && IsReaction(env, ev, ds[i]) && !Unreadable(ds[i]);
    }
  }

  /**
   * A publish reaches all its listeners when none before the last ever throws what cannot be read, and skips some when
   * one before the last always does.
   */
  lemma SafeListenersAreAllReached(env: Env, name: string, ev: Event, depth: nat, at: nat)
    requires env.Ranked() && name in env.tap(ev)
    ensures var (subs, ds) :=
        (Subscribers(env.cat, env.state, name), DeliveredAt(PublishTrace(env, name, ev, depth, at).obs, depth));
      && ((forall x :: x in Earlier(subs) ==> !MayBreak(env, x, name, ev)) ==> |ds| == |subs|)
      && ((exists x :: x in Earlier(subs) && AlwaysBreaks(env, x, name, ev)) ==> |ds| < |subs|)
  {
    var t := PublishTrace(env, name, ev, depth, at);
    PublishDelivers(env, name, ev, depth, at);
    PublishReacts(env, name, ev, depth, at);
    ReachFromReactions(
      env, DeliveredAt(t.obs, depth), Subscribers(env.cat, env.state, name), name, ev, t.cut);
  }

  /**
   * So when no listener's throw depends on the past, exactly the unreadable throws before the last one skip listeners.
   */
  lemma SteadyListenersAreReachedExactly(env: Env, name: string, ev: Event, depth: nat, at: nat)
    requires env.Ranked() && name in env.tap(ev)
    requires forall x :: x in Subscribers(env.cat, env.state, name) ==> Steady(env, x, name, ev)
    ensures var (subs, ds) :=
        (Subscribers(env.cat, env.state, name), DeliveredAt(PublishTrace(env, name, ev, depth, at).obs, depth));
      |ds| == |subs| <==> forall x :: x in Earlier(subs) ==> !Breaks(env, x, name, ev, 0)
  {
    SafeListenersAreAllReached(env, name, ev, depth, at);
    var subs := Subscribers(env.cat, env.state, name);
    forall x | x in Earlier(subs) ensures MayBreak(env, x, name, ev) <==> Breaks(env, x, name, ev, 0) {
      assert x in subs;
    }
  }

  // ---- the names of one event ----

  /** One of these deliveries is to x under this name. */
  ghost predicate IsServed(ds: seq<Obs>, x: Id, name: string) {
    exists d :: d in ds && d.Delivered? && d.ext == x && d.name == name
  }

  lemma {:induction false} FullPublishServes(exts: seq<Id>, ds: seq<Obs>, x: Id, name: string)
    requires DeliveredTo(ds, exts, name, false) && x in exts
    ensures IsServed(ds, x, name)
  {
    var i :| 0 <= i < |exts| && exts[i] == x;
    assert ds[i] in ds;
  }

  lemma {:induction false} ServedJoin(
      first: Stretch, rest: Stretch, exts: seq<Id>, names: seq<string>, depth: nat, x: Id, n: string)
    requires names != [] && OnePublish(first, exts, names[0], depth) && !first.cut
    requires if n == names[0] then x in exts else IsServed(DeliveredAt(rest.obs, depth), x, n)
    ensures IsServed(DeliveredAt(first.obs + rest.obs, depth), x, n)
  {
    CollectAppends(first.obs, rest.obs, DeliveryAt(depth));
    if n == names[0] {
      FullPublishServes(exts, DeliveredAt(first.obs, depth), x, n);
    }
  }

  lemma {:induction false} PublishedRest(
      first: Stretch, rest: Stretch, exts: seq<Id>, names: seq<string>, depth: nat)
    requires names != [] && OnePublish(first, exts, names[0], depth)
    ensures PublishedAt(first.obs + rest.obs, depth) == names ==> PublishedAt(rest.obs, depth) == names[1..]
  {
    CollectAppends(first.obs, rest.obs, NameAt(depth));
  }

  /** When all names are published, every subscriber of every name before the last has been served. */
  lemma {:induction false} EarlierNamesAreServed(
      env: Env, names: seq<string>, ev: Event, depth: nat, at: nat, x: Id, n: string)
    requires env.Ranked() && AllTapped(env, names, ev)
    requires PublishedAt(NamesTrace(env, names, ev, depth, at).obs, depth) == names
    requires n in Earlier(names) && x in Subscribers(env.cat, env.state, n)
    ensures IsServed(DeliveredAt(NamesTrace(env, names, ev, depth, at).obs, depth), x, n)
    decreases |names|
  {
    var first, rest, next := FirstName(env, names, ev, depth, at);
    var exts := Subscribers(env.cat, env.state, names[0]);
    PublishedRest(first, rest, exts, names, depth);
    if n != names[0] {
      assert n in Earlier(names[1..]);
      EarlierNamesAreServed(env, names[1..], ev, depth, next, x, n);
    }
    ServedJoin(first, rest, exts, names, depth, x, n);
  }

  /** No subscriber of these names may throw what cannot be read. */
  ghost predicate Safe(env: Env, ev: Event, names: seq<string>) {
    forall n, x :: n in names && x in Subscribers(env.cat, env.state, n) ==> !MayBreak(env, x, n, ev)
  }

  /** Some subscriber of these names always does. */
  ghost predicate Doomed(env: Env, ev: Event, names: seq<string>) {
    exists n, x :: n in names && x in Subscribers(env.cat, env.state, n) && AlwaysBreaks(env, x, n, ev)
  }

  lemma {:induction false} EarlierHasNotLast(names: seq<string>, n: string)
    requires Distinct(names) && names != [] && n in names
    ensures n in Earlier(names) <==> n != names[|names| - 1]
  {
    var last := |names| - 1;
    if n != names[last] {
      var i :| 0 <= i < |names| && names[i] == n;
      assert Earlier(names)[i] == n;
    }
  }

  lemma {:induction false} DoomShows(env: Env, ev: Event, ds: seq<Obs>, x: Id, n: string)
    requires AllReactions(env, ev, ds) && IsServed(ds, x, n) && AlwaysBreaks(env, x, n, ev)
    ensures exists i :: 0 <= i < |ds| && Unreadable(ds[i]) && ds[i].name == n
  {
    var d :| d in ds && d.Delivered? && d.ext == x && d.name == n;
    assert IsReaction(env, ev, d);
  }

  lemma {:induction false} SafetyShows(env: Env, ev: Event, ds: seq<Obs>, names: seq<string>)
    requires Distinct(names) && names != [] && AllReactions(env, ev, ds) && Safe(env, ev, Earlier(names))
    requires forall i :: 0 <= i < |ds| ==> ds[i].Delivered? && ds[i].name in names
    ensures forall i :: 0 <= i < |ds| && Unreadable(ds[i]) ==> ds[i].name == names[|names| - 1]
  {
    forall i | 0 <= i < |ds| && Unreadable(ds[i]) ensures ds[i].name == names[|names| - 1] {
      assert ds[i] in ds && IsReaction(env, ev, ds[i]);
      EarlierHasNotLast(names, ds[i].name);
    }
  }

  /**
   * A core event is published under all its names when no listener of a name before the last ever throws what cannot
   * be read, and some names are skipped when one of them always does.
   */
  lemma SafeNamesAreAllPublished(env: Env, ev: Event, depth: nat, at: nat)
    requires env.Ranked() && Distinct(env.tap(ev)) && env.tap(ev) != []
    ensures var (names, t) := (env.tap(ev), NamesTrace(env, env.tap(ev), ev, depth, at));
      && (Safe(env, ev, Earlier(names)) ==> PublishedAt(t.obs, depth) == names)
      && (Doomed(env, ev, Earlier(names)) ==> PublishedAt(t.obs, depth) != names)
  {
    var names, t := env.tap(ev), NamesTrace(env, env.tap(ev), ev, depth, at);
    var ds := DeliveredAt(t.obs, depth);
    NamesReact(env, names, ev, depth, at);
    EveryNameIsPublishedExactly(env, ev, depth, at);
    NamesInOrder(env, names, ev, depth, at);
    if Safe(env, ev, Earlier(names)) {
      SafetyShows(env, ev, ds, names);
    }
    if Doomed(env, ev, Earlier(names)) && PublishedAt(t.obs, depth) == names {
      var n, x :| n in Earlier(names) && x in Subscribers(env.cat, env.state, n) && AlwaysBreaks(env, x, n, ev);
      EarlierNamesAreServed(env, names, ev, depth, at, x, n);
      DoomShows(env, ev, ds, x, n);
      EarlierHasNotLast(names, n);
    }
  }

  /** So when no listener's throw depends on the past, exactly the unreadable throws before the last name skip names. */
  lemma SteadyNamesArePublishedExactly(env: Env, ev: Event, depth: nat, at: nat)
    requires env.Ranked() && Distinct(env.tap(ev)) && env.tap(ev) != []
    requires forall n, x :: x in Subscribers(env.cat, env.state, n) ==> Steady(env, x, n, ev)
    ensures PublishedAt(NamesTrace(env, env.tap(ev), ev, depth, at).obs, depth) == env.tap(ev)
         <==> forall n, x :: n in Earlier(env.tap(ev)) && x in Subscribers(env.cat, env.state, n)
                ==> !Breaks(env, x, n, ev, 0)
  {
    SafeNamesAreAllPublished(env, ev, depth, at);
  }

  // ---- everything a listener does is part of the cascade ----

  /** Whatever happened in u happened in t. */
  ghost predicate PartOf(u: seq<Obs>, t: seq<Obs>) {
    forall o :: o in u ==> o in t
  }

  lemma {:induction false} SafeDeliveryIncludes(
      env: Env, exts: seq<Id>, name: string, ev: Event, depth: nat, at: nat, x: Id) returns (when: nat)
    requires env.Ranked() && name in env.tap(ev) && AllHear(env, exts, name)
    requires forall y :: y in exts ==> !MayBreak(env, y, name, ev)
    ensures !DeliverTrace(env, exts, name, ev, depth, at).cut
    ensures x in exts ==>
      PartOf(ListenerTrace(env, x, name, ev, depth, when), DeliverTrace(env, exts, name, ev, depth, at).obs)
    decreases |exts|
  {
    when := at;
    if exts != [] {
      var first, rest, next := FirstListener(env, exts, name, ev, depth, at);
      assert exts[0] in exts && !Breaks(env, exts[0], name, ev, at);
      var later := SafeDeliveryIncludes(env, exts[1..], name, ev, depth, next, x);
      if x != exts[0] {
        when := later;
      }
    }
  }

  /** When no listener of an event may throw what cannot be read, all that each of them does is in the cascade. */
  lemma {:induction false} SafeNamesInclude(
      env: Env, names: seq<string>, ev: Event, depth: nat, at: nat, x: Id, n: string) returns (when: nat)
    requires env.Ranked() && AllTapped(env, names, ev) && Safe(env, ev, names)
    requires n in names && x in Subscribers(env.cat, env.state, n)
    ensures PartOf(ListenerTrace(env, x, n, ev, depth, when), NamesTrace(env, names, ev, depth, at).obs)
    decreases |names|
  {
    var exts := Subscribers(env.cat, env.state, names[0]);
    var first, rest, next := FirstName(env, names, ev, depth, at);
    assert names[0] in names;
    when := SafeDeliveryIncludes(env, exts, names[0], ev, depth, at + 1, x);
    if n != names[0] {
      when := SafeNamesInclude(env, names[1..], ev, depth, next, x, n);
    }
  }

  // ---- a throw that hides an event ----

  function Listening(id: Id): Manifest {
    Manifest(id, REQUIRED_FIELDS, [1, 0, 0], [1, 0, 0], Some([]), Some([]), Some([]), {"core:spawn", "WorkerCreated"})
  }

  const TwoListeners: Catalog := [Listening("a"), Listening("b")]

  function Ready(): Record {
    Record([1, 0, 0], true, true, [], true)
  }

  /** Both extensions are installed; neither asks for a permission, so neither waits for an approval. */
  lemma BothAreInstalled()
    ensures ExtensionRuns.Run(TwoListeners, Empty, [Install("a", None, InitRuns), Install("b", None, InitRuns)])
         == State(["a", "b"], map["a" := Ready(), "b" := Ready()])
  {
    var ops := [Install("a", None, InitRuns), Install("b", None, InitRuns)];
    assert ops[..1] == [ops[0]] && ops[..1][..0] == [];
    assert TwoListeners[1..][0] == Listening("b");
    var s := State(["a"], map["a" := Ready()]);
    assert ExtensionRuns.Run(TwoListeners, Empty, ops[..1]) == s;
  }

  /** Two active listeners of two names that always throw null. */
  ghost function Throwing(): Env {
    Env(TwoListeners,
        ExtensionRuns.Run(TwoListeners, Empty, [Install("a", None, InitRuns), Install("b", None, InitRuns)]),
        PublishedNames,
        (id: Id, name: string, ev: Event, at: nat) => [Throws(false)],
        (kind: string) => 0)
  }

  lemma SpawnNames(ev: Event)
    requires ev.kind == "spawn"
    ensures PublishedNames(ev) == ["core:spawn", "WorkerCreated"]
  {
    assert |"spawn"| != |"mission"| && |"spawn"| != |"runtime"|;
    assert "core:" + "spawn" == "core:spawn";
    assert OtherNames(ev) == ["WorkerCreated"];
  }

  /** The first listener's throw keeps the second from hearing the event, and the second name from being published. */
  lemma OneThrowHidesTheEvent()
    ensures var (env, ev) := (Throwing(), Event("spawn", ""));
      && env.Ranked()
      && env.tap(ev) == ["core:spawn", "WorkerCreated"]
      && Subscribers(env.cat, env.state, "core:spawn") == ["a", "b"]
      && Subscribers(env.cat, env.state, "WorkerCreated") == ["a", "b"]
      && EmitTrace(env, ev, 0, 0)
         == [Emitted(ev, 0), Published("core:spawn", 0), Delivered("a", "core:spawn", Threw(false), 0)]
  {
    var env, ev := Throwing(), Event("spawn", "");
    BothAreInstalled();
    BothSubscribe("core:spawn");
    BothSubscribe("WorkerCreated");
    SpawnNames(ev);
    var exts := Subscribers(env.cat, env.state, "core:spawn");
    assert env.EndOf("a", [Throws(false)]) == Threw(false);
    assert ListenerTrace(env, "a", "core:spawn", ev, 0, 2) == [Delivered("a", "core:spawn", Threw(false), 0)];
    assert Breaks(env, "a", "core:spawn", ev, 2);
    assert DeliverTrace(env, exts, "core:spawn", ev, 0, 2)
        == Stretch([Delivered("a", "core:spawn", Threw(false), 0)], true);
  }

  lemma PairSubscribes(cat: Catalog, s: State, x: Id, y: Id, name: string)
    requires s.order == [x, y] && Hears(cat, s, x, name) && Hears(cat, s, y, name)
    ensures Subscribers(cat, s, name) == [x, y]
  {
    assert s.order[..1] == [x] && [x][..0] == [];
    assert HearersAmong(cat, s, [x], name) == [x];
  }

  lemma BothSubscribe(name: string)
    requires name in {"core:spawn", "WorkerCreated"}
    ensures Subscribers(Throwing().cat, Throwing().state, name) == ["a", "b"]
  {
    BothAreInstalled();
    assert TwoListeners[1..][0] == Listening("b");
    PairSubscribes(TwoListeners, Throwing().state, "a", "b", name);
  }
}
