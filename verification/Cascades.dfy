/** What every cascade of events guarantees. */
module Cascades {
  import opened Wrappers
  import opened Sequences
  import opened Rings
  import opened Extensions
  import opened EventBus
  import opened Traces
  import opened Preorder

  // ---- the rings ----

  function EmitIn(o: Obs): seq<Node<Event>> {
    if o.Emitted? then [Node(o.ev, o.depth)] else []
  }

  /** The emits of a trace, with their depths. */
  function Emits(t: seq<Obs>): seq<Node<Event>> {
    Collect(t, EmitIn)
  }

  function EventsOf(t: seq<Obs>): seq<Event> {
    Values(Emits(t))
  }

  function NamesOf(t: seq<Obs>): seq<string> {
    if t == [] then []
    else
      var o := t[|t| - 1];
      NamesOf(t[..|t| - 1]) + (if o.Published? then [o.name] else [])
  }

  lemma {:induction false} EventRingFollows(b: Books, t: seq<Obs>)
    ensures NoteAll(b, t).events == PushAll(EVENT_CAP, b.events, EventsOf(t))
  {
    if t != [] {
      var front, o := t[..|t| - 1], t[|t| - 1];
      EventRingFollows(b, front);
      assert t == front + [o];
      CollectAppends(front, [o], EmitIn);
      CollectOne(o, EmitIn);
      if o.Emitted? {
        assert EventsOf(t)[..|EventsOf(t)| - 1] == EventsOf(front);
      } else {
        assert EventsOf(t) == EventsOf(front);
      }
    }
  }

  lemma {:induction false} BusRingFollows(b: Books, t: seq<Obs>)
    ensures NoteAll(b, t).busRing == PushAll(BUS_CAP, b.busRing, NamesOf(t))
  {
    if t != [] {
      var front, o := t[..|t| - 1], t[|t| - 1];
      BusRingFollows(b, front);
      if o.Published? {
        assert NamesOf(t)[..|NamesOf(t)| - 1] == NamesOf(front);
      } else {
        assert NamesOf(t) == NamesOf(front);
      }
    }
  }

  /**
   * Whatever a cascade does, the event ring holds the last 500 events emitted and the bus ring the last 60 names
   * published.
   */
  lemma RingsHoldTheLatest(b: Books, t: seq<Obs>)
    requires |b.events| <= 500 && |b.busRing| <= 60
    ensures NoteAll(b, t).events == Last(500, b.events + EventsOf(t))
    ensures NoteAll(b, t).busRing == Last(60, b.busRing + NamesOf(t))
  {
    EventRingFollows(b, t);
    BusRingFollows(b, t);
    RingHoldsLast(EVENT_CAP, b.events, EventsOf(t));
    RingHoldsLast(BUS_CAP, b.busRing, NamesOf(t));
  }

  // ---- parents before children ----

  /** A listener hearing of event a may raise event b. */
  ghost predicate Raises(env: Env, a: Event, b: Event) {
    exists id, name, at, c ::
      && name in env.tap(a) && Hears(env.cat, env.state, id, name)
      && c in env.react(id, name, a, at) && c.Call? && b in c.raises
  }

  ghost function RaisesIn(env: Env): Relation<Event> {
    (a, b) => Raises(env, a, b)
  }

  /** Raised by a listener of ev. */
  ghost function RaisedBy(env: Env, ev: Event): Event -> bool {
    b => Raises(env, ev, b)
  }

  /** In every cascade each raised event comes after the event whose listener raised it, properly nested. */
  lemma {:induction false} ParentsComeFirst(env: Env, ev: Event, depth: nat, at: nat)
    requires env.Ranked()
    ensures var t := Emits(EmitTrace(env, ev, depth, at));
      && t != [] && t[0] == Node(ev, depth)
      && (forall j :: 0 < j < |t| ==> HasParent(RaisesIn(env), t, j))
      && (forall top: Event -> bool :: top(ev) ==> Nested(RaisesIn(env), t, top, depth))
    decreases env.rank(ev.kind), 4, 0
  {
    var rest := Emits(NamesTrace(env, env.tap(ev), ev, depth, at + 1).obs);
    NamesNested(env, env.tap(ev), ev, depth, at + 1);
    forall top: Event -> bool ensures top(ev) ==> Nested(RaisesIn(env), [Node(ev, depth)] + rest, top, depth) {
      NestedUnderRoot(RaisesIn(env), ev, rest, RaisedBy(env, ev), top, depth);
    }
    NestedUnderRoot(RaisesIn(env), ev, rest, RaisedBy(env, ev), _ => true, depth);
  }

  lemma {:induction false} NamesNested(env: Env, names: seq<string>, ev: Event, depth: nat, at: nat)
    requires env.Ranked() && AllTapped(env, names, ev)
    ensures Nested(RaisesIn(env), Emits(NamesTrace(env, names, ev, depth, at).obs), RaisedBy(env, ev), depth + 1)
    decreases env.rank(ev.kind), 3, |names|
  {
    if names != [] {
      var first := PublishTrace(env, names[0], ev, depth, at);
      PublishNested(env, names[0], ev, depth, at);
      if !first.cut {
        NamesNested(env, names[1..], ev, depth, at + |first.obs|);
        JoinNested(env, first.obs, NamesTrace(env, names[1..], ev, depth, at + |first.obs|).obs, ev, depth + 1);
      }
    }
  }

  lemma {:induction false} PublishNested(env: Env, name: string, ev: Event, depth: nat, at: nat)
    requires env.Ranked() && name in env.tap(ev)
    ensures Nested(RaisesIn(env), Emits(PublishTrace(env, name, ev, depth, at).obs), RaisedBy(env, ev), depth + 1)
    decreases env.rank(ev.kind), 2, 1, 0
  {
    var exts := Subscribers(env.cat, env.state, name);
    DeliveriesNested(env, exts, name, ev, depth, at + 1);
    CollectOne(Published(name, depth), EmitIn);
    JoinNested(env, [Published(name, depth)], DeliverTrace(env, exts, name, ev, depth, at + 1).obs, ev, depth + 1);
  }

  lemma JoinNested(env: Env, t: seq<Obs>, u: seq<Obs>, above: Event, depth: nat)
    requires Nested(RaisesIn(env), Emits(t), RaisedBy(env, above), depth)
    requires Nested(RaisesIn(env), Emits(u), RaisedBy(env, above), depth)
    ensures Nested(RaisesIn(env), Emits(t + u), RaisedBy(env, above), depth)
  {
    CollectAppends(t, u, EmitIn);
    NestedAppends(RaisesIn(env), Emits(t), Emits(u), RaisedBy(env, above), depth);
  }

  lemma {:induction false} DeliveriesNested(env: Env, exts: seq<Id>, name: string, ev: Event, depth: nat, at: nat)
    requires env.Ranked() && name in env.tap(ev) && AllHear(env, exts, name)
    ensures Nested(RaisesIn(env), Emits(DeliverTrace(env, exts, name, ev, depth, at).obs), RaisedBy(env, ev), depth + 1)
    decreases env.rank(ev.kind), 2, 0, |exts|
  {
    if exts != [] {
      var first := ListenerTrace(env, exts[0], name, ev, depth, at);
      ListenerNested(env, exts[0], name, ev, depth, at);
      if !Breaks(env, exts[0], name, ev, at) {
        DeliveriesNested(env, exts[1..], name, ev, depth, at + |first|);
        JoinNested(env, first, DeliverTrace(env, exts[1..], name, ev, depth, at + |first|).obs, ev, depth + 1);
      }
    }
  }

  lemma ListenerRaises(env: Env, id: Id, name: string, ev: Event, at: nat, c: Call, e: Event)
    requires name in env.tap(ev) && Hears(env.cat, env.state, id, name)
    requires c in env.react(id, name, ev, at) && c.Call? && e in c.raises
    ensures Raises(env, ev, e)
  {
  }

  ghost predicate AllRaised(calls: seq<Call>, raised: Event -> bool) {
    forall c, e :: c in calls && c.Call? && e in c.raises ==> raised(e)
  }

  lemma {:induction false} ListenerNested(env: Env, id: Id, name: string, ev: Event, depth: nat, at: nat)
    requires env.Ranked() && name in env.tap(ev) && Hears(env.cat, env.state, id, name)
    ensures Nested(RaisesIn(env), Emits(ListenerTrace(env, id, name, ev, depth, at)), RaisedBy(env, ev), depth + 1)
    decreases env.rank(ev.kind), 1, |env.react(id, name, ev, at)| + 1, 0
  {
    var calls, bound := env.react(id, name, ev, at), env.rank(ev.kind);
    forall c, e | c in calls && c.Call? && e in c.raises ensures RaisedBy(env, ev)(e) {
      ListenerRaises(env, id, name, ev, at, c, e);
    }
    CallsNested(env, id, calls, ev, bound, depth + 1, at);
    var inner := CallsTrace(env, id, calls, bound, depth + 1, at);
    CollectOne(Delivered(id, name, env.EndOf(id, calls), depth), EmitIn);
    JoinNested(env, inner, [Delivered(id, name, env.EndOf(id, calls), depth)], ev, depth + 1);
  }

  lemma {:induction false} CallsNested(
      env: Env, id: Id, calls: seq<Call>, above: Event, bound: nat, depth: nat, at: nat)
    requires env.Ranked() && env.CallsBelow(calls, bound) && depth > 0 && AllRaised(calls, RaisedBy(env, above))
    ensures Nested(RaisesIn(env), Emits(CallsTrace(env, id, calls, bound, depth, at)), RaisedBy(env, above), depth)
    decreases bound, 1, |calls|
  {
    if calls != [] && calls[0].Call? && env.Allowed(id, calls[0]) {
      assert calls[0] in calls;
      var first := EventsTrace(env, calls[0].raises, bound, depth, at);
      EventsNested(env, calls[0].raises, above, bound, depth, at);
      CallsNested(env, id, calls[1..], above, bound, depth, at + |first|);
      JoinNested(env, first, CallsTrace(env, id, calls[1..], bound, depth, at + |first|), above, depth);
    }
  }

  lemma {:induction false} EventsNested(env: Env, evs: seq<Event>, above: Event, bound: nat, depth: nat, at: nat)
    requires env.Ranked() && depth > 0 && env.EventsBelow(evs, bound)
    requires forall e :: e in evs ==> RaisedBy(env, above)(e)
    ensures Nested(RaisesIn(env), Emits(EventsTrace(env, evs, bound, depth, at)), RaisedBy(env, above), depth)
    decreases bound, 0, |evs|
  {
    if evs != [] {
      assert evs[0] in evs;
      var first := EmitTrace(env, evs[0], depth, at);
      ParentsComeFirst(env, evs[0], depth, at);
      EventsNested(env, evs[1..], above, bound, depth, at + |first|);
      JoinNested(env, first, EventsTrace(env, evs[1..], bound, depth, at + |first|), above, depth);
    }
  }

  // ---- who is called ----

  function DeliveryAt(depth: nat): Obs -> seq<Obs> {
    (o: Obs) => if o.Delivered? && o.depth == depth then [o] else []
  }

  /** The deliveries at this depth, in order. */
  function DeliveredAt(t: seq<Obs>, depth: nat): seq<Obs> {
    Collect(t, DeliveryAt(depth))
  }

  /** One listener is one delivery at its depth; whatever it starts lies deeper. */
  lemma ListenerDeliversOnce(env: Env, id: Id, name: string, ev: Event, depth: nat, at: nat)
    requires env.Ranked() && name in env.tap(ev) && Hears(env.cat, env.state, id, name)
    ensures DeliveredAt(ListenerTrace(env, id, name, ev, depth, at), depth)
         == [Delivered(id, name, env.EndOf(id, env.react(id, name, ev, at)), depth)]
  {
    var calls := env.react(id, name, ev, at);
    var inner := CallsTrace(env, id, calls, env.rank(ev.kind), depth + 1, at);
    CallsStayWithin(env, id, calls, env.rank(ev.kind), depth + 1, at);
    CollectNothing(inner, DeliveryAt(depth));
    CollectAppends(inner, [Delivered(id, name, env.EndOf(id, calls), depth)], DeliveryAt(depth));
    CollectOne(Delivered(id, name, env.EndOf(id, calls), depth), DeliveryAt(depth));
  }

  /** What was thrown could not be read. */
  predicate Unreadable(o: Obs) {
    o.Delivered? && o.end == Threw(false)
  }

  /** These deliveries are to the first of these extensions under this name, and only the last may be unreadable. */
  ghost predicate DeliveredTo(ds: seq<Obs>, exts: seq<Id>, name: string, cut: bool) {
    && |ds| <= |exts|
    && (forall i :: 0 <= i < |ds| ==> ds[i].Delivered? && ds[i].ext == exts[i] && ds[i].name == name)
    && (forall i :: 0 <= i < |ds| - 1 ==> !Unreadable(ds[i]))
    && (if cut then ds != [] && Unreadable(ds[|ds| - 1])
        else |ds| == |exts| && (ds != [] ==> !Unreadable(ds[|ds| - 1])))
  }

  lemma {:induction false} DeliveredToFirst(d: Obs, ds: seq<Obs>, exts: seq<Id>, name: string, cut: bool)
    requires exts != [] && DeliveredTo(ds, exts[1..], name, cut)
    requires d.Delivered? && d.ext == exts[0] && d.name == name && !Unreadable(d)
    ensures DeliveredTo([d] + ds, exts, name, cut)
  {
  }

  lemma {:induction false} DeliveredToJoin(
      first: seq<Obs>, rest: Stretch, d: Obs, exts: seq<Id>, name: string, depth: nat)
    requires exts != [] && DeliveredAt(first, depth) == [d]
    requires d.Delivered? && d.ext == exts[0] && d.name == name && !Unreadable(d)
    requires DeliveredTo(DeliveredAt(rest.obs, depth), exts[1..], name, rest.cut)
    ensures DeliveredTo(DeliveredAt(first + rest.obs, depth), exts, name, rest.cut)
  {
    CollectAppends(first, rest.obs, DeliveryAt(depth));
    DeliveredToFirst(d, DeliveredAt(rest.obs, depth), exts, name, rest.cut);
  }

  /** The first listener of a publish, and what comes after it when its throw can be read. */
  lemma FirstListener(env: Env, exts: seq<Id>, name: string, ev: Event, depth: nat, at: nat)
      returns (first: seq<Obs>, rest: Stretch, next: nat)
    requires env.Ranked() && name in env.tap(ev) && AllHear(env, exts, name) && exts != []
    ensures AllHear(env, exts[1..], name) && rest == DeliverTrace(env, exts[1..], name, ev, depth, next)
    ensures first == ListenerTrace(env, exts[0], name, ev, depth, at)
    ensures DeliveredAt(first, depth)
         == [Delivered(exts[0], name, env.EndOf(exts[0], env.react(exts[0], name, ev, at)), depth)]
    ensures DeliverTrace(env, exts, name, ev, depth, at)
         == if Breaks(env, exts[0], name, ev, at) then Stretch(first, true) else Stretch(first + rest.obs, rest.cut)
  {
    first := ListenerTrace(env, exts[0], name, ev, depth, at);
    next := at + |first|;
    rest := DeliverTrace(env, exts[1..], name, ev, depth, next);
    ListenerDeliversOnce(env, exts[0], name, ev, depth, at);
  }

  lemma {:induction false} DeliveriesInOrder(env: Env, exts: seq<Id>, name: string, ev: Event, depth: nat, at: nat)
    requires env.Ranked() && name in env.tap(ev) && AllHear(env, exts, name)
    ensures var t := DeliverTrace(env, exts, name, ev, depth, at);
      DeliveredTo(DeliveredAt(t.obs, depth), exts, name, t.cut)
    decreases |exts|
  {
    if exts != [] {
      var first, rest, next := FirstListener(env, exts, name, ev, depth, at);
      var d := Delivered(exts[0], name, env.EndOf(exts[0], env.react(exts[0], name, ev, at)), depth);
      if !Breaks(env, exts[0], name, ev, at) {
        DeliveriesInOrder(env, exts[1..], name, ev, depth, next);
        DeliveredToJoin(first, rest, d, exts, name, depth);
      }
    }
  }

  lemma NameDeliversNothing(name: string, depth: nat, rest: seq<Obs>)
    ensures DeliveredAt([Published(name, depth)] + rest, depth) == DeliveredAt(rest, depth)
  {
    CollectAppends([Published(name, depth)], rest, DeliveryAt(depth));
    CollectOne(Published(name, depth), DeliveryAt(depth));
  }

  lemma PublishDelivers(env: Env, name: string, ev: Event, depth: nat, at: nat)
    requires env.Ranked() && name in env.tap(ev)
    ensures var t := PublishTrace(env, name, ev, depth, at);
      DeliveredTo(DeliveredAt(t.obs, depth), Subscribers(env.cat, env.state, name), name, t.cut)
  {
    var exts := Subscribers(env.cat, env.state, name);
    DeliveriesInOrder(env, exts, name, ev, depth, at + 1);
    NameDeliversNothing(name, depth, DeliverTrace(env, exts, name, ev, depth, at + 1).obs);
  }

  /** All but the last of these deliveries may be followed by others. */
  ghost predicate NoneBreaksBefore(ds: seq<Obs>, n: nat) {
    forall i :: 0 <= i < |ds| && i < n ==> !Unreadable(ds[i])
  }

  /**
   * One publish calls active listeners of the name only, each once, in install order, whatever cascades of their own
   * earlier ones start. It reaches all of them exactly when none before the last throws what cannot be read; an
   * exception leaves the publish exactly when some listener does.
   */
  lemma PublishReachesEveryListenerExactly(env: Env, name: string, ev: Event, depth: nat, at: nat)
    requires env.Ranked() && name in env.tap(ev) && WellFormed(env.state)
    ensures var (t, subs) := (PublishTrace(env, name, ev, depth, at), Subscribers(env.cat, env.state, name));
      var ds := DeliveredAt(t.obs, depth);
      && |ds| <= |subs| && (forall i :: 0 <= i < |ds| ==> ds[i].Delivered? && ds[i].ext == subs[i])
      && (|ds| == |subs| <==> NoneBreaksBefore(ds, if subs == [] then 0 else |subs| - 1))
      && (t.cut <==> exists i :: 0 <= i < |ds| && Unreadable(ds[i]))
    ensures Distinct(Subscribers(env.cat, env.state, name))
    ensures forall x :: x in Subscribers(env.cat, env.state, name) <==> Hears(env.cat, env.state, x, name)
  {
    PublishDelivers(env, name, ev, depth, at);
    HearersDistinct(env.cat, env.state, env.state.order, name);
    var t := PublishTrace(env, name, ev, depth, at);
    AllReachedExactly(DeliveredAt(t.obs, depth), Subscribers(env.cat, env.state, name), name, t.cut);
  }

  lemma {:induction false} AllReachedExactly(ds: seq<Obs>, subs: seq<Id>, name: string, cut: bool)
    requires DeliveredTo(ds, subs, name, cut)
    ensures |ds| == |subs| <==> NoneBreaksBefore(ds, if subs == [] then 0 else |subs| - 1)
    ensures cut <==> exists i :: 0 <= i < |ds| && Unreadable(ds[i])
  {
    if cut {
      assert Unreadable(ds[|ds| - 1]);
    }
  }

  lemma {:induction false} HearersDistinct(cat: Catalog, s: State, order: seq<Id>, name: string)
    requires Distinct(order)
    ensures Distinct(HearersAmong(cat, s, order, name))
  {
    if order != [] {
      var front, last := order[..|order| - 1], order[|order| - 1];
      HearersDistinct(cat, s, front, name);
      assert last !in front;
    }
  }

  // ---- which names are published ----

  function NameAt(depth: nat): Obs -> seq<string> {
    (o: Obs) => if o.Published? && o.depth == depth then [o.name] else []
  }

  /** The names published at this depth, in order. */
  function PublishedAt(t: seq<Obs>, depth: nat): seq<string> {
    Collect(t, NameAt(depth))
  }

  /** No name is published at this depth. */
  ghost predicate Silent(t: seq<Obs>, depth: nat) {
    forall i :: 0 <= i < |t| && t[i].Published? ==> t[i].depth != depth
  }

  lemma SilentJoins(t: seq<Obs>, u: seq<Obs>, depth: nat)
    requires Silent(t, depth) && Silent(u, depth)
    ensures Silent(t + u, depth)
  {
  }

  lemma {:induction false} DeliveriesAreSilent(
      env: Env, exts: seq<Id>, name: string, ev: Event, depth: nat, at: nat)
    requires env.Ranked() && name in env.tap(ev) && AllHear(env, exts, name)
    ensures Silent(DeliverTrace(env, exts, name, ev, depth, at).obs, depth)
    decreases |exts|
  {
    if exts != [] {
      var calls := env.react(exts[0], name, ev, at);
      var first := ListenerTrace(env, exts[0], name, ev, depth, at);
      CallsStayWithin(env, exts[0], calls, env.rank(ev.kind), depth + 1, at);
      if !Breaks(env, exts[0], name, ev, at) {
        DeliveriesAreSilent(env, exts[1..], name, ev, depth, at + |first|);
        SilentJoins(first, DeliverTrace(env, exts[1..], name, ev, depth, at + |first|).obs, depth);
      }
    }
  }

  lemma PublishPublishesOnce(env: Env, name: string, ev: Event, depth: nat, at: nat)
    requires env.Ranked() && name in env.tap(ev)
    ensures PublishedAt(PublishTrace(env, name, ev, depth, at).obs, depth) == [name]
  {
    var exts := Subscribers(env.cat, env.state, name);
    var rest := DeliverTrace(env, exts, name, ev, depth, at + 1).obs;
    DeliveriesAreSilent(env, exts, name, ev, depth, at + 1);
    CollectNothing(rest, NameAt(depth));
    CollectAppends([Published(name, depth)], rest, NameAt(depth));
    CollectOne(Published(name, depth), NameAt(depth));
  }

  /** Some delivery under this name throws what cannot be read. */
  predicate BreaksUnder(ds: seq<Obs>, name: string) {
    exists i :: 0 <= i < |ds| && Unreadable(ds[i]) && ds[i].name == name
  }

  /** Of these names the first ones are published, up to the first under which some delivery is unreadable. */
  ghost predicate PublishedUpTo(ps: seq<string>, names: seq<string>, ds: seq<Obs>, cut: bool) {
    && |ps| <= |names| && ps == names[..|ps|]
    && (forall i :: 0 <= i < |ds| ==> ds[i].Delivered? && ds[i].name in ps)
    && (forall i :: 0 <= i < |ps| - 1 ==> !BreaksUnder(ds, ps[i]))
    && (if cut then ps != [] && BreaksUnder(ds, ps[|ps| - 1])
        else |ps| == |names| && (ps != [] ==> !BreaksUnder(ds, ps[|ps| - 1])))
  }

  lemma {:induction false} PublishedUpToFirst(
      name: string, first: seq<Obs>, ps: seq<string>, names: seq<string>, ds: seq<Obs>, cut: bool)
    requires names != [] && names[0] == name && Distinct(names) && PublishedUpTo(ps, names[1..], ds, cut)
    requires forall i :: 0 <= i < |first| ==> first[i].Delivered? && first[i].name == name && !Unreadable(first[i])
    ensures PublishedUpTo([name] + ps, names, first + ds, cut)
  {
    var all, qs := first + ds, [name] + ps;
    forall n | BreaksUnder(all, n) ensures n != name && BreaksUnder(ds, n) {
      var i :| 0 <= i < |all| && Unreadable(all[i]) && all[i].name == n;
      assert i >= |first| && all[i] == ds[i - |first|];
      assert ds[i - |first|].name in ps;
    }
    forall n | BreaksUnder(ds, n) ensures BreaksUnder(all, n) {
      var i :| 0 <= i < |ds| && Unreadable(ds[i]) && ds[i].name == n;
      assert all[|first| + i] == ds[i];
    }
    assert qs == names[..|qs|];
  }

  ghost predicate InOrder(t: Stretch, names: seq<string>, depth: nat) {
    PublishedUpTo(PublishedAt(t.obs, depth), names, DeliveredAt(t.obs, depth), t.cut)
  }

  /** One publish: its name, and deliveries under it to the first of these extensions. */
  ghost predicate OnePublish(t: Stretch, exts: seq<Id>, name: string, depth: nat) {
    PublishedAt(t.obs, depth) == [name] && DeliveredTo(DeliveredAt(t.obs, depth), exts, name, t.cut)
  }

  lemma {:induction false} CutIsInOrder(first: Stretch, exts: seq<Id>, names: seq<string>, depth: nat)
    requires names != [] && OnePublish(first, exts, names[0], depth) && first.cut
    ensures InOrder(first, names, depth)
  {
    var ds := DeliveredAt(first.obs, depth);
    assert Unreadable(ds[|ds| - 1]) && BreaksUnder(ds, names[0]);
  }

  lemma {:induction false} InOrderJoin(first: Stretch, rest: Stretch, exts: seq<Id>, names: seq<string>, depth: nat)
    requires names != [] && Distinct(names) && OnePublish(first, exts, names[0], depth) && !first.cut
    requires InOrder(rest, names[1..], depth)
    ensures InOrder(Stretch(first.obs + rest.obs, rest.cut), names, depth)
  {
    CollectAppends(first.obs, rest.obs, NameAt(depth));
    CollectAppends(first.obs, rest.obs, DeliveryAt(depth));
    PublishedUpToFirst(names[0], DeliveredAt(first.obs, depth), PublishedAt(rest.obs, depth), names,
                       DeliveredAt(rest.obs, depth), rest.cut);
  }

  /** The first publish of a core event, and what comes after it when nothing leaves it. */
  lemma FirstName(env: Env, names: seq<string>, ev: Event, depth: nat, at: nat)
      returns (first: Stretch, rest: Stretch, next: nat)
    requires env.Ranked() && AllTapped(env, names, ev) && names != []
    ensures AllTapped(env, names[1..], ev) && rest == NamesTrace(env, names[1..], ev, depth, next)
    ensures first == PublishTrace(env, names[0], ev, depth, at)
    ensures OnePublish(first, Subscribers(env.cat, env.state, names[0]), names[0], depth)
    ensures NamesTrace(env, names, ev, depth, at)
         == if first.cut then first else Stretch(first.obs + rest.obs, rest.cut)
  {
    first := PublishTrace(env, names[0], ev, depth, at);
    next := at + |first.obs|;
    rest := NamesTrace(env, names[1..], ev, depth, next);
    PublishPublishesOnce(env, names[0], ev, depth, at);
    PublishDelivers(env, names[0], ev, depth, at);
  }

  lemma {:induction false} NamesInOrder(env: Env, names: seq<string>, ev: Event, depth: nat, at: nat)
    requires env.Ranked() && AllTapped(env, names, ev) && Distinct(names)
    ensures InOrder(NamesTrace(env, names, ev, depth, at), names, depth)
    decreases |names|
  {
    if names != [] {
      var first, rest, next := FirstName(env, names, ev, depth, at);
      var exts := Subscribers(env.cat, env.state, names[0]);
      if first.cut {
        CutIsInOrder(first, exts, names, depth);
      } else {
        NamesInOrder(env, names[1..], ev, depth, next);
        InOrderJoin(first, rest, exts, names, depth);
      }
    }
  }

  /**
   * A core event is published under its names in order. All of them are published exactly when no listener of a name
   * before the last throws what cannot be read.
   */
  lemma EveryNameIsPublishedExactly(env: Env, ev: Event, depth: nat, at: nat)
    requires env.Ranked() && Distinct(env.tap(ev)) && env.tap(ev) != []
    ensures var (t, names) := (NamesTrace(env, env.tap(ev), ev, depth, at).obs, env.tap(ev));
      var (ps, ds) := (PublishedAt(t, depth), DeliveredAt(t, depth));
      && |ps| <= |names| && ps == names[..|ps|]
      && (ps == names <==> forall i :: 0 <= i < |ds| && Unreadable(ds[i]) ==> ds[i].name == names[|names| - 1])
  {
    NamesInOrder(env, env.tap(ev), ev, depth, at);
    var (t, names) := (NamesTrace(env, env.tap(ev), ev, depth, at), env.tap(ev));
    LastBreakDecides(PublishedAt(t.obs, depth), names, DeliveredAt(t.obs, depth), t.cut);
  }

  lemma {:induction false} LastBreakDecides(ps: seq<string>, names: seq<string>, ds: seq<Obs>, cut: bool)
    requires names != [] && Distinct(names) && PublishedUpTo(ps, names, ds, cut)
    ensures ps == names <==> forall i :: 0 <= i < |ds| && Unreadable(ds[i]) ==> ds[i].name == names[|names| - 1]
  {
    var n := |names| - 1;
    if ps == names {
      forall i | 0 <= i < |ds| && Unreadable(ds[i]) ensures ds[i].name == names[n] {
        assert BreaksUnder(ds, ds[i].name) && ds[i].name in ps;
        var k :| 0 <= k < |ps| && ps[k] == ds[i].name;
        assert k == n;
      }
    } else {
      assert cut && |ps| <= n && BreaksUnder(ds, ps[|ps| - 1]);
      var i :| 0 <= i < |ds| && Unreadable(ds[i]) && ds[i].name == ps[|ps| - 1];
      assert ds[i].name == names[|ps| - 1] && names[|ps| - 1] != names[n];
    }
  }

  /** The shipped tap never names an event twice. */
  lemma TapIsDistinct(ev: Event)
    ensures Distinct(PublishedNames(ev)) && PublishedNames(ev) != []
  {
    var core, others := "core:" + ev.kind, OtherNames(ev);
    assert core[0] == 'c';
    assert "ClientCreated"[0] == 'C' && "PaymentReceived"[0] == 'P';
    OthersAreCapital(ev);
  }

  lemma OthersAreCapital(ev: Event)
    ensures forall i :: 0 <= i < |OtherNames(ev)| ==> OtherNames(ev)[i] != [] && OtherNames(ev)[i][0] != 'c'
    ensures |OtherNames(ev)| <= 1 || (OtherNames(ev) == ["ClientCreated", "PaymentReceived"] && ev.kind == "org")
  {
  }

  // ---- what is counted ----

  /** The deliveries to an extension that ended this way: by themselves, or by a throw. */
  function Deliveries(t: seq<Obs>, id: Id, finished: bool): nat {
    if t == [] then 0
    else
      var o := t[|t| - 1];
      Deliveries(t[..|t| - 1], id, finished)
      + (if o.Delivered? && o.ext == id && o.end.Finished? == finished then 1 else 0)
  }

  /**
   * An extension's calls grow by exactly the deliveries to it that finished, and its errors by those that ended in a
   * throw, nested ones included.
   */
  lemma {:induction false} CallsAndErrorsCountDeliveries(b: Books, t: seq<Obs>, id: Id)
    ensures Count(NoteAll(b, t).calls, id) == Count(b.calls, id) + Deliveries(t, id, true)
    ensures Count(NoteAll(b, t).errors, id) == Count(b.errors, id) + Deliveries(t, id, false)
  {
    if t != [] {
      CallsAndErrorsCountDeliveries(b, t[..|t| - 1], id);
    }
  }

  /** From an empty book, calls and errors are these numbers. */
  lemma CallsAndErrorsFromNothing(t: seq<Obs>, id: Id)
    ensures Count(NoteAll(Unwritten, t).calls, id) == Deliveries(t, id, true)
    ensures Count(NoteAll(Unwritten, t).errors, id) == Deliveries(t, id, false)
  {
    CallsAndErrorsCountDeliveries(Unwritten, t, id);
  }

  // ---- where a listener stops ----

  ghost predicate AllAllowed(env: Env, id: Id, calls: seq<Call>) {
    forall i :: 0 <= i < |calls| ==> calls[i].Call? && env.Allowed(id, calls[i])
  }

  /** A listener runs up to its first denied or throwing call, which decides how it ends and hides all that follows. */
  lemma {:induction false} FirstBadCallEndsListener(
      env: Env, id: Id, good: seq<Call>, bad: Call, rest: seq<Call>, bound: nat, depth: nat, at: nat)
    requires env.Ranked() && env.CallsBelow(good + ([bad] + rest), bound) && depth > 0
    requires AllAllowed(env, id, good) && (bad.Call? ==> !env.Allowed(id, bad))
    ensures env.CallsBelow(good, bound) && env.EndOf(id, good) == Finished
    ensures CallsTrace(env, id, good + ([bad] + rest), bound, depth, at) == CallsTrace(env, id, good, bound, depth, at)
    ensures env.EndOf(id, good + ([bad] + rest)) == Threw(bad.Throws? ==> bad.readable)
    decreases |good|
  {
    var all := good + ([bad] + rest);
    forall c | c in good ensures c in all {
    }
    if good == [] {
      assert all[0] == bad;
    } else {
      assert all[0] == good[0] && all[1..] == good[1..] + ([bad] + rest);
      var first := EventsTrace(env, good[0].raises, bound, depth, at);
      FirstBadCallEndsListener(env, id, good[1..], bad, rest, bound, depth, at + |first|);
    }
  }
}
