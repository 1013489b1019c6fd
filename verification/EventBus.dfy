/** The event cascade: emit, the extension tap, publish, and listeners that emit again through their facade. */
module EventBus {
  import opened Wrappers
  import opened Rings
  import opened Texts
  import opened Extensions

  const EVENT_CAP := 500
  const BUS_CAP := 60

  datatype Event = Event(kind: string, text: string)

  function NameIf(b: bool, name: string): seq<string> {
    if b then [name] else []
  }

  /** The names beside the core name; the kinds exclude each other, and only org events can have two. */
  function OtherNames(ev: Event): seq<string> {
    var t := ev.text;
    if ev.kind == "mission" then NameIf(Has(t, "COMPLETED"), "MissionCompleted")
    else if ev.kind == "runtime" then NameIf(Has(t, "Execution started"), "WorkerStarted")
    else if ev.kind == "spawn" then ["WorkerCreated"]
    else if ev.kind == "knowledge" then NameIf(Has(t, "Knowledge stored"), "KnowledgeStored")
    else if ev.kind == "org" then
      NameIf(Has(t, "new lead") || Has(t, "new qualified") || Has(t, "new proposal"), "ClientCreated")
      + NameIf(Has(t, "Ledger — revenue"), "PaymentReceived")
    else if ev.kind == "workflow" then
      NameIf(Has(Lower(t), "completed") || Has(Lower(t), "success") || Has(Lower(t), "registered"), "WorkflowFinished")
    else if ev.kind == "provider" then NameIf(Has(t, "enabled") || Has(t, "configured"), "ProviderConnected")
    else if ev.kind == "action" then NameIf(Has(t, "Action completed"), "ActionExecuted")
    else if ev.kind == "evolve" then NameIf(Has(t, "proposed"), "ImprovementProposed")
    else []
  }

  /** onCoreEvent: the bus names one core event is published under, in order. */
  function PublishedNames(ev: Event): seq<string> {
    ["core:" + ev.kind] + OtherNames(ev)
  }

  /**
   * One thing a listener does: a facade call, gated or not, with the core events it raises; or a throw of its own. A
   * throw is readable when its message can be read, which fails for null, undefined, and a message that is no text.
   */
  datatype Call = Call(needs: Option<string>, raises: seq<Event>) | Throws(readable: bool)

  datatype End = Finished | Threw(readable: bool)

  /** What a listener does, given how many things have happened so far: it may react differently every time. */
  type Reaction = (Id, string, Event, nat) -> seq<Call>

  /** The names a core event is published under. */
  type Tap = Event -> seq<string>

  /** A catalog, the manager state during the cascade, the tap, what listeners do, and a ranking of event kinds. */
  datatype Env = Env(cat: Catalog, state: State, tap: Tap, react: Reaction, rank: string -> nat)
  {
    ghost predicate EventsBelow(evs: seq<Event>, bound: nat) {
      forall e :: e in evs ==> rank(e.kind) < bound
    }

    ghost predicate CallsBelow(calls: seq<Call>, bound: nat) {
      forall c, e :: c in calls && c.Call? && e in c.raises ==> rank(e.kind) < bound
    }

    /** "A listener on a name of this event raises that kind" only ever leads down the ranking. */
    ghost predicate Ranked() {
      forall id, name, ev, at :: name in tap(ev) && Hears(cat, state, id, name)
        ==> CallsBelow(react(id, name, ev, at), rank(ev.kind))
    }

    predicate Allowed(id: Id, c: Call)
      requires c.Call?
    {
      c.needs.Some? ==> c.needs.value in Granted(state, id)
    }

    /** How a listener ends; a denied call throws an error with a message. */
    function EndOf(id: Id, calls: seq<Call>): End
      decreases |calls|
    {
      if calls == [] then Finished
      else if calls[0].Throws? then Threw(calls[0].readable)
      else if !Allowed(id, calls[0]) then Threw(true)
      else EndOf(id, calls[1..])
    }
  }

  /** What happens during a cascade, in order; depth counts the enclosing emits. */
  datatype Obs =
    | Emitted(ev: Event, depth: nat)
    | Published(name: string, depth: nat)
    | Delivered(ext: Id, name: string, end: End, depth: nat)

  /** What happens up to the end of a loop, or up to an exception that leaves it. */
  datatype Stretch = Stretch(obs: seq<Obs>, cut: bool)

  // ---- what happens, as a function of what has happened: it is total because the ranking decreases ----

  ghost predicate AllTapped(env: Env, names: seq<string>, ev: Event) {
    forall n :: n in names ==> n in env.tap(ev)
  }

  ghost predicate AllHear(env: Env, exts: seq<Id>, name: string) {
    forall x :: x in exts ==> Hears(env.cat, env.state, x, name)
  }

  /** What this listener throws cannot be read. */
  ghost predicate Breaks(env: Env, id: Id, name: string, ev: Event, at: nat) {
    env.EndOf(id, env.react(id, name, ev, at)) == Threw(false)
  }

  /** One emit. An exception that leaves the tap ends there. */
  ghost function EmitAfter(env: Env, ev: Event, depth: nat, t: seq<Obs>): seq<Obs>
    requires env.Ranked()
    decreases env.rank(ev.kind), 6, 0
  {
    NamesAfter(env, env.tap(ev), ev, depth, t + [Emitted(ev, depth)]).obs
  }

  ghost function NamesAfter(env: Env, names: seq<string>, ev: Event, depth: nat, t: seq<Obs>): Stretch
    requires env.Ranked() && AllTapped(env, names, ev)
    decreases env.rank(ev.kind), 5, |names|
  {
    if names == [] then Stretch(t, false)
    else
      var first := PublishAfter(env, names[0], ev, depth, t);
      if first.cut then first else NamesAfter(env, names[1..], ev, depth, first.obs)
  }

  ghost function PublishAfter(env: Env, name: string, ev: Event, depth: nat, t: seq<Obs>): Stretch
    requires env.Ranked() && name in env.tap(ev)
    decreases env.rank(ev.kind), 4, 0
  {
    DeliverAfter(env, Subscribers(env.cat, env.state, name), name, ev, depth, t + [Published(name, depth)])
  }

  /** The catch reads the message of what was thrown; when it cannot, the exception leaves the loop over subscribers. */
  ghost function DeliverAfter(env: Env, exts: seq<Id>, name: string, ev: Event, depth: nat, t: seq<Obs>): Stretch
    requires env.Ranked() && name in env.tap(ev) && AllHear(env, exts, name)
    decreases env.rank(ev.kind), 3, |exts|
  {
    if exts == [] then Stretch(t, false)
    else
      var u := ListenerAfter(env, exts[0], name, ev, depth, t);
      if Breaks(env, exts[0], name, ev, |t|) then Stretch(u, true)
      else DeliverAfter(env, exts[1..], name, ev, depth, u)
  }

  ghost function ListenerAfter(env: Env, id: Id, name: string, ev: Event, depth: nat, t: seq<Obs>): seq<Obs>
    requires env.Ranked() && name in env.tap(ev) && Hears(env.cat, env.state, id, name)
    decreases env.rank(ev.kind), 2, 0
  {
    var calls := env.react(id, name, ev, |t|);
    CallsAfter(env, id, calls, env.rank(ev.kind), depth + 1, t) + [Delivered(id, name, env.EndOf(id, calls), depth)]
  }

  /** A listener's calls run until the first one that is denied or that throws. */
  ghost function CallsAfter(env: Env, id: Id, calls: seq<Call>, bound: nat, depth: nat, t: seq<Obs>): seq<Obs>
    requires env.Ranked() && env.CallsBelow(calls, bound)
    decreases bound, 1, |calls|
  {
    if calls == [] || calls[0].Throws? || !env.Allowed(id, calls[0]) then t
    else
      assert calls[0] in calls;
      CallsAfter(env, id, calls[1..], bound, depth, EventsAfter(env, calls[0].raises, bound, depth, t))
  }

  ghost function EventsAfter(env: Env, evs: seq<Event>, bound: nat, depth: nat, t: seq<Obs>): seq<Obs>
    requires env.Ranked() && env.EventsBelow(evs, bound)
    decreases bound, 0, |evs|
  {
    if evs == [] then t
    else
      assert evs[0] in evs;
      EventsAfter(env, evs[1..], bound, depth, EmitAfter(env, evs[0], depth, t))
  }

  // ---- the records the bus keeps ----

  datatype Books = Books(events: seq<Event>, busRing: seq<string>, calls: map<Id, nat>, errors: map<Id, nat>)

  const Unwritten := Books([], [], map[], map[])

  function Count(m: map<Id, nat>, id: Id): nat {
    if id in m then m[id] else 0
  }

  function Note(b: Books, o: Obs): Books {
    match o
    case Emitted(ev, _) => b.(events := Push(EVENT_CAP, b.events, ev))
    case Published(name, _) => b.(busRing := Push(BUS_CAP, b.busRing, name))
    case Delivered(ext, _, end, _) =>
      if end.Finished? then b.(calls := b.calls[ext := Count(b.calls, ext) + 1])
      else b.(errors := b.errors[ext := Count(b.errors, ext) + 1])
  }

  function NoteAll(b: Books, t: seq<Obs>): Books {
    if t == [] then b else Note(NoteAll(b, t[..|t| - 1]), t[|t| - 1])
  }

  lemma NoteOneMore(b: Books, t: seq<Obs>, o: Obs)
    ensures NoteAll(b, t + [o]) == Note(NoteAll(b, t), o)
  {
    assert (t + [o])[..|t + [o]| - 1] == t;
  }

  /**
   * The event bus and the bridge's event ring; the manager state does not change during a cascade. `seen` is all that
   * has happened so far, and `clock` its length, which stands for whatever a listener remembers or reads.
   */
  class Bus {
    ghost const env: Env
    ghost var seen: seq<Obs>
    var clock: nat
    var events: seq<Event>
    var busRing: seq<string>
    var calls: map<Id, nat>
    var errors: map<Id, nat>
    const subs: Index
    const granted: map<Id, seq<string>>
    const tap: Tap
    const react: Reaction

    function Log(): Books
      reads this
    {
      Books(events, busRing, calls, errors)
    }

    /** The rings and counters are what the books make of all that happened. */
    ghost predicate Booked()
      reads this
    {
      clock == |seen| && Log() == NoteAll(Unwritten, seen)
    }

    ghost predicate Valid() {
      && env.Ranked() && tap == env.tap && react == env.react
      && IndexAgrees(env.cat, env.state, subs)
      && forall id :: MayUse(id) == Granted(env.state, id)
    }

    function MayUse(id: Id): seq<string> {
      if id == "dev-console" then PERMISSIONS else if id in granted then granted[id] else []
    }

    /** A bus tapped into a running manager, whose listener index agrees with its records. */
    constructor (manager: ExtensionManager, react: Reaction, ghost rank: string -> nat)
      requires manager.Valid() && Env(manager.catalog, manager.Model(), PublishedNames, react, rank).Ranked()
      ensures Valid() && Booked() && seen == []
      ensures env == Env(manager.catalog, manager.Model(), PublishedNames, react, rank)
    {
      env := Env(manager.catalog, manager.Model(), PublishedNames, react, rank);
      tap, this.react := PublishedNames, react;
      subs, granted := manager.subs, map id | id in manager.records :: manager.records[id].granted;
      seen, clock := [], 0;
      events, busRing, calls, errors := [], [], map[], map[];
    }

    method PushEvent(ev: Event, ghost depth: nat)
      requires Booked()
      modifies this
      ensures Booked() && seen == old(seen) + [Emitted(ev, depth)]
    {
      NoteOneMore(Unwritten, seen, Emitted(ev, depth));
      events := events + [ev];
      if |events| > EVENT_CAP {
        events := events[1..];
      }
      seen, clock := seen + [Emitted(ev, depth)], clock + 1;
    }

    method PushName(name: string, ghost depth: nat)
      requires Booked()
      modifies this
      ensures Booked() && seen == old(seen) + [Published(name, depth)]
    {
      NoteOneMore(Unwritten, seen, Published(name, depth));
      busRing := busRing + [name];
      if |busRing| > BUS_CAP {
        busRing := busRing[1..];
      }
      seen, clock := seen + [Published(name, depth)], clock + 1;
    }

    method CountDelivery(id: Id, name: string, end: End, ghost depth: nat)
      requires Booked()
      modifies this
      ensures Booked() && seen == old(seen) + [Delivered(id, name, end, depth)]
    {
      ghost var before, o := Log(), Delivered(id, name, end, depth);
      NoteOneMore(Unwritten, seen, o);
      if end.Finished? {
        calls := calls[id := Count(calls, id) + 1];
        assert Log() == before.(calls := calls);
      } else {
        errors := errors[id := Count(errors, id) + 1];
        assert Log() == before.(errors := errors);
      }
      assert Log() == Note(before, o);
      seen, clock := seen + [Delivered(id, name, end, depth)], clock + 1;
    }

    /** One emit; an exception that leaves the tap is caught and dropped. */
    method Emit(ev: Event, ghost depth: nat)
      requires Valid() && Booked()
      modifies this
      ensures Booked() && seen == EmitAfter(env, ev, depth, old(seen))
      decreases env.rank(ev.kind), 6, 0
    {
      PushEvent(ev, depth);
      var thrown := OnCoreEvent(ev, depth);
    }

    /** Publishes name after name, unless an exception leaves one of the publishes. */
    method OnCoreEvent(ev: Event, ghost depth: nat) returns (thrown: bool)
      requires Valid() && Booked()
      modifies this
      ensures Booked() && Stretch(seen, thrown) == NamesAfter(env, env.tap(ev), ev, depth, old(seen))
      decreases env.rank(ev.kind), 5, 0
    {
      var names := tap(ev);
      for i := 0 to |names|
        invariant Booked() && AllTapped(env, names[i..], ev)
        invariant NamesAfter(env, names[i..], ev, depth, seen) == NamesAfter(env, names, ev, depth, old(seen))
      {
        assert names[i] in names && names[i..][1..] == names[i + 1..];
        thrown := Publish(names[i], ev, depth);
        if thrown { return; }
      }
      return false;
    }

    method Publish(name: string, ev: Event, ghost depth: nat) returns (thrown: bool)
      requires Valid() && Booked() && name in env.tap(ev)
      modifies this
      ensures Booked() && Stretch(seen, thrown) == PublishAfter(env, name, ev, depth, old(seen))
      decreases env.rank(ev.kind), 4, 0
    {
      PushName(name, depth);
      var exts := Heard(subs, name);
      assert exts == Subscribers(env.cat, env.state, name);
      thrown := DeliverToAll(exts, name, ev, depth);
    }

    /** The loop over the subscribers. */
    method DeliverToAll(exts: seq<Id>, name: string, ev: Event, ghost depth: nat) returns (thrown: bool)
      requires Valid() && Booked() && name in env.tap(ev) && AllHear(env, exts, name)
      modifies this
      ensures Booked() && Stretch(seen, thrown) == DeliverAfter(env, exts, name, ev, depth, old(seen))
      decreases env.rank(ev.kind), 3, 0
    {
      for i := 0 to |exts|
        invariant Booked() && AllHear(env, exts[i..], name)
        invariant DeliverAfter(env, exts[i..], name, ev, depth, seen)
            == DeliverAfter(env, exts, name, ev, depth, old(seen))
      {
        assert exts[i] in exts && exts[i..][1..] == exts[i + 1..];
        thrown := DeliverTo(exts[i], name, ev, depth);
        if thrown { return; }
      }
      return false;
    }

    /** One subscriber: run its listener, book a call or an error, and fail when what was thrown cannot be read. */
    method DeliverTo(id: Id, name: string, ev: Event, ghost depth: nat) returns (thrown: bool)
      requires Valid() && Booked() && name in env.tap(ev) && Hears(env.cat, env.state, id, name)
      modifies this
      ensures Booked() && seen == ListenerAfter(env, id, name, ev, depth, old(seen))
      ensures thrown == Breaks(env, id, name, ev, |old(seen)|)
      decreases env.rank(ev.kind), 2, 0
    {
      var todo := react(id, name, ev, clock);
      var end := CallListener(id, todo, env.rank(ev.kind), depth + 1);
      CountDelivery(id, name, end, depth);
      return end == Threw(false);
    }

    /** Runs one listener; the result says how it ended. */
    method CallListener(id: Id, todo: seq<Call>, ghost bound: nat, ghost depth: nat) returns (end: End)
      requires Valid() && Booked() && env.CallsBelow(todo, bound)
      modifies this
      ensures Booked() && seen == CallsAfter(env, id, todo, bound, depth, old(seen)) && end == env.EndOf(id, todo)
      decreases bound, 1, 0
    {
      for i := 0 to |todo|
        invariant Booked() && env.CallsBelow(todo[i..], bound) && env.EndOf(id, todo[i..]) == env.EndOf(id, todo)
        invariant CallsAfter(env, id, todo[i..], bound, depth, seen)
            == CallsAfter(env, id, todo, bound, depth, old(seen))
      {
        var c := todo[i];
        if c.Throws? {
          return Threw(c.readable);
        }
        if c.needs.Some? && c.needs.value !in MayUse(id) {
          return Threw(true);
        }
        assert c in todo && todo[i..][1..] == todo[i + 1..];
        Raise(c.raises, bound, depth);
      }
      return Finished;
    }

    method Raise(evs: seq<Event>, ghost bound: nat, ghost depth: nat)
      requires Valid() && Booked() && env.EventsBelow(evs, bound)
      modifies this
      ensures Booked() && seen == EventsAfter(env, evs, bound, depth, old(seen))
      decreases bound, 0, 0
    {
      for i := 0 to |evs|
        invariant Booked() && env.EventsBelow(evs[i..], bound)
        invariant EventsAfter(env, evs[i..], bound, depth, seen) == EventsAfter(env, evs, bound, depth, old(seen))
      {
        assert evs[i] in evs && evs[i..][1..] == evs[i + 1..];
        Emit(evs[i], depth);
      }
    }
  }
}
