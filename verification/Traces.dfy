/** The trace of a cascade on its own: what it adds to everything that has happened before. */
module Traces {
  import opened Wrappers
  import opened Extensions
  import opened EventBus

  ghost predicate Within(t: seq<Obs>, lo: nat, hi: nat) {
    forall i :: 0 <= i < |t| ==> lo <= t[i].depth <= hi
  }

  // ---- the trace of a cascade that starts after `at` things have happened ----

  ghost function EmitTrace(env: Env, ev: Event, depth: nat, at: nat): seq<Obs>
    requires env.Ranked()
    decreases env.rank(ev.kind), 6, 0
  {
    [Emitted(ev, depth)] + NamesTrace(env, env.tap(ev), ev, depth, at + 1).obs
  }

  ghost function NamesTrace(env: Env, names: seq<string>, ev: Event, depth: nat, at: nat): Stretch
    requires env.Ranked() && AllTapped(env, names, ev)
    decreases env.rank(ev.kind), 5, |names|
  {
    if names == [] then Stretch([], false)
    else
      var first := PublishTrace(env, names[0], ev, depth, at);
      if first.cut then first
      else
        var rest := NamesTrace(env, names[1..], ev, depth, at + |first.obs|);
        Stretch(first.obs + rest.obs, rest.cut)
  }

  ghost function PublishTrace(env: Env, name: string, ev: Event, depth: nat, at: nat): Stretch
    requires env.Ranked() && name in env.tap(ev)
    decreases env.rank(ev.kind), 4, 0
  {
    var all := DeliverTrace(env, Subscribers(env.cat, env.state, name), name, ev, depth, at + 1);
    Stretch([Published(name, depth)] + all.obs, all.cut)
  }

  ghost function DeliverTrace(env: Env, exts: seq<Id>, name: string, ev: Event, depth: nat, at: nat): Stretch
    requires env.Ranked() && name in env.tap(ev)
    requires AllHear(env, exts, name)
    decreases env.rank(ev.kind), 3, |exts|
  {
    if exts == [] then Stretch([], false)
    else
      var first := ListenerTrace(env, exts[0], name, ev, depth, at);
      if Breaks(env, exts[0], name, ev, at) then Stretch(first, true)
      else
        var rest := DeliverTrace(env, exts[1..], name, ev, depth, at + |first|);
        Stretch(first + rest.obs, rest.cut)
  }

  ghost function ListenerTrace(env: Env, id: Id, name: string, ev: Event, depth: nat, at: nat): seq<Obs>
    requires env.Ranked() && name in env.tap(ev) && Hears(env.cat, env.state, id, name)
    decreases env.rank(ev.kind), 2, 0
  {
    var calls := env.react(id, name, ev, at);
    CallsTrace(env, id, calls, env.rank(ev.kind), depth + 1, at) + [Delivered(id, name, env.EndOf(id, calls), depth)]
  }

  ghost function CallsTrace(env: Env, id: Id, calls: seq<Call>, bound: nat, depth: nat, at: nat): seq<Obs>
    requires env.Ranked() && env.CallsBelow(calls, bound) && depth > 0
    decreases bound, 1, |calls|
  {
    if calls == [] || calls[0].Throws? || !env.Allowed(id, calls[0]) then []
    else
      assert calls[0] in calls;
      var first := EventsTrace(env, calls[0].raises, bound, depth, at);
      first + CallsTrace(env, id, calls[1..], bound, depth, at + |first|)
  }

  ghost function EventsTrace(env: Env, evs: seq<Event>, bound: nat, depth: nat, at: nat): seq<Obs>
    requires env.Ranked() && depth > 0
    requires env.EventsBelow(evs, bound)
    decreases bound, 0, |evs|
  {
    if evs == [] then []
    else
      assert evs[0] in evs;
      var first := EmitTrace(env, evs[0], depth, at);
      first + EventsTrace(env, evs[1..], bound, depth, at + |first|)
  }

  // ---- a cascade of this depth stays at this depth or below, and no deeper than its rank allows ----

  lemma WithinJoins(t: seq<Obs>, u: seq<Obs>, lo: nat, hi: nat)
    requires Within(t, lo, hi) && Within(u, lo, hi)
    ensures Within(t + u, lo, hi)
  {
  }

  lemma {:induction false} EmitStaysWithin(env: Env, ev: Event, depth: nat, at: nat)
    requires env.Ranked()
    ensures Within(EmitTrace(env, ev, depth, at), depth, depth + env.rank(ev.kind))
    decreases env.rank(ev.kind), 6, 0
  {
    NamesStayWithin(env, env.tap(ev), ev, depth, at + 1);
  }

  lemma {:induction false} NamesStayWithin(env: Env, names: seq<string>, ev: Event, depth: nat, at: nat)
    requires env.Ranked() && AllTapped(env, names, ev)
    ensures Within(NamesTrace(env, names, ev, depth, at).obs, depth, depth + env.rank(ev.kind))
    decreases env.rank(ev.kind), 5, |names|
  {
    if names != [] {
      var first := PublishTrace(env, names[0], ev, depth, at);
      DeliveriesStayWithin(env, Subscribers(env.cat, env.state, names[0]), names[0], ev, depth, at + 1);
      if !first.cut {
        NamesStayWithin(env, names[1..], ev, depth, at + |first.obs|);
      }
    }
  }

  lemma {:induction false} DeliveriesStayWithin(
      env: Env, exts: seq<Id>, name: string, ev: Event, depth: nat, at: nat)
    requires env.Ranked() && name in env.tap(ev) && AllHear(env, exts, name)
    ensures Within(DeliverTrace(env, exts, name, ev, depth, at).obs, depth, depth + env.rank(ev.kind))
    decreases env.rank(ev.kind), 3, |exts|
  {
    if exts != [] {
      var first := ListenerTrace(env, exts[0], name, ev, depth, at);
      CallsStayWithin(env, exts[0], env.react(exts[0], name, ev, at), env.rank(ev.kind), depth + 1, at);
      if !Breaks(env, exts[0], name, ev, at) {
        DeliveriesStayWithin(env, exts[1..], name, ev, depth, at + |first|);
        var rest := DeliverTrace(env, exts[1..], name, ev, depth, at + |first|).obs;
        WithinJoins(first, rest, depth, depth + env.rank(ev.kind));
      }
    }
  }

  lemma {:induction false} CallsStayWithin(env: Env, id: Id, calls: seq<Call>, bound: nat, depth: nat, at: nat)
    requires env.Ranked() && env.CallsBelow(calls, bound) && depth > 0
    ensures Within(CallsTrace(env, id, calls, bound, depth, at), depth, depth - 1 + bound)
    decreases bound, 1, |calls|
  {
    if calls != [] && calls[0].Call? && env.Allowed(id, calls[0]) {
      assert calls[0] in calls;
      var first := EventsTrace(env, calls[0].raises, bound, depth, at);
      EventsStayWithin(env, calls[0].raises, bound, depth, at);
      CallsStayWithin(env, id, calls[1..], bound, depth, at + |first|);
    }
  }

  lemma {:induction false} EventsStayWithin(env: Env, evs: seq<Event>, bound: nat, depth: nat, at: nat)
    requires env.Ranked() && env.EventsBelow(evs, bound) && depth > 0
    ensures Within(EventsTrace(env, evs, bound, depth, at), depth, depth - 1 + bound)
    decreases bound, 0, |evs|
  {
    if evs != [] {
      assert evs[0] in evs;
      var first := EmitTrace(env, evs[0], depth, at);
      EmitStaysWithin(env, evs[0], depth, at);
      EventsStayWithin(env, evs[1..], bound, depth, at + |first|);
    }
  }

  // ---- what happens is what has happened and the trace behind it ----

  lemma Regroup(a: seq<Obs>, b: seq<Obs>, c: seq<Obs>)
    ensures (a + b) + c == a + (b + c)
  {
  }

  lemma {:induction false} EmitAdds(env: Env, ev: Event, depth: nat, t: seq<Obs>)
    requires env.Ranked()
    ensures EmitAfter(env, ev, depth, t) == t + EmitTrace(env, ev, depth, |t|)
    decreases env.rank(ev.kind), 6, 0
  {
    NamesAdd(env, env.tap(ev), ev, depth, t + [Emitted(ev, depth)]);
  }

  lemma {:induction false} NamesAdd(env: Env, names: seq<string>, ev: Event, depth: nat, t: seq<Obs>)
    requires env.Ranked() && AllTapped(env, names, ev)
    ensures var n := NamesTrace(env, names, ev, depth, |t|);
      NamesAfter(env, names, ev, depth, t) == Stretch(t + n.obs, n.cut)
    decreases env.rank(ev.kind), 5, |names|
  {
    if names != [] {
      var first := PublishTrace(env, names[0], ev, depth, |t|);
      PublishAdds(env, names[0], ev, depth, t);
      if !first.cut {
        NamesAdd(env, names[1..], ev, depth, t + first.obs);
        Regroup(t, first.obs, NamesTrace(env, names[1..], ev, depth, |t| + |first.obs|).obs);
      }
    }
  }

  lemma {:induction false} PublishAdds(env: Env, name: string, ev: Event, depth: nat, t: seq<Obs>)
    requires env.Ranked() && name in env.tap(ev)
    ensures var p := PublishTrace(env, name, ev, depth, |t|);
      PublishAfter(env, name, ev, depth, t) == Stretch(t + p.obs, p.cut)
    decreases env.rank(ev.kind), 4, 0
  {
    DeliveriesAdd(env, Subscribers(env.cat, env.state, name), name, ev, depth, t + [Published(name, depth)]);
  }

  lemma {:induction false} DeliveriesAdd(
      env: Env, exts: seq<Id>, name: string, ev: Event, depth: nat, t: seq<Obs>)
    requires env.Ranked() && name in env.tap(ev) && AllHear(env, exts, name)
    ensures var d := DeliverTrace(env, exts, name, ev, depth, |t|);
      DeliverAfter(env, exts, name, ev, depth, t) == Stretch(t + d.obs, d.cut)
    decreases env.rank(ev.kind), 3, |exts|
  {
    if exts != [] {
      ListenerAdds(env, exts[0], name, ev, depth, t);
      if !Breaks(env, exts[0], name, ev, |t|) {
        var first := ListenerTrace(env, exts[0], name, ev, depth, |t|);
        DeliveriesAdd(env, exts[1..], name, ev, depth, t + first);
        Regroup(t, first, DeliverTrace(env, exts[1..], name, ev, depth, |t| + |first|).obs);
      }
    }
  }

  lemma {:induction false} ListenerAdds(env: Env, id: Id, name: string, ev: Event, depth: nat, t: seq<Obs>)
    requires env.Ranked() && name in env.tap(ev) && Hears(env.cat, env.state, id, name)
    ensures ListenerAfter(env, id, name, ev, depth, t) == t + ListenerTrace(env, id, name, ev, depth, |t|)
    decreases env.rank(ev.kind), 2, 0
  {
    CallsAdd(env, id, env.react(id, name, ev, |t|), env.rank(ev.kind), depth + 1, t);
  }

  lemma {:induction false} CallsAdd(env: Env, id: Id, calls: seq<Call>, bound: nat, depth: nat, t: seq<Obs>)
    requires env.Ranked() && env.CallsBelow(calls, bound) && depth > 0
    ensures CallsAfter(env, id, calls, bound, depth, t) == t + CallsTrace(env, id, calls, bound, depth, |t|)
    decreases bound, 1, |calls|
  {
    if calls != [] && calls[0].Call? && env.Allowed(id, calls[0]) {
      assert calls[0] in calls;
      EventsAdd(env, calls[0].raises, bound, depth, t);
      CallsAdd(env, id, calls[1..], bound, depth, t + EventsTrace(env, calls[0].raises, bound, depth, |t|));
    }
  }

  lemma {:induction false} EventsAdd(env: Env, evs: seq<Event>, bound: nat, depth: nat, t: seq<Obs>)
    requires env.Ranked() && env.EventsBelow(evs, bound) && depth > 0
    ensures EventsAfter(env, evs, bound, depth, t) == t + EventsTrace(env, evs, bound, depth, |t|)
    decreases bound, 0, |evs|
  {
    if evs != [] {
      assert evs[0] in evs;
      EmitAdds(env, evs[0], depth, t);
      EventsAdd(env, evs[1..], bound, depth, t + EmitTrace(env, evs[0], depth, |t|));
    }
  }
}
