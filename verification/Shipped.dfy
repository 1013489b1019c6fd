/** The shipped catalog: what can be installed from it, and what a completed mission leads to. */
module Shipped {
  import opened Wrappers
  import opened Sequences
  import opened Versions
  import opened Texts
  import opened Extensions
  import opened ExtensionRuns
  import opened EventBus
  import opened Traces
  import opened Cascades
  import opened Reach
  import opened Rankings
  import opened Taps

  function Entry(
      id: Id, version: Version, needsCore: Version, permissions: seq<string>, dependencies: seq<Id>,
      listeners: set<string>): Manifest
  {
    Manifest(id, REQUIRED_FIELDS, version, needsCore, Some(permissions), Some([]), Some(dependencies), listeners)
  }

  const PULSE := Entry("pulse-widget", [1, 1, 0], [1, 0, 0], ["Access Events"], [], {})
  const CRM := Entry("crm-pulse", [1, 0, 0], [1, 0, 0], ["Access CRM"], ["pulse-widget"], {"ClientCreated"})
  const GUARD := Entry("ledger-guard", [1, 0, 0], [1, 0, 0], ["Read Revenue", "Access Events"], [], {"core:org"})
  const NARRATOR :=
    Entry("mission-narrator", [1, 0, 0], [1, 0, 0], ["Read Missions", "Store Knowledge"], [], {"MissionCompleted"})
  const LINKEDIN := Entry("linkedin-pack", [1, 0, 0], [1, 0, 0], ["Read Knowledge"], [], {})
  const FOCUS := Entry("focus-page", [1, 0, 0], [1, 0, 0], ["Access Events", "Read Missions"], [], {})
  const QUANTUM := Entry("quantum-provider", [0, 9, 0], [2, 0, 0], ["Access Workers"], [], {})

  const CATALOG: Catalog := [PULSE, CRM, GUARD, NARRATOR, LINKEDIN, FOCUS, QUANTUM]

  // ---- what can be installed ----

  lemma FindAt(cat: Catalog, k: nat)
    requires k < |cat| && forall j :: 0 <= j < k ==> cat[j].id != cat[k].id
    ensures Find(cat, cat[k].id) == Some(cat[k])
  {
    if k > 0 {
      FindAt(cat[1..], k - 1);
    }
  }

  lemma IdsDiffer()
    ensures forall j, k :: 0 <= j < k < |CATALOG| ==> CATALOG[j].id != CATALOG[k].id
  {
    assert PULSE.id[0] == 'p' && CRM.id[0] == 'c' && NARRATOR.id[0] == 'm';
    assert FOCUS.id[0] == 'f' && QUANTUM.id[0] == 'q';
    assert GUARD.id[0] == 'l' && LINKEDIN.id[0] == 'l' && GUARD.id[1] == 'e' && LINKEDIN.id[1] == 'i';
  }

  lemma EntryAt(k: nat)
    requires k < |CATALOG|
    ensures Find(CATALOG, CATALOG[k].id) == Some(CATALOG[k])
  {
    IdsDiffer();
    FindAt(CATALOG, k);
  }

  lemma PermissionsAreKnown(k: nat)
    requires k < |CATALOG|
    ensures CATALOG[k].Valid() && (CATALOG[k].Compatible() <==> k < 6)
  {
    assert PERMISSIONS[0] == "Read Knowledge" && PERMISSIONS[1] == "Store Knowledge";
    assert PERMISSIONS[2] == "Read Missions" && PERMISSIONS[4] == "Access CRM" && PERMISSIONS[6] == "Read Revenue";
    assert PERMISSIONS[8] == "Access Workers" && PERMISSIONS[10] == "Access Events";
  }

  lemma WithoutDependencies(k: nat)
    requires k < 6 && k != 1
    ensures Installable(CATALOG, CATALOG[k].id)
  {
    EntryAt(k);
    PermissionsAreKnown(k);
    assert DepsOf(CATALOG, CATALOG[k].id) == [];
    InstallableWhenDepsAre(CATALOG, CATALOG[k].id);
  }

  /** Everything shipped can be installed except the one entry that asks for a newer core. */
  lemma ShippedInstallableExactly(id: Id)
    ensures Installable(CATALOG, id) <==> exists k :: 0 <= k < 6 && CATALOG[k].id == id
  {
    if k :| 0 <= k < 6 && CATALOG[k].id == id {
      WithoutDependencies(0);
      if k == 1 {
        EntryAt(1);
        PermissionsAreKnown(1);
        assert DepsOf(CATALOG, CRM.id) == [PULSE.id];
        InstallableWhenDepsAre(CATALOG, CRM.id);
      } else {
        WithoutDependencies(k);
      }
    }
    if Installable(CATALOG, id) {
      var ops :| id in Run(CATALOG, Empty, ops).records;
      RunIsSound(CATALOG, Empty, ops);
      var m := Find(CATALOG, id).value;
      var k :| 0 <= k < |CATALOG| && CATALOG[k] == m;
      PermissionsAreKnown(k);
    }
  }

  // ---- what a completed mission leads to ----

  /** Something of this kind is emitted. */
  ghost predicate Emits(t: seq<Obs>, kind: string) {
    exists o :: o in t && o.Emitted? && o.ev.kind == kind
  }

  lemma {:induction false} IdleListenersEmitNothing(
      env: Env, exts: seq<Id>, name: string, ev: Event, depth: nat, at: nat)
    requires env.Ranked() && name in env.tap(ev) && AllHear(env, exts, name)
    requires forall x, when: nat :: env.react(x, name, ev, when) == []
    ensures forall o :: o in DeliverTrace(env, exts, name, ev, depth, at).obs ==> !o.Emitted?
    decreases |exts|
  {
    if exts != [] {
      var first, rest, next := FirstListener(env, exts, name, ev, depth, at);
      assert env.react(exts[0], name, ev, at) == [];
      IdleListenersEmitNothing(env, exts[1..], name, ev, depth, next);
    }
  }

  /** The shipped listeners over a manager state. */
  function Live(cat: Catalog, state: State, alarm: (Event, nat) -> bool, text: Event -> string): Env {
    Env(cat, state, PublishedNames, ShippedReaction(alarm, text), ShippedRank)
  }

  lemma OneCallNeverBreaks(env: Env, id: Id, calls: seq<Call>)
    requires |calls| <= 1 && forall c :: c in calls ==> c.Call?
    ensures env.EndOf(id, calls) != Threw(false)
  {
    if calls != [] {
      assert calls[0] in calls && calls[1..] == [];
    }
  }

  lemma ShippedNeverBreaks(env: Env, ev: Event, alarm: (Event, nat) -> bool, text: Event -> string)
    requires env.react == ShippedReaction(alarm, text)
    ensures Safe(env, ev, PublishedNames(ev))
  {
    forall x, n ensures !MayBreak(env, x, n, ev) {
      forall at: nat ensures !Breaks(env, x, n, ev, at) {
        OneCallNeverBreaks(env, x, env.react(x, n, ev, at));
      }
    }
  }

  lemma MissionNames(ev: Event)
    requires ev.kind == "mission"
    ensures PublishedNames(ev)
         == ["core:mission"] + if Contains(ev.text, "COMPLETED") then ["MissionCompleted"] else []
  {
    PublishedAreEarned(ev);
    assert MissionCompleted.Kind() == "mission";
    OnlyOwnKindEarns(ev, MissionCompleted);
    EarnsWhenItShows(ev, MissionCompleted);
    assert "COMPLETED" in MissionCompleted.Patterns();
    assert "core:" + "mission" == "core:mission";
  }

  lemma NarratorStores(env: Env, ev: Event, text: Event -> string, depth: nat, at: nat)
    requires env.Ranked() && "MissionCompleted" in env.tap(ev)
    requires Hears(env.cat, env.state, "mission-narrator", "MissionCompleted")
    requires "Store Knowledge" in Granted(env.state, "mission-narrator")
    requires env.react("mission-narrator", "MissionCompleted", ev, at)
          == [Call(Some("Store Knowledge"), [Event("knowledge", text(ev))])]
    ensures Emits(ListenerTrace(env, "mission-narrator", "MissionCompleted", ev, depth, at), "knowledge")
  {
    var k := Event("knowledge", text(ev));
    var calls := env.react("mission-narrator", "MissionCompleted", ev, at);
    assert env.Allowed("mission-narrator", calls[0]) && calls[0].raises == [k];
    assert k in [k] && calls[0] in calls;
    assert Emitted(k, depth + 1) in EmitTrace(env, k, depth + 1, at);
    assert Emitted(k, depth + 1) in EventsTrace(env, [k], env.rank(ev.kind), depth + 1, at);
    assert Emitted(k, depth + 1) in CallsTrace(env, "mission-narrator", calls, env.rank(ev.kind), depth + 1, at);
    assert Emitted(k, depth + 1) in ListenerTrace(env, "mission-narrator", "MissionCompleted", ev, depth, at);
  }

  lemma CoreMissionIsQuiet(env: Env, ev: Event, alarm: (Event, nat) -> bool, text: Event -> string, depth: nat, at: nat)
    requires env.Ranked() && env.react == ShippedReaction(alarm, text)
    requires env.tap(ev) == ["core:mission"]
    ensures forall o :: o in NamesTrace(env, ["core:mission"], ev, depth, at).obs ==> !o.Emitted?
  {
    var exts := Subscribers(env.cat, env.state, "core:mission");
    assert "core:mission"[5] == 'm' && "core:org"[5] == 'o' && "MissionCompleted"[0] == 'M' && "core:mission"[0] == 'c';
    IdleListenersEmitNothing(env, exts, "core:mission", ev, depth, at + 1);
    assert ["core:mission"][1..] == [];
  }

  /**
   * With the narrator active and allowed to store, a mission event leads to a stored document exactly when its text
   * says that the mission is completed.
   */
  lemma NarratorStoresExactly(
      cat: Catalog, state: State, alarm: (Event, nat) -> bool, text: Event -> string, ev: Event, depth: nat, at: nat)
    requires WellFormed(state) && Hears(cat, state, "mission-narrator", "MissionCompleted")
    requires "Store Knowledge" in Granted(state, "mission-narrator") && ev.kind == "mission"
    ensures var env := Live(cat, state, alarm, text);
      env.Ranked() && (Emits(EmitTrace(env, ev, depth, at), "knowledge") <==> Contains(ev.text, "COMPLETED"))
  {
    var env := Live(cat, state, alarm, text);
    ShippedCatalogIsRanked(cat, state, alarm, text);
    MissionNames(ev);
    var all := NamesTrace(env, env.tap(ev), ev, depth, at + 1).obs;
    assert EmitTrace(env, ev, depth, at) == [Emitted(ev, depth)] + all;
    assert "mission"[0] == 'm' && "knowledge"[0] == 'k';
    if Contains(ev.text, "COMPLETED") {
      ShippedNeverBreaks(env, ev, alarm, text);
      assert env.tap(ev)[1] == "MissionCompleted";
      var when := SafeNamesInclude(
        env, env.tap(ev), ev, depth, at + 1, "mission-narrator", "MissionCompleted");
      NarratorStores(env, ev, text, depth, when);
      var o :| o in ListenerTrace(env, "mission-narrator", "MissionCompleted", ev, depth, when)
        && o.Emitted? && o.ev.kind == "knowledge";
      assert o in all;
    } else {
      CoreMissionIsQuiet(env, ev, alarm, text, depth, at + 1);
    }
  }

  /** Installing and approving the narrator from the shipped catalog is enough for that. */
  lemma ApprovedNarratorStoresExactly(
      a: Init, b: Init, alarm: (Event, nat) -> bool, text: Event -> string, ev: Event, depth: nat, at: nat)
    requires ev.kind == "mission"
    ensures var state := Run(CATALOG, Empty, [Install("mission-narrator", None, a), Approve("mission-narrator", b)]);
      var env := Live(CATALOG, state, alarm, text);
      env.Ranked() && (Emits(EmitTrace(env, ev, depth, at), "knowledge") <==> Contains(ev.text, "COMPLETED"))
  {
    var ops := [Install("mission-narrator", None, a), Approve("mission-narrator", b)];
    var state := Run(CATALOG, Empty, ops);
    RunIsSound(CATALOG, Empty, ops);
    TwoSteps(ops[0], ops[1]);
    EntryAt(3);
    PermissionsAreKnown(3);
    ApprovedExtensionHears(CATALOG, Empty, "mission-narrator", None, a, b, "MissionCompleted");
    assert NARRATOR.permissions.value[1] == "Store Knowledge";
    NarratorStoresExactly(CATALOG, state, alarm, text, ev, depth, at);
  }

  lemma TwoSteps(first: Op, second: Op)
    ensures Run(CATALOG, Empty, [first, second]) == Step(CATALOG, Step(CATALOG, Empty, first).0, second).0
  {
    assert [first, second][..1] == [first] && [first][..0] == [];
    assert Run(CATALOG, Empty, [first]) == Step(CATALOG, Empty, first).0;
  }
}
