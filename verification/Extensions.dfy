/** The extension manager: an insertion-ordered record map, dependency checks, approval, and the listener index. */
module Extensions {
  import opened Wrappers
  import opened Sequences
  import opened Versions

  type Id = string

  const CORE_VERSION: Version := [1, 0, 0]
  const PERMISSIONS: seq<string> := [
    "Read Knowledge", "Store Knowledge", "Read Missions", "Modify Missions",
    "Access CRM", "Trigger Automations", "Read Revenue", "Manage Organizations",
    "Access Workers", "Access Integrations", "Access Events"]
  const REQUIRED_FIELDS: set<string> :=
    {"id", "name", "version", "author", "category", "description", "requires", "docs"}

  /** A catalog entry. `fields` names the text fields that are present; None stands for a value that is no array. */
  datatype Manifest = Manifest(
    id: Id, fields: set<string>, version: Version, needsCore: Version,
    permissions: Option<seq<string>>, requiredApis: Option<seq<string>>, dependencies: Option<seq<Id>>,
    listeners: set<string>)
  {
    predicate Valid() {
      && REQUIRED_FIELDS <= fields
      && permissions.Some? && requiredApis.Some? && dependencies.Some?
      && forall p :: p in permissions.value ==> p in PERMISSIONS
    }

    predicate Compatible() {
      Compare(CORE_VERSION, needsCore) >= 0
    }

    function Deps(): seq<Id> {
      if dependencies.Some? then dependencies.value else []
    }

    function Perms(): seq<string> {
      if permissions.Some? then permissions.value else []
    }
  }

  type Catalog = seq<Manifest>

  /** The first catalog entry with this id. */
  function Find(cat: Catalog, id: Id): (m: Option<Manifest>)
    ensures m.Some? ==> m.value.id == id && m.value in cat
    ensures m.None? ==> forall x :: x in cat ==> x.id != id
  {
    if cat == [] then None
    else if cat[0].id == id then Some(cat[0])
    else Find(cat[1..], id)
  }

  function DepsOf(cat: Catalog, id: Id): seq<Id> {
    var m := Find(cat, id);
    if m.Some? then m.value.Deps() else []
  }

  function PermsOf(cat: Catalog, id: Id): seq<string> {
    var m := Find(cat, id);
    if m.Some? then m.value.Perms() else []
  }

  datatype Record = Record(version: Version, enabled: bool, approved: bool, granted: seq<string>, healthy: bool)

  /** The persisted map: its keys in insertion order, and the record of each key. */
  datatype State = State(order: seq<Id>, records: map<Id, Record>)
  {
    predicate Installed(id: Id) {
      id in records
    }

    predicate Active(id: Id) {
      id in records && records[id].enabled && records[id].approved
    }
  }

  const Empty := State([], map[])

  ghost predicate WellFormed(s: State) {
    Distinct(s.order) && forall id :: id in s.order <==> id in s.records
  }

  /** What deleting a key leaves of the key order. */
  function Without(order: seq<Id>, id: Id): (r: seq<Id>)
    ensures forall x :: x in r <==> x in order && x != id
  {
    if order == [] then []
    else
      var last := order[|order| - 1];
      var front := Without(order[..|order| - 1], id);
      assert forall x :: x in order <==> x in order[..|order| - 1] || x == last;
      if last == id then front else front + [last]
  }

  /** The first dependency that is not installed. */
  function MissingDependency(s: State, deps: seq<Id>): (d: Option<Id>)
    ensures d.None? <==> forall x :: x in deps ==> s.Installed(x)
    ensures d.Some? ==> d.value in deps && !s.Installed(d.value)
  {
    if deps == [] then None
    else if !s.Installed(deps[0]) then Some(deps[0])
    else MissingDependency(s, deps[1..])
  }

  predicate HasDependents(cat: Catalog, s: State, id: Id) {
    exists x :: x in s.order && x != id && id in DepsOf(cat, x)
  }

  datatype Refusal =
    | UnknownExtension | InvalidManifest | Incompatible | DependencyMissing(dep: Id)
    | AlreadyInstalled | NotInstalled | HasDependentsLeft | NothingToDo

  /** Crashed: the step took effect, but an exception left the operation. */
  datatype Outcome = Done | Refused(why: Refusal) | Crashed

  /**
   * What the manifest's own init hook does when it is called. A throw is readable when its message can be read, which
   * fails for null, undefined, and a message that is no text.
   */
  datatype Init = InitRuns | InitThrows(readable: bool)

  datatype Op =
    | Install(id: Id, version: Option<Version>, init: Init)
    | Approve(id: Id, init: Init)
    | SetEnabled(id: Id, on: bool)
    | Uninstall(id: Id)
    | Update(id: Id)

  function InstalledVersion(m: Manifest, asked: Option<Version>): Version {
    if asked.Some? then asked.value else if m.id == "pulse-widget" then [1, 0, 0] else m.version
  }

  /**
   * activate: only an active extension is initialised. The catch reads the message of what init threw and then marks
   * the record; when it cannot read it, the exception leaves.
   */
  function Activate(s: State, id: Id, init: Init): State {
    if s.Active(id) && init == InitThrows(true)
    then s.(records := s.records[id := s.records[id].(healthy := false)])
    else s
  }

  function ActivateEnds(s: State, id: Id, init: Init): Outcome {
    if s.Active(id) && init == InitThrows(false) then Crashed else Done
  }

  function InstallStep(cat: Catalog, s: State, id: Id, asked: Option<Version>, init: Init): (State, Outcome) {
    var found := Find(cat, id);
    if found.None? then (s, Refused(UnknownExtension)) else
    var m := found.value;
    if !m.Valid() then (s, Refused(InvalidManifest)) else
    if !m.Compatible() then (s, Refused(Incompatible)) else
    var missing := MissingDependency(s, m.Deps());
    if missing.Some? then (s, Refused(DependencyMissing(missing.value))) else
    if s.Installed(id) then (s, Refused(AlreadyInstalled)) else
    var rec := Record(InstalledVersion(m, asked), true, |m.Perms()| == 0, [], true);
    var added := State(s.order + [id], s.records[id := rec]);
    if rec.approved then (Activate(added, id, init), ActivateEnds(added, id, init)) else (added, Done)
  }

  function ApproveStep(cat: Catalog, s: State, id: Id, init: Init): (State, Outcome) {
    if !s.Installed(id) || Find(cat, id).None? || s.records[id].approved then (s, Refused(NothingToDo)) else
    var rec := s.records[id].(approved := true, granted := PermsOf(cat, id));
    var approved := s.(records := s.records[id := rec]);
    (Activate(approved, id, init), ActivateEnds(approved, id, init))
  }

  predicate UpdateAvailable(cat: Catalog, s: State, id: Id) {
    var m := Find(cat, id);
    s.Installed(id) && m.Some? && Compare(m.value.version, s.records[id].version) > 0
  }

  /** Two operations end by announcing the name in the catalog entry, which fails for a record without an entry. */
  function AnnounceEnds(cat: Catalog, id: Id): Outcome {
    if Find(cat, id).None? then Crashed else Done
  }

  function Step(cat: Catalog, s: State, op: Op): (State, Outcome) {
    match op
    case Install(id, version, init) => InstallStep(cat, s, id, version, init)
    case Approve(id, init) => ApproveStep(cat, s, id, init)
    case SetEnabled(id, on) =>
      if !s.Installed(id) then (s, Refused(NotInstalled))
      else (s.(records := s.records[id := s.records[id].(enabled := on)]), AnnounceEnds(cat, id))
    case Uninstall(id) =>
      if !s.Installed(id) then (s, Refused(NotInstalled))
      else if HasDependents(cat, s, id) then (s, Refused(HasDependentsLeft))
      else (State(Without(s.order, id), s.records - {id}), AnnounceEnds(cat, id))
    case Update(id) =>
      if !UpdateAvailable(cat, s, id) then (s, Refused(NothingToDo))
      else (s.(records := s.records[id := s.records[id].(version := Find(cat, id).value.version)]), Done)
  }

  /** What an extension's facade may do: its recorded grants, and everything for the owner's console. */
  function Granted(s: State, id: Id): seq<string> {
    if id == "dev-console" then PERMISSIONS
    else if id in s.records then s.records[id].granted
    else []
  }

  // ---- the listener index ----

  predicate Hears(cat: Catalog, s: State, id: Id, name: string) {
    var m := Find(cat, id);
    s.Active(id) && m.Some? && name in m.value.listeners
  }

  /** The extensions of `order` that are active and listen to `name`, in that order. */
  function HearersAmong(cat: Catalog, s: State, order: seq<Id>, name: string): (r: seq<Id>)
    ensures forall x :: x in r <==> x in order && Hears(cat, s, x, name)
  {
    if order == [] then []
    else
      var last := order[|order| - 1];
      var front := HearersAmong(cat, s, order[..|order| - 1], name);
      assert forall x :: x in order <==> x in order[..|order| - 1] || x == last;
      if Hears(cat, s, last, name) then front + [last] else front
  }

  function Subscribers(cat: Catalog, s: State, name: string): seq<Id> {
    HearersAmong(cat, s, s.order, name)
  }

  type Index = map<string, seq<Id>>

  function Heard(subs: Index, name: string): seq<Id> {
    if name in subs then subs[name] else []
  }

  ghost predicate IndexAgrees(cat: Catalog, s: State, subs: Index) {
    forall name :: Heard(subs, name) == Subscribers(cat, s, name)
  }

  /** Subscribers depend only on which of the listed extensions are active. */
  lemma {:induction false} HearersDependOnActivity(cat: Catalog, s: State, t: State, order: seq<Id>, name: string)
    requires forall x :: x in order ==> s.Active(x) == t.Active(x)
    ensures HearersAmong(cat, s, order, name) == HearersAmong(cat, t, order, name)
  {
    if order != [] {
      var last := order[|order| - 1];
      assert last in order;
      HearersDependOnActivity(cat, s, t, order[..|order| - 1], name);
      assert Hears(cat, s, last, name) == Hears(cat, t, last, name);
    }
  }

  lemma {:induction false} StepKeepsWellFormed(cat: Catalog, s: State, op: Op)
    requires WellFormed(s)
    ensures WellFormed(Step(cat, s, op).0)
  {
    match op
    case Uninstall(id) => WithoutKeepsDistinct(s.order, id);
    case _ =>
  }

  lemma {:induction false} WithoutKeepsDistinct(order: seq<Id>, id: Id)
    requires Distinct(order)
    ensures Distinct(Without(order, id))
  {
    if order != [] {
      var front, last := order[..|order| - 1], order[|order| - 1];
      WithoutKeepsDistinct(front, id);
      assert last !in front;
    }
  }

  /** An operation after which the source does not recompute the index leaves every subscriber list as it was. */
  lemma IndexSurvivesQuietSteps(cat: Catalog, s: State, t: State, subs: Index)
    requires IndexAgrees(cat, s, subs)
    requires s.order <= t.order
    requires forall x :: s.Active(x) == t.Active(x)
    requires forall x :: x in t.order[|s.order|..] ==> !t.Active(x)
    ensures IndexAgrees(cat, t, subs)
  {
    forall name ensures Heard(subs, name) == Subscribers(cat, t, name) {
      HearersDependOnActivity(cat, s, t, s.order, name);
      IdleTailHearsNothing(cat, t, s.order, t.order[|s.order|..], name);
      assert s.order + t.order[|s.order|..] == t.order;
    }
  }

  lemma {:induction false} IdleTailHearsNothing(cat: Catalog, t: State, order: seq<Id>, tail: seq<Id>, name: string)
    requires forall x :: x in tail ==> !t.Active(x)
    ensures HearersAmong(cat, t, order + tail, name) == HearersAmong(cat, t, order, name)
  {
    if tail == [] {
      assert order + tail == order;
    } else {
      assert (order + tail)[..|order + tail| - 1] == order + tail[..|tail| - 1];
      assert tail[|tail| - 1] in tail;
      IdleTailHearsNothing(cat, t, order, tail[..|tail| - 1], name);
    }
  }

  /** The running manager. `subs` is recomputed by the source only at some steps. */
  class ExtensionManager {
    const catalog: Catalog
    var order: seq<Id>
    var records: map<Id, Record>
    var subs: Index

    function Model(): State
      reads this
    {
      State(order, records)
    }

    ghost predicate Valid()
      reads this
    {
      WellFormed(Model()) && IndexAgrees(catalog, Model(), subs)
    }

    constructor Boot(catalog: Catalog, persisted: State)
      requires WellFormed(persisted)
      ensures Valid() && Model() == persisted && this.catalog == catalog
    {
      this.catalog := catalog;
      order, records := persisted.order, persisted.records;
      new;
      subs := RebuildSubs();
    }

    method RebuildSubs() returns (out: Index)
      ensures IndexAgrees(catalog, Model(), out)
    {
      out := map[];
      for i := 0 to |order|
        invariant forall name :: Heard(out, name) == HearersAmong(catalog, Model(), order[..i], name)
      {
        var id := order[i];
        assert order[..i + 1][..i] == order[..i];
        var m := Find(catalog, id);
        if m.Some? && Model().Active(id) {
          out := AddListener(out, id, m.value.listeners);
        }
      }
      assert order[..|order|] == order;
    }

    /** The inner loop over one manifest's listeners. */
    static method AddListener(subs: Index, id: Id, names: set<string>) returns (out: Index)
      ensures forall name :: Heard(out, name) == Heard(subs, name) + (if name in names then [id] else [])
    {
      out := subs;
      var todo := names;
      while todo != {}
        invariant todo <= names
        invariant forall name :: Heard(out, name) == Heard(subs, name) + (if name in names - todo then [id] else [])
      {
        var name :| name in todo;
        out := out[name := Heard(out, name) + [id]];
        todo := todo - {name};
      }
    }

    method ActivateExtension(id: Id, init: Init) returns (r: Outcome)
      requires WellFormed(Model())
      requires !Model().Active(id) ==> IndexAgrees(catalog, Model(), subs)
      modifies this
      ensures Valid() && Model() == Activate(old(Model()), id, init) && r == ActivateEnds(old(Model()), id, init)
    {
      if id !in records || !records[id].enabled || !records[id].approved {
        return Done;
      }
      subs := RebuildSubs();
      if init == InitThrows(false) {
        return Crashed;
      }
      if init.InitThrows? {
        ghost var before := Model();
        records := records[id := records[id].(healthy := false)];
        IndexSurvivesQuietSteps(catalog, before, Model(), subs);
      }
      return Done;
    }

    method DoInstall(id: Id, asked: Option<Version>, init: Init) returns (r: Outcome)
      requires Valid()
      modifies this
      ensures Valid() && (Model(), r) == Step(catalog, old(Model()), Install(id, asked, init))
    {
      ghost var before := Model();
      StepKeepsWellFormed(catalog, before, Install(id, asked, init));
      var m := Find(catalog, id);
      if m.None? { return Refused(UnknownExtension); }
      if !m.value.Valid() { return Refused(InvalidManifest); }
      var c := CmpVersion(CORE_VERSION, m.value.needsCore);
      if c < 0 { return Refused(Incompatible); }
      var deps := m.value.Deps();
      for i := 0 to |deps|
        invariant MissingDependency(before, deps) == MissingDependency(before, deps[i..])
      {
        if deps[i] !in records { return Refused(DependencyMissing(deps[i])); }
      }
      if id in records { return Refused(AlreadyInstalled); }
      var rec := Record(InstalledVersion(m.value, asked), true, |m.value.Perms()| == 0, [], true);
      order, records := order + [id], records[id := rec];
      if rec.approved {
        r := ActivateExtension(id, init);
      } else {
        IndexSurvivesQuietSteps(catalog, before, Model(), subs);
        r := Done;
      }
    }

    method DoApprove(id: Id, init: Init) returns (r: Outcome)
      requires Valid()
      modifies this
      ensures Valid() && (Model(), r) == Step(catalog, old(Model()), Approve(id, init))
    {
      ghost var before := Model();
      var m := Find(catalog, id);
      if id !in records || m.None? || records[id].approved { return Refused(NothingToDo); }
      records := records[id := records[id].(approved := true)];
      records := records[id := records[id].(granted := m.value.Perms())];
      assert records == before.records[id := before.records[id].(approved := true, granted := PermsOf(catalog, id))];
      if !records[id].enabled {
        IndexSurvivesQuietSteps(catalog, before, Model(), subs);
      }
      r := ActivateExtension(id, init);
    }

    method DoSetEnabled(id: Id, on: bool) returns (r: Outcome)
      requires Valid()
      modifies this
      ensures Valid() && (Model(), r) == Step(catalog, old(Model()), SetEnabled(id, on))
    {
      if id !in records { return Refused(NotInstalled); }
      records := records[id := records[id].(enabled := on)];
      subs := RebuildSubs();
      return AnnounceEnds(catalog, id);
    }

    method DoUninstall(id: Id) returns (r: Outcome)
      requires Valid()
      modifies this
      ensures Valid() && (Model(), r) == Step(catalog, old(Model()), Uninstall(id))
    {
      StepKeepsWellFormed(catalog, Model(), Uninstall(id));
      if id !in records { return Refused(NotInstalled); }
      for i := 0 to |order|
        invariant forall j :: 0 <= j < i ==> order[j] == id || id !in DepsOf(catalog, order[j])
      {
        if order[i] != id && id in DepsOf(catalog, order[i]) { return Refused(HasDependentsLeft); }
      }
      order, records := Without(order, id), records - {id};
      subs := RebuildSubs();
      return AnnounceEnds(catalog, id);
    }

    method DoUpdate(id: Id) returns (r: Outcome)
      requires Valid()
      modifies this
      ensures Valid() && (Model(), r) == Step(catalog, old(Model()), Update(id))
    {
      var m := Find(catalog, id);
      if id !in records || m.None? { return Refused(NothingToDo); }
      var c := CmpVersion(m.value.version, records[id].version);
      if c <= 0 { return Refused(NothingToDo); }
      ghost var before := Model();
      records := records[id := records[id].(version := m.value.version)];
      IndexSurvivesQuietSteps(catalog, before, Model(), subs);
      return Done;
    }
  }
}
