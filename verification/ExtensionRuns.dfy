/** What holds after any run of manager operations, over any finite catalog. */
module ExtensionRuns {
  import opened Wrappers
  import opened Sequences
  import opened Versions
  import opened Extensions

  function Run(cat: Catalog, s: State, ops: seq<Op>): State {
    if ops == [] then s
    else Step(cat, Run(cat, s, ops[..|ops| - 1]), ops[|ops| - 1]).0
  }

  predicate Admissible(cat: Catalog, id: Id) {
    var m := Find(cat, id);
    m.Some? && m.value.Valid() && m.value.Compatible()
  }

  // ---- dependency order ----

  /** Every extension stands after all its dependencies. */
  ghost predicate DependenciesFirst(cat: Catalog, order: seq<Id>) {
    order == [] ||
    var front := order[..|order| - 1];
    DependenciesFirst(cat, front) && forall d :: d in DepsOf(cat, order[|order| - 1]) ==> d in front
  }

  ghost predicate Sound(cat: Catalog, s: State) {
    && WellFormed(s)
    && DependenciesFirst(cat, s.order)
    && forall id :: id in s.records ==> Admissible(cat, id)
  }

  /** An install that takes effect adds one admissible extension, at the end, whose dependencies are there. */
  lemma InstallAdds(cat: Catalog, s: State, op: Op)
    requires op.Install?
    ensures var t := Step(cat, s, op).0;
      || t == s
      || (t.order == s.order + [op.id] && t.records.Keys == s.records.Keys + {op.id}
          && Admissible(cat, op.id) && forall d :: d in DepsOf(cat, op.id) ==> d in s.records)
  {
  }

  lemma InstallKeepsSound(cat: Catalog, s: State, op: Op)
    requires Sound(cat, s) && op.Install?
    ensures Sound(cat, Step(cat, s, op).0)
  {
    StepKeepsWellFormed(cat, s, op);
    InstallAdds(cat, s, op);
    var t := Step(cat, s, op).0;
    if t != s {
      assert t.order[..|t.order| - 1] == s.order;
    }
  }

  lemma UninstallKeepsSound(cat: Catalog, s: State, id: Id)
    requires Sound(cat, s)
    ensures Sound(cat, Step(cat, s, Uninstall(id)).0)
  {
    StepKeepsWellFormed(cat, s, Uninstall(id));
    if !Step(cat, s, Uninstall(id)).1.Refused? {
      WithoutKeepsDependenciesFirst(cat, s.order, id);
    }
  }

  lemma StepKeepsSound(cat: Catalog, s: State, op: Op)
    requires Sound(cat, s)
    ensures Sound(cat, Step(cat, s, op).0)
  {
    match op
    case Install(_, _, _) => InstallKeepsSound(cat, s, op);
    case Uninstall(id) => UninstallKeepsSound(cat, s, id);
    case _ => StepKeepsWellFormed(cat, s, op);
  }

  lemma {:induction false} WithoutKeepsDependenciesFirst(cat: Catalog, order: seq<Id>, id: Id)
    requires DependenciesFirst(cat, order)
    requires forall x :: x in order && x != id ==> id !in DepsOf(cat, x)
    ensures DependenciesFirst(cat, Without(order, id))
  {
    if order != [] {
      var front, last := order[..|order| - 1], order[|order| - 1];
      assert forall x :: x in front ==> x in order;
      assert last in order;
      WithoutKeepsDependenciesFirst(cat, front, id);
      if last != id {
        var rest := Without(front, id);
        assert Without(order, id) == rest + [last] && (rest + [last])[..|rest|] == rest;
        forall d | d in DepsOf(cat, last) ensures d in rest {
          assert d in front && d != id;
        }
      }
    }
  }

  lemma {:induction false} RunIsSound(cat: Catalog, s: State, ops: seq<Op>)
    requires Sound(cat, s)
    ensures Sound(cat, Run(cat, s, ops))
  {
    if ops != [] {
      RunIsSound(cat, s, ops[..|ops| - 1]);
      StepKeepsSound(cat, Run(cat, s, ops[..|ops| - 1]), ops[|ops| - 1]);
    }
  }

  lemma {:induction false} DependenciesFirstAt(cat: Catalog, order: seq<Id>, i: nat, d: Id)
    requires DependenciesFirst(cat, order) && i < |order| && d in DepsOf(cat, order[i])
    ensures d in order[..i]
  {
    if i < |order| - 1 {
      DependenciesFirstAt(cat, order[..|order| - 1], i, d);
      assert order[..|order| - 1][..i] == order[..i];
    }
  }

  /**
   * After any run the insertion order is a topological order, so every dependency of an installed extension is
   * installed.
   */
  lemma InsertionOrderIsTopological(cat: Catalog, ops: seq<Op>)
    ensures var s := Run(cat, Empty, ops);
      && Distinct(s.order)
      && (forall i, d :: 0 <= i < |s.order| && d in DepsOf(cat, s.order[i]) ==> d in s.order[..i])
      && (forall id, d :: id in s.records && d in DepsOf(cat, id) ==> d in s.records)
  {
    var s := Run(cat, Empty, ops);
    RunIsSound(cat, Empty, ops);
    forall i, d | 0 <= i < |s.order| && d in DepsOf(cat, s.order[i]) ensures d in s.order[..i] {
      DependenciesFirstAt(cat, s.order, i, d);
    }
    forall id, d | id in s.records && d in DepsOf(cat, id) ensures d in s.records {
      var i :| 0 <= i < |s.order| && s.order[i] == id;
      assert d in s.order[..i];
    }
  }

  // ---- uninstalling everything ----

  function UninstallsInReverse(order: seq<Id>): seq<Op> {
    if order == [] then []
    else [Uninstall(order[|order| - 1])] + UninstallsInReverse(order[..|order| - 1])
  }

  /** Each operation of the run is carried out; none is refused. */
  predicate AllSucceed(cat: Catalog, s: State, ops: seq<Op>)
    decreases |ops|
  {
    ops == [] || (Step(cat, s, ops[0]).1.Done? && AllSucceed(cat, Step(cat, s, ops[0]).0, ops[1..]))
  }

  lemma {:induction false} RunFromFront(cat: Catalog, s: State, ops: seq<Op>)
    requires ops != []
    ensures Run(cat, s, ops) == Run(cat, Step(cat, s, ops[0]).0, ops[1..])
  {
    if |ops| > 1 {
      var front := ops[..|ops| - 1];
      RunFromFront(cat, s, front);
      assert front[1..] == ops[1..][..|ops| - 2];
    }
  }

  lemma UninstallingTheNewest(cat: Catalog, s: State)
    requires Sound(cat, s) && s.order != []
    ensures var n := |s.order| - 1;
      var (t, r) := Step(cat, s, Uninstall(s.order[n]));
      r == Done && t.order == s.order[..n] && Sound(cat, t)
  {
    var n := |s.order| - 1;
    var front, last := s.order[..n], s.order[n];
    assert last in s.order && last !in front;
    forall x | x in s.order && x != last ensures last !in DepsOf(cat, x) {
      var i :| 0 <= i < |s.order| && s.order[i] == x;
      forall d | d in DepsOf(cat, x) ensures d in front {
        DependenciesFirstAt(cat, s.order, i, d);
      }
    }
    WithoutAbsent(front, last);
    StepKeepsSound(cat, s, Uninstall(last));
  }

  /** From every reachable state, uninstalling in reverse insertion order succeeds at each step, down to nothing. */
  lemma {:induction false} ReverseUninstallEmpties(cat: Catalog, s: State)
    requires Sound(cat, s)
    ensures AllSucceed(cat, s, UninstallsInReverse(s.order))
    ensures Run(cat, s, UninstallsInReverse(s.order)) == Empty
    decreases |s.order|
  {
    if s.order == [] {
      assert forall id :: id !in s.records;
      assert s.records == map[];
    } else {
      var ops := UninstallsInReverse(s.order);
      var t := Step(cat, s, ops[0]).0;
      UninstallingTheNewest(cat, s);
      assert ops[1..] == UninstallsInReverse(t.order);
      ReverseUninstallEmpties(cat, t);
      RunFromFront(cat, s, ops);
    }
  }

  lemma {:induction false} WithoutAbsent(order: seq<Id>, id: Id)
    requires id !in order
    ensures Without(order, id) == order
  {
    if order != [] {
      WithoutAbsent(order[..|order| - 1], id);
    }
  }

  // ---- which extensions can ever be installed ----

  ghost predicate Installable(cat: Catalog, id: Id) {
    exists ops :: id in Run(cat, Empty, ops).records
  }

  /** S contains every admissible extension whose dependencies all lie in S. */
  ghost predicate Closed(cat: Catalog, S: set<Id>) {
    forall id :: Admissible(cat, id) && (forall d :: d in DepsOf(cat, id) ==> d in S) ==> id in S
  }

  /** The least fixed point: what lies in every closed set. */
  ghost predicate InLeastFixedPoint(cat: Catalog, id: Id) {
    forall S: set<Id> :: Closed(cat, S) ==> id in S
  }

  /**
   * An install takes effect exactly for an admissible extension that is not installed and whose dependencies are; no
   * other operation adds a key, and a refused operation changes nothing.
   */
  lemma KeysAfterStep(cat: Catalog, s: State, op: Op)
    ensures var (t, r) := Step(cat, s, op);
      var met := op.Install? && Admissible(cat, op.id) && forall d :: d in DepsOf(cat, op.id) ==> d in s.records;
      && (met ==> t.records.Keys == s.records.Keys + {op.id})
      && (!met ==> t.records.Keys <= s.records.Keys)
      && (op.Install? ==> (!r.Refused? <==> met && op.id !in s.records))
      && (r.Refused? ==> t == s)
  {
  }

  lemma {:induction false} RunsStayInside(cat: Catalog, ops: seq<Op>, S: set<Id>)
    requires Closed(cat, S)
    ensures Run(cat, Empty, ops).records.Keys <= S
  {
    if ops != [] {
      RunsStayInside(cat, ops[..|ops| - 1], S);
      KeysAfterStep(cat, Run(cat, Empty, ops[..|ops| - 1]), ops[|ops| - 1]);
    }
  }

  /** The installs of one run can be repeated after another run. */
  lemma {:induction false} Replay(cat: Catalog, base: seq<Op>, ops: seq<Op>) returns (both: seq<Op>)
    ensures Run(cat, Empty, base).records.Keys + Run(cat, Empty, ops).records.Keys
         <= Run(cat, Empty, both).records.Keys
  {
    if ops == [] {
      both := base;
    } else {
      var front, last := ops[..|ops| - 1], ops[|ops| - 1];
      both := Replay(cat, base, front);
      KeysAfterStep(cat, Run(cat, Empty, front), last);
      KeysAfterStep(cat, Run(cat, Empty, both), last);
      if last.Install? {
        assert (both + [last])[..|both|] == both;
        both := both + [last];
      }
    }
  }

  lemma {:induction false} InstallAll(cat: Catalog, ids: seq<Id>) returns (ops: seq<Op>)
    requires forall id :: id in ids ==> Installable(cat, id)
    ensures forall id :: id in ids ==> id in Run(cat, Empty, ops).records
  {
    if ids == [] {
      ops := [];
    } else {
      assert ids[0] in ids;
      var rest := InstallAll(cat, ids[1..]);
      var one :| ids[0] in Run(cat, Empty, one).records;
      ops := Replay(cat, rest, one);
    }
  }

  function CatalogIds(cat: Catalog): set<Id> {
    set m | m in cat :: m.id
  }

  ghost function InstallableIds(cat: Catalog): (R: set<Id>) {
    set x | x in CatalogIds(cat) && Installable(cat, x)
  }

  lemma InstallableWhenDepsAre(cat: Catalog, id: Id)
    requires Admissible(cat, id)
    requires forall d :: d in DepsOf(cat, id) ==> Installable(cat, d)
    ensures Installable(cat, id)
  {
    var ops := InstallAll(cat, DepsOf(cat, id));
    var more := ops + [Install(id, None, InitRuns)];
    assert more[..|more| - 1] == ops;
    assert id in Run(cat, Empty, more).records;
  }

  lemma InstallableIdsAreClosed(cat: Catalog)
    ensures Closed(cat, InstallableIds(cat))
  {
    var R := InstallableIds(cat);
    forall x | Admissible(cat, x) && (forall d :: d in DepsOf(cat, x) ==> d in R) ensures x in R {
      InstallableWhenDepsAre(cat, x);
      assert Find(cat, x).value in cat;
    }
  }

  /** An extension appears in some reachable state exactly when it is in the least fixed point. */
  lemma InstallableIsLeastFixedPoint(cat: Catalog, id: Id)
    ensures Installable(cat, id) <==> InLeastFixedPoint(cat, id)
  {
    if Installable(cat, id) {
      var ops :| id in Run(cat, Empty, ops).records;
      forall S: set<Id> | Closed(cat, S) ensures id in S {
        RunsStayInside(cat, ops, S);
      }
    }
    InstallableIdsAreClosed(cat);
  }

  /** Nothing on or above a dependency cycle, or above an inadmissible entry, is ever installed. */
  lemma {:induction false} BlockedNeverInstalls(cat: Catalog, blocked: set<Id>, ops: seq<Op>)
    requires forall id :: id in blocked ==> !Admissible(cat, id) || exists d :: d in DepsOf(cat, id) && d in blocked
    ensures Run(cat, Empty, ops).records.Keys !! blocked
  {
    if ops != [] {
      BlockedNeverInstalls(cat, blocked, ops[..|ops| - 1]);
      KeysAfterStep(cat, Run(cat, Empty, ops[..|ops| - 1]), ops[|ops| - 1]);
    }
  }

  // ---- where a permission comes from ----

  /** Which operations of the run took effect rather than being refused. */
  function Successes(cat: Catalog, ops: seq<Op>): (done: seq<bool>)
    ensures |done| == |ops|
  {
    if ops == [] then []
    else
      var front := ops[..|ops| - 1];
      Successes(cat, front) + [!Step(cat, Run(cat, Empty, front), ops[|ops| - 1]).1.Refused?]
  }

  type OpTest = Op -> bool

  function Installs(id: Id): OpTest {
    (op: Op) => op.Install? && op.id == id
  }

  function Approves(id: Id): OpTest {
    (op: Op) => op.Approve? && op.id == id
  }

  function Removes(id: Id): OpTest {
    (op: Op) => op == Uninstall(id)
  }

  function Updates(id: Id): OpTest {
    (op: Op) => op == Update(id)
  }

  function SwitchesOff(id: Id): OpTest {
    (op: Op) => op == SetEnabled(id, false)
  }

  function SwitchesOnOrRemoves(id: Id): OpTest {
    (op: Op) => op == SetEnabled(id, true) || op == Uninstall(id)
  }

  /** Operation i took effect and passes `sets`, and none that took effect since passes `clears`. */
  ghost predicate StandsAt(ops: seq<Op>, done: seq<bool>, sets: OpTest, clears: OpTest, i: nat)
    requires |ops| == |done|
  {
    && i < |ops| && done[i] && sets(ops[i])
    && forall j :: i < j < |ops| && done[j] ==> !clears(ops[j])
  }

  ghost predicate Stands(ops: seq<Op>, done: seq<bool>, sets: OpTest, clears: OpTest)
    requires |ops| == |done|
  {
    exists i: nat :: StandsAt(ops, done, sets, clears, i)
  }

  lemma StandsAfterLast(ops: seq<Op>, done: seq<bool>, sets: OpTest, clears: OpTest)
    requires |ops| == |done| > 0
    ensures var n := |ops| - 1;
      Stands(ops, done, sets, clears) <==>
        (done[n] && sets(ops[n])) || (Stands(ops[..n], done[..n], sets, clears) && !(done[n] && clears(ops[n])))
  {
    var n := |ops| - 1;
    if done[n] && sets(ops[n]) {
      assert StandsAt(ops, done, sets, clears, n);
    } else {
      forall i: nat ensures StandsAt(ops, done, sets, clears, i) <==>
          StandsAt(ops[..n], done[..n], sets, clears, i) && !(done[n] && clears(ops[n])) {
      }
    }
  }

  /** In this run an operation of the first kind took effect, and none of the second kind since. */
  ghost predicate Since(cat: Catalog, ops: seq<Op>, sets: OpTest, clears: OpTest) {
    Stands(ops, Successes(cat, ops), sets, clears)
  }

  lemma SinceLast(cat: Catalog, ops: seq<Op>, sets: OpTest, clears: OpTest)
    requires ops != []
    ensures var (front, last) := (ops[..|ops| - 1], ops[|ops| - 1]);
      var done := !Step(cat, Run(cat, Empty, front), last).1.Refused?;
      Since(cat, ops, sets, clears) <==>
        (done && sets(last)) || (Since(cat, front, sets, clears) && !(done && clears(last)))
  {
    var n := |ops| - 1;
    assert Successes(cat, ops)[..n] == Successes(cat, ops[..n]);
    StandsAfterLast(ops, Successes(cat, ops), sets, clears);
  }

  ghost predicate ApprovedSinceInstall(cat: Catalog, ops: seq<Op>, id: Id) {
    Since(cat, ops, Approves(id), Removes(id))
  }

  ghost predicate OffSinceInstall(cat: Catalog, ops: seq<Op>, id: Id) {
    Since(cat, ops, SwitchesOff(id), SwitchesOnOrRemoves(id))
  }

  /** How one operation changes the record of one extension. */
  lemma RecordAfterStep(cat: Catalog, s: State, op: Op, id: Id)
    ensures var (t, r) := Step(cat, s, op);
      if r.Refused? || op.id != id then
        (id in t.records <==> id in s.records) && (id in s.records ==> t.records[id] == s.records[id])
      else if op.Uninstall? then id in s.records && id !in t.records
      else if op.Install? then
        && id !in s.records && id in t.records && t.records[id].enabled && Find(cat, id).Some?
        && t.records[id].approved == (PermsOf(cat, id) == []) && t.records[id].granted == []
        && t.records[id].version == InstalledVersion(Find(cat, id).value, op.version)
      else
        && id in s.records && id in t.records
        && t.records[id].(healthy := true) ==
             var x := s.records[id].(healthy := true);
             match op
             case Approve(_, _) => x.(approved := true, granted := PermsOf(cat, id))
             case SetEnabled(_, on) => x.(enabled := on)
             case _ => x.(version := if Find(cat, id).Some? then Find(cat, id).value.version else x.version)
  {
  }

  lemma {:induction false} GrantsComeFromApproval(cat: Catalog, ops: seq<Op>, id: Id)
    ensures var s := Run(cat, Empty, ops);
      && (id in s.records ==>
            && s.records[id].granted == (if ApprovedSinceInstall(cat, ops, id) then PermsOf(cat, id) else [])
            && s.records[id].approved == (ApprovedSinceInstall(cat, ops, id) || PermsOf(cat, id) == []))
      && (id !in s.records ==> !ApprovedSinceInstall(cat, ops, id))
  {
    if ops != [] {
      var n := |ops| - 1;
      GrantsComeFromApproval(cat, ops[..n], id);
      RecordAfterStep(cat, Run(cat, Empty, ops[..n]), ops[n], id);
      SinceLast(cat, ops, Approves(id), Removes(id));
    }
  }

  // ---- why an install is refused ----

  /** A field that must be there is not, a list is none, or a permission is none of the eleven. */
  ghost predicate Malformed(m: Manifest) {
    || (exists f :: f in REQUIRED_FIELDS && f !in m.fields)
    || m.permissions.None? || m.requiredApis.None? || m.dependencies.None?
    || exists p :: p in m.Perms() && p !in PERMISSIONS
  }

  /** The first of these dependencies that is not installed. */
  ghost predicate FirstMissing(s: State, deps: seq<Id>, d: Id) {
    exists i :: 0 <= i < |deps| && deps[i] == d && !s.Installed(d) && forall j :: 0 <= j < i ==> s.Installed(deps[j])
  }

  lemma {:induction false} FirstMissingExactly(s: State, deps: seq<Id>, d: Id)
    ensures MissingDependency(s, deps) == Some(d) <==> FirstMissing(s, deps, d)
  {
    if deps != [] {
      var rest := deps[1..];
      FirstMissingExactly(s, rest, d);
      if s.Installed(deps[0]) {
        if FirstMissing(s, rest, d) {
          var i :| 0 <= i < |rest| && rest[i] == d && forall j :: 0 <= j < i ==> s.Installed(rest[j]);
          assert deps[i + 1] == d && forall j :: 0 < j < i + 1 ==> deps[j] == rest[j - 1];
        }
        if FirstMissing(s, deps, d) {
          var i :| 0 <= i < |deps| && deps[i] == d && !s.Installed(d)
            && forall j :: 0 <= j < i ==> s.Installed(deps[j]);
          assert rest[i - 1] == d && forall j :: 0 <= j < i - 1 ==> rest[j] == deps[j + 1];
        }
      } else if deps[0] == d {
        assert FirstMissing(s, deps, d);
      }
    }
  }

  /** Each refusal of an install has its own cause, given that the earlier checks passed. */
  lemma InstallRefusedExactly(cat: Catalog, s: State, op: Op, d: Id)
    requires op.Install?
    ensures var (m, r) := (Find(cat, op.id), Step(cat, s, op).1);
      var fits := m.Some? && !Malformed(m.value) && !Precedes(CORE_VERSION, m.value.needsCore);
      && (r == Refused(UnknownExtension) <==> forall x :: x in cat ==> x.id != op.id)
      && (r == Refused(InvalidManifest) <==> m.Some? && Malformed(m.value))
      && (r == Refused(Incompatible) <==>
            m.Some? && !Malformed(m.value) && Precedes(CORE_VERSION, m.value.needsCore))
      && (r == Refused(DependencyMissing(d)) <==> fits && FirstMissing(s, m.value.Deps(), d))
      && (r == Refused(AlreadyInstalled) <==>
            fits && op.id in s.records && forall x :: x in m.value.Deps() ==> x in s.records)
  {
    var m := Find(cat, op.id);
    if m.Some? {
      FirstMissingExactly(s, m.value.Deps(), d);
    }
  }

  // ---- which extensions are active ----

  lemma {:induction false} InstalledExactly(cat: Catalog, ops: seq<Op>, id: Id)
    ensures id in Run(cat, Empty, ops).records <==> Since(cat, ops, Installs(id), Removes(id))
  {
    if ops != [] {
      var n := |ops| - 1;
      InstalledExactly(cat, ops[..n], id);
      RecordAfterStep(cat, Run(cat, Empty, ops[..n]), ops[n], id);
      SinceLast(cat, ops, Installs(id), Removes(id));
    }
  }

  lemma {:induction false} EnabledExactly(cat: Catalog, ops: seq<Op>, id: Id)
    ensures var s := Run(cat, Empty, ops);
      OffSinceInstall(cat, ops, id) <==> id in s.records && !s.records[id].enabled
  {
    if ops != [] {
      var n := |ops| - 1;
      EnabledExactly(cat, ops[..n], id);
      RecordAfterStep(cat, Run(cat, Empty, ops[..n]), ops[n], id);
      SinceLast(cat, ops, SwitchesOff(id), SwitchesOnOrRemoves(id));
    }
  }

  /**
   * After any run an extension is active exactly when an install of it stands, it asks for no permission or was
   * approved since, and it was not switched off since without being switched on again.
   */
  lemma {:induction false} ActiveExactly(cat: Catalog, ops: seq<Op>, id: Id)
    ensures Run(cat, Empty, ops).Active(id) <==>
      && Since(cat, ops, Installs(id), Removes(id))
      && (ApprovedSinceInstall(cat, ops, id) || PermsOf(cat, id) == [])
      && !OffSinceInstall(cat, ops, id)
  {
    InstalledExactly(cat, ops, id);
    GrantsComeFromApproval(cat, ops, id);
    EnabledExactly(cat, ops, id);
  }

  /**
   * Installed and approved, an extension joins the end of every list its manifest names and no other list, and its
   * facade has exactly what it asks for.
   */
  lemma ApprovedExtensionHears(cat: Catalog, s: State, id: Id, asked: Option<Version>, a: Init, b: Init, name: string)
    requires Sound(cat, s) && id !in s.records && Admissible(cat, id)
    requires forall d :: d in DepsOf(cat, id) ==> d in s.records
    ensures var t := Step(cat, Step(cat, s, Install(id, asked, a)).0, Approve(id, b)).0;
      && t.Active(id)
      && Subscribers(cat, t, name)
         == Subscribers(cat, s, name) + (if name in Find(cat, id).value.listeners then [id] else [])
      && t.records[id].granted == PermsOf(cat, id)
  {
    var r := Step(cat, s, Install(id, asked, a)).0;
    var t := Step(cat, r, Approve(id, b)).0;
    RecordAfterStep(cat, s, Install(id, asked, a), id);
    RecordAfterStep(cat, r, Approve(id, b), id);
    InstallAdds(cat, s, Install(id, asked, a));
    assert t.order == s.order + [id] && t.order[..|s.order|] == s.order;
    forall x | x in s.order ensures s.Active(x) == t.Active(x) {
      RecordAfterStep(cat, s, Install(id, asked, a), x);
      RecordAfterStep(cat, r, Approve(id, b), x);
    }
    HearersDependOnActivity(cat, s, t, s.order, name);
  }

  /** The version on record is the catalog's once updated, and until then the one asked for at the install. */
  lemma {:induction false} VersionExactly(cat: Catalog, ops: seq<Op>, id: Id) returns (i: nat)
    requires id in Run(cat, Empty, ops).records
    ensures Find(cat, id).Some? && i < |ops| && ops[i].Install?
    ensures StandsAt(ops, Successes(cat, ops), Installs(id), Removes(id), i)
    ensures Run(cat, Empty, ops).records[id].version ==
      if Since(cat, ops, Updates(id), Removes(id)) then Find(cat, id).value.version
      else if ops[i].version.Some? then ops[i].version.value
      else if id == "pulse-widget" then [1, 0, 0]
      else Find(cat, id).value.version
  {
    var n := |ops| - 1;
    var s, done := Run(cat, Empty, ops[..n]), Successes(cat, ops);
    RecordAfterStep(cat, s, ops[n], id);
    SinceLast(cat, ops, Updates(id), Removes(id));
    assert done[..n] == Successes(cat, ops[..n]);
    if id in s.records {
      i := VersionExactly(cat, ops[..n], id);
    } else {
      i := n;
      NoUpdateWithoutRecord(cat, ops[..n], id);
    }
  }

  lemma {:induction false} NoUpdateWithoutRecord(cat: Catalog, ops: seq<Op>, id: Id)
    requires id !in Run(cat, Empty, ops).records
    ensures !Since(cat, ops, Updates(id), Removes(id))
  {
    if ops != [] {
      var n := |ops| - 1;
      RecordAfterStep(cat, Run(cat, Empty, ops[..n]), ops[n], id);
      SinceLast(cat, ops, Updates(id), Removes(id));
      if id !in Run(cat, Empty, ops[..n]).records {
        NoUpdateWithoutRecord(cat, ops[..n], id);
      }
    }
  }

  // ---- what the facade lets through ----

  /**
   * After any run a permission-gated facade call goes through exactly for the owner's console, or when the
   * manifest asks for the permission and an approval has granted it since the latest install.
   */
  lemma FacadeNeedsApproval(cat: Catalog, ops: seq<Op>, id: Id, perm: string)
    requires perm in PERMISSIONS
    ensures perm in Granted(Run(cat, Empty, ops), id) <==>
              id == "dev-console" || (perm in PermsOf(cat, id) && ApprovedSinceInstall(cat, ops, id))
  {
    GrantsComeFromApproval(cat, ops, id);
  }

  // ---- updates ----

  /** No operation lowers an installed version, and after an update none is on offer. */
  lemma UpdatesOnlyRaise(cat: Catalog, s: State, op: Op, id: Id)
    requires id in s.records
    ensures var t := Step(cat, s, op).0;
      && (id in t.records ==> Compare(s.records[id].version, t.records[id].version) <= 0)
      && (op == Update(id) ==> !UpdateAvailable(cat, t, id))
  {
    var m := Find(cat, id);
    if m.Some? {
      CompareIsTotalPreorder(m.value.version, s.records[id].version, m.value.version);
    }
    CompareIsTotalPreorder(s.records[id].version, s.records[id].version, s.records[id].version);
  }

  /** Right after a default install an update is on offer exactly for the one extension that ships an older version. */
  lemma FreshInstallOffersUpdateExactly(cat: Catalog, s: State, id: Id, init: Init)
    requires !Step(cat, s, Install(id, None, init)).1.Refused?
    ensures UpdateAvailable(cat, Step(cat, s, Install(id, None, init)).0, id)
         <==> id == "pulse-widget" && Precedes([1, 0, 0], Find(cat, id).value.version)
  {
    var m := Find(cat, id).value;
    CompareIsTotalPreorder(m.version, m.version, m.version);
  }

  /**
   * An uninstall takes effect exactly when the extension is installed and no other installed one depends on it; an
   * exception then leaves it exactly when the catalog has no entry for it any more.
   */
  lemma UninstallSucceedsExactly(cat: Catalog, s: State, id: Id)
    requires WellFormed(s)
    ensures !Step(cat, s, Uninstall(id)).1.Refused?
         <==> id in s.records && forall x :: x in s.records && x != id ==> id !in DepsOf(cat, x)
    ensures Step(cat, s, Uninstall(id)).1.Crashed?
         <==> !Step(cat, s, Uninstall(id)).1.Refused? && Find(cat, id).None?
  {
  }

  /** In a reachable state only an init hook that throws what cannot be read makes an operation end in an exception. */
  lemma OnlyInitCrashes(cat: Catalog, ops: seq<Op>, op: Op)
    requires Step(cat, Run(cat, Empty, ops), op).1.Crashed?
    ensures (op.Install? || op.Approve?) && op.init == InitThrows(false)
    ensures Step(cat, Run(cat, Empty, ops), op).0.Active(op.id)
  {
    RunIsSound(cat, Empty, ops);
  }

  // ---- switching on and off ----

  /**
   * Disabled, an extension hears nothing while all others hear what they heard; enabled again, every list is as before.
   */
  lemma DisablingIsReversible(cat: Catalog, s: State, id: Id, name: string)
    requires WellFormed(s) && id in s.records && s.records[id].enabled
    ensures var off := Step(cat, s, SetEnabled(id, false)).0;
      && Subscribers(cat, off, name) == Without(Subscribers(cat, s, name), id)
      && Step(cat, off, SetEnabled(id, true)).0 == s
  {
    var off := Step(cat, s, SetEnabled(id, false)).0;
    HearersWithout(cat, s, off, s.order, id, name);
    assert off.records[id := off.records[id].(enabled := true)] == s.records;
  }

  lemma {:induction false} HearersWithout(cat: Catalog, s: State, off: State, order: seq<Id>, id: Id, name: string)
    requires !off.Active(id) && forall x :: x != id ==> off.Active(x) == s.Active(x)
    ensures HearersAmong(cat, off, order, name) == Without(HearersAmong(cat, s, order, name), id)
  {
    if order != [] {
      var front, last := order[..|order| - 1], order[|order| - 1];
      HearersWithout(cat, s, off, front, id, name);
      if Hears(cat, s, last, name) {
        var heard := HearersAmong(cat, s, front, name);
        assert (heard + [last])[..|heard|] == heard;
      }
    }
  }

  /** Same keys and the same records, except perhaps for the health mark. */
  ghost predicate SameButHealth(s: State, t: State) {
    && s.order == t.order && s.records.Keys == t.records.Keys
    && forall x :: x in s.records ==> s.records[x].(healthy := true) == t.records[x].(healthy := true)
  }

  /**
   * What a throwing init changes: only the health mark, when its message can be read, and only the outcome when not.
   */
  ghost predicate Contained(t: State, r: Outcome, u: State, q: Outcome, id: Id, readable: bool) {
    && SameButHealth(t, u)
    && (r.Refused? <==> q.Refused?) && (r.Refused? ==> r == q)
    && (!r.Refused? && t.Active(id) ==>
          if readable then r == Done && !t.records[id].healthy else r == Crashed && t == u)
  }

  /** A manifest whose init throws is approved all the same. */
  lemma ApproveContainsInit(cat: Catalog, s: State, id: Id, readable: bool)
    ensures var (t, r) := Step(cat, s, Approve(id, InitThrows(readable)));
      var (u, q) := Step(cat, s, Approve(id, InitRuns));
      && Contained(t, r, u, q, id, readable)
      && (!q.Refused? ==> q == Done && u.records[id].healthy == s.records[id].healthy)
  {
  }

  /** A manifest whose init throws is installed all the same. */
  lemma InstallContainsInit(cat: Catalog, s: State, id: Id, asked: Option<Version>, readable: bool)
    ensures var (t, r) := Step(cat, s, Install(id, asked, InitThrows(readable)));
      var (u, q) := Step(cat, s, Install(id, asked, InitRuns));
      && Contained(t, r, u, q, id, readable)
      && (!q.Refused? ==> q == Done && u.records[id].healthy)
  {
  }
}
