/** What the performance analysis proposes, and that proposing deploys nothing. */
module Proposals {
  import opened Wrappers
  import opened Rings
  import opened Sorting
  import opened Evolution
  import opened EvolutionRuns
  import opened LastInFirstOut

  function ProposeOps(uid: nat -> Id, targets: seq<Target>): seq<Op> {
    seq(|targets|, n requires 0 <= n < |targets| => Propose(uid(n), targets[n]))
  }

  /** uid hands out ids that differ from each other and from those in use. */
  ghost predicate FreshIds(s: State, uid: nat -> Id) {
    && (forall m: nat, n: nat :: m < n ==> uid(m) != uid(n))
    && forall n: nat, i :: 0 <= i < |s.suggestions| ==> s.suggestions[i].id != uid(n)
  }

  ghost predicate AllGrounded(s: State, targets: seq<Target>) {
    forall n :: 0 <= n < |targets| ==> Grounded(s, targets[n])
  }

  // ---- the generated targets are grounded ----

  lemma ArchivesAreGrounded(s: State, docs: seq<DocInfo>, now: real)
    ensures AllGrounded(s, ArchiveTargets(FirstTwo(Filter(docs, Stale(s, now)))))
  {
    var stale := Filter(docs, Stale(s, now));
    forall n | 0 <= n < |FirstTwo(stale)| ensures Stale(s, now)(FirstTwo(stale)[n]) {
      assert stale[n] in stale;
    }
  }

  lemma {:induction false} PromptsAreManual(clones: seq<CloneInfo>)
    ensures forall t :: t in PromptTargets(clones) ==> t.Manual?
  {
    if clones != [] {
      PromptsAreManual(clones[..|clones| - 1]);
    }
  }

  lemma {:induction false} RolesAreManual(roles: seq<string>, clones: seq<CloneInfo>)
    ensures forall t :: t in RoleTargets(roles, clones) ==> t.Manual?
  {
    if roles != [] {
      RolesAreManual(roles[1..], clones);
    }
  }

  lemma GroundedJoins(s: State, a: seq<Target>, b: seq<Target>)
    requires AllGrounded(s, a) && AllGrounded(s, b)
    ensures AllGrounded(s, a + b)
  {
  }

  lemma ManualIsGrounded(s: State, a: seq<Target>)
    requires forall t :: t in a ==> t.Manual?
    ensures AllGrounded(s, a)
  {
    assert forall n :: 0 <= n < |a| ==> a[n] in a;
  }

  lemma GeneratedAreGrounded(s: State, f: Fleet)
    requires DistinctIds(s.workflows)
    ensures AllGrounded(s, GeneratedTargets(s, f))
  {
    var a, p := ArchiveTargets(FirstTwo(Filter(f.docs, Stale(s, f.now)))), PromptTargets(f.clones);
    var r := RoleTargets(f.roles, f.clones);
    var n := if f.neural && f.hasKey then [] else [Manual("neural")];
    ArchivesAreGrounded(s, f.docs, f.now);
    PromptsAreManual(f.clones);
    RolesAreManual(f.roles, f.clones);
    ManualIsGrounded(s, p);
    ManualIsGrounded(s, r);
    ManualIsGrounded(s, n);
    MergesAreGrounded(s);
    GroundedJoins(s, a, p);
    GroundedJoins(s, a + p, r);
    GroundedJoins(s, a + p + r, n);
    GroundedJoins(s, a + p + r + n, MergeTargets(s.workflows));
  }

  lemma {:induction false} BusyHasTwo(ws: seq<Workflow>, owners: seq<Id>)
    ensures FirstBusy(ws, owners).Some? ==> |Filter(ws, OwnedBy(FirstBusy(ws, owners).value))| >= 2
  {
    if owners != [] {
      BusyHasTwo(ws, owners[1..]);
    }
  }

  ghost predicate DistinctIds(ws: seq<Workflow>) {
    UniqueBy(ws, (w: Workflow) => w.id)
  }

  lemma RegisteredIsFound(ws: seq<Workflow>, w: Workflow)
    requires w in ws
    ensures WorkflowIndex(ws, w.id) < |ws|
  {
    var j :| 0 <= j < |ws| && ws[j] == w;
  }

  /** A proposed merge names two different registered workflows of one worker. */
  lemma MergesAreGrounded(s: State)
    requires DistinctIds(s.workflows)
    ensures AllGrounded(s, MergeTargets(s.workflows))
    ensures forall t :: t in MergeTargets(s.workflows) ==> exists v, w ::
      && v in s.workflows && w in s.workflows && t == MergeWorkflows(v.id, w.id)
      && v.workerId.Some? && v.workerId == w.workerId
  {
    var ws := s.workflows;
    var busy := FirstBusy(ws, Owners(ws));
    if busy.Some? {
      var own := Filter(ws, OwnedBy(busy.value));
      BusyHasTwo(ws, Owners(ws));
      FilterKeepsUnique(ws, OwnedBy(busy.value), (w: Workflow) => w.id);
      assert own[0] in own && own[1] in own;
      RegisteredIsFound(ws, own[0]);
      RegisteredIsFound(ws, own[1]);
    }
  }

  lemma {:induction false} OwnersAreComplete(ws: seq<Workflow>, o: Id)
    ensures o in Owners(ws) <==> exists i :: 0 <= i < |ws| && ws[i].workerId == Some(o)
  {
    if ws != [] {
      var n := |ws| - 1;
      OwnersAreComplete(ws[..n], o);
      if ws[n].workerId == Some(o) {
        assert o in Owners(ws);
      }
    }
  }

  lemma {:induction false} BusyIsFirst(ws: seq<Workflow>, owners: seq<Id>, o: Id)
    requires o in owners && |Filter(ws, OwnedBy(o))| >= 2
    ensures FirstBusy(ws, owners).Some?
  {
    if |Filter(ws, OwnedBy(owners[0]))| < 2 {
      BusyIsFirst(ws, owners[1..], o);
    }
  }

  /** A merge is proposed exactly when some worker has at least two workflows. */
  lemma MergeProposedExactly(ws: seq<Workflow>)
    ensures MergeTargets(ws) != [] <==> exists o :: |Filter(ws, OwnedBy(o))| >= 2
  {
    BusyHasTwo(ws, Owners(ws));
    if o :| |Filter(ws, OwnedBy(o))| >= 2 {
      var w := Filter(ws, OwnedBy(o))[0];
      assert w in Filter(ws, OwnedBy(o));
      var i :| 0 <= i < |ws| && ws[i] == w;
      OwnersAreComplete(ws, o);
      BusyIsFirst(ws, Owners(ws), o);
      BusyHasTwo(ws, Owners(ws));
    }
  }

  // ---- an analysis is a run of proposals ----

  /** Suggesting changes the list of suggestions only, and every id in it is an old one or one handed out. */
  lemma {:induction false} AddAllKeepsRest(s: State, uid: nat -> Id, targets: seq<Target>)
    ensures var t := AddAll(s, uid, targets);
      && t == s.(suggestions := t.suggestions)
      && forall x :: x in t.suggestions ==> x in s.suggestions || exists n: nat :: n < |targets| && x.id == uid(n)
  {
    if targets != [] {
      var n := |targets| - 1;
      AddAllKeepsRest(s, uid, targets[..n]);
      var before, t := AddAll(s, uid, targets[..n]), AddAll(s, uid, targets);
      forall x | x in t.suggestions ensures x in s.suggestions || exists k: nat :: k < |targets| && x.id == uid(k) {
        assert x in before.suggestions || x.id == uid(n);
      }
    }
  }

  lemma {:induction false} AddAllIsRun(s: State, uid: nat -> Id, targets: seq<Target>)
    requires FreshIds(s, uid) && AllGrounded(s, targets)
    ensures AddAll(s, uid, targets) == Run(s, ProposeOps(uid, targets))
  {
    if targets != [] {
      var n := |targets| - 1;
      AddAllIsRun(s, uid, targets[..n]);
      AddAllKeepsRest(s, uid, targets[..n]);
      var before := AddAll(s, uid, targets[..n]);
      forall i | 0 <= i < |before.suggestions| ensures before.suggestions[i].id != uid(n) {
        assert before.suggestions[i] in before.suggestions;
      }
      assert Grounded(s, targets[n]) && Grounded(before, targets[n]);
      var last := [Propose(uid(n), targets[n])];
      RunAppends(s, ProposeOps(uid, targets[..n]), last);
      assert ProposeOps(uid, targets) == ProposeOps(uid, targets[..n]) + last;
      assert Run(before, last) == Step(before, last[0]);
    }
  }

  /**
   * An analysis is a run of grounded proposals, and nothing deploys automatically: registry, archived flags and tones
   * are as before, and every suggestion is either an old one or pending.
   */
  lemma AnalysisDeploysNothing(s: State, f: Fleet, uid: nat -> Id)
    requires FreshIds(s, uid) && DistinctIds(s.workflows)
    ensures var targets := GeneratedTargets(s, f);
      var t := AddAll(s, uid, targets);
      && AllGrounded(s, targets) && t == Run(s, ProposeOps(uid, targets))
      && t.workflows == s.workflows && t.archived == s.archived && t.tones == s.tones
      && forall x :: x in t.suggestions ==> x in s.suggestions || x.stage.Pending?
  {
    var targets := GeneratedTargets(s, f);
    GeneratedAreGrounded(s, f);
    AddAllIsRun(s, uid, targets);
    AddAllKeepsRest(s, uid, targets);
    NewOnesArePending(s, uid, targets);
  }

  lemma {:induction false} NewOnesArePending(s: State, uid: nat -> Id, targets: seq<Target>)
    ensures forall x :: x in AddAll(s, uid, targets).suggestions ==> x in s.suggestions || x.stage.Pending?
  {
    if targets != [] {
      var n := |targets| - 1;
      NewOnesArePending(s, uid, targets[..n]);
      var before := AddAll(s, uid, targets[..n]);
      forall x | x in AddAll(s, uid, targets).suggestions ensures x in s.suggestions || x.stage.Pending? {
        assert x in before.suggestions || x.stage.Pending?;
      }
    }
  }
}
