/** When undoing merges brings back the order of the workflow registry, and not only its contents. */
module RegistryOrder {
  import opened Wrappers
  import opened Rings
  import opened Sequences
  import opened Sorting
  import opened Evolution
  import opened EvolutionRuns
  import opened LastInFirstOut

  /** No id is held twice, in the registry or in payloads together. */
  ghost predicate NoTwins(s: State) {
    forall id: Id :: Kept(s, HasId(id)) <= 1
  }

  /** As long as every registered workflow has an id of its own, no run leaves twins. */
  lemma FreshIdsLeaveNoTwins(archived: map<Id, bool>, tones: map<Id, string>, ops: seq<Op>)
    requires forall id: Id :: EverAdded(ops, HasId(id)) <= 1
    ensures NoTwins(Run(State([], [], archived, tones), ops))
  {
    forall id: Id ensures Kept(Run(State([], [], archived, tones), ops), HasId(id)) <= 1 {
      WorkflowsAreConserved(State([], [], archived, tones), ops, id);
      assert EverAdded(ops, HasId(id)) <= 1;
    }
  }

  /** The ids of these workflows, in order. */
  function Ids(ws: seq<Workflow>): seq<Id> {
    seq(|ws|, i requires 0 <= i < |ws| => ws[i].id)
  }

  function Outside(out: set<Id>): Id -> bool {
    (id: Id) => id !in out
  }

  function Inside(ids: seq<Id>): Id -> bool {
    (id: Id) => id in ids
  }

  /** The ids of a list that are not in a set. */
  function Drop(ids: seq<Id>, out: set<Id>): seq<Id> {
    Filter(ids, Outside(out))
  }

  /** The ids of one list that also stand in the other. */
  function Among(ids: seq<Id>, others: seq<Id>): seq<Id> {
    Filter(ids, Inside(others))
  }

  /** The ids an operation takes out of the registry. */
  function Taken(s: State, op: Op): set<Id> {
    if op.DeleteWorkflow? then {op.id}
    else if op.Apply? && InStage(s, op.id, Approved) then
      var x := s.suggestions[Position(s.suggestions, op.id).value].target;
      if x.MergeWorkflows? then {x.removeId} else {}
    else {}
  }

  /** The ids an operation puts at the end of the registry: one put back, or one registered. */
  function PutIn(s: State, op: Op): seq<Id> {
    if op.AddWorkflow? then [op.wf.id]
    else if op.Rollback? && InStage(s, op.id, Monitored)
    then Ids(HeldBy(s.suggestions[Position(s.suggestions, op.id).value]))
    else []
  }

  function AllTaken(s: State, ops: seq<Op>): set<Id>
    decreases |ops|
  {
    if ops == [] then {} else Taken(s, ops[0]) + AllTaken(Step(s, ops[0]), ops[1..])
  }

  /** The ids a run puts in and does not take out again, in the order in which they are put in. */
  function Arrivals(s: State, ops: seq<Op>): seq<Id>
    decreases |ops|
  {
    if ops == [] then []
    else
      var t := Step(s, ops[0]);
      Drop(PutIn(s, ops[0]), AllTaken(t, ops[1..])) + Arrivals(t, ops[1..])
  }

  // ---- ids of their own ----

  /** No id is kept twice, and none that is kept, or was registered in this run, is registered again. */
  ghost predicate Fresh(s: State, ops: seq<Op>) {
    forall id: Id :: Kept(s, HasId(id)) + EverAdded(ops, HasId(id)) <= 1
  }

  lemma FreshStays(s: State, ops: seq<Op>)
    requires Inv(s) && ops != [] && Fresh(s, ops)
    ensures Fresh(Step(s, ops[0]), ops[1..])
  {
    forall id: Id ensures Kept(Step(s, ops[0]), HasId(id)) + EverAdded(ops[1..], HasId(id)) <= 1 {
      StepBalances(s, ops[0], HasId(id));
      assert Kept(s, HasId(id)) + EverAdded(ops, HasId(id)) <= 1;
    }
  }

  lemma {:induction false} CountedIsThere(ws: seq<Workflow>, i: nat, p: Test)
    requires i < |ws| && p(ws[i])
    ensures Num(ws, p) >= 1
  {
    if i > 0 {
      CountedIsThere(ws[1..], i - 1, p);
    }
  }

  lemma {:induction false} CountedTwice(ws: seq<Workflow>, i: nat, j: nat, p: Test)
    requires i < j < |ws| && p(ws[i]) && p(ws[j])
    ensures Num(ws, p) >= 2
  {
    if i == 0 {
      CountedIsThere(ws[1..], j - 1, p);
    } else {
      CountedTwice(ws[1..], i - 1, j - 1, p);
    }
  }

  lemma FreshIdsAreDistinct(s: State, ops: seq<Op>)
    requires Fresh(s, ops)
    ensures Distinct(Ids(s.workflows))
  {
    var ws := s.workflows;
    forall i, j | 0 <= i < j < |ws| ensures ws[i].id != ws[j].id {
      assert Kept(s, HasId(ws[i].id)) + EverAdded(ops, HasId(ws[i].id)) <= 1;
      if ws[i].id == ws[j].id {
        CountedTwice(ws, i, j, HasId(ws[i].id));
      }
    }
  }

  // ---- the registry after a run ----

  function RemoveFirst(ws: seq<Workflow>, id: Id): seq<Workflow> {
    var k := WorkflowIndex(ws, id);
    if k < |ws| then ws[..k] + ws[k + 1..] else ws
  }

  lemma ApplyRemoves(s: State, id: Id)
    ensures var ids := Taken(s, Apply(id));
      || (ids == {} && Step(s, Apply(id)).workflows == s.workflows)
      || exists r :: ids == {r} && Step(s, Apply(id)).workflows == RemoveFirst(s.workflows, r)
  {
  }

  lemma {:induction false} DropFromFirst(x: Id, rest: seq<Id>, out: set<Id>)
    ensures Drop([x] + rest, out) == (if x in out then [] else [x]) + Drop(rest, out)
  {
    FilterAppends([x], rest, Outside(out));
    FilterOfLast([], x, Outside(out));
    assert [] + [x] == [x];
  }

  lemma {:induction false} DropAbsent(ids: seq<Id>, x: Id)
    requires x !in ids
    ensures Drop(ids, {x}) == ids
  {
    FilterAll(ids, Outside({x}));
  }

  lemma {:induction false} DropOne(front: seq<Id>, x: Id, back: seq<Id>)
    requires Drop(front, {x}) == front && Drop(back, {x}) == back
    ensures Drop(front + ([x] + back), {x}) == front + back
  {
    FilterAppends(front, [x] + back, Outside({x}));
    DropFromFirst(x, back, {x});
  }

  lemma {:induction false} DropAt(ids: seq<Id>, k: nat)
    requires Distinct(ids) && k < |ids|
    ensures Drop(ids, {ids[k]}) == ids[..k] + ids[k + 1..]
  {
    DropAbsent(ids[..k], ids[k]);
    DropAbsent(ids[k + 1..], ids[k]);
    DropOne(ids[..k], ids[k], ids[k + 1..]);
    assert ids == ids[..k] + ([ids[k]] + ids[k + 1..]);
  }

  lemma IdsAround(ws: seq<Workflow>, k: nat)
    requires k < |ws|
    ensures Ids(ws[..k] + ws[k + 1..]) == Ids(ws)[..k] + Ids(ws)[k + 1..] && Ids(ws)[k] == ws[k].id
  {
  }

  lemma UnregisteredId(ws: seq<Workflow>, r: Id)
    requires WorkflowIndex(ws, r) == |ws|
    ensures r !in Ids(ws)
  {
  }

  /** Taking out the only workflow with an id drops that id. */
  lemma {:induction false} RemoveFirstDrops(ws: seq<Workflow>, r: Id)
    requires Distinct(Ids(ws))
    ensures Ids(RemoveFirst(ws, r)) == Drop(Ids(ws), {r})
  {
    var k := WorkflowIndex(ws, r);
    if k < |ws| {
      IdsAround(ws, k);
      DropAt(Ids(ws), k);
    } else {
      UnregisteredId(ws, r);
      DropAbsent(Ids(ws), r);
    }
  }

  lemma {:induction false} KeepFromFirst(ws: seq<Workflow>, id: Id)
    requires ws != []
    ensures Ids(ws) == [ws[0].id] + Ids(ws[1..])
    ensures Ids(Keep(ws, id)) == (if ws[0].id in {id} then [] else [ws[0].id]) + Ids(Keep(ws[1..], id))
  {
  }

  lemma {:induction false} KeepDrops(ws: seq<Workflow>, id: Id)
    ensures Ids(Keep(ws, id)) == Drop(Ids(ws), {id})
  {
    if ws != [] {
      KeepDrops(ws[1..], id);
      KeepFromFirst(ws, id);
      DropFromFirst(ws[0].id, Ids(ws[1..]), {id});
    }
  }

  lemma {:induction false} OthersPutIn(s: State, op: Op)
    requires !op.Apply? && !op.DeleteWorkflow?
    ensures Ids(Step(s, op).workflows) == Ids(s.workflows) + PutIn(s, op)
  {
    match op
    case RunWorkflow(_, _) => assert Ids(Step(s, op).workflows) == Ids(s.workflows);
    case _ =>
  }

  lemma {:induction false} RegistryAfterStep(s: State, op: Op)
    requires Distinct(Ids(s.workflows))
    ensures Ids(Step(s, op).workflows) == Drop(Ids(s.workflows), Taken(s, op)) + PutIn(s, op)
  {
    FilterAll(Ids(s.workflows), Outside({}));
    if op.Apply? {
      ApplyRemoves(s, op.id);
      if Taken(s, op) != {} {
        var r :| Taken(s, op) == {r} && Step(s, op).workflows == RemoveFirst(s.workflows, r);
        RemoveFirstDrops(s.workflows, r);
      }
    } else if op.DeleteWorkflow? {
      KeepDrops(s.workflows, op.id);
    } else {
      OthersPutIn(s, op);
    }
  }

  lemma {:induction false} StepsJoin(
      ids: seq<Id>, taken: set<Id>, put: seq<Id>, later: set<Id>, rest: seq<Id>)
    ensures Drop(Drop(ids, taken) + put, later) + rest == Drop(ids, taken + later) + (Drop(put, later) + rest)
  {
    FilterAppends(Drop(ids, taken), put, Outside(later));
    FilterTwice(ids, Outside(taken), Outside(later), Outside(taken + later));
  }

  /** The registry is what was never taken out, in its order, and behind it what was put in. */
  ghost predicate Accounted(s: State, ops: seq<Op>) {
    Ids(Run(s, ops).workflows) == Drop(Ids(s.workflows), AllTaken(s, ops)) + Arrivals(s, ops)
  }

  lemma {:induction false} AccountedFromNext(s: State, ops: seq<Op>)
    requires ops != [] && Accounted(Step(s, ops[0]), ops[1..])
    requires Ids(Step(s, ops[0]).workflows) == Drop(Ids(s.workflows), Taken(s, ops[0])) + PutIn(s, ops[0])
    ensures Accounted(s, ops)
  {
    var op, rest, t := ops[0], ops[1..], Step(s, ops[0]);
    StepsJoin(Ids(s.workflows), Taken(s, op), PutIn(s, op), AllTaken(t, rest), Arrivals(t, rest));
  }

  /** After any run, whatever it registers, runs, deletes, merges or undoes. */
  lemma {:induction false} RegistryAfterRun(s: State, ops: seq<Op>)
    requires Inv(s) && Fresh(s, ops)
    ensures Accounted(s, ops) && Distinct(Ids(Run(s, ops).workflows))
    decreases |ops|
  {
    FreshIdsAreDistinct(s, ops);
    if ops == [] {
      FilterAll(Ids(s.workflows), Outside({}));
    } else {
      StepKeepsInv(s, ops[0]);
      FreshStays(s, ops);
      RegistryAfterRun(Step(s, ops[0]), ops[1..]);
      RegistryAfterStep(s, ops[0]);
      AccountedFromNext(s, ops);
    }
  }

  // ---- when the order comes back ----

  predicate EndsWith(ids: seq<Id>, tail: seq<Id>) {
    |tail| <= |ids| && ids[|ids| - |tail|..] == tail
  }

  lemma {:induction false} Repeats(a: seq<Id>, b: seq<Id>, x: Id)
    requires x in a && x in b
    ensures !Distinct(a + b)
  {
    var i :| 0 <= i < |a| && a[i] == x;
    var j :| 0 <= j < |b| && b[j] == x;
    assert (a + b)[i] == (a + b)[|a| + j];
  }

  lemma {:induction false} DropTail(front: seq<Id>, tail: seq<Id>, out: set<Id>)
    requires Distinct(front + tail) && forall x :: x in out <==> x in tail
    ensures Drop(front + tail, out) == front
  {
    forall x | x in front ensures x !in tail {
      if x in tail {
        Repeats(front, tail, x);
      }
    }
    FilterAppends(front, tail, Outside(out));
    FilterAll(front, Outside(out));
    FilterNone(tail, Outside(out));
  }

  lemma {:induction false} FrontRemains(ids: seq<Id>, tail: seq<Id>, out: set<Id>)
    requires Distinct(ids) && EndsWith(ids, tail) && forall x :: x in out <==> x in tail
    ensures ids == Drop(ids, out) + tail
  {
    var front := ids[..|ids| - |tail|];
    assert ids == front + tail;
    DropTail(front, tail, out);
  }

  /** Of a list without repetition some ids are taken out and others put at its end. */
  lemma {:induction false} OrderOfSurvivors(before: seq<Id>, after: seq<Id>, taken: set<Id>, put: seq<Id>)
    requires Distinct(before) && Distinct(after) && after == Drop(before, taken) + put
    ensures Among(after, before) == Among(before, after) <==> EndsWith(Among(before, after), Among(put, before))
  {
    var stayed, back, both := Drop(before, taken), Among(put, before), Among(before, after);
    FilterAppends(stayed, put, Inside(before));
    FilterAll(stayed, Inside(before));
    assert Among(after, before) == stayed + back;
    var out := set x | x in back;
    forall x | x in before ensures Outside(taken)(x) == (Inside(after)(x) && Outside(out)(x)) {
      if x in stayed && x in put {
        Repeats(stayed, put, x);
      }
    }
    FilterTwice(before, Inside(after), Outside(out), Outside(taken));
    assert Drop(both, out) == stayed;
    if EndsWith(both, back) {
      DistinctFilter(before, Inside(after));
      FrontRemains(both, back, out);
    }
  }

  lemma {:induction false} DistinctFilter(ids: seq<Id>, p: Id -> bool)
    requires Distinct(ids)
    ensures Distinct(Filter(ids, p))
  {
    if ids != [] {
      DistinctFilter(ids[..|ids| - 1], p);
    }
  }

  /**
   * Over any run, the workflows that are registered before and after it stand in their old order exactly when those of
   * them that were put back are the last ones of the old order, put back in that order.
   */
  lemma SurvivorsKeepOrderExactly(s: State, ops: seq<Op>)
    requires Inv(s) && Fresh(s, ops)
    ensures var before, after := Ids(s.workflows), Ids(Run(s, ops).workflows);
      Among(after, before) == Among(before, after) <==> EndsWith(Among(before, after), Among(Arrivals(s, ops), before))
  {
    FreshIdsAreDistinct(s, ops);
    RegistryAfterRun(s, ops);
    OrderOfSurvivors(
      Ids(s.workflows), Ids(Run(s, ops).workflows), AllTaken(s, ops), Arrivals(s, ops));
  }

  lemma {:induction false} QuietIsFresh(s: State, ops: seq<Op>)
    requires NoTwins(s) && AllQuiet(s, ops)
    ensures Fresh(s, ops)
  {
    forall id: Id ensures Kept(s, HasId(id)) + EverAdded(ops, HasId(id)) <= 1 {
      QuietAddsNothing(s, ops, HasId(id));
      assert Kept(s, HasId(id)) <= 1;
    }
  }

  lemma {:induction false} QuietAddsNothing(s: State, ops: seq<Op>, p: Test)
    requires AllQuiet(s, ops)
    ensures EverAdded(ops, p) == 0
    decreases |ops|
  {
    if ops != [] {
      QuietAddsNothing(Step(s, ops[0]), ops[1..], p);
    }
  }

  lemma {:induction false} SameMembersSameIds(a: seq<Workflow>, b: seq<Workflow>)
    requires multiset(a) == multiset(b)
    ensures forall x :: x in Ids(a) <==> x in Ids(b)
    ensures Distinct(Ids(a)) && Ids(a) == Ids(b) ==> a == b
  {
    forall i | 0 <= i < |a| ensures a[i].id in Ids(b) {
      assert a[i] in multiset(b);
      var j :| 0 <= j < |b| && b[j] == a[i];
      assert Ids(b)[j] == a[i].id;
    }
    forall j | 0 <= j < |b| ensures b[j].id in Ids(a) {
      assert b[j] in multiset(a);
      var i :| 0 <= i < |a| && a[i] == b[j];
      assert Ids(a)[i] == b[j].id;
    }
    if Distinct(Ids(a)) && Ids(a) == Ids(b) {
      forall i | 0 <= i < |a| ensures a[i] == b[i] {
        assert a[i] in multiset(b);
        var j :| 0 <= j < |b| && b[j] == a[i];
        assert Ids(b)[j] == Ids(a)[i];
      }
    }
  }

  /**
   * Once the archives and merges of a quiet run are undone, in any order, the registry is in its old order exactly when
   * the workflows put back are the last ones of the registry, put back in the order in which they stood there.
   */
  lemma {:induction false} OrderComesBackExactly(s: State, ops: seq<Op>)
    requires Inv(s) && NoTwins(s) && AllQuiet(s, ops)
    requires SameClaims(s.suggestions, Run(s, ops).suggestions)
    ensures Run(s, ops).workflows == s.workflows <==> EndsWith(Ids(s.workflows), Arrivals(s, ops))
  {
    var t := Run(s, ops);
    var before, after := Ids(s.workflows), Ids(t.workflows);
    QuietIsFresh(s, ops);
    RegistryAfterRun(s, ops);
    SurvivorsKeepOrderExactly(s, ops);
    UndoingInAnyOrderRestores(s, ops);
    SameMembersSameIds(t.workflows, s.workflows);
    FilterAll(before, Inside(after));
    FilterAll(after, Inside(before));
    FilterAll(Arrivals(s, ops), Inside(before));
  }

  /**
   * One merge undone at once leaves the order as it was exactly when the removed workflow was the last one, or not
   * there.
   */
  lemma MergeUndoneKeepsOrderExactly(s: State, id: Id)
    requires Inv(s) && InStage(s, id, Approved)
    requires var x := s.suggestions[Position(s.suggestions, id).value].target;
      x.MergeWorkflows? && Num(s.workflows, HasId(x.removeId)) <= 1
    ensures var x := s.suggestions[Position(s.suggestions, id).value].target;
      Step(Step(s, Apply(id)), Rollback(id)).workflows == s.workflows
      <==> WorkflowIndex(s.workflows, x.removeId) + 1 >= |s.workflows|
  {
    var i, ws, t := Position(s.suggestions, id).value, s.workflows, Step(s, Apply(id));
    var k := WorkflowIndex(ws, s.suggestions[i].target.removeId);
    MergeOfApply(s, id);
    PositionIs(t.suggestions, id, i);
    RegistryOfRollback(t, id, i);
    if k < |ws| {
      MovedToEnd(ws, k);
    }
  }

  lemma RegistryOfRollback(s: State, id: Id, i: nat)
    requires Position(s.suggestions, id) == Some(i) && s.suggestions[i].stage.Monitored?
    ensures Step(s, Rollback(id)).workflows == s.workflows + HeldBy(s.suggestions[i])
  {
  }

  lemma MergeOfApply(s: State, id: Id)
    requires Inv(s) && InStage(s, id, Approved)
    requires s.suggestions[Position(s.suggestions, id).value].target.MergeWorkflows?
    ensures var (i, ws, t) := (Position(s.suggestions, id).value, s.workflows, Step(s, Apply(id)));
      var k := WorkflowIndex(ws, s.suggestions[i].target.removeId);
      && |t.suggestions| == |s.suggestions| && t.suggestions[i].stage.Monitored?
      && (forall j :: 0 <= j < |s.suggestions| ==> t.suggestions[j].id == s.suggestions[j].id)
      && HeldBy(t.suggestions[i]) == (if k < |ws| then [ws[k]] else [])
      && t.workflows == (if k < |ws| then ws[..k] + ws[k + 1..] else ws)
  {
  }

  lemma {:induction false} MovedToEnd(ws: seq<Workflow>, k: nat)
    requires k < |ws| && Num(ws, HasId(ws[k].id)) <= 1
    ensures (ws[..k] + ws[k + 1..]) + [ws[k]] == ws <==> k + 1 == |ws|
  {
    var rest := ws[..k] + ws[k + 1..];
    if k + 1 < |ws| && rest + [ws[k]] == ws {
      assert rest[k] == ws[k + 1] && (rest + [ws[k]])[k] == ws[k];
      NumAround(ws, k, HasId(ws[k].id));
      CountedIsThere(rest, k, HasId(ws[k].id));
    }
    if k + 1 == |ws| {
      assert ws[k + 1..] == [];
    }
  }

  // ---- a merge that leaves neither workflow ----

  /** Two workflows are registered and merged, but the one to keep is deleted before the merge is carried out. */
  const EMPTYING: seq<Op> := [
    AddWorkflow(A), AddWorkflow(B),
    Propose("m", MergeWorkflows("a", "b")), Approve("m"), DeleteWorkflow("a"), Apply("m")]

  const DOWN: seq<State> := [
    Only([]), Only([A]), Only([A, B]),
    With([A, B], Pending, None), With([A, B], Approved, None), With([B], Approved, None), With([], Monitored, Some(B))]

  lemma ProposeForTwo()
    ensures Step(Only([]), AddWorkflow(A)) == Only([A])
    ensures Step(Only([A]), AddWorkflow(B)) == Only([A, B])
    ensures Step(Only([A, B]), Propose("m", MergeWorkflows("a", "b"))) == With([A, B], Pending, None)
    ensures Step(With([A, B], Pending, None), Approve("m")) == With([A, B], Approved, None)
  {
    assert WorkflowIndex([A, B], "a") == 0;
    assert [A, B][1..] == [B] && WorkflowIndex([B], "b") == 0;
  }

  lemma DeleteAndMerge()
    ensures Step(With([A, B], Approved, None), DeleteWorkflow("a")) == With([B], Approved, None)
    ensures Step(With([B], Approved, None), Apply("m")) == With([], Monitored, Some(B))
  {
    assert [A, B][1..] == [B] && [B][1..] == [];
    assert Keep([B], "a") == [B];
    assert WorkflowIndex([B], "b") == 0 && [B][..0] + [B][1..] == [];
  }

  lemma EmptyingLeads()
    ensures Leads(DOWN, EMPTYING)
  {
    ProposeForTwo();
    DeleteAndMerge();
  }

  /** The merge is one the analysis proposes for the two, and carrying it out leaves nothing registered. */
  lemma MergeLeavesNeitherSomewhere()
    ensures MergeTargets([A, B]) == [MergeWorkflows("a", "b")]
    ensures Run(Only([]), EMPTYING[..2]).workflows == [A, B]
    ensures Run(Only([]), EMPTYING[..6]).workflows == []
  {
    PairIsProposed();
    EmptyingLeads();
    RunThrough(DOWN, EMPTYING, 2);
    RunThrough(DOWN, EMPTYING, 6);
  }

  lemma PairIsProposed()
    ensures MergeTargets([A, B]) == [MergeWorkflows("a", "b")]
  {
    assert [A, B][..1] == [A] && [A][..0] == [];
    assert Owners([A]) == ["w"] && Owners([A, B]) == ["w"];
    assert Filter([A], OwnedBy("w")) == [A] && Filter([A, B], OwnedBy("w")) == [A, B];
  }

  // ---- a registry whose order is lost ----

  function Named(id: Id): Workflow {
    Workflow(id, Some("w"), 0, 0)
  }

  const A := Named("a")
  const B := Named("b")
  const C := Named("c")

  /** Three workflows of one worker are registered, the first two merged, and the merge undone. */
  const LOSING: seq<Op> := [
    AddWorkflow(A), AddWorkflow(B), AddWorkflow(C),
    Propose("m", MergeWorkflows("a", "b")), Approve("m"), Apply("m"), Rollback("m")]

  function With(ws: seq<Workflow>, stage: Stage, removed: Option<Workflow>): State {
    State([Suggestion("m", MergeWorkflows("a", "b"), stage, removed, None)], ws, map[], map[])
  }

  function Only(ws: seq<Workflow>): State {
    State([], ws, map[], map[])
  }

  lemma RegisterThree()
    ensures Step(Only([]), AddWorkflow(A)) == Only([A])
    ensures Step(Only([A]), AddWorkflow(B)) == Only([A, B])
    ensures Step(Only([A, B]), AddWorkflow(C)) == Only([A, B, C])
  {
  }

  lemma ProposeMerge()
    ensures Step(Only([A, B, C]), Propose("m", MergeWorkflows("a", "b"))) == With([A, B, C], Pending, None)
    ensures Step(With([A, B, C], Pending, None), Approve("m")) == With([A, B, C], Approved, None)
  {
    assert WorkflowIndex([A, B, C], "a") == 0;
    assert [A, B, C][1..] == [B, C] && WorkflowIndex([B, C], "b") == 0;
  }

  lemma MergeAndUndo()
    ensures Step(With([A, B, C], Approved, None), Apply("m")) == With([A, C], Monitored, Some(B))
    ensures Step(With([A, C], Monitored, Some(B)), Rollback("m")) == With([A, C, B], RolledBack, Some(B))
  {
    assert [A, B, C][1..] == [B, C] && WorkflowIndex([B, C], "b") == 0 && WorkflowIndex([A, B, C], "b") == 1;
    assert [A, B, C][..1] + [A, B, C][2..] == [A, C];
  }

  const PATH: seq<State> := [
    Only([]), Only([A]), Only([A, B]), Only([A, B, C]),
    With([A, B, C], Pending, None), With([A, B, C], Approved, None),
    With([A, C], Monitored, Some(B)), With([A, C, B], RolledBack, Some(B))]

  lemma LosingLeads()
    ensures Leads(PATH, LOSING)
  {
    RegisterThree();
    ProposeMerge();
    MergeAndUndo();
  }

  /** The merge is one the analysis proposes for these three, and undoing it leaves them in another order. */
  lemma OrderIsLostSomewhere()
    ensures MergeTargets([A, B, C]) == [MergeWorkflows("a", "b")]
    ensures Run(Only([]), LOSING[..3]).workflows == [A, B, C]
    ensures Run(Only([]), LOSING[..7]).workflows == [A, C, B]
  {
    OwnersOfThree();
    OwnedOfThree();
    LosingLeads();
    RunThrough(PATH, LOSING, 3);
    RunThrough(PATH, LOSING, 7);
  }

  lemma OwnersOfThree()
    ensures Owners([A, B, C]) == ["w"]
  {
    assert [A, B, C][..2] == [A, B] && [A, B][..1] == [A] && [A][..0] == [];
    assert Owners([A]) == ["w"];
    assert Owners([A, B]) == ["w"];
  }

  lemma OwnedOfThree()
    ensures Filter([A, B, C], OwnedBy("w")) == [A, B, C]
  {
    assert [A, B, C][..2] == [A, B] && [A, B][..1] == [A] && [A][..0] == [];
    assert Filter([A], OwnedBy("w")) == [A];
    assert Filter([A, B], OwnedBy("w")) == [A, B];
  }
}
