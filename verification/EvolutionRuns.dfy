/** Conservation of workflows, and when undoing restores what was there. */
module EvolutionRuns {
  import opened Wrappers
  import opened Rings
  import opened Evolution

  function Run(s: State, ops: seq<Op>): State
    decreases |ops|
  {
    if ops == [] then s else Run(Step(s, ops[0]), ops[1..])
  }

  /** Each operation leads from one of these states to the next. */
  ghost predicate Leads(states: seq<State>, ops: seq<Op>) {
    |states| == |ops| + 1 && forall i :: 0 <= i < |ops| ==> Step(states[i], ops[i]) == states[i + 1]
  }

  lemma {:induction false} RunThrough(states: seq<State>, ops: seq<Op>, n: nat)
    requires Leads(states, ops) && n <= |ops|
    ensures Run(states[0], ops[..n]) == states[n]
    decreases n
  {
    if n > 0 {
      forall i | 0 <= i < |ops[1..]| ensures Step(states[1..][i], ops[1..][i]) == states[1..][i + 1] {
        assert Step(states[i + 1], ops[i + 1]) == states[i + 2];
      }
      RunThrough(states[1..], ops[1..], n - 1);
      assert Step(states[0], ops[0]) == states[1] && ops[..n][1..] == ops[1..][..n - 1];
    }
  }

  // ---- invariant ----

  ghost predicate OneLivePerTarget(ss: seq<Suggestion>) {
    forall i, j :: 0 <= i < j < |ss| && ss[i].Live() && ss[j].Live() ==> ss[i].target != ss[j].target
  }

  /** Nothing is recorded before a suggestion is applied. */
  ghost predicate UnappliedAreBlank(ss: seq<Suggestion>) {
    forall i :: 0 <= i < |ss| && (ss[i].Waiting() || ss[i].stage.Rejected?)
        ==> ss[i].removed.None? && ss[i].prevTone.None?
  }

  /** A monitored archive target is archived; one still waiting is not. */
  ghost predicate FlagsFollowStages(s: State) {
    forall i :: 0 <= i < |s.suggestions| && s.suggestions[i].target.ArchiveKnowledge? ==>
      var x := s.suggestions[i];
      var d := x.target.docId;
      d in s.archived ==> (x.stage.Monitored? ==> s.archived[d]) && (x.Waiting() ==> !s.archived[d])
  }

  ghost predicate Inv(s: State) {
    OneLivePerTarget(s.suggestions) && UnappliedAreBlank(s.suggestions) && FlagsFollowStages(s)
  }

  /** Moving one suggestion on, without reviving it, keeps the list in order. */
  lemma ReplaceKeepsLists(ss: seq<Suggestion>, i: nat, x: Suggestion)
    requires OneLivePerTarget(ss) && UnappliedAreBlank(ss)
    requires i < |ss| && x.target == ss[i].target && (x.Live() ==> ss[i].Live())
    requires x.Waiting() || x.stage.Rejected? ==> x.removed.None? && x.prevTone.None?
    ensures OneLivePerTarget(ss[i := x]) && UnappliedAreBlank(ss[i := x])
  {
  }

  lemma MoveKeepsInv(s: State, id: Id, from: Stage, to: Stage)
    requires Inv(s)
    requires (from == Pending && (to == Approved || to == Rejected)) || (from == Monitored && to == Accepted)
    ensures Inv(Move(s, id, from, to))
  {
    if InStage(s, id, from) {
      var i := Position(s.suggestions, id).value;
      ReplaceKeepsLists(s.suggestions, i, s.suggestions[i].(stage := to));
    }
  }

  lemma ApplyKeepsInv(s: State, id: Id)
    requires Inv(s)
    ensures Inv(ApplyStep(s, id))
  {
    if InStage(s, id, Approved) {
      var i := Position(s.suggestions, id).value;
      var t := ApplyStep(s, id);
      ReplaceKeepsLists(s.suggestions, i, t.suggestions[i]);
      assert forall j :: 0 <= j < |s.suggestions| && j != i && s.suggestions[j].Live() ==>
        s.suggestions[j].target != s.suggestions[i].target;
    }
  }

  lemma RollbackKeepsInv(s: State, id: Id)
    requires Inv(s)
    ensures Inv(RollbackStep(s, id))
  {
    if InStage(s, id, Monitored) {
      var i := Position(s.suggestions, id).value;
      var t := RollbackStep(s, id);
      ReplaceKeepsLists(s.suggestions, i, t.suggestions[i]);
      assert forall j :: 0 <= j < |s.suggestions| && j != i && s.suggestions[j].Live() ==>
        s.suggestions[j].target != s.suggestions[i].target;
    }
  }

  lemma ProposeKeepsInv(s: State, id: Id, target: Target)
    requires Inv(s)
    ensures Inv(Step(s, Propose(id, target)))
  {
  }

  /**
   * In every reachable state at most one live suggestion exists per target, and a waiting archive target is not
   * archived.
   */
  lemma StepKeepsInv(s: State, op: Op)
    requires Inv(s)
    ensures Inv(Step(s, op))
  {
    match op
    case Propose(id, target) => ProposeKeepsInv(s, id, target);
    case Approve(id) => MoveKeepsInv(s, id, Pending, Approved);
    case Reject(id) => MoveKeepsInv(s, id, Pending, Rejected);
    case Accept(id) => MoveKeepsInv(s, id, Monitored, Accepted);
    case Apply(id) => ApplyKeepsInv(s, id);
    case Rollback(id) => RollbackKeepsInv(s, id);
    case _ =>
  }

  lemma {:induction false} RunKeepsInv(s: State, ops: seq<Op>)
    requires Inv(s)
    ensures Inv(Run(s, ops))
    decreases |ops|
  {
    if ops != [] {
      StepKeepsInv(s, ops[0]);
      RunKeepsInv(Step(s, ops[0]), ops[1..]);
    }
  }

  // ---- counting workflows, in the registry and in payloads ----

  type Test = Workflow -> bool

  function HasId(id: Id): Test {
    (w: Workflow) => w.id == id
  }

  function Both(p: Test, q: Test): Test {
    (w: Workflow) => p(w) && q(w)
  }

  /** A test that looks at nothing but the id, so that running a workflow does not change it. */
  ghost predicate OfIdOnly(p: Test) {
    forall v: Workflow, w: Workflow :: v.id == w.id ==> p(v) == p(w)
  }

  function Exactly(v: Workflow): Test {
    (w: Workflow) => w == v
  }

  function Num(ws: seq<Workflow>, p: Test): nat {
    if ws == [] then 0 else (if p(ws[0]) then 1 else 0) + Num(ws[1..], p)
  }

  lemma {:induction false} NumAppends(a: seq<Workflow>, b: seq<Workflow>, p: Test)
    ensures Num(a + b, p) == Num(a, p) + Num(b, p)
  {
    if a == [] {
      assert a + b == b;
    } else {
      assert (a + b)[1..] == a[1..] + b;
      NumAppends(a[1..], b, p);
    }
  }

  lemma NumAround(ws: seq<Workflow>, k: nat, p: Test)
    requires k < |ws|
    ensures Num(ws, p) == Num(ws[..k] + ws[k + 1..], p) + Num([ws[k]], p)
  {
    assert ws == ws[..k] + ([ws[k]] + ws[k + 1..]);
    NumAppends(ws[..k], [ws[k]] + ws[k + 1..], p);
    NumAppends([ws[k]], ws[k + 1..], p);
    NumAppends(ws[..k], ws[k + 1..], p);
  }

  lemma {:induction false} NumIsMultiplicity(ws: seq<Workflow>, v: Workflow)
    ensures Num(ws, Exactly(v)) == multiset(ws)[v]
  {
    if ws != [] {
      NumIsMultiplicity(ws[1..], v);
      assert ws == [ws[0]] + ws[1..];
    }
  }

  lemma {:induction false} KeepDropsId(ws: seq<Workflow>, id: Id, p: Test)
    ensures Num(Keep(ws, id), p) + Num(ws, Both(HasId(id), p)) == Num(ws, p)
  {
    if ws != [] {
      KeepDropsId(ws[1..], id, p);
      NumAppends(if ws[0].id == id then [] else [ws[0]], Keep(ws[1..], id), p);
    }
  }

  /** The workflow in the payload of a monitored merge suggestion. */
  function HeldBy(x: Suggestion): seq<Workflow> {
    if x.stage.Monitored? && x.target.MergeWorkflows? && x.removed.Some? then [x.removed.value] else []
  }

  function HeldNum(ss: seq<Suggestion>, p: Test): nat {
    if ss == [] then 0 else Num(HeldBy(ss[0]), p) + HeldNum(ss[1..], p)
  }

  lemma {:induction false} HeldAppends(ss: seq<Suggestion>, tt: seq<Suggestion>, p: Test)
    ensures HeldNum(ss + tt, p) == HeldNum(ss, p) + HeldNum(tt, p)
  {
    if ss == [] {
      assert ss + tt == tt;
    } else {
      assert (ss + tt)[1..] == ss[1..] + tt;
      HeldAppends(ss[1..], tt, p);
    }
  }

  /** Changing one suggestion changes only its own share. */
  lemma HeldAround(ss: seq<Suggestion>, i: nat, x: Suggestion, p: Test)
    requires i < |ss|
    ensures HeldNum(ss[i := x], p) + Num(HeldBy(ss[i]), p) == HeldNum(ss, p) + Num(HeldBy(x), p)
  {
    assert ss == ss[..i] + ([ss[i]] + ss[i + 1..]);
    assert ss[i := x] == ss[..i] + ([x] + ss[i + 1..]);
    HeldAppends(ss[..i], [ss[i]] + ss[i + 1..], p);
    HeldAppends(ss[..i], [x] + ss[i + 1..], p);
  }

  // ---- conservation ----

  predicate Evicts(s: State, op: Op) {
    op.Propose? && Proposable(s, op.id, op.target) && !Duplicate(s.suggestions, op.target)
    && |s.suggestions| >= SUGGESTION_CAP
  }

  /** The three ways to go for good: deleted, the merge accepted, or the monitored suggestion pushed out by the cap. */
  function Lost(s: State, op: Op, p: Test): nat {
    match op
    case DeleteWorkflow(id) => Num(s.workflows, Both(HasId(id), p))
    case Accept(id) =>
      if InStage(s, id, Monitored) then Num(HeldBy(s.suggestions[Position(s.suggestions, id).value]), p) else 0
    case Propose(_, _) => if Evicts(s, op) then Num(HeldBy(s.suggestions[0]), p) else 0
    case _ => 0
  }

  function Added(op: Op, p: Test): nat {
    if op.AddWorkflow? then Num([op.wf], p) else 0
  }

  /** Workflows in the registry or in the payload of a monitored merge. */
  function Kept(s: State, p: Test): nat {
    Num(s.workflows, p) + HeldNum(s.suggestions, p)
  }

  lemma MoveKeepsCount(s: State, id: Id, from: Stage, to: Stage, p: Test)
    requires to != Monitored
    ensures HeldNum(Move(s, id, from, to).suggestions, p)
          + (if from == Monitored && InStage(s, id, from)
             then Num(HeldBy(s.suggestions[Position(s.suggestions, id).value]), p) else 0)
         == HeldNum(s.suggestions, p)
  {
    if InStage(s, id, from) {
      var i := Position(s.suggestions, id).value;
      HeldAround(s.suggestions, i, s.suggestions[i].(stage := to), p);
    }
  }

  lemma ApplyKeepsCount(s: State, id: Id, p: Test)
    requires Inv(s)
    ensures Kept(ApplyStep(s, id), p) == Kept(s, p)
  {
    if InStage(s, id, Approved) {
      var i := Position(s.suggestions, id).value;
      var t := ApplyStep(s, id);
      HeldAround(s.suggestions, i, t.suggestions[i], p);
      if s.suggestions[i].target.MergeWorkflows? {
        var k := WorkflowIndex(s.workflows, s.suggestions[i].target.removeId);
        if k < |s.workflows| {
          NumAround(s.workflows, k, p);
        }
      }
    }
  }

  lemma RollbackKeepsCount(s: State, id: Id, p: Test)
    ensures Kept(RollbackStep(s, id), p) == Kept(s, p)
  {
    if InStage(s, id, Monitored) {
      var i := Position(s.suggestions, id).value;
      var x, t := s.suggestions[i], RollbackStep(s, id);
      HeldAround(s.suggestions, i, t.suggestions[i], p);
      assert t.workflows == s.workflows + HeldBy(x);
      NumAppends(s.workflows, HeldBy(x), p);
    }
  }

  lemma ProposeKeepsCount(s: State, op: Op, p: Test)
    requires op.Propose?
    ensures HeldNum(Step(s, op).suggestions, p) + Lost(s, op, p) == HeldNum(s.suggestions, p)
  {
    var ss, x := s.suggestions, Suggestion(op.id, op.target, Pending, None, None);
    HeldAppends(ss, [x], p);
    assert ss != [] ==> (ss + [x])[1..] == ss[1..] + [x];
    if ss != [] {
      HeldAppends(ss[1..], [x], p);
    }
  }

  lemma EditsKeepCount(s: State, op: Op, p: Test)
    requires op.AddWorkflow? || op.RunWorkflow? || op.DeleteWorkflow?
    requires op.RunWorkflow? ==> OfIdOnly(p)
    ensures Num(Step(s, op).workflows, p) + Lost(s, op, p) == Num(s.workflows, p) + Added(op, p)
  {
    match op
    case AddWorkflow(wf) => NumAppends(s.workflows, [wf], p);
    case RunWorkflow(id, ok) =>
      var t, k := Step(s, op), WorkflowIndex(s.workflows, id);
      if k < |s.workflows| {
        NumAround(s.workflows, k, p);
        NumAround(t.workflows, k, p);
        assert t.workflows[..k] == s.workflows[..k] && t.workflows[k + 1..] == s.workflows[k + 1..];
      }
    case DeleteWorkflow(id) => KeepDropsId(s.workflows, id, p);
  }

  lemma StepBalances(s: State, op: Op, p: Test)
    requires Inv(s)
    requires op.RunWorkflow? ==> OfIdOnly(p)
    ensures Kept(Step(s, op), p) + Lost(s, op, p) == Kept(s, p) + Added(op, p)
  {
    match op
    case Propose(_, _) => ProposeKeepsCount(s, op, p);
    case Approve(id) => MoveKeepsCount(s, id, Pending, Approved, p);
    case Reject(id) => MoveKeepsCount(s, id, Pending, Rejected, p);
    case Accept(id) => MoveKeepsCount(s, id, Monitored, Accepted, p);
    case Apply(id) => ApplyKeepsCount(s, id, p);
    case Rollback(id) => RollbackKeepsCount(s, id, p);
    case AddWorkflow(_) => EditsKeepCount(s, op, p);
    case RunWorkflow(_, _) => EditsKeepCount(s, op, p);
    case DeleteWorkflow(_) => EditsKeepCount(s, op, p);
    case _ =>
  }

  function GoneForGood(s: State, ops: seq<Op>, p: Test): nat
    decreases |ops|
  {
    if ops == [] then 0 else Lost(s, ops[0], p) + GoneForGood(Step(s, ops[0]), ops[1..], p)
  }

  function EverAdded(ops: seq<Op>, p: Test): nat
    decreases |ops|
  {
    if ops == [] then 0 else Added(ops[0], p) + EverAdded(ops[1..], p)
  }

  /** Over any run, what was there plus what was registered is what is kept plus what has gone for good. */
  lemma {:induction false} WorkflowsAreConserved(s: State, ops: seq<Op>, id: Id)
    requires Inv(s)
    ensures Kept(Run(s, ops), HasId(id)) + GoneForGood(s, ops, HasId(id))
        == Kept(s, HasId(id)) + EverAdded(ops, HasId(id))
    decreases |ops|
  {
    if ops != [] {
      StepKeepsInv(s, ops[0]);
      StepBalances(s, ops[0], HasId(id));
      WorkflowsAreConserved(Step(s, ops[0]), ops[1..], id);
    }
  }

  /**
   * With fresh ids, a workflow ever registered is in exactly one place: once in the registry, once in the payload
   * of a monitored merge suggestion, or gone for good.
   */
  lemma EachWorkflowIsInOnePlace(archived: map<Id, bool>, tones: map<Id, string>, ops: seq<Op>, id: Id)
    requires EverAdded(ops, HasId(id)) == 1
    ensures var s := State([], [], archived, tones);
      var t := Run(s, ops);
      var inRegistry, inPayloads := Num(t.workflows, HasId(id)), HeldNum(t.suggestions, HasId(id));
      var gone := GoneForGood(s, ops, HasId(id));
      || (inRegistry == 1 && inPayloads == 0 && gone == 0)
      || (inRegistry == 0 && inPayloads == 1 && gone == 0)
      || (inRegistry == 0 && inPayloads == 0 && gone == 1)
  {
    WorkflowsAreConserved(State([], [], archived, tones), ops, id);
  }

  // ---- what a merge leaves behind ----

  predicate Registered(ws: seq<Workflow>, id: Id) {
    WorkflowIndex(ws, id) < |ws|
  }

  lemma RegisteredAt(ws: seq<Workflow>, k: nat)
    requires k < |ws|
    ensures Registered(ws, ws[k].id)
  {
  }

  lemma RemovingKeepsOthers(ws: seq<Workflow>, k: nat, id: Id)
    requires k < |ws| && ws[k].id != id
    ensures Registered(ws[..k] + ws[k + 1..], id) <==> Registered(ws, id)
  {
    var rest := ws[..k] + ws[k + 1..];
    if Registered(ws, id) {
      var j := WorkflowIndex(ws, id);
      RegisteredAt(rest, if j < k then j else j - 1);
    }
    if Registered(rest, id) {
      var j := WorkflowIndex(rest, id);
      RegisteredAt(ws, if j < k then j else j + 1);
    }
  }

  /**
   * An applied merge takes one workflow out exactly when the one to remove is registered. It does not look for the one
   * to keep, so that one is registered afterwards exactly when it was before.
   */
  lemma MergeIgnoresItsPartner(s: State, id: Id)
    requires InStage(s, id, Approved)
    requires var x := s.suggestions[Position(s.suggestions, id).value].target;
      x.MergeWorkflows? && x.keepId != x.removeId
    ensures var x := s.suggestions[Position(s.suggestions, id).value].target;
      var t := Step(s, Apply(id));
      && |s.workflows| == |t.workflows| + (if Registered(s.workflows, x.removeId) then 1 else 0)
      && (Registered(t.workflows, x.keepId) <==> Registered(s.workflows, x.keepId))
  {
    var x := s.suggestions[Position(s.suggestions, id).value].target;
    if Registered(s.workflows, x.removeId) {
      RemovingKeepsOthers(s.workflows, WorkflowIndex(s.workflows, x.removeId), x.keepId);
    }
  }

  // ---- run counters ----

  /** Runs of one workflow, each with whether it succeeded. */
  function RunsOf(id: Id, oks: seq<bool>): seq<Op> {
    if oks == [] then [] else [RunWorkflow(id, oks[0])] + RunsOf(id, oks[1..])
  }

  function Successful(oks: seq<bool>): nat {
    if oks == [] then 0 else (if oks[0] then 1 else 0) + Successful(oks[1..])
  }

  /** Running a registered workflow counts its runs and its successes, and changes nothing else. */
  lemma {:induction false} RunsAreCounted(s: State, id: Id, oks: seq<bool>)
    requires Registered(s.workflows, id)
    ensures var k := WorkflowIndex(s.workflows, id);
      var w := s.workflows[k];
      Run(s, RunsOf(id, oks)) == s.(
        workflows := s.workflows[k := w.(runs := w.runs + |oks|, successes := w.successes + Successful(oks))])
    decreases |oks|
  {
    var k := WorkflowIndex(s.workflows, id);
    if oks == [] {
      assert s.workflows[k := s.workflows[k]] == s.workflows;
    } else {
      var ops := RunsOf(id, oks);
      var t := Step(s, ops[0]);
      assert ops[0] == RunWorkflow(id, oks[0]) && ops[1..] == RunsOf(id, oks[1..]);
      FirstStays(s.workflows, t.workflows, id);
      RunsAreCounted(t, id, oks[1..]);
    }
  }

  lemma FirstStays(ws: seq<Workflow>, us: seq<Workflow>, id: Id)
    requires Registered(ws, id) && |us| == |ws| && us == ws[WorkflowIndex(ws, id) := us[WorkflowIndex(ws, id)]]
    requires us[WorkflowIndex(ws, id)].id == id
    ensures WorkflowIndex(us, id) == WorkflowIndex(ws, id)
  {
  }

  predicate Sane(w: Workflow) {
    w.successes <= w.runs
  }

  /** No registered or set-aside workflow has more successes than runs. */
  ghost predicate CountersSane(s: State) {
    && (forall i :: 0 <= i < |s.workflows| ==> Sane(s.workflows[i]))
    && forall i :: 0 <= i < |s.suggestions| && s.suggestions[i].removed.Some? ==> Sane(s.suggestions[i].removed.value)
  }

  lemma {:induction false} KeepKeepsSane(ws: seq<Workflow>, id: Id)
    requires forall i :: 0 <= i < |ws| ==> Sane(ws[i])
    ensures forall i :: 0 <= i < |Keep(ws, id)| ==> Sane(Keep(ws, id)[i])
  {
    if ws != [] {
      KeepKeepsSane(ws[1..], id);
    }
  }

  lemma ApplyKeepsCountersSane(s: State, id: Id)
    requires CountersSane(s)
    ensures CountersSane(ApplyStep(s, id))
  {
  }

  lemma RollbackKeepsCountersSane(s: State, id: Id)
    requires CountersSane(s)
    ensures CountersSane(RollbackStep(s, id))
  {
  }

  lemma ProposeKeepsCountersSane(s: State, op: Op)
    requires CountersSane(s) && op.Propose?
    ensures CountersSane(Step(s, op))
  {
  }

  /** Merging, rolling back and running keep every success rate between 0 and 100 percent. */
  lemma StepKeepsCountersSane(s: State, op: Op)
    requires CountersSane(s) && (op.AddWorkflow? ==> Sane(op.wf))
    ensures CountersSane(Step(s, op))
  {
    match op
    case Propose(_, _) => ProposeKeepsCountersSane(s, op);
    case Apply(id) => ApplyKeepsCountersSane(s, id);
    case Rollback(id) => RollbackKeepsCountersSane(s, id);
    case DeleteWorkflow(id) => KeepKeepsSane(s.workflows, id);
    case _ =>
  }

  // ---- undoing in any order ----

  predicate Claimed(ss: seq<Suggestion>, d: Id) {
    exists i :: 0 <= i < |ss| && ss[i].stage.Monitored? && ss[i].target == ArchiveKnowledge(d)
  }

  /** Archived by something other than a monitored suggestion. */
  predicate Underlying(s: State, d: Id) {
    d in s.archived && s.archived[d] && !Claimed(s.suggestions, d)
  }

  /** The suggestion steps, as long as the cap pushes out no monitored suggestion. */
  predicate Quiet(s: State, op: Op) {
    match op
    case Propose(_, _) => |s.suggestions| < SUGGESTION_CAP || !s.suggestions[0].stage.Monitored?
    case Approve(_) => true
    case Reject(_) => true
    case Apply(_) => true
    case Rollback(_) => true
    case _ => false
  }

  predicate AllQuiet(s: State, ops: seq<Op>)
    decreases |ops|
  {
    ops == [] || (Quiet(s, ops[0]) && AllQuiet(Step(s, ops[0]), ops[1..]))
  }

  lemma ClaimsAround(ss: seq<Suggestion>, i: nat, x: Suggestion, d: Id)
    requires OneLivePerTarget(ss) && i < |ss| && x.target == ss[i].target && ss[i].Live()
    ensures Claimed(ss[i := x], d) == if x.target == ArchiveKnowledge(d) then x.stage.Monitored? else Claimed(ss, d)
    ensures x.target == ArchiveKnowledge(d) ==> Claimed(ss, d) == ss[i].stage.Monitored?
  {
    var tt := ss[i := x];
    assert forall j :: 0 <= j < |ss| && j != i && ss[j].Live() ==> ss[j].target != ss[i].target;
    assert tt[i] == x && forall j :: 0 <= j < |ss| && j != i ==> tt[j] == ss[j];
    if x.target != ArchiveKnowledge(d) && Claimed(ss, d) {
      var j :| 0 <= j < |ss| && ss[j].stage.Monitored? && ss[j].target == ArchiveKnowledge(d);
      assert tt[j] == ss[j];
    }
  }

  lemma ClaimsAfterPropose(s: State, op: Op, d: Id)
    requires op.Propose? && Quiet(s, op)
    ensures Claimed(Step(s, op).suggestions, d) == Claimed(s.suggestions, d)
  {
    var ss, tt := s.suggestions, Step(s, op).suggestions;
    if Claimed(ss, d) {
      var j :| 0 <= j < |ss| && ss[j].stage.Monitored? && ss[j].target == ArchiveKnowledge(d);
      assert tt[j] == ss[j] || (j > 0 && tt[j - 1] == ss[j]);
    }
  }

  /** Only the suggestion found under this id changes, and only the flag of that suggestion's document. */
  ghost predicate Local(s: State, t: State, id: Id) {
    var i := Position(s.suggestions, id);
    if i.None? || !s.suggestions[i.value].Live() then t == s
    else
      && |t.suggestions| == |s.suggestions|
      && var x, y := s.suggestions[i.value], t.suggestions[i.value];
      && t.suggestions == s.suggestions[i.value := y] && y.target == x.target && y.id == x.id
      && t.archived.Keys == s.archived.Keys
      && forall d :: d in s.archived ==>
           var same := x.target != ArchiveKnowledge(d) || x.stage.Monitored? == y.stage.Monitored?;
           t.archived[d] == if same then s.archived[d] else y.stage.Monitored?
  }

  lemma ApplyIsLocal(s: State, id: Id)
    ensures Local(s, ApplyStep(s, id), id)
  {
  }

  lemma RollbackIsLocal(s: State, id: Id)
    ensures Local(s, RollbackStep(s, id), id)
  {
  }

  /** Apart from proposing, a suggestion step is local. */
  lemma StepIsLocal(s: State, op: Op)
    requires op.Approve? || op.Reject? || op.Apply? || op.Rollback?
    ensures Local(s, Step(s, op), op.id)
  {
    match op
    case Apply(id) => ApplyIsLocal(s, id);
    case Rollback(id) => RollbackIsLocal(s, id);
    case _ =>
  }

  /** A suggestion step leaves every flag that is not due to a monitored suggestion as it was. */
  lemma StepKeepsUnderlying(s: State, op: Op, d: Id)
    requires Inv(s) && Quiet(s, op)
    ensures Underlying(Step(s, op), d) == Underlying(s, d)
    ensures Step(s, op).archived.Keys == s.archived.Keys
  {
    if op.Propose? {
      ClaimsAfterPropose(s, op, d);
    } else {
      StepIsLocal(s, op);
      var (i, t) := (Position(s.suggestions, op.id), Step(s, op));
      if i.Some? && s.suggestions[i.value].Live() {
        ClaimsAround(s.suggestions, i.value, t.suggestions[i.value], d);
      }
    }
  }

  lemma {:induction false} QuietRunsKeepUnderlying(s: State, ops: seq<Op>, d: Id)
    requires Inv(s) && AllQuiet(s, ops)
    ensures Underlying(Run(s, ops), d) == Underlying(s, d)
    ensures Run(s, ops).archived.Keys == s.archived.Keys
    decreases |ops|
  {
    if ops != [] {
      StepKeepsInv(s, ops[0]);
      StepKeepsUnderlying(s, ops[0], d);
      QuietRunsKeepUnderlying(Step(s, ops[0]), ops[1..], d);
    }
  }

  lemma {:induction false} QuietRunsKeepCount(s: State, ops: seq<Op>, p: Test)
    requires Inv(s) && AllQuiet(s, ops)
    ensures Kept(Run(s, ops), p) == Kept(s, p)
    decreases |ops|
  {
    if ops != [] {
      StepKeepsInv(s, ops[0]);
      StepBalances(s, ops[0], p);
      assert Lost(s, ops[0], p) == 0;
      QuietRunsKeepCount(Step(s, ops[0]), ops[1..], p);
    }
  }

  /** The same documents are claimed and the same workflows held by monitored suggestions. */
  ghost predicate SameClaims(ss: seq<Suggestion>, tt: seq<Suggestion>) {
    && (forall d :: Claimed(ss, d) == Claimed(tt, d))
    && (forall v: Workflow :: HeldNum(ss, Exactly(v)) == HeldNum(tt, Exactly(v)))
  }

  /**
   * Archives and merges may be undone in any order: once the monitored ones are those of the start again,
   * every archived flag and the registry, as a multiset, are what they were.
   */
  lemma UndoingInAnyOrderRestores(s: State, ops: seq<Op>)
    requires Inv(s) && AllQuiet(s, ops)
    requires SameClaims(s.suggestions, Run(s, ops).suggestions)
    ensures Run(s, ops).archived == s.archived
    ensures multiset(Run(s, ops).workflows) == multiset(s.workflows)
  {
    var t := Run(s, ops);
    RunKeepsInv(s, ops);
    QuietRunsKeepUnderlying(s, ops, "");
    forall d | d in s.archived ensures s.archived[d] == t.archived[d] {
      QuietRunsKeepUnderlying(s, ops, d);
      assert Claimed(s.suggestions, d) == Claimed(t.suggestions, d);
    }
    forall v: Workflow ensures multiset(t.workflows)[v] == multiset(s.workflows)[v] {
      QuietRunsKeepCount(s, ops, Exactly(v));
      NumIsMultiplicity(s.workflows, v);
      NumIsMultiplicity(t.workflows, v);
    }
  }
}
