/** The life of one suggestion: the table of its stages, and what a rejection or an approval means over a run. */
module Stages {
  import opened Wrappers
  import opened Rings
  import opened Evolution
  import opened EvolutionRuns

  function StageOf(s: State, id: Id): Option<Stage> {
    var i := Position(s.suggestions, id);
    if i.Some? then Some(s.suggestions[i.value].stage) else None
  }

  /** The table of the owner's decisions; any other one leaves the stage as it is. */
  function Next(x: Stage, op: Op, id: Id): Stage {
    if x.Pending? && op == Approve(id) then Approved
    else if x.Pending? && op == Reject(id) then Rejected
    else if x.Approved? && op == Apply(id) then Monitored
    else if x.Monitored? && op == Accept(id) then Accepted
    else if x.Monitored? && op == Rollback(id) then RolledBack
    else x
  }

  function Follow(x: Stage, ops: seq<Op>, id: Id): Stage
    decreases |ops|
  {
    if ops == [] then x else Follow(Next(x, ops[0], id), ops[1..], id)
  }

  // ---- ids of suggestions ----

  ghost predicate UniqueIds(ss: seq<Suggestion>) {
    forall i, j :: 0 <= i < j < |ss| ==> ss[i].id != ss[j].id
  }

  /** These lists have the same ids at the same places. */
  ghost predicate SameIds(ss: seq<Suggestion>, tt: seq<Suggestion>) {
    |ss| == |tt| && forall i :: 0 <= i < |ss| ==> ss[i].id == tt[i].id
  }

  lemma SamePositions(ss: seq<Suggestion>, tt: seq<Suggestion>, id: Id)
    requires SameIds(ss, tt)
    ensures Position(ss, id) == Position(tt, id)
  {
  }

  /** What the decision changes: the stage of the first suggestion with this id, by the table. */
  ghost predicate Decides(ss: seq<Suggestion>, tt: seq<Suggestion>, op: Op, id: Id) {
    var at := Position(ss, id);
    if at.None? then tt == ss
    else
      var i := at.value;
      && |tt| == |ss| && tt == ss[i := tt[i]]
      && tt[i].id == ss[i].id && tt[i].target == ss[i].target && tt[i].stage == Next(ss[i].stage, op, id)
  }

  lemma ApplyDecides(s: State, id: Id)
    ensures Decides(s.suggestions, ApplyStep(s, id).suggestions, Apply(id), id)
  {
  }

  lemma RollbackDecides(s: State, id: Id)
    ensures Decides(s.suggestions, RollbackStep(s, id).suggestions, Rollback(id), id)
  {
  }

  lemma MoveDecides(s: State, op: Op)
    requires op.Approve? || op.Reject? || op.Accept?
    ensures Decides(s.suggestions, Step(s, op).suggestions, op, op.id)
  {
  }

  predicate Decision(op: Op) {
    op.Approve? || op.Reject? || op.Accept? || op.Apply? || op.Rollback?
  }

  lemma DecisionDecides(s: State, op: Op)
    requires Decision(op)
    ensures Decides(s.suggestions, Step(s, op).suggestions, op, op.id)
  {
    match op
    case Apply(id) => ApplyDecides(s, id);
    case Rollback(id) => RollbackDecides(s, id);
    case _ => MoveDecides(s, op);
  }

  lemma OthersDecideNothing(s: State, op: Op)
    requires !op.Propose? && !Decision(op)
    ensures Step(s, op).suggestions == s.suggestions
  {
  }

  lemma DecisionsKeepIds(s: State, op: Op)
    requires !op.Propose?
    ensures SameIds(s.suggestions, Step(s, op).suggestions)
  {
    if Decision(op) {
      DecisionDecides(s, op);
    } else {
      OthersDecideNothing(s, op);
    }
  }

  lemma ProposeKeepsUnique(s: State, id: Id, target: Target)
    requires UniqueIds(s.suggestions)
    ensures UniqueIds(Step(s, Propose(id, target)).suggestions)
  {
  }

  lemma StepKeepsUnique(s: State, op: Op)
    requires UniqueIds(s.suggestions)
    ensures UniqueIds(Step(s, op).suggestions)
  {
    if op.Propose? {
      ProposeKeepsUnique(s, op.id, op.target);
    } else {
      DecisionsKeepIds(s, op);
    }
  }

  // ---- one step ----

  lemma PositionAt(ss: seq<Suggestion>, i: nat)
    requires UniqueIds(ss) && i < |ss|
    ensures Position(ss, ss[i].id) == Some(i)
  {
  }

  lemma DecidedAtEach(ss: seq<Suggestion>, tt: seq<Suggestion>, op: Op, i: nat)
    requires UniqueIds(ss) && i < |ss| && Decision(op) && Decides(ss, tt, op, op.id)
    ensures i < |tt| && tt[i].stage == Next(ss[i].stage, op, ss[i].id)
  {
    PositionAt(ss, i);
  }

  /** What an operation makes of the suggestion at i. */
  lemma DecisionAt(s: State, op: Op, i: nat)
    requires UniqueIds(s.suggestions) && i < |s.suggestions| && !op.Propose?
    ensures i < |Step(s, op).suggestions|
    ensures Step(s, op).suggestions[i].stage == Next(s.suggestions[i].stage, op, s.suggestions[i].id)
  {
    if Decision(op) {
      DecisionDecides(s, op);
      DecidedAtEach(s.suggestions, Step(s, op).suggestions, op, i);
    } else {
      OthersDecideNothing(s, op);
    }
  }

  /** Another proposal leaves a suggestion as it is, or pushes it out. */
  lemma ProposalLeaves(s: State, op: Op, id: Id)
    requires UniqueIds(s.suggestions) && op.Propose? && op.id != id
    ensures StageOf(Step(s, op), id) == StageOf(s, id) || StageOf(Step(s, op), id) == None
  {
    var ss, tt := s.suggestions, Step(s, op).suggestions;
    ProposeKeepsUnique(s, op.id, op.target);
    if StageOf(Step(s, op), id).Some? {
      var j := Position(tt, id).value;
      var i := if tt == ss || |tt| > |ss| then j else j + 1;
      assert i < |ss| && ss[i] == tt[j];
      PositionAt(ss, i);
    }
  }

  lemma StageAfterStep(s: State, op: Op, id: Id)
    requires UniqueIds(s.suggestions) && !(op.Propose? && op.id == id)
    ensures var (x, y) := (StageOf(s, id), StageOf(Step(s, op), id));
      if x.None? then y.None? else y.None? || y == Some(Next(x.value, op, id))
  {
    if op.Propose? {
      ProposalLeaves(s, op, id);
    } else {
      DecisionsKeepIds(s, op);
      SamePositions(s.suggestions, Step(s, op).suggestions, id);
      if Position(s.suggestions, id).Some? {
        DecisionAt(s, op, Position(s.suggestions, id).value);
      }
    }
  }

  // ---- runs ----

  predicate NotProposed(ops: seq<Op>, id: Id) {
    ops == [] || (!(ops[0].Propose? && ops[0].id == id) && NotProposed(ops[1..], id))
  }

  /**
   * After any run the stage of a suggestion is what the table makes of the decisions that name it, whatever else
   * happens, unless the cap has pushed it out.
   */
  lemma {:induction false} StageFollowsDecisions(s: State, ops: seq<Op>, id: Id)
    requires UniqueIds(s.suggestions) && NotProposed(ops, id)
    ensures UniqueIds(Run(s, ops).suggestions)
    ensures var (x, y) := (StageOf(s, id), StageOf(Run(s, ops), id));
      if x.None? then y.None? else y.None? || y == Some(Follow(x.value, ops, id))
    decreases |ops|
  {
    if ops != [] {
      StageAfterStep(s, ops[0], id);
      StepKeepsUnique(s, ops[0]);
      StageFollowsDecisions(Step(s, ops[0]), ops[1..], id);
    }
  }

  lemma {:induction false} FinalStays(x: Stage, ops: seq<Op>, id: Id)
    requires x.Rejected? || x.Accepted? || x.RolledBack?
    ensures Follow(x, ops, id) == x
    decreases |ops|
  {
    if ops != [] {
      FinalStays(x, ops[1..], id);
    }
  }

  predicate Deployed(x: Stage) {
    x.Monitored? || x.Accepted? || x.RolledBack?
  }

  /** A rejected suggestion is never deployed, in any run: it stays rejected as long as it is listed. */
  lemma RejectedNeverDeploys(s: State, ops: seq<Op>, id: Id)
    requires UniqueIds(s.suggestions) && InStage(s, id, Pending) && NotProposed(ops, id)
    ensures var y := StageOf(Run(Step(s, Reject(id)), ops), id); y.None? || y == Some(Rejected)
  {
    StageAfterStep(s, Reject(id), id);
    StepKeepsUnique(s, Reject(id));
    DecisionsKeepIds(s, Reject(id));
    SamePositions(s.suggestions, Step(s, Reject(id)).suggestions, id);
    StageFollowsDecisions(Step(s, Reject(id)), ops, id);
    FinalStays(Rejected, ops, id);
  }

  /** Approved at i, carried out at j, and not rejected before. */
  ghost predicate DecidedAt(ops: seq<Op>, id: Id, i: int, j: int) {
    && 0 <= i < j < |ops| && ops[i] == Approve(id) && ops[j] == Apply(id)
    && forall k :: 0 <= k < i ==> ops[k] != Reject(id)
  }

  lemma {:induction false} ApplyFollows(ops: seq<Op>, id: Id)
    requires Deployed(Follow(Approved, ops, id))
    ensures exists j :: 0 <= j < |ops| && ops[j] == Apply(id)
    decreases |ops|
  {
    if ops != [] && ops[0] != Apply(id) {
      ApplyFollows(ops[1..], id);
      var j :| 0 <= j < |ops[1..]| && ops[1..][j] == Apply(id);
      assert ops[j + 1] == Apply(id);
    }
  }

  lemma {:induction false} DeploymentIsDecided(ops: seq<Op>, id: Id)
    requires Deployed(Follow(Pending, ops, id))
    ensures exists i, j :: DecidedAt(ops, id, i, j)
    decreases |ops|
  {
    if ops != [] {
      var rest := ops[1..];
      if ops[0] == Approve(id) {
        ApplyFollows(rest, id);
        var j :| 0 <= j < |rest| && rest[j] == Apply(id);
        assert DecidedAt(ops, id, 0, j + 1);
      } else if ops[0] == Reject(id) {
        FinalStays(Rejected, rest, id);
      } else {
        DeploymentIsDecided(rest, id);
        var i, j :| DecidedAt(rest, id, i, j);
        assert ops[i + 1] == rest[i] && ops[j + 1] == rest[j];
        assert forall k :: 0 < k < i + 1 ==> ops[k] == rest[k - 1];
        assert DecidedAt(ops, id, i + 1, j + 1);
      }
    }
  }

  /** Nothing is deployed that the owner has not approved, without rejecting it before, and then told to apply. */
  lemma DeployedOnlyWhenDecided(s: State, ops: seq<Op>, id: Id)
    requires UniqueIds(s.suggestions) && InStage(s, id, Pending) && NotProposed(ops, id)
    requires StageOf(Run(s, ops), id).Some? && Deployed(StageOf(Run(s, ops), id).value)
    ensures exists i, j :: DecidedAt(ops, id, i, j)
  {
    StageFollowsDecisions(s, ops, id);
    DeploymentIsDecided(ops, id);
  }

  // ---- what a decision leaves of the world, and of the target ----

  /** Applying what is not approved, or rolling back what is not monitored, does nothing at all. */
  lemma OnlyApprovedApplies(s: State, id: Id)
    ensures StageOf(s, id) != Some(Approved) ==> Step(s, Apply(id)) == s
    ensures StageOf(s, id) != Some(Monitored) ==> Step(s, Rollback(id)) == s
  {
  }

  predicate Counts(x: Stage) {
    x.Pending? || x.Approved? || x.Monitored? || x.Accepted?
  }

  lemma DuplicateExactly(ss: seq<Suggestion>, target: Target)
    ensures Duplicate(ss, target) <==> exists x :: x in ss && x.target == target && Counts(x.stage)
  {
    if Duplicate(ss, target) {
      var i :| 0 <= i < |ss| && ss[i].target == target && ss[i].Live();
      assert ss[i] in ss;
    }
  }

  /**
   * Once a suggestion is rejected, or rolled back, its target may be proposed again: where it is grounded, a new
   * pending suggestion is listed.
   */
  lemma TargetIsFreeAgain(s: State, op: Op, id: Id, again: Id)
    requires Inv(s) && UniqueIds(s.suggestions)
    requires (op == Reject(id) && InStage(s, id, Pending)) || (op == Rollback(id) && InStage(s, id, Monitored))
    requires var t := Step(s, op);
      Proposable(t, again, s.suggestions[Position(s.suggestions, id).value].target)
    ensures var t := Step(s, op);
      var target := s.suggestions[Position(s.suggestions, id).value].target;
      var u := Step(t, Propose(again, target));
      u.suggestions != [] && u.suggestions[|u.suggestions| - 1] == Suggestion(again, target, Pending, None, None)
  {
    FreedByDecision(s, op, id);
  }

  lemma FreedByDecision(s: State, op: Op, id: Id)
    requires Inv(s) && UniqueIds(s.suggestions)
    requires (op == Reject(id) && InStage(s, id, Pending)) || (op == Rollback(id) && InStage(s, id, Monitored))
    ensures !Duplicate(Step(s, op).suggestions, s.suggestions[Position(s.suggestions, id).value].target)
  {
    var ss, tt, i := s.suggestions, Step(s, op).suggestions, Position(s.suggestions, id).value;
    DecisionDecides(s, op);
    assert !tt[i].Live();
    forall j | 0 <= j < |ss| && j != i && ss[j].Live() ensures ss[j].target != ss[i].target {
      if j < i {
        OneLive(ss, j, i);
      } else {
        OneLive(ss, i, j);
      }
    }
  }

  lemma OneLive(ss: seq<Suggestion>, i: nat, j: nat)
    requires OneLivePerTarget(ss) && i < j < |ss| && ss[i].Live() && ss[j].Live()
    ensures ss[i].target != ss[j].target
  {
  }

  /** While a suggestion is pending, approved, monitored or accepted, proposing its target again does nothing. */
  lemma TargetIsTaken(s: State, x: Suggestion, again: Id)
    requires x in s.suggestions && Counts(x.stage)
    ensures Step(s, Propose(again, x.target)) == s
  {
    DuplicateExactly(s.suggestions, x.target);
  }

  /** No more than 40 suggestions are ever listed. */
  lemma {:induction false} SuggestionsAreBounded(s: State, ops: seq<Op>)
    requires |s.suggestions| <= 40
    ensures |Run(s, ops).suggestions| <= 40
    decreases |ops|
  {
    if ops != [] {
      if !ops[0].Propose? {
        DecisionsKeepIds(s, ops[0]);
      }
      SuggestionsAreBounded(Step(s, ops[0]), ops[1..]);
    }
  }
}
