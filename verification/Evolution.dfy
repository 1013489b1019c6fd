/** The safe-evolution state machine: proposed, approved, applied and monitored, then accepted or rolled back. */
module Evolution {
  import opened Wrappers
  import opened Rings
  import opened Sorting
  import S = Seeded

  type Id = string

  const SUGGESTION_CAP := 40

  datatype Workflow = Workflow(id: Id, workerId: Option<Id>, runs: nat, successes: nat)

  /** What a suggestion is about. Two suggestions have the same dedupe key exactly when their targets are equal. */
  datatype Target =
    | ArchiveKnowledge(docId: Id)
    | MergeWorkflows(keepId: Id, removeId: Id)
    | SwitchTone(cloneId: Id, tone: string)
    | Manual(key: string)

  /** `applied` is passed through within one apply call, which ends in Monitored. */
  datatype Stage = Pending | Approved | Rejected | Monitored | Accepted | RolledBack

  datatype Suggestion = Suggestion(
    id: Id, target: Target, stage: Stage, removed: Option<Workflow>, prevTone: Option<string>)
  {
    predicate Live() {
      !stage.Rejected? && !stage.RolledBack?
    }

    predicate Waiting() {
      stage.Pending? || stage.Approved?
    }
  }

  /** `archived` has an entry per vault document, `tones` one per clone. */
  datatype State = State(
    suggestions: seq<Suggestion>, workflows: seq<Workflow>, archived: map<Id, bool>, tones: map<Id, string>)

  /** A document that another node sent may arrive archived. */
  datatype Op =
    | Propose(id: Id, target: Target)
    | Approve(id: Id)
    | Reject(id: Id)
    | Apply(id: Id)
    | Accept(id: Id)
    | Rollback(id: Id)
    | AddWorkflow(wf: Workflow)
    | RunWorkflow(id: Id, ok: bool)
    | DeleteWorkflow(id: Id)
    | AddDoc(id: Id, archived: bool)
    | DeleteDoc(id: Id)
    | SetTone(cloneId: Id, tone: string)

  /** The position of the first suggestion with this id. */
  function Position(ss: seq<Suggestion>, id: Id): (i: Option<nat>)
    ensures i.Some? ==> i.value < |ss| && ss[i.value].id == id
    ensures i.Some? ==> forall j :: 0 <= j < i.value ==> ss[j].id != id
    ensures i.None? ==> forall j :: 0 <= j < |ss| ==> ss[j].id != id
  {
    if ss == [] then None
    else if ss[0].id == id then Some(0)
    else
      var rest := Position(ss[1..], id);
      if rest.Some? then
        assert forall j :: 0 < j < |ss| ==> ss[j] == ss[1..][j - 1];
        Some(rest.value + 1)
      else
        assert forall j :: 0 < j < |ss| ==> ss[j] == ss[1..][j - 1];
        None
  }

  predicate InStage(s: State, id: Id, stage: Stage) {
    var i := Position(s.suggestions, id);
    i.Some? && s.suggestions[i.value].stage == stage
  }

  /** The first registry position with this id, or the length of the registry. */
  function WorkflowIndex(ws: seq<Workflow>, id: Id): (i: nat)
    ensures i <= |ws|
    ensures i < |ws| ==> ws[i].id == id
    ensures forall j :: 0 <= j < i ==> ws[j].id != id
  {
    if ws == [] || ws[0].id == id then 0
    else
      assert forall j :: 0 < j < |ws| ==> ws[j] == ws[1..][j - 1];
      1 + WorkflowIndex(ws[1..], id)
  }

  function Keep(ws: seq<Workflow>, id: Id): seq<Workflow> {
    if ws == [] then []
    else (if ws[0].id == id then [] else [ws[0]]) + Keep(ws[1..], id)
  }

  lemma KeepOneByOne(ws: seq<Workflow>, k: nat, id: Id)
    requires k < |ws|
    ensures Keep(ws[k..], id) == (if ws[k].id == id then [] else [ws[k]]) + Keep(ws[k + 1..], id)
  {
  }

  predicate Duplicate(ss: seq<Suggestion>, target: Target) {
    exists i :: 0 <= i < |ss| && ss[i].target == target && ss[i].Live()
  }

  /**
   * An archive target is a document not archived yet, a merge names two registered workflows, a tone is a named one.
   */
  predicate Grounded(s: State, target: Target) {
    match target
    case ArchiveKnowledge(d) => d in s.archived && !s.archived[d]
    case MergeWorkflows(k, r) => k != r && WorkflowIndex(s.workflows, k) < |s.workflows|
        && WorkflowIndex(s.workflows, r) < |s.workflows|
    case SwitchTone(_, tone) => tone != ""
    case Manual(_) => true
  }

  /** What the generators propose: a grounded target under a new id. */
  predicate Proposable(s: State, id: Id, target: Target) {
    Position(s.suggestions, id).None? && Grounded(s, target)
  }

  /** addSuggestion: nothing while a live suggestion has the same target. */
  function AddStep(s: State, id: Id, target: Target): State {
    if Duplicate(s.suggestions, target) then s
    else s.(suggestions := Push(SUGGESTION_CAP, s.suggestions, Suggestion(id, target, Pending, None, None)))
  }

  predicate Mentioned(ss: seq<Suggestion>, doc: Id) {
    exists i :: 0 <= i < |ss| && ss[i].target == ArchiveKnowledge(doc)
  }

  function Move(s: State, id: Id, from: Stage, to: Stage): State {
    if !InStage(s, id, from) then s
    else
      var i := Position(s.suggestions, id).value;
      s.(suggestions := s.suggestions[i := s.suggestions[i].(stage := to)])
  }

  function ApplyStep(s: State, id: Id): State {
    if !InStage(s, id, Approved) then s
    else
      var i := Position(s.suggestions, id).value;
      var x := s.suggestions[i].(stage := Monitored);
      match x.target
      case ArchiveKnowledge(d) =>
        s.(suggestions := s.suggestions[i := x],
           archived := if d in s.archived then s.archived[d := true] else s.archived)
      case MergeWorkflows(_, r) =>
        var k := WorkflowIndex(s.workflows, r);
        if k < |s.workflows|
        then s.(suggestions := s.suggestions[i := x.(removed := Some(s.workflows[k]))],
                workflows := s.workflows[..k] + s.workflows[k + 1..])
        else s.(suggestions := s.suggestions[i := x])
      case SwitchTone(c, tone) =>
        if c in s.tones
        then s.(suggestions := s.suggestions[i := x.(prevTone := Some(s.tones[c]))], tones := s.tones[c := tone])
        else s.(suggestions := s.suggestions[i := x])
      case Manual(_) => s.(suggestions := s.suggestions[i := x])
  }

  /** A recorded tone counts only when it is not the empty string. */
  function RollbackStep(s: State, id: Id): State {
    if !InStage(s, id, Monitored) then s
    else
      var i := Position(s.suggestions, id).value;
      var x := s.suggestions[i];
      var t := s.(suggestions := s.suggestions[i := x.(stage := RolledBack)]);
      match x.target
      case ArchiveKnowledge(d) => if d in t.archived then t.(archived := t.archived[d := false]) else t
      case MergeWorkflows(_, _) => if x.removed.Some? then t.(workflows := t.workflows + [x.removed.value]) else t
      case SwitchTone(c, _) =>
        if x.prevTone.Some? && x.prevTone.value != "" && c in t.tones
        then t.(tones := t.tones[c := x.prevTone.value]) else t
      case Manual(_) => t
  }

  function Step(s: State, op: Op): State {
    match op
    case Propose(id, target) =>
      if Proposable(s, id, target) then AddStep(s, id, target) else s
    case Approve(id) => Move(s, id, Pending, Approved)
    case Reject(id) => Move(s, id, Pending, Rejected)
    case Apply(id) => ApplyStep(s, id)
    case Accept(id) => Move(s, id, Monitored, Accepted)
    case Rollback(id) => RollbackStep(s, id)
    case AddWorkflow(wf) => s.(workflows := s.workflows + [wf])
    case RunWorkflow(id, ok) =>
      var k := WorkflowIndex(s.workflows, id);
      if k == |s.workflows| then s
      else
        var w := s.workflows[k];
        s.(workflows := s.workflows[k := w.(runs := w.runs + 1, successes := w.successes + if ok then 1 else 0)])
    case DeleteWorkflow(id) => s.(workflows := Keep(s.workflows, id))
    case AddDoc(id, archived) =>
      if id in s.archived || Mentioned(s.suggestions, id) then s else s.(archived := s.archived[id := archived])
    case DeleteDoc(id) => s.(archived := s.archived - {id})
    case SetTone(c, tone) => s.(tones := s.tones[c := tone])
  }

  // ---- what the analysis proposes ----

  function FirstTwo<T>(xs: seq<T>): seq<T> {
    if |xs| <= 2 then xs else xs[..2]
  }

  /** What the analysis reads of a document, of a clone, and of the rest; times are counted in days. */
  datatype DocInfo = DocInfo(id: Id, uses: nat, createdAt: real, source: string)

  datatype CloneInfo = CloneInfo(id: Id, role: string, ratingSum: int, ratingCount: nat)

  /** `neural` says which engine is selected, `hasKey` whether a key is set for it. */
  datatype Fleet = Fleet(
    docs: seq<DocInfo>, clones: seq<CloneInfo>, roles: seq<string>, neural: bool, hasKey: bool, now: real)

  /** A document that is not archived and that nothing has retrieved in its more than three days. */
  function Stale(s: State, now: real): DocInfo -> bool {
    (d: DocInfo) =>
      && d.id in s.archived && !s.archived[d.id]
      && d.uses == 0 && now - d.createdAt > 3.0 && d.source != "learning-engine"
  }

  function ArchiveTargets(docs: seq<DocInfo>): seq<Target> {
    seq(|docs|, i requires 0 <= i < |docs| => ArchiveKnowledge(docs[i].id))
  }

  /** Rated at least twice, and below three on average. */
  predicate Weak(c: CloneInfo) {
    c.ratingCount >= 2 && c.ratingSum as real / c.ratingCount as real < 3.0
  }

  function PromptTargets(clones: seq<CloneInfo>): seq<Target> {
    if clones == [] then []
    else
      var c := clones[|clones| - 1];
      PromptTargets(clones[..|clones| - 1]) + if Weak(c) then [Manual("prompt:" + c.id)] else []
  }

  predicate HasRole(clones: seq<CloneInfo>, role: string) {
    exists i :: 0 <= i < |clones| && clones[i].role == role
  }

  /** The first role that no clone has. */
  function RoleTargets(roles: seq<string>, clones: seq<CloneInfo>): seq<Target> {
    if roles == [] then []
    else if !HasRole(clones, roles[0]) then [Manual("role:" + roles[0])]
    else RoleTargets(roles[1..], clones)
  }

  function OwnedBy(worker: Id): Workflow -> bool {
    (w: Workflow) => w.workerId == Some(worker)
  }

  /** The workers of the registered workflows, each where it first occurs. */
  function Owners(ws: seq<Workflow>): seq<Id> {
    if ws == [] then []
    else
      var before, w := Owners(ws[..|ws| - 1]), ws[|ws| - 1].workerId;
      if w.None? || w.value in before then before else before + [w.value]
  }

  /** The first of these workers with at least two workflows. */
  function FirstBusy(ws: seq<Workflow>, owners: seq<Id>): Option<Id> {
    if owners == [] then None
    else if |Filter(ws, OwnedBy(owners[0]))| >= 2 then Some(owners[0])
    else FirstBusy(ws, owners[1..])
  }

  function MergePair(own: seq<Workflow>): seq<Target> {
    if |own| < 2 then [] else [MergeWorkflows(own[0].id, own[1].id)]
  }

  function MergeTargets(ws: seq<Workflow>): seq<Target> {
    var busy := FirstBusy(ws, Owners(ws));
    if busy.None? then [] else MergePair(Filter(ws, OwnedBy(busy.value)))
  }

  /** generateSuggestions: two stale documents, the manual improvements, and one pair of workflows to merge. */
  function GeneratedTargets(s: State, f: Fleet): seq<Target> {
    ArchiveTargets(FirstTwo(Filter(f.docs, Stale(s, f.now))))
    + PromptTargets(f.clones) + RoleTargets(f.roles, f.clones)
    + (if f.neural && f.hasKey then [] else [Manual("neural")])
    + MergeTargets(s.workflows)
  }

  /** Suggests these targets in order; uid(n) is the id the n-th one gets. */
  function AddAll(s: State, uid: nat -> Id, targets: seq<Target>): State {
    if targets == [] then s
    else
      var n := |targets| - 1;
      AddStep(AddAll(s, uid, targets[..n]), uid(n), targets[n])
  }

  /** Whether a simulated run succeeds: the first draw of a generator seeded with the hash of this text. */
  function Succeeds(text: seq<S.CodeUnit>): bool {
    S.Value(S.StateAfter(S.HashFrom(S.HASH_START, text), 1)) > 0.15
  }

  lemma FirstState(text: seq<S.CodeUnit>) returns (state: S.Word)
    ensures state == (S.HashFrom(S.HASH_START, text) + 0x6D2B79F5) % 0x1_0000_0000
    ensures Succeeds(text) <==> S.Value(state) > 0.15
  {
    state := S.StateAfter(S.HashFrom(S.HASH_START, text), 1);
  }

  /**
   * The run draws once, in the state behind the hash of its text, and fails exactly when the scrambled word is at most
   * three twentieths of the range of words.
   */
  lemma SucceedsExactly(text: seq<S.CodeUnit>) returns (state: S.Word)
    ensures state == (S.HashFrom(S.HASH_START, text) + 0x6D2B79F5) % 0x1_0000_0000
    ensures Succeeds(text) <==> 20 * S.Scramble(state) > 3 * 0x1_0000_0000
  {
    state := FirstState(text);
    WordAboveThreshold(state);
  }

  lemma WordAboveThreshold(state: S.Word)
    ensures S.Value(state) > 0.15 <==> 20 * S.Scramble(state) > 3 * 0x1_0000_0000
  {
  }

  /** The engine's live records. */
  class EvolutionEngine {
    var suggestions: seq<Suggestion>
    var workflows: seq<Workflow>
    var archived: map<Id, bool>
    var tones: map<Id, string>

    function Model(): State
      reads this
    {
      State(suggestions, workflows, archived, tones)
    }

    constructor (workflows: seq<Workflow>, archived: map<Id, bool>, tones: map<Id, string>)
      ensures Model() == State([], workflows, archived, tones)
    {
      suggestions, this.workflows, this.archived, this.tones := [], workflows, archived, tones;
    }

    /** `find` by id; the result is the length when there is none. */
    method Find(id: Id) returns (i: nat)
      ensures i <= |suggestions|
      ensures i < |suggestions| ==> Position(suggestions, id) == Some(i)
      ensures i == |suggestions| ==> Position(suggestions, id) == None
    {
      i := 0;
      while i < |suggestions| && suggestions[i].id != id
        invariant i <= |suggestions|
        invariant forall j :: 0 <= j < i ==> suggestions[j].id != id
      {
        i := i + 1;
      }
    }

    method FindWorkflow(id: Id) returns (k: nat)
      ensures k == WorkflowIndex(workflows, id)
    {
      k := 0;
      while k < |workflows| && workflows[k].id != id
        invariant k <= |workflows|
        invariant forall j :: 0 <= j < k ==> workflows[j].id != id
      {
        k := k + 1;
      }
    }

    method AddSuggestion(id: Id, target: Target)
      modifies this
      ensures Model() == AddStep(old(Model()), id, target)
    {
      for i := 0 to |suggestions|
        invariant forall j :: 0 <= j < i ==> !(suggestions[j].target == target && suggestions[j].Live())
      {
        if suggestions[i].target == target && suggestions[i].Live() {
          return;
        }
      }
      suggestions := suggestions + [Suggestion(id, target, Pending, None, None)];
      if |suggestions| > SUGGESTION_CAP {
        suggestions := suggestions[1..];
      }
    }

    /** The grouping loop over the registry: the workflows of each worker, and the workers as they first occur. */
    method GroupByWorker() returns (byWorker: map<Id, seq<Workflow>>, owners: seq<Id>)
      ensures owners == Owners(workflows)
      ensures forall o :: o in owners ==> o in byWorker && byWorker[o] == Filter(workflows, OwnedBy(o))
    {
      byWorker, owners := map[], [];
      for i := 0 to |workflows|
        invariant owners == Owners(workflows[..i]) && forall o :: o in owners <==> o in byWorker
        invariant forall o :: (if o in byWorker then byWorker[o] else []) == Filter(workflows[..i], OwnedBy(o))
      {
        assert workflows[..i + 1][..i] == workflows[..i];
        var w := workflows[i];
        if w.workerId.Some? {
          var o := w.workerId.value;
          if o !in byWorker {
            owners := owners + [o];
            byWorker := byWorker[o := []];
          }
          byWorker := byWorker[o := byWorker[o] + [w]];
        }
      }
      assert workflows[..|workflows|] == workflows;
    }

    /** The first group of two or more. */
    method FindMerge() returns (found: seq<Target>)
      ensures found == MergeTargets(workflows)
    {
      var byWorker, owners := GroupByWorker();
      for i := 0 to |owners|
        invariant FirstBusy(workflows, owners) == FirstBusy(workflows, owners[i..])
      {
        assert owners[i] in owners && owners[i..][1..] == owners[i + 1..];
        if |byWorker[owners[i]]| >= 2 {
          return MergePair(byWorker[owners[i]]);
        }
      }
      return [];
    }

    static method FindMissingRole(roles: seq<string>, clones: seq<CloneInfo>) returns (found: seq<Target>)
      ensures found == RoleTargets(roles, clones)
    {
      var have: set<string> := {};
      for i := 0 to |clones|
        invariant forall r :: r in have <==> HasRole(clones[..i], r)
      {
        have := have + {clones[i].role};
      }
      assert clones[..|clones|] == clones;
      for i := 0 to |roles|
        invariant RoleTargets(roles, clones) == RoleTargets(roles[i..], clones)
      {
        assert roles[i..][1..] == roles[i + 1..];
        if roles[i] !in have {
          return [Manual("role:" + roles[i])];
        }
      }
      return [];
    }

    static method FindWeak(clones: seq<CloneInfo>) returns (found: seq<Target>)
      ensures found == PromptTargets(clones)
    {
      found := [];
      for i := 0 to |clones|
        invariant found == PromptTargets(clones[..i])
      {
        assert clones[..i + 1][..i] == clones[..i];
        if Weak(clones[i]) {
          found := found + [Manual("prompt:" + clones[i].id)];
        }
      }
      assert clones[..|clones|] == clones;
    }

    method GenerateSuggestions(f: Fleet, uid: nat -> Id)
      modifies this
      ensures Model() == AddAll(old(Model()), uid, GeneratedTargets(old(Model()), f))
    {
      var archives := ArchiveTargets(FirstTwo(Filter(f.docs, Stale(Model(), f.now))));
      var prompts := FindWeak(f.clones);
      var role := FindMissingRole(f.roles, f.clones);
      var merge := FindMerge();
      SuggestAll(archives + prompts + role + (if f.neural && f.hasKey then [] else [Manual("neural")]) + merge, uid);
    }

    method SuggestAll(targets: seq<Target>, uid: nat -> Id)
      modifies this
      ensures Model() == AddAll(old(Model()), uid, targets)
    {
      for n := 0 to |targets|
        invariant Model() == AddAll(old(Model()), uid, targets[..n])
      {
        assert targets[..n + 1][..n] == targets[..n];
        AddSuggestion(uid(n), targets[n]);
      }
      assert targets[..|targets|] == targets;
    }

    /** Approve, reject and accept: one stage to another, or nothing. */
    method Transition(id: Id, from: Stage, to: Stage) returns (done: bool)
      modifies this
      ensures Model() == Move(old(Model()), id, from, to)
      ensures done == InStage(old(Model()), id, from)
    {
      var i := Find(id);
      if i == |suggestions| || suggestions[i].stage != from {
        return false;
      }
      suggestions := suggestions[i := suggestions[i].(stage := to)];
      return true;
    }

    method DoApprove(id: Id) returns (done: bool)
      modifies this
      ensures Model() == Step(old(Model()), Approve(id)) && done == InStage(old(Model()), id, Pending)
    {
      done := Transition(id, Pending, Approved);
    }

    method DoReject(id: Id) returns (done: bool)
      modifies this
      ensures Model() == Step(old(Model()), Reject(id)) && done == InStage(old(Model()), id, Pending)
    {
      done := Transition(id, Pending, Rejected);
    }

    method DoAccept(id: Id) returns (done: bool)
      modifies this
      ensures Model() == Step(old(Model()), Accept(id)) && done == InStage(old(Model()), id, Monitored)
    {
      done := Transition(id, Monitored, Accepted);
    }

    method DoApply(id: Id) returns (done: bool)
      modifies this
      ensures Model() == Step(old(Model()), Apply(id))
      ensures done == InStage(old(Model()), id, Approved)
    {
      var i := Find(id);
      if i == |suggestions| || suggestions[i].stage != Approved {
        return false;
      }
      var x := suggestions[i];
      if x.target.ArchiveKnowledge? {
        if x.target.docId in archived {
          archived := archived[x.target.docId := true];
        }
      } else if x.target.MergeWorkflows? {
        var k := FindWorkflow(x.target.removeId);
        if k < |workflows| {
          x := x.(removed := Some(workflows[k]));
          workflows := workflows[..k] + workflows[k + 1..];
        }
      } else if x.target.SwitchTone? {
        if x.target.cloneId in tones {
          x := x.(prevTone := Some(tones[x.target.cloneId]));
          tones := tones[x.target.cloneId := x.target.tone];
        }
      }
      suggestions := suggestions[i := x.(stage := Monitored)];
      return true;
    }

    method DoRollback(id: Id) returns (done: bool)
      modifies this
      ensures Model() == Step(old(Model()), Rollback(id))
      ensures done == InStage(old(Model()), id, Monitored)
    {
      var i := Find(id);
      if i == |suggestions| || suggestions[i].stage != Monitored {
        return false;
      }
      var x := suggestions[i];
      if x.target.ArchiveKnowledge? {
        if x.target.docId in archived {
          archived := archived[x.target.docId := false];
        }
      } else if x.target.MergeWorkflows? && x.removed.Some? {
        workflows := workflows + [x.removed.value];
      } else if x.target.SwitchTone? && x.prevTone.Some? && x.prevTone.value != "" {
        if x.target.cloneId in tones {
          tones := tones[x.target.cloneId := x.prevTone.value];
        }
      }
      suggestions := suggestions[i := x.(stage := RolledBack)];
      return true;
    }

    static method Simulate(text: seq<S.CodeUnit>) returns (ok: bool)
      ensures ok == Succeeds(text)
    {
      var h := S.HashStr(text);
      var rng := new S.Rng(h);
      var drawn := rng.Draw(h, 0);
      return drawn > 0.15;
    }

    /** Counts one run of the first workflow with this id. */
    method CountRun(id: Id, ok: bool) returns (found: bool)
      modifies this
      ensures Model() == Step(old(Model()), RunWorkflow(id, ok))
      ensures found <==> WorkflowIndex(old(workflows), id) < |old(workflows)|
    {
      var k := FindWorkflow(id);
      if k == |workflows| { return false; }
      var w := workflows[k];
      w := w.(runs := w.runs + 1);
      if ok {
        w := w.(successes := w.successes + 1);
      }
      workflows := workflows[k := w];
      return true;
    }

    /** The simulated run; `text` is the id and the time, as the code units of the hashed text. */
    method DoRunWorkflow(id: Id, text: seq<S.CodeUnit>) returns (found: bool, ok: bool)
      modifies this
      ensures Model() == Step(old(Model()), RunWorkflow(id, ok)) && ok == Succeeds(text)
      ensures found <==> WorkflowIndex(old(workflows), id) < |old(workflows)|
    {
      ok := Simulate(text);
      found := CountRun(id, ok);
    }

    method Others(id: Id) returns (kept: seq<Workflow>)
      ensures kept == Keep(workflows, id)
    {
      kept := [];
      assert workflows[0..] == workflows;
      for k := 0 to |workflows|
        invariant kept + Keep(workflows[k..], id) == Keep(workflows, id)
      {
        KeepOneByOne(workflows, k, id);
        if workflows[k].id != id {
          kept := kept + [workflows[k]];
        }
      }
    }

    method DoDeleteWorkflow(id: Id)
      modifies this
      ensures Model() == Step(old(Model()), DeleteWorkflow(id))
    {
      workflows := Others(id);
    }
  }
}
