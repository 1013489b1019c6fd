/** Tones are restored when the applied suggestions are undone in last-in-first-out order. */
module LastInFirstOut {
  import opened Wrappers
  import opened Evolution
  import opened EvolutionRuns

  /** A quiet step that proposes no switch for a clone whose tone is the empty string. */
  predicate Gentle(s: State, op: Op) {
    && Quiet(s, op)
    && (op.Propose? && op.target.SwitchTone? && op.target.cloneId in s.tones ==> s.tones[op.target.cloneId] != "")
  }

  predicate AllGentle(s: State, ops: seq<Op>)
    decreases |ops|
  {
    ops == [] || (Gentle(s, ops[0]) && AllGentle(Step(s, ops[0]), ops[1..]))
  }

  lemma {:induction false} GentleIsQuiet(s: State, ops: seq<Op>)
    requires AllGentle(s, ops)
    ensures AllQuiet(s, ops)
    decreases |ops|
  {
    if ops != [] {
      GentleIsQuiet(Step(s, ops[0]), ops[1..]);
    }
  }

  /** A run whose applies are each undone, properly nested: other steps, and apply ... rollback around an inner run. */
  datatype Nest = End | Plain(op: Op, rest: Nest) | Undone(id: Id, inner: Nest, rest: Nest)

  function Flat(n: Nest): seq<Op> {
    match n
    case End => []
    case Plain(op, rest) => [op] + Flat(rest)
    case Undone(id, inner, rest) => [Apply(id)] + (Flat(inner) + ([Rollback(id)] + Flat(rest)))
  }

  predicate Reuses(ops: seq<Op>, id: Id) {
    exists i :: 0 <= i < |ops| && ops[i].Propose? && ops[i].id == id
  }

  /**
   * Every apply and rollback of the nest is carried out, no id is proposed again, the cap pushes out nothing monitored.
   */
  predicate Proper(s: State, n: Nest)
    decreases n
  {
    match n
    case End => true
    case Plain(op, rest) =>
      (op.Propose? || op.Approve? || op.Reject?) && Gentle(s, op) && Proper(Step(s, op), rest)
    case Undone(id, inner, rest) =>
      && InStage(s, id, Approved) && !Reuses(Flat(inner), id)
      && var applied := Step(s, Apply(id));
      && Proper(applied, inner)
      && var later := Run(applied, Flat(inner));
      && InStage(later, id, Monitored)
      && Proper(Step(later, Rollback(id)), rest)
  }

  /** Every clone that a switch is about has a tone, and every proposed tone is one. */
  ghost predicate Named(s: State) {
    forall i :: 0 <= i < |s.suggestions| && s.suggestions[i].target.SwitchTone? ==>
      var x := s.suggestions[i].target;
      x.tone != "" && (x.cloneId in s.tones ==> s.tones[x.cloneId] != "")
  }

  ghost predicate UniqueIds(ss: seq<Suggestion>) {
    forall i, j :: 0 <= i < j < |ss| ==> ss[i].id != ss[j].id
  }

  ghost predicate Good(s: State) {
    Inv(s) && Named(s) && UniqueIds(s.suggestions)
  }

  lemma StepKeepsNamed(s: State, op: Op)
    requires Named(s) && Gentle(s, op)
    ensures Named(Step(s, op))
  {
    if !op.Propose? {
      StepIsLocal(s, op);
    }
  }

  lemma StepKeepsUnique(s: State, op: Op)
    requires UniqueIds(s.suggestions) && Quiet(s, op)
    ensures UniqueIds(Step(s, op).suggestions)
  {
    if !op.Propose? {
      StepIsLocal(s, op);
    }
  }

  lemma StepKeepsGood(s: State, op: Op)
    requires Good(s) && Gentle(s, op)
    ensures Good(Step(s, op))
  {
    StepKeepsInv(s, op);
    StepKeepsNamed(s, op);
    StepKeepsUnique(s, op);
  }

  lemma {:induction false} RunKeepsGood(s: State, ops: seq<Op>)
    requires Good(s) && AllGentle(s, ops)
    ensures Good(Run(s, ops))
    decreases |ops|
  {
    if ops != [] {
      StepKeepsGood(s, ops[0]);
      RunKeepsGood(Step(s, ops[0]), ops[1..]);
    }
  }

  lemma {:induction false} RunAppends(s: State, a: seq<Op>, b: seq<Op>)
    ensures Run(s, a + b) == Run(Run(s, a), b)
    ensures AllQuiet(s, a + b) == (AllQuiet(s, a) && AllQuiet(Run(s, a), b))
    ensures AllGentle(s, a + b) == (AllGentle(s, a) && AllGentle(Run(s, a), b))
    decreases |a|
  {
    if a == [] {
      assert a + b == b;
    } else {
      assert (a + b)[1..] == a[1..] + b;
      RunAppends(Step(s, a[0]), a[1..], b);
    }
  }

  // ---- a monitored suggestion keeps what it recorded ----

  ghost predicate StillOrClosed(ss: seq<Suggestion>, x: Suggestion) {
    forall j :: 0 <= j < |ss| && ss[j].id == x.id ==> ss[j] == x || ss[j].stage == Accepted || ss[j].stage == RolledBack
  }

  lemma {:induction false} MonitoredKeepsRecord(s: State, ops: seq<Op>, x: Suggestion)
    requires AllQuiet(s, ops) && x.stage == Monitored && StillOrClosed(s.suggestions, x) && !Reuses(ops, x.id)
    ensures StillOrClosed(Run(s, ops).suggestions, x)
    decreases |ops|
  {
    if ops != [] {
      if !ops[0].Propose? {
        StepIsLocal(s, ops[0]);
      }
      forall i | 0 <= i < |ops[1..]| && ops[1..][i].Propose? ensures ops[1..][i].id != x.id {
        assert ops[i + 1] == ops[1..][i];
      }
      assert StillOrClosed(Step(s, ops[0]).suggestions, x);
      MonitoredKeepsRecord(Step(s, ops[0]), ops[1..], x);
    }
  }

  // ---- one undone apply ----

  lemma ClaimsOfApply(s: State, id: Id)
    requires Inv(s) && InStage(s, id, Approved)
    ensures var t := Step(s, Apply(id));
      var x := t.suggestions[Position(s.suggestions, id).value];
      && (forall d :: Claimed(t.suggestions, d) == (x.target == ArchiveKnowledge(d) || Claimed(s.suggestions, d)))
      && (forall d :: x.target == ArchiveKnowledge(d) ==> !Claimed(s.suggestions, d))
      && (forall p :: HeldNum(t.suggestions, p) == HeldNum(s.suggestions, p) + Num(HeldBy(x), p))
  {
    var i, t := Position(s.suggestions, id).value, Step(s, Apply(id));
    var x := t.suggestions[i];
    StepIsLocal(s, Apply(id));
    forall d {
      ClaimsAround(s.suggestions, i, x, d);
    }
    forall p {
      HeldAround(s.suggestions, i, x, p);
    }
  }

  lemma ClaimsOfRollback(s: State, id: Id)
    requires Inv(s) && InStage(s, id, Monitored)
    ensures var t := Step(s, Rollback(id));
      var x := s.suggestions[Position(s.suggestions, id).value];
      && (forall d :: Claimed(t.suggestions, d) == (x.target != ArchiveKnowledge(d) && Claimed(s.suggestions, d)))
      && (forall p :: HeldNum(t.suggestions, p) + Num(HeldBy(x), p) == HeldNum(s.suggestions, p))
  {
    var i, t := Position(s.suggestions, id).value, Step(s, Rollback(id));
    StepIsLocal(s, Rollback(id));
    forall d {
      ClaimsAround(s.suggestions, i, t.suggestions[i], d);
    }
    forall p {
      HeldAround(s.suggestions, i, t.suggestions[i], p);
    }
  }

  /** What an apply recorded is still there when its suggestion is found monitored after an inner run. */
  lemma RecordSurvives(s: State, id: Id, inner: seq<Op>)
    requires Good(s) && InStage(s, id, Approved) && !Reuses(inner, id)
    requires AllQuiet(Step(s, Apply(id)), inner) && InStage(Run(Step(s, Apply(id)), inner), id, Monitored)
    ensures var applied := Step(s, Apply(id));
      var later := Run(applied, inner);
      && Position(s.suggestions, id).value < |applied.suggestions|
      && later.suggestions[Position(later.suggestions, id).value]
          == applied.suggestions[Position(s.suggestions, id).value]
  {
    var applied := Step(s, Apply(id));
    var i := Position(s.suggestions, id).value;
    StepIsLocal(s, Apply(id));
    var x := applied.suggestions[i];
    forall j | 0 <= j < |applied.suggestions| && applied.suggestions[j].id == x.id ensures applied.suggestions[j] == x {
      assert s.suggestions[j].id == s.suggestions[i].id;
    }
    MonitoredKeepsRecord(applied, inner, x);
  }

  lemma TonesOfApply(s: State, id: Id)
    requires InStage(s, id, Approved)
    ensures var (i, t) := (Position(s.suggestions, id).value, Step(s, Apply(id)));
      && |t.suggestions| == |s.suggestions|
      && var (was, x) := (s.suggestions[i], t.suggestions[i]);
      && t.suggestions == s.suggestions[i := x] && x.id == was.id && x.target == was.target && x.stage == Monitored
      && if x.target.SwitchTone? && x.target.cloneId in s.tones
         then t.tones == s.tones[x.target.cloneId := x.target.tone] && x.prevTone == Some(s.tones[x.target.cloneId])
         else t.tones == s.tones && x.prevTone == was.prevTone
  {
  }

  lemma TonesOfRollback(s: State, id: Id)
    requires InStage(s, id, Monitored)
    ensures var (i, t) := (Position(s.suggestions, id).value, Step(s, Rollback(id)));
      && |t.suggestions| == |s.suggestions|
      && var (x, y) := (s.suggestions[i], t.suggestions[i]);
      && t.suggestions == s.suggestions[i := y] && y.id == x.id
      && t.tones == if x.target.SwitchTone? && x.target.cloneId in s.tones && x.prevTone.Some? && x.prevTone.value != ""
                    then s.tones[x.target.cloneId := x.prevTone.value] else s.tones
  {
  }

  lemma BracketKeepsTones(s: State, id: Id, inner: seq<Op>)
    requires Good(s) && InStage(s, id, Approved) && !Reuses(inner, id)
    requires AllQuiet(Step(s, Apply(id)), inner) && InStage(Run(Step(s, Apply(id)), inner), id, Monitored)
    requires Run(Step(s, Apply(id)), inner).tones == Step(s, Apply(id)).tones
    ensures Step(Run(Step(s, Apply(id)), inner), Rollback(id)).tones == s.tones
  {
    RecordSurvives(s, id, inner);
    TonesOfApply(s, id);
    TonesOfRollback(Run(Step(s, Apply(id)), inner), id);
    assert s.suggestions[Position(s.suggestions, id).value].prevTone.None?;
  }

  lemma BracketKeepsClaims(s: State, id: Id, inner: seq<Op>)
    requires Good(s) && InStage(s, id, Approved) && !Reuses(inner, id)
    requires AllQuiet(Step(s, Apply(id)), inner) && InStage(Run(Step(s, Apply(id)), inner), id, Monitored)
    requires SameClaims(Step(s, Apply(id)).suggestions, Run(Step(s, Apply(id)), inner).suggestions)
    ensures SameClaims(s.suggestions, Step(Run(Step(s, Apply(id)), inner), Rollback(id)).suggestions)
  {
    RecordSurvives(s, id, inner);
    var later := Run(Step(s, Apply(id)), inner);
    StepKeepsInv(s, Apply(id));
    RunKeepsInv(Step(s, Apply(id)), inner);
    ClaimsOfApply(s, id);
    ClaimsOfRollback(later, id);
  }

  /** An apply and the rollback after an inner run that leaves tones and claims alone cancel out. */
  lemma BracketCancels(s: State, id: Id, inner: seq<Op>)
    requires Good(s) && InStage(s, id, Approved) && !Reuses(inner, id)
    requires AllQuiet(Step(s, Apply(id)), inner) && InStage(Run(Step(s, Apply(id)), inner), id, Monitored)
    requires Run(Step(s, Apply(id)), inner).tones == Step(s, Apply(id)).tones
    requires SameClaims(Step(s, Apply(id)).suggestions, Run(Step(s, Apply(id)), inner).suggestions)
    ensures Step(Run(Step(s, Apply(id)), inner), Rollback(id)).tones == s.tones
    ensures SameClaims(s.suggestions, Step(Run(Step(s, Apply(id)), inner), Rollback(id)).suggestions)
  {
    BracketKeepsTones(s, id, inner);
    BracketKeepsClaims(s, id, inner);
  }

  /** Tones and claims come back, and nothing monitored is pushed out. */
  lemma {:induction false} NestRestores(s: State, n: Nest)
    requires Good(s) && Proper(s, n)
    ensures AllGentle(s, Flat(n))
    ensures Run(s, Flat(n)).tones == s.tones && SameClaims(s.suggestions, Run(s, Flat(n)).suggestions)
    decreases n
  {
    match n
    case End =>
    case Plain(op, rest) =>
      var t := Step(s, op);
      StepKeepsGood(s, op);
      NestRestores(t, rest);
      RunAppends(s, [op], Flat(rest));
      PlainKeepsClaims(s, op);
      assert Run(s, [op]) == t;
    case Undone(id, inner, rest) =>
      var applied := Step(s, Apply(id));
      StepKeepsGood(s, Apply(id));
      NestRestores(applied, inner);
      GentleIsQuiet(applied, Flat(inner));
      BracketCancels(s, id, Flat(inner));
      var later := Run(applied, Flat(inner));
      RunKeepsGood(applied, Flat(inner));
      StepKeepsGood(later, Rollback(id));
      NestRestores(Step(later, Rollback(id)), rest);
      BracketRuns(s, id, Flat(inner), Flat(rest));
  }

  lemma BracketRuns(s: State, id: Id, inner: seq<Op>, rest: seq<Op>)
    ensures var applied := Step(s, Apply(id));
      var later := Run(applied, inner);
      var undone := Step(later, Rollback(id));
      var all := [Apply(id)] + (inner + ([Rollback(id)] + rest));
      && Run(s, all) == Run(undone, rest)
      && AllGentle(s, all) == (AllGentle(applied, inner) && AllGentle(undone, rest))
  {
    var applied := Step(s, Apply(id));
    RunAppends(s, [Apply(id)], inner + ([Rollback(id)] + rest));
    RunAppends(applied, inner, [Rollback(id)] + rest);
    RunAppends(Run(applied, inner), [Rollback(id)], rest);
    assert Run(s, [Apply(id)]) == applied;
  }

  lemma PlainKeepsClaims(s: State, op: Op)
    requires Inv(s) && Quiet(s, op) && (op.Propose? || op.Approve? || op.Reject?)
    ensures Step(s, op).tones == s.tones && SameClaims(s.suggestions, Step(s, op).suggestions)
  {
    forall d ensures Claimed(Step(s, op).suggestions, d) == Claimed(s.suggestions, d) {
      if op.Propose? {
        ClaimsAfterPropose(s, op, d);
      } else {
        StepKeepsUnderlying(s, op, d);
        StepIsLocal(s, op);
        var i := Position(s.suggestions, op.id);
        if i.Some? && s.suggestions[i.value].Live() {
          ClaimsAround(s.suggestions, i.value, Step(s, op).suggestions[i.value], d);
        }
      }
    }
    forall v: Workflow ensures HeldNum(Step(s, op).suggestions, Exactly(v)) == HeldNum(s.suggestions, Exactly(v)) {
      StepBalances(s, op, Exactly(v));
    }
  }

  /**
   * Undone in last-in-first-out order, a run leaves tones and archived flags exactly, and the registry as a multiset.
   */
  lemma LastInFirstOutRestores(s: State, n: Nest)
    requires Good(s) && Proper(s, n)
    ensures var t := Run(s, Flat(n));
      t.tones == s.tones && t.archived == s.archived && multiset(t.workflows) == multiset(s.workflows)
  {
    NestRestores(s, n);
    GentleIsQuiet(s, Flat(n));
    UndoingInAnyOrderRestores(s, Flat(n));
  }

  // ---- where tones do not come back ----

  /**
   * An apply undone at once restores the tone exactly when the clone had one, because a recorded empty tone is ignored.
   */
  lemma ToneComesBackExactlyWhenNamed(s: State, id: Id)
    requires InStage(s, id, Approved)
    requires var x := s.suggestions[Position(s.suggestions, id).value];
      x.target.SwitchTone? && x.target.cloneId in s.tones
    ensures var target := s.suggestions[Position(s.suggestions, id).value].target;
      Step(Step(s, Apply(id)), Rollback(id)).tones == s.tones
      <==> s.tones[target.cloneId] != "" || target.tone == ""
  {
    var i := Position(s.suggestions, id).value;
    var c := s.suggestions[i].target.cloneId;
    var applied := Step(s, Apply(id));
    PositionIs(applied.suggestions, id, i);
    var undone := Step(applied, Rollback(id));
    assert undone.tones[c] == if s.tones[c] != "" then s.tones[c] else s.suggestions[i].target.tone;
    assert undone.tones == s.tones[c := undone.tones[c]];
  }

  lemma PositionIs(ss: seq<Suggestion>, id: Id, i: nat)
    requires i < |ss| && ss[i].id == id && forall j :: 0 <= j < i ==> ss[j].id != id
    ensures Position(ss, id) == Some(i)
  {
    var k := Position(ss, id).value;
    assert !(k < i) && !(i < k);
  }

  lemma {:induction false} PositionDependsOnIds(ss: seq<Suggestion>, tt: seq<Suggestion>, id: Id)
    requires |ss| == |tt| && forall j :: 0 <= j < |ss| ==> ss[j].id == tt[j].id
    ensures Position(ss, id) == Position(tt, id)
  {
    if ss != [] {
      PositionDependsOnIds(ss[1..], tt[1..], id);
    }
  }

  /**
   * Undone first-in-first-out, two tone switches of one clone leave it with the tone of the first switch,
   * so the order matters exactly when that differs from the tone before.
   */
  lemma ToneOrderMatters(s: State, a: Id, b: Id)
    requires Good(s) && a != b && InStage(s, a, Approved) && InStage(s, b, Approved)
    requires var x := s.suggestions[Position(s.suggestions, a).value].target;
      var y := s.suggestions[Position(s.suggestions, b).value].target;
      x.SwitchTone? && y.SwitchTone? && x.cloneId == y.cloneId && x.cloneId in s.tones
    ensures var x := s.suggestions[Position(s.suggestions, a).value].target;
      Step(Step(Step(Step(s, Apply(a)), Apply(b)), Rollback(a)), Rollback(b)).tones == s.tones[x.cloneId := x.tone]
  {
    var i, j := Position(s.suggestions, a).value, Position(s.suggestions, b).value;
    TonesOfApply(s, a);
    var s1 := Step(s, Apply(a));
    PositionDependsOnIds(s.suggestions, s1.suggestions, b);
    TonesOfApply(s1, b);
    var s2 := Step(s1, Apply(b));
    PositionDependsOnIds(s.suggestions, s2.suggestions, a);
    TonesOfRollback(s2, a);
    var s3 := Step(s2, Rollback(a));
    PositionDependsOnIds(s.suggestions, s3.suggestions, b);
    TonesOfRollback(s3, b);
    var c := s.suggestions[i].target.cloneId;
    assert s3.suggestions[j].prevTone == Some(s.suggestions[i].target.tone);
  }
}
