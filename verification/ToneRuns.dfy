/** What a clone's tone is once the tone switches of a run are undone, in whatever order. */
module ToneRuns {
  import opened Wrappers
  import opened Rings
  import opened Evolution
  import opened EvolutionRuns
  import opened LastInFirstOut

  /** A change of one clone's tone: a switch that recorded the tone before, or a rollback to a recorded tone. */
  datatype Write = Switched(id: Id, was: string, tone: string) | Restored(id: Id, tone: string)

  /** The suggestion under this id is in this stage and is a switch of this clone. */
  predicate SwitchIn(s: State, id: Id, stage: Stage, c: Id) {
    && InStage(s, id, stage)
    && var x := s.suggestions[Position(s.suggestions, id).value].target;
    && x.SwitchTone? && x.cloneId == c
  }

  /** How an operation writes the tone of a clone, if it does. */
  function WriteOf(s: State, op: Op, c: Id): seq<Write> {
    if c !in s.tones then []
    else if op.Apply? && SwitchIn(s, op.id, Approved, c) then
      [Switched(op.id, s.tones[c], s.suggestions[Position(s.suggestions, op.id).value].target.tone)]
    else if op.Rollback? && SwitchIn(s, op.id, Monitored, c) then
      var was := s.suggestions[Position(s.suggestions, op.id).value].prevTone;
      if was.Some? && was.value != "" then [Restored(op.id, was.value)] else []
    else []
  }

  function Writes(s: State, ops: seq<Op>, c: Id): seq<Write>
    decreases |ops|
  {
    if ops == [] then [] else WriteOf(s, ops[0], c) + Writes(Step(s, ops[0]), ops[1..], c)
  }

  function Final(w: seq<Write>, before: string): string {
    if w == [] then before else w[|w| - 1].tone
  }

  // ---- the last write decides ----

  lemma ToneAfterStep(s: State, op: Op, c: Id)
    requires Quiet(s, op) && c in s.tones
    ensures c in Step(s, op).tones && Step(s, op).tones[c] == Final(WriteOf(s, op, c), s.tones[c])
  {
  }

  lemma {:induction false} ToneAfterRun(s: State, ops: seq<Op>, c: Id)
    requires AllQuiet(s, ops) && c in s.tones
    ensures c in Run(s, ops).tones && Run(s, ops).tones[c] == Final(Writes(s, ops, c), s.tones[c])
    decreases |ops|
  {
    if ops != [] {
      ToneAfterStep(s, ops[0], c);
      ToneAfterRun(Step(s, ops[0]), ops[1..], c);
    }
  }

  // ---- a switch that is not undone stays ----

  /** A switch of this clone, with a tone recorded, is applied and not undone yet. */
  predicate HoldsSwitch(x: Suggestion, c: Id) {
    && x.stage.Monitored? && x.target.SwitchTone? && x.target.cloneId == c
    && x.prevTone.Some? && x.prevTone.value != ""
  }

  /** Some switch of this clone is applied and not undone yet. */
  predicate Outstanding(ss: seq<Suggestion>, c: Id) {
    exists i :: 0 <= i < |ss| && ss[i].stage.Monitored? && ss[i].target.SwitchTone? && ss[i].target.cloneId == c
  }

  lemma OutstandingAt(ss: seq<Suggestion>, i: nat, c: Id)
    requires i < |ss| && HoldsSwitch(ss[i], c)
    ensures Outstanding(ss, c)
  {
  }

  /** A step that writes no tone of the clone keeps every switch that is held. */
  lemma HeldStays(s: State, op: Op, c: Id, i: nat) returns (j: nat)
    requires Quiet(s, op) && c in s.tones && i < |s.suggestions| && HoldsSwitch(s.suggestions[i], c)
    requires WriteOf(s, op, c) == []
    ensures j < |Step(s, op).suggestions| && HoldsSwitch(Step(s, op).suggestions[j], c)
  {
    var ss, tt := s.suggestions, Step(s, op).suggestions;
    j := i;
    if op.Propose? {
      if tt != ss && |ss| >= SUGGESTION_CAP {
        j := i - 1;
      }
    } else {
      StepIsLocal(s, op);
    }
  }

  lemma {:induction false} HeldStaysHeld(s: State, ops: seq<Op>, c: Id, i: nat)
    requires AllQuiet(s, ops) && c in s.tones && i < |s.suggestions| && HoldsSwitch(s.suggestions[i], c)
    requires Writes(s, ops, c) == []
    ensures Outstanding(Run(s, ops).suggestions, c)
    decreases |ops|
  {
    if ops == [] {
      OutstandingAt(s.suggestions, i, c);
    } else {
      var j := HeldStays(s, ops[0], c, i);
      ToneAfterStep(s, ops[0], c);
      HeldStaysHeld(Step(s, ops[0]), ops[1..], c, j);
    }
  }

  lemma SwitchIsHeld(s: State, op: Op, c: Id) returns (j: nat)
    requires Named(s) && WriteOf(s, op, c) != [] && WriteOf(s, op, c)[0].Switched?
    ensures j < |Step(s, op).suggestions| && HoldsSwitch(Step(s, op).suggestions[j], c)
  {
    j := Position(s.suggestions, op.id).value;
    TonesOfApply(s, op.id);
  }

  /** When no switch of the clone is outstanding at the end, the last write of its tone is a rollback. */
  lemma {:induction false} LastWriteRestores(s: State, ops: seq<Op>, c: Id)
    requires Named(s) && AllGentle(s, ops) && c in s.tones && !Outstanding(Run(s, ops).suggestions, c)
    ensures var w := Writes(s, ops, c); w == [] || w[|w| - 1].Restored?
    decreases |ops|
  {
    if ops != [] {
      var t, rest := Step(s, ops[0]), ops[1..];
      StepKeepsNamed(s, ops[0]);
      ToneAfterStep(s, ops[0], c);
      LastWriteRestores(t, rest, c);
      if Writes(t, rest, c) == [] && WriteOf(s, ops[0], c) != [] && WriteOf(s, ops[0], c)[0].Switched? {
        var j := SwitchIsHeld(s, ops[0], c);
        GentleIsQuiet(t, rest);
        HeldStaysHeld(t, rest, c, j);
      }
    }
  }

  // ---- what a rollback restores was recorded by its own switch ----

  predicate Records(x: Suggestion, c: Id, w: Write) {
    x.id == w.id && x.stage.Monitored? && x.target.SwitchTone? && x.target.cloneId == c && x.prevTone == Some(w.tone)
  }

  /** An outstanding switch recorded the tone this write restores. */
  predicate RecordedIn(ss: seq<Suggestion>, c: Id, w: Write) {
    exists i :: 0 <= i < |ss| && Records(ss[i], c, w)
  }

  predicate SwitchedBefore(w: seq<Write>, j: nat, id: Id, tone: string) {
    exists i :: 0 <= i < j && i < |w| && w[i].Switched? && w[i].id == id && w[i].was == tone
  }

  lemma RecordComesFromSwitch(s: State, op: Op, c: Id, w: Write)
    requires Quiet(s, op) && c in s.tones && RecordedIn(Step(s, op).suggestions, c, w)
    ensures RecordedIn(s.suggestions, c, w) || SwitchedBefore(WriteOf(s, op, c), 1, w.id, w.tone)
  {
    var ss, tt := s.suggestions, Step(s, op).suggestions;
    var i :| 0 <= i < |tt| && Records(tt[i], c, w);
    if op.Propose? {
      assert tt[i] in ss;
      var k :| 0 <= k < |ss| && ss[k] == tt[i];
      assert Records(ss[k], c, w);
    } else {
      StepIsLocal(s, op);
      if tt[i] == ss[i] {
        assert Records(ss[i], c, w);
      } else {
        TonesOfStep(s, op, c);
        assert i == Position(ss, op.id).value && SwitchIn(s, op.id, Approved, c);
        assert WriteOf(s, op, c)[0].was == w.tone;
      }
    }
  }

  /** Only an apply makes a suggestion monitored. */
  lemma TonesOfStep(s: State, op: Op, c: Id)
    requires op.Approve? || op.Reject? || op.Apply? || op.Rollback?
    requires c in s.tones && Position(s.suggestions, op.id).Some?
    ensures var i := Position(s.suggestions, op.id).value;
      && |Step(s, op).suggestions| == |s.suggestions|
      && var (x, y) := (s.suggestions[i], Step(s, op).suggestions[i]);
      && (y.stage.Monitored? && y != x ==> op.Apply? && InStage(s, op.id, Approved))
      && y.target == x.target && y.id == x.id
      && (op.Apply? && y != x && x.target.SwitchTone? && x.target.cloneId == c ==> y.prevTone == Some(s.tones[c]))
  {
  }

  lemma WriteIsOwn(s: State, op: Op, c: Id)
    ensures var w := WriteOf(s, op, c);
      && |w| <= 1
      && (w != [] && w[0].Switched? ==> op.Apply? && InStage(s, op.id, Approved) && w[0].id == op.id)
      && (w != [] && w[0].Restored? ==> RecordedIn(s.suggestions, c, w[0]))
  {
    var w := WriteOf(s, op, c);
    if w != [] && w[0].Restored? {
      assert Records(s.suggestions[Position(s.suggestions, op.id).value], c, w[0]);
    }
  }

  lemma {:induction false} SwitchedInFront(first: seq<Write>, later: seq<Write>, j: nat, id: Id, tone: string)
    requires SwitchedBefore(first, |first|, id, tone) && |first| <= j
    ensures SwitchedBefore(first + later, j, id, tone)
  {
    var i :| 0 <= i < |first| && first[i].Switched? && first[i].id == id && first[i].was == tone;
    assert (first + later)[i] == first[i];
  }

  lemma {:induction false} SwitchedBehind(first: seq<Write>, later: seq<Write>, j: nat, id: Id, tone: string)
    requires |first| <= j && SwitchedBefore(later, j - |first|, id, tone)
    ensures SwitchedBefore(first + later, j, id, tone)
  {
    var i :| 0 <= i < j - |first| && i < |later| && later[i].Switched? && later[i].id == id && later[i].was == tone;
    assert (first + later)[|first| + i] == later[i];
  }

  lemma {:induction false} RestoredWasRecorded(s: State, ops: seq<Op>, c: Id, j: nat)
    requires AllQuiet(s, ops) && c in s.tones && j < |Writes(s, ops, c)| && Writes(s, ops, c)[j].Restored?
    ensures var w := Writes(s, ops, c);
      RecordedIn(s.suggestions, c, w[j]) || SwitchedBefore(w, j, w[j].id, w[j].tone)
    decreases |ops|
  {
    var t, rest, first := Step(s, ops[0]), ops[1..], WriteOf(s, ops[0], c);
    ToneAfterStep(s, ops[0], c);
    WriteIsOwn(s, ops[0], c);
    if j >= |first| {
      var later := Writes(t, rest, c);
      var w := later[j - |first|];
      RestoredWasRecorded(t, rest, c, j - |first|);
      if SwitchedBefore(later, j - |first|, w.id, w.tone) {
        SwitchedBehind(first, later, j, w.id, w.tone);
      } else {
        RecordComesFromSwitch(s, ops[0], c, w);
        if !RecordedIn(s.suggestions, c, w) {
          SwitchedInFront(first, later, j, w.id, w.tone);
        }
      }
    }
  }

  lemma NothingRecorded(ss: seq<Suggestion>, c: Id, w: Write)
    requires !Outstanding(ss, c)
    ensures !RecordedIn(ss, c, w)
  {
  }

  /**
   * Any quiet run, any order: when every switch of a clone is undone, the clone has the tone that the switch rolled
   * back last had recorded, or its tone was never written.
   */
  lemma FinalToneIsLastRestored(s: State, ops: seq<Op>, c: Id)
    requires Named(s) && AllGentle(s, ops) && c in s.tones
    requires !Outstanding(s.suggestions, c) && !Outstanding(Run(s, ops).suggestions, c)
    ensures c in Run(s, ops).tones
    ensures var (w, tone) := (Writes(s, ops, c), Run(s, ops).tones[c]);
      if w == [] then tone == s.tones[c]
      else
        var n := |w| - 1;
        w[n].Restored? && tone == w[n].tone && SwitchedBefore(w, n, w[n].id, tone)
  {
    var w := Writes(s, ops, c);
    GentleIsQuiet(s, ops);
    ToneAfterRun(s, ops, c);
    LastWriteRestores(s, ops, c);
    if w != [] {
      RestoredWasRecorded(s, ops, c, |w| - 1);
      NothingRecorded(s.suggestions, c, w[|w| - 1]);
    }
  }

  // ---- when the tone comes back ----

  /** No suggestion is proposed under an id that was in use before. */
  predicate NoReuse(s: State, ops: seq<Op>)
    decreases |ops|
  {
    && (forall i :: 0 <= i < |s.suggestions| ==> !Reuses(ops, s.suggestions[i].id))
    && (ops == [] || NoReuse(Step(s, ops[0]), ops[1..]))
  }

  ghost predicate PastApproval(ss: seq<Suggestion>, id: Id) {
    forall i :: 0 <= i < |ss| && ss[i].id == id ==> !ss[i].Waiting()
  }

  lemma ReusesTail(ops: seq<Op>, id: Id)
    requires ops != [] && !Reuses(ops, id)
    ensures !Reuses(ops[1..], id) && !(ops[0].Propose? && ops[0].id == id)
  {
    forall i | 0 <= i < |ops[1..]| && ops[1..][i].Propose? ensures ops[1..][i].id != id {
      assert ops[i + 1] == ops[1..][i];
    }
  }

  lemma StaysPast(s: State, op: Op, id: Id)
    requires Quiet(s, op) && PastApproval(s.suggestions, id) && !(op.Propose? && op.id == id)
    ensures PastApproval(Step(s, op).suggestions, id)
  {
    if !op.Propose? {
      StepIsLocal(s, op);
    }
  }

  /** No write of this list is a switch of this suggestion. */
  ghost predicate WithoutSwitch(w: seq<Write>, id: Id) {
    forall j :: 0 <= j < |w| && w[j].Switched? ==> w[j].id != id
  }

  lemma {:induction false} NotSwitchedAgain(s: State, ops: seq<Op>, c: Id, id: Id)
    requires AllQuiet(s, ops) && PastApproval(s.suggestions, id) && !Reuses(ops, id)
    ensures WithoutSwitch(Writes(s, ops, c), id)
    decreases |ops|
  {
    if ops != [] {
      ReusesTail(ops, id);
      WriteIsOwn(s, ops[0], c);
      StaysPast(s, ops[0], id);
      NotSwitchedAgain(Step(s, ops[0]), ops[1..], c, id);
    }
  }

  lemma AppliedIsPast(s: State, id: Id)
    requires UniqueIds(s.suggestions) && InStage(s, id, Approved)
    ensures PastApproval(Step(s, Apply(id)).suggestions, id)
  {
    TonesOfApply(s, id);
  }

  /** Every switch of the list is carried out once. */
  ghost predicate SwitchesOnce(w: seq<Write>) {
    forall i, j :: 0 <= i < j < |w| && w[i].Switched? && w[j].Switched? ==> w[i].id != w[j].id
  }

  lemma {:induction false} SwitchesOnceJoin(first: seq<Write>, later: seq<Write>)
    requires |first| <= 1 && SwitchesOnce(later)
    requires first != [] && first[0].Switched? ==> WithoutSwitch(later, first[0].id)
    ensures SwitchesOnce(first + later)
  {
  }

  lemma {:induction false} SwitchedOnce(s: State, ops: seq<Op>, c: Id)
    requires Good(s) && AllGentle(s, ops) && NoReuse(s, ops)
    ensures SwitchesOnce(Writes(s, ops, c))
    decreases |ops|
  {
    if ops != [] {
      var op, t, rest := ops[0], Step(s, ops[0]), ops[1..];
      StepKeepsGood(s, op);
      SwitchedOnce(t, rest, c);
      WriteIsOwn(s, op, c);
      if op.Apply? && InStage(s, op.id, Approved) {
        AppliedIsPast(s, op.id);
        ReusesTail(ops, op.id);
        GentleIsQuiet(t, rest);
        NotSwitchedAgain(t, rest, c, op.id);
      }
      SwitchesOnceJoin(WriteOf(s, op, c), Writes(t, rest, c));
    }
  }

  /** Every switch of the list recorded the tone that the writes before it had left. */
  ghost predicate RecordsCurrent(w: seq<Write>, before: string) {
    forall i :: 0 <= i < |w| && w[i].Switched? ==> w[i].was == Final(w[..i], before)
  }

  lemma {:induction false} RecordsJoin(first: seq<Write>, later: seq<Write>, before: string)
    requires |first| <= 1 && (first != [] && first[0].Switched? ==> first[0].was == before)
    requires RecordsCurrent(later, Final(first, before))
    ensures RecordsCurrent(first + later, before)
  {
    var w := first + later;
    forall i | 0 <= i < |w| && w[i].Switched? ensures w[i].was == Final(w[..i], before) {
      if i >= |first| {
        var k := i - |first|;
        assert w[i] == later[k] && w[..i] == first + later[..k];
      }
    }
  }

  lemma {:induction false} SwitchesRecordCurrent(s: State, ops: seq<Op>, c: Id)
    requires AllQuiet(s, ops) && c in s.tones
    ensures RecordsCurrent(Writes(s, ops, c), s.tones[c])
    decreases |ops|
  {
    if ops != [] {
      var t, rest := Step(s, ops[0]), ops[1..];
      ToneAfterStep(s, ops[0], c);
      SwitchesRecordCurrent(t, rest, c);
      WriteIsOwn(s, ops[0], c);
      RecordsJoin(WriteOf(s, ops[0], c), Writes(t, rest, c), s.tones[c]);
    }
  }

  /**
   * Once every switch of a clone is undone, its tone is back exactly when it was never written, or when the clone had
   * its old tone at the moment the switch rolled back last was carried out.
   */
  lemma ToneComesBackExactly(s: State, ops: seq<Op>, c: Id, i: nat)
    requires Good(s) && AllGentle(s, ops) && NoReuse(s, ops) && c in s.tones
    requires !Outstanding(s.suggestions, c) && !Outstanding(Run(s, ops).suggestions, c)
    requires var w := Writes(s, ops, c); w != [] ==> i < |w| && w[i].Switched? && w[i].id == w[|w| - 1].id
    ensures c in Run(s, ops).tones
    ensures var w := Writes(s, ops, c);
      Run(s, ops).tones[c] == s.tones[c] <==> w == [] || Final(w[..i], s.tones[c]) == s.tones[c]
  {
    var w := Writes(s, ops, c);
    FinalToneIsLastRestored(s, ops, c);
    if w != [] {
      var n := |w| - 1;
      var k :| 0 <= k < n && w[k].Switched? && w[k].id == w[n].id && w[k].was == w[n].tone;
      SwitchedOnce(s, ops, c);
      GentleIsQuiet(s, ops);
      SwitchesRecordCurrent(s, ops, c);
      assert k == i;
    }
  }

  /** In particular whenever the switch applied first is rolled back last, in whatever order the others are undone. */
  lemma FirstAppliedLastUndone(s: State, ops: seq<Op>, c: Id)
    requires Good(s) && AllGentle(s, ops) && NoReuse(s, ops) && c in s.tones
    requires !Outstanding(s.suggestions, c) && !Outstanding(Run(s, ops).suggestions, c)
    requires var w := Writes(s, ops, c); w != [] ==> w[0].id == w[|w| - 1].id
    ensures c in Run(s, ops).tones && Run(s, ops).tones[c] == s.tones[c]
  {
    var w := Writes(s, ops, c);
    FinalToneIsLastRestored(s, ops, c);
    if w != [] {
      GentleIsQuiet(s, ops);
      if w[0].Restored? {
        RestoredWasRecorded(s, ops, c, 0);
        NothingRecorded(s.suggestions, c, w[0]);
      }
      ToneComesBackExactly(s, ops, c, 0);
    }
  }

  // ---- a tone that does not come back ----

  function SwitchTo(id: Id, tone: string, stage: Stage, prev: Option<string>): Suggestion {
    Suggestion(id, SwitchTone("c", tone), stage, None, prev)
  }

  function Toned(ss: seq<Suggestion>, tone: string): State {
    State(ss, [], map[], map["c" := tone])
  }

  /** Two switches of one clone, undone in the order in which they were applied. */
  const CROSSED: seq<Op> := [
    Propose("a", SwitchTone("c", "bold")), Propose("b", SwitchTone("c", "dry")), Approve("a"), Approve("b"),
    Apply("a"), Apply("b"), Rollback("a"), Rollback("b")]

  const WAY: seq<State> := [
    Toned([], "calm"),
    Toned([SwitchTo("a", "bold", Pending, None)], "calm"),
    Toned([SwitchTo("a", "bold", Pending, None), SwitchTo("b", "dry", Pending, None)], "calm"),
    Toned([SwitchTo("a", "bold", Approved, None), SwitchTo("b", "dry", Pending, None)], "calm"),
    Toned([SwitchTo("a", "bold", Approved, None), SwitchTo("b", "dry", Approved, None)], "calm"),
    Toned([SwitchTo("a", "bold", Monitored, Some("calm")), SwitchTo("b", "dry", Approved, None)], "bold"),
    Toned([SwitchTo("a", "bold", Monitored, Some("calm")), SwitchTo("b", "dry", Monitored, Some("bold"))], "dry"),
    Toned([SwitchTo("a", "bold", RolledBack, Some("calm")), SwitchTo("b", "dry", Monitored, Some("bold"))], "calm"),
    Toned([SwitchTo("a", "bold", RolledBack, Some("calm")), SwitchTo("b", "dry", RolledBack, Some("bold"))], "bold")]

  lemma PositionOfTwo(x: Suggestion, y: Suggestion)
    requires x.id != y.id
    ensures Position([x, y], x.id) == Some(0) && Position([x, y], y.id) == Some(1)
    ensures Position([x], x.id) == Some(0) && Position([x], y.id) == None
  {
    PositionIs([x, y], x.id, 0);
    PositionIs([x, y], y.id, 1);
  }

  lemma CrossedIsProposed()
    ensures forall i :: 0 <= i < 2 ==> Step(WAY[i], CROSSED[i]) == WAY[i + 1]
  {
    PositionOfTwo(SwitchTo("a", "bold", Pending, None), SwitchTo("b", "dry", Pending, None));
  }

  lemma CrossedIsApproved()
    ensures forall i :: 2 <= i < 4 ==> Step(WAY[i], CROSSED[i]) == WAY[i + 1]
  {
    PositionOfTwo(WAY[2].suggestions[0], WAY[2].suggestions[1]);
    PositionOfTwo(WAY[3].suggestions[0], WAY[3].suggestions[1]);
  }

  lemma CrossedIsApplied()
    ensures forall i :: 4 <= i < 6 ==> Step(WAY[i], CROSSED[i]) == WAY[i + 1]
  {
    PositionOfTwo(WAY[4].suggestions[0], WAY[4].suggestions[1]);
    PositionOfTwo(WAY[5].suggestions[0], WAY[5].suggestions[1]);
  }

  lemma CrossedIsUndone()
    ensures forall i :: 6 <= i < 8 ==> Step(WAY[i], CROSSED[i]) == WAY[i + 1]
  {
    PositionOfTwo(WAY[6].suggestions[0], WAY[6].suggestions[1]);
    PositionOfTwo(WAY[7].suggestions[0], WAY[7].suggestions[1]);
  }

  lemma CrossedLeads()
    ensures Leads(WAY, CROSSED)
  {
    CrossedIsProposed();
    CrossedIsApproved();
    CrossedIsApplied();
    CrossedIsUndone();
  }

  /** From a fresh start, crossed undoing leaves the clone with another tone than it had. */
  lemma ToneIsLostSomewhere()
    ensures Run(WAY[0], CROSSED[..4]).tones == map["c" := "calm"]
    ensures var s := Run(WAY[0], CROSSED[..4]); Good(s) && InStage(s, "a", Approved) && InStage(s, "b", Approved)
    ensures Run(WAY[0], CROSSED[..8]).tones == map["c" := "bold"]
  {
    CrossedLeads();
    RunThrough(WAY, CROSSED, 4);
    RunThrough(WAY, CROSSED, 8);
    PositionOfTwo(WAY[4].suggestions[0], WAY[4].suggestions[1]);
  }
}
