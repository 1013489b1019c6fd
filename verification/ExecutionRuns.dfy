/** What holds under any interleaving of concurrent execute runs. */
module ExecutionRuns {
  import opened Wrappers
  import opened Rings
  import opened Execution

  function RunAll(s: State, ops: seq<Op>): State
    decreases |ops|
  {
    if ops == [] then s else RunAll(Step(s, ops[0]), ops[1..])
  }

  /** How the record and the adapter calls of a run hang together, phase by phase. */
  predicate GoodRun(r: Run) {
    && (r.attempts == 1 || r.attempts == 1 + RETRY_LIMIT)
    && r.manualReview == r.status.Failed?
    && match r.phase
       case Calling(k) => r.status.Running? && 1 <= k <= r.attempts && r.calls == k && r.retries == k - 1
       case Pausing(k) => r.status.Running? && 1 <= k < r.attempts && r.calls == k && r.retries == k
       case Over =>
         match r.status
         case Running => false
         case Success => r.calls == r.retries + 1 && r.calls <= r.attempts
         case Failed => (r.calls == r.attempts && r.retries == r.attempts - 1) || (r.calls == 0 && r.retries == 0)
         case Denied => r.calls == 0 && r.retries == 0
  }

  ghost predicate Inv(s: State) {
    && AllGood(s.runs)
    && (forall i :: 0 <= i < |s.history| ==> s.history[i] < |s.runs|)
    && |s.history| <= HISTORY_CAP
    && (s.inFlight.Some? ==> s.inFlight.value < |s.runs| && s.runs[s.inFlight.value].status.Running?)
  }

  lemma AdvanceKeepsGood(r: Run, sig: Signal)
    requires GoodRun(r)
    ensures GoodRun(Advance(r, sig))
  {
  }

  lemma TimerKeepsStatus(r: Run)
    ensures Advance(r, Timer).status == r.status
  {
  }

  ghost predicate AllGood(runs: seq<Run>) {
    forall i :: 0 <= i < |runs| ==> GoodRun(runs[i])
  }

  lemma ReplaceKeepsGood(runs: seq<Run>, r: nat, x: Run)
    requires AllGood(runs) && r < |runs| && GoodRun(x)
    ensures AllGood(runs[r := x])
  {
  }

  lemma SignalKeepsInv(s: State, r: nat, sig: Signal)
    requires Inv(s)
    ensures Inv(SignalRun(s, r, sig))
  {
    if r < |s.runs| && Advance(s.runs[r], sig) != s.runs[r] {
      var x := Advance(s.runs[r], sig);
      var t := SignalRun(s, r, sig);
      AdvanceKeepsGood(s.runs[r], sig);
      TimerKeepsStatus(s.runs[r]);
      ReplaceKeepsGood(s.runs, r, x);
      assert t.runs == s.runs[r := x] && t.history == s.history;
    }
  }

  lemma StepKeepsInv(s: State, op: Op)
    requires Inv(s)
    ensures Inv(Step(s, op))
  {
    match op
    case AdapterOk(r) => SignalKeepsInv(s, r, Ok);
    case AdapterFails(r) => SignalKeepsInv(s, r, Fail);
    case Wake(r) => SignalKeepsInv(s, r, Timer);
    case _ =>
  }

  /** In every reachable state each run is in order, and what is in flight is a running run. */
  lemma {:induction false} RunsKeepInv(s: State, ops: seq<Op>)
    requires Inv(s)
    ensures Inv(RunAll(s, ops))
    decreases |ops|
  {
    if ops != [] {
      StepKeepsInv(s, ops[0]);
      RunsKeepInv(Step(s, ops[0]), ops[1..]);
    }
  }

  /**
   * Every record of every reachable state: at most three adapter calls, none when denied, and retries counts exactly
   * the failed calls that were followed by another try.
   */
  lemma AdapterCallsAreBounded(ops: seq<Op>, i: nat)
    requires i < |RunAll(Empty, ops).runs|
    ensures var r := RunAll(Empty, ops).runs[i];
      && r.calls <= r.attempts <= 3
      && (r.status.Denied? ==> r.calls == 0)
      && (r.status.Success? ==> r.retries == r.calls - 1)
      && (r.status.Failed? ==> r.calls == 0 || (r.calls == r.attempts && r.retries == r.calls - 1))
      && r.manualReview == r.status.Failed?
  {
    RunsKeepInv(Empty, ops);
    assert GoodRun(RunAll(Empty, ops).runs[i]);
  }

  // ---- a record's life ----

  /** A finished run never changes again, and no run ever leaves the state. */
  lemma {:induction false} FinishedRunsStay(s: State, ops: seq<Op>, i: nat)
    requires i < |s.runs|
    ensures i < |RunAll(s, ops).runs|
    ensures s.runs[i].phase.Over? ==> RunAll(s, ops).runs[i] == s.runs[i]
    decreases |ops|
  {
    if ops != [] {
      FinishedRunsStay(Step(s, ops[0]), ops[1..], i);
    }
  }

  /** A run is Running exactly until it is over, and every signal it takes brings its end closer. */
  function Left(r: Run): nat {
    match r.phase
    case Calling(k) => if k <= r.attempts then 2 * (r.attempts - k) + 1 else 1
    case Pausing(k) => if k < r.attempts then 2 * (r.attempts - k) else 2
    case Over => 0
  }

  lemma SignalsBringTheEndCloser(r: Run, sig: Signal)
    requires GoodRun(r)
    ensures r.status.Running? <==> !r.phase.Over?
    ensures Advance(r, sig) != r ==> Left(Advance(r, sig)) < Left(r)
    ensures !r.phase.Over? ==> exists sig' :: Advance(r, sig') != r
  {
    match r.phase
    case Calling(k) => assert Advance(r, Ok) != r;
    case Pausing(k) => assert Advance(r, Timer) != r;
    case Over =>
  }

  // ---- permissions ----

  /**
   * A run of a known action is denied exactly when its permission is missing at its start; then the adapter is never
   * called.
   */
  lemma DeniedExactlyWithoutPermission(s: State, req: Request, ownerMay: bool, ops: seq<Op>)
    ensures var t := RunAll(Step(s, Start(req, ownerMay)), ops);
      |s.runs| < |t.runs| &&
      (t.runs[|s.runs|].status.Denied? <==> req.category.Some? && !CanExec(s, req, ownerMay))
  {
    var t := Step(s, Start(req, ownerMay));
    FinishedRunsStay(t, ops, |s.runs|);
    RunSeesOwnSignals(t, ops, |s.runs|);
    NeverDeniedLater(t.runs[|s.runs|], SignalsFor(ops, |s.runs|));
  }

  lemma {:induction false} NeverDeniedLater(r: Run, sigs: seq<Signal>)
    requires r.phase.Over? || r.status.Running?
    ensures Alone(r, sigs).status.Denied? ==> r.status.Denied?
    decreases |sigs|
  {
    if sigs != [] {
      NeverDeniedLater(Advance(r, sigs[0]), sigs[1..]);
    }
  }

  lemma {:induction false} AttemptsStay(r: Run, sigs: seq<Signal>)
    ensures Alone(r, sigs).attempts == r.attempts
    ensures r.phase.Over? ==> Alone(r, sigs) == r
    decreases |sigs|
  {
    if sigs != [] {
      AttemptsStay(Advance(r, sigs[0]), sigs[1..]);
    }
  }

  /**
   * What one request may cost, whatever runs beside it: three adapter calls when it is retryable, one when it is not,
   * and none when its action is unknown or its permission is missing; an unknown action is then up for review.
   */
  lemma CallsStayWithinRequest(s: State, req: Request, ownerMay: bool, ops: seq<Op>)
    requires Inv(s)
    ensures var (n, t) := (|s.runs|, RunAll(Step(s, Start(req, ownerMay)), ops));
      && n < |t.runs|
      && t.runs[n].calls <= (if req.retryable then 3 else 1)
      && (t.runs[n].calls == 0 <==> req.category.None? || !CanExec(s, req, ownerMay))
      && (req.category.None? ==> t.runs[n].status.Failed? && t.runs[n].manualReview)
  {
    var t := Step(s, Start(req, ownerMay));
    StepKeepsInv(s, Start(req, ownerMay));
    RunsKeepInv(t, ops);
    RunSeesOwnSignals(t, ops, |s.runs|);
    AttemptsStay(t.runs[|s.runs|], SignalsFor(ops, |s.runs|));
    CallsOnlyGrow(t.runs[|s.runs|], SignalsFor(ops, |s.runs|));
    assert GoodRun(RunAll(t, ops).runs[|s.runs|]);
  }

  lemma {:induction false} CallsOnlyGrow(r: Run, sigs: seq<Signal>)
    ensures r.calls <= Alone(r, sigs).calls
    decreases |sigs|
  {
    if sigs != [] {
      CallsOnlyGrow(Advance(r, sigs[0]), sigs[1..]);
    }
  }

  // ---- how a run ends ----

  /** The answers a run takes in, true for success: those that come while it waits for one. */
  function Answers(r: Run, sigs: seq<Signal>): seq<bool>
    decreases |sigs|
  {
    if sigs == [] then [] else Answer(r, sigs[0]) + Answers(Advance(r, sigs[0]), sigs[1..])
  }

  function Answer(r: Run, sig: Signal): seq<bool> {
    if r.phase.Calling? && !sig.Timer? then [sig.Ok?] else []
  }

  /** A run that has taken in these answers, of at most `most`, and what it has come to. */
  ghost predicate Outcome(r: Run, answers: seq<bool>, most: nat) {
    && |answers| <= most
    && (r.status.Success? <==> true in answers)
    && (r.status.Failed? <==> true !in answers && |answers| == most)
    && (r.status.Running? <==> true !in answers && |answers| < most)
    && (r.status.Failed? ==> r.calls == most && r.retries == most - 1)
    && (r.status.Success? ==> r.calls == |answers| && r.retries == |answers| - 1)
    && (r.phase.Calling? ==> r.calls == |answers| + 1)
    && (r.phase.Pausing? ==> r.calls == |answers| == r.retries)
  }

  lemma {:induction false} AnswersDecideFrom(r: Run, sigs: seq<Signal>, before: seq<bool>)
    requires GoodRun(r) && Outcome(r, before, r.attempts)
    ensures Outcome(Alone(r, sigs), before + Answers(r, sigs), r.attempts)
    decreases |sigs|
  {
    if sigs == [] {
      assert before + Answers(r, sigs) == before;
    } else {
      AdvanceKeepsGood(r, sigs[0]);
      OneAnswer(r, sigs[0], before);
      AnswersDecideFrom(Advance(r, sigs[0]), sigs[1..], before + Answer(r, sigs[0]));
      AnswersJoin(r, sigs, before);
    }
  }

  lemma AnswersJoin(r: Run, sigs: seq<Signal>, before: seq<bool>)
    requires sigs != []
    ensures before + Answers(r, sigs) == (before + Answer(r, sigs[0])) + Answers(Advance(r, sigs[0]), sigs[1..])
  {
  }

  lemma OneAnswer(r: Run, sig: Signal, before: seq<bool>)
    requires GoodRun(r) && Outcome(r, before, r.attempts)
    ensures Outcome(Advance(r, sig), before + Answer(r, sig), r.attempts)
  {
  }

  /**
   * A run of a known, permitted action, whatever runs beside it: it succeeds exactly when one of its first three
   * answers is a success, or its only one when it is not retryable; it fails exactly when all three, or the only one,
   * are failures, after as many calls; and until then it is running.
   */
  lemma AnswersDecideExactly(s: State, req: Request, ownerMay: bool, ops: seq<Op>)
    requires Inv(s) && req.category.Some? && CanExec(s, req, ownerMay)
    ensures var (n, t) := (|s.runs|, RunAll(Step(s, Start(req, ownerMay)), ops));
      && n < |t.runs|
      && Outcome(t.runs[n], Answers(Step(s, Start(req, ownerMay)).runs[n], SignalsFor(ops, n)),
                 if req.retryable then 3 else 1)
  {
    var t, n := Step(s, Start(req, ownerMay)), |s.runs|;
    StepKeepsInv(s, Start(req, ownerMay));
    RunSeesOwnSignals(t, ops, n);
    AnswersDecideFrom(t.runs[n], SignalsFor(ops, n), []);
    assert [] + Answers(t.runs[n], SignalsFor(ops, n)) == Answers(t.runs[n], SignalsFor(ops, n));
  }

  // ---- who may ----

  /** The latest setting of this permission, or what held before. */
  function LastSetting(ops: seq<Op>, worker: Id, category: string, before: bool): bool
    decreases |ops|
  {
    if ops == [] then before
    else
      var op := ops[0];
      LastSetting(ops[1..], worker, category,
                  if op.SetPerm? && op.worker == worker && op.category == category then op.allow else before)
  }

  /** A worker may run actions of a category exactly when the latest setting allows it; by default it may not. */
  lemma {:induction false} LatestSettingDecides(
      s: State, ops: seq<Op>, worker: Id, category: string, retryable: bool, ownerMay: bool)
    ensures CanExec(RunAll(s, ops), Request(Some(category), Some(worker), retryable), ownerMay)
         == LastSetting(ops, worker, category, (worker, category) in s.grants)
    decreases |ops|
  {
    if ops != [] {
      LatestSettingDecides(Step(s, ops[0]), ops[1..], worker, category, retryable, ownerMay);
    }
  }

  /**
   * After any operations, a run of a known action is denied exactly when the owner is not allowed to start it, or the
   * latest setting does not allow it to the worker.
   */
  lemma GateDecidesExactly(ops: seq<Op>, req: Request, ownerMay: bool)
    requires req.category.Some?
    ensures var s := RunAll(Empty, ops);
      Step(s, Start(req, ownerMay)).runs[|s.runs|].status.Denied?
      <==> if req.worker.None? then !ownerMay
           else !LastSetting(ops, req.worker.value, req.category.value, false)
  {
    if req.worker.Some? {
      LatestSettingDecides(Empty, ops, req.worker.value, req.category.value, req.retryable, ownerMay);
    }
  }

  // ---- runs do not disturb each other ----

  function SignalOf(op: Op): (nat, Signal)
    requires op.AdapterOk? || op.AdapterFails? || op.Wake?
  {
    match op
    case AdapterOk(r) => (r, Ok)
    case AdapterFails(r) => (r, Fail)
    case Wake(r) => (r, Timer)
  }

  /** The signals one run receives in an interleaved sequence. */
  function SignalsFor(ops: seq<Op>, i: nat): seq<Signal>
    decreases |ops|
  {
    if ops == [] then []
    else
      var op := ops[0];
      (if (op.AdapterOk? || op.AdapterFails? || op.Wake?) && SignalOf(op).0 == i then [SignalOf(op).1] else [])
      + SignalsFor(ops[1..], i)
  }

  /** However runs interleave, each ends up exactly as if only its own signals had occurred. */
  lemma {:induction false} RunSeesOwnSignals(s: State, ops: seq<Op>, i: nat)
    requires i < |s.runs|
    ensures i < |RunAll(s, ops).runs| && RunAll(s, ops).runs[i] == Alone(s.runs[i], SignalsFor(ops, i))
    decreases |ops|
  {
    if ops != [] {
      var t := Step(s, ops[0]);
      RunSeesOwnSignals(t, ops[1..], i);
      var mine := SignalsFor(ops, i);
      if mine != SignalsFor(ops[1..], i) || t.runs[i] != s.runs[i] {
        assert mine[1..] == SignalsFor(ops[1..], i);
      }
    }
  }

  // ---- statistics ----

  lemma {:induction false} StatusesPartition(runs: seq<Run>, history: seq<nat>)
    requires forall i :: 0 <= i < |history| ==> history[i] < |runs|
    ensures |history| == CountStatus(runs, history, Success) + CountStatus(runs, history, Failed)
                       + CountStatus(runs, history, Denied) + CountStatus(runs, history, Running)
  {
    if history != [] {
      StatusesPartition(runs, history[..|history| - 1]);
    }
  }

  lemma {:induction false} ReviewsAreFailures(runs: seq<Run>, history: seq<nat>)
    requires forall i :: 0 <= i < |runs| ==> GoodRun(runs[i])
    ensures CountReview(runs, history) == CountStatus(runs, history, Failed)
  {
    if history != [] {
      ReviewsAreFailures(runs, history[..|history| - 1]);
    }
  }

  /** In every reachable state total = success + failed + denied + running over the history, and review = failed. */
  lemma StatsAddUp(ops: seq<Op>)
    ensures var s := RunAll(Empty, ops);
      && |s.history| == CountStatus(s.runs, s.history, Success) + CountStatus(s.runs, s.history, Failed)
                      + CountStatus(s.runs, s.history, Denied) + CountStatus(s.runs, s.history, Running)
      && CountReview(s.runs, s.history) == CountStatus(s.runs, s.history, Failed)
  {
    var s := RunAll(Empty, ops);
    RunsKeepInv(Empty, ops);
    StatusesPartition(s.runs, s.history);
    ReviewsAreFailures(s.runs, s.history);
  }

  function Numbers(n: nat): seq<nat> {
    seq(n, i => i)
  }

  /** The history lists the last 100 runs started, oldest first. */
  lemma {:induction false} HistoryIsLatestRuns(s: State, ops: seq<Op>)
    requires s.history == Last(100, Numbers(|s.runs|))
    ensures RunAll(s, ops).history == Last(100, Numbers(|RunAll(s, ops).runs|))
    decreases |ops|
  {
    if ops != [] {
      var t := Step(s, ops[0]);
      assert Numbers(|s.runs| + 1) == Numbers(|s.runs|) + [|s.runs|];
      HistoryIsLatestRuns(t, ops[1..]);
    }
  }

  // ---- what is in flight ----

  /** The run whose record an operation ticks, if any. */
  function Ticked(s: State, op: Op): Option<nat> {
    match op
    case Start(_, _) => Some(|s.runs|)
    case AdapterOk(r) => if r < |s.runs| && s.runs[r].phase.Calling? then Some(r) else None
    case AdapterFails(r) => if r < |s.runs| && s.runs[r].phase.Calling? then Some(r) else None
    case _ => None
  }

  function LastTicked(s: State, ops: seq<Op>, before: Option<nat>): Option<nat>
    decreases |ops|
  {
    if ops == [] then before
    else LastTicked(Step(s, ops[0]), ops[1..], if Ticked(s, ops[0]).Some? then Ticked(s, ops[0]) else before)
  }

  ghost predicate ShowsLast(s: State, last: Option<nat>) {
    && (last.Some? ==> last.value < |s.runs|)
    && s.inFlight == if last.Some? && s.runs[last.value].status.Running? then last else None
  }

  /** At every yield point, in flight is the run ticked last if it is still running, and nothing otherwise. */
  lemma {:induction false} InFlightIsLastTicked(s: State, ops: seq<Op>, last: Option<nat>)
    requires Inv(s) && ShowsLast(s, last)
    ensures ShowsLast(RunAll(s, ops), LastTicked(s, ops, last))
    decreases |ops|
  {
    if ops != [] {
      var t := Step(s, ops[0]);
      StepKeepsInv(s, ops[0]);
      InFlightIsLastTicked(t, ops[1..], if Ticked(s, ops[0]).Some? then Ticked(s, ops[0]) else last);
    }
  }

  /** So nothing may be in flight while a run is running: start two, and let the second one finish first. */
  lemma NothingInFlightWhileRunning(s: State, category: string, retryable: bool)
    requires Inv(s)
    ensures var (n, req) := (|s.runs|, Request(Some(category), None, retryable));
      var t := Step(Step(Step(s, Start(req, true)), Start(req, true)), AdapterOk(n + 1));
      t.inFlight.None? && t.runs[n].status.Running?
  {
  }
}
