/** The execution engine: runs interleave at each await, and every run keeps one history record. */
module Execution {
  import opened Wrappers
  import opened Rings

  type Id = string

  const HISTORY_CAP := 100
  const RETRY_LIMIT := 2

  datatype Status = Running | Success | Failed | Denied

  /** Where a run is suspended: in the adapter's k-th call, in the pause after it, or nowhere any more. */
  datatype Phase = Calling(attempt: nat) | Pausing(attempt: nat) | Over

  /** A run with its history record; `calls` counts the adapter calls made. */
  datatype Run = Run(phase: Phase, attempts: nat, calls: nat, status: Status, retries: nat, manualReview: bool)

  /** `category` is that of the action, None for an unknown action; `worker` None is the owner. */
  datatype Request = Request(category: Option<string>, worker: Option<Id>, retryable: bool)

  /** Runs are numbered in the order they start; the history lists run numbers. */
  datatype State = State(runs: seq<Run>, history: seq<nat>, inFlight: Option<nat>, grants: set<(Id, string)>)

  const Empty := State([], [], None, {})

  datatype Op =
    | Start(req: Request, ownerMay: bool)
    | AdapterOk(run: nat)
    | AdapterFails(run: nat)
    | Wake(run: nat)
    | SetPerm(worker: Id, category: string, allow: bool)

  /** Least privilege: a worker needs a grant for the category, the owner the general permission. */
  predicate CanExec(s: State, req: Request, ownerMay: bool)
    requires req.category.Some?
  {
    if req.worker.None? then ownerMay else (req.worker.value, req.category.value) in s.grants
  }

  function Attempts(req: Request): nat {
    if req.retryable then 1 + RETRY_LIMIT else 1
  }

  /** A run up to its first await. */
  function Begin(s: State, req: Request, ownerMay: bool): Run {
    if req.category.None? then Run(Over, Attempts(req), 0, Failed, 0, true)
    else if !CanExec(s, req, ownerMay) then Run(Over, Attempts(req), 0, Denied, 0, false)
    else Run(Calling(1), Attempts(req), 1, Running, 0, false)
  }

  datatype Signal = Ok | Fail | Timer

  /** What one signal does to one run; a signal the run is not waiting for does nothing. */
  function Advance(r: Run, sig: Signal): Run {
    match (r.phase, sig)
    case (Calling(k), Ok) => r.(phase := Over, status := Success)
    case (Calling(k), Fail) =>
      if k < r.attempts then r.(phase := Pausing(k), retries := k)
      else r.(phase := Over, status := Failed, manualReview := true)
    case (Pausing(k), Timer) => r.(phase := Calling(k + 1), calls := r.calls + 1)
    case _ => r
  }

  /** tick: the record is in flight while it is running, and otherwise nothing is. */
  function Tick(runs: seq<Run>, r: nat): Option<nat>
    requires r < |runs|
  {
    if runs[r].status.Running? then Some(r) else None
  }

  function SignalRun(s: State, r: nat, sig: Signal): State {
    if r >= |s.runs| || Advance(s.runs[r], sig) == s.runs[r] then s
    else
      var runs := s.runs[r := Advance(s.runs[r], sig)];
      s.(runs := runs, inFlight := if sig.Timer? then s.inFlight else Tick(runs, r))
  }

  function Step(s: State, op: Op): State {
    match op
    case Start(req, ownerMay) =>
      var runs := s.runs + [Begin(s, req, ownerMay)];
      s.(runs := runs, history := Push(HISTORY_CAP, s.history, |s.runs|), inFlight := Tick(runs, |s.runs|))
    case AdapterOk(r) => SignalRun(s, r, Ok)
    case AdapterFails(r) => SignalRun(s, r, Fail)
    case Wake(r) => SignalRun(s, r, Timer)
    case SetPerm(w, c, allow) => s.(grants := if allow then s.grants + {(w, c)} else s.grants - {(w, c)})
  }

  function CountStatus(runs: seq<Run>, history: seq<nat>, st: Status): nat {
    if history == [] then 0
    else
      var r := history[|history| - 1];
      CountStatus(runs, history[..|history| - 1], st) + (if r < |runs| && runs[r].status == st then 1 else 0)
  }

  function CountReview(runs: seq<Run>, history: seq<nat>): nat {
    if history == [] then 0
    else
      var r := history[|history| - 1];
      CountReview(runs, history[..|history| - 1]) + (if r < |runs| && runs[r].manualReview then 1 else 0)
  }

  datatype Stats = Stats(total: nat, success: nat, failed: nat, denied: nat, review: nat)

  /** The engine; each method is one stretch of `execute` between two awaits. */
  class ExecutionEngine {
    var runs: seq<Run>
    var history: seq<nat>
    var inFlight: Option<nat>
    var grants: set<(Id, string)>

    function Model(): State
      reads this
    {
      State(runs, history, inFlight, grants)
    }

    constructor ()
      ensures Model() == Empty
    {
      runs, history, inFlight, grants := [], [], None, {};
    }

    method TickRun(r: nat)
      requires r < |runs|
      modifies this`inFlight
      ensures inFlight == Tick(runs, r)
    {
      inFlight := if runs[r].status == Running then Some(r) else None;
    }

    method StartRun(req: Request, ownerMay: bool) returns (r: nat)
      modifies this
      ensures Model() == Step(old(Model()), Start(req, ownerMay)) && r == |old(runs)|
    {
      r := |runs|;
      var n := Attempts(req);
      runs := runs + [Run(Calling(1), n, 0, Running, 0, false)];
      history := history + [r];
      if |history| > HISTORY_CAP {
        history := history[1..];
      }
      TickRun(r);
      if req.category.None? {
        runs := runs[r := runs[r].(phase := Over, status := Failed, manualReview := true)];
        TickRun(r);
        return;
      }
      var may := if req.worker.None? then ownerMay else (req.worker.value, req.category.value) in grants;
      if !may {
        runs := runs[r := runs[r].(phase := Over, status := Denied)];
        TickRun(r);
        return;
      }
      runs := runs[r := runs[r].(calls := 1)];
    }

    method OnAdapterOk(r: nat)
      modifies this
      ensures Model() == Step(old(Model()), AdapterOk(r))
    {
      if r >= |runs| || !runs[r].phase.Calling? { return; }
      runs := runs[r := runs[r].(phase := Over, status := Success)];
      TickRun(r);
    }

    method OnAdapterFails(r: nat)
      modifies this
      ensures Model() == Step(old(Model()), AdapterFails(r))
    {
      if r >= |runs| || !runs[r].phase.Calling? { return; }
      var k := runs[r].phase.attempt;
      if k < runs[r].attempts {
        runs := runs[r := runs[r].(phase := Pausing(k), retries := k)];
        TickRun(r);
      } else {
        runs := runs[r := runs[r].(phase := Over, status := Failed, manualReview := true)];
        TickRun(r);
      }
    }

    method OnTimer(r: nat)
      modifies this
      ensures Model() == Step(old(Model()), Wake(r))
    {
      if r >= |runs| || !runs[r].phase.Pausing? { return; }
      runs := runs[r := runs[r].(phase := Calling(runs[r].phase.attempt + 1), calls := runs[r].calls + 1)];
    }

    method SetPermission(worker: Id, category: string, allow: bool)
      modifies this
      ensures Model() == Step(old(Model()), SetPerm(worker, category, allow))
    {
      grants := if allow then grants + {(worker, category)} else grants - {(worker, category)};
    }

    method ComputeStats() returns (st: Stats)
      requires forall i :: 0 <= i < |history| ==> history[i] < |runs|
      ensures st == Stats(|history|, CountStatus(runs, history, Success), CountStatus(runs, history, Failed),
                          CountStatus(runs, history, Denied), CountReview(runs, history))
    {
      st := Stats(|history|, 0, 0, 0, 0);
      for i := 0 to |history|
        invariant st == Stats(
          |history|, CountStatus(runs, history[..i], Success), CountStatus(runs, history[..i], Failed),
          CountStatus(runs, history[..i], Denied), CountReview(runs, history[..i]))
      {
        assert history[..i + 1][..i] == history[..i];
        var x := runs[history[i]];
        match x.status {
          case Success => st := st.(success := st.success + 1);
          case Failed => st := st.(failed := st.failed + 1);
          case Denied => st := st.(denied := st.denied + 1);
          case Running =>
        }
        if x.manualReview {
          st := st.(review := st.review + 1);
        }
      }
      assert history[..|history|] == history;
    }
  }

  // ---- one run on its own: the retry loop of the source ----

  function Alone(r: Run, sigs: seq<Signal>): Run
    decreases |sigs|
  {
    if sigs == [] then r else Alone(Advance(r, sigs[0]), sigs[1..])
  }

  /** The signals a run receives when the adapter answers as given, call by call. */
  function Script(outcomes: seq<bool>): seq<Signal> {
    if outcomes == [] then []
    else if outcomes[0] then [Ok]
    else if |outcomes| == 1 then [Fail]
    else [Fail, Timer] + Script(outcomes[1..])
  }

  /** The for loop of `execute`, run without interruption. */
  method RetryLoop(attempts: nat, outcomes: seq<bool>) returns (r: Run)
    requires 1 <= attempts == |outcomes|
    ensures r == Alone(Run(Calling(1), attempts, 1, Running, 0, false), Script(outcomes))
    ensures r.status.Success? <==> true in outcomes
    ensures r.status.Failed? <==> true !in outcomes
    ensures r.status.Success? ==> r.retries < |outcomes| && outcomes[r.retries] && true !in outcomes[..r.retries]
  {
    ghost var first := Run(Calling(1), attempts, 1, Running, 0, false);
    r := Run(Calling(1), attempts, 1, Running, 0, false);
    for attempt := 1 to attempts + 1
      invariant attempt <= attempts
      invariant r == Run(Calling(attempt), attempts, attempt, Running, attempt - 1, false)
      invariant true !in outcomes[..attempt - 1]
      invariant Alone(r, Script(outcomes[attempt - 1..])) == Alone(first, Script(outcomes))
    {
      ghost var rest := outcomes[attempt - 1..];
      assert rest[0] == outcomes[attempt - 1] && outcomes == outcomes[..attempt - 1] + rest;
      if outcomes[attempt - 1] {
        r := r.(phase := Over, status := Success);
        return;
      }
      if attempt < attempts {
        assert Script(rest)[1..] == [Timer] + Script(rest[1..]) && rest[1..] == outcomes[attempt..];
        assert Script(rest)[1..][1..] == Script(rest[1..]);
        r := r.(retries := attempt);
        r := r.(phase := Calling(attempt + 1), calls := attempt + 1);
        assert outcomes[..attempt] == outcomes[..attempt - 1] + [outcomes[attempt - 1]];
      } else {
        assert outcomes == outcomes[..attempt - 1] + [outcomes[attempt - 1]];
        r := r.(phase := Over, status := Failed, manualReview := true);
        return;
      }
    }
  }
}
