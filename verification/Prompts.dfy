/** Prompt versions of one clone: numbered snapshots that remember the rating totals at the time they were saved. */
module Prompts {
  import opened Wrappers

  datatype Prompt = Prompt(mindset: string, skills: string, tone: string, target: string)

  datatype Version = Version(v: nat, snapshot: Prompt, ratingSumAt: int, ratingCountAt: nat)

  datatype State = State(prompt: Prompt, ratingSum: int, ratingCount: nat, versions: seq<Version>)

  datatype Op = Save | Rate(rating: int) | Edit(prompt: Prompt) | Restore(v: nat)

  /** The first saved version with this number. */
  function Lookup(versions: seq<Version>, v: nat): (r: Option<Version>)
    ensures r.Some? ==> r.value in versions && r.value.v == v
    ensures r.None? ==> forall x :: x in versions ==> x.v != v
  {
    if versions == [] then None
    else if versions[0].v == v then Some(versions[0])
    else Lookup(versions[1..], v)
  }

  function Step(s: State, op: Op): State {
    match op
    case Save => s.(versions := s.versions + [Version(|s.versions| + 1, s.prompt, s.ratingSum, s.ratingCount)])
    case Rate(rating) => s.(ratingSum := s.ratingSum + rating, ratingCount := s.ratingCount + 1)
    case Edit(prompt) => s.(prompt := prompt)
    case Restore(v) =>
      var found := Lookup(s.versions, v);
      if found.Some? then s.(prompt := found.value.snapshot) else s
  }

  function Run(s: State, ops: seq<Op>): State
    decreases |ops|
  {
    if ops == [] then s else Run(Step(s, ops[0]), ops[1..])
  }

  /** versionPerf before rounding: nothing when no rating came in since the save. */
  function Performance(s: State, v: Version): Option<real> {
    var dc := s.ratingCount - v.ratingCountAt;
    if dc <= 0 then None else Some((s.ratingSum - v.ratingSumAt) as real / dc as real)
  }

  function Ratings(ops: seq<Op>): seq<int> {
    if ops == [] then []
    else (if ops[0].Rate? then [ops[0].rating] else []) + Ratings(ops[1..])
  }

  function Sum(xs: seq<int>): int {
    if xs == [] then 0 else xs[0] + Sum(xs[1..])
  }

  function Mean(xs: seq<int>): Option<real> {
    if xs == [] then None else Some(Sum(xs) as real / |xs| as real)
  }

  /** Version numbers are 1, 2, ..., n. */
  ghost predicate Numbered(s: State) {
    forall i :: 0 <= i < |s.versions| ==> s.versions[i].v == i + 1
  }

  /** A clone and its version list. */
  class Clone {
    var prompt: Prompt
    var ratingSum: int
    var ratingCount: nat
    var versions: seq<Version>

    function Model(): State
      reads this
    {
      State(prompt, ratingSum, ratingCount, versions)
    }

    constructor (prompt: Prompt)
      ensures Model() == State(prompt, 0, 0, [])
    {
      this.prompt, ratingSum, ratingCount, versions := prompt, 0, 0, [];
    }

    method SavePromptVersion() returns (v: Version)
      modifies this
      ensures Model() == Step(old(Model()), Save) && v == versions[|versions| - 1]
    {
      v := Version(|versions| + 1, prompt, ratingSum, ratingCount);
      versions := versions + [v];
    }

    method RecordRating(rating: int)
      modifies this
      ensures Model() == Step(old(Model()), Rate(rating))
    {
      ratingSum := ratingSum + rating;
      ratingCount := ratingCount + 1;
    }

    method RollbackPrompt(v: nat) returns (done: bool)
      modifies this
      ensures Model() == Step(old(Model()), Restore(v))
      ensures done == Lookup(versions, v).Some?
    {
      for i := 0 to |versions|
        invariant Model() == old(Model())
        invariant Lookup(versions, v) == Lookup(versions[i..], v)
      {
        if versions[i].v == v {
          prompt := versions[i].snapshot;
          return true;
        }
      }
      return false;
    }
  }

  /** Runs count every rating once, and only append versions, numbered in order. */
  lemma {:induction false} RunAccounts(s: State, ops: seq<Op>)
    requires Numbered(s)
    ensures var t := Run(s, ops);
      && t.ratingSum == s.ratingSum + Sum(Ratings(ops))
      && t.ratingCount == s.ratingCount + |Ratings(ops)|
      && s.versions <= t.versions && Numbered(t)
    decreases |ops|
  {
    if ops != [] {
      RunAccounts(Step(s, ops[0]), ops[1..]);
      assert Ratings(ops)[|Ratings(ops)| - |Ratings(ops[1..])|..] == Ratings(ops[1..]);
    }
  }

  /**
   * The performance of a saved version is the mean of exactly the ratings recorded after its save, whatever else
   * happened.
   */
  lemma PerformanceIsMeanSinceSave(s: State, ops: seq<Op>)
    requires Numbered(s)
    ensures var t := Run(Step(s, Save), ops);
      |s.versions| < |t.versions| && Performance(t, t.versions[|s.versions|]) == Mean(Ratings(ops))
  {
    RunAccounts(Step(s, Save), ops);
  }

  lemma {:induction false} LookupByNumber(s: State, k: nat)
    requires Numbered(s) && k < |s.versions|
    ensures Lookup(s.versions, k + 1) == Some(s.versions[k])
  {
    var found := Lookup(s.versions, k + 1);
    assert s.versions[k] in s.versions;
    var j :| 0 <= j < |s.versions| && s.versions[j] == found.value;
  }

  /**
   * Save, any further run, roll back to that version: the four prompt fields are as saved, ratings and versions
   * untouched.
   */
  lemma RollbackRestoresPrompt(s: State, ops: seq<Op>)
    requires Numbered(s)
    ensures var later := Run(Step(s, Save), ops);
      Step(later, Restore(|s.versions| + 1)) == later.(prompt := s.prompt)
  {
    RunAccounts(Step(s, Save), ops);
    LookupByNumber(Run(Step(s, Save), ops), |s.versions|);
  }
}
