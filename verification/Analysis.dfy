/** What the performance analysis proposes, and when: each kind of target by what it says about the fleet. */
module Analysis {
  import opened Wrappers
  import opened Sorting
  import opened Evolution
  import opened Proposals
  import K = Knowledge
  import KR = KnowledgeRuns

  // ---- unused documents ----

  /** Listed in the vault, not archived, never retrieved, older than three days, and not learned from a run. */
  predicate Unused(s: State, f: Fleet, k: int) {
    && 0 <= k < |f.docs|
    && f.docs[k].id in s.archived && !s.archived[f.docs[k].id]
    && f.docs[k].uses == 0 && f.docs[k].createdAt + 3.0 < f.now && f.docs[k].source != "learning-engine"
  }

  /** Two of the first n elements pass the test. */
  ghost predicate TwoBefore<T(!new)>(xs: seq<T>, p: T -> bool, n: nat)
    requires n <= |xs|
  {
    exists i, j :: 0 <= i < j < n && p(xs[i]) && p(xs[j])
  }

  ghost predicate AnyBefore<T(!new)>(xs: seq<T>, p: T -> bool, n: nat)
    requires n <= |xs|
  {
    exists i :: 0 <= i < n && p(xs[i])
  }

  lemma FilterGrows<T(!new)>(xs: seq<T>, p: T -> bool, n: nat)
    requires n < |xs|
    ensures Filter(xs[..n + 1], p) == Filter(xs[..n], p) + if p(xs[n]) then [xs[n]] else []
  {
    assert xs[..n + 1] == xs[..n] + [xs[n]];
    FilterOfLast(xs[..n], xs[n], p);
  }

  lemma {:induction false} FilterCounts<T(!new)>(xs: seq<T>, p: T -> bool, n: nat)
    requires n <= |xs|
    ensures |Filter(xs[..n], p)| >= 1 <==> AnyBefore(xs, p, n)
    ensures |Filter(xs[..n], p)| >= 2 <==> TwoBefore(xs, p, n)
  {
    if n > 0 {
      FilterCounts(xs, p, n - 1);
      FilterGrows(xs, p, n - 1);
    }
  }

  /** x is one of the first n elements, passes the test, and stands behind at most one that does. */
  ghost predicate AmongFirstTwo<T(!new)>(xs: seq<T>, p: T -> bool, x: T, n: nat)
    requires n <= |xs|
  {
    exists k :: 0 <= k < n && xs[k] == x && p(x) && !TwoBefore(xs, p, k)
  }

  lemma FirstTwoGrows<T>(a: seq<T>, b: seq<T>)
    requires |b| <= 1
    ensures FirstTwo(a + b) == FirstTwo(a) + if |a| >= 2 then [] else b
  {
  }

  lemma {:induction false} FirstTwoExactly<T(!new)>(xs: seq<T>, p: T -> bool, x: T, n: nat)
    requires n <= |xs|
    ensures x in FirstTwo(Filter(xs[..n], p)) <==> AmongFirstTwo(xs, p, x, n)
  {
    if n > 0 {
      FirstTwoExactly(xs, p, x, n - 1);
      FilterCounts(xs, p, n - 1);
      FilterGrows(xs, p, n - 1);
      FirstTwoGrows(Filter(xs[..n - 1], p), if p(xs[n - 1]) then [xs[n - 1]] else []);
    }
  }

  // ---- the kinds of targets tell themselves apart ----

  ghost predicate Archives(ts: seq<Target>) {
    forall t :: t in ts ==> t.ArchiveKnowledge?
  }

  ghost predicate Starts(ts: seq<Target>, c: char) {
    forall t :: t in ts ==> t.Manual? && t.key != "" && t.key[0] == c
  }

  ghost predicate Merges(ts: seq<Target>) {
    forall t :: t in ts ==> t.MergeWorkflows?
  }

  lemma {:induction false} PromptsStart(clones: seq<CloneInfo>)
    ensures Starts(PromptTargets(clones), 'p')
  {
    if clones != [] {
      PromptsStart(clones[..|clones| - 1]);
    }
  }

  lemma {:induction false} RolesStart(roles: seq<string>, clones: seq<CloneInfo>)
    ensures Starts(RoleTargets(roles, clones), 'r')
  {
    if roles != [] {
      RolesStart(roles[1..], clones);
    }
  }

  lemma ArchivesOnly(docs: seq<DocInfo>)
    ensures Archives(ArchiveTargets(docs))
    ensures forall d: Id :: ArchiveKnowledge(d) in ArchiveTargets(docs) <==> exists x :: x in docs && x.id == d
  {
    forall d: Id ensures ArchiveKnowledge(d) in ArchiveTargets(docs) <==> exists x :: x in docs && x.id == d {
      if x :| x in docs && x.id == d {
        var i :| 0 <= i < |docs| && docs[i] == x;
        assert ArchiveTargets(docs)[i] == ArchiveKnowledge(d);
      }
      if ArchiveKnowledge(d) in ArchiveTargets(docs) {
        var i :| 0 <= i < |docs| && ArchiveTargets(docs)[i] == ArchiveKnowledge(d);
        assert docs[i] in docs;
      }
    }
  }

  function Provider(f: Fleet): seq<Target> {
    if f.neural && f.hasKey then [] else [Manual("neural")]
  }

  /** A generated target comes from the generator of its kind. */
  lemma ByKind(s: State, f: Fleet, t: Target)
    ensures t in GeneratedTargets(s, f) <==>
      match t
      case ArchiveKnowledge(_) => t in ArchiveTargets(FirstTwo(Filter(f.docs, Stale(s, f.now))))
      case MergeWorkflows(_, _) => t in MergeTargets(s.workflows)
      case SwitchTone(_, _) => false
      case Manual(key) =>
        || (key != "" && key[0] == 'p' && t in PromptTargets(f.clones))
        || (key != "" && key[0] == 'r' && t in RoleTargets(f.roles, f.clones))
        || (key == "neural" && !(f.neural && f.hasKey))
  {
    ArchivesOnly(FirstTwo(Filter(f.docs, Stale(s, f.now))));
    PromptsStart(f.clones);
    RolesStart(f.roles, f.clones);
    assert Starts(Provider(f), 'n') && Merges(MergeTargets(s.workflows));
  }

  // ---- when each is proposed ----

  /**
   * Archiving a document is proposed exactly when an unused document with its id is listed behind at most one other
   * unused document.
   */
  lemma ArchiveProposedExactly(s: State, f: Fleet, d: Id)
    ensures ArchiveKnowledge(d) in GeneratedTargets(s, f) <==>
      exists k :: Unused(s, f, k) && f.docs[k].id == d &&
        !exists i, j :: i < j < k && Unused(s, f, i) && Unused(s, f, j)
  {
    var p, xs := Stale(s, f.now), f.docs;
    ByKind(s, f, ArchiveKnowledge(d));
    ArchivesOnly(FirstTwo(Filter(xs, p)));
    assert xs[..|xs|] == xs;
    forall k | 0 <= k < |xs| ensures p(xs[k]) <==> Unused(s, f, k) {
    }
    forall k | 0 <= k < |xs|
      ensures TwoBefore(xs, p, k) <==> exists i, j :: i < j < k && Unused(s, f, i) && Unused(s, f, j)
    {
    }
    forall x ensures x in FirstTwo(Filter(xs, p)) <==> AmongFirstTwo(xs, p, x, |xs|) {
      FirstTwoExactly(xs, p, x, |xs|);
    }
  }

  /** The analysis sees the vault's documents, with their uses. */
  ghost predicate Sees(f: Fleet, docs: seq<K.Doc>) {
    |f.docs| == |docs| && forall k :: 0 <= k < |docs| ==> f.docs[k].id == docs[k].id && f.docs[k].uses == docs[k].uses
  }

  /** A document that any retrieval has ever hit is never proposed for archiving. */
  lemma RetrievedIsNeverProposed(
      v: K.State, hits: set<Id>, when: real, ops: seq<K.Op>, id: Id, s: State, f: Fleet)
    requires id in hits && K.Live(v.docs, id)
    requires KR.AllFresh(K.Step(v, K.Retrieve(hits, when)), ops)
    requires Sees(f, KR.Run(K.Step(v, K.Retrieve(hits, when)), ops).docs)
    ensures ArchiveKnowledge(id) !in GeneratedTargets(s, f)
  {
    var docs := KR.Run(K.Step(v, K.Retrieve(hits, when)), ops).docs;
    KR.HitIsUsed(v, hits, when, id);
    KR.HitsStayUsed(K.Step(v, K.Retrieve(hits, when)), ops, id);
    forall k | Unused(s, f, k) ensures f.docs[k].id != id {
      assert docs[k] in docs;
    }
    ArchiveProposedExactly(s, f, id);
  }

  lemma {:induction false} WeakAreListed(clones: seq<CloneInfo>, key: string)
    ensures Manual(key) in PromptTargets(clones) <==>
      exists c :: c in clones && c.ratingCount >= 2 && c.ratingSum < 3 * c.ratingCount && key == "prompt:" + c.id
  {
    if clones != [] {
      var n := |clones| - 1;
      WeakAreListed(clones[..n], key);
      WeakExactly(clones[n]);
      assert clones == clones[..n] + [clones[n]];
    }
  }

  lemma WeakExactly(c: CloneInfo)
    ensures Weak(c) <==> c.ratingCount >= 2 && c.ratingSum < 3 * c.ratingCount
  {
    if c.ratingCount >= 2 {
      MeanBelowThree(c.ratingSum as real, c.ratingCount as real);
    }
  }

  lemma MeanBelowThree(sum: real, n: real)
    requires n > 0.0
    ensures sum / n < 3.0 <==> sum < 3.0 * n
  {
    var mean := sum / n;
    assert mean * n == sum;
    ProductsOrder(mean, 3.0, n);
  }

  lemma ProductsOrder(a: real, b: real, n: real)
    requires n > 0.0
    ensures a < b <==> a * n < b * n
  {
  }

  lemma SamePrompt(a: Id, b: Id)
    ensures "prompt:" + a == "prompt:" + b <==> a == b
  {
    assert ("prompt:" + a)[7..] == a && ("prompt:" + b)[7..] == b;
  }

  /** A better prompt is proposed exactly for a clone rated at least twice whose ratings sum to less than 3 each. */
  lemma PromptProposedExactly(s: State, f: Fleet, id: Id)
    ensures Manual("prompt:" + id) in GeneratedTargets(s, f) <==>
      exists c :: c in f.clones && c.id == id && c.ratingCount >= 2 && c.ratingSum < 3 * c.ratingCount
  {
    ByKind(s, f, Manual("prompt:" + id));
    WeakAreListed(f.clones, "prompt:" + id);
    assert "neural"[0] == 'n' && ("prompt:" + id)[0] == 'p';
    forall c: CloneInfo ensures "prompt:" + c.id == "prompt:" + id <==> c.id == id {
      SamePrompt(c.id, id);
    }
  }

  ghost predicate Held(clones: seq<CloneInfo>, role: string) {
    exists c :: c in clones && c.role == role
  }

  lemma HeldIsHasRole(clones: seq<CloneInfo>, role: string)
    ensures HasRole(clones, role) <==> Held(clones, role)
  {
    if HasRole(clones, role) {
      var i :| 0 <= i < |clones| && clones[i].role == role;
      assert clones[i] in clones;
    }
  }

  /** No clone has the role at k, and some clone has each role before it. */
  ghost predicate FreeAt(roles: seq<string>, clones: seq<CloneInfo>, k: int) {
    0 <= k < |roles| && !Held(clones, roles[k]) && forall j :: 0 <= j < k ==> Held(clones, roles[j])
  }

  lemma {:induction false} FirstFreeRole(roles: seq<string>, clones: seq<CloneInfo>, key: string)
    ensures Manual(key) in RoleTargets(roles, clones)
       <==> exists k :: FreeAt(roles, clones, k) && key == "role:" + roles[k]
  {
    if roles != [] {
      var rest := roles[1..];
      FirstFreeRole(rest, clones, key);
      HeldIsHasRole(clones, roles[0]);
      if Held(clones, roles[0]) {
        forall k ensures FreeAt(roles, clones, k + 1) <==> FreeAt(rest, clones, k) {
          FreeFurtherOn(roles, clones, k);
        }
        if k :| FreeAt(rest, clones, k) && key == "role:" + rest[k] {
          assert FreeAt(roles, clones, k + 1);
        }
        if k :| FreeAt(roles, clones, k) && key == "role:" + roles[k] {
          FreeFurtherOn(roles, clones, k - 1);
        }
      } else if k :| FreeAt(roles, clones, k) && key == "role:" + roles[k] {
        assert k == 0;
      } else {
        assert FreeAt(roles, clones, 0);
      }
    }
  }

  lemma FreeFurtherOn(roles: seq<string>, clones: seq<CloneInfo>, k: int)
    requires roles != [] && Held(clones, roles[0])
    ensures FreeAt(roles, clones, k + 1) <==> FreeAt(roles[1..], clones, k)
  {
    if FreeAt(roles, clones, k + 1) {
      assert k >= 0 && forall j :: 0 <= j < k ==> roles[1..][j] == roles[j + 1];
    }
    if FreeAt(roles[1..], clones, k) {
      assert forall j :: 0 < j < k + 1 ==> roles[j] == roles[1..][j - 1];
    }
  }

  /** A worker is proposed exactly for the first role of the list that no clone has. */
  lemma RoleProposedExactly(s: State, f: Fleet, role: string)
    ensures Manual("role:" + role) in GeneratedTargets(s, f) <==>
      exists k :: FreeAt(f.roles, f.clones, k) && f.roles[k] == role
  {
    ByKind(s, f, Manual("role:" + role));
    FirstFreeRole(f.roles, f.clones, "role:" + role);
    assert "neural"[0] == 'n' && ("role:" + role)[0] == 'r';
    forall k | 0 <= k < |f.roles| ensures "role:" + f.roles[k] == "role:" + role <==> f.roles[k] == role {
      assert ("role:" + f.roles[k])[5..] == f.roles[k] && ("role:" + role)[5..] == role;
    }
  }

  /** A provider is proposed exactly when the neural engine is not selected or has no key. */
  lemma ProviderProposedExactly(s: State, f: Fleet)
    ensures Manual("neural") in GeneratedTargets(s, f) <==> !f.neural || !f.hasKey
  {
    ByKind(s, f, Manual("neural"));
  }

  // ---- which merge is proposed ----

  /**
   * These two are the first two workflows of their worker, and no worker with a workflow further up has a second one.
   */
  ghost predicate FirstPair(ws: seq<Workflow>, i: nat, j: nat) {
    && i < j < |ws| && ws[i].workerId.Some? && ws[j].workerId == ws[i].workerId
    && (forall k :: 0 <= k < j && k != i ==> ws[k].workerId != ws[i].workerId)
    && forall k, m :: 0 <= k < i && 0 <= m < |ws| && m != k && ws[k].workerId.Some?
        ==> ws[m].workerId != ws[k].workerId
  }

  lemma {:induction false} OwnersGrow(ws: seq<Workflow>, n: nat)
    requires n <= |ws|
    ensures Owners(ws[..n]) <= Owners(ws)
    decreases |ws| - n
  {
    if n < |ws| {
      OwnersGrow(ws, n + 1);
      assert ws[..n + 1][..n] == ws[..n];
    } else {
      assert ws[..n] == ws;
    }
  }

  lemma {:induction false} BusySkips(ws: seq<Workflow>, a: seq<Id>, b: seq<Id>)
    requires forall o :: o in a ==> |Filter(ws, OwnedBy(o))| < 2
    ensures FirstBusy(ws, a + b) == FirstBusy(ws, b)
  {
    if a == [] {
      assert a + b == b;
    } else {
      assert a[0] in a && (a + b)[1..] == a[1..] + b;
      BusySkips(ws, a[1..], b);
    }
  }

  lemma {:induction false} FilterReaches(a: seq<Workflow>, x: Workflow, rest: seq<Workflow>, p: Workflow -> bool)
    requires p(x) && forall y :: y in a ==> !p(y)
    ensures Filter(a + ([x] + rest), p) == [x] + Filter(rest, p)
  {
    FilterAppends(a, [x] + rest, p);
    FilterAppends([x], rest, p);
    FilterNone(a, p);
    FilterAll([x], p);
  }

  lemma {:induction false} FilterReachesAt(ws: seq<Workflow>, from: nat, k: nat, p: Workflow -> bool)
    requires from <= k < |ws| && p(ws[k]) && forall m :: from <= m < k ==> !p(ws[m])
    ensures Filter(ws[from..], p) == [ws[k]] + Filter(ws[k + 1..], p)
  {
    forall y | y in ws[from..k] ensures !p(y) {
      var m :| 0 <= m < k - from && ws[from..k][m] == y;
      assert ws[from + m] == y;
    }
    FilterReaches(ws[from..k], ws[k], ws[k + 1..], p);
    assert ws[from..] == ws[from..k] + ([ws[k]] + ws[k + 1..]);
  }

  lemma {:induction false} TwoOwned(ws: seq<Workflow>, i: nat, j: nat)
    requires FirstPair(ws, i, j)
    ensures var own := Filter(ws, OwnedBy(ws[i].workerId.value)); |own| >= 2 && own[0] == ws[i] && own[1] == ws[j]
  {
    var p := OwnedBy(ws[i].workerId.value);
    FilterReachesAt(ws, 0, i, p);
    FilterReachesAt(ws, i + 1, j, p);
    assert ws[0..] == ws;
  }

  lemma {:induction false} OneOwned(ws: seq<Workflow>, k: nat)
    requires k < |ws| && ws[k].workerId.Some?
    requires forall m :: 0 <= m < |ws| && m != k ==> ws[m].workerId != ws[k].workerId
    ensures |Filter(ws, OwnedBy(ws[k].workerId.value))| < 2
  {
    var p := OwnedBy(ws[k].workerId.value);
    assert ws == ws[..k] + ([ws[k]] + ws[k + 1..]);
    FilterReaches(ws[..k], ws[k], ws[k + 1..], p);
    FilterNone(ws[k + 1..], p);
  }

  /** The pair proposed for a merge: the first two workflows of the first worker that has two. */
  lemma {:induction false} FirstPairIsProposed(ws: seq<Workflow>, i: nat, j: nat)
    requires FirstPair(ws, i, j)
    ensures MergeTargets(ws) == [MergeWorkflows(ws[i].id, ws[j].id)]
  {
    var o, before := ws[i].workerId.value, Owners(ws[..i]);
    forall q | q in before ensures |Filter(ws, OwnedBy(q))| < 2 {
      OwnersAreComplete(ws[..i], q);
      var k :| 0 <= k < i && ws[..i][k].workerId == Some(q);
      OneOwned(ws, k);
    }
    OwnersAreComplete(ws[..i], o);
    assert ws[..i + 1][..i] == ws[..i];
    assert Owners(ws[..i + 1]) == before + [o];
    OwnersGrow(ws, i + 1);
    var rest := Owners(ws)[|before|..];
    assert Owners(ws) == before + rest && rest[0] == o;
    BusySkips(ws, before, rest);
    TwoOwned(ws, i, j);
  }

  lemma {:induction false} SomePairIsFirst(ws: seq<Workflow>, a: nat, b: nat) returns (i: nat, j: nat)
    requires a < b < |ws| && ws[a].workerId.Some? && ws[b].workerId == ws[a].workerId
    ensures FirstPair(ws, i, j)
    decreases a, b
  {
    if k, m :| 0 <= k < a && 0 <= m < |ws| && m != k && ws[k].workerId.Some? && ws[m].workerId == ws[k].workerId {
      i, j := SomePairIsFirst(ws, if k < m then k else m, if k < m then m else k);
    } else if k :| 0 <= k < b && k != a && ws[k].workerId == ws[a].workerId {
      i, j := SomePairIsFirst(ws, a, k);
    } else {
      i, j := a, b;
    }
  }

  lemma {:induction false} ProposedPairIsFirst(ws: seq<Workflow>) returns (i: nat, j: nat)
    requires MergeTargets(ws) != []
    ensures FirstPair(ws, i, j) && MergeTargets(ws) == [MergeWorkflows(ws[i].id, ws[j].id)]
  {
    MergeProposedExactly(ws);
    var o :| |Filter(ws, OwnedBy(o))| >= 2;
    var a, b := TwoOfOne(ws, o);
    i, j := SomePairIsFirst(ws, a, b);
    FirstPairIsProposed(ws, i, j);
  }

  lemma {:induction false} TwoOfOne(ws: seq<Workflow>, o: Id) returns (a: nat, b: nat)
    requires |Filter(ws, OwnedBy(o))| >= 2
    ensures a < b < |ws| && ws[a].workerId == Some(o) && ws[b].workerId == Some(o)
  {
    FilterCounts(ws, OwnedBy(o), |ws|);
    assert ws[..|ws|] == ws;
    a, b :| a < b < |ws| && OwnedBy(o)(ws[a]) && OwnedBy(o)(ws[b]);
  }

  /**
   * A merge of x and y is proposed exactly when they are the ids of the first two workflows of the first worker who has
   * two.
   */
  lemma {:induction false} MergePairExactly(s: State, f: Fleet, x: Id, y: Id)
    ensures MergeWorkflows(x, y) in GeneratedTargets(s, f) <==>
      exists i: nat, j: nat :: FirstPair(s.workflows, i, j) && s.workflows[i].id == x && s.workflows[j].id == y
  {
    var ws := s.workflows;
    ByKind(s, f, MergeWorkflows(x, y));
    if MergeTargets(ws) != [] {
      var i, j := ProposedPairIsFirst(ws);
      assert FirstPair(ws, i, j);
    }
    if i: nat, j: nat :| FirstPair(ws, i, j) && ws[i].id == x && ws[j].id == y {
      FirstPairIsProposed(ws, i, j);
    }
  }

  // ---- every target becomes a suggestion ----

  lemma AddStepSuggests(s: State, id: Id, target: Target, t: Target)
    requires |s.suggestions| < SUGGESTION_CAP
    ensures Duplicate(AddStep(s, id, target).suggestions, t) <==> Duplicate(s.suggestions, t) || t == target
  {
    var ss := s.suggestions;
    var grown := ss + [Suggestion(id, target, Pending, None, None)];
    if !Duplicate(ss, target) {
      assert grown[|ss|].target == target && grown[|ss|].Live();
      forall i | 0 <= i < |ss| ensures grown[i] == ss[i] {
      }
      if Duplicate(ss, t) {
        var i :| 0 <= i < |ss| && ss[i].target == t && ss[i].Live();
        assert grown[i].target == t;
      }
    }
  }

  lemma AddStepSize(s: State, id: Id, target: Target)
    requires |s.suggestions| < SUGGESTION_CAP
    ensures |s.suggestions| <= |AddStep(s, id, target).suggestions| <= |s.suggestions| + 1
  {
  }

  lemma {:induction false} AddAllSuggests(s: State, uid: nat -> Id, targets: seq<Target>, t: Target)
    requires |s.suggestions| + |targets| <= SUGGESTION_CAP
    ensures |AddAll(s, uid, targets).suggestions| <= |s.suggestions| + |targets|
    ensures Duplicate(AddAll(s, uid, targets).suggestions, t) <==> Duplicate(s.suggestions, t) || t in targets
  {
    if targets != [] {
      var n := |targets| - 1;
      AddAllSuggests(s, uid, targets[..n], t);
      AddStepSuggests(AddAll(s, uid, targets[..n]), uid(n), targets[n], t);
      AddStepSize(AddAll(s, uid, targets[..n]), uid(n), targets[n]);
      assert targets == targets[..n] + [targets[n]];
    }
  }

  /**
   * While the list has room, exactly the generated targets, and those that already had one, have a live suggestion
   * after an analysis.
   */
  lemma AnalysisSuggestsExactly(s: State, f: Fleet, uid: nat -> Id, t: Target)
    requires |s.suggestions| + |GeneratedTargets(s, f)| <= 40
    ensures Duplicate(AddAll(s, uid, GeneratedTargets(s, f)).suggestions, t)
         <==> Duplicate(s.suggestions, t) || t in GeneratedTargets(s, f)
  {
    AddAllSuggests(s, uid, GeneratedTargets(s, f), t);
  }
}
