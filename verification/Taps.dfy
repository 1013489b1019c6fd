/** Under which names a core event is published: the tap against a table of names, kinds and patterns. */
module Taps {
  import opened Sequences
  import opened Texts
  import opened EventBus

  /** The named events. */
  datatype Name =
    | MissionCompleted | WorkerStarted | WorkerCreated | KnowledgeStored | ClientCreated | PaymentReceived
    | WorkflowFinished | ProviderConnected | ActionExecuted | ImprovementProposed
  {
    function Text(): string {
      match this
      case MissionCompleted => "MissionCompleted"
      case WorkerStarted => "WorkerStarted"
      case WorkerCreated => "WorkerCreated"
      case KnowledgeStored => "KnowledgeStored"
      case ClientCreated => "ClientCreated"
      case PaymentReceived => "PaymentReceived"
      case WorkflowFinished => "WorkflowFinished"
      case ProviderConnected => "ProviderConnected"
      case ActionExecuted => "ActionExecuted"
      case ImprovementProposed => "ImprovementProposed"
    }

    /** The kind of core event the name belongs to. */
    function Kind(): string {
      match this
      case MissionCompleted => "mission"
      case WorkerStarted => "runtime"
      case WorkerCreated => "spawn"
      case KnowledgeStored => "knowledge"
      case ClientCreated => "org"
      case PaymentReceived => "org"
      case WorkflowFinished => "workflow"
      case ProviderConnected => "provider"
      case ActionExecuted => "action"
      case ImprovementProposed => "evolve"
    }

    /** The texts of which one must occur in the event's; none when any event of the kind will do. */
    function Patterns(): seq<string> {
      match this
      case MissionCompleted => ["COMPLETED"]
      case WorkerStarted => ["Execution started"]
      case WorkerCreated => []
      case KnowledgeStored => ["Knowledge stored"]
      case ClientCreated => ["new lead", "new qualified", "new proposal"]
      case PaymentReceived => ["Ledger — revenue"]
      case WorkflowFinished => ["completed", "success", "registered"]
      case ProviderConnected => ["enabled", "configured"]
      case ActionExecuted => ["Action completed"]
      case ImprovementProposed => ["proposed"]
    }

    /** Whether upper-case letters count as lower-case ones. */
    predicate AnyCase() {
      WorkflowFinished?
    }

    function Initial(): char {
      match this
      case MissionCompleted => 'm'
      case WorkerStarted => 'r'
      case WorkerCreated => 's'
      case KnowledgeStored => 'k'
      case ClientCreated => 'o'
      case PaymentReceived => 'o'
      case WorkflowFinished => 'w'
      case ProviderConnected => 'p'
      case ActionExecuted => 'a'
      case ImprovementProposed => 'e'
    }
  }

  const FIRST_NAMES: seq<Name> := [MissionCompleted, WorkerStarted, WorkerCreated, KnowledgeStored, ClientCreated]
  const OTHER_NAMES: seq<Name> :=
    [PaymentReceived, WorkflowFinished, ProviderConnected, ActionExecuted, ImprovementProposed]
  const NAMES: seq<Name> := FIRST_NAMES + OTHER_NAMES

  predicate AnyIn(text: string, patterns: seq<string>) {
    exists p :: p in patterns && Has(text, p)
  }

  /** The event has the kind of this name, and its text one of the patterns. */
  predicate Earns(ev: Event, n: Name) {
    n.Kind() == ev.kind && (n.Patterns() == [] || AnyIn(if n.AnyCase() then Lower(ev.text) else ev.text, n.Patterns()))
  }

  function EarnedName(ev: Event): Name -> seq<string> {
    (n: Name) => if Earns(ev, n) then [n.Text()] else []
  }

  // ---- the names, one by one ----

  lemma AnyOfOne(text: string, a: string)
    ensures AnyIn(text, [a]) <==> Has(text, a)
  {
    assert a in [a];
  }

  lemma AnyOfTwo(text: string, a: string, b: string)
    ensures AnyIn(text, [a, b]) <==> Has(text, a) || Has(text, b)
  {
    assert a in [a, b] && b in [a, b];
  }

  lemma AnyOfThree(text: string, a: string, b: string, c: string)
    ensures AnyIn(text, [a, b, c]) <==> Has(text, a) || Has(text, b) || Has(text, c)
  {
    assert a in [a, b, c] && b in [a, b, c] && c in [a, b, c];
  }

  lemma KindStarts(n: Name)
    ensures n.Kind() != "" && n.Kind()[0] == n.Initial()
  {
  }

  lemma OtherKindEarnsNothing(ev: Event, n: Name)
    requires ev.kind == "" || ev.kind[0] != n.Initial()
    ensures EarnedName(ev)(n) == [] && ev.kind != n.Kind()
  {
    KindStarts(n);
  }

  /** What each name is earned by, when the kind fits. */
  lemma EarnedOfKind(ev: Event, n: Name)
    requires ev.kind == n.Kind()
    ensures EarnedName(ev)(n) == NameIf(
      match n
      case MissionCompleted => Has(ev.text, "COMPLETED")
      case WorkerStarted => Has(ev.text, "Execution started")
      case WorkerCreated => true
      case KnowledgeStored => Has(ev.text, "Knowledge stored")
      case ClientCreated => Has(ev.text, "new lead") || Has(ev.text, "new qualified") || Has(ev.text, "new proposal")
      case PaymentReceived => Has(ev.text, "Ledger — revenue")
      case WorkflowFinished =>
        Has(Lower(ev.text), "completed") || Has(Lower(ev.text), "success") || Has(Lower(ev.text), "registered")
      case ProviderConnected => Has(ev.text, "enabled") || Has(ev.text, "configured")
      case ActionExecuted => Has(ev.text, "Action completed")
      case ImprovementProposed => Has(ev.text, "proposed"),
      n.Text())
  {
    match n
    case MissionCompleted => AnyOfOne(ev.text, "COMPLETED");
    case WorkerStarted => AnyOfOne(ev.text, "Execution started");
    case WorkerCreated =>
    case KnowledgeStored => AnyOfOne(ev.text, "Knowledge stored");
    case ClientCreated => AnyOfThree(ev.text, "new lead", "new qualified", "new proposal");
    case PaymentReceived => AnyOfOne(ev.text, "Ledger — revenue");
    case WorkflowFinished => AnyOfThree(Lower(ev.text), "completed", "success", "registered");
    case ProviderConnected => AnyOfTwo(ev.text, "enabled", "configured");
    case ActionExecuted => AnyOfOne(ev.text, "Action completed");
    case ImprovementProposed => AnyOfOne(ev.text, "proposed");
  }

  lemma {:induction false} OneContributes(ns: seq<Name>, n: Name, f: Name -> seq<string>)
    requires Distinct(ns) && n in ns && forall m :: m in ns && m != n ==> f(m) == []
    ensures Collect(ns, f) == f(n)
  {
    if ns[0] == n {
      CollectNothing(ns[1..], f);
    } else {
      assert ns[0] in ns && ns == [ns[0]] + ns[1..];
      OneContributes(ns[1..], n, f);
    }
  }

  lemma OnlyOneKindEarns(ev: Event, n: Name, ns: seq<Name>)
    requires Distinct(ns) && n in ns && ev.kind == n.Kind()
    requires forall m :: m in ns && m != n ==> m.Initial() != n.Initial()
    ensures Collect(ns, EarnedName(ev)) == EarnedName(ev)(n)
  {
    KindStarts(n);
    forall m | m in ns && m != n ensures EarnedName(ev)(m) == [] {
      OtherKindEarnsNothing(ev, m);
    }
    OneContributes(ns, n, EarnedName(ev));
  }

  lemma OtherKindsEarnNothing(ev: Event, n: Name, ns: seq<Name>)
    requires ev.kind == n.Kind() && forall m :: m in ns ==> m.Initial() != n.Initial()
    ensures Collect(ns, EarnedName(ev)) == []
  {
    KindStarts(n);
    forall i | 0 <= i < |ns| ensures EarnedName(ev)(ns[i]) == [] {
      assert ns[i] in ns;
      OtherKindEarnsNothing(ev, ns[i]);
    }
    CollectNothing(ns, EarnedName(ev));
  }

  lemma TwoLists()
    ensures Distinct(FIRST_NAMES) && Distinct(OTHER_NAMES)
    ensures forall n: Name :: n in FIRST_NAMES <==>
              n.MissionCompleted? || n.WorkerStarted? || n.WorkerCreated? || n.KnowledgeStored? || n.ClientCreated?
    ensures forall n: Name :: n in OTHER_NAMES <==> n !in FIRST_NAMES
  {
    assert FIRST_NAMES[0] == MissionCompleted && FIRST_NAMES[1] == WorkerStarted && FIRST_NAMES[2] == WorkerCreated;
    assert FIRST_NAMES[3] == KnowledgeStored && FIRST_NAMES[4] == ClientCreated;
    assert OTHER_NAMES[0] == PaymentReceived && OTHER_NAMES[1] == WorkflowFinished;
    assert OTHER_NAMES[2] == ProviderConnected && OTHER_NAMES[3] == ActionExecuted;
    assert OTHER_NAMES[4] == ImprovementProposed;
  }

  predicate OfOrganization(n: Name) {
    n.ClientCreated? || n.PaymentReceived?
  }

  lemma OnlyOrganizationEarns(ev: Event)
    requires ev.kind == "org"
    ensures var f := EarnedName(ev);
      Collect(FIRST_NAMES, f) == f(ClientCreated) && Collect(OTHER_NAMES, f) == f(PaymentReceived)
  {
    TwoLists();
    forall m: Name | !OfOrganization(m) ensures m.Initial() != 'o' {
      InitialsDiffer(ClientCreated, m);
    }
    OnlyOneKindEarns(ev, ClientCreated, FIRST_NAMES);
    OnlyOneKindEarns(ev, PaymentReceived, OTHER_NAMES);
  }

  lemma OnlyOwnKindEarnsIn(ev: Event, n: Name, mine: seq<Name>, others: seq<Name>)
    requires ev.kind == n.Kind() && !OfOrganization(n)
    requires Distinct(mine) && n in mine && n !in others
    ensures Collect(mine, EarnedName(ev)) == EarnedName(ev)(n) && Collect(others, EarnedName(ev)) == []
  {
    forall m | m in mine + others && m != n ensures m.Initial() != n.Initial() {
      InitialsDiffer(m, n);
    }
    OnlyOneKindEarns(ev, n, mine);
    OtherKindsEarnNothing(ev, n, others);
  }

  lemma InitialsDiffer(m: Name, n: Name)
    requires m != n && !OfOrganization(n)
    ensures m.Initial() != n.Initial()
  {
  }

  /** Only the names of the event's own kind can be earned: one, or the two of an organization. */
  lemma OnlyOwnKindEarns(ev: Event, n: Name)
    requires ev.kind == n.Kind()
    ensures var f := EarnedName(ev);
      Collect(NAMES, f) == if OfOrganization(n) then f(ClientCreated) + f(PaymentReceived) else f(n)
  {
    TwoLists();
    CollectAppends(FIRST_NAMES, OTHER_NAMES, EarnedName(ev));
    if OfOrganization(n) {
      OnlyOrganizationEarns(ev);
    } else if n in FIRST_NAMES {
      OnlyOwnKindEarnsIn(ev, n, FIRST_NAMES, OTHER_NAMES);
    } else {
      OnlyOwnKindEarnsIn(ev, n, OTHER_NAMES, FIRST_NAMES);
    }
  }

  lemma KindsApart(n: Name)
    ensures forall m: Name :: m.Initial() != n.Initial() ==> m.Kind() != n.Kind()
  {
    KindStarts(n);
    forall m: Name | m.Initial() != n.Initial() ensures m.Kind() != n.Kind() {
      KindStarts(m);
    }
  }

  lemma OtherNamesOfKind(ev: Event, n: Name)
    requires ev.kind == n.Kind()
    ensures var f := EarnedName(ev);
      OtherNames(ev) == if OfOrganization(n) then f(ClientCreated) + f(PaymentReceived) else f(n)
  {
    KindsApart(n);
    EarnedOfKind(ev, n);
    assert MissionCompleted.Kind() == "mission" && WorkerStarted.Kind() == "runtime" && WorkerCreated.Kind() == "spawn";
    assert KnowledgeStored.Kind() == "knowledge" && WorkflowFinished.Kind() == "workflow";
    assert ProviderConnected.Kind() == "provider" && ActionExecuted.Kind() == "action";
    assert ClientCreated.Kind() == "org";
    match n
    case ClientCreated => EarnedOfKind(ev, PaymentReceived);
    case PaymentReceived => EarnedOfKind(ev, ClientCreated);
    case _ =>
  }

  lemma {:induction false} NothingEarned(ev: Event, ns: seq<Name>)
    requires forall n: Name :: n.Kind() != ev.kind
    ensures Collect(ns, EarnedName(ev)) == []
  {
    CollectNothing(ns, EarnedName(ev));
  }

  lemma NoOtherNames(ev: Event)
    requires forall n: Name :: n.Kind() != ev.kind
    ensures OtherNames(ev) == []
  {
    assert MissionCompleted.Kind() == "mission" && WorkerStarted.Kind() == "runtime" && WorkerCreated.Kind() == "spawn";
    assert KnowledgeStored.Kind() == "knowledge" && WorkflowFinished.Kind() == "workflow";
    assert ProviderConnected.Kind() == "provider" && ActionExecuted.Kind() == "action";
    assert ClientCreated.Kind() == "org" && ImprovementProposed.Kind() == "evolve";
  }

  /** After the core name, an event is published under exactly the names it earns, in the order of the list. */
  lemma PublishedAreEarned(ev: Event)
    ensures PublishedNames(ev) == ["core:" + ev.kind] + Collect(NAMES, EarnedName(ev))
  {
    if n: Name :| n.Kind() == ev.kind {
      OnlyOwnKindEarns(ev, n);
      OtherNamesOfKind(ev, n);
    } else {
      NoOtherNames(ev);
      NothingEarned(ev, NAMES);
    }
  }

  lemma {:induction false} CollectedFrom(ns: seq<Name>, ev: Event, name: string)
    ensures name in Collect(ns, EarnedName(ev)) <==> exists n :: n in ns && Earns(ev, n) && n.Text() == name
  {
    if ns != [] {
      CollectedFrom(ns[1..], ev, name);
      assert ns == [ns[0]] + ns[1..];
    }
  }

  /** The text, letter case aside where it does not count, contains one of the patterns; or any text will do. */
  ghost predicate Shows(ev: Event, n: Name) {
    n == WorkerCreated ||
    exists p :: p in n.Patterns() && Contains(if n == WorkflowFinished then Lower(ev.text) else ev.text, p)
  }

  lemma {:induction false} AnyInContains(text: string, patterns: seq<string>)
    ensures AnyIn(text, patterns) <==> exists p :: p in patterns && Contains(text, p)
  {
    forall p | p in patterns ensures Has(text, p) <==> Contains(text, p) {
      HasExactly(text, p);
    }
  }

  lemma EarnsWhenItShows(ev: Event, n: Name)
    ensures Earns(ev, n) <==> n.Kind() == ev.kind && Shows(ev, n)
  {
    AnyInContains(if n.AnyCase() then Lower(ev.text) else ev.text, n.Patterns());
  }

  /**
   * An event is published under a name exactly when it is the core name, or a named event of its kind one of whose
   * patterns its text contains.
   */
  lemma PublishedExactly(ev: Event, name: string)
    ensures name in PublishedNames(ev) <==>
      name == "core:" + ev.kind || exists n: Name :: n.Text() == name && n.Kind() == ev.kind && Shows(ev, n)
  {
    PublishedAreEarned(ev);
    CollectedFrom(NAMES, ev, name);
    TwoLists();
    forall n: Name ensures Earns(ev, n) <==> n.Kind() == ev.kind && Shows(ev, n) {
      EarnsWhenItShows(ev, n);
    }
  }
}
