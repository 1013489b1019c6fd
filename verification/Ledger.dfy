/** The revenue center: bookkeeping over a ring of entries, as filtered sums. */
module Ledger {
  import opened Wrappers
  import opened Rings
  import opened Rounding
  import opened Sequences

  type Id = string

  const LEDGER_CAP := 400
  const REVENUE_CATEGORIES: seq<string> := ["product", "service", "affiliate", "one-time"]
  const GHOST_NOTE := "ghost network import"
  const CLONE_NOTE := "clone network import"

  datatype Kind = Revenue | Expense | Refund

  datatype Entry = Entry(
    org: Option<Id>, kind: Kind, category: string, amount: real, recurring: bool, simulated: bool,
    client: Option<Id>, note: string)

  /** What a caller passes to addFinance: an unknown kind is None, a missing category too. */
  datatype Input = Input(
    org: Option<Id>, kind: Option<Kind>, category: Option<string>, amount: real, recurring: bool, simulated: bool,
    client: Option<Id>, note: string)

  datatype State = State(finance: seq<Entry>, orgs: seq<Id>)

  function Normalise(s: State, i: Input): Entry {
    Entry(
      if i.org.Some? then i.org else if s.orgs != [] then Some(s.orgs[0]) else None,
      if i.kind.Some? then i.kind.value else Revenue,
      if i.category.Some? then i.category.value else if i.kind == Some(Expense) then "other" else "one-time",
      if i.amount > 0.0 then i.amount else 0.0,
      i.recurring, i.simulated, i.client, i.note)
  }

  function AddFinance(s: State, i: Input): State {
    s.(finance := Push(LEDGER_CAP, s.finance, Normalise(s, i)))
  }

  // ---- filtered sums ----

  type Test = Entry -> bool

  function SumIf(fs: seq<Entry>, p: Test): real {
    if fs == [] then 0.0
    else SumIf(fs[..|fs| - 1], p) + if p(fs[|fs| - 1]) then fs[|fs| - 1].amount else 0.0
  }

  function OfKind(k: Kind): Test {
    (f: Entry) => f.kind == k
  }

  function InOrg(org: Option<Id>): Test {
    (f: Entry) => org.None? || f.org == org
  }

  function OfClient(c: Id): Test {
    (f: Entry) => f.client == Some(c)
  }

  function Recurring(b: bool): Test {
    (f: Entry) => f.recurring == b
  }

  function And(p: Test, q: Test): Test {
    (f: Entry) => p(f) && q(f)
  }

  function Not(p: Test): Test {
    (f: Entry) => !p(f)
  }

  datatype Stats = Stats(revenue: real, refunds: real, expenses: real, profit: real, mrr: real, oneTime: real)

  /** financeStats for one organization, or for all when none is given. */
  function FinanceStats(fs: seq<Entry>, org: Option<Id>): Stats {
    StatsWhere(fs, InOrg(org))
  }

  function StatsWhere(fs: seq<Entry>, scope: Test): Stats {
    var revenue := SumIf(fs, And(scope, OfKind(Revenue)));
    var refunds := SumIf(fs, And(scope, OfKind(Refund)));
    var expenses := SumIf(fs, And(scope, OfKind(Expense)));
    Stats(revenue, refunds, expenses, revenue - refunds - expenses,
          SumIf(fs, And(scope, And(OfKind(Revenue), Recurring(true)))),
          SumIf(fs, And(scope, And(OfKind(Revenue), Recurring(false)))))
  }

  function ClientRevenue(fs: seq<Entry>, c: Id): real {
    SumIf(fs, And(OfClient(c), OfKind(Revenue))) - SumIf(fs, And(OfClient(c), OfKind(Refund)))
  }

  // ---- sums split along any distinction ----

  lemma {:induction false} SumDependsOnTest(fs: seq<Entry>, p: Test, q: Test)
    requires forall i :: 0 <= i < |fs| ==> p(fs[i]) == q(fs[i])
    ensures SumIf(fs, p) == SumIf(fs, q)
  {
    if fs != [] {
      SumDependsOnTest(fs[..|fs| - 1], p, q);
    }
  }

  lemma {:induction false} SumSplits(fs: seq<Entry>, p: Test, q: Test)
    ensures SumIf(fs, p) == SumIf(fs, And(p, q)) + SumIf(fs, And(p, Not(q)))
  {
    if fs != [] {
      SumSplits(fs[..|fs| - 1], p, q);
    }
  }

  /** For every ledger and scope, revenue is recurring plus one-time revenue. */
  lemma RevenueIsRecurringPlusOneTime(fs: seq<Entry>, org: Option<Id>)
    ensures var st := FinanceStats(fs, org); st.revenue == st.mrr + st.oneTime
  {
    var revenue := And(InOrg(org), OfKind(Revenue));
    SumSplits(fs, revenue, Recurring(true));
    SumDependsOnTest(fs, And(revenue, Recurring(true)), And(InOrg(org), And(OfKind(Revenue), Recurring(true))));
    SumDependsOnTest(fs, And(revenue, Not(Recurring(true))), And(InOrg(org), And(OfKind(Revenue), Recurring(false))));
  }

  // ---- keys: organizations and clients ----

  type Key = Entry -> Option<Id>

  function HasKey(key: Key, id: Id): Test {
    (f: Entry) => key(f) == Some(id)
  }

  /** The entry names none of these ids. */
  function NamesNone(key: Key, ids: seq<Id>): Test {
    (f: Entry) => key(f).None? || key(f).value !in ids
  }

  function SumOverIds(fs: seq<Entry>, key: Key, ids: seq<Id>, p: Test): real {
    if ids == [] then 0.0
    else SumOverIds(fs, key, ids[..|ids| - 1], p) + SumIf(fs, And(HasKey(key, ids[|ids| - 1]), p))
  }

  /** A sum is the sum over the distinct ids plus the entries that name none of them. */
  lemma {:induction false} SumByIds(fs: seq<Entry>, key: Key, ids: seq<Id>, p: Test)
    requires Distinct(ids)
    ensures SumIf(fs, p) == SumOverIds(fs, key, ids, p) + SumIf(fs, And(NamesNone(key, ids), p))
  {
    if ids == [] {
      SumDependsOnTest(fs, p, And(NamesNone(key, ids), p));
    } else {
      var front, last := ids[..|ids| - 1], ids[|ids| - 1];
      assert ids == front + [last] && last !in front;
      SumByIds(fs, key, front, p);
      var rest := And(NamesNone(key, front), p);
      SumSplits(fs, rest, HasKey(key, last));
      SumDependsOnTest(fs, And(rest, HasKey(key, last)), And(HasKey(key, last), p));
      SumDependsOnTest(fs, And(rest, Not(HasKey(key, last))), And(NamesNone(key, ids), p));
    }
  }

  function OrgKey(f: Entry): Option<Id> {
    f.org
  }

  function ClientKey(f: Entry): Option<Id> {
    f.client
  }

  function Plus(a: Stats, b: Stats): Stats {
    Stats(a.revenue + b.revenue, a.refunds + b.refunds, a.expenses + b.expenses, a.profit + b.profit,
          a.mrr + b.mrr, a.oneTime + b.oneTime)
  }

  function StatsOverOrgs(fs: seq<Entry>, orgs: seq<Id>): Stats {
    if orgs == [] then Stats(0.0, 0.0, 0.0, 0.0, 0.0, 0.0)
    else Plus(StatsOverOrgs(fs, orgs[..|orgs| - 1]), FinanceStats(fs, Some(orgs[|orgs| - 1])))
  }

  lemma {:induction false} StatsOverOrgsAreSums(fs: seq<Entry>, orgs: seq<Id>)
    ensures var st := StatsOverOrgs(fs, orgs);
      && st.revenue == SumOverIds(fs, OrgKey, orgs, OfKind(Revenue))
      && st.refunds == SumOverIds(fs, OrgKey, orgs, OfKind(Refund))
      && st.expenses == SumOverIds(fs, OrgKey, orgs, OfKind(Expense))
      && st.profit == st.revenue - st.refunds - st.expenses
      && st.mrr == SumOverIds(fs, OrgKey, orgs, And(OfKind(Revenue), Recurring(true)))
      && st.oneTime == SumOverIds(fs, OrgKey, orgs, And(OfKind(Revenue), Recurring(false)))
  {
    if orgs != [] {
      var last := orgs[|orgs| - 1];
      StatsOverOrgsAreSums(fs, orgs[..|orgs| - 1]);
      ScopeIsKey(fs, last, OfKind(Revenue));
      ScopeIsKey(fs, last, OfKind(Refund));
      ScopeIsKey(fs, last, OfKind(Expense));
      ScopeIsKey(fs, last, And(OfKind(Revenue), Recurring(true)));
      ScopeIsKey(fs, last, And(OfKind(Revenue), Recurring(false)));
    }
  }

  lemma ScopeIsKey(fs: seq<Entry>, org: Id, p: Test)
    ensures SumIf(fs, And(InOrg(Some(org)), p)) == SumIf(fs, And(HasKey(OrgKey, org), p))
  {
    forall i | 0 <= i < |fs| ensures And(InOrg(Some(org)), p)(fs[i]) == And(HasKey(OrgKey, org), p)(fs[i]) {
      assert OrgKey(fs[i]) == fs[i].org;
    }
    SumDependsOnTest(fs, And(InOrg(Some(org)), p), And(HasKey(OrgKey, org), p));
  }

  lemma AllIsNoScope(fs: seq<Entry>, p: Test)
    ensures SumIf(fs, And(InOrg(None), p)) == SumIf(fs, p)
  {
    SumDependsOnTest(fs, And(InOrg(None), p), p);
  }

  /**
   * The all-organizations figures are the per-organization figures summed, plus the entries naming no known
   * organization.
   */
  lemma OrganizationsAddUp(fs: seq<Entry>, orgs: seq<Id>)
    requires Distinct(orgs)
    ensures FinanceStats(fs, None) == Plus(StatsOverOrgs(fs, orgs), StatsWhere(fs, NamesNone(OrgKey, orgs)))
  {
    var all, byOrg, other := FinanceStats(fs, None), StatsOverOrgs(fs, orgs), StatsWhere(fs, NamesNone(OrgKey, orgs));
    StatsOverOrgsAreSums(fs, orgs);
    assert all.revenue == byOrg.revenue + other.revenue by { OneFigure(fs, orgs, OfKind(Revenue)); }
    assert all.refunds == byOrg.refunds + other.refunds by { OneFigure(fs, orgs, OfKind(Refund)); }
    assert all.expenses == byOrg.expenses + other.expenses by { OneFigure(fs, orgs, OfKind(Expense)); }
    assert all.mrr == byOrg.mrr + other.mrr by { OneFigure(fs, orgs, And(OfKind(Revenue), Recurring(true))); }
    assert all.oneTime == byOrg.oneTime + other.oneTime by {
      OneFigure(fs, orgs, And(OfKind(Revenue), Recurring(false)));
    }
    ProfitsAdd(all, byOrg, other);
  }

  lemma ProfitsAdd(all: Stats, a: Stats, b: Stats)
    requires all.revenue == a.revenue + b.revenue && all.refunds == a.refunds + b.refunds
    requires all.expenses == a.expenses + b.expenses && all.mrr == a.mrr + b.mrr && all.oneTime == a.oneTime + b.oneTime
    requires all.profit == all.revenue - all.refunds - all.expenses
    requires a.profit == a.revenue - a.refunds - a.expenses && b.profit == b.revenue - b.refunds - b.expenses
    ensures all == Plus(a, b)
  {
  }

  lemma OneFigure(fs: seq<Entry>, orgs: seq<Id>, p: Test)
    requires Distinct(orgs)
    ensures SumIf(fs, And(InOrg(None), p)) == SumOverIds(fs, OrgKey, orgs, p)
        + SumIf(fs, And(NamesNone(OrgKey, orgs), p))
  {
    AllIsNoScope(fs, p);
    SumByIds(fs, OrgKey, orgs, p);
  }

  function ClientsTotal(fs: seq<Entry>, clients: seq<Id>): real {
    if clients == [] then 0.0
    else ClientsTotal(fs, clients[..|clients| - 1]) + ClientRevenue(fs, clients[|clients| - 1])
  }

  lemma {:induction false} ClientsTotalIsSum(fs: seq<Entry>, clients: seq<Id>)
    ensures ClientsTotal(fs, clients)
         == SumOverIds(fs, ClientKey, clients, OfKind(Revenue)) - SumOverIds(fs, ClientKey, clients, OfKind(Refund))
  {
    if clients != [] {
      var last := clients[|clients| - 1];
      ClientsTotalIsSum(fs, clients[..|clients| - 1]);
      SumDependsOnTest(fs, And(OfClient(last), OfKind(Revenue)), And(HasKey(ClientKey, last), OfKind(Revenue)));
      SumDependsOnTest(fs, And(OfClient(last), OfKind(Refund)), And(HasKey(ClientKey, last), OfKind(Refund)));
    }
  }

  /** Client revenues summed, plus what names no known client, are revenue less refunds. */
  lemma ClientsAddUp(fs: seq<Entry>, clients: seq<Id>)
    requires Distinct(clients)
    ensures var nobody := NamesNone(ClientKey, clients);
      FinanceStats(fs, None).revenue - FinanceStats(fs, None).refunds
        == ClientsTotal(fs, clients)
         + (SumIf(fs, And(nobody, OfKind(Revenue))) - SumIf(fs, And(nobody, OfKind(Refund))))
  {
    ClientsTotalIsSum(fs, clients);
    SumByIds(fs, ClientKey, clients, OfKind(Revenue));
    SumByIds(fs, ClientKey, clients, OfKind(Refund));
    AllIsNoScope(fs, OfKind(Revenue));
    AllIsNoScope(fs, OfKind(Refund));
  }

  // ---- the category chart ----

  function CategoryKey(f: Entry): Option<Id> {
    Some(f.category)
  }

  /** The sum of the revenue bars, one per listed category. */
  function CategoryBars(fs: seq<Entry>): real {
    SumOverIds(fs, CategoryKey, REVENUE_CATEGORIES, OfKind(Revenue))
  }

  /** Every ledger entry added by addFinance has a nonnegative amount. */
  ghost predicate NonNegative(fs: seq<Entry>) {
    forall i :: 0 <= i < |fs| ==> fs[i].amount >= 0.0
  }

  lemma {:induction false} SumIsZeroExactly(fs: seq<Entry>, p: Test)
    requires NonNegative(fs)
    ensures SumIf(fs, p) >= 0.0
    ensures SumIf(fs, p) == 0.0 <==> forall i :: 0 <= i < |fs| && p(fs[i]) ==> fs[i].amount == 0.0
  {
    if fs != [] {
      SumIsZeroExactly(fs[..|fs| - 1], p);
    }
  }

  /**
   * The four category bars never exceed revenue, and add up to it exactly when no positive revenue has another
   * category.
   */
  lemma CategoriesAddUpExactly(fs: seq<Entry>)
    requires NonNegative(fs)
    ensures CategoryBars(fs) <= FinanceStats(fs, None).revenue
    ensures CategoryBars(fs) == FinanceStats(fs, None).revenue <==>
        forall i :: 0 <= i < |fs| && fs[i].kind.Revenue? && fs[i].amount > 0.0 ==> fs[i].category in REVENUE_CATEGORIES
  {
    SumByIds(fs, CategoryKey, REVENUE_CATEGORIES, OfKind(Revenue));
    AllIsNoScope(fs, OfKind(Revenue));
    var other := And(NamesNone(CategoryKey, REVENUE_CATEGORIES), OfKind(Revenue));
    SumIsZeroExactly(fs, other);
    forall i | 0 <= i < |fs|
      ensures other(fs[i]) == (fs[i].kind.Revenue? && fs[i].category !in REVENUE_CATEGORIES)
    {
      assert CategoryKey(fs[i]) == Some(fs[i].category);
    }
  }

  // ---- the ring ----

  function AddAll(s: State, inputs: seq<Input>): State {
    if inputs == [] then s else AddFinance(AddAll(s, inputs[..|inputs| - 1]), inputs[|inputs| - 1])
  }

  function Entries(s: State, inputs: seq<Input>): seq<Entry> {
    seq(|inputs|, i requires 0 <= i < |inputs| => Normalise(s, inputs[i]))
  }

  lemma {:induction false} AddAllPushes(s: State, inputs: seq<Input>)
    ensures AddAll(s, inputs) == s.(finance := PushAll(LEDGER_CAP, s.finance, Entries(s, inputs)))
  {
    if inputs != [] {
      AddAllPushes(s, inputs[..|inputs| - 1]);
      assert Entries(s, inputs)[..|inputs| - 1] == Entries(s, inputs[..|inputs| - 1]);
    }
  }

  /** The ledger holds the last 400 entries ever added, every one with a nonnegative amount. */
  lemma LedgerHoldsLatest(s: State, inputs: seq<Input>)
    requires |s.finance| <= 400 && NonNegative(s.finance)
    ensures AddAll(s, inputs).finance == Last(400, s.finance + Entries(s, inputs))
    ensures NonNegative(AddAll(s, inputs).finance)
  {
    AddAllPushes(s, inputs);
    RingHoldsLast(LEDGER_CAP, s.finance, Entries(s, inputs));
    assert NonNegative(s.finance + Entries(s, inputs));
  }

  // ---- what one entry does to the figures ----

  /** What stays when one more entry comes in. */
  function Kept(fs: seq<Entry>): seq<Entry> {
    if |fs| < 400 then fs else fs[|fs| - 399..]
  }

  lemma SumWithLast(fs: seq<Entry>, e: Entry, p: Test)
    ensures SumIf(fs + [e], p) == SumIf(fs, p) + if p(e) then e.amount else 0.0
  {
    assert (fs + [e])[..|fs|] == fs;
  }

  lemma AddKeepsRest(s: State, i: Input)
    requires |s.finance| <= 400
    ensures AddFinance(s, i).finance == Kept(s.finance) + [Normalise(s, i)]
  {
  }

  /** The organization an entry is booked for: the one named, or else the first one. */
  function BookedFor(s: State, i: Input): Option<Id> {
    if i.org.Some? || s.orgs == [] then i.org else Some(s.orgs[0])
  }

  function Raise(on: bool, figure: real, amount: real): real {
    if on then figure + amount else figure
  }

  /**
   * One entry raises the figure of its kind, for its organization and for all of them, by its amount when that is
   * positive and by nothing otherwise; an entry of no known kind is revenue; refunds and expenses lower the profit.
   */
  lemma FiguresAfterEntry(s: State, i: Input, org: Option<Id>)
    requires |s.finance| <= 400
    ensures var (x, y) := (FinanceStats(Kept(s.finance), org), FinanceStats(AddFinance(s, i).finance, org));
      var amount := if i.amount <= 0.0 then 0.0 else i.amount;
      var counts := org.None? || BookedFor(s, i) == org;
      var earns := counts && i.kind != Some(Expense) && i.kind != Some(Refund);
      && y.revenue == Raise(earns, x.revenue, amount)
      && y.refunds == Raise(counts && i.kind == Some(Refund), x.refunds, amount)
      && y.expenses == Raise(counts && i.kind == Some(Expense), x.expenses, amount)
      && y.profit == x.profit + (if !counts then 0.0 else if earns then amount else -amount)
      && y.mrr == Raise(earns && i.recurring, x.mrr, amount)
      && y.oneTime == Raise(earns && !i.recurring, x.oneTime, amount)
  {
    var fs, e := Kept(s.finance), Normalise(s, i);
    AddKeepsRest(s, i);
    SumWithLast(fs, e, And(InOrg(org), OfKind(Revenue)));
    SumWithLast(fs, e, And(InOrg(org), OfKind(Refund)));
    SumWithLast(fs, e, And(InOrg(org), OfKind(Expense)));
    SumWithLast(fs, e, And(InOrg(org), And(OfKind(Revenue), Recurring(true))));
    SumWithLast(fs, e, And(InOrg(org), And(OfKind(Revenue), Recurring(false))));
  }

  /** For the client it names, an entry adds to what he brought in, or takes a refund away. */
  lemma ClientAfterEntry(s: State, i: Input, client: Id)
    requires |s.finance| <= 400
    ensures var amount := if i.amount <= 0.0 then 0.0 else i.amount;
      ClientRevenue(AddFinance(s, i).finance, client) == ClientRevenue(Kept(s.finance), client) +
        (if i.client != Some(client) || i.kind == Some(Expense) then 0.0
         else if i.kind == Some(Refund) then -amount else amount)
  {
    var fs, e := Kept(s.finance), Normalise(s, i);
    AddKeepsRest(s, i);
    SumWithLast(fs, e, And(OfClient(client), OfKind(Revenue)));
    SumWithLast(fs, e, And(OfClient(client), OfKind(Refund)));
  }

  /** An entry shows in the bar of its category; revenue without one shows as one-time. */
  lemma BarAfterEntry(s: State, i: Input, category: string)
    requires |s.finance| <= 400
    ensures var bar := And(HasKey(CategoryKey, category), OfKind(Revenue));
      var earns := i.kind != Some(Expense) && i.kind != Some(Refund);
      SumIf(AddFinance(s, i).finance, bar) == Raise(
        earns && (i.category == Some(category) || (i.category.None? && category == "one-time")),
        SumIf(Kept(s.finance), bar), if i.amount <= 0.0 then 0.0 else i.amount)
  {
    AddKeepsRest(s, i);
    var e := Normalise(s, i);
    assert CategoryKey(e) == Some(e.category);
    SumWithLast(Kept(s.finance), e, And(HasKey(CategoryKey, category), OfKind(Revenue)));
  }

  // ---- what the defaults of addFinance are good for ----

  /** Every entry names one of these ids. */
  ghost predicate NamesSome(fs: seq<Entry>, key: Key, ids: seq<Id>) {
    forall i :: 0 <= i < |fs| ==> key(fs[i]).Some? && key(fs[i]).value in ids
  }

  lemma {:induction false} SumOfNone(fs: seq<Entry>, p: Test)
    requires forall i :: 0 <= i < |fs| ==> !p(fs[i])
    ensures SumIf(fs, p) == 0.0
  {
    if fs != [] {
      SumOfNone(fs[..|fs| - 1], p);
    }
  }

  /**
   * Once there is an organization, entries go to the first one by default: as long as callers name known organizations
   * or none, the per-organization figures add up to the all-organizations figures with nothing left over.
   */
  lemma KnownOrganizationsCoverLedger(s: State, inputs: seq<Input>)
    requires |s.finance| <= LEDGER_CAP && s.orgs != [] && Distinct(s.orgs) && NamesSome(s.finance, OrgKey, s.orgs)
    requires forall i :: 0 <= i < |inputs| && inputs[i].org.Some? ==> inputs[i].org.value in s.orgs
    ensures FinanceStats(AddAll(s, inputs).finance, None) == StatsOverOrgs(AddAll(s, inputs).finance, s.orgs)
  {
    AddAllPushes(s, inputs);
    RingHoldsLast(LEDGER_CAP, s.finance, Entries(s, inputs));
    var fs := AddAll(s, inputs).finance;
    assert NamesSome(s.finance + Entries(s, inputs), OrgKey, s.orgs);
    OrganizationsAddUp(fs, s.orgs);
    NothingLeftOver(fs, s.orgs);
    AddNothing(StatsOverOrgs(fs, s.orgs));
  }

  const NoStats := Stats(0.0, 0.0, 0.0, 0.0, 0.0, 0.0)

  lemma AddNothing(st: Stats)
    ensures Plus(st, NoStats) == st
  {
  }

  lemma NothingLeftOver(fs: seq<Entry>, ids: seq<Id>)
    requires NamesSome(fs, OrgKey, ids)
    ensures StatsWhere(fs, NamesNone(OrgKey, ids)) == NoStats
  {
    var nobody := NamesNone(OrgKey, ids);
    SumOfNone(fs, And(nobody, OfKind(Revenue)));
    SumOfNone(fs, And(nobody, OfKind(Refund)));
    SumOfNone(fs, And(nobody, OfKind(Expense)));
    SumOfNone(fs, And(nobody, And(OfKind(Revenue), Recurring(true))));
    SumOfNone(fs, And(nobody, And(OfKind(Revenue), Recurring(false))));
  }

  ghost predicate CategoriesListed(fs: seq<Entry>) {
    forall i :: 0 <= i < |fs| && fs[i].kind.Revenue? ==> fs[i].category in REVENUE_CATEGORIES
  }

  /**
   * Revenue without a category counts as one-time: as long as callers name listed categories or none, the bars add up
   * to revenue.
   */
  lemma DefaultCategoryFillsBars(s: State, inputs: seq<Input>)
    requires |s.finance| <= LEDGER_CAP && NonNegative(s.finance) && CategoriesListed(s.finance)
    requires forall i :: 0 <= i < |inputs| && Normalise(s, inputs[i]).kind.Revenue? && inputs[i].category.Some? ==>
      inputs[i].category.value in REVENUE_CATEGORIES
    ensures CategoryBars(AddAll(s, inputs).finance) == FinanceStats(AddAll(s, inputs).finance, None).revenue
  {
    LedgerHoldsLatest(s, inputs);
    assert "one-time" == REVENUE_CATEGORIES[3];
    assert CategoriesListed(s.finance + Entries(s, inputs));
    CategoriesAddUpExactly(AddAll(s, inputs).finance);
  }

  // ---- importing simulated earnings ----

  predicate GhostLine(f: Entry) {
    f.simulated && f.note == GHOST_NOTE
  }

  predicate HasGhostLine(fs: seq<Entry>) {
    exists i :: 0 <= i < |fs| && GhostLine(fs[i])
  }

  function Earnings(org: Option<Id>, category: string, amount: real, note: string): Input {
    Input(org, Some(Revenue), Some(category), amount, false, true, None, note)
  }

  /** importSimEarnings: refused when the ghost line is there, and otherwise the number of lines it adds. */
  function Import(s: State, org: Option<Id>, ghostRev: real, cloneRev: real): (State, Option<nat>) {
    if HasGhostLine(s.finance) then (s, None)
    else
      var a := if ghostRev > 0.0 then AddFinance(s, Earnings(org, "product", ghostRev, GHOST_NOTE)) else s;
      var b := if cloneRev > 0.0 then AddFinance(a, Earnings(org, "service", cloneRev, CLONE_NOTE)) else a;
      (b, Some((if ghostRev > 0.0 then 1 else 0) + (if cloneRev > 0.0 then 1 else 0)))
  }

  /** The enterprise records the revenue center writes. */
  class RevenueCenter {
    var finance: seq<Entry>
    var orgs: seq<Id>

    function Model(): State
      reads this
    {
      State(finance, orgs)
    }

    constructor (orgs: seq<Id>)
      ensures Model() == State([], orgs)
    {
      finance, this.orgs := [], orgs;
    }

    method AddEntry(i: Input)
      modifies this`finance
      ensures Model() == AddFinance(old(Model()), i)
    {
      var f := Normalise(Model(), i);
      finance := finance + [f];
      if |finance| > LEDGER_CAP {
        finance := finance[1..];
      }
    }

    method ImportSimEarnings(org: Option<Id>, ghostRev: real, cloneRev: real) returns (n: Option<nat>)
      modifies this`finance
      ensures (Model(), n) == Import(old(Model()), org, ghostRev, cloneRev)
    {
      for i := 0 to |finance|
        invariant Model() == old(Model())
        invariant forall j :: 0 <= j < i ==> !GhostLine(finance[j])
      {
        if finance[i].simulated && finance[i].note == GHOST_NOTE {
          return None;
        }
      }
      var added := 0;
      if ghostRev > 0.0 {
        AddEntry(Earnings(org, "product", ghostRev, GHOST_NOTE));
        added := added + 1;
      }
      if cloneRev > 0.0 {
        AddEntry(Earnings(org, "service", cloneRev, CLONE_NOTE));
        added := added + 1;
      }
      return Some(added);
    }
  }

  /**
   * Importing twice adds nothing the second time exactly when there is ghost revenue, or no clone revenue, or a ghost
   * line already.
   */
  lemma SecondImportAddsNothingExactly(s: State, org: Option<Id>, ghostRev: real, cloneRev: real)
    requires |s.finance| <= LEDGER_CAP
    ensures var (t, _) := Import(s, org, ghostRev, cloneRev);
      var (_, n) := Import(t, org, ghostRev, cloneRev);
      (n.None? || n.value == 0) <==> HasGhostLine(s.finance) || ghostRev > 0.0 || cloneRev <= 0.0
  {
    if !HasGhostLine(s.finance) {
      var a := AddFinance(s, Earnings(org, "product", ghostRev, GHOST_NOTE));
      assert GhostLine(a.finance[|a.finance| - 1]);
      if ghostRev > 0.0 && cloneRev > 0.0 {
        var b := AddFinance(a, Earnings(org, "service", cloneRev, CLONE_NOTE));
        assert b.finance[|b.finance| - 2] == a.finance[|a.finance| - 1];
      }
      if ghostRev <= 0.0 && cloneRev > 0.0 {
        var b := AddFinance(s, Earnings(org, "service", cloneRev, CLONE_NOTE));
        var grown := s.finance + [Normalise(s, Earnings(org, "service", cloneRev, CLONE_NOTE))];
        forall i | 0 <= i < |b.finance| ensures !GhostLine(b.finance[i]) {
          assert b.finance[i] == grown[i] || b.finance[i] == grown[i + 1];
        }
      }
    }
  }

  /**
   * Simulated earnings are said never to be mixed with real bookkeeping, but they count in every figure: while the
   * ledger has room, an import raises revenue and profit by all there is to import, as one-time revenue.
   */
  lemma ImportCountsAsRevenue(s: State, org: Option<Id>, ghostRev: real, cloneRev: real)
    requires |s.finance| <= 398 && !HasGhostLine(s.finance)
    ensures var (t, n) := Import(s, org, ghostRev, cloneRev);
      var (x, y) := (FinanceStats(s.finance, None), FinanceStats(t.finance, None));
      var gain := (if ghostRev > 0.0 then ghostRev else 0.0) + (if cloneRev > 0.0 then cloneRev else 0.0);
      && n == Some(|t.finance| - |s.finance|)
      && y.revenue == x.revenue + gain && y.profit == x.profit + gain && y.oneTime == x.oneTime + gain
      && y.mrr == x.mrr && y.refunds == x.refunds && y.expenses == x.expenses
  {
    var g, c := Earnings(org, "product", ghostRev, GHOST_NOTE), Earnings(org, "service", cloneRev, CLONE_NOTE);
    var a := if ghostRev > 0.0 then AddFinance(s, g) else s;
    FiguresAfterEntry(s, g, None);
    FiguresAfterEntry(a, c, None);
  }

  // ---- an import repeated later ----

  /** The ghost line is among the last n entries of this list. */
  ghost predicate GhostAmongLast(fs: seq<Entry>, n: nat) {
    exists i :: 0 <= i < |fs| && |fs| - i <= n && GhostLine(fs[i])
  }

  lemma GhostSurvivesInRing(fs: seq<Entry>, n: nat)
    ensures HasGhostLine(Last(n, fs)) <==> GhostAmongLast(fs, n)
  {
    var kept := Last(n, fs);
    var cut := |fs| - |kept|;
    if HasGhostLine(kept) {
      var i :| 0 <= i < |kept| && GhostLine(kept[i]);
      assert GhostLine(fs[cut + i]);
    }
    if GhostAmongLast(fs, n) {
      var i :| 0 <= i < |fs| && |fs| - i <= n && GhostLine(fs[i]);
      assert kept[i - cut] == fs[i];
    }
  }

  /** What an import adds, in order. */
  function Imported(s: State, org: Option<Id>, ghostRev: real, cloneRev: real): seq<Input> {
    if HasGhostLine(s.finance) then []
    else
      (if ghostRev > 0.0 then [Earnings(org, "product", ghostRev, GHOST_NOTE)] else [])
      + (if cloneRev > 0.0 then [Earnings(org, "service", cloneRev, CLONE_NOTE)] else [])
  }

  lemma ImportAddsLines(s: State, org: Option<Id>, ghostRev: real, cloneRev: real)
    ensures Import(s, org, ghostRev, cloneRev).0 == AddAll(s, Imported(s, org, ghostRev, cloneRev))
  {
    var g, c := Earnings(org, "product", ghostRev, GHOST_NOTE), Earnings(org, "service", cloneRev, CLONE_NOTE);
    AddOne(s, g);
    AddOne(s, c);
    assert AddAll(s, [g, c]) == AddFinance(AddAll(s, [g]), c) by {
      assert [g, c][..1] == [g];
    }
  }

  lemma AddOne(s: State, i: Input)
    ensures AddAll(s, [i]) == AddFinance(s, i)
  {
    assert [i][..0] == [];
  }

  /**
   * Import, any further entries, import again: the second import adds nothing exactly when the ghost line is still
   * among the last 400 of all entries there ever were, or there is nothing positive to import any more.
   */
  lemma {:induction false} LaterImportAddsNothingExactly(
      s: State, org: Option<Id>, ghostRev: real, cloneRev: real, inputs: seq<Input>,
      org': Option<Id>, ghostRev': real, cloneRev': real)
    requires |s.finance| <= LEDGER_CAP
    ensures var first := Imported(s, org, ghostRev, cloneRev);
      var (_, n) := Import(AddAll(Import(s, org, ghostRev, cloneRev).0, inputs), org', ghostRev', cloneRev');
      (n.None? || n.value == 0) <==>
        GhostAmongLast(s.finance + Entries(s, first + inputs), LEDGER_CAP) || (ghostRev' <= 0.0 && cloneRev' <= 0.0)
  {
    var first := Imported(s, org, ghostRev, cloneRev);
    ImportAddsLines(s, org, ghostRev, cloneRev);
    AddAllJoins(s, first, inputs);
    AddAllPushes(s, first + inputs);
    RingHoldsLast(LEDGER_CAP, s.finance, Entries(s, first + inputs));
    GhostSurvivesInRing(s.finance + Entries(s, first + inputs), LEDGER_CAP);
  }

  lemma {:induction false} AddAllJoins(s: State, a: seq<Input>, b: seq<Input>)
    ensures AddAll(AddAll(s, a), b) == AddAll(s, a + b)
  {
    if b == [] {
      assert a + b == a;
    } else {
      AddAllJoins(s, a, b[..|b| - 1]);
      assert (a + b)[..|a + b| - 1] == a + b[..|b| - 1];
    }
  }

  /**
   * How long the guard lasts: after a first import with ghost revenue, and no other ghost line, a second import with
   * something to import adds nothing exactly while at most 399 entries came in between, or 398 when the first import
   * added the clone line behind the ghost line.
   */
  lemma {:induction false} GuardLastsExactly(
      s: State, org: Option<Id>, ghostRev: real, cloneRev: real, inputs: seq<Input>,
      org': Option<Id>, ghostRev': real, cloneRev': real)
    requires |s.finance| <= LEDGER_CAP && !HasGhostLine(s.finance) && ghostRev > 0.0
    requires forall i :: 0 <= i < |inputs| ==> !GhostLine(Normalise(s, inputs[i]))
    requires ghostRev' > 0.0 || cloneRev' > 0.0
    ensures var (_, n) := Import(AddAll(Import(s, org, ghostRev, cloneRev).0, inputs), org', ghostRev', cloneRev');
      (n.None? || n.value == 0) <==> |inputs| <= (if cloneRev > 0.0 then 398 else 399)
  {
    var first := Imported(s, org, ghostRev, cloneRev);
    var all := s.finance + Entries(s, first + inputs);
    LaterImportAddsNothingExactly(s, org, ghostRev, cloneRev, inputs, org', ghostRev', cloneRev');
    var g := |s.finance|;
    assert GhostLine(all[g]);
    forall i | 0 <= i < |all| && i != g ensures !GhostLine(all[i]) {
      if i < g {
        assert all[i] == s.finance[i];
      } else {
        assert all[i] == Normalise(s, (first + inputs)[i - g]);
      }
    }
  }

  // ---- the health score ----

  function Min(a: real, b: real): real {
    if a < b then a else b
  }

  function HealthPoints(
      st: Stats, active: nat, successRate: real, utilisation: real, wonRatio: real, evolution: real): real {
    (if st.profit > 0.0 then 25.0 else if st.revenue > 0.0 then 12.0 else 5.0)
    + Min(15.0, active as real * 5.0 + successRate / 10.0)
    + Round(utilisation * 20.0) as real + Round(wonRatio * 20.0) as real + Round(evolution / 5.0) as real
  }

  /**
   * With ratios in 0..1 and scores in 0..100, the health points lie in 5..100, so the cap at 100 never cuts any off.
   */
  lemma HealthCapNeverBinds(
      st: Stats, active: nat, successRate: real, utilisation: real, wonRatio: real, evolution: real)
    requires 0.0 <= successRate <= 100.0 && 0.0 <= utilisation <= 1.0 && 0.0 <= wonRatio <= 1.0
        && 0.0 <= evolution <= 100.0
    ensures 5.0 <= HealthPoints(st, active, successRate, utilisation, wonRatio, evolution) <= 100.0
    ensures Min(100.0, HealthPoints(st, active, successRate, utilisation, wonRatio, evolution))
         == HealthPoints(st, active, successRate, utilisation, wonRatio, evolution)
  {
  }

  /**
   * The points are full exactly when there is a profit, three missions' worth of activity, and at least 97.5 percent of
   * use, of won clients and of evolution; they are 5 exactly when there is next to nothing of any of these.
   */
  lemma HealthIsFullExactly(
      st: Stats, active: nat, successRate: real, utilisation: real, wonRatio: real, evolution: real)
    requires 0.0 <= successRate <= 100.0 && 0.0 <= utilisation <= 1.0 && 0.0 <= wonRatio <= 1.0
        && 0.0 <= evolution <= 100.0
    ensures HealthPoints(st, active, successRate, utilisation, wonRatio, evolution) == 100.0 <==>
        st.profit > 0.0 && active as real + successRate / 50.0 >= 3.0
        && utilisation >= 0.975 && wonRatio >= 0.975 && evolution >= 97.5
    ensures HealthPoints(st, active, successRate, utilisation, wonRatio, evolution) == 5.0 <==>
        st.profit <= 0.0 && st.revenue <= 0.0 && active == 0 && successRate == 0.0
        && utilisation < 0.025 && wonRatio < 0.025 && evolution < 2.5
  {
  }

  /** Revenue without profit is worth 7 points, and a profit 13 more. */
  lemma ProfitIsWorthTwenty(
      none: Stats, some: Stats, more: Stats, active: nat, rate: real, used: real, won: real, evolution: real)
    requires none.profit <= 0.0 && none.revenue <= 0.0 && some.profit <= 0.0 && some.revenue > 0.0 && more.profit > 0.0
    ensures HealthPoints(some, active, rate, used, won, evolution)
         == HealthPoints(none, active, rate, used, won, evolution) + 7.0
    ensures HealthPoints(more, active, rate, used, won, evolution)
         == HealthPoints(some, active, rate, used, won, evolution) + 13.0
  {
  }
}
