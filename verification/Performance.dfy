/** A clone's performance ledger: a daily index trimmed to 30 days beside lifetime totals. */
module Performance {
  import opened Sequences

  const DAYS_KEPT := 30

  /** Days counted in calendar order; the source's ISO date strings sort the same way. */
  type Day = nat

  datatype Totals = Totals(earnings: int, leads: int, tasks: int)
  {
    function Plus(t: Totals): Totals {
      Totals(earnings + t.earnings, leads + t.leads, tasks + t.tasks)
    }
  }

  const Zero := Totals(0, 0, 0)

  datatype Entry = Entry(day: Day, earnings: int, leads: int)
  {
    function Amount(): Totals {
      Totals(earnings, leads, 1)
    }
  }

  datatype Ledger = Ledger(daily: map<Day, Totals>, lifetime: Totals)

  function At(daily: map<Day, Totals>, d: Day): Totals {
    if d in daily then daily[d] else Zero
  }

  /** The days of `days` later than d. */
  function Later(days: set<Day>, d: Day): set<Day> {
    set x | x in days && d < x
  }

  /** The 30 latest of these days. */
  function Latest(days: set<Day>): set<Day> {
    set d | d in days && |Later(days, d)| < DAYS_KEPT
  }

  function Trim(daily: map<Day, Totals>): map<Day, Totals> {
    map d | d in Latest(daily.Keys) :: daily[d]
  }

  function Record(l: Ledger, e: Entry): Ledger {
    Ledger(Trim(l.daily[e.day := At(l.daily, e.day).Plus(e.Amount())]), l.lifetime.Plus(e.Amount()))
  }

  function RecordAll(es: seq<Entry>): Ledger {
    if es == [] then Ledger(map[], Zero)
    else Record(RecordAll(es[..|es| - 1]), es[|es| - 1])
  }

  // ---- the unbounded history ----

  function DaysOf(es: seq<Entry>): set<Day> {
    set i | 0 <= i < |es| :: es[i].day
  }

  type DayTest = Day -> bool

  function PlusIf(b: bool, t: Totals, x: Totals): Totals {
    if b then t.Plus(x) else t
  }

  /** The totals of the entries whose day passes the test. */
  function SumWhere(es: seq<Entry>, p: DayTest): Totals {
    if es == [] then Zero
    else
      var e := es[|es| - 1];
      PlusIf(p(e.day), SumWhere(es[..|es| - 1], p), e.Amount())
  }

  function OnDay(d: Day): DayTest {
    x => x == d
  }

  function AnyDay(): DayTest {
    x => true
  }

  function Within(days: set<Day>): DayTest {
    d => d in days
  }

  function DayTotal(es: seq<Entry>, d: Day): Totals {
    SumWhere(es, OnDay(d))
  }

  // ---- the latest days ----

  /** Adding days never brings a day back among the latest. */
  lemma LaterGrows(days: set<Day>, more: set<Day>, d: Day)
    requires days <= more
    ensures |Later(days, d)| <= |Later(more, d)|
  {
    SubsetSize(Later(days, d), Later(more, d));
  }

  /** The earliest day of a nonempty set. */
  lemma {:induction false} Earliest(days: set<Day>) returns (m: Day)
    requires days != {}
    ensures m in days && forall d :: d in days ==> m <= d
  {
    var first :| first in days;
    m := first;
    if days - {first} != {} {
      var rest := Earliest(days - {first});
      if rest < first {
        m := rest;
      }
    }
    assert forall d :: d in days ==> d == first || d in days - {first};
  }

  /** A day that is not among the latest has 30 later days that are. */
  lemma {:induction false} LaterAmongLatest(days: set<Day>, d: Day)
    requires |Later(days, d)| >= 30
    ensures |Later(Latest(days), d)| >= 30
    decreases |Later(days, d)|
  {
    var m := Earliest(Later(days, d));
    assert Later(days, m) == Later(days, d) - {m};
    if |Later(days, m)| >= DAYS_KEPT {
      LaterAmongLatest(days, m);
      SubsetSize(Later(Latest(days), m), Later(Latest(days), d));
    } else {
      assert forall x :: x in Later(days, d) ==> Later(days, x) <= Later(days, m);
      forall x | x in Later(days, d) ensures x in Latest(days) {
        SubsetSize(Later(days, x), Later(days, m));
      }
      assert Later(Latest(days), d) == Later(days, d);
    }
  }

  /** Trimming to the latest days and adding one more keeps the latest of all days. */
  lemma LatestIsCumulative(days: set<Day>, d: Day)
    ensures Latest(Latest(days) + {d}) == Latest(days + {d})
  {
    var kept, all := Latest(days) + {d}, days + {d};
    forall x ensures x in Latest(kept) <==> x in Latest(all) {
      LaterGrows(kept, all, x);
      if x in Latest(kept) && |Later(all, x)| >= DAYS_KEPT {
        LaterAmongLatest(all, x);
        forall y | y in Latest(all) ensures y in kept {
          if y in days { LaterGrows(days, all, y); }
        }
        SubsetSize(Later(Latest(all), x), Later(kept, x));
      }
      if x in Latest(all) && x in days {
        LaterGrows(days, all, x);
      }
    }
  }

  lemma {:induction false} DayTotalOfOthers(es: seq<Entry>, p: DayTest)
    requires forall i :: 0 <= i < |es| ==> !p(es[i].day)
    ensures SumWhere(es, p) == Zero
  {
    if es != [] {
      DayTotalOfOthers(es[..|es| - 1], p);
    }
  }

  lemma DayTotalOfLast(es: seq<Entry>, d: Day)
    requires es != []
    ensures var e := es[|es| - 1];
      var before := DayTotal(es[..|es| - 1], d);
      DayTotal(es, d) == if e.day == d then before.Plus(e.Amount()) else before
  {
  }

  lemma DaysOfLast(es: seq<Entry>)
    requires es != []
    ensures DaysOf(es) == DaysOf(es[..|es| - 1]) + {es[|es| - 1].day}
  {
    var front, last := es[..|es| - 1], es[|es| - 1];
    forall d | d in DaysOf(es) ensures d in DaysOf(front) + {last.day} {
      var i :| 0 <= i < |es| && es[i].day == d;
      if i < |front| { assert front[i].day == d; }
    }
    forall d | d in DaysOf(front) ensures d in DaysOf(es) {
      var i :| 0 <= i < |front| && front[i].day == d;
      assert es[i].day == d;
    }
    assert es[|es| - 1].day in DaysOf(es);
  }

  /**
   * For any order of dates, the daily index holds exactly the 30 latest days ever recorded, each with the total of
   * all its entries: a day pushed out, once recorded again, is pushed out again at once.
   */
  lemma {:induction false} DailyIsLatestDays(es: seq<Entry>)
    ensures RecordAll(es).daily == map d | d in Latest(DaysOf(es)) :: DayTotal(es, d)
  {
    if es != [] {
      var front, last := es[..|es| - 1], es[|es| - 1];
      DailyIsLatestDays(front);
      DaysOfLast(es);
      LatestIsCumulative(DaysOf(front), last.day);
      var was := RecordAll(front).daily;
      var raw := was[last.day := At(was, last.day).Plus(last.Amount())];
      assert raw.Keys == Latest(DaysOf(front)) + {last.day};
      forall d | d in Latest(DaysOf(es)) ensures raw[d] == DayTotal(es, d) {
        if d in DaysOf(front) {
          LaterGrows(DaysOf(front), DaysOf(es), d);
        } else {
          DayTotalOfOthers(front, OnDay(d));
        }
        DayTotalOfLast(es, d);
      }
    }
  }

  lemma {:induction false} LifetimeIsSum(es: seq<Entry>)
    ensures RecordAll(es).lifetime == SumWhere(es, AnyDay())
  {
    if es != [] {
      LifetimeIsSum(es[..|es| - 1]);
    }
  }

  function SumOf(es: seq<Entry>, f: Entry -> int): int {
    if es == [] then 0 else SumOf(es[..|es| - 1], f) + f(es[|es| - 1])
  }

  /** Lifetime totals are the earnings summed, the leads summed, and one task per outcome. */
  lemma {:induction false} LifetimeCountsOutcomes(es: seq<Entry>)
    ensures RecordAll(es).lifetime
         == Totals(SumOf(es, (e: Entry) => e.earnings), SumOf(es, (e: Entry) => e.leads), |es|)
  {
    if es != [] {
      LifetimeCountsOutcomes(es[..|es| - 1]);
    }
  }

  /** And so is each day of the index, over the outcomes of that day. */
  lemma {:induction false} DayCountsOutcomes(es: seq<Entry>, d: Day)
    ensures DayTotal(es, d) == Totals(
      SumOf(es, (e: Entry) => if e.day == d then e.earnings else 0),
      SumOf(es, (e: Entry) => if e.day == d then e.leads else 0),
      SumOf(es, (e: Entry) => if e.day == d then 1 else 0))
  {
    if es != [] {
      DayCountsOutcomes(es[..|es| - 1], d);
      DayTotalOfLast(es, d);
    }
  }

  /** Of the days of these entries, those that pass p are those that pass q or r, and none passes both. */
  ghost predicate Splits(es: seq<Entry>, p: DayTest, q: DayTest, r: DayTest) {
    forall e :: e in es ==> p(e.day) == (q(e.day) || r(e.day)) && !(q(e.day) && r(e.day))
  }

  /** The split at one more day, as plain totals. */
  lemma SplitGrows(t: Totals, u: Totals, v: Totals, x: Totals, inQ: bool, inR: bool)
    requires t == u.Plus(v) && !(inQ && inR)
    ensures PlusIf(inQ || inR, t, x) == PlusIf(inQ, u, x).Plus(PlusIf(inR, v, x))
  {
  }

  /** A sum splits along any split of the days. */
  lemma {:induction false} SumSplits(es: seq<Entry>, p: DayTest, q: DayTest, r: DayTest)
    requires Splits(es, p, q, r)
    ensures SumWhere(es, p) == SumWhere(es, q).Plus(SumWhere(es, r))
  {
    if es != [] {
      var front, e := es[..|es| - 1], es[|es| - 1];
      SumSplits(front, p, q, r);
      SplitGrows(SumWhere(front, p), SumWhere(front, q), SumWhere(front, r), e.Amount(), q(e.day), r(e.day));
    }
  }

  /** The sum of a daily index over some of its days. */
  ghost function SumDays(daily: map<Day, Totals>, days: set<Day>): Totals
    requires days <= daily.Keys
  {
    if days == {} then Zero
    else
      var d :| d in days;
      SumDays(daily, days - {d}).Plus(daily[d])
  }

  lemma {:induction false} DailySumsEntries(es: seq<Entry>, daily: map<Day, Totals>, days: set<Day>)
    requires days <= daily.Keys && forall d :: d in days ==> daily[d] == DayTotal(es, d)
    ensures SumDays(daily, days) == SumWhere(es, Within(days))
  {
    if days == {} {
      DayTotalOfOthers(es, Within(days));
    } else {
      var d :| d in days && SumDays(daily, days) == SumDays(daily, days - {d}).Plus(daily[d]);
      DailySumsEntries(es, daily, days - {d});
      SumSplits(es, Within(days), Within(days - {d}), OnDay(d));
    }
  }

  /** What a daily index accounts for: the retained days summed plus the entries of the days pushed out. */
  ghost function RetainedPlusEvicted(daily: map<Day, Totals>, es: seq<Entry>): Totals {
    SumDays(daily, daily.Keys).Plus(SumWhere(es, Within(DaysOf(es) - daily.Keys)))
  }

  lemma RecordedLifetimeSplits(es: seq<Entry>)
    ensures RecordAll(es).lifetime == RetainedPlusEvicted(RecordAll(es).daily, es)
  {
    var l := RecordAll(es);
    DailyIsLatestDays(es);
    LifetimeIsSum(es);
    forall e | e in es ensures e.day in DaysOf(es) {
      var i :| 0 <= i < |es| && es[i] == e;
    }
    SumSplits(es, AnyDay(), Within(l.daily.Keys), Within(DaysOf(es) - l.daily.Keys));
    DailySumsEntries(es, l.daily, l.daily.Keys);
  }

  // ---- everything that writes the lifetime totals ----

  /** An outcome, a task credited to a collaboration partner, or leads routed in by an outer shell. */
  datatype Booking = Outcome(e: Entry) | PartnerTask | RoutedLeads(leads: nat)

  predicate IsCredit(b: Booking) {
    b.PartnerTask? || (b.RoutedLeads? && b.leads > 0)
  }

  function Book(l: Ledger, b: Booking): Ledger {
    match b
    case Outcome(e) => Record(l, e)
    case PartnerTask => l.(lifetime := l.lifetime.(tasks := l.lifetime.tasks + 1))
    case RoutedLeads(n) => l.(lifetime := l.lifetime.(leads := l.lifetime.leads + n))
  }

  function BookAll(bs: seq<Booking>): Ledger {
    if bs == [] then Ledger(map[], Zero)
    else Book(BookAll(bs[..|bs| - 1]), bs[|bs| - 1])
  }

  function Outcomes(bs: seq<Booking>): seq<Entry> {
    if bs == [] then []
    else
      var b := bs[|bs| - 1];
      Outcomes(bs[..|bs| - 1]) + if b.Outcome? then [b.e] else []
  }

  function Credits(bs: seq<Booking>): Totals {
    if bs == [] then Zero
    else
      var c := Credits(bs[..|bs| - 1]);
      match bs[|bs| - 1]
      case Outcome(_) => c
      case PartnerTask => c.(tasks := c.tasks + 1)
      case RoutedLeads(n) => c.(leads := c.leads + n)
  }

  /** Ledgers with the same index that are a credit apart. */
  ghost predicate Apart(l: Ledger, m: Ledger, c: Totals) {
    l.daily == m.daily && l.lifetime == m.lifetime.Plus(c)
  }

  lemma RecordKeepsApart(l: Ledger, m: Ledger, c: Totals, e: Entry)
    requires Apart(l, m, c)
    ensures Apart(Record(l, e), Record(m, e), c)
  {
  }

  lemma OutcomesOfLast(bs: seq<Booking>)
    requires bs != []
    ensures var (front, b) := (bs[..|bs| - 1], bs[|bs| - 1]);
      if b.Outcome? then RecordAll(Outcomes(bs)) == Record(RecordAll(Outcomes(front)), b.e)
      else Outcomes(bs) == Outcomes(front)
  {
    var front, b := bs[..|bs| - 1], bs[|bs| - 1];
    if b.Outcome? {
      assert Outcomes(bs) == Outcomes(front) + [b.e];
      assert Outcomes(bs)[..|Outcomes(bs)| - 1] == Outcomes(front);
    }
  }

  lemma {:induction false} BookingsSplit(bs: seq<Booking>)
    ensures Apart(BookAll(bs), RecordAll(Outcomes(bs)), Credits(bs))
  {
    if bs != [] {
      var front, b := bs[..|bs| - 1], bs[|bs| - 1];
      BookingsSplit(front);
      OutcomesOfLast(bs);
      if b.Outcome? {
        RecordKeepsApart(BookAll(front), RecordAll(Outcomes(front)), Credits(front), b.e);
      }
    }
  }

  lemma ApartFromAccount(l: Ledger, m: Ledger, c: Totals, es: seq<Entry>)
    requires Apart(l, m, c) && m.lifetime == RetainedPlusEvicted(m.daily, es)
    ensures l.lifetime == RetainedPlusEvicted(l.daily, es).Plus(c)
  {
  }

  /** The ledger after these bookings accounts for its lifetime totals up to this credit. */
  ghost predicate AccountsUpTo(l: Ledger, es: seq<Entry>, c: Totals) {
    l.lifetime == RetainedPlusEvicted(l.daily, es).Plus(c)
  }

  /**
   * Lifetime totals are the retained days plus the outcomes of the days pushed out plus what was credited outside the
   * index, which never carries earnings.
   */
  lemma {:induction false} LifetimeIsRetainedPlusEvictedPlusCredits(bs: seq<Booking>)
    ensures AccountsUpTo(BookAll(bs), Outcomes(bs), Credits(bs))
    ensures Credits(bs).earnings == 0
  {
    BookingsSplit(bs);
    var es := Outcomes(bs);
    var m := RecordAll(es);
    RecordedLifetimeSplits(es);
    ApartFromAccount(BookAll(bs), m, Credits(bs), es);
    CreditsGrow(bs);
  }

  /** Lifetime earnings are always the retained days plus the outcomes of the days pushed out. */
  lemma {:induction false} EarningsAlwaysAgree(bs: seq<Booking>)
    ensures BookAll(bs).lifetime.earnings == RetainedPlusEvicted(BookAll(bs).daily, Outcomes(bs)).earnings
  {
    LifetimeIsRetainedPlusEvictedPlusCredits(bs);
  }

  predicate CreditFree(bs: seq<Booking>) {
    forall b :: b in bs ==> !IsCredit(b)
  }

  lemma {:induction false} CreditFreeOfLast(bs: seq<Booking>)
    requires bs != []
    ensures CreditFree(bs) <==> CreditFree(bs[..|bs| - 1]) && !IsCredit(bs[|bs| - 1])
  {
    var front, last := bs[..|bs| - 1], bs[|bs| - 1];
    assert bs == front + [last];
  }

  lemma {:induction false} CreditsGrow(bs: seq<Booking>)
    ensures Credits(bs).earnings == 0 && Credits(bs).leads >= 0 && Credits(bs).tasks >= 0
    ensures Credits(bs) == Zero <==> CreditFree(bs)
  {
    if bs != [] {
      CreditsGrow(bs[..|bs| - 1]);
      CreditFreeOfLast(bs);
    }
  }

  lemma PlusNothing(x: Totals, y: Totals, c: Totals)
    requires x == y.Plus(c)
    ensures x == y <==> c == Zero
  {
  }

  /** All three figures agree with the index exactly when nothing was ever credited to a partner or routed in. */
  lemma {:induction false} IndexAccountsForLifetimeExactly(bs: seq<Booking>)
    ensures BookAll(bs).lifetime == RetainedPlusEvicted(BookAll(bs).daily, Outcomes(bs)) <==> CreditFree(bs)
  {
    LifetimeIsRetainedPlusEvictedPlusCredits(bs);
    PlusNothing(BookAll(bs).lifetime, RetainedPlusEvicted(BookAll(bs).daily, Outcomes(bs)), Credits(bs));
    CreditsGrow(bs);
  }

  /** A fresh clone that is credited once as a partner has one lifetime task and an empty index. */
  lemma PartnerTaskIsNotDaily()
    ensures BookAll([PartnerTask]) == Ledger(map[], Totals(0, 0, 1)) && !CreditFree([PartnerTask])
  {
    var bs := [PartnerTask];
    assert bs[..0] == [] && bs[0] == PartnerTask;
    assert PartnerTask in bs && IsCredit(PartnerTask);
  }

  // ---- the running ledger ----

  /** The mutable part of a clone that bookings write. */
  class CloneLedger {
    var daily: map<Day, Totals>
    var lifetime: Totals

    function Model(): Ledger
      reads this
    {
      Ledger(daily, lifetime)
    }

    constructor ()
      ensures Model() == BookAll([])
    {
      daily, lifetime := map[], Zero;
    }

    method RecordOutcome(day: Day, earnings: int, leads: int)
      modifies this
      ensures Model() == Book(old(Model()), Outcome(Entry(day, earnings, leads)))
    {
      if day !in daily {
        daily := daily[day := Zero];
      }
      var t := daily[day];
      daily := daily[day := Totals(t.earnings + earnings, t.leads + leads, t.tasks + 1)];
      lifetime := Totals(lifetime.earnings + earnings, lifetime.leads + leads, lifetime.tasks + 1);
      ghost var e := Entry(day, earnings, leads);
      assert daily == old(daily)[day := At(old(daily), day).Plus(e.Amount())];
      TrimDays();
    }

    /** Deletes the oldest days beyond 30. */
    method TrimDays()
      modifies this`daily
      ensures daily == Trim(old(daily))
    {
      while |daily| > DAYS_KEPT
        invariant Trim(daily) == Trim(old(daily))
        decreases |daily|
      {
        var oldest := FirstDay(daily.Keys);
        DroppingEarliestKeepsTrim(daily, oldest);
        daily := daily - {oldest};
      }
      SmallIsAllLatest(daily);
    }

    /** rateTask credits the collaboration partner of a task that is rated for the first time. */
    method CreditPartner()
      modifies this
      ensures Model() == Book(old(Model()), PartnerTask)
    {
      lifetime := lifetime.(tasks := lifetime.tasks + 1);
    }

    /** An outer shell routes leads to the clone; none are booked when there are none. */
    method RouteLeads(leads: nat)
      modifies this
      ensures Model() == Book(old(Model()), RoutedLeads(leads))
    {
      if leads > 0 {
        lifetime := lifetime.(leads := lifetime.leads + leads);
      }
    }

    /** The first of the sorted keys. */
    static method FirstDay(days: set<Day>) returns (m: Day)
      requires days != {}
      ensures m in days && forall d :: d in days ==> m <= d
    {
      m :| m in days;
      var todo := days - {m};
      while todo != {}
        invariant m in days && todo <= days
        invariant forall d :: d in days ==> d in todo || m <= d
      {
        var d :| d in todo;
        if d < m {
          m := d;
        }
        todo := todo - {d};
      }
    }
  }

  lemma DroppingEarliestKeepsTrim(daily: map<Day, Totals>, m: Day)
    requires m in daily && (forall d :: d in daily ==> m <= d) && |daily| > DAYS_KEPT
    ensures Trim(daily - {m}) == Trim(daily)
  {
    var days := daily.Keys;
    assert (daily - {m}).Keys == days - {m};
    assert Later(days, m) == days - {m};
    forall d | d in days && d != m ensures Later(days - {m}, d) == Later(days, d) {
    }
  }

  lemma SmallIsAllLatest(daily: map<Day, Totals>)
    requires |daily| <= DAYS_KEPT
    ensures Trim(daily) == daily
  {
    forall d | d in daily ensures d in Latest(daily.Keys) {
      SubsetSize(Later(daily.Keys, d), daily.Keys - {d});
    }
  }
}
