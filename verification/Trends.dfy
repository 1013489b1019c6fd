/** The seven-day chart of the engine and the week-on-week delta of the app read the same days. */
module Trends {
  import opened Performance

  type Daily = map<Day, Totals>

  datatype Field = Earnings | Leads | Tasks
  {
    function Of(t: Totals): int {
      match this
      case Earnings => t.earnings
      case Leads => t.leads
      case Tasks => t.tasks
    }
  }

  /** What was recorded i days before today; nothing when that day is not in the index. */
  function DaysAgo(daily: Daily, today: Day, i: nat): Totals {
    if i <= today && today - i in daily then daily[today - i] else Zero
  }

  /** The sum of a figure over the days from `to` up to, not including, `from` days ago. */
  function RangeSum(daily: Daily, today: Day, from: nat, to: nat, f: Field): int
    requires to <= from
    decreases from
  {
    if from == to then 0
    else RangeSum(daily, today, from - 1, to, f) + f.Of(DaysAgo(daily, today, from - 1))
  }

  function NetworkSum(clones: seq<Daily>, today: Day, from: nat, to: nat, f: Field): int
    requires to <= from
  {
    if clones == [] then 0
    else NetworkSum(clones[..|clones| - 1], today, from, to, f) + RangeSum(clones[|clones| - 1], today, from, to, f)
  }

  /** What all clones together recorded i days ago. */
  function NetworkDay(clones: seq<Daily>, today: Day, i: nat): Totals {
    if clones == [] then Zero
    else NetworkDay(clones[..|clones| - 1], today, i).Plus(DaysAgo(clones[|clones| - 1], today, i))
  }

  method WeeklySeries(daily: Daily, today: Day, days: nat) returns (out: seq<Totals>)
    ensures var n := if days == 0 then 7 else days;
      |out| == n && forall k :: 0 <= k < n ==> out[k] == DaysAgo(daily, today, n - 1 - k)
  {
    var n := if days == 0 then 7 else days;
    out := [];
    for i := n downto 0
      invariant |out| == n - i
      invariant forall k :: 0 <= k < |out| ==> out[k] == DaysAgo(daily, today, n - 1 - k)
    {
      out := out + [DaysAgo(daily, today, i)];
    }
  }

  /** Point k of a combined chart is what the network recorded 6 - k days ago. */
  ghost predicate IsChart(agg: seq<Totals>, clones: seq<Daily>, today: Day) {
    |agg| == 7 && forall k :: 0 <= k < 7 ==> agg[k] == NetworkDay(clones, today, 6 - k)
  }

  lemma FirstChart(s: seq<Totals>, clones: seq<Daily>, today: Day)
    requires |clones| == 1 && |s| == 7 && forall k :: 0 <= k < 7 ==> s[k] == DaysAgo(clones[0], today, 6 - k)
    ensures IsChart(s, clones, today)
  {
    forall k | 0 <= k < 7 ensures s[k] == NetworkDay(clones, today, 6 - k) {
      assert NetworkDay(clones[..0], today, 6 - k) == Zero;
    }
  }

  /** One more clone adds its own series to every point. */
  lemma ChartGrows(agg: seq<Totals>, s: seq<Totals>, sum: seq<Totals>, clones: seq<Daily>, today: Day)
    requires clones != [] && IsChart(agg, clones[..|clones| - 1], today)
    requires |s| == 7 && forall k :: 0 <= k < 7 ==> s[k] == DaysAgo(clones[|clones| - 1], today, 6 - k)
    requires |sum| == 7 && forall k :: 0 <= k < 7 ==> sum[k] == agg[k].Plus(s[k])
    ensures IsChart(sum, clones, today)
  {
  }

  method CombinedWeekly(clones: seq<Daily>, today: Day) returns (agg: seq<Totals>)
    ensures IsChart(agg, clones, today)
  {
    if clones == [] {
      agg := WeeklySeries(map[], today, 7);
      return;
    }
    agg := [];
    for c := 0 to |clones|
      invariant c > 0 ==> IsChart(agg, clones[..c], today)
    {
      assert clones[..c + 1][..c] == clones[..c];
      var s := WeeklySeries(clones[c], today, 7);
      if c == 0 {
        agg := s;
        FirstChart(agg, clones[..1], today);
      } else {
        var sum := AddSeries(agg, s);
        ChartGrows(agg, s, sum, clones[..c + 1], today);
        agg := sum;
      }
    }
    assert clones[..|clones|] == clones;
  }

  /** Adds the second series into the first, position by position. */
  method AddSeries(a: seq<Totals>, b: seq<Totals>) returns (r: seq<Totals>)
    requires |a| == |b|
    ensures |r| == |a| && forall k :: 0 <= k < |a| ==> r[k] == a[k].Plus(b[k])
  {
    r := a;
    for i := 0 to |a|
      invariant |r| == |a|
      invariant forall k :: 0 <= k < |a| ==> r[k] == if k < i then a[k].Plus(b[k]) else a[k]
    {
      r := r[i := r[i].Plus(b[i])];
    }
  }

  method SumRange(daily: Daily, today: Day, from: nat, to: nat, f: Field) returns (sum: int)
    requires to <= from
    ensures sum == RangeSum(daily, today, from, to, f)
  {
    sum := 0;
    for i := to to from
      invariant sum == RangeSum(daily, today, i, to, f)
    {
      if i <= today && today - i in daily {
        sum := sum + f.Of(daily[today - i]);
      }
    }
  }

  method NetworkDelta(clones: seq<Daily>, today: Day, f: Field) returns (cur: int, prev: int)
    ensures cur == NetworkSum(clones, today, 7, 0, f) && prev == NetworkSum(clones, today, 14, 7, f)
  {
    cur, prev := 0, 0;
    for c := 0 to |clones|
      invariant cur == NetworkSum(clones[..c], today, 7, 0, f)
      invariant prev == NetworkSum(clones[..c], today, 14, 7, f)
    {
      assert clones[..c + 1][..c] == clones[..c];
      var a := SumRange(clones[c], today, 7, 0, f);
      var b := SumRange(clones[c], today, 14, 7, f);
      cur, prev := cur + a, prev + b;
    }
    assert clones[..|clones|] == clones;
  }

  function ChartSum(agg: seq<Totals>, f: Field): int {
    if agg == [] then 0 else f.Of(agg[0]) + ChartSum(agg[1..], f)
  }

  lemma {:induction false} SumByDays(clones: seq<Daily>, today: Day, n: nat, f: Field)
    ensures NetworkSum(clones, today, n + 1, 0, f)
         == NetworkSum(clones, today, n, 0, f) + f.Of(NetworkDay(clones, today, n))
  {
    if clones != [] {
      SumByDays(clones[..|clones| - 1], today, n, f);
    }
  }

  lemma {:induction false} NothingInNoDays(clones: seq<Daily>, today: Day, f: Field)
    ensures NetworkSum(clones, today, 0, 0, f) == 0
  {
    if clones != [] {
      NothingInNoDays(clones[..|clones| - 1], today, f);
    }
  }

  lemma {:induction false} ChartTailSum(clones: seq<Daily>, today: Day, agg: seq<Totals>, f: Field)
    requires forall k :: 0 <= k < |agg| ==> agg[k] == NetworkDay(clones, today, |agg| - 1 - k)
    ensures ChartSum(agg, f) == NetworkSum(clones, today, |agg|, 0, f)
  {
    if agg == [] {
      NothingInNoDays(clones, today, f);
    } else {
      ChartTailSum(clones, today, agg[1..], f);
      SumByDays(clones, today, |agg| - 1, f);
    }
  }

  /** The points of the combined weekly chart add up to the current figure of the network delta. */
  lemma ChartMatchesDelta(clones: seq<Daily>, today: Day, agg: seq<Totals>, f: Field)
    requires IsChart(agg, clones, today)
    ensures ChartSum(agg, f) == NetworkSum(clones, today, 7, 0, f)
  {
    ChartTailSum(clones, today, agg, f);
  }

  lemma {:induction false} RangesJoin(daily: Daily, today: Day, from: nat, mid: nat, to: nat, f: Field)
    requires to <= mid <= from
    ensures RangeSum(daily, today, from, to, f)
         == RangeSum(daily, today, from, mid, f) + RangeSum(daily, today, mid, to, f)
    decreases from
  {
    if from > mid {
      RangesJoin(daily, today, from - 1, mid, to, f);
    }
  }

  /** The current and the previous week share no day and leave none out: together they are the last fourteen days. */
  lemma {:induction false} WeeksJoin(clones: seq<Daily>, today: Day, f: Field)
    ensures NetworkSum(clones, today, 14, 7, f) + NetworkSum(clones, today, 7, 0, f)
         == NetworkSum(clones, today, 14, 0, f)
  {
    if clones != [] {
      WeeksJoin(clones[..|clones| - 1], today, f);
      RangesJoin(clones[|clones| - 1], today, 14, 7, 0, f);
    }
  }
}
