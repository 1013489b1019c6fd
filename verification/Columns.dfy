/** The day columns of the broadcast queue: a grouping that neither loses nor reorders items. */
module Columns {
  import opened Sequences
  import opened Sorting

  datatype Group<T> = Group(day: string, items: seq<T>)

  function OnDay<T(!new)>(dayOf: T -> string, day: string): T -> bool {
    x => dayOf(x) == day
  }

  /** The days of the items, each where it first occurs. */
  function FirstSeen<T(!new)>(items: seq<T>, dayOf: T -> string): seq<string> {
    if items == [] then []
    else
      var days := FirstSeen(items[..|items| - 1], dayOf);
      var day := dayOf(items[|items| - 1]);
      if day in days then days else days + [day]
  }

  function ItemsOn<T(!new)>(items: seq<T>, dayOf: T -> string, day: string): seq<T> {
    Filter(items, OnDay(dayOf, day))
  }

  /** One group per day, in order of first occurrence; each group lists the items of its day in their order. */
  function Grouping<T(!new)>(items: seq<T>, dayOf: T -> string): seq<Group<T>> {
    GroupsFor(FirstSeen(items, dayOf), items, dayOf)
  }

  function GroupsFor<T(!new)>(days: seq<string>, items: seq<T>, dayOf: T -> string): seq<Group<T>> {
    seq(|days|, i requires 0 <= i < |days| => Group(days[i], ItemsOn(items, dayOf, days[i])))
  }

  lemma DistinctGrows(days: seq<string>, day: string)
    requires Distinct(days) && day !in days
    ensures Distinct(days + [day])
  {
  }

  lemma {:induction false} DaysAreDistinct<T(!new)>(items: seq<T>, dayOf: T -> string)
    ensures Distinct(FirstSeen(items, dayOf))
  {
    if items != [] {
      DaysAreDistinct(items[..|items| - 1], dayOf);
      var before, day := FirstSeen(items[..|items| - 1], dayOf), dayOf(items[|items| - 1]);
      if day !in before {
        DistinctGrows(before, day);
      }
    }
  }

  lemma {:induction false} EveryDayIsSeen<T(!new)>(items: seq<T>, dayOf: T -> string, i: nat)
    requires i < |items|
    ensures dayOf(items[i]) in FirstSeen(items, dayOf)
  {
    if i < |items| - 1 {
      EveryDayIsSeen(items[..|items| - 1], dayOf, i);
    }
  }

  lemma {:induction false} SeenDaysHaveItems<T(!new)>(items: seq<T>, dayOf: T -> string, day: string)
    ensures day in FirstSeen(items, dayOf) <==> ItemsOn(items, dayOf, day) != []
  {
    if items != [] {
      SeenDaysHaveItems(items[..|items| - 1], dayOf, day);
    }
  }

  // ---- the grouping loop ----

  /** byDay finds the group of each day already seen. */
  ghost predicate Indexes<T>(byDay: map<string, nat>, groups: seq<Group<T>>) {
    && (forall d :: d in byDay ==> byDay[d] < |groups| && groups[byDay[d]].day == d)
    && (forall i :: 0 <= i < |groups| ==> groups[i].day in byDay && byDay[groups[i].day] == i)
  }

  method QueueDayColumns<T(!new)>(items: seq<T>, dayOf: T -> string) returns (groups: seq<Group<T>>)
    ensures groups == Grouping(items, dayOf)
  {
    groups := [];
    var byDay: map<string, nat> := map[];
    for n := 0 to |items|
      invariant groups == Grouping(items[..n], dayOf) && Indexes(byDay, groups)
    {
      var day := dayOf(items[n]);
      assert items[..n + 1][..n] == items[..n];
      if day !in byDay {
        NewDay(items[..n + 1], dayOf, groups);
        byDay := byDay[day := |groups|];
        groups := groups + [Group(day, [])];
      } else {
        OldDay(items[..n + 1], dayOf, groups, byDay[day]);
      }
      var g := byDay[day];
      groups := groups[g := Group(day, groups[g].items + [items[n]])];
    }
    assert items[..|items|] == items;
  }

  lemma ItemsGrow<T(!new)>(items: seq<T>, dayOf: T -> string, day: string)
    requires items != []
    ensures var front, x := items[..|items| - 1], items[|items| - 1];
      ItemsOn(items, dayOf, day) == if dayOf(x) == day then ItemsOn(front, dayOf, day)
          + [x] else ItemsOn(front, dayOf, day)
  {
  }

  lemma OldDay<T(!new)>(items: seq<T>, dayOf: T -> string, groups: seq<Group<T>>, g: nat)
    requires items != [] && groups == Grouping(items[..|items| - 1], dayOf)
    requires g < |groups| && groups[g].day == dayOf(items[|items| - 1])
    ensures Grouping(items, dayOf) == groups[g := Group(groups[g].day, groups[g].items + [items[|items| - 1]])]
  {
    var front, x := items[..|items| - 1], items[|items| - 1];
    var days := FirstSeen(front, dayOf);
    DaysAreDistinct(front, dayOf);
    assert days[g] == dayOf(x) && dayOf(x) in days;
    assert forall i :: 0 <= i < |days| && i != g ==> days[i] != days[g];
    forall i | 0 <= i < |days|
      ensures ItemsOn(items, dayOf, days[i]) == if i == g then groups[g].items + [x] else groups[i].items
    {
      ItemsGrow(items, dayOf, days[i]);
    }
  }

  lemma OtherDaysKeepItems<T(!new)>(days: seq<string>, items: seq<T>, dayOf: T -> string)
    requires items != [] && dayOf(items[|items| - 1]) !in days
    ensures GroupsFor(days, items, dayOf) == GroupsFor(days, items[..|items| - 1], dayOf)
  {
    forall i | 0 <= i < |days| ensures ItemsOn(items, dayOf, days[i]) == ItemsOn(items[..|items| - 1], dayOf, days[i]) {
      ItemsGrow(items, dayOf, days[i]);
    }
  }

  lemma GroupsGrow<T(!new)>(days: seq<string>, day: string, items: seq<T>, dayOf: T -> string)
    ensures GroupsFor(days + [day], items, dayOf) == GroupsFor(days, items, dayOf)
        + [Group(day, ItemsOn(items, dayOf, day))]
  {
  }

  lemma NewDay<T(!new)>(items: seq<T>, dayOf: T -> string, groups: seq<Group<T>>)
    requires items != [] && groups == Grouping(items[..|items| - 1], dayOf)
    requires forall i :: 0 <= i < |groups| ==> groups[i].day != dayOf(items[|items| - 1])
    ensures Grouping(items, dayOf) == groups + [Group(dayOf(items[|items| - 1]), [items[|items| - 1]])]
  {
    var front, day := items[..|items| - 1], dayOf(items[|items| - 1]);
    var days := FirstSeen(front, dayOf);
    forall i | 0 <= i < |days| ensures days[i] != day {
      assert groups[i].day == days[i];
    }
    SeenDaysHaveItems(front, dayOf, day);
    ItemsGrow(items, dayOf, day);
    assert ItemsOn(items, dayOf, day) == [items[|items| - 1]];
    assert FirstSeen(items, dayOf) == days + [day];
    OtherDaysKeepItems(days, items, dayOf);
    GroupsGrow(days, day, items, dayOf);
  }

  // ---- nothing is lost ----

  function Flatten<T>(groups: seq<Group<T>>): seq<T> {
    if groups == [] then [] else Flatten(groups[..|groups| - 1]) + groups[|groups| - 1].items
  }

  lemma {:induction false} FilterCounts<T(!new)>(items: seq<T>, p: T -> bool, v: T)
    ensures multiset(Filter(items, p))[v] == if p(v) then multiset(items)[v] else 0
  {
    if items != [] {
      FilterCounts(items[..|items| - 1], p, v);
      assert items == items[..|items| - 1] + [items[|items| - 1]];
    }
  }

  lemma {:induction false} GroupsCount<T(!new)>(days: seq<string>, items: seq<T>, dayOf: T -> string, v: T)
    requires Distinct(days)
    ensures multiset(Flatten(GroupsFor(days, items, dayOf)))[v] == if dayOf(v) in days then multiset(items)[v] else 0
  {
    if days != [] {
      var front, last := days[..|days| - 1], days[|days| - 1];
      GroupsCount(front, items, dayOf, v);
      FilterCounts(items, OnDay(dayOf, last), v);
      assert GroupsFor(days, items, dayOf)[..|front|] == GroupsFor(front, items, dayOf);
      assert last !in front && days == front + [last];
    }
  }

  /** The columns together are exactly the items, each in the column of its day, and no column is empty. */
  lemma ColumnsLoseNothing<T(!new)>(items: seq<T>, dayOf: T -> string)
    ensures multiset(Flatten(Grouping(items, dayOf))) == multiset(items)
    ensures forall i :: 0 <= i < |Grouping(items, dayOf)| ==> Grouping(items, dayOf)[i].items != []
  {
    var days := FirstSeen(items, dayOf);
    DaysAreDistinct(items, dayOf);
    forall v: T ensures multiset(Flatten(Grouping(items, dayOf)))[v] == multiset(items)[v] {
      GroupsCount(days, items, dayOf, v);
      if v in items {
        var i :| 0 <= i < |items| && items[i] == v;
        EveryDayIsSeen(items, dayOf, i);
      }
    }
    forall i | 0 <= i < |days| ensures ItemsOn(items, dayOf, days[i]) != [] {
      SeenDaysHaveItems(items, dayOf, days[i]);
    }
  }
}
