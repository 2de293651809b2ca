/** Grouping items by local calendar day.  Times are milliseconds on the local
    clock, so a day is a whole number of days since the epoch. */
module DateGroups {
  import opened Options
  import opened StableSort

  const DAY_MS: int := 86_400_000

  function DayOf(time: int): int { time / DAY_MS }

  datatype DateGroup<T> = DateGroup(key: int, items: seq<T>)

  /** The comparator of the sort; a time is missing when the text does not parse. */
  function Compare(ta: Option<int>, tb: Option<int>, newestFirst: bool): int {
    if ta.None? && tb.None? then 0
    else if ta.None? then 1
    else if tb.None? then -1
    else if newestFirst then tb.value - ta.value
    else ta.value - tb.value
  }

  function TimeRank(t: Option<int>, newestFirst: bool): Rank {
    match t
    case None => Rank(1, 0)
    case Some(ms) => Rank(0, if newestFirst then -ms else ms)
  }

  lemma CompareComparesRanks(ta: Option<int>, tb: Option<int>, newestFirst: bool)
    ensures Compare(ta, tb, newestFirst) < 0 <==> Less(TimeRank(ta, newestFirst), TimeRank(tb, newestFirst))
    ensures Compare(ta, tb, newestFirst) == 0 <==> TimeRank(ta, newestFirst) == TimeRank(tb, newestFirst)
  {}

  function RankBy<T>(timeOf: T -> Option<int>, newestFirst: bool): T -> Rank {
    x => TimeRank(timeOf(x), newestFirst)
  }

  /** The items whose time parses. */
  function Dated<T>(items: seq<T>, timeOf: T -> Option<int>): seq<T> {
    if items == [] then []
    else Dated(items[..|items| - 1], timeOf) + if timeOf(items[|items| - 1]).Some? then [items[|items| - 1]] else []
  }

  /** The items of one day. */
  function OnDay<T>(items: seq<T>, timeOf: T -> Option<int>, day: int): seq<T> {
    if items == [] then []
    else
      OnDay(items[..|items| - 1], timeOf, day)
      + var t := timeOf(items[|items| - 1]); if t.Some? && DayOf(t.value) == day then [items[|items| - 1]] else []
  }

  predicate AllDated<T>(s: seq<T>, timeOf: T -> Option<int>) {
    forall i :: 0 <= i < |s| ==> timeOf(s[i]).Some?
  }

  /** Run-length grouping: an item joins the last group or opens a new one. */
  function Runs<T>(s: seq<T>, timeOf: T -> Option<int>): seq<DateGroup<T>>
    requires AllDated(s, timeOf)
  {
    if s == [] then []
    else AddToLast(Runs(s[..|s| - 1], timeOf), s[|s| - 1], DayOf(timeOf(s[|s| - 1]).value))
  }

  function AddToLast<T>(groups: seq<DateGroup<T>>, item: T, day: int): seq<DateGroup<T>> {
    var n := |groups|;
    if n > 0 && groups[n - 1].key == day then groups[n - 1 := DateGroup(day, groups[n - 1].items + [item])]
    else groups + [DateGroup(day, [item])]
  }

  /** Day `a` comes before day `b` in the chosen direction. */
  predicate Earlier(a: int, b: int, newestFirst: bool) {
    if newestFirst then a > b else a < b
  }

  ghost predicate KeysOrdered<T>(groups: seq<DateGroup<T>>, newestFirst: bool) {
    forall i, j :: 0 <= i < j < |groups| ==> Earlier(groups[i].key, groups[j].key, newestFirst)
  }

  lemma DaysFollowTimes(t: int, u: int)
    requires t <= u
    ensures DayOf(t) <= DayOf(u)
  {}

  /** Days follow each other every 86,400,000 milliseconds, from the epoch on. */
  lemma DayLength(day: int, t: int)
    ensures DayOf(t) == day <==> day * 86_400_000 <= t < (day + 1) * 86_400_000
  {}

  // ---- the sort and the missing times ----

  lemma {:induction false} DatedTies<T>(items: seq<T>, timeOf: T -> Option<int>, newestFirst: bool, r: Rank)
    ensures var rank := RankBy(timeOf, newestFirst);
      Ties(Dated(items, timeOf), r, rank) == if r.tier == 0 then Ties(items, r, rank) else []
  {
    if items == [] {
    } else {
      var front, x := items[..|items| - 1], items[|items| - 1];
      DatedTies(front, timeOf, newestFirst, r);
      var kept := Dated(front, timeOf);
      if timeOf(x).Some? {
        assert (kept + [x])[..|kept|] == kept;
      } else {
        assert Dated(items, timeOf) == kept;
      }
    }
  }

  lemma {:induction false} DatedMembers<T>(items: seq<T>, timeOf: T -> Option<int>)
    ensures AllDated(Dated(items, timeOf), timeOf)
  {
    if items == [] {
    } else {
      DatedMembers(items[..|items| - 1], timeOf);
    }
  }

  lemma {:induction false} DatedSorted<T>(items: seq<T>, timeOf: T -> Option<int>, newestFirst: bool)
    requires Sorted(items, RankBy(timeOf, newestFirst))
    ensures Sorted(Dated(items, timeOf), RankBy(timeOf, newestFirst))
    ensures items != [] ==> forall i :: 0 <= i < |Dated(items, timeOf)| ==>
      !Less(RankBy(timeOf, newestFirst)(items[|items| - 1]), RankBy(timeOf, newestFirst)(Dated(items, timeOf)[i]))
  {
    if items == [] {
    } else {
      var front, x := items[..|items| - 1], items[|items| - 1];
      var rank := RankBy(timeOf, newestFirst);
      DatedSorted(front, timeOf, newestFirst);
      if front != [] {
        assert !Less(rank(x), rank(items[|items| - 2]));
      }
    }
  }

  /** Skipping the undated items of the sorted list is sorting the dated ones. */
  lemma SkipSorted<T>(items: seq<T>, timeOf: T -> Option<int>, newestFirst: bool)
    ensures var rank := RankBy(timeOf, newestFirst);
      Dated(Sort(items, rank), timeOf) == Sort(Dated(items, timeOf), rank)
  {
    var rank := RankBy(timeOf, newestFirst);
    var a, b := Dated(Sort(items, rank), timeOf), Sort(Dated(items, timeOf), rank);
    SortSorted(items, rank);
    DatedSorted(Sort(items, rank), timeOf, newestFirst);
    SortSorted(Dated(items, timeOf), rank);
    forall r ensures Ties(a, r, rank) == Ties(b, r, rank) {
      DatedTies(Sort(items, rank), timeOf, newestFirst, r);
      SortStable(items, r, rank);
      DatedTies(items, timeOf, newestFirst, r);
      SortStable(Dated(items, timeOf), r, rank);
    }
    StableSortUnique(a, b, rank);
  }

  // ---- what run-length grouping gives ----

  function Flatten<T>(groups: seq<DateGroup<T>>): seq<T> {
    if groups == [] then [] else Flatten(groups[..|groups| - 1]) + groups[|groups| - 1].items
  }

  /** The groups put together are the list. */
  lemma {:induction false} FlattenRuns<T>(s: seq<T>, timeOf: T -> Option<int>)
    requires AllDated(s, timeOf)
    ensures Flatten(Runs(s, timeOf)) == s
  {
    if s == [] {
    } else {
      var front, x := s[..|s| - 1], s[|s| - 1];
      FlattenRuns(front, timeOf);
      FlattenNext(Runs(front, timeOf), front, x, DayOf(timeOf(x).value), s);
    }
  }

  lemma FlattenNext<T>(groups: seq<DateGroup<T>>, front: seq<T>, x: T, day: int, s: seq<T>)
    requires Flatten(groups) == front && s != [] && front == s[..|s| - 1] && x == s[|s| - 1]
    ensures Flatten(AddToLast(groups, x, day)) == s
  {}

  /** On a sorted list the days of the groups are distinct and in order, the
      last one being the day of the last item. */
  lemma {:induction false} RunsOrdered<T>(s: seq<T>, timeOf: T -> Option<int>, newestFirst: bool)
    requires AllDated(s, timeOf)
    requires Sorted(s, RankBy(timeOf, newestFirst))
    ensures var groups := Runs(s, timeOf);
      && KeysOrdered(groups, newestFirst)
      && (groups == [] <==> s == [])
      && (s != [] ==> groups[|groups| - 1].key == DayOf(timeOf(s[|s| - 1]).value))
  {
    if s == [] {
    } else {
      var front, x := s[..|s| - 1], s[|s| - 1];
      RunsOrdered(front, timeOf, newestFirst);
      if front != [] {
        var rank := RankBy(timeOf, newestFirst);
        var y := front[|front| - 1];
        assert s[|s| - 2] == y;
        assert !Less(rank(x), rank(y));
        var tx, ty := timeOf(x).value, timeOf(y).value;
        if newestFirst { DaysFollowTimes(tx, ty); } else { DaysFollowTimes(ty, tx); }
        var groups := Runs(front, timeOf);
        assert groups[|groups| - 1].key == DayOf(ty);
      }
    }
  }

  /** Every group is all the items of its day, in the order of the list. */
  lemma {:induction false} RunsAreDays<T>(s: seq<T>, timeOf: T -> Option<int>, newestFirst: bool, day: int)
    requires AllDated(s, timeOf) && Sorted(s, RankBy(timeOf, newestFirst))
    ensures ItemsFor(Runs(s, timeOf), day) == OnDay(s, timeOf, day)
  {
    if s == [] {
    } else {
      var front, x := s[..|s| - 1], s[|s| - 1];
      RunsAreDays(front, timeOf, newestFirst, day);
      RunsOrdered(front, timeOf, newestFirst);
      RunsOrdered(s, timeOf, newestFirst);
      AddedItems(Runs(front, timeOf), x, DayOf(timeOf(x).value), newestFirst, day);
    }
  }

  /** The items of the group of a day, if there is one. */
  function ItemsFor<T>(groups: seq<DateGroup<T>>, day: int): seq<T> {
    if groups == [] then []
    else if groups[|groups| - 1].key == day then groups[|groups| - 1].items
    else ItemsFor(groups[..|groups| - 1], day)
  }

  lemma AddedItems<T>(groups: seq<DateGroup<T>>, item: T, key: int, newestFirst: bool, day: int)
    requires KeysOrdered(AddToLast(groups, item, key), newestFirst)
    ensures ItemsFor(AddToLast(groups, item, key), day) == ItemsFor(groups, day) + if key == day then [item] else []
  {
    var added := AddToLast(groups, item, key);
    var n := |added| - 1;
    assert added[..n] == if |added| == |groups| then groups[..|groups| - 1] else groups;
    if |added| != |groups| && key == day {
      assert forall g :: 0 <= g < |groups| ==>
        added[g] == groups[g] && Earlier(added[g].key, added[n].key, newestFirst);
      NoGroup(groups, day);
    }
  }

  lemma {:induction false} NoGroup<T>(groups: seq<DateGroup<T>>, day: int)
    requires forall g :: 0 <= g < |groups| ==> groups[g].key != day
    ensures ItemsFor(groups, day) == []
  {
    if groups == [] {
    } else {
      NoGroup(groups[..|groups| - 1], day);
    }
  }

  lemma {:induction false} ItemsForGroup<T>(groups: seq<DateGroup<T>>, newestFirst: bool, g: nat)
    requires KeysOrdered(groups, newestFirst) && g < |groups|
    ensures ItemsFor(groups, groups[g].key) == groups[g].items
  {
    var n := |groups| - 1;
    if g >= n {
    } else {
      assert Earlier(groups[g].key, groups[n].key, newestFirst);
      ItemsForGroup(groups[..n], newestFirst, g);
    }
  }

  // ---- the loop ----

  /** The map knows exactly the days that have a group, and where it is. */
  ghost predicate Indexed<T>(groups: seq<DateGroup<T>>, indexByKey: map<int, nat>) {
    && (forall g :: 0 <= g < |groups| ==> groups[g].key in indexByKey)
    && (forall k :: k in indexByKey ==> indexByKey[k] < |groups| && groups[indexByKey[k]].key == k)
  }

  lemma IndexedAfter<T>(groups: seq<DateGroup<T>>, indexByKey: map<int, nat>, item: T, key: int)
    requires Indexed(groups, indexByKey)
    requires forall g :: 0 <= g < |groups| && groups[g].key == key ==> g == |groups| - 1
    ensures var added := AddToLast(groups, item, key);
      if key !in indexByKey then
        added == groups + [DateGroup(key, [item])] && Indexed(added, indexByKey[key := |groups|])
      else
        var g := indexByKey[key];
        added == groups[g := DateGroup(key, groups[g].items + [item])] && Indexed(added, indexByKey)
  {}

  /** `groupByLocalDate`: a sort, then one pass over the sorted items with a map
      from days to positions in `groups`. */
  method GroupByLocalDate<T>(items: seq<T>, timeOf: T -> Option<int>, newestFirst: bool)
      returns (groups: seq<DateGroup<T>>)
    ensures var sorted := Sort(Dated(items, timeOf), RankBy(timeOf, newestFirst));
      AllDated(sorted, timeOf) && groups == Runs(sorted, timeOf)
  {
    var sorted := Sort(items, RankBy(timeOf, newestFirst));
    var indexByKey: map<int, nat> := map[];
    groups := [];
    SortSorted(items, RankBy(timeOf, newestFirst));
    assert Dated(sorted[..0], timeOf) == [];
    for n := 0 to |sorted|
      invariant AllDated(Dated(sorted[..n], timeOf), timeOf)
      invariant groups == Runs(Dated(sorted[..n], timeOf), timeOf)
      invariant Indexed(groups, indexByKey)
    {
      var item := sorted[n];
      var time := timeOf(item);
      DatedMembers(sorted[..n + 1], timeOf);
      NextDated(sorted, n, timeOf, newestFirst);
      if time.Some? {
        var key := DayOf(time.value);
        IndexedAfter(groups, indexByKey, item, key);
        if key !in indexByKey {
          indexByKey := indexByKey[key := |groups|];
          groups := groups + [DateGroup(key, [item])];
        } else {
          var existing := indexByKey[key];
          groups := groups[existing := DateGroup(key, groups[existing].items + [item])];
        }
      }
    }
    assert sorted[..|sorted|] == sorted;
    SkipSorted(items, timeOf, newestFirst);
  }

  lemma NextDated<T>(sorted: seq<T>, n: nat, timeOf: T -> Option<int>, newestFirst: bool)
    requires n < |sorted| && Sorted(sorted, RankBy(timeOf, newestFirst))
    requires AllDated(Dated(sorted[..n], timeOf), timeOf) && AllDated(Dated(sorted[..n + 1], timeOf), timeOf)
    ensures var groups := Runs(Dated(sorted[..n], timeOf), timeOf);
      Runs(Dated(sorted[..n + 1], timeOf), timeOf) ==
        if timeOf(sorted[n]).None? then groups else AddToLast(groups, sorted[n], DayOf(timeOf(sorted[n]).value))
    ensures var groups := Runs(Dated(sorted[..n], timeOf), timeOf);
      timeOf(sorted[n]).Some? ==>
        forall g :: 0 <= g < |groups| && groups[g].key == DayOf(timeOf(sorted[n]).value) ==> g == |groups| - 1
  {
    var dated, item := Dated(sorted[..n], timeOf), sorted[n];
    assert sorted[..n + 1][..n] == sorted[..n];
    if timeOf(item).Some? {
      assert Dated(sorted[..n + 1], timeOf) == dated + [item];
      assert (dated + [item])[..|dated|] == dated;
      SortedPrefix(sorted, n + 1, timeOf, newestFirst);
      LastGroupOnly(dated, item, timeOf, newestFirst);
    } else {
      assert Dated(sorted[..n + 1], timeOf) == dated;
    }
  }

  lemma SortedPrefix<T>(sorted: seq<T>, n: nat, timeOf: T -> Option<int>, newestFirst: bool)
    requires n <= |sorted| && Sorted(sorted, RankBy(timeOf, newestFirst))
    ensures Sorted(Dated(sorted[..n], timeOf), RankBy(timeOf, newestFirst))
  {
    DatedSorted(sorted[..n], timeOf, newestFirst);
  }

  /** The only group that the next item can join is the last one. */
  lemma LastGroupOnly<T>(s: seq<T>, item: T, timeOf: T -> Option<int>, newestFirst: bool)
    requires timeOf(item).Some? && AllDated(s, timeOf)
    requires Sorted(s + [item], RankBy(timeOf, newestFirst))
    ensures var groups := Runs(s, timeOf);
      forall g :: 0 <= g < |groups| && groups[g].key == DayOf(timeOf(item).value) ==> g == |groups| - 1
  {
    var all := s + [item];
    assert all[..|s|] == s;
    RunsOrdered(all, timeOf, newestFirst);
    var before, after := Runs(s, timeOf), Runs(all, timeOf);
    assert forall g :: 0 <= g < |before| - 1 ==> after[g].key == before[g].key;
    forall g | 0 <= g < |after| - 1 ensures after[g].key != after[|after| - 1].key {
      assert Earlier(after[g].key, after[|after| - 1].key, newestFirst);
    }
  }

  /** What the groups are, for every list: put together, the stable sort of the
      dated items; one group per day, the days in order; and in each group all
      the items of its day. */
  lemma GroupsAreDays<T>(items: seq<T>, timeOf: T -> Option<int>, newestFirst: bool)
    ensures var sorted := Sort(Dated(items, timeOf), RankBy(timeOf, newestFirst));
      && AllDated(sorted, timeOf)
      && var groups := Runs(sorted, timeOf);
         && Flatten(groups) == sorted
         && KeysOrdered(groups, newestFirst)
         && (forall g :: 0 <= g < |groups| ==> groups[g].items == OnDay(sorted, timeOf, groups[g].key) != [])
  {
    var rank := RankBy(timeOf, newestFirst);
    var sorted := Sort(Dated(items, timeOf), rank);
    DatedMembers(Sort(items, rank), timeOf);
    SkipSorted(items, timeOf, newestFirst);
    SortSorted(Dated(items, timeOf), rank);
    FlattenRuns(sorted, timeOf);
    RunsOrdered(sorted, timeOf, newestFirst);
    RunsNotEmpty(sorted, timeOf);
    var groups := Runs(sorted, timeOf);
    forall g | 0 <= g < |groups| ensures groups[g].items == OnDay(sorted, timeOf, groups[g].key) {
      RunsAreDays(sorted, timeOf, newestFirst, groups[g].key);
      ItemsForGroup(groups, newestFirst, g);
    }
  }

  lemma {:induction false} RunsNotEmpty<T>(s: seq<T>, timeOf: T -> Option<int>)
    requires AllDated(s, timeOf)
    ensures forall g :: 0 <= g < |Runs(s, timeOf)| ==> Runs(s, timeOf)[g].items != []
  {
    if s == [] {
    } else {
      RunsNotEmpty(s[..|s| - 1], timeOf);
    }
  }

  /** In the order of the groups the times only fall (or rise, oldest first), and
      items of one time keep the order in which they were given. */
  lemma GroupsFollowTime<T>(items: seq<T>, timeOf: T -> Option<int>, newestFirst: bool, i: nat, j: nat)
    requires i < j < |Sort(Dated(items, timeOf), RankBy(timeOf, newestFirst))|
    ensures var sorted := Sort(Dated(items, timeOf), RankBy(timeOf, newestFirst));
      && AllDated(sorted, timeOf)
      && var a, b := timeOf(sorted[i]).value, timeOf(sorted[j]).value;
         && (if newestFirst then a >= b else a <= b)
         && (a == b ==> Precedes(Dated(items, timeOf), sorted[i], sorted[j]))
  {
    var rank := RankBy(timeOf, newestFirst);
    DatedMembers(Sort(items, rank), timeOf);
    SkipSorted(items, timeOf, newestFirst);
    SortOrder(Dated(items, timeOf), rank);
  }
}
