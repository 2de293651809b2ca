/** The platform's stable array sort, as in `[...items].sort((a, b) => ...)`.
    Three places of the client depend on it: trimming the query cache, grouping
    by date and listing overdue borrowers.  Each of their comparators compares a
    rank of its two arguments, so the sort is stated over ranks; the client
    modules show that the sign of the comparator agrees with the rank. */
module StableSort {

  /** Ranks are compared by `tier`, then by `value`. */
  datatype Rank = Rank(tier: int, value: int)

  predicate Less(a: Rank, b: Rank) {
    a.tier < b.tier || (a.tier == b.tier && a.value < b.value)
  }

  ghost predicate Sorted<T>(s: seq<T>, rank: T -> Rank) {
    forall i, j :: 0 <= i < j < |s| ==> !Less(rank(s[j]), rank(s[i]))
  }

  /** The elements whose rank is `r`, in the order they stand in `s`. */
  function Ties<T>(s: seq<T>, r: Rank, rank: T -> Rank): seq<T> {
    if s == [] then []
    else Ties(s[..|s| - 1], r, rank) + if rank(s[|s| - 1]) == r then [s[|s| - 1]] else []
  }

  /** Puts `x` behind every element that does not rank above it. */
  function Insert<T>(s: seq<T>, x: T, rank: T -> Rank): seq<T> {
    if s == [] || !Less(rank(x), rank(s[|s| - 1])) then s + [x]
    else Insert(s[..|s| - 1], x, rank) + [s[|s| - 1]]
  }

  function Sort<T>(s: seq<T>, rank: T -> Rank): seq<T> {
    if s == [] then [] else Insert(Sort(s[..|s| - 1], rank), s[|s| - 1], rank)
  }

  lemma {:induction false} InsertContents<T>(s: seq<T>, x: T, rank: T -> Rank)
    ensures |Insert(s, x, rank)| == |s| + 1
    ensures multiset(Insert(s, x, rank)) == multiset(s) + multiset{x}
  {
    if s == [] || !Less(rank(x), rank(s[|s| - 1])) {
    } else {
      InsertContents(s[..|s| - 1], x, rank);
      assert s == s[..|s| - 1] + [s[|s| - 1]];
    }
  }

  /** Sorting keeps every element as often as it occurs. */
  lemma {:induction false} SortContents<T>(s: seq<T>, rank: T -> Rank)
    ensures |Sort(s, rank)| == |s|
    ensures multiset(Sort(s, rank)) == multiset(s)
  {
    if s == [] {
    } else {
      SortContents(s[..|s| - 1], rank);
      InsertContents(Sort(s[..|s| - 1], rank), s[|s| - 1], rank);
      assert s == s[..|s| - 1] + [s[|s| - 1]];
    }
  }

  lemma InsertMember<T>(s: seq<T>, x: T, rank: T -> Rank, y: T)
    ensures y in Insert(s, x, rank) <==> y in s || y == x
  {}

  lemma SortMember<T>(s: seq<T>, rank: T -> Rank, y: T)
    ensures y in Sort(s, rank) <==> y in s
  {
    SortContents(s, rank);
    assert y in Sort(s, rank) <==> y in multiset(Sort(s, rank));
    assert y in s <==> y in multiset(s);
  }

  lemma {:induction false} InsertSorted<T>(s: seq<T>, x: T, rank: T -> Rank)
    requires Sorted(s, rank)
    ensures Sorted(Insert(s, x, rank), rank)
  {
    if s == [] || !Less(rank(x), rank(s[|s| - 1])) {
    } else {
      var front, last := s[..|s| - 1], s[|s| - 1];
      InsertSorted(front, x, rank);
      forall y | y in Insert(front, x, rank) ensures !Less(rank(last), rank(y)) {
        InsertMember(front, x, rank, y);
        if y != x {
          var i :| 0 <= i < |front| && front[i] == y;
          assert s[i] == y && s[|s| - 1] == last;
        }
      }
    }
  }

  lemma {:induction false} SortSorted<T>(s: seq<T>, rank: T -> Rank)
    ensures Sorted(Sort(s, rank), rank)
  {
    if s == [] {
    } else {
      SortSorted(s[..|s| - 1], rank);
      InsertSorted(Sort(s[..|s| - 1], rank), s[|s| - 1], rank);
    }
  }

  lemma {:induction false} InsertTies<T>(s: seq<T>, x: T, r: Rank, rank: T -> Rank)
    requires Sorted(s, rank)
    ensures Ties(Insert(s, x, rank), r, rank) == Ties(s, r, rank) + if rank(x) == r then [x] else []
  {
    if s == [] || !Less(rank(x), rank(s[|s| - 1])) {
      assert (s + [x])[..|s|] == s;
    } else {
      var front, last := s[..|s| - 1], s[|s| - 1];
      InsertTies(front, x, r, rank);
      assert (Insert(front, x, rank) + [last])[..|Insert(front, x, rank)|] == Insert(front, x, rank);
    }
  }

  /** Stability: elements of equal rank keep their order. */
  lemma {:induction false} SortStable<T>(s: seq<T>, r: Rank, rank: T -> Rank)
    ensures Ties(Sort(s, rank), r, rank) == Ties(s, r, rank)
  {
    if s == [] {
    } else {
      SortStable(s[..|s| - 1], r, rank);
      SortSorted(s[..|s| - 1], rank);
      InsertTies(Sort(s[..|s| - 1], rank), s[|s| - 1], r, rank);
    }
  }

  lemma {:induction false} TiesMembers<T>(s: seq<T>, r: Rank, rank: T -> Rank)
    ensures forall y :: y in Ties(s, r, rank) <==> y in s && rank(y) == r
  {
    if s == [] {
    } else {
      TiesMembers(s[..|s| - 1], r, rank);
      assert s == s[..|s| - 1] + [s[|s| - 1]];
    }
  }

  lemma {:induction false} SortedLast<T>(s: seq<T>, t: seq<T>, rank: T -> Rank)
    requires s != [] && Sorted(s, rank) && Sorted(t, rank)
    requires forall r :: Ties(s, r, rank) == Ties(t, r, rank)
    ensures t != [] && s[|s| - 1] == t[|t| - 1]
  {
    var a := s[|s| - 1];
    var r := rank(a);
    assert Ties(s, r, rank) == Ties(t, r, rank);
    TiesMembers(s, r, rank);
    TiesMembers(t, r, rank);
    assert a in t;
    var b := t[|t| - 1];
    TiesMembers(s, rank(b), rank);
    TiesMembers(t, rank(b), rank);
    assert Ties(s, rank(b), rank) == Ties(t, rank(b), rank);
    assert b in s;
    assert rank(b) == r;
    assert Ties(s, r, rank)[|Ties(s, r, rank)| - 1] == a;
    assert Ties(t, r, rank)[|Ties(t, r, rank)| - 1] == b;
  }

  /** A sorted list is determined by its ties, so `Sort` is the only stable sort. */
  lemma {:induction false} StableSortUnique<T>(s: seq<T>, t: seq<T>, rank: T -> Rank)
    requires Sorted(s, rank) && Sorted(t, rank)
    requires forall r :: Ties(s, r, rank) == Ties(t, r, rank)
    ensures s == t
  {
    if s == [] {
      if t != [] {
        SortedLast(t, s, rank);
      }
    } else {
      SortedLast(s, t, rank);
      var front, back := s[..|s| - 1], t[..|t| - 1];
      forall r: Rank {:trigger Ties(front, r, rank)} ensures Ties(front, r, rank) == Ties(back, r, rank) {
        assert Ties(s, r, rank) == Ties(t, r, rank);
        var rest := if rank(s[|s| - 1]) == r then [s[|s| - 1]] else [];
        assert (Ties(front, r, rank) + rest)[..|Ties(front, r, rank)|] == Ties(front, r, rank);
        assert (Ties(back, r, rank) + rest)[..|Ties(back, r, rank)|] == Ties(back, r, rank);
      }
      StableSortUnique(front, back, rank);
      assert s == front + [s[|s| - 1]] && t == back + [t[|t| - 1]];
    }
  }

  /** `a` stands somewhere before `b` in `s`. */
  ghost predicate Precedes<T>(s: seq<T>, a: T, b: T) {
    exists p, q :: 0 <= p < q < |s| && s[p] == a && s[q] == b
  }

  ghost predicate StableOrder<T>(s: seq<T>, t: seq<T>, rank: T -> Rank) {
    forall i, j :: 0 <= i < j < |t| ==>
      Less(rank(t[i]), rank(t[j])) || (rank(t[i]) == rank(t[j]) && Precedes(s, t[i], t[j]))
  }

  /** Of two elements of the sorted list the earlier one ranks lower, or ties and
      was already the earlier one. */
  lemma {:induction false} SortOrder<T>(s: seq<T>, rank: T -> Rank)
    ensures StableOrder(s, Sort(s, rank), rank)
  {
    if s == [] {
    } else {
      var front, x := s[..|s| - 1], s[|s| - 1];
      SortOrder(front, rank);
      SortSorted(front, rank);
      forall a, b | Precedes(front, a, b) ensures Precedes(s, a, b) {
        var p, q :| 0 <= p < q < |front| && front[p] == a && front[q] == b;
        assert s[p] == a && s[q] == b;
      }
      forall a | a in front ensures Precedes(s, a, x) {
        var p :| 0 <= p < |front| && front[p] == a;
        assert s[p] == a;
      }
      var t := Sort(front, rank);
      forall a | a in t ensures Precedes(s, a, x) {
        SortMember(front, rank, a);
      }
      InsertOrder(s, t, x, rank);
    }
  }

  lemma {:induction false} InsertOrder<T>(s: seq<T>, t: seq<T>, x: T, rank: T -> Rank)
    requires Sorted(t, rank) && StableOrder(s, t, rank)
    requires forall a :: a in t ==> Precedes(s, a, x)
    ensures StableOrder(s, Insert(t, x, rank), rank)
  {
    if t == [] || !Less(rank(x), rank(t[|t| - 1])) {
      forall i | 0 <= i < |t| ensures !Less(rank(x), rank(t[i])) && Precedes(s, t[i], x) {
        assert t[i] in t;
        assert i == |t| - 1 || !Less(rank(t[|t| - 1]), rank(t[i]));
      }
    } else {
      var front, last := t[..|t| - 1], t[|t| - 1];
      InsertOrder(s, front, x, rank);
      InsertContents(front, x, rank);
      var u := Insert(front, x, rank);
      forall i | 0 <= i < |u|
        ensures Less(rank(u[i]), rank(last)) || (rank(u[i]) == rank(last) && Precedes(s, u[i], last))
      {
        InsertMember(front, x, rank, u[i]);
        if u[i] != x {
          var h :| 0 <= h < |front| && front[h] == u[i];
          assert t[h] == u[i];
        }
      }
    }
  }
}
