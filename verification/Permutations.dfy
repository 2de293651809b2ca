/** Sums over a list do not depend on its order. */
module Permutations {

  function Total<T>(s: seq<T>, f: T -> int): int {
    if s == [] then 0 else Total(s[1..], f) + f(s[0])
  }

  lemma {:induction false} TotalConcat<T>(s: seq<T>, t: seq<T>, f: T -> int)
    ensures Total(s + t, f) == Total(s, f) + Total(t, f)
  {
    if s == [] {
      assert s + t == t;
    } else {
      assert (s + t)[1..] == s[1..] + t;
      TotalConcat(s[1..], t, f);
    }
  }

  lemma MultisetRemoveAt<T>(s: seq<T>, i: nat)
    requires i < |s|
    ensures multiset(s[..i] + s[i + 1..]) == multiset(s) - multiset{s[i]}
  {
    assert s == s[..i] + [s[i]] + s[i + 1..];
  }

  lemma {:induction false} TotalRemoveAt<T>(s: seq<T>, i: nat, f: T -> int)
    requires i < |s|
    ensures Total(s, f) == Total(s[..i] + s[i + 1..], f) + f(s[i])
  {
    if i == 0 {
      assert s[..0] + s[1..] == s[1..];
    } else {
      var rest := s[..i] + s[i + 1..];
      TotalRemoveAt(s[1..], i - 1, f);
      assert rest[1..] == s[1..][..i - 1] + s[1..][i..];
    }
  }

  lemma {:induction false} TotalPermuted<T>(s: seq<T>, t: seq<T>, f: T -> int)
    requires multiset(s) == multiset(t)
    ensures Total(s, f) == Total(t, f)
  {
    if s == [] {
      assert |multiset(t)| == 0;
    } else {
      assert s[0] in multiset(t);
      var i :| 0 <= i < |t| && t[i] == s[0];
      MultisetRemoveAt(t, i);
      TotalRemoveAt(t, i, f);
      assert s == [s[0]] + s[1..];
      assert multiset(s[1..]) == multiset(s) - multiset{s[0]};
      TotalPermuted(s[1..], t[..i] + t[i + 1..], f);
    }
  }

  lemma SameMembers<T>(s: seq<T>, t: seq<T>, x: T)
    requires multiset(s) == multiset(t)
    ensures x in s <==> x in t
  {
    assert x in s <==> x in multiset(s);
    assert x in t <==> x in multiset(t);
  }

  /** The positions at which `p` holds. */
  ghost function Where<T>(s: seq<T>, p: T -> bool): set<nat> {
    set i: nat | i < |s| && p(s[i])
  }

  /** Adding one for each element with `p` counts those positions. */
  lemma {:induction false} TotalCounts<T>(s: seq<T>, f: T -> int, p: T -> bool)
    requires forall x :: x in s ==> f(x) == if p(x) then 1 else 0
    ensures Total(s, f) == |Where(s, p)|
  {
    if s == [] {
      assert Where(s, p) == {};
    } else {
      var n := |s| - 1;
      assert s == s[..n] + [s[n]];
      TotalCounts(s[..n], f, p);
      TotalConcat(s[..n], [s[n]], f);
      assert Total([s[n]], f) == Total([s[n]][1..], f) + f(s[n]);
      if p(s[n]) {
        assert Where(s, p) == Where(s[..n], p) + {n};
      } else {
        assert Where(s, p) == Where(s[..n], p);
      }
    }
  }
}
