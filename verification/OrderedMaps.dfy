/** A JavaScript Map keyed by strings: it remembers the order in which keys
    were first set, and setting a key that is present keeps its place. */
module OrderedMaps {
  import opened StableSort

  datatype OrderedMap<V> = OrderedMap(order: seq<string>, entries: map<string, V>)

  predicate NoDup<T(==)>(s: seq<T>) {
    forall i, j :: 0 <= i < j < |s| ==> s[i] != s[j]
  }

  ghost predicate ValidMap<V>(m: OrderedMap<V>) {
    && NoDup(m.order)
    && (forall k :: k in m.order <==> k in m.entries)
  }

  function Put<V>(m: OrderedMap<V>, key: string, value: V): OrderedMap<V> {
    OrderedMap(if key in m.entries then m.order else m.order + [key], m.entries[key := value])
  }

  /** The keys of `order` outside `gone`, in their order. */
  function Without(order: seq<string>, gone: set<string>): seq<string> {
    if order == [] then []
    else if order[0] in gone then Without(order[1..], gone)
    else [order[0]] + Without(order[1..], gone)
  }

  function Delete<V>(m: OrderedMap<V>, gone: set<string>): OrderedMap<V> {
    OrderedMap(Without(m.order, gone), m.entries - gone)
  }

  lemma PutValid<V>(m: OrderedMap<V>, key: string, value: V)
    requires ValidMap(m)
    ensures ValidMap(Put(m, key, value))
  {}

  lemma {:induction false} WithoutMembers(order: seq<string>, gone: set<string>)
    ensures forall k :: k in Without(order, gone) <==> k in order && k !in gone
  {
    if order == [] {
    } else {
      WithoutMembers(order[1..], gone);
      assert order == [order[0]] + order[1..];
    }
  }

  lemma {:induction false} WithoutNoDup(order: seq<string>, gone: set<string>)
    requires NoDup(order)
    ensures NoDup(Without(order, gone))
  {
    if order == [] {
    } else {
      WithoutNoDup(order[1..], gone);
      WithoutMembers(order[1..], gone);
      assert forall k :: k in order[1..] ==> k != order[0];
    }
  }

  lemma {:induction false} WithoutKeepsOrder(order: seq<string>, gone: set<string>, a: string, b: string)
    requires Precedes(Without(order, gone), a, b)
    ensures Precedes(order, a, b)
  {
    if order == [] {
    } else {
      var rest := order[1..];
      var all, kept := Without(order, gone), Without(rest, gone);
      WithoutMembers(rest, gone);
      var p, q :| 0 <= p < q < |all| && all[p] == a && all[q] == b;
      if order[0] !in gone && p == 0 {
        assert b == kept[q - 1] && b in rest;
        var j :| 0 <= j < |rest| && rest[j] == b;
        assert order[j + 1] == b;
      } else {
        var d := if order[0] in gone then 0 else 1;
        assert kept[p - d] == a && kept[q - d] == b;
        WithoutKeepsOrder(rest, gone, a, b);
        var i, j :| 0 <= i < j < |rest| && rest[i] == a && rest[j] == b;
        assert order[i + 1] == a && order[j + 1] == b;
      }
    }
  }

  lemma WithoutOrder(order: seq<string>, gone: set<string>)
    requires NoDup(order)
    ensures NoDup(Without(order, gone))
    ensures forall a, b :: Precedes(Without(order, gone), a, b) ==> Precedes(order, a, b)
  {
    WithoutNoDup(order, gone);
    forall a, b | Precedes(Without(order, gone), a, b) ensures Precedes(order, a, b) {
      WithoutKeepsOrder(order, gone, a, b);
    }
  }

  lemma DeleteValid<V>(m: OrderedMap<V>, gone: set<string>)
    requires ValidMap(m)
    ensures ValidMap(Delete(m, gone))
  {
    WithoutMembers(m.order, gone);
    WithoutOrder(m.order, gone);
  }

  lemma {:induction false} NoDupSize<T>(s: seq<T>)
    requires NoDup(s)
    ensures |set x | x in s| == |s|
  {
    if s == [] {
    } else {
      NoDupSize(s[1..]);
      assert (set x | x in s) == {s[0]} + set x | x in s[1..];
    }
  }

  lemma MapSize<V>(m: OrderedMap<V>)
    requires ValidMap(m)
    ensures |m.entries| == |m.order|
  {
    NoDupSize(m.order);
    assert (set k | k in m.order) == m.entries.Keys;
  }
}
