/** The bounded cache against simpler caches: one that never evicts, and the list
    of the keys in the order of their latest store. */
module LiveQueryRefinement {
  import opened Options
  import opened OrderedMaps
  import opened StableSort
  import opened LiveQueryState
  import opened LiveQueryRuns

  // ---- the cache that never evicts ----

  /** The same stores and removals on a plain map without a bound. */
  function Replay(u: map<string, Entry>, c: Cache, step: Step): map<string, Entry> {
    match step
    case Succeed(id, data) => if Pending(c, id) then u[c.loads[id].key := Entry(data, c.now)] else u
    case Write(key, data) => u[key := Entry(data, c.now)]
    case Peek(key) => if key in u && c.now - u[key].at > 90_000 then u - {key} else u
    case Invalidate(pattern) => map k | k in u && !Matches(k, pattern) :: u[k]
    case Clear => map[]
    case _ => u
  }

  function Unbounded(r: Run, m: nat): map<string, Entry>
    requires m <= |r.steps| == |r.states| - 1
  {
    if m == 0 then map[] else Replay(Unbounded(r, m - 1), r.states[m - 1], r.steps[m - 1])
  }

  ghost predicate Refines(c: Cache, u: map<string, Entry>) {
    forall k :: k in c.store.entries ==> k in u && u[k] == c.store.entries[k]
  }

  lemma StepRefines(c: Cache, u: map<string, Entry>, step: Step)
    requires Inv(c) && Refines(c, u)
    ensures Refines(Apply(c, step), Replay(u, c, step))
  {}

  /** Whatever the bounded cache holds, the unbounded one holds with the same data and time. */
  lemma {:induction false} BoundedRefinesUnbounded(r: Run, m: nat)
    requires IsRun(r) && m <= |r.steps|
    ensures Refines(r.states[m], Unbounded(r, m))
  {
    if m == 0 {
    } else {
      BoundedRefinesUnbounded(r, m - 1);
      RunStep(r, m - 1);
      StepRefines(r.states[m - 1], Unbounded(r, m - 1), r.steps[m - 1]);
    }
  }

  /** A fresh hit returns what the unbounded cache would return. */
  lemma HitsAgree(r: Run, m: nat, key: string, forced: bool)
    requires IsRun(r) && m <= |r.steps| && AnswerOf(r.states[m], key, forced).Hit?
    ensures var u := Unbounded(r, m);
      key in u && AnswerOf(r.states[m], key, forced) == Hit(u[key].data) && r.states[m].now - u[key].at < 20_000
  {
    BoundedRefinesUnbounded(r, m);
  }

  ghost predicate NeverOverfull(r: Run, m: nat)
    requires m <= |r.steps| == |r.states| - 1
  {
    forall i :: 0 <= i <= m ==> |Unbounded(r, i)| <= MAX_ENTRIES
  }

  lemma StoreWithoutTrim(c: Cache, u: map<string, Entry>, key: string, data: Payload)
    requires Inv(c) && c.store.entries == u && |u[key := Entry(data, c.now)]| <= MAX_ENTRIES
    ensures StoreStep(c, key, data).store.entries == u[key := Entry(data, c.now)]
  {
    PutValid(c.store, key, Entry(data, c.now));
    MapSize(Put(c.store, key, Entry(data, c.now)));
  }

  lemma SameWithoutTrim(c: Cache, step: Step, d: Cache)
    requires Inv(c) && d == Apply(c, step) && |Replay(c.store.entries, c, step)| <= MAX_ENTRIES
    ensures d.store.entries == Replay(c.store.entries, c, step)
  {
    match step
    case Write(key, data) => StoreWithoutTrim(c, c.store.entries, key, data);
    case Succeed(id, data) =>
      if Pending(c, id) {
        StoreWithoutTrim(c, c.store.entries, c.loads[id].key, data);
      }
    case _ => RemovalsAgree(c, step);
  }

  lemma RemovalsAgree(c: Cache, step: Step)
    requires ValidMap(c.store) && !step.Write? && !step.Succeed?
    ensures Apply(c, step).store.entries == Replay(c.store.entries, c, step)
  {}

  /** Eviction is the only difference: while the unbounded cache stays within
      the limit the two hold the same entries. */
  lemma {:induction false} EqualUnlessOverfull(r: Run, m: nat)
    requires IsRun(r) && m <= |r.steps| && NeverOverfull(r, m)
    ensures r.states[m].store.entries == Unbounded(r, m)
  {
    if m == 0 {
    } else {
      EqualUnlessOverfull(r, m - 1);
      NextWithoutTrim(r, m);
    }
  }

  lemma NextWithoutTrim(r: Run, m: nat)
    requires IsRun(r) && 0 < m <= |r.steps| && |Unbounded(r, m)| <= MAX_ENTRIES
    requires r.states[m - 1].store.entries == Unbounded(r, m - 1)
    ensures r.states[m].store.entries == Unbounded(r, m)
  {
    ReachableInv(r, m - 1);
    assert StepAt(r, m - 1);
    SameWithoutTrim(r.states[m - 1], r.steps[m - 1], r.states[m]);
  }

  /** In every run, data that is cached is a hit exactly when it is younger than
      20 seconds and the call does not force a load. */
  lemma HitIff(r: Run, m: nat, key: string, forced: bool, data: Payload)
    requires IsRun(r) && m <= |r.steps|
    ensures var u := Unbounded(r, m);
      AnswerOf(r.states[m], key, forced) == Hit(data) <==>
        && !forced && key in r.states[m].store.entries
        && key in u && u[key].data == data && r.states[m].now - u[key].at < 20_000
  {
    BoundedRefinesUnbounded(r, m);
  }

  /** As long as nothing was evicted, a call hits exactly when the unbounded
      cache holds data younger than 20 seconds. */
  lemma HitUnlessOverfull(r: Run, m: nat, key: string, data: Payload)
    requires IsRun(r) && m <= |r.steps| && NeverOverfull(r, m)
    ensures var u := Unbounded(r, m);
      AnswerOf(r.states[m], key, false) == Hit(data) <==>
        key in u && u[key].data == data && r.states[m].now - u[key].at < 20_000
  {
    EqualUnlessOverfull(r, m);
  }

  /** In every run a peek shows exactly the cached data of at most 90 seconds. */
  lemma PeekIff(r: Run, m: nat, key: string, data: Payload)
    requires IsRun(r) && m <= |r.steps|
    ensures var u := Unbounded(r, m);
      PeekAnswer(r.states[m], key) == Some(data) <==>
        && key in r.states[m].store.entries
        && key in u && u[key].data == data && r.states[m].now - u[key].at <= 90_000
  {
    BoundedRefinesUnbounded(r, m);
  }

  /** In every run a call that starts a load gets, when the load fails, what was
      cached when it called if that is younger than 90 seconds at the failure,
      and the fault otherwise. */
  lemma StartedLoadFails(r: Run, i: nat, q: nat, fault: Fault)
    requires IsRun(r) && i < q < |r.steps| && r.steps[i].Call? && Awaited(r, i, |r.states[i].loads|)
    requires r.steps[q] == Fail(|r.states[i].loads|, fault) && Pending(r.states[q], |r.states[i].loads|)
    ensures var key, u := r.steps[i].key, Unbounded(r, i);
      Yield(r, i, q + 1) == Some(
        if key in r.states[i].store.entries && key in u && r.states[q].now - u[key].at < 90_000
        then Resolved(u[key].data) else Rejected(fault))
  {
    BoundedRefinesUnbounded(r, i);
    RunStep(r, i);
    LoadHistory(r, i + 1, q, |r.states[i].loads|);
    RunStep(r, q);
  }

  // ---- the most recently stored keys ----

  /** The key that a step stores. */
  function StoredKey(c: Cache, step: Step): Option<string> {
    match step
    case Succeed(id, data) => if Pending(c, id) then Some(c.loads[id].key) else None
    case Write(key, data) => Some(key)
    case _ => None
  }

  function Touch(recent: seq<string>, key: string): seq<string> {
    Without(recent, {key}) + [key]
  }

  function Touched(recent: seq<string>, stored: Option<string>): seq<string> {
    match stored
    case Some(key) => Touch(recent, key)
    case None => recent
  }

  /** The distinct keys stored so far, in the order of their latest store. */
  function Recency(r: Run, m: nat): seq<string>
    requires m <= |r.steps| == |r.states| - 1
  {
    if m == 0 then []
    else Touched(Recency(r, m - 1), StoredKey(r.states[m - 1], r.steps[m - 1]))
  }

  function Latest(recent: seq<string>): seq<string> {
    if |recent| <= MAX_ENTRIES then recent else recent[|recent| - MAX_ENTRIES..]
  }

  /** Step `i` takes nothing out of the cache, except by trimming. */
  predicate RemovesNothing(c: Cache, step: Step) {
    !step.Clear? && !step.Invalidate? && (step.Peek? ==> !IsStale(c, step.key))
  }

  /** The first `m` steps only store, at strictly increasing times. */
  ghost predicate StoresOnly(r: Run, m: nat)
    requires m <= |r.steps| == |r.states| - 1
  {
    && (forall i :: 0 <= i < m ==> RemovesNothing(r.states[i], r.steps[i]))
    && (forall i, j :: (&& 0 <= i < j < m
                        && StoredKey(r.states[i], r.steps[i]).Some? && StoredKey(r.states[j], r.steps[j]).Some?)
          ==> r.states[i].now < r.states[j].now)
  }

  /** The cached keys are the latest of `recent`, dated in that order. */
  ghost predicate HoldsLatest(st: Store, recent: seq<string>) {
    && NoDup(recent)
    && (forall k :: k in st.entries <==> k in Latest(recent))
    && (forall a, b :: a in st.entries && b in st.entries && Precedes(Latest(recent), a, b) ==>
          st.entries[a].at < st.entries[b].at)
  }

  lemma {:induction false} WithoutOne(s: seq<string>, key: string)
    requires NoDup(s)
    ensures key !in s ==> Without(s, {key}) == s
    ensures key in s ==> |Without(s, {key})| == |s| - 1
  {
    if s == [] {
    } else {
      WithoutOne(s[1..], key);
      assert s == [s[0]] + s[1..];
    }
  }

  lemma {:induction false} WithoutConcat(s: seq<string>, t: seq<string>, gone: set<string>)
    ensures Without(s + t, gone) == Without(s, gone) + Without(t, gone)
  {
    if s == [] {
      assert s + t == t;
    } else {
      WithoutConcat(s[1..], t, gone);
      assert (s + t)[1..] == s[1..] + t;
    }
  }

  /** Storing a key moves it to the end of the latest ones, at the cost of the
      first of them when it was not there and the list is full. */
  lemma LatestOfTouch(recent: seq<string>, key: string)
    requires NoDup(recent)
    ensures var latest := Latest(recent);
      Latest(Touch(recent, key)) ==
        if key !in latest && |latest| == MAX_ENTRIES then latest[1..] + [key] else Touch(latest, key)
  {
    var latest := Latest(recent);
    var older := recent[..|recent| - |latest|];
    assert recent == older + latest;
    assert NoDup(older) && NoDup(latest) && forall k :: k in older ==> k !in latest;
    SplitTouch(older, latest, key);
    if |recent| <= MAX_ENTRIES {
      assert older == [] && Without(older, {key}) == [];
    }
    LatestOfThree(Without(older, {key}), Without(latest, {key}), key);
  }

  lemma SplitTouch(older: seq<string>, latest: seq<string>, key: string)
    requires NoDup(older) && NoDup(latest) && forall k :: k in older ==> k !in latest
    ensures Touch(older + latest, key) == Without(older, {key}) + Without(latest, {key}) + [key]
    ensures key in latest ==> Without(older, {key}) == older && |Without(latest, {key})| == |latest| - 1
    ensures key !in latest ==> Without(latest, {key}) == latest
  {
    WithoutConcat(older, latest, {key});
    WithoutOne(latest, key);
    WithoutOne(older, key);
  }

  lemma LatestOfThree(front: seq<string>, back: seq<string>, key: string)
    requires |back| <= MAX_ENTRIES
    ensures |back| == MAX_ENTRIES ==> Latest(front + back + [key]) == back[1..] + [key]
    ensures |back| == MAX_ENTRIES - 1 || (front == [] && |back| < MAX_ENTRIES) ==>
      Latest(front + back + [key]) == back + [key]
  {}

  lemma TouchNoDup(recent: seq<string>, key: string)
    requires NoDup(recent)
    ensures NoDup(Touch(recent, key))
    ensures forall k :: k in Touch(recent, key) <==> k in recent || k == key
    ensures forall a, b :: Precedes(Touch(recent, key), a, b) && b != key ==> Precedes(recent, a, b)
  {
    WithoutMembers(recent, {key});
    WithoutOrder(recent, {key});
    var kept := Without(recent, {key});
    forall a, b | Precedes(Touch(recent, key), a, b) && b != key ensures Precedes(recent, a, b) {
      var p, q :| 0 <= p < q < |Touch(recent, key)| && Touch(recent, key)[p] == a && Touch(recent, key)[q] == b;
      assert kept[p] == a && kept[q] == b;
      assert Precedes(kept, a, b);
    }
  }

  lemma LatestSize(st: Store, recent: seq<string>)
    requires ValidMap(st) && HoldsLatest(st, recent)
    ensures |st.order| == |Latest(recent)|
  {
    MapSize(st);
    NoDupSize(Latest(recent));
    assert (set k | k in Latest(recent)) == st.entries.Keys;
  }

  lemma StoreWithRoom(st: Store, recent: seq<string>, key: string, entry: Entry)
    requires ValidMap(st) && HoldsLatest(st, recent)
    requires key in Latest(recent) || |Latest(recent)| < MAX_ENTRIES
    requires forall k :: k in st.entries ==> st.entries[k].at < entry.at
    ensures ValidMap(Put(st, key, entry))
    ensures HoldsLatest(Trim(Put(st, key, entry)), Touch(recent, key))
  {
    PutValid(st, key, entry);
    LatestSize(st, recent);
    LatestOfTouch(recent, key);
    TouchNoDup(recent, key);
    TouchNoDup(Latest(recent), key);
    assert Trim(Put(st, key, entry)) == Put(st, key, entry);
    NothingFollowsTheLast(Touch(Latest(recent), key), key);
    HoldsTouched(st, Latest(recent), key, entry, Touch(Latest(recent), key));
  }

  lemma HoldsTouched(st: Store, latest: seq<string>, key: string, entry: Entry, next: seq<string>)
    requires forall k :: k in st.entries <==> k in latest
    requires forall a, b :: a in st.entries && b in st.entries && Precedes(latest, a, b) ==>
      st.entries[a].at < st.entries[b].at
    requires forall k :: k in st.entries ==> st.entries[k].at < entry.at
    requires forall k :: k in next <==> k in latest || k == key
    requires forall a, b :: Precedes(next, a, b) ==> a != key && (b == key || Precedes(latest, a, b))
    ensures var put := st.entries[key := entry];
      && (forall k :: k in put <==> k in next)
      && (forall a, b :: a in put && b in put && Precedes(next, a, b) ==> put[a].at < put[b].at)
  {}

  lemma StoreWhenFull(st: Store, recent: seq<string>, key: string, entry: Entry)
    requires ValidMap(st) && HoldsLatest(st, recent)
    requires key !in Latest(recent) && |Latest(recent)| == MAX_ENTRIES
    requires forall k :: k in st.entries ==> st.entries[k].at < entry.at
    ensures ValidMap(Put(st, key, entry))
    ensures HoldsLatest(Trim(Put(st, key, entry)), Touch(recent, key))
  {
    var put := Put(st, key, entry);
    var latest := Latest(recent);
    PutValid(st, key, entry);
    LatestSize(st, recent);
    LatestOfTouch(recent, key);
    TouchNoDup(recent, key);
    FirstIsOldest(st, recent, put, key);
    TrimDropsTheOldest(put, latest[0]);
    ShiftedLatest(latest, key, latest[0]);
    HoldsShifted(put, Trim(put), latest, key);
  }

  lemma TrimDropsTheOldest(put: Store, first: string)
    requires ValidMap(put) && |put.order| == MAX_ENTRIES + 1 && first in put.entries
    requires forall k :: k in put.entries && k != first ==> put.entries[first].at < put.entries[k].at
    ensures var kept := Trim(put);
      && kept.entries.Keys == put.entries.Keys - {first}
      && forall k :: k in kept.entries ==> kept.entries[k] == put.entries[k]
  {
    TrimKeepsTheNewest(put);
    MapSize(put);
    MapSize(Trim(put));
    OldestDropped(put, Trim(put), first);
  }

  lemma FirstIsOldest(st: Store, recent: seq<string>, put: Store, key: string)
    requires HoldsLatest(st, recent) && Latest(recent) != [] && key !in st.entries && key in put.entries
    requires put == Put(st, key, put.entries[key])
    requires forall k :: k in st.entries ==> st.entries[k].at < put.entries[key].at
    ensures var first := Latest(recent)[0];
      first in put.entries && forall k :: k in put.entries && k != first ==> put.entries[first].at < put.entries[k].at
  {
    var latest := Latest(recent);
    assert latest[0] in latest;
    forall k | k in put.entries && k != latest[0] ensures put.entries[latest[0]].at < put.entries[k].at {
      if k != key {
        var q :| 0 <= q < |latest| && latest[q] == k;
        assert Precedes(latest, latest[0], latest[q]);
      }
    }
  }

  lemma HoldsShifted(put: Store, kept: Store, latest: seq<string>, key: string)
    requires latest != [] && key !in latest && key in put.entries
    requires forall k :: k in put.entries <==> k == key || k in latest
    requires kept.entries.Keys == put.entries.Keys - {latest[0]}
    requires forall k :: k in kept.entries ==> kept.entries[k] == put.entries[k]
    requires forall k :: k in put.entries && k != key ==> put.entries[k].at < put.entries[key].at
    requires forall a, b :: a in latest && b in latest && Precedes(latest, a, b) ==>
      put.entries[a].at < put.entries[b].at
    requires forall k :: k in latest[1..] + [key] <==> k == key || (k in latest && k != latest[0])
    requires forall a, b :: Precedes(latest[1..] + [key], a, b) ==> a != key && (b == key || Precedes(latest, a, b))
    ensures forall k :: k in kept.entries <==> k in latest[1..] + [key]
    ensures forall a, b :: a in kept.entries && b in kept.entries && Precedes(latest[1..] + [key], a, b)
              ==> kept.entries[a].at < kept.entries[b].at
  {
  }

  lemma ShiftedLatest(latest: seq<string>, key: string, first: string)
    requires NoDup(latest) && key !in latest && latest != [] && latest[0] == first
    ensures var next := latest[1..] + [key];
      && (forall k :: k in next <==> k == key || (k in latest && k != first))
      && (forall a, b :: Precedes(next, a, b) ==> a != key && (b == key || Precedes(latest, a, b)))
  {}

  lemma OldestDropped(put: Store, kept: Store, first: string)
    requires ValidMap(put) && kept == Trim(put) && |put.entries| == |kept.entries| + 1 && first in put.entries
    requires forall k :: k in kept.entries ==> k in put.entries && kept.entries[k] == put.entries[k]
    requires forall k, d :: k in kept.entries && d in put.entries && d !in kept.entries ==> Newer(put, k, d)
    requires forall k :: k in put.entries && k != first ==> put.entries[first].at < put.entries[k].at
    ensures kept.entries.Keys == put.entries.Keys - {first}
  {
    var d := SomeDropped(put.entries.Keys, kept.entries.Keys);
    if d != first {
      assert !Newer(put, first, d);
    }
    EqualBySize(kept.entries.Keys, put.entries.Keys - {first});
  }

  lemma SomeDropped<T>(all: set<T>, kept: set<T>) returns (d: T)
    requires kept <= all && |all| == |kept| + 1
    ensures d in all && d !in kept
  {
    assert all == kept + (all - kept);
    d :| d in all - kept;
  }

  lemma EqualBySize<T>(a: set<T>, b: set<T>)
    requires a <= b && |a| == |b|
    ensures a == b
  {
    assert b == a + (b - a);
  }

  predicate AllOlder(c: Cache) {
    forall k :: k in c.store.entries ==> c.store.entries[k].at < c.now
  }

  lemma StoreHoldsLatest(c: Cache, recent: seq<string>, key: string, data: Payload)
    requires Inv(c) && HoldsLatest(c.store, recent)
    requires AllOlder(c)
    ensures HoldsLatest(StoreStep(c, key, data).store, Touch(recent, key))
  {
    if key in Latest(recent) || |Latest(recent)| < MAX_ENTRIES {
      StoreWithRoom(c.store, recent, key, Entry(data, c.now));
    } else {
      StoreWhenFull(c.store, recent, key, Entry(data, c.now));
    }
  }

  lemma StepHoldsLatest(c: Cache, step: Step, d: Cache, recent: seq<string>, next: seq<string>)
    requires Inv(c) && d == Apply(c, step) && HoldsLatest(c.store, recent) && RemovesNothing(c, step)
    requires next == Touched(recent, StoredKey(c, step)) && (StoredKey(c, step).Some? ==> AllOlder(c))
    ensures HoldsLatest(d.store, next)
  {
    match step
    case Write(key, data) => StoreHoldsLatest(c, recent, key, data);
    case Succeed(id, data) =>
      if Pending(c, id) {
        StoreHoldsLatest(c, recent, c.loads[id].key, data);
      }
    case _ =>
  }

  lemma AllOlderAtStores(r: Run, m: nat)
    requires IsRun(r) && m < |r.steps| && StoresOnly(r, m + 1) && StoredKey(r.states[m], r.steps[m]).Some?
    ensures AllOlder(r.states[m])
  {
    forall k | k in r.states[m].store.entries ensures r.states[m].store.entries[k].at < r.states[m].now {
      StoreProvenance(r, 0, m, k);
      var j :| 0 <= j < m && StoredAt(r, j, k, r.states[m].store.entries[k]);
      assert StoredKey(r.states[j], r.steps[j]).Some?;
    }
  }

  lemma StoringStep(r: Run, m: nat)
    requires IsRun(r) && m < |r.steps| && StoresOnly(r, m + 1)
    ensures var c, step := r.states[m], r.steps[m];
      && Inv(c) && r.states[m + 1] == Apply(c, step) && RemovesNothing(c, step)
      && (StoredKey(c, step).Some? ==> AllOlder(c))
  {
    ReachableInv(r, m);
    assert StepAt(r, m);
    if StoredKey(r.states[m], r.steps[m]).Some? {
      AllOlderAtStores(r, m);
    }
  }

  /** When stores happen at increasing times and nothing is removed, the cache
      holds exactly the most recently stored `MAX_ENTRIES` distinct keys. */
  lemma {:induction false} HoldsTheMostRecent(r: Run, m: nat)
    requires IsRun(r) && m <= |r.steps| && StoresOnly(r, m)
    ensures NoDup(Recency(r, m))
    ensures forall k :: k in r.states[m].store.entries <==> k in Latest(Recency(r, m))
    ensures HoldsLatest(r.states[m].store, Recency(r, m))
  {
    if m == 0 {
    } else {
      HoldsTheMostRecent(r, m - 1);
      StoringStep(r, m - 1);
      StepHoldsLatest(r.states[m - 1], r.steps[m - 1], r.states[m], Recency(r, m - 1), Recency(r, m));
    }
  }
}
