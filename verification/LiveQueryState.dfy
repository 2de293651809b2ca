/** The state of the query cache and what each of its operations does to it.
    `store` is a JavaScript Map, so it has an insertion order, which the stable
    sort of `Trim` can observe. */
module LiveQueryState {
  import opened Options
  import opened OrderedMaps
  import opened StableSort
  import opened Texts

  const FRESH_MS: int := 20_000
  const STALE_MS: int := 90_000
  const MAX_ENTRIES: int := 250

  /** What loaders deliver and reject with; the cache never looks inside. */
  type Payload(==, !new, 0)
  type Fault(==, !new, 0)

  datatype Entry = Entry(data: Payload, at: int)

  type Store = OrderedMap<Entry>

  datatype Outcome = Resolved(data: Payload) | Rejected(fault: Fault)

  /** One run of a loader.  `captured` is the entry its request saw when it
      started; `outcome` is what its promise settled to. */
  datatype Load = Load(key: string, captured: Option<Entry>, outcome: Option<Outcome>)

  datatype Cache = Cache(now: int, store: Store, inflight: map<string, nat>, loads: seq<Load>)

  /** What a call of `liveQuery` gets back: cached data, or the promise of a load. */
  datatype Answer = Hit(data: Payload) | Awaits(id: nat)

  /** One atomic step: a call runs to its return, a load settles with everything
      behind its `await`, time passes. */
  datatype Step =
    | Call(key: string, forced: bool)
    | Succeed(id: nat, data: Payload)
    | Fail(id: nat, fault: Fault)
    | Write(key: string, data: Payload)
    | Peek(key: string)
    | Invalidate(pattern: Option<string>)
    | Clear
    | Tick(ms: nat)

  const EMPTY_STORE: Store := OrderedMap([], map[])

  /** The keys an invalidation removes: all of them when no pattern is given or it is empty. */
  predicate Matches(key: string, pattern: Option<string>) {
    pattern.None? || pattern.value == "" || Contains(key, pattern.value)
  }

  function Matching(st: Store, pattern: Option<string>): set<string> {
    set k | k in st.entries && Matches(k, pattern)
  }

  // ---- trimming ----

  datatype Slot = Slot(key: string, at: int)

  function Slots(st: Store): (slots: seq<Slot>)
    requires forall k :: k in st.order ==> k in st.entries
    ensures |slots| == |st.order|
  {
    seq(|st.order|, i requires 0 <= i < |st.order| => Slot(st.order[i], st.entries[st.order[i]].at))
  }

  /** The comparator of the sort. */
  function ByAge(a: Slot, b: Slot): int { a.at - b.at }

  function AgeRank(s: Slot): Rank { Rank(0, s.at) }

  lemma ByAgeComparesRanks(a: Slot, b: Slot)
    ensures ByAge(a, b) < 0 <==> Less(AgeRank(a), AgeRank(b))
    ensures ByAge(a, b) == 0 <==> AgeRank(a) == AgeRank(b)
  {}

  /** The slots that trimming drops: the oldest, as many as are too many. */
  function Oldest(st: Store): seq<Slot>
    requires ValidMap(st) && |st.order| > MAX_ENTRIES
  {
    SortContents(Slots(st), AgeRank);
    Sort(Slots(st), AgeRank)[..|st.order| - MAX_ENTRIES]
  }

  function KeysOf(slots: seq<Slot>): set<string> {
    set s | s in slots :: s.key
  }

  function Trim(st: Store): Store
    requires ValidMap(st)
  {
    if |st.order| <= MAX_ENTRIES then st else Delete(st, KeysOf(Oldest(st)))
  }

  // ---- the operations ----

  predicate Pending(c: Cache, id: nat) {
    id < |c.loads| && c.loads[id].outcome.None?
  }

  predicate IsFresh(c: Cache, key: string) {
    key in c.store.entries && c.now - c.store.entries[key].at < FRESH_MS
  }

  function Cached(c: Cache, key: string): Option<Entry> {
    if key in c.store.entries then Some(c.store.entries[key]) else None
  }

  function AnswerOf(c: Cache, key: string, forced: bool): Answer {
    if !forced && IsFresh(c, key) then Hit(c.store.entries[key].data)
    else if key in c.inflight then Awaits(c.inflight[key])
    else Awaits(|c.loads|)
  }

  function CallStep(c: Cache, key: string, forced: bool): Cache {
    if (!forced && IsFresh(c, key)) || key in c.inflight then c
    else c.(inflight := c.inflight[key := |c.loads|], loads := c.loads + [Load(key, Cached(c, key), None)])
  }

  function StoreStep(c: Cache, key: string, data: Payload): Cache
    requires ValidMap(c.store)
  {
    PutValid(c.store, key, Entry(data, c.now));
    c.(store := Trim(Put(c.store, key, Entry(data, c.now))))
  }

  /** A promise settles once, so settling anything but a pending load is not an event. */
  function SettleStep(c: Cache, id: nat, outcome: Outcome): Cache
    requires Pending(c, id)
  {
    c.(inflight := c.inflight - {c.loads[id].key}, loads := c.loads[id := c.loads[id].(outcome := Some(outcome))])
  }

  function Fallback(c: Cache, id: nat, fault: Fault): Outcome
    requires Pending(c, id)
  {
    var captured := c.loads[id].captured;
    if captured.Some? && c.now - captured.value.at < STALE_MS then Resolved(captured.value.data) else Rejected(fault)
  }

  predicate IsStale(c: Cache, key: string) {
    key in c.store.entries && c.now - c.store.entries[key].at > STALE_MS
  }

  /** What `peekLiveQuery` returns. */
  function PeekAnswer(c: Cache, key: string): Option<Payload> {
    if key in c.store.entries && !IsStale(c, key) then Some(c.store.entries[key].data) else None
  }

  function PeekStep(c: Cache, key: string): Cache {
    if IsStale(c, key) then c.(store := Delete(c.store, {key})) else c
  }

  function Apply(c: Cache, step: Step): Cache
    requires ValidMap(c.store)
  {
    match step
    case Call(key, forced) => CallStep(c, key, forced)
    case Succeed(id, data) =>
      if Pending(c, id) then SettleStep(StoreStep(c, c.loads[id].key, data), id, Resolved(data)) else c
    case Fail(id, fault) => if Pending(c, id) then SettleStep(c, id, Fallback(c, id, fault)) else c
    case Write(key, data) => StoreStep(c, key, data)
    case Peek(key) => PeekStep(c, key)
    case Invalidate(pattern) => c.(store := Delete(c.store, Matching(c.store, pattern)))
    case Clear => c.(store := EMPTY_STORE, inflight := map[])
    case Tick(ms) => c.(now := c.now + ms)
  }

  // ---- what trimming does ----

  /** `survivor` was stored after `dropped`, or at the same time but entered the map later. */
  ghost predicate Newer(st: Store, survivor: string, dropped: string)
    requires survivor in st.entries && dropped in st.entries
  {
    || st.entries[dropped].at < st.entries[survivor].at
    || (st.entries[dropped].at == st.entries[survivor].at && Precedes(st.order, dropped, survivor))
  }

  lemma SlotKeys(st: Store)
    requires ValidMap(st)
    ensures NoDup(Slots(st))
    ensures forall k :: k in st.entries <==> Slot(k, if k in st.entries then st.entries[k].at else 0) in Slots(st)
  {
    forall k | k in st.entries ensures Slot(k, st.entries[k].at) in Slots(st) {
      var i :| 0 <= i < |st.order| && st.order[i] == k;
      assert Slots(st)[i] == Slot(k, st.entries[k].at);
    }
  }

  lemma SortedSlots(st: Store)
    requires ValidMap(st)
    ensures var sorted := Sort(Slots(st), AgeRank);
      |sorted| == |st.order| && NoDup(sorted) &&
      (forall s :: s in sorted ==> s.key in st.entries && s.at == st.entries[s.key].at) &&
      (forall k :: k in st.entries ==> Slot(k, st.entries[k].at) in sorted)
  {
    var slots := Slots(st);
    var sorted := Sort(slots, AgeRank);
    SortContents(slots, AgeRank);
    SlotKeys(st);
    NoDupMultiset(slots, sorted);
    forall s | s in sorted ensures s.key in st.entries && s.at == st.entries[s.key].at {
      SortMember(slots, AgeRank, s);
      var i :| 0 <= i < |slots| && slots[i] == s;
      assert st.order[i] in st.order;
    }
    forall k | k in st.entries ensures Slot(k, st.entries[k].at) in sorted {
      SortMember(slots, AgeRank, Slot(k, st.entries[k].at));
    }
  }

  lemma NoDupMultiset<T>(s: seq<T>, t: seq<T>)
    requires NoDup(s) && multiset(s) == multiset(t)
    ensures NoDup(t)
  {
    forall i, j | 0 <= i < j < |t| ensures t[i] != t[j] {
      if t[i] == t[j] {
        assert t == t[..i] + [t[i]] + t[i + 1..j] + [t[j]] + t[j + 1..];
        assert multiset(t)[t[i]] >= 2;
        NoDupOnce(s, t[i]);
      }
    }
  }

  lemma {:induction false} NoDupOnce<T>(s: seq<T>, x: T)
    requires NoDup(s)
    ensures multiset(s)[x] <= 1
  {
    if s == [] {
    } else {
      NoDupOnce(s[1..], x);
      assert s == [s[0]] + s[1..];
      assert x == s[0] ==> x !in multiset(s[1..]) by {
        assert x in s[1..] <==> x in multiset(s[1..]);
      }
    }
  }

  lemma SplitNewer(st: Store, sorted: seq<Slot>, n: nat)
    requires ValidMap(st) && StableOrder(Slots(st), sorted, AgeRank) && n <= |sorted|
    requires forall s :: s in sorted ==> s.key in st.entries && s.at == st.entries[s.key].at
    requires forall k :: k in st.entries ==> Slot(k, st.entries[k].at) in sorted
    ensures KeysOf(sorted[..n]) <= st.entries.Keys
    ensures forall k, d :: k in st.entries && k !in KeysOf(sorted[..n]) && d in KeysOf(sorted[..n]) ==> Newer(st, k, d)
  {}

  /** Trimming keeps at most 250 entries, changes none of them, and
      every survivor is newer than every dropped entry. */
  lemma TrimKeepsTheNewest(st: Store)
    requires ValidMap(st)
    ensures var kept := Trim(st);
      && ValidMap(kept)
      && |kept.order| == (if |st.order| <= 250 then |st.order| else 250)
      && (forall k :: k in kept.entries ==> k in st.entries && kept.entries[k] == st.entries[k])
      && (forall k, d :: k in kept.entries && d in st.entries && d !in kept.entries ==> Newer(st, k, d))
  {
    if |st.order| > MAX_ENTRIES {
      OldestKeys(st);
      DeleteSize(st, KeysOf(Oldest(st)));
    }
  }

  lemma OldestKeys(st: Store)
    requires ValidMap(st) && |st.order| > MAX_ENTRIES
    ensures var gone := KeysOf(Oldest(st));
      && gone <= st.entries.Keys && |gone| == |st.order| - MAX_ENTRIES
      && (forall k, d :: k in st.entries && k !in gone && d in gone ==> Newer(st, k, d))
  {
    var sorted := Sort(Slots(st), AgeRank);
    var n := |st.order| - MAX_ENTRIES;
    SortedSlots(st);
    SortOrder(Slots(st), AgeRank);
    DroppedKeys(st, sorted, n);
    assert Oldest(st) == sorted[..n];
  }

  lemma DroppedKeys(st: Store, sorted: seq<Slot>, n: nat)
    requires ValidMap(st) && n <= |sorted| && NoDup(sorted) && StableOrder(Slots(st), sorted, AgeRank)
    requires forall s :: s in sorted ==> s.key in st.entries && s.at == st.entries[s.key].at
    requires forall k :: k in st.entries ==> Slot(k, st.entries[k].at) in sorted
    ensures var gone := KeysOf(sorted[..n]);
      && gone <= st.entries.Keys && |gone| == n
      && (forall k, d :: k in st.entries && k !in gone && d in gone ==> Newer(st, k, d))
  {
    SplitNewer(st, sorted, n);
    DroppedCount(sorted, n);
  }

  lemma DeleteSize(st: Store, gone: set<string>)
    requires ValidMap(st) && gone <= st.entries.Keys
    ensures ValidMap(Delete(st, gone)) && |Delete(st, gone).order| == |st.order| - |gone|
  {
    DeleteValid(st, gone);
    MapSize(st);
    MapSize(Delete(st, gone));
    assert Delete(st, gone).entries.Keys == st.entries.Keys - gone;
  }

  lemma DroppedCount(sorted: seq<Slot>, n: nat)
    requires n <= |sorted| && NoDup(sorted)
    requires forall s, t :: s in sorted && t in sorted && s.key == t.key ==> s == t
    ensures |KeysOf(sorted[..n])| == n
  {
    var keys := seq(n, i requires 0 <= i < n => sorted[i].key);
    forall i, j | 0 <= i < j < n ensures keys[i] != keys[j] {
      assert sorted[i] in sorted && sorted[j] in sorted;
    }
    NoDupSize(keys);
    forall k ensures k in KeysOf(sorted[..n]) <==> k in keys {
      if k in KeysOf(sorted[..n]) {
        var s :| s in sorted[..n] && s.key == k;
        var i :| 0 <= i < n && sorted[i] == s;
        assert keys[i] == k;
      }
      if k in keys {
        var i :| 0 <= i < n && keys[i] == k;
        assert sorted[..n][i] in sorted[..n];
      }
    }
    assert KeysOf(sorted[..n]) == set k | k in keys;
  }

  /** A stored key survives the trim of its own store when no entry is dated
      later, even if every entry carries the same time. */
  lemma StoredKeySurvives(st: Store, key: string, entry: Entry)
    requires ValidMap(st) && |st.order| <= MAX_ENTRIES
    requires forall k :: k in st.entries ==> st.entries[k].at <= entry.at
    ensures ValidMap(Put(st, key, entry))
    ensures var kept := Trim(Put(st, key, entry)).entries; key in kept && kept[key] == entry
  {
    var put := Put(st, key, entry);
    PutValid(st, key, entry);
    TrimKeepsTheNewest(put);
    if |put.order| > MAX_ENTRIES {
      var k := Trim(put).order[0];
      assert k in Trim(put).order;
      NothingFollowsTheLast(put.order, key);
      assert !Newer(put, k, key);
    }
  }

  lemma NothingFollowsTheLast(order: seq<string>, last: string)
    requires NoDup(order) && order != [] && order[|order| - 1] == last
    ensures forall k :: !Precedes(order, last, k)
  {}
}
