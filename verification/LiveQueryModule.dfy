/** The module itself: its Maps updated in place by each exported function. */
module LiveQueryModule {
  import opened Options
  import opened OrderedMaps
  import opened Texts
  import opened LiveQueryState
  import opened LiveQueryRuns

  lemma {:induction false} WithoutTwice(order: seq<string>, a: set<string>, b: set<string>)
    ensures Without(Without(order, a), b) == Without(order, a + b)
  {
    if order == [] {
    } else {
      WithoutTwice(order[1..], a, b);
    }
  }

  lemma DeleteTwice(st: Store, a: set<string>, b: set<string>)
    ensures Delete(Delete(st, a), b) == Delete(st, a + b)
  {
    WithoutTwice(st.order, a, b);
    assert st.entries - a - b == st.entries - (a + b);
  }

  lemma {:induction false} WithoutNothing(order: seq<string>)
    ensures Without(order, {}) == order
  {
    if order == [] {
    } else {
      WithoutNothing(order[1..]);
    }
  }

  function Chosen(keys: seq<string>, pattern: Option<string>): set<string> {
    set k | k in keys && Matches(k, pattern)
  }

  lemma DeleteNext(st: Store, keys: seq<string>, i: nat, pattern: Option<string>)
    requires i < |keys|
    ensures Delete(st, Chosen(keys[..i + 1], pattern)) ==
      if Matches(keys[i], pattern) then Delete(Delete(st, Chosen(keys[..i], pattern)), {keys[i]})
      else Delete(st, Chosen(keys[..i], pattern))
  {
    assert keys[..i + 1] == keys[..i] + [keys[i]];
    DeleteTwice(st, Chosen(keys[..i], pattern), {keys[i]});
    if Matches(keys[i], pattern) {
      assert Chosen(keys[..i + 1], pattern) == Chosen(keys[..i], pattern) + {keys[i]};
    } else {
      assert Chosen(keys[..i + 1], pattern) == Chosen(keys[..i], pattern);
    }
  }

  lemma EverythingMatches(st: Store, pattern: Option<string>)
    requires ValidMap(st) && (pattern.None? || pattern.value == "")
    ensures Delete(st, Matching(st, pattern)) == EMPTY_STORE
  {
    var d := Delete(st, Matching(st, pattern));
    DeleteValid(st, Matching(st, pattern));
    assert d.entries == map[];
    MapSize(d);
  }

  lemma DropNext(st: Store, oldest: seq<Slot>, i: nat)
    requires i < |oldest|
    ensures Delete(st, KeysOf(oldest[..i + 1])) == Delete(Delete(st, KeysOf(oldest[..i])), {oldest[i].key})
  {
    assert oldest[..i + 1] == oldest[..i] + [oldest[i]];
    assert KeysOf(oldest[..i + 1]) == KeysOf(oldest[..i]) + {oldest[i].key};
    DeleteTwice(st, KeysOf(oldest[..i]), {oldest[i].key});
  }

  class LiveQueryCache {
    /** What `Date.now()` reads. */
    var now: int
    var store: Store
    var inflight: map<string, nat>
    /** The loader runs started so far; their promises are known by position. */
    var loads: seq<Load>

    ghost function State(): Cache
      reads this
    {
      Cache(now, store, inflight, loads)
    }

    ghost predicate Valid()
      reads this
    {
      Inv(State())
    }

    constructor (now: int)
      ensures Valid() && Initial(State()) && this.now == now
    {
      this.now, store, inflight, loads := now, EMPTY_STORE, map[], [];
    }

    method Peek(key: string) returns (data: Option<Payload>)
      requires Valid()
      modifies this
      ensures Valid() && State() == old(Apply(State(), Step.Peek(key)))
      ensures data == old(PeekAnswer(State(), key))
    {
      StepKeepsInv(State(), Step.Peek(key));
      if key !in store.entries {
        return None;
      }
      var entry := store.entries[key];
      if now - entry.at > STALE_MS {
        store := Delete(store, {key});
        return None;
      }
      return Some(entry.data);
    }

    method Write(key: string, data: Payload)
      requires Valid()
      modifies this
      ensures Valid() && State() == old(Apply(State(), Step.Write(key, data)))
    {
      StepKeepsInv(State(), Step.Write(key, data));
      PutValid(store, key, Entry(data, now));
      store := Put(store, key, Entry(data, now));
      TrimCache();
    }

    method Clear()
      requires Valid()
      modifies this
      ensures Valid() && State() == old(Apply(State(), Step.Clear))
    {
      store := EMPTY_STORE;
      inflight := map[];
    }

    /** Walks over a copy of the keys, deleting from the map itself. */
    method Invalidate(pattern: Option<string>)
      requires Valid()
      modifies this
      ensures Valid() && State() == old(Apply(State(), Step.Invalidate(pattern)))
    {
      ghost var before := State();
      if pattern.None? || pattern.value == "" {
        store := EMPTY_STORE;
        EverythingMatches(before.store, pattern);
      } else {
        var keys := store.order;
        WithoutNothing(keys);
        assert store.entries - {} == store.entries;
        assert Chosen(keys[..0], pattern) == {};
        for i := 0 to |keys|
          invariant store == Delete(before.store, Chosen(keys[..i], pattern))
          invariant now == before.now && inflight == before.inflight && loads == before.loads
        {
          DeleteNext(before.store, keys, i, pattern);
          if Contains(keys[i], pattern.value) {
            store := Delete(store, {keys[i]});
          }
        }
        assert keys[..|keys|] == keys;
        assert Chosen(keys, pattern) == Matching(before.store, pattern);
      }
      StepKeepsInv(before, Step.Invalidate(pattern));
    }

    /** `liveQuery` up to its return.  A promise handed out is known by its load. */
    method LiveQuery(key: string, forced: bool) returns (answer: Answer)
      requires Valid()
      modifies this
      ensures Valid() && State() == old(Apply(State(), Call(key, forced)))
      ensures answer == old(AnswerOf(State(), key, forced))
    {
      StepKeepsInv(State(), Call(key, forced));
      var cached := if key in store.entries then Some(store.entries[key]) else None;
      if !forced && cached.Some? && now - cached.value.at < FRESH_MS {
        return Hit(cached.value.data);
      }
      if key in inflight {
        return Awaits(inflight[key]);
      }
      var request := |loads|;
      loads := loads + [Load(key, cached, None)];
      inflight := inflight[key := request];
      return Awaits(request);
    }

    /** The loader of a request has delivered: everything behind its `await`. */
    method LoaderDelivers(id: nat, data: Payload)
      requires Valid() && Pending(State(), id)
      modifies this
      ensures Valid() && State() == old(Apply(State(), Succeed(id, data)))
    {
      StepKeepsInv(State(), Succeed(id, data));
      var key := loads[id].key;
      ghost var stored := StoreStep(State(), key, data);
      PutValid(store, key, Entry(data, now));
      store := Put(store, key, Entry(data, now));
      TrimCache();
      assert State() == stored;
      loads := loads[id := loads[id].(outcome := Some(Resolved(data)))];
      inflight := inflight - {key};
      assert State() == SettleStep(stored, id, Resolved(data));
    }

    /** The loader of a request has failed: the `catch` and the `finally`. */
    method LoaderFails(id: nat, fault: Fault)
      requires Valid() && Pending(State(), id)
      modifies this
      ensures Valid() && State() == old(Apply(State(), Fail(id, fault)))
    {
      StepKeepsInv(State(), Fail(id, fault));
      var load := loads[id];
      var outcome := Rejected(fault);
      if load.captured.Some? && now - load.captured.value.at < STALE_MS {
        outcome := Resolved(load.captured.value.data);
      }
      loads := loads[id := load.(outcome := Some(outcome))];
      inflight := inflight - {load.key};
    }

    method Tick(ms: nat)
      requires Valid()
      modifies this
      ensures Valid() && State() == old(Apply(State(), Step.Tick(ms)))
    {
      now := now + ms;
    }

    /** Sorts a copy of the entries and deletes the oldest from the map itself. */
    method TrimCache()
      requires ValidMap(store)
      modifies `store
      ensures store == Trim(old(store))
    {
      if |store.order| <= MAX_ENTRIES {
        return;
      }
      var oldest := Oldest(store);
      ghost var before := store;
      assert KeysOf(oldest[..0]) == {};
      WithoutNothing(store.order);
      assert store.entries - {} == store.entries;
      for i := 0 to |oldest|
        invariant store == Delete(before, KeysOf(oldest[..i]))
      {
        DropNext(before, oldest, i);
        store := Delete(store, {oldest[i].key});
      }
      assert oldest[..|oldest|] == oldest;
    }
  }
}
