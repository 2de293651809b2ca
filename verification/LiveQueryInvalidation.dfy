/** What an invalidation promises, and the one way around it. */
module LiveQueryInvalidation {
  import opened Options
  import opened OrderedMaps
  import opened Texts
  import opened LiveQueryState
  import opened LiveQueryRuns

  /** Step `p` drops everything cached under `key`. */
  predicate Drops(step: Step, key: string) {
    step.Clear? || (step.Invalidate? && Matches(key, step.pattern))
  }

  /** An invalidation removes exactly the keys that have the text somewhere in
      them, all keys when the text is missing or empty, and nothing else. */
  lemma InvalidationRemoves(c: Cache, pattern: Option<string>, key: string)
    requires ValidMap(c.store)
    ensures var d := Apply(c, Invalidate(pattern));
      && (Cached(d, key) ==
            if pattern.None? || exists before, after :: key == before + pattern.value + after then None
            else Cached(c, key))
      && d.inflight == c.inflight && d.loads == c.loads && d.now == c.now
  {
    if pattern.Some? {
      ContainsIff(key, pattern.value);
      assert pattern.value == "" ==> key == "" + pattern.value + key;
    }
  }

  /** `data` was stored under `key` after step `p`. */
  ghost predicate StoredSince(r: Run, p: nat, m: nat, key: string, data: Payload)
    requires m <= |r.steps| == |r.states| - 1
  {
    exists j, at :: p < j < m && StoredAt(r, j, key, Entry(data, at))
  }

  /** After an invalidation a call yields data stored since, unless it joined a
      load that was already running then and that load failed. */
  lemma OlderDataOnlyFromRunningLoads(r: Run, p: nat, i: nat, m: nat, data: Payload)
    requires IsRun(r) && p < i < m <= |r.steps| && r.steps[i].Call? && Drops(r.steps[p], r.steps[i].key)
    requires Yield(r, i, m) == Some(Resolved(data))
    ensures var key, a := r.steps[i].key, AnswerOf(r.states[i], r.steps[i].key, r.steps[i].forced);
      || StoredSince(r, p, m, key, data)
      || (a.Awaits? && a.id < |r.states[p + 1].loads| &&
          exists q :: i < q < m && r.steps[q].Fail? && SettledAt(r, q, a.id, Resolved(data)))
  {
    var key := r.steps[i].key;
    RunStep(r, p);
    RunStep(r, i);
    assert key !in r.states[p + 1].store.entries;
    match AnswerOf(r.states[i], key, r.steps[i].forced)
    case Hit(d) =>
      StoreProvenance(r, p + 1, i, key);
      var j :| p < j < i && StoredAt(r, j, key, r.states[i].store.entries[key]);
      assert StoredAt(r, j, key, Entry(data, r.states[i].store.entries[key].at));
    case Awaits(id) =>
      CallAwaitsPending(r, i);
      Settlement(r, i + 1, m, id);
      var q :| i + 1 <= q < m && SettledAt(r, q, id, Resolved(data));
      LoadHistory(r, i + 1, q, id);
      if r.steps[q].Succeed? {
        assert StoredAt(r, q, key, Entry(data, r.states[q].now));
      } else if id >= |r.states[p + 1].loads| {
        CaptureProvenance(r, p + 1, q, id);
        var j :| p < j < q && StoredAt(r, j, key, r.states[q].loads[id].captured.value);
        assert StoredAt(r, j, key, Entry(data, r.states[q].loads[id].captured.value.at));
      }
  }

  /** A hit after an invalidation, and a load started since, yield only data
      stored since, even through the failure fallback. */
  lemma NothingOlderAfterInvalidation(r: Run, p: nat, i: nat, m: nat, data: Payload)
    requires IsRun(r) && p < i < m <= |r.steps| && r.steps[i].Call? && Drops(r.steps[p], r.steps[i].key)
    requires var a := AnswerOf(r.states[i], r.steps[i].key, r.steps[i].forced);
      a.Awaits? ==> a.id >= |r.states[p + 1].loads|
    requires Yield(r, i, m) == Some(Resolved(data))
    ensures StoredSince(r, p, m, r.steps[i].key, data)
  {
    OlderDataOnlyFromRunningLoads(r, p, i, m, data);
  }

  /** A load in flight that had been started before step `p` was in flight then. */
  lemma {:induction false} InflightHistory(r: Run, p: nat, m: nat, key: string)
    requires IsRun(r) && p <= m <= |r.steps|
    ensures |r.states[p].loads| <= |r.states[m].loads|
    ensures key in r.states[m].inflight && r.states[m].inflight[key] < |r.states[p].loads| ==>
      key in r.states[p].inflight && r.states[p].inflight[key] == r.states[m].inflight[key]
  {
    if m == p {
    } else {
      InflightHistory(r, p, m - 1, key);
      RunStep(r, m - 1);
      StepInflight(r.states[m - 1], r.steps[m - 1], r.states[m], key);
    }
  }

  lemma StepInflight(c: Cache, step: Step, d: Cache, key: string)
    requires ValidMap(c.store) && d == Apply(c, step)
    ensures |c.loads| <= |d.loads|
    ensures key in d.inflight && d.inflight[key] < |c.loads| ==> key in c.inflight && c.inflight[key] == d.inflight[key]
    ensures key in d.inflight && key in c.inflight ==> c.inflight[key] == d.inflight[key]
    ensures key in d.inflight && key !in c.inflight ==> d.inflight[key] == |c.loads|
  {}

  lemma {:induction false} ClockMonotone(r: Run, i: nat, m: nat)
    requires IsRun(r) && i <= m <= |r.steps|
    ensures r.states[i].now <= r.states[m].now
  {
    if m == i {
    } else {
      ClockMonotone(r, i, m - 1);
      RunStep(r, m - 1);
    }
  }

  /** A clear also forgets the running loads, so after it no call at all yields
      data that was stored before. */
  lemma NothingOlderAfterClear(r: Run, p: nat, i: nat, m: nat, data: Payload)
    requires IsRun(r) && p < i < m <= |r.steps| && r.steps[i].Call? && r.steps[p].Clear?
    requires Yield(r, i, m) == Some(Resolved(data))
    ensures StoredSince(r, p, m, r.steps[i].key, data)
  {
    RunStep(r, p);
    InflightHistory(r, p + 1, i, r.steps[i].key);
    NothingOlderAfterInvalidation(r, p, i, m, data);
  }

  /** After an invalidation or a clear a peek shows only data stored since. */
  lemma PeekShowsNothingOlder(r: Run, p: nat, i: nat, data: Payload)
    requires IsRun(r) && p < i < |r.steps| && r.steps[i].Peek? && Drops(r.steps[p], r.steps[i].key)
    requires PeekAnswer(r.states[i], r.steps[i].key) == Some(data)
    ensures StoredSince(r, p, i, r.steps[i].key, data)
  {
    RunStep(r, p);
    StoreProvenance(r, p + 1, i, r.steps[i].key);
    var entry := r.states[i].store.entries[r.steps[i].key];
    var j :| p < j < i && StoredAt(r, j, r.steps[i].key, entry);
    assert StoredAt(r, j, r.steps[i].key, Entry(data, entry.at));
  }

  // ---- exactly when an invalidation can be got around ----

  /** A load of `key` is in flight, and if it failed now it would fall back on
      the entry that it captured. */
  predicate FallbackReady(c: Cache, key: string) {
    key in c.inflight && c.inflight[key] < |c.loads|
    && var captured := c.loads[c.inflight[key]].captured;
       captured.Some? && c.now - captured.value.at < 90_000
  }

  /** Data from before an invalidation (or a clear) is yielded after it only if
      a fallback was ready when it happened, and only by an invalidation. */
  lemma OlderDataNeedsFallback(r: Run, p: nat, i: nat, m: nat, data: Payload)
    requires IsRun(r) && p < i < m <= |r.steps| && r.steps[i].Call? && Drops(r.steps[p], r.steps[i].key)
    requires Yield(r, i, m) == Some(Resolved(data)) && !StoredSince(r, p, m, r.steps[i].key, data)
    ensures r.steps[p].Invalidate? && FallbackReady(r.states[p], r.steps[i].key)
  {
    var key := r.steps[i].key;
    OlderDataOnlyFromRunningLoads(r, p, i, m, data);
    var id := AnswerOf(r.states[i], key, r.steps[i].forced).id;
    var q :| i < q < m && r.steps[q].Fail? && SettledAt(r, q, id, Resolved(data));
    RunStep(r, p);
    InflightHistory(r, p + 1, i, key);
    LoadHistory(r, p, q, id);
    ClockMonotone(r, p, q);
  }

  /** `s` goes on after `r` with `step`. */
  ghost predicate Continues(s: Run, r: Run, step: Step) {
    && IsRun(s) && |s.steps| > |r.steps| && |s.states| > |r.states|
    && s.steps[..|r.steps|] == r.steps && s.states[..|r.states|] == r.states
    && s.steps[|r.steps|] == step
  }

  /** A call for `key` after step `p` yields data that was not stored since. */
  ghost predicate LeaksAfter(r: Run, p: nat, key: string)
    requires |r.steps| == |r.states| - 1
  {
    exists i: nat, m: nat, data :: p < i < m <= |r.steps| && r.steps[i].Call? && r.steps[i].key == key
      && Yield(r, i, m) == Some(Resolved(data)) && !StoredSince(r, p, m, key, data)
  }

  /** A forced call joins the load in flight, and gets its fallback when it fails. */
  lemma JoinedLoadFails(s: Run, i: nat, key: string, id: nat, fault: Fault)
    requires IsRun(s) && i + 1 < |s.steps| && s.steps[i] == Call(key, true) && s.steps[i + 1] == Fail(id, fault)
    requires var c := s.states[i]; key in c.inflight && c.inflight[key] == id && Pending(c, id)
    ensures AnswerOf(s.states[i], key, true) == Awaits(id)
    ensures s.states[i + 2].loads == s.states[i].loads[id := s.states[i].loads[id].(
      outcome := Some(Fallback(s.states[i], id, fault)))]
  {
    RunStep(s, i);
    assert s.states[i + 1] == s.states[i];
    RunStep(s, i + 1);
  }

  /** With a fallback ready, a call that joins the load gets what the load had
      captured as soon as the load fails. */
  lemma FallbackLeaks(r: Run, key: string, pattern: Option<string>, fault: Fault) returns (s: Run)
    requires IsRun(r) && Matches(key, pattern) && FallbackReady(r.states[|r.steps|], key)
    ensures Continues(s, r, Invalidate(pattern)) && LeaksAfter(s, |r.steps|, key)
  {
    var n, c := |r.steps|, r.states[|r.steps|];
    var id := c.inflight[key];
    ReachableInv(r, n);
    s := ExtendThrice(r, Invalidate(pattern), Call(key, true), Fail(id, fault));
    assert s.states[n] == s.states[..|r.states|][n];
    RunStep(s, n);
    var d := s.states[n + 1];
    assert d.loads == c.loads && d.inflight == c.inflight && d.now == c.now;
    JoinedLoadFails(s, n + 1, key, id, fault);
    var data := c.loads[id].captured.value.data;
    assert Yield(s, n + 1, n + 3) == Some(Resolved(data));
    assert forall j :: n < j < n + 3 ==> StoredBy(s.states[j], s.steps[j], key) == None;
  }

  /** Some continuation of an invalidation yields older data for a key exactly
      when a load of the key is in flight then whose captured entry is younger
      than 90 seconds. */
  lemma InvalidationLeaksIff(r: Run, key: string, pattern: Option<string>, fault: Fault)
    requires IsRun(r) && Matches(key, pattern)
    ensures (exists s :: Continues(s, r, Invalidate(pattern)) && LeaksAfter(s, |r.steps|, key))
      <==> FallbackReady(r.states[|r.steps|], key)
  {
    var n := |r.steps|;
    if s :| Continues(s, r, Invalidate(pattern)) && LeaksAfter(s, n, key) {
      var i: nat, m: nat, data :| n < i < m <= |s.steps| && s.steps[i].Call? && s.steps[i].key == key
        && Yield(s, i, m) == Some(Resolved(data)) && !StoredSince(s, n, m, key, data);
      OlderDataNeedsFallback(s, n, i, m, data);
      assert s.states[n] == s.states[..|r.states|][n];
    }
    if FallbackReady(r.states[n], key) {
      var s := FallbackLeaks(r, key, pattern, fault);
    }
  }

  // ---- data that was stored since, but asked for before ----

  /** Step `j` stores `data` under `key`: written, or delivered by a load that
      was started after step `p`. */
  ghost predicate SuppliedAt(r: Run, p: nat, j: nat, key: string, data: Payload)
    requires p <= j < |r.steps| == |r.states| - 1
  {
    && StoredAt(r, j, key, Entry(data, r.states[j].now))
    && (r.steps[j].Succeed? ==> r.steps[j].id >= |r.states[p].loads|)
  }

  ghost predicate SuppliedSince(r: Run, p: nat, m: nat, key: string, data: Payload)
    requires p <= m <= |r.steps| == |r.states| - 1
  {
    exists j :: p < j < m && SuppliedAt(r, p, j, key, data)
  }

  /** A call for `key` after step `p` yields data that was not supplied since. */
  ghost predicate OutdatedAfter(r: Run, p: nat, key: string)
    requires |r.steps| == |r.states| - 1
  {
    exists i: nat, m: nat, data :: p < i < m <= |r.steps| && r.steps[i].Call? && r.steps[i].key == key
      && Yield(r, i, m) == Some(Resolved(data)) && !SuppliedSince(r, p, m, key, data)
  }

  /** Data that was not supplied since a clear or an invalidation is yielded
      after it only if a load of the key was unsettled then. */
  lemma OutdatedNeedsUnsettled(r: Run, p: nat, i: nat, m: nat, data: Payload)
    requires IsRun(r) && p < i < m <= |r.steps| && r.steps[i].Call? && Drops(r.steps[p], r.steps[i].key)
    requires Yield(r, i, m) == Some(Resolved(data)) && !SuppliedSince(r, p, m, r.steps[i].key, data)
    ensures Unsettled(r.states[p], r.steps[i].key) != {}
  {
    var key := r.steps[i].key;
    ReachableInv(r, p);
    if StoredSince(r, p, m, key, data) {
      var j, at :| p < j < m && StoredAt(r, j, key, Entry(data, at));
      assert !SuppliedAt(r, p, j, key, data);
      LoadHistory(r, p, j, r.steps[j].id);
      assert r.steps[j].id in Unsettled(r.states[p], key);
    } else {
      OlderDataNeedsFallback(r, p, i, m, data);
      assert r.states[p].inflight[key] in Unsettled(r.states[p], key);
    }
  }

  /** A call right after a delivery is a fresh hit. */
  lemma LateDelivery(s: Run, i: nat, id: nat, data: Payload)
    requires IsRun(s) && i < |s.steps| && s.steps[i] == Succeed(id, data) && Pending(s.states[i], id)
    ensures AnswerOf(s.states[i + 1], s.states[i].loads[id].key, false) == Hit(data)
  {
    RunStep(s, i);
    StoreKeepsInv(s.states[i], s.states[i].loads[id].key, data);
  }

  /** An unsettled load of the key may deliver after the step, and a later call
      gets what it delivered as a fresh hit. */
  lemma UnsettledOutdates(r: Run, key: string, step: Step, id: nat, data: Payload) returns (s: Run)
    requires IsRun(r) && Drops(step, key) && id in Unsettled(r.states[|r.steps|], key)
    ensures Continues(s, r, step) && OutdatedAfter(s, |r.steps|, key)
  {
    var n, c := |r.steps|, r.states[|r.steps|];
    s := ExtendThrice(r, step, Succeed(id, data), Call(key, false));
    assert s.states[n] == s.states[..|r.states|][n];
    RunStep(s, n);
    assert Pending(s.states[n + 1], id) && s.states[n + 1].loads == c.loads;
    LateDelivery(s, n + 1, id, data);
    assert Yield(s, n + 2, n + 3) == Some(Resolved(data));
    assert forall j :: n < j < n + 3 ==> !SuppliedAt(s, n, j, key, data);
  }

  /** Some continuation of a clear or a matching invalidation yields data that
      was not supplied since exactly when a load of the key is unsettled then. */
  lemma OutdatedIff(r: Run, key: string, step: Step, data: Payload)
    requires IsRun(r) && Drops(step, key)
    ensures (exists s :: Continues(s, r, step) && OutdatedAfter(s, |r.steps|, key))
      <==> Unsettled(r.states[|r.steps|], key) != {}
  {
    var n := |r.steps|;
    if s :| Continues(s, r, step) && OutdatedAfter(s, n, key) {
      var i: nat, m: nat, found :| n < i < m <= |s.steps| && s.steps[i].Call? && s.steps[i].key == key
        && Yield(s, i, m) == Some(Resolved(found)) && !SuppliedSince(s, n, m, key, found);
      OutdatedNeedsUnsettled(s, n, i, m, found);
      assert s.states[n] == s.states[..|r.states|][n];
    }
    if id :| id in Unsettled(r.states[n], key) {
      var s := UnsettledOutdates(r, key, step, id, data);
    }
  }

  // ---- a run that gets around an invalidation ----

  function LeakSteps(key: string, data: Payload, fault: Fault): seq<Step> {
    [Write(key, data), Tick(FRESH_MS), Call(key, false), Invalidate(None), Call(key, false), Fail(0, fault)]
  }

  lemma LeakStored(r: Run, key: string, data: Payload, fault: Fault)
    requires IsRun(r) && r.states[0].now == 0 && r.steps == LeakSteps(key, data, fault)
    ensures r.states[1].store.entries == map[key := Entry(data, 0)]
    ensures r.states[1].now == 0 && r.states[1].inflight == map[] && r.states[1].loads == []
  {
    RunStep(r, 0);
    StoreKeepsInv(r.states[0], key, data);
  }

  lemma LeakBefore(r: Run, key: string, data: Payload, fault: Fault)
    requires IsRun(r) && r.states[0].now == 0 && r.steps == LeakSteps(key, data, fault)
    ensures var c := r.states[3];
      c.now == FRESH_MS && c.inflight == map[key := 0] && c.loads == [Load(key, Some(Entry(data, 0)), None)]
  {
    LeakStored(r, key, data, fault);
    RunStep(r, 1);
    RunStep(r, 2);
  }

  lemma LeakAfter(r: Run, key: string, data: Payload, fault: Fault)
    requires IsRun(r) && r.steps == LeakSteps(key, data, fault)
    requires var c := r.states[3];
      c.now == FRESH_MS && c.inflight == map[key := 0] && c.loads == [Load(key, Some(Entry(data, 0)), None)]
    ensures AnswerOf(r.states[4], key, false) == Awaits(0) && r.states[5] == r.states[4]
    ensures r.states[6].loads == [Load(key, Some(Entry(data, 0)), Some(Resolved(data)))]
  {
    RunStep(r, 3);
    assert r.states[4].store.entries == map[];
    RunStep(r, 4);
    RunStep(r, 5);
  }

  /** An invalidation does not: a call made after it may join a load that was
      already running, and get older data when that load fails. */
  lemma InvalidationLetsJoinedLoadsFallBack(key: string, data: Payload, fault: Fault)
    ensures var r := RunOf(0, LeakSteps(key, data, fault));
      && Drops(r.steps[3], key)
      && Yield(r, 4, 6) == Some(Resolved(data))
      && forall j :: 3 < j < 6 ==> StoredBy(r.states[j], r.steps[j], key) == None
  {
    var r := RunOf(0, LeakSteps(key, data, fault));
    LeakBefore(r, key, data, fault);
    LeakAfter(r, key, data, fault);
  }
}
