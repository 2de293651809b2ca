/** Runs of the query cache: any interleaving of calls, settling loads, writes,
    peeks, invalidations, clears and passing time. */
module LiveQueryRuns {
  import opened Options
  import opened OrderedMaps
  import opened LiveQueryState

  // ---- what every step keeps ----

  /** Every entry of `inflight` names a load of its own key that has not settled. */
  ghost predicate InflightPending(c: Cache) {
    forall k :: k in c.inflight ==> Pending(c, c.inflight[k]) && c.loads[c.inflight[k]].key == k
  }

  ghost predicate Inv(c: Cache) {
    && ValidMap(c.store)
    && |c.store.order| <= MAX_ENTRIES
    && (forall k :: k in c.store.entries ==> c.store.entries[k].at <= c.now)
    && InflightPending(c)
  }

  lemma StoreKeepsInv(c: Cache, key: string, data: Payload)
    requires Inv(c)
    ensures var d := StoreStep(c, key, data);
      && Inv(d)
      && key in d.store.entries && d.store.entries[key] == Entry(data, c.now)
      && forall k :: k in d.store.entries && k != key ==>
        k in c.store.entries && d.store.entries[k] == c.store.entries[k]
  {
    PutValid(c.store, key, Entry(data, c.now));
    TrimKeepsTheNewest(Put(c.store, key, Entry(data, c.now)));
    StoredKeySurvives(c.store, key, Entry(data, c.now));
  }

  lemma SettleKeepsInv(c: Cache, id: nat, outcome: Outcome)
    requires Inv(c) && Pending(c, id)
    ensures Inv(SettleStep(c, id, outcome))
  {}

  lemma StepKeepsInv(c: Cache, step: Step)
    requires Inv(c)
    ensures Inv(Apply(c, step))
  {
    match step
    case Call(key, forced) =>
    case Succeed(id, data) =>
      if Pending(c, id) {
        StoreKeepsInv(c, c.loads[id].key, data);
        SettleKeepsInv(StoreStep(c, c.loads[id].key, data), id, Resolved(data));
      }
    case Fail(id, fault) =>
      if Pending(c, id) {
        SettleKeepsInv(c, id, Fallback(c, id, fault));
      }
    case Write(key, data) => StoreKeepsInv(c, key, data);
    case Peek(key) => DeleteKeepsInv(c, {key});
    case Invalidate(pattern) => DeleteKeepsInv(c, Matching(c.store, pattern));
    case Clear =>
    case Tick(ms) =>
  }

  lemma DeleteKeepsInv(c: Cache, gone: set<string>)
    requires Inv(c)
    ensures Inv(c.(store := Delete(c.store, gone)))
  {
    DeleteValid(c.store, gone);
    MapSize(c.store);
    MapSize(Delete(c.store, gone));
    SubsetSize(Delete(c.store, gone).entries.Keys, c.store.entries.Keys);
  }

  lemma SubsetSize<T>(a: set<T>, b: set<T>)
    requires a <= b
    ensures |a| <= |b|
  {
    assert b == a + (b - a);
  }

  // ---- runs ----

  ghost predicate Initial(c: Cache) {
    c.store == EMPTY_STORE && c.inflight == map[] && c.loads == []
  }

  /** `states[i]` is the cache before step `i`. */
  datatype Run = Run(states: seq<Cache>, steps: seq<Step>)

  ghost predicate IsRun(r: Run) {
    && |r.states| == |r.steps| + 1
    && Initial(r.states[0])
    && (forall i :: 0 <= i < |r.steps| ==> StepAt(r, i))
  }

  ghost predicate StepAt(r: Run, i: nat)
    requires i < |r.steps| == |r.states| - 1
  {
    ValidMap(r.states[i].store) && r.states[i + 1] == Apply(r.states[i], r.steps[i])
  }

  /** No call ever joins a load that has finished, whatever was cleared and
      whichever orphaned loads have deleted entries meanwhile. */
  lemma {:induction false} ReachableInv(r: Run, m: nat)
    requires IsRun(r) && m <= |r.steps|
    ensures Inv(r.states[m])
  {
    if m == 0 {
    } else {
      ReachableInv(r, m - 1);
      assert StepAt(r, m - 1);
      NextInv(r, m - 1);
    }
  }

  lemma NextInv(r: Run, i: nat)
    requires i < |r.steps| == |r.states| - 1 && StepAt(r, i) && Inv(r.states[i])
    ensures Inv(r.states[i + 1])
  {
    StepKeepsInv(r.states[i], r.steps[i]);
  }

  lemma RunStep(r: Run, m: nat)
    requires IsRun(r) && m < |r.steps|
    ensures Inv(r.states[m]) && Inv(r.states[m + 1])
    ensures r.states[m + 1] == Apply(r.states[m], r.steps[m])
  {
    ReachableInv(r, m);
    ReachableInv(r, m + 1);
    assert StepAt(r, m);
  }

  ghost function Extended(r: Run, step: Step): Run
    requires r.states != [] && ValidMap(r.states[|r.states| - 1].store)
  {
    Run(r.states + [Apply(r.states[|r.states| - 1], step)], r.steps + [step])
  }

  lemma ExtendRun(r: Run, step: Step)
    requires IsRun(r) && Inv(r.states[|r.steps|])
    ensures IsRun(Extended(r, step))
  {
    var s := Extended(r, step);
    forall i | 0 <= i < |s.steps| ensures StepAt(s, i) {
      assert i < |r.steps| ==> StepAt(r, i);
    }
  }

  lemma ExtendOnce(r: Run, step: Step) returns (s: Run)
    requires IsRun(r)
    ensures IsRun(s) && s.steps == r.steps + [step] && |s.states| == |r.states| + 1
    ensures s.states[..|r.states|] == r.states
  {
    ReachableInv(r, |r.steps|);
    s := Extended(r, step);
    ExtendRun(r, step);
  }

  /** The run goes on with three more steps. */
  lemma ExtendThrice(r: Run, a: Step, b: Step, c: Step) returns (s: Run)
    requires IsRun(r)
    ensures IsRun(s) && s.steps == r.steps + [a, b, c] && |s.states| == |r.states| + 3
    ensures s.states[..|r.states|] == r.states
  {
    var t := ExtendOnce(r, a);
    var u := ExtendOnce(t, b);
    s := ExtendOnce(u, c);
    assert s.states[..|r.states|] == u.states[..|r.states|] == t.states[..|r.states|];
  }

  /** The run that a list of steps makes from an empty cache at time `now`. */
  ghost function RunOf(now: int, steps: seq<Step>): (r: Run)
    ensures IsRun(r) && r.steps == steps && r.states[0].now == now
  {
    if steps == [] then Run([Cache(now, EMPTY_STORE, map[], [])], [])
    else
      var n := |steps| - 1;
      var front := RunOf(now, steps[..n]);
      ReachableInv(front, n);
      ExtendRun(front, steps[n]);
      assert steps == steps[..n] + [steps[n]];
      Extended(front, steps[n])
  }

  // ---- single flight ----

  ghost function Unsettled(c: Cache, key: string): set<nat> {
    set i: nat | i < |c.loads| && c.loads[i].key == key && c.loads[i].outcome.None?
  }

  function CountClears(steps: seq<Step>, m: nat): nat
    requires m <= |steps|
  {
    if m == 0 then 0 else CountClears(steps, m - 1) + if steps[m - 1].Clear? then 1 else 0
  }

  function Joinable(c: Cache, key: string): nat {
    if key in c.inflight then 1 else 0
  }

  lemma CallUnsettled(c: Cache, k: string, forced: bool, key: string)
    ensures var d := CallStep(c, k, forced);
      |Unsettled(d, key)| + Joinable(c, key) <= |Unsettled(c, key)| + Joinable(d, key)
  {
    NewLoadUnsettled(c, Load(k, Cached(c, k), None), key);
  }

  lemma NewLoadUnsettled(c: Cache, load: Load, key: string)
    requires load.outcome.None?
    ensures |Unsettled(c.(inflight := c.inflight[load.key := |c.loads|], loads := c.loads + [load]), key)|
      == |Unsettled(c, key)| + if load.key == key then 1 else 0
  {
    var d := c.(inflight := c.inflight[load.key := |c.loads|], loads := c.loads + [load]);
    if load.key == key {
      assert Unsettled(d, key) == Unsettled(c, key) + {|c.loads|};
    } else {
      assert Unsettled(d, key) == Unsettled(c, key);
    }
  }

  lemma SettleUnsettled(c: Cache, id: nat, outcome: Outcome, key: string)
    requires Pending(c, id)
    ensures var d := SettleStep(c, id, outcome);
      |Unsettled(d, key)| + Joinable(c, key) <= |Unsettled(c, key)| + Joinable(d, key)
  {
    var d := SettleStep(c, id, outcome);
    if c.loads[id].key == key {
      assert id in Unsettled(c, key);
      assert Unsettled(d, key) == Unsettled(c, key) - {id};
    } else {
      assert Unsettled(d, key) == Unsettled(c, key);
    }
  }

  /** The loads of a key that nobody can join any more grow only by a clear:
      starting one load makes it joinable, settling one may orphan another. */
  lemma StepUnsettled(c: Cache, step: Step, d: Cache, key: string)
    requires ValidMap(c.store) && d == Apply(c, step)
    ensures |Unsettled(d, key)| + Joinable(c, key)
      <= |Unsettled(c, key)| + Joinable(d, key) + if step.Clear? then 1 else 0
  {
    match step
    case Call(k, forced) => CallUnsettled(c, k, forced, key);
    case Succeed(id, data) =>
      if Pending(c, id) {
        SameLoads(c, StoreStep(c, c.loads[id].key, data), key);
        SettleUnsettled(StoreStep(c, c.loads[id].key, data), id, Resolved(data), key);
      }
    case Fail(id, fault) =>
      if Pending(c, id) {
        SettleUnsettled(c, id, Fallback(c, id, fault), key);
      }
    case Write(k, data) => SameLoads(c, d, key);
    case Peek(k) => SameLoads(c, d, key);
    case Invalidate(pattern) => SameLoads(c, d, key);
    case Clear => SameLoads(c, d, key);
    case Tick(ms) => SameLoads(c, d, key);
  }

  lemma SameLoads(c: Cache, d: Cache, key: string)
    requires c.loads == d.loads
    ensures Unsettled(d, key) == Unsettled(c, key)
  {}

  lemma {:induction false} OrphansBound(r: Run, m: nat, key: string)
    requires IsRun(r) && m <= |r.steps|
    ensures |Unsettled(r.states[m], key)| <= CountClears(r.steps, m) + Joinable(r.states[m], key)
  {
    if m == 0 {
    } else {
      OrphansBound(r, m - 1, key);
      RunStep(r, m - 1);
      StepUnsettled(r.states[m - 1], r.steps[m - 1], r.states[m], key);
    }
  }

  /** At most one load of a key runs per clear, plus one. */
  lemma LoadsPerKeyBound(r: Run, m: nat, key: string)
    requires IsRun(r) && m <= |r.steps|
    ensures |Unsettled(r.states[m], key)| <= 1 + CountClears(r.steps, m)
  {
    OrphansBound(r, m, key);
  }

  /** The running load of a key, if any, is the one to be joined. */
  ghost predicate OrphanFree(c: Cache, key: string) {
    Unsettled(c, key) == if key in c.inflight then {c.inflight[key]} else {}
  }

  /** The step clears the cache while a load of `key` is in flight. */
  predicate ClearsRunning(c: Cache, step: Step, key: string) {
    step.Clear? && key in c.inflight
  }

  /** Single flight is lost by a clear that meets a running load of the key, and
      by nothing else. */
  lemma StepOrphanFree(c: Cache, step: Step, d: Cache, key: string)
    requires Inv(c) && OrphanFree(c, key) && d == Apply(c, step)
    ensures OrphanFree(d, key) <==> !ClearsRunning(c, step, key)
  {
    StepKeepsInv(c, step);
    if step.Clear? {
      SameLoads(c, d, key);
    } else {
      StepUnsettled(c, step, d, key);
      FewUnsettled(d, key);
    }
  }

  lemma FewUnsettled(c: Cache, key: string)
    requires Inv(c) && |Unsettled(c, key)| <= Joinable(c, key)
    ensures OrphanFree(c, key)
  {
    if key in c.inflight {
      SingletonSet(Unsettled(c, key), c.inflight[key]);
    }
  }

  ghost predicate NoClearMeets(r: Run, m: nat, key: string)
    requires m <= |r.steps| == |r.states| - 1
  {
    forall i :: 0 <= i < m ==> !ClearsRunning(r.states[i], r.steps[i], key)
  }

  ghost predicate AlwaysOrphanFree(r: Run, m: nat, key: string)
    requires m <= |r.steps| == |r.states| - 1
  {
    forall i :: 0 <= i <= m ==> OrphanFree(r.states[i], key)
  }

  /** A run keeps single flight for a key exactly as long as no clear meets a
      running load of the key. */
  lemma {:induction false} SingleFlight(r: Run, m: nat, key: string)
    requires IsRun(r) && m <= |r.steps|
    ensures AlwaysOrphanFree(r, m, key) <==> NoClearMeets(r, m, key)
  {
    if m == 0 {
      assert OrphanFree(r.states[0], key);
    } else {
      SingleFlight(r, m - 1, key);
      if NoClearMeets(r, m - 1, key) {
        assert OrphanFree(r.states[m - 1], key);
        RunStep(r, m - 1);
        StepOrphanFree(r.states[m - 1], r.steps[m - 1], r.states[m], key);
      }
    }
  }

  lemma {:induction false} NoClearsNoneMeets(r: Run, m: nat, key: string)
    requires |r.steps| == |r.states| - 1 && m <= |r.steps| && CountClears(r.steps, m) == 0
    ensures NoClearMeets(r, m, key)
  {
    if m == 0 {
    } else {
      NoClearsNoneMeets(r, m - 1, key);
    }
  }

  lemma SingletonSet(s: set<nat>, x: nat)
    requires x in s && |s| <= 1
    ensures s == {x}
  {
    forall y | y in s ensures y == x {
      if y != x {
        SubsetSize({x, y}, s);
      }
    }
  }

  /** `n` rounds of calling and clearing, then one more call. */
  function Churn(n: nat, key: string): seq<Step> {
    seq(2 * n + 1, i => if i % 2 == 0 then Call(key, true) else Clear)
  }

  lemma CallAfterClear(c: Cache, key: string, forced: bool)
    ensures var d := CallStep(c.(store := EMPTY_STORE, inflight := map[]), key, forced);
      d.loads == c.loads + [Load(key, None, None)] && key in d.inflight
  {}

  lemma {:induction false} ChurnState(r: Run, n: nat, j: nat, key: string)
    requires IsRun(r) && j <= n && r.steps == Churn(n, key)
    ensures CountClears(r.steps, 2 * j + 1) == j
    ensures var c := r.states[2 * j + 1];
      |c.loads| == j + 1 && forall i :: 0 <= i <= j ==> c.loads[i].key == key && c.loads[i].outcome.None?
  {
    assert StepAt(r, 2 * j);
    if j == 0 {
      assert CountClears(r.steps, 0) == 0;
    } else {
      ChurnState(r, n, j - 1, key);
      assert r.steps[2 * j - 1] == Clear;
      assert StepAt(r, 2 * j - 1);
      CallAfterClear(r.states[2 * j - 1], key, true);
    }
  }

  /** The bound is tight: for every number of clears some run attains it. */
  lemma LoadsPerKeyBoundAttained(n: nat, key: string)
    ensures var r := RunOf(0, Churn(n, key));
      CountClears(r.steps, 2 * n + 1) == n && |Unsettled(r.states[2 * n + 1], key)| == 1 + n
  {
    ChurnState(RunOf(0, Churn(n, key)), n, n, key);
    CountAll(RunOf(0, Churn(n, key)).states[2 * n + 1], key, n + 1);
  }

  lemma {:induction false} CountAll(c: Cache, key: string, n: nat)
    requires |c.loads| == n && forall i :: 0 <= i < n ==> c.loads[i].key == key && c.loads[i].outcome.None?
    ensures |Unsettled(c, key)| == n
    decreases n
  {
    if n == 0 {
    } else {
      var d := c.(loads := c.loads[..n - 1]);
      CountAll(d, key, n - 1);
      assert Unsettled(c, key) == Unsettled(d, key) + {n - 1};
    }
  }

  // ---- where the data of a call comes from ----

  /** The entry that a step stores under `key`. */
  function StoredBy(c: Cache, step: Step, key: string): Option<Entry> {
    match step
    case Write(k, data) => if k == key then Some(Entry(data, c.now)) else None
    case Succeed(id, data) => if Pending(c, id) && c.loads[id].key == key then Some(Entry(data, c.now)) else None
    case _ => None
  }

  ghost predicate StoredAt(r: Run, j: nat, key: string, entry: Entry)
    requires j < |r.steps| == |r.states| - 1
  {
    StoredBy(r.states[j], r.steps[j], key) == Some(entry)
  }

  lemma StepProvenance(c: Cache, step: Step, key: string)
    requires Inv(c)
    ensures var d := Apply(c, step);
      key in d.store.entries ==>
        || StoredBy(c, step, key) == Some(d.store.entries[key])
        || (StoredBy(c, step, key) == None && key in c.store.entries && d.store.entries[key] == c.store.entries[key])
  {}

  /** What is cached later was cached before step `p`, or has been stored since. */
  lemma {:induction false} StoreProvenance(r: Run, p: nat, m: nat, key: string)
    requires IsRun(r) && p <= m <= |r.steps|
    ensures key in r.states[m].store.entries ==>
      || Cached(r.states[p], key) == Cached(r.states[m], key)
      || exists j :: p <= j < m && StoredAt(r, j, key, r.states[m].store.entries[key])
  {
    if m == p {
    } else {
      StoreProvenance(r, p, m - 1, key);
      RunStep(r, m - 1);
      StepProvenance(r.states[m - 1], r.steps[m - 1], key);
      if key in r.states[m].store.entries {
        var e := r.states[m].store.entries[key];
        if StoredBy(r.states[m - 1], r.steps[m - 1], key) == Some(e) {
          assert StoredAt(r, m - 1, key, e);
        }
      }
    }
  }

  /** Loads are never forgotten, and an outcome is final: everybody who awaits a
      load gets the same outcome, whenever they joined. */
  lemma {:induction false} LoadHistory(r: Run, i: nat, m: nat, id: nat)
    requires IsRun(r) && i <= m <= |r.steps| && id < |r.states[i].loads|
    ensures id < |r.states[m].loads|
    ensures var before, after := r.states[i].loads[id], r.states[m].loads[id];
      after.key == before.key && after.captured == before.captured && (before.outcome.Some? ==> after == before)
  {
    if m == i {
    } else {
      LoadHistory(r, i, m - 1, id);
      RunStep(r, m - 1);
    }
  }

  /** A load started after step `p` captured nothing, what was cached before
      that step, or an entry stored since. */
  lemma {:induction false} CaptureProvenance(r: Run, p: nat, m: nat, id: nat)
    requires IsRun(r) && p <= m <= |r.steps|
    requires |r.states[p].loads| <= id < |r.states[m].loads|
    ensures var load := r.states[m].loads[id];
      load.captured.Some? ==>
        || Cached(r.states[p], load.key) == load.captured
        || exists j :: p <= j < m && StoredAt(r, j, load.key, load.captured.value)
  {
    if m == p {
    } else {
      RunStep(r, m - 1);
      if id < |r.states[m - 1].loads| {
        LoadHistory(r, m - 1, m, id);
        CaptureProvenance(r, p, m - 1, id);
      } else {
        StoreProvenance(r, p, m - 1, r.states[m].loads[id].key);
      }
    }
  }

  /** Step `q` settles load `id` with `outcome`. */
  ghost predicate SettledAt(r: Run, q: nat, id: nat, outcome: Outcome)
    requires q < |r.steps| == |r.states| - 1
  {
    && Pending(r.states[q], id)
    && match r.steps[q]
       case Succeed(i, data) => i == id && outcome == Resolved(data)
       case Fail(i, fault) => i == id && outcome == Fallback(r.states[q], id, fault)
       case _ => false
  }

  lemma {:induction false} Settlement(r: Run, i: nat, m: nat, id: nat)
    requires IsRun(r) && i <= m <= |r.steps|
    requires Pending(r.states[i], id) && id < |r.states[m].loads| && r.states[m].loads[id].outcome.Some?
    ensures exists q :: i <= q < m && SettledAt(r, q, id, r.states[m].loads[id].outcome.value)
  {
    if m == i {
    } else {
      RunStep(r, m - 1);
      LoadHistory(r, i, m - 1, id);
      LoadHistory(r, m - 1, m, id);
      if r.states[m - 1].loads[id].outcome.Some? {
        Settlement(r, i, m - 1, id);
      } else {
        assert SettledAt(r, m - 1, id, r.states[m].loads[id].outcome.value);
      }
    }
  }

  /** What the call of step `i` has yielded before step `m`, if anything. */
  function Yield(r: Run, i: nat, m: nat): Option<Outcome>
    requires i < m <= |r.steps| == |r.states| - 1 && r.steps[i].Call?
  {
    match AnswerOf(r.states[i], r.steps[i].key, r.steps[i].forced)
    case Hit(data) => Some(Resolved(data))
    case Awaits(id) => if id < |r.states[m].loads| then r.states[m].loads[id].outcome else None
  }

  lemma CallAwaitsPending(r: Run, i: nat)
    requires IsRun(r) && i < |r.steps| && r.steps[i].Call?
    ensures var a := AnswerOf(r.states[i], r.steps[i].key, r.steps[i].forced);
      a.Awaits? ==> Pending(r.states[i + 1], a.id) && r.states[i + 1].loads[a.id].key == r.steps[i].key
  {
    RunStep(r, i);
  }

  /** The call of step `i` awaits load `id`. */
  predicate Awaited(r: Run, i: nat, id: nat)
    requires i < |r.steps| == |r.states| - 1
  {
    r.steps[i].Call? && AnswerOf(r.states[i], r.steps[i].key, r.steps[i].forced) == Awaits(id)
  }

  /** `data` was delivered by the awaited run of the loader of `key`, unsettled when the call returned. */
  ghost predicate Loaded(r: Run, i: nat, m: nat, key: string, data: Payload)
    requires i < m <= |r.steps| == |r.states| - 1
  {
    exists q, id: nat :: i < q < m && Awaited(r, i, id) && SettledAt(r, q, id, Resolved(data)) && r.steps[q].Succeed?
      && id < |r.states[i + 1].loads| && r.states[i + 1].loads[id].key == key && r.states[i + 1].loads[id].outcome.None?
  }

  /** `data` was stored under `key` before step `q`, less than `age` milliseconds earlier. */
  ghost predicate StoredWithin(r: Run, q: nat, key: string, data: Payload, age: int)
    requires q < |r.steps| == |r.states| - 1
  {
    exists j :: 0 <= j < q && StoredAt(r, j, key, Entry(data, r.states[j].now))
      && r.states[q].now - r.states[j].now < age
  }

  /** The awaited load failed and fell back on data that was not too old at the failure. */
  ghost predicate FellBack(r: Run, i: nat, m: nat, key: string, data: Payload)
    requires i < m <= |r.steps| == |r.states| - 1
  {
    exists q, id: nat :: i < q < m && Awaited(r, i, id) && SettledAt(r, q, id, Resolved(data)) && r.steps[q].Fail?
      && StoredWithin(r, q, key, data, 90_000)
  }

  /** Data yielded by a call is fresh from a loader, recently cached (unless the
      call forces a load), or the fallback of a failed load. */
  lemma YieldProvenance(r: Run, i: nat, m: nat, data: Payload)
    requires IsRun(r) && i < m <= |r.steps| && r.steps[i].Call?
    requires Yield(r, i, m) == Some(Resolved(data))
    ensures var key := r.steps[i].key;
      || Loaded(r, i, m, key, data)
      || (!r.steps[i].forced && StoredWithin(r, i, key, data, 20_000))
      || FellBack(r, i, m, key, data)
  {
    var key := r.steps[i].key;
    RunStep(r, i);
    match AnswerOf(r.states[i], key, r.steps[i].forced)
    case Hit(d) =>
      StoreProvenance(r, 0, i, key);
    case Awaits(id) =>
      CallAwaitsPending(r, i);
      Settlement(r, i + 1, m, id);
      var q :| i + 1 <= q < m && SettledAt(r, q, id, Resolved(data));
      LoadHistory(r, i + 1, q, id);
      assert Awaited(r, i, id);
      if r.steps[q].Fail? {
        CaptureProvenance(r, 0, q, id);
        var e := r.states[q].loads[id].captured.value;
        var j :| 0 <= j < q && StoredAt(r, j, key, e);
        assert StoredWithin(r, q, key, data, 90_000);
      }
  }

  // ---- rejections ----

  /** Step `q` fails load `id` with `fault`, and the load has nothing to fall back on. */
  ghost predicate FailsAt(r: Run, q: nat, id: nat, fault: Fault)
    requires q < |r.steps| == |r.states| - 1
  {
    && r.steps[q] == Fail(id, fault) && Pending(r.states[q], id)
    && var captured := r.states[q].loads[id].captured;
       captured.None? || r.states[q].now - captured.value.at >= 90_000
  }

  /** A call rejects exactly when its awaited load fails with that very fault
      and had captured nothing, or an entry of at least 90 seconds. */
  lemma RejectsIff(r: Run, i: nat, m: nat, fault: Fault)
    requires IsRun(r) && i < m <= |r.steps| && r.steps[i].Call?
    ensures Yield(r, i, m) == Some(Rejected(fault)) <==>
      exists q, id: nat :: i < q < m && Awaited(r, i, id) && FailsAt(r, q, id, fault)
  {
    CallAwaitsPending(r, i);
    if Yield(r, i, m) == Some(Rejected(fault)) {
      var id := AnswerOf(r.states[i], r.steps[i].key, r.steps[i].forced).id;
      Settlement(r, i + 1, m, id);
      var q :| i + 1 <= q < m && SettledAt(r, q, id, Rejected(fault));
      assert Awaited(r, i, id) && FailsAt(r, q, id, fault);
    }
    if q, id: nat :| i < q < m && Awaited(r, i, id) && FailsAt(r, q, id, fault) {
      RunStep(r, q);
      LoadHistory(r, q + 1, m, id);
    }
  }

  function RejectSteps(key: string, data: Payload, fault: Fault): seq<Step> {
    [Call(key, false), Write(key, data), Fail(0, fault)]
  }

  lemma RejectCalled(r: Run, key: string, data: Payload, fault: Fault)
    requires IsRun(r) && r.states[0].now == 0 && r.steps == RejectSteps(key, data, fault)
    ensures r.states[1].loads == [Load(key, None, None)] && AnswerOf(r.states[0], key, false) == Awaits(0)
  {
    RunStep(r, 0);
  }

  lemma RejectBefore(r: Run, key: string, data: Payload, fault: Fault)
    requires IsRun(r) && r.states[0].now == 0 && r.steps == RejectSteps(key, data, fault)
    ensures r.states[2].loads == [Load(key, None, None)] && AnswerOf(r.states[2], key, false) == Hit(data)
  {
    RejectCalled(r, key, data, fault);
    RunStep(r, 1);
    assert r.states[2] == StoreStep(r.states[1], key, data);
    StoreKeepsInv(r.states[1], key, data);
  }

  /** A call can reject although fresh data of its key is cached when its load
      fails: it falls back on what was cached when the load started. */
  lemma RejectsDespiteFreshData(key: string, data: Payload, fault: Fault)
    ensures var r := RunOf(0, RejectSteps(key, data, fault));
      Yield(r, 0, 3) == Some(Rejected(fault)) && AnswerOf(r.states[2], key, false) == Hit(data)
  {
    var r := RunOf(0, RejectSteps(key, data, fault));
    RejectCalled(r, key, data, fault);
    RejectBefore(r, key, data, fault);
    assert r.steps[2] == Fail(0, fault);
    assert FailsAt(r, 2, 0, fault) && Awaited(r, 0, 0);
    RejectsIff(r, 0, 3, fault);
  }

  // ---- what a peek shows ----

  /** Data shown by a peek was stored under its key at most 90 seconds before. */
  lemma PeekProvenance(r: Run, i: nat, data: Payload)
    requires IsRun(r) && i < |r.steps| && r.steps[i].Peek? && PeekAnswer(r.states[i], r.steps[i].key) == Some(data)
    ensures exists j :: (0 <= j < i && StoredAt(r, j, r.steps[i].key, Entry(data, r.states[j].now))
                         && r.states[i].now - r.states[j].now <= 90_000)
  {
    StoreProvenance(r, 0, i, r.steps[i].key);
  }
}
