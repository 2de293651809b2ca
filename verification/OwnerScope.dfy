/** The branch scope of an owner request: how the cache key is made from a path
    and a branch, and what that means for the data `ownerFetch` yields. */
module OwnerScope {
  import opened Options
  import opened QueryString
  import opened LiveQueryState
  import opened LiveQueryRuns

  const BRANCH_ID: Octets := "branchId"

  const SCOPED_LIST_PATHS: set<Octets> := {
    "/loans", "/loans/pending-disbursements", "/customers", "/agents",
    "/collections/repayments", "/collections/repayment-correction-requests",
    "/operations/reports", "/operations/owner-daily-status",
    "/borrower-lists", "/salaries", "/cash-shortages"}

  // ---- path.split("?") ----

  function PathName(path: Octets): Octets {
    path[..IndexOf(path, '?')]
  }

  /** The second piece of the split, up to a further question mark. */
  function Search(path: Octets): Octets {
    var i := IndexOf(path, '?');
    if i == |path| then [] else path[i + 1..][..IndexOf(path[i + 1..], '?')]
  }

  function Params(path: Octets): seq<Param> {
    Parse(Search(path))
  }

  /** The branch that the query of a path names; an empty one counts as none. */
  function BranchOf(path: Octets): Option<Octets> {
    match Get(Params(path), BRANCH_ID)
    case Some(b) => if b == [] then None else Some(b)
    case None => None
  }

  predicate Scoped(path: Octets) {
    PathName(path) in SCOPED_LIST_PATHS
  }

  /** `applyOwnerBranchQuery` */
  function ApplyBranch(path: Octets, branch: Option<Octets>): Octets {
    if branch.None? || branch.value == [] || !Scoped(path) then path
    else
      var params := Params(path);
      var named := if BranchOf(path).None? then Set(params, BRANCH_ID, branch.value) else params;
      var next := Serialize(named);
      if next != [] then PathName(path) + ['?'] + next else PathName(path)
  }

  /** The scope of a request: given explicitly (`None` inside is all branches),
      or else what the owner has picked. */
  function Resolve(explicit: Option<Option<Octets>>, picked: Option<Octets>): Option<Octets> {
    match explicit
    case None => picked
    case Some(branch) => branch
  }

  /** `ownerCacheKey` */
  function CacheKey(path: Octets, explicit: Option<Option<Octets>>, picked: Option<Octets>): Octets {
    ApplyBranch(path, Resolve(explicit, picked))
  }

  // ---- the scoped path ----

  lemma JoinedPath(name: Octets, query: Octets)
    requires '?' !in name && '?' !in query
    ensures PathName(name + ['?'] + query) == name && Search(name + ['?'] + query) == query
  {}

  /** Scoping a listed path names the branch unless the path names one already,
      and keeps the path name and every other parameter, value and order alike. */
  lemma ScopedPath(path: Octets, branch: Octets)
    requires Scoped(path) && branch != []
    ensures var key := ApplyBranch(path, Some(branch));
      && PathName(key) == PathName(path)
      && BranchOf(key) == (if BranchOf(path).Some? then BranchOf(path) else Some(branch))
      && Others(Params(key), BRANCH_ID) == Others(Params(path), BRANCH_ID)
      && (BranchOf(path).Some? ==> Params(key) == Params(path))
  {
    var params := Params(path);
    GetAfterSet(params, BRANCH_ID, branch);
    var named := if BranchOf(path).None? then Set(params, BRANCH_ID, branch) else params;
    assert named != [];
    SerializeShape(named);
    ParseSerialize(named);
    JoinedPath(PathName(path), Serialize(named));
  }

  lemma ScopedForm(path: Octets, branch: Octets)
    requires Scoped(path) && branch != []
    ensures var key := ApplyBranch(path, Some(branch));
      key == PathName(key) + ['?'] + Serialize(Params(key)) && Serialize(Params(key)) != []
  {
    var params := Params(path);
    GetAfterSet(params, BRANCH_ID, branch);
    var named := if BranchOf(path).None? then Set(params, BRANCH_ID, branch) else params;
    SerializeShape(named);
    ParseSerialize(named);
    JoinedPath(PathName(path), Serialize(named));
  }

  /** A path asks for one of the lists that exist per branch: it is the name of
      the list, or the name and a query. */
  predicate AsksForList(path: Octets, name: Octets) {
    && name in {"/loans", "/loans/pending-disbursements", "/customers", "/agents",
                "/collections/repayments", "/collections/repayment-correction-requests",
                "/operations/reports", "/operations/owner-daily-status",
                "/borrower-lists", "/salaries", "/cash-shortages"}
    && (path == name || (|path| > |name| && path[..|name|] == name && path[|name|] == '?'))
  }

  lemma ListNamesArePlain(name: Octets)
    requires name in SCOPED_LIST_PATHS
    ensures '?' !in name
  {}

  lemma PathNameOf(name: Octets, rest: Octets)
    requires '?' !in name && (rest == [] || rest[0] == '?')
    ensures PathName(name + rest) == name
  {
    if rest == [] {
      assert name + rest == name;
      IndexOfFirst(name, '?', []);
    } else {
      assert name + rest == name + ['?'] + rest[1..];
      IndexOfFirst(name, '?', rest[1..]);
    }
  }

  lemma ListIsScoped(path: Octets, name: Octets)
    requires AsksForList(path, name)
    ensures Scoped(path) && PathName(path) == name
  {
    assert name in SCOPED_LIST_PATHS;
    ListNamesArePlain(name);
    assert path == name + path[|name|..];
    PathNameOf(name, path[|name|..]);
  }

  /** Exactly the paths that ask for such a list, with whatever query, are scoped. */
  lemma ScopedIff(path: Octets)
    ensures Scoped(path) <==> AsksForList(path, PathName(path))
    ensures forall name :: AsksForList(path, name) ==> Scoped(path) && PathName(path) == name
  {
    var i := IndexOf(path, '?');
    assert PathName(path) == path[..i] && (i < |path| ==> path[i] == '?');
    forall name | AsksForList(path, name) ensures Scoped(path) && PathName(path) == name {
      ListIsScoped(path, name);
    }
  }

  /** An explicit scope wins over what the owner has picked, all branches included;
      without a branch the key is the path. */
  lemma ScopeOfRequest(path: Octets, scope: Option<Octets>, picked: Option<Octets>)
    ensures CacheKey(path, Some(scope), picked) == ApplyBranch(path, scope)
    ensures CacheKey(path, None, picked) == ApplyBranch(path, picked)
    ensures CacheKey(path, Some(None), picked) == CacheKey(path, Some(Some([])), picked) == path
  {}

  /** Paths that ask for no such list are their own keys. */
  lemma OtherPathsUnscoped(path: Octets, scope: Option<Octets>)
    requires !AsksForList(path, PathName(path))
    ensures ApplyBranch(path, scope) == path
  {
    ScopedIff(path);
  }

  /** The text of the key: the query, as it is parsed, with the branch behind it. */
  lemma KeyText(path: Octets, branch: Octets)
    requires Scoped(path) && branch != []
    requires forall p :: p in Params(path) ==> p.name != "branchId"
    ensures ApplyBranch(path, Some(branch))
      == PathName(path) + ['?'] + Serialize(Params(path) + [Param("branchId", branch)])
  {
    SetAppends(Params(path), "branchId", branch);
    SerializeShape(Params(path) + [Param("branchId", branch)]);
  }

  lemma {:induction false} SetAppends(params: seq<Param>, name: Octets, value: Octets)
    requires forall p :: p in params ==> p.name != name
    ensures Get(params, name) == None && Set(params, name, value) == params + [Param(name, value)]
  {
    if params == [] {
    } else {
      assert params[0] in params;
      assert forall p :: p in params[1..] ==> p in params;
      SetAppends(params[1..], name, value);
    }
  }

  /** Without a query the key is the path with the branch in a query of its own. */
  lemma BareKeyText(path: Octets, branch: Octets)
    requires Scoped(path) && '?' !in path && branch != []
    ensures ApplyBranch(path, Some(branch)) == path + ['?'] + ("branchId" + ['='] + Encode(branch))
  {
    NoQuery(path);
    KeyText(path, branch);
    BranchIdIsPlain();
    OneParam("branchId", branch);
  }

  lemma BranchIdIsPlain()
    ensures forall c :: c in "branchId" ==> Unreserved(c)
  {}

  lemma OneParam(name: Octets, value: Octets)
    requires forall c :: c in name ==> Unreserved(c)
    ensures Serialize([] + [Param(name, value)]) == name + ['='] + Encode(value)
  {
    PlainEncodes(name);
    assert [] + [Param(name, value)] == [Param(name, value)];
  }

  lemma NoQuery(path: Octets)
    requires '?' !in path
    ensures PathName(path) == path && Params(path) == []
  {
    IndexOfFirst(path, '?', []);
    assert Fields([]) == [[]];
  }

  lemma {:induction false} PlainEncodes(s: Octets)
    requires forall c :: c in s ==> Unreserved(c)
    ensures Encode(s) == s
  {
    if s == [] {
    } else {
      assert s[0] in s && forall c :: c in s[1..] ==> c in s;
      PlainEncodes(s[1..]);
      assert s == [s[0]] + s[1..];
    }
  }

  /** Scoping is idempotent, whichever branch comes second: a scoped path is never re-scoped. */
  lemma ScopingIsFinal(path: Octets, first: Octets, second: Option<Octets>)
    requires first != []
    ensures ApplyBranch(ApplyBranch(path, Some(first)), second) ==
      if Scoped(path) then ApplyBranch(path, Some(first)) else path
  {
    if Scoped(path) {
      ScopedPath(path, first);
      ScopedForm(path, first);
    }
  }

  /** Two branches share a cache key exactly when scoping has no say: the path
      is not one of the listed ones, or names its branch itself. */
  lemma KeysOfTwoBranches(path: Octets, a: Octets, b: Octets)
    requires a != [] && b != [] && a != b
    ensures ApplyBranch(path, Some(a)) == ApplyBranch(path, Some(b)) <==> !Scoped(path) || BranchOf(path).Some?
  {
    if Scoped(path) {
      ScopedPath(path, a);
      ScopedPath(path, b);
    }
  }

  /** The branch that a request for a listed path is about: the one that its
      path names, or else its scope; none stands for all branches. */
  function EffectiveBranch(path: Octets, branch: Option<Octets>): Option<Octets> {
    if BranchOf(path).Some? then BranchOf(path)
    else if branch.Some? && branch.value != [] then branch
    else None
  }

  /** The key of a request says what branch the request is about. */
  lemma KeyNamesBranch(path: Octets, branch: Option<Octets>)
    ensures var key := ApplyBranch(path, branch);
      PathName(key) == PathName(path) && (Scoped(path) ==> BranchOf(key) == EffectiveBranch(path, branch))
  {
    if Scoped(path) && branch.Some? && branch.value != [] {
      ScopedPath(path, branch.value);
    }
  }

  /** Requests about different branches, or about one and about all, never share
      a key, even on different paths and whoever names the branch. */
  lemma KeysKeepBranchesApart(p: Octets, a: Option<Octets>, q: Octets, b: Option<Octets>)
    requires Scoped(p) && EffectiveBranch(p, a) != EffectiveBranch(q, b)
    ensures ApplyBranch(p, a) != ApplyBranch(q, b)
  {
    KeyNamesBranch(p, a);
    KeyNamesBranch(q, b);
  }

  // ---- what ownerFetch yields ----

  /** Step `q` brings `data` into the cache, or to the callers of a load, for `key`. */
  ghost predicate Delivers(r: Run, q: nat, key: string, data: Payload)
    requires q < |r.steps| == |r.states| - 1
  {
    StoredBy(r.states[q], r.steps[q], key) == Some(Entry(data, r.states[q].now))
  }

  /** Whatever a call yields was delivered earlier for the very key of the call. */
  lemma YieldsOwnKey(r: Run, i: nat, m: nat, data: Payload)
    requires IsRun(r) && i < m <= |r.steps| && r.steps[i].Call?
    requires Yield(r, i, m) == Some(Resolved(data))
    ensures exists q :: 0 <= q < m && Delivers(r, q, r.steps[i].key, data)
  {
    var key := r.steps[i].key;
    YieldProvenance(r, i, m, data);
    if Loaded(r, i, m, key, data) {
      var q, id: nat :| i < q < m && Awaited(r, i, id) && SettledAt(r, q, id, Resolved(data)) && r.steps[q].Succeed?
        && id < |r.states[i + 1].loads|
        && r.states[i + 1].loads[id].key == key && r.states[i + 1].loads[id].outcome.None?;
      LoadHistory(r, i + 1, q, id);
      assert Delivers(r, q, key, data);
    } else if StoredWithin(r, i, key, data, 20_000) {
      var q := StoreDelivers(r, i, key, data, 20_000);
    } else {
      var q, id: nat :| i < q < m && Awaited(r, i, id) && SettledAt(r, q, id, Resolved(data)) && r.steps[q].Fail?
        && StoredWithin(r, q, key, data, 90_000);
      var j := StoreDelivers(r, q, key, data, 90_000);
    }
  }

  lemma StoreDelivers(r: Run, q: nat, key: string, data: Payload, age: int) returns (j: nat)
    requires q < |r.steps| == |r.states| - 1 && StoredWithin(r, q, key, data, age)
    ensures j < q && Delivers(r, j, key, data)
  {
    j :| 0 <= j < q && StoredAt(r, j, key, Entry(data, r.states[j].now)) && r.states[q].now - r.states[j].now < age;
  }

  /** However requests, invalidations and branch switches interleave, a request
      for a listed path yields data that was delivered for a key naming its own
      branch, and no request about another branch has that key. */
  lemma BranchIsolation(r: Run, i: nat, m: nat, data: Payload, path: Octets, explicit: Option<Option<Octets>>,
      picked: Option<Octets>)
    requires IsRun(r) && i < m <= |r.steps| && r.steps[i].Call?
    requires AsksForList(path, PathName(path)) && r.steps[i].key == CacheKey(path, explicit, picked)
    requires Yield(r, i, m) == Some(Resolved(data))
    ensures var key, branch := CacheKey(path, explicit, picked), EffectiveBranch(path, Resolve(explicit, picked));
      && BranchOf(key) == branch
      && (exists q :: 0 <= q < m && Delivers(r, q, key, data))
      && (forall other, scope :: ApplyBranch(other, scope) == key ==> EffectiveBranch(other, scope) == branch)
  {
    var scope := Resolve(explicit, picked);
    YieldsOwnKey(r, i, m, data);
    ScopedIff(path);
    KeyNamesBranch(path, scope);
    forall other, b | ApplyBranch(other, b) == ApplyBranch(path, scope)
      ensures EffectiveBranch(other, b) == EffectiveBranch(path, scope)
    {
      if EffectiveBranch(other, b) != EffectiveBranch(path, scope) {
        KeysKeepBranchesApart(path, scope, other, b);
        assert false;
      }
    }
  }

  /** What a peek of the owner screens shows, too, was delivered for a key that
      names the branch of the request, at most 90 seconds before. */
  lemma PeekIsolation(r: Run, i: nat, data: Payload, path: Octets, explicit: Option<Option<Octets>>,
      picked: Option<Octets>)
    requires IsRun(r) && i < |r.steps| && r.steps[i].Peek?
    requires AsksForList(path, PathName(path)) && r.steps[i].key == CacheKey(path, explicit, picked)
    requires PeekAnswer(r.states[i], r.steps[i].key) == Some(data)
    ensures var key := CacheKey(path, explicit, picked);
      && BranchOf(key) == EffectiveBranch(path, Resolve(explicit, picked))
      && exists j :: 0 <= j < i && Delivers(r, j, key, data) && r.states[i].now - r.states[j].now <= 90_000
  {
    ScopedIff(path);
    KeyNamesBranch(path, Resolve(explicit, picked));
    PeekProvenance(r, i, data);
    var j :| 0 <= j < i && StoredAt(r, j, r.steps[i].key, Entry(data, r.states[j].now))
      && r.states[i].now - r.states[j].now <= 90_000;
    assert Delivers(r, j, r.steps[i].key, data);
  }
}
