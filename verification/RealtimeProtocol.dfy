/** Reference-counted sockets: callers of one access token share a transport,
    and the overridden `disconnect` closes it when the last of them lets go. */
module RealtimeProtocol {
  import opened Integers

  /** An entry of `sharedSockets`; the transport is known by its position. */
  datatype Shared = Shared(socket: nat, references: int)

  /** A transport that was opened, and how often it was natively disconnected. */
  datatype Transport = Transport(token: string, closes: nat)

  /** A caller of `connectRealtime`, the transport it got, and whether it has
      called `disconnect`. */
  datatype Holder = Holder(token: string, socket: nat, released: bool)

  datatype Hub = Hub(shared: map<string, Shared>, transports: seq<Transport>, holders: seq<Holder>)

  datatype Step = Connect(token: string) | Disconnect(holder: nat)

  function SocketFor(h: Hub, token: string): nat {
    if token in h.shared then h.shared[token].socket else |h.transports|
  }

  function ConnectStep(h: Hub, token: string): Hub {
    var holders := h.holders + [Holder(token, SocketFor(h, token), false)];
    if token in h.shared then
      var existing := h.shared[token];
      h.(shared := h.shared[token := existing.(references := existing.references + 1)], holders := holders)
    else
      Hub(h.shared[token := Shared(|h.transports|, 1)], h.transports + [Transport(token, 0)], holders)
  }

  /** The overridden `disconnect` of a transport opened for `token`. */
  function Release(h: Hub, token: string): Hub
    requires token in h.shared ==> h.shared[token].socket < |h.transports|
  {
    if token !in h.shared then h
    else
      var current := h.shared[token];
      var references := Max(0, current.references - 1);
      if references == 0 then
        var transport := h.transports[current.socket];
        h.(shared := h.shared - {token},
           transports := h.transports[current.socket := transport.(closes := transport.closes + 1)])
      else h.(shared := h.shared[token := current.(references := references)])
  }

  function DisconnectStep(h: Hub, holder: nat): Hub
    requires holder < |h.holders| && Linked(h)
  {
    var who := h.holders[holder];
    Release(h, who.token).(holders := h.holders[holder := who.(released := true)])
  }

  predicate Linked(h: Hub) {
    forall t :: t in h.shared ==> h.shared[t].socket < |h.transports| && h.transports[h.shared[t].socket].token == t
  }

  predicate Live(h: Hub, i: nat) {
    i < |h.holders| && !h.holders[i].released
  }

  ghost function LiveHolders(h: Hub, token: string): set<nat> {
    set i: nat | i < |h.holders| && Live(h, i) && h.holders[i].token == token
  }

  /** How many callers the table counts for a token. */
  function CountOf(h: Hub, token: string): int {
    if token in h.shared then h.shared[token].references else 0
  }

  /** Transport `s` is the one that new callers of its token would get. */
  ghost predicate Current(h: Hub, s: nat)
    requires s < |h.transports|
  {
    var token := h.transports[s].token;
    token in h.shared && h.shared[token].socket == s
  }

  ghost predicate Counted(h: Hub) {
    forall t :: t in h.shared ==> h.shared[t].references == |LiveHolders(h, t)| >= 1
  }

  ghost predicate Placed(h: Hub) {
    forall i :: 0 <= i < |h.holders| ==>
      h.holders[i].socket < |h.transports| && h.transports[h.holders[i].socket].token == h.holders[i].token
  }

  ghost predicate HeldCurrent(h: Hub)
    requires Placed(h)
  {
    forall i: nat :: Live(h, i) ==> Current(h, h.holders[i].socket)
  }

  ghost predicate ClosedUnlessCurrent(h: Hub) {
    forall s :: 0 <= s < |h.transports| ==> h.transports[s].closes == if Current(h, s) then 0 else 1
  }

  ghost predicate Inv(h: Hub) {
    Linked(h) && Counted(h) && Placed(h) && HeldCurrent(h) && ClosedUnlessCurrent(h)
  }

  const EMPTY_HUB := Hub(map[], [], [])

  lemma EmptyInv()
    ensures Inv(EMPTY_HUB)
  {}

  lemma ConnectLinked(h: Hub, token: string)
    requires Linked(h)
    ensures Linked(ConnectStep(h, token))
  {}

  lemma ReleaseLinked(h: Hub, holder: nat)
    requires Linked(h) && holder < |h.holders|
    ensures Linked(DisconnectStep(h, holder))
  {}

  lemma ConnectHolders(h: Hub, token: string, t: string)
    ensures LiveHolders(ConnectStep(h, token), t) == LiveHolders(h, t) + if t == token then {|h.holders|} else {}
  {}

  lemma ConnectCounted(h: Hub, token: string)
    requires Inv(h)
    ensures Linked(ConnectStep(h, token)) && Counted(ConnectStep(h, token)) && Placed(ConnectStep(h, token))
  {
    var d := ConnectStep(h, token);
    forall t | t in d.shared ensures d.shared[t].references == |LiveHolders(d, t)| >= 1 {
      ConnectCountedAt(h, token, t);
    }
  }

  lemma ConnectCountedAt(h: Hub, token: string, t: string)
    requires Inv(h) && t in ConnectStep(h, token).shared
    ensures ConnectStep(h, token).shared[t].references == |LiveHolders(ConnectStep(h, token), t)| >= 1
  {
    ConnectHolders(h, token, t);
    HoldersCounted(h, t);
    assert |h.holders| !in LiveHolders(h, t);
  }

  lemma HoldersCounted(h: Hub, t: string)
    requires Inv(h)
    ensures |LiveHolders(h, t)| == CountOf(h, t)
  {}

  lemma ConnectKeepsInv(h: Hub, token: string)
    requires Inv(h)
    ensures Inv(ConnectStep(h, token))
  {
    var d := ConnectStep(h, token);
    ConnectCounted(h, token);
    forall s: nat | s < |h.transports| ensures Current(d, s) == Current(h, s) {}
    forall j: nat | Live(d, j) ensures Current(d, d.holders[j].socket) {
      if j < |h.holders| { assert Live(h, j); }
    }
  }

  lemma ReleasedHolders(h: Hub, holder: nat, t: string)
    requires Inv(h) && holder < |h.holders|
    ensures LiveHolders(DisconnectStep(h, holder), t) == LiveHolders(h, t) - {holder}
  {}

  lemma DisconnectCounted(h: Hub, holder: nat)
    requires Inv(h) && Live(h, holder)
    ensures Linked(DisconnectStep(h, holder)) && Placed(DisconnectStep(h, holder)) && Counted(DisconnectStep(h, holder))
    ensures h.holders[holder].token !in DisconnectStep(h, holder).shared ==>
      LiveHolders(DisconnectStep(h, holder), h.holders[holder].token) == {}
  {
    var d := DisconnectStep(h, holder);
    var token := h.holders[holder].token;
    assert token in h.shared by {
      assert Current(h, h.holders[holder].socket);
    }
    assert holder in LiveHolders(h, token);
    ReleasedHolders(h, holder, token);
    assert |LiveHolders(d, token)| == h.shared[token].references - 1;
    forall t | t in d.shared ensures d.shared[t].references == |LiveHolders(d, t)| >= 1 {
      if t != token {
        OtherHolders(h, holder, t);
      }
    }
  }

  lemma OtherHolders(h: Hub, holder: nat, t: string)
    requires Inv(h) && Live(h, holder) && h.holders[holder].token != t
    ensures LiveHolders(DisconnectStep(h, holder), t) == LiveHolders(h, t)
  {}

  lemma DisconnectHeldCurrent(h: Hub, holder: nat)
    requires Inv(h) && Live(h, holder)
    ensures Placed(DisconnectStep(h, holder)) && HeldCurrent(DisconnectStep(h, holder))
  {
    var d := DisconnectStep(h, holder);
    DisconnectCounted(h, holder);
    forall j: nat | Live(d, j) ensures Current(d, d.holders[j].socket) {
      StaysCurrent(h, holder, j);
    }
  }

  lemma StaysCurrent(h: Hub, holder: nat, j: nat)
    requires Inv(h) && Live(h, holder) && j < |h.holders| && Live(DisconnectStep(h, holder), j)
    requires h.holders[holder].token !in DisconnectStep(h, holder).shared ==>
      LiveHolders(DisconnectStep(h, holder), h.holders[holder].token) == {}
    ensures Current(DisconnectStep(h, holder), h.holders[j].socket)
  {
    var d := DisconnectStep(h, holder);
    assert Live(h, j) && Current(h, h.holders[j].socket);
    if h.holders[j].token == h.holders[holder].token {
      assert j in LiveHolders(d, h.holders[holder].token);
    }
  }

  lemma DisconnectCloses(h: Hub, holder: nat)
    requires Inv(h) && Live(h, holder)
    ensures ClosedUnlessCurrent(DisconnectStep(h, holder))
  {}

  lemma DisconnectKeepsInv(h: Hub, holder: nat)
    requires Inv(h) && Live(h, holder)
    ensures Inv(DisconnectStep(h, holder))
  {
    DisconnectCounted(h, holder);
    DisconnectHeldCurrent(h, holder);
    DisconnectCloses(h, holder);
  }

  // ---- runs ----

  /** A caller that disconnects again does no harm when its token has no entry. */
  predicate Disciplined(h: Hub, step: Step) {
    step.Disconnect? ==>
      step.holder < |h.holders| && (Live(h, step.holder) || h.holders[step.holder].token !in h.shared)
  }

  function Apply(h: Hub, step: Step): Hub
    requires Linked(h) && Disciplined(h, step)
  {
    match step
    case Connect(token) => ConnectStep(h, token)
    case Disconnect(holder) => DisconnectStep(h, holder)
  }

  datatype Run = Run(states: seq<Hub>, steps: seq<Step>)

  ghost predicate StepAt(r: Run, i: nat)
    requires i < |r.steps| == |r.states| - 1
  {
    Linked(r.states[i]) && Disciplined(r.states[i], r.steps[i]) && r.states[i + 1] == Apply(r.states[i], r.steps[i])
  }

  ghost predicate IsRun(r: Run) {
    && |r.states| == |r.steps| + 1
    && r.states[0] == EMPTY_HUB
    && (forall i :: 0 <= i < |r.steps| ==> StepAt(r, i))
  }

  lemma RepeatedReleaseIgnored(h: Hub, holder: nat)
    requires Linked(h) && holder < |h.holders| && !Live(h, holder) && h.holders[holder].token !in h.shared
    ensures DisconnectStep(h, holder) == h
  {}

  lemma {:induction false} ReachableInv(r: Run, m: nat)
    requires IsRun(r) && m <= |r.steps|
    ensures Inv(r.states[m])
  {
    if m == 0 {
      EmptyInv();
    } else {
      ReachableInv(r, m - 1);
      assert StepAt(r, m - 1);
      match r.steps[m - 1]
      case Connect(token) => ConnectKeepsInv(r.states[m - 1], token);
      case Disconnect(holder) =>
        if Live(r.states[m - 1], holder) {
          DisconnectKeepsInv(r.states[m - 1], holder);
        } else {
          RepeatedReleaseIgnored(r.states[m - 1], holder);
        }
    }
  }

  /** Every caller that still holds on may let go, and every new one may come. */
  lemma HoldersMayLetGo(h: Hub, holder: nat, token: string)
    requires Inv(h)
    ensures Disciplined(h, Connect(token)) && Inv(Apply(h, Connect(token)))
    ensures Live(h, holder) ==> Disciplined(h, Disconnect(holder)) && Inv(Apply(h, Disconnect(holder)))
  {
    ConnectKeepsInv(h, token);
    if Live(h, holder) {
      DisconnectKeepsInv(h, holder);
    }
  }

  /** In every run the count of a token is the number of its callers that still
      hold on, and a token without an entry has none. */
  lemma ReferencesCountHolders(r: Run, m: nat, token: string)
    requires IsRun(r) && m <= |r.steps|
    ensures |LiveHolders(r.states[m], token)| == CountOf(r.states[m], token)
  {
    ReachableInv(r, m);
    HoldersCounted(r.states[m], token);
  }

  /** In every run a token has at most one open transport. */
  lemma OneOpenTransportPerToken(r: Run, m: nat, s: nat, t: nat)
    requires IsRun(r) && m <= |r.steps| && s < |r.states[m].transports| && t < |r.states[m].transports|
    requires var ts := r.states[m].transports; ts[s].token == ts[t].token && ts[s].closes == 0 && ts[t].closes == 0
    ensures s == t
  {
    ReachableInv(r, m);
    var h := r.states[m];
    assert Current(h, s) && Current(h, t);
  }

  ghost predicate Held(h: Hub, s: nat) {
    exists i: nat :: Live(h, i) && h.holders[i].socket == s
  }

  /** In every run a transport is open as long as somebody holds it, and has
      been closed exactly once as soon as nobody does. */
  lemma ClosedOnceWhenLetGo(r: Run, m: nat, s: nat)
    requires IsRun(r) && m <= |r.steps| && s < |r.states[m].transports|
    ensures r.states[m].transports[s].closes == if Held(r.states[m], s) then 0 else 1
  {
    ReachableInv(r, m);
    var h := r.states[m];
    if Current(h, s) {
      var i :| i in LiveHolders(h, h.transports[s].token);
      assert Live(h, i) && Current(h, h.holders[i].socket);
    }
    if Held(h, s) {
      var i: nat :| Live(h, i) && h.holders[i].socket == s;
      assert Current(h, s);
    }
  }

  // ---- why callers must let go only once ----

  /** A second `disconnect` of the same caller is harmless exactly when its token
      has no entry: the guard of the override is all that protects the others. */
  lemma RepeatedReleaseHarmlessIff(h: Hub, holder: nat)
    requires Inv(h) && holder < |h.holders| && !Live(h, holder)
    ensures Inv(DisconnectStep(h, holder)) <==> h.holders[holder].token !in h.shared
  {
    var token := h.holders[holder].token;
    var d := DisconnectStep(h, holder);
    if token !in h.shared {
      RepeatedReleaseIgnored(h, holder);
    } else {
      ReleasedHolders(h, holder, token);
      assert LiveHolders(d, token) == LiveHolders(h, token);
      if token !in d.shared {
        var i :| i in LiveHolders(d, token);
        assert Live(d, i) && d.holders[i] == h.holders[i];
      }
    }
  }

  /** What goes wrong otherwise is the count: after a second `disconnect` it is
      that of the callers still holding on exactly when the token had no entry. */
  lemma RepeatedReleaseCountsIff(h: Hub, holder: nat)
    requires Inv(h) && holder < |h.holders| && !Live(h, holder)
    ensures var d, token := DisconnectStep(h, holder), h.holders[holder].token;
      |LiveHolders(d, token)| == CountOf(d, token) <==> token !in h.shared
  {
    ReleasedHolders(h, holder, h.holders[holder].token);
    HoldersCounted(h, h.holders[holder].token);
    var d, token := DisconnectStep(h, holder), h.holders[holder].token;
    assert LiveHolders(d, token) == LiveHolders(h, token);
  }

  /** A late second `disconnect` closes the newer transport of another caller. */
  lemma StaleReleaseClosesNewerTransport(token: string)
    ensures var h := ConnectStep(DisconnectStep(ConnectStep(EMPTY_HUB, token), 0), token);
      && Inv(h) && Live(h, 1) && h.holders[1].socket == 1
      && DisconnectStep(h, 0).transports[1].closes == 1 && Live(DisconnectStep(h, 0), 1)
  {
    var h0 := EMPTY_HUB;
    EmptyInv();
    ConnectKeepsInv(h0, token);
    DisconnectKeepsInv(ConnectStep(h0, token), 0);
    ConnectKeepsInv(DisconnectStep(ConnectStep(h0, token), 0), token);
  }
}
