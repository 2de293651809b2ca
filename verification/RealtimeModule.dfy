/** The module itself: entries are objects whose counter is updated in place. */
module RealtimeModule {
  import opened Integers
  import opened RealtimeProtocol

  class SharedSocket {
    const socket: nat
    /** The token it is filed under; so no entry is filed twice. */
    ghost const token: string
    var references: int

    constructor (socket: nat, ghost token: string)
      ensures this.socket == socket && this.token == token && references == 1
    {
      this.socket, this.token, references := socket, token, 1;
    }
  }

  class RealtimeClient {
    var sharedSockets: map<string, SharedSocket>
    /** The transports opened so far, as the network sees them. */
    var transports: seq<Transport>
    /** The same as values, and who has called `connectRealtime`. */
    ghost var hub: Hub

    ghost predicate Valid()
      reads this, sharedSockets.Values
    {
      && transports == hub.transports
      && sharedSockets.Keys == hub.shared.Keys
      && (forall t :: t in hub.shared ==> Files(t))
      && Linked(hub)
    }

    /** The entry of token `t` holds what the hub says. */
    ghost predicate Files(t: string)
      requires t in hub.shared && t in sharedSockets
      reads this, sharedSockets.Values
    {
      var entry := sharedSockets[t];
      entry.token == t && Shared(entry.socket, entry.references) == hub.shared[t]
    }

    constructor ()
      ensures Valid() && hub == EMPTY_HUB
    {
      sharedSockets, transports, hub := map[], [], EMPTY_HUB;
    }

    method Connect(accessToken: string) returns (socket: nat)
      requires Valid()
      modifies this, sharedSockets.Values
      ensures Valid() && fresh(sharedSockets.Values - old(sharedSockets.Values))
      ensures hub == old(ConnectStep(hub, accessToken))
      ensures socket == old(SocketFor(hub, accessToken))
    {
      if accessToken in sharedSockets {
        var existing := sharedSockets[accessToken];
        ConnectLinked(hub, accessToken);
        hub := ConnectStep(hub, accessToken);
        existing.references := existing.references + 1;
        return existing.socket;
      }
      socket := Open(accessToken);
    }

    /** Opens a transport and files it under its token. */
    method Open(accessToken: string) returns (socket: nat)
      requires Valid() && accessToken !in sharedSockets
      modifies this
      ensures Valid() && fresh(sharedSockets.Values - old(sharedSockets.Values))
      ensures hub == old(ConnectStep(hub, accessToken))
      ensures socket == old(SocketFor(hub, accessToken))
    {
      ConnectLinked(hub, accessToken);
      hub := ConnectStep(hub, accessToken);
      socket := |transports|;
      transports := transports + [Transport(accessToken, 0)];
      var entry := new SharedSocket(socket, accessToken);
      sharedSockets := sharedSockets[accessToken := entry];
    }

    /** The overridden `disconnect`, called by the `holder`-th caller. */
    method Disconnect(accessToken: string, ghost holder: nat)
      requires Valid() && holder < |hub.holders| && hub.holders[holder].token == accessToken
      modifies this, sharedSockets.Values
      ensures Valid()
      ensures forall t :: t in sharedSockets ==> t in old(sharedSockets) && sharedSockets[t] == old(sharedSockets[t])
      ensures hub == old(DisconnectStep(hub, holder))
    {
      ReleaseLinked(hub, holder);
      hub := DisconnectStep(hub, holder);
      if accessToken !in sharedSockets {
        return;
      }
      var current := sharedSockets[accessToken];
      current.references := Max(0, current.references - 1);
      if current.references == 0 {
        sharedSockets := sharedSockets - {accessToken};
        var transport := transports[current.socket];
        transports := transports[current.socket := transport.(closes := transport.closes + 1)];
      }
    }
  }
}
