/** The browser-side connection manager of client/src/socket.js (`SocketClient`).
    The socket.io socket is abstract: sockets are numbered in the order they are
    created, what the client sends or closes is appended to `log`, and each
    callback the code registers (`connect`, `connect_error`, `disconnect`,
    `error`, the 10 s connection timeout, the 2 s reconnect timer) is a method
    that the environment may call. The promise each socket-creating `connect`
    returns is tracked per socket number. */
module SocketClientModel {
  import opened Common

  const MaxReconnectAttempts: nat := 10
  const ServerDisconnect: string := "io server disconnect"

  /** The `data` argument of `emitItemChange`: the fields the code reads, and the rest. */
  datatype ItemData = ItemData(
    id: Option<string>,
    userId: Option<string>,
    userName: Option<string>,
    lockedByName: Option<string>,
    familyId: Option<string>,
    rest: Json)

  datatype ItemChangePayload = ItemChangePayload(
    changeType: string,
    item: ItemData,
    shopId: string,
    userId: Option<string>,
    userName: Option<string>,
    familyId: Option<string>)

  datatype ClientMessage =
    | JoinShopMsg(shopId: string, userId: string)
    | ItemChangeMsg(payload: ItemChangePayload)

  datatype Wire =
    | Emit(socket: nat, msg: ClientMessage)
    | Close(socket: nat)
    | Disconnect(socket: nat)

  datatype PromiseState = Pending | Resolved | Rejected

  /** What a call to `connect` returned. */
  datatype ConnectCall = RejectedAtOnce | ResolvedAtOnce | Awaiting(socket: nat)

  /** The payload `emitItemChange` sends: the item is `data` with `userName`
      filled from `lockedByName`, and the sender defaults to the client's user. */
  function MakePayload(changeType: string, shopId: string, data: ItemData, clientUser: Option<string>): (p: ItemChangePayload)
    ensures p.changeType == changeType && p.shopId == shopId && p.familyId == data.familyId
    ensures p.userId == (if Truthy(data.userId) then data.userId else clientUser)
    ensures p.userName == (if Truthy(data.userName) then data.userName else data.lockedByName)
    ensures p.item == data.(userName := p.userName)
  {
    var name := OrElse(data.userName, data.lockedByName);
    ItemChangePayload(changeType, data.(userName := name), shopId, OrElse(data.userId, clientUser), name, data.familyId)
  }

  /** The messages a flush of the pending joins sends on socket `s`, in order. */
  function JoinEmits(s: nat, joins: seq<(string, string)>): (r: seq<Wire>)
    ensures |r| == |joins|
    ensures forall i :: 0 <= i < |joins| ==> r[i] == Emit(s, JoinShopMsg(joins[i].0, joins[i].1))
  {
    if |joins| == 0 then [] else [Emit(s, JoinShopMsg(joins[0].0, joins[0].1))] + JoinEmits(s, joins[1..])
  }

  class SocketClient {
    var socket: Option<nat>
    var created: nat
    var connected: bool
    var pendingJoins: seq<(string, string)>
    var userId: Option<string>
    var reconnectAttempts: nat
    /** Sockets whose 10 s connection timeout is still armed. */
    var timeouts: set<nat>
    /** Pending 2 s reconnect timers. */
    var reconnectTimers: nat
    var promises: map<nat, PromiseState>
    var log: seq<Wire>

    ghost predicate Valid()
      reads this
    {
      && (socket.Some? ==> socket.value < created && socket.value in promises)
      && (connected ==> socket.Some?)
      && (forall t :: t in timeouts ==> t in promises)
      && (forall j :: j in pendingJoins ==> j.0 != "" && j.1 != "")
    }

    constructor ()
      ensures Valid()
      ensures socket.None? && !connected && pendingJoins == [] && userId.None? && reconnectAttempts == 0
      ensures created == 0 && timeouts == {} && reconnectTimers == 0 && promises == map[] && log == []
    {
      socket, created, connected, pendingJoins, userId, reconnectAttempts := None, 0, false, [], None, 0;
      timeouts, reconnectTimers, promises, log := {}, 0, map[], [];
    }

    /** Settle the promise of socket `s` unless it is already settled. */
    method Settle(s: nat, outcome: PromiseState)
      requires s in promises
      modifies this`promises
      ensures promises == if old(promises)[s] == Pending then old(promises)[s := outcome] else old(promises)
    {
      if promises[s] == Pending {
        promises := promises[s := outcome];
      }
    }

    /** `connect(userId)` */
    method Connect(uid: Option<string>) returns (r: ConnectCall)
      requires Valid()
      modifies this
      ensures Valid()
      ensures pendingJoins == old(pendingJoins) && reconnectAttempts == old(reconnectAttempts)
      ensures reconnectTimers == old(reconnectTimers)
      ensures !Truthy(uid) ==>
        r == RejectedAtOnce && promises == old(promises)
        && socket == old(socket) && created == old(created) && connected == old(connected)
        && userId == old(userId) && timeouts == old(timeouts) && log == old(log)
      ensures Truthy(uid) && old(socket).Some? && old(connected) ==>
        r == ResolvedAtOnce && userId == uid && socket == old(socket) && created == old(created)
        && connected && timeouts == old(timeouts) && promises == old(promises) && log == old(log)
      ensures Truthy(uid) && !(old(socket).Some? && old(connected)) ==>
        r == Awaiting(old(created)) && userId == uid
        && socket == Some(old(created)) && created == old(created) + 1 && connected == old(connected)
        && timeouts == old(timeouts) + {old(created)} && promises == old(promises)[old(created) := Pending]
        && log == old(log) + (if old(socket).Some? then [Close(old(socket).value)] else [])
    {
      if !Truthy(uid) {
        return RejectedAtOnce;
      }
      userId := uid;
      if socket.Some? {
        if connected {
          return ResolvedAtOnce;
        }
        log := log + [Close(socket.value)];
        socket := None;
      }
      socket := Some(created);
      promises := promises[created := Pending];
      timeouts := timeouts + {created};
      r := Awaiting(created);
      created := created + 1;
    }

    /** `joinShop(shopId, userId)`: ignored with a falsy argument, queued while
        not connected (a fresh object each time, so a repeat is queued twice),
        sent otherwise. */
    method JoinShop(shopId: string, uid: string)
      requires Valid()
      modifies this`pendingJoins, this`log
      ensures Valid()
      ensures (shopId == "" || uid == "") ==> pendingJoins == old(pendingJoins) && log == old(log)
      ensures shopId != "" && uid != "" && !(socket.Some? && connected) ==>
        pendingJoins == old(pendingJoins) + [(shopId, uid)] && log == old(log)
      ensures shopId != "" && uid != "" && socket.Some? && connected ==>
        pendingJoins == old(pendingJoins) && log == old(log) + [Emit(socket.value, JoinShopMsg(shopId, uid))]
    {
      if shopId == "" || uid == "" {
        return;
      }
      if socket.None? || !connected {
        pendingJoins := pendingJoins + [(shopId, uid)];
        return;
      }
      log := log + [Emit(socket.value, JoinShopMsg(shopId, uid))];
    }

    /** The socket's `connect` event: connected, attempts reset, every pending
        join sent in order, the queue emptied, the promise resolved. */
    method OnConnect()
      requires Valid() && socket.Some?
      modifies this
      ensures Valid() && socket == old(socket)
      ensures connected && reconnectAttempts == 0 && pendingJoins == []
      ensures log == old(log) + JoinEmits(socket.value, old(pendingJoins))
      ensures timeouts == old(timeouts) - {socket.value}
      ensures promises == if old(promises)[socket.value] == Pending then old(promises)[socket.value := Resolved] else old(promises)
      ensures socket == old(socket) && created == old(created) && userId == old(userId)
      ensures reconnectTimers == old(reconnectTimers)
    {
      var s := socket.value;
      timeouts := timeouts - {s};
      connected := true;
      reconnectAttempts := 0;
      var joins := pendingJoins;
      var i := 0;
      while i < |joins|
        invariant 0 <= i <= |joins|
        invariant Valid() && connected && socket == Some(s) && pendingJoins == joins
        invariant log == old(log) + JoinEmits(s, joins[..i])
        invariant timeouts == old(timeouts) - {s} && promises == old(promises)
        invariant created == old(created) && userId == old(userId) && reconnectAttempts == 0
        invariant reconnectTimers == old(reconnectTimers)
      {
        assert joins[i] in pendingJoins;
        JoinShop(joins[i].0, joins[i].1);
        assert JoinEmits(s, joins[..i + 1]) == JoinEmits(s, joins[..i]) + [Emit(s, JoinShopMsg(joins[i].0, joins[i].1))];
        i := i + 1;
      }
      assert joins[..i] == joins;
      pendingJoins := [];
      Settle(s, Resolved);
    }

    /** The socket's `connect_error` event: one more attempt; the promise rejects
        once the count reaches the maximum. */
    method OnConnectError()
      requires Valid() && socket.Some?
      modifies this
      ensures Valid() && socket == old(socket)
      ensures !connected && reconnectAttempts == old(reconnectAttempts) + 1
      ensures timeouts == old(timeouts) - {socket.value}
      ensures promises ==
        if reconnectAttempts >= 10 && old(promises)[socket.value] == Pending
        then old(promises)[socket.value := Rejected]
        else old(promises)
      ensures socket == old(socket) && created == old(created) && userId == old(userId)
      ensures pendingJoins == old(pendingJoins) && log == old(log) && reconnectTimers == old(reconnectTimers)
    {
      var s := socket.value;
      timeouts := timeouts - {s};
      connected := false;
      reconnectAttempts := reconnectAttempts + 1;
      if reconnectAttempts >= MaxReconnectAttempts {
        Settle(s, Rejected);
      }
    }

    /** The socket's `disconnect` event: a reconnect is scheduled only when the
        server ended the connection. */
    method OnDisconnect(reason: string)
      requires Valid() && socket.Some?
      modifies this
      ensures Valid() && !connected
      ensures reconnectTimers == old(reconnectTimers) + (if reason == "io server disconnect" then 1 else 0)
      ensures socket == old(socket) && created == old(created) && userId == old(userId)
      ensures pendingJoins == old(pendingJoins) && log == old(log) && reconnectAttempts == old(reconnectAttempts)
      ensures timeouts == old(timeouts) && promises == old(promises)
    {
      connected := false;
      if reason == ServerDisconnect {
        reconnectTimers := reconnectTimers + 1;
      }
    }

    /** The socket's `error` event. */
    method OnError()
      requires Valid() && socket.Some?
      modifies this
      ensures Valid() && !connected
      ensures socket == old(socket) && created == old(created) && userId == old(userId)
      ensures pendingJoins == old(pendingJoins) && log == old(log) && reconnectAttempts == old(reconnectAttempts)
      ensures timeouts == old(timeouts) && promises == old(promises) && reconnectTimers == old(reconnectTimers)
    {
      connected := false;
    }

    /** The 10 s timeout armed by the `connect` call that created socket `s`. If
        the client is still not connected it closes `this.socket`, which is the
        current socket and not necessarily `s`, and rejects the promise of `s`.
        With no current socket the callback throws before rejecting. */
    method OnConnectionTimeout(s: nat)
      requires Valid() && s in timeouts
      modifies this
      ensures Valid()
      ensures timeouts == old(timeouts) - {s}
      ensures !old(connected) && old(socket).Some? ==>
        log == old(log) + [Close(old(socket).value)]
        && promises == if old(promises)[s] == Pending then old(promises)[s := Rejected] else old(promises)
      ensures old(connected) || old(socket).None? ==> log == old(log) && promises == old(promises)
      ensures socket == old(socket) && connected == old(connected) && created == old(created)
      ensures userId == old(userId) && pendingJoins == old(pendingJoins)
      ensures reconnectAttempts == old(reconnectAttempts) && reconnectTimers == old(reconnectTimers)
    {
      timeouts := timeouts - {s};
      if !connected && socket.Some? {
        log := log + [Close(socket.value)];
        Settle(s, Rejected);
      }
    }

    /** The timeout as evidently intended: it gives up only on its own socket. */
    method OnConnectionTimeoutCorrected(s: nat)
      requires Valid() && s in timeouts
      modifies this
      ensures Valid()
      ensures timeouts == old(timeouts) - {s}
      ensures |old(log)| <= |log| && forall w :: w in log[|old(log)|..] ==> w == Close(s)
      ensures !old(connected) && old(socket) == Some(s) ==>
        log == old(log) + [Close(s)]
        && promises == if old(promises)[s] == Pending then old(promises)[s := Rejected] else old(promises)
      ensures old(connected) || old(socket) != Some(s) ==> log == old(log) && promises == old(promises)
      ensures socket == old(socket) && connected == old(connected) && created == old(created)
      ensures userId == old(userId) && pendingJoins == old(pendingJoins)
      ensures reconnectAttempts == old(reconnectAttempts) && reconnectTimers == old(reconnectTimers)
    {
      timeouts := timeouts - {s};
      if !connected && socket == Some(s) {
        log := log + [Close(s)];
        Settle(s, Rejected);
      }
    }

    /** The 2 s timer scheduled by a server-side disconnect: `connect(this.userId)`. */
    method OnReconnectTimer() returns (r: ConnectCall)
      requires Valid() && reconnectTimers > 0
      modifies this
      ensures Valid()
      ensures reconnectTimers == old(reconnectTimers) - 1
      ensures pendingJoins == old(pendingJoins) && reconnectAttempts == old(reconnectAttempts)
      ensures userId == old(userId)
      ensures !Truthy(old(userId)) ==>
        r == RejectedAtOnce && promises == old(promises)
        && socket == old(socket) && created == old(created) && connected == old(connected)
        && timeouts == old(timeouts) && log == old(log)
      ensures Truthy(old(userId)) && old(socket).Some? && old(connected) ==>
        r == ResolvedAtOnce && socket == old(socket) && created == old(created)
        && connected && timeouts == old(timeouts) && promises == old(promises) && log == old(log)
      ensures Truthy(old(userId)) && !(old(socket).Some? && old(connected)) ==>
        r == Awaiting(old(created))
        && socket == Some(old(created)) && created == old(created) + 1 && connected == old(connected)
        && timeouts == old(timeouts) + {old(created)} && promises == old(promises)[old(created) := Pending]
        && log == old(log) + (if old(socket).Some? then [Close(old(socket).value)] else [])
    {
      reconnectTimers := reconnectTimers - 1;
      r := Connect(userId);
    }

    /** `emitItemChange(type, shopId, data)`: dropped, not queued, unless
        connected and all three arguments are truthy. */
    method EmitItemChange(changeType: string, shopId: string, data: Option<ItemData>)
      requires Valid()
      modifies this`log
      ensures Valid()
      ensures !(socket.Some? && connected) || changeType == "" || shopId == "" || data.None? ==> log == old(log)
      ensures socket.Some? && connected && changeType != "" && shopId != "" && data.Some? ==>
        log == old(log) + [Emit(socket.value, ItemChangeMsg(MakePayload(changeType, shopId, data.value, userId)))]
    {
      if socket.None? || !connected {
        return;
      }
      if changeType == "" || shopId == "" || data.None? {
        return;
      }
      log := log + [Emit(socket.value, ItemChangeMsg(MakePayload(changeType, shopId, data.value, userId)))];
    }

    /** `disconnect()`: tears everything down only when a socket exists; with
        none, even the pending joins stay. */
    method DisconnectClient()
      requires Valid()
      modifies this
      ensures Valid()
      ensures old(socket).None? ==>
        socket.None? && pendingJoins == old(pendingJoins) && log == old(log)
        && userId == old(userId) && connected == old(connected) && reconnectAttempts == old(reconnectAttempts)
      ensures old(socket).Some? ==>
        socket.None? && !connected && pendingJoins == [] && userId.None?
        && reconnectAttempts == 0 && log == old(log) + [Disconnect(old(socket).value)]
      ensures created == old(created) && timeouts == old(timeouts) && promises == old(promises)
      ensures reconnectTimers == old(reconnectTimers)
    {
      if socket.Some? {
        log := log + [Disconnect(socket.value)];
        socket := None;
        connected := false;
        pendingJoins := [];
        userId := None;
        reconnectAttempts := 0;
      }
    }
  }

  /** A second `connect` before the first socket answers, then the first call's
      timeout: the timeout closes the second socket, whose own timeout has not run. */
  method StaleTimeoutClosesNewerSocket()
  {
    var c := new SocketClient();
    var first := c.Connect(Some("u"));
    var second := c.Connect(Some("u"));
    assert first == Awaiting(0) && second == Awaiting(1);
    assert c.log == [Close(0)];
    c.OnConnectionTimeout(0);
    assert c.log == [Close(0), Close(1)];
    assert 1 in c.timeouts;
  }

  /** The same sequence with the corrected timeout leaves the second socket alone. */
  method CorrectedTimeoutKeepsNewerSocket()
  {
    var c := new SocketClient();
    var first := c.Connect(Some("u"));
    var second := c.Connect(Some("u"));
    c.OnConnectionTimeoutCorrected(0);
    assert c.log == [Close(0)];
    assert c.socket == Some(1) && c.promises[1] == Pending;
  }
}
