/** The realtime part of server/src/index.js: the registry of who is online
    (`activeUsers`, user to socket) and who is in which shop (`activeShops`, shop to
    the set of its users), the socket rooms that socket.io keeps, and the socket
    event handlers that change them and relay edits to a shop's room. Every
    `emit` becomes a Delivery: the set of sockets it reaches and the event. */
module Presence {
  import opened Common

  datatype ServerEvent =
    | ActiveUsers(users: seq<string>)
    | ShopUsers(shopId: string, users: seq<string>)
    | UserEditing(itemId: string, userId: string)
    | UserStoppedEditing(itemId: string)
    | ItemUpdate(changeType: string, data: Json, userId: string)

  datatype Delivery = Delivery(to: set<string>, event: ServerEvent)

  function Keys<K, V>(m: Assoc<K, V>): (r: seq<K>)
    ensures |r| == |m| && forall i :: 0 <= i < |m| ==> r[i] == m[i].0
  {
    if |m| == 0 then [] else [m[0].0] + Keys(m[1..])
  }

  /** `set.add(u)` on a JavaScript Set kept in insertion order. */
  function AddToSet(s: seq<string>, u: string): (r: seq<string>)
    ensures u in r && multiset(s) <= multiset(r)
    ensures u in s ==> r == s
  {
    if u in s then s else s + [u]
  }

  /** `set.delete(u)` */
  function DeleteFromSet(s: seq<string>, u: string): (r: seq<string>)
    ensures u !in r
    ensures forall x :: x in r <==> x in s && x != u
  {
    if |s| == 0 then []
    else if s[0] == u then DeleteFromSet(s[1..], u)
    else [s[0]] + DeleteFromSet(s[1..], u)
  }

  /** The shop table after `joinShop`: the set is created on the first join and
      the user added to it. */
  function Joined(shops: Assoc<string, seq<string>>, shopId: string, userId: string): Assoc<string, seq<string>> {
    var current := match Get(shops, shopId) case Some(v) => v case None => [];
    Put(shops, shopId, AddToSet(current, userId))
  }

  /** The join puts the user into the shop's set and touches no other shop. */
  lemma JoinedFacts(shops: Assoc<string, seq<string>>, shopId: string, userId: string, other: string)
    requires KeysDistinct(shops)
    ensures KeysDistinct(Joined(shops, shopId, userId))
    ensures Get(Joined(shops, shopId, userId), shopId).Some?
    ensures userId in Get(Joined(shops, shopId, userId), shopId).value
    ensures other != shopId ==> Get(Joined(shops, shopId, userId), other) == Get(shops, other)
  {
    var current := match Get(shops, shopId) case Some(v) => v case None => [];
    PutGet(shops, shopId, AddToSet(current, userId), shopId);
    PutGet(shops, shopId, AddToSet(current, userId), other);
  }

  /** Joining the same shop twice as the same user leaves the table as it was. */
  lemma JoinIdempotent(shops: Assoc<string, seq<string>>, shopId: string, userId: string)
    requires KeysDistinct(shops)
    ensures Joined(Joined(shops, shopId, userId), shopId, userId) == Joined(shops, shopId, userId)
  {
    var once := Joined(shops, shopId, userId);
    JoinedFacts(shops, shopId, userId, shopId);
    var v := Get(once, shopId).value;
    assert AddToSet(v, userId) == v;
    var i := IndexOfKey(once, shopId).value;
    assert once[i] == (shopId, v);
    assert once[i := (shopId, v)] == once;
  }

  /** The shop table after the user has left every shop, and the shops whose set
      held the user, in table order. */
  function LeftAll(shops: Assoc<string, seq<string>>, userId: string): (r: Assoc<string, seq<string>>)
    ensures |r| == |shops|
    ensures forall i :: 0 <= i < |r| ==> r[i] == (shops[i].0, DeleteFromSet(shops[i].1, userId))
  {
    if |shops| == 0 then []
    else [(shops[0].0, DeleteFromSet(shops[0].1, userId))] + LeftAll(shops[1..], userId)
  }

  /** The users of a shop's set, in insertion order; none for a shop without one. */
  function Members(shops: Assoc<string, seq<string>>, shopId: string): seq<string> {
    match Get(shops, shopId) case Some(v) => v case None => []
  }

  function ShopsHolding(shops: Assoc<string, seq<string>>, userId: string): seq<string> {
    if |shops| == 0 then []
    else (if userId in shops[0].1 then [shops[0].0] else []) + ShopsHolding(shops[1..], userId)
  }

  /** The user of the first entry, in insertion order, whose socket is `socketId`. */
  function FirstUserOf(users: Assoc<string, string>, socketId: string): (r: Option<string>)
    ensures r.None? <==> forall i :: 0 <= i < |users| ==> users[i].1 != socketId
    ensures r.Some? ==>
      exists i :: 0 <= i < |users| && users[i] == (r.value, socketId)
        && forall k :: 0 <= k < i ==> users[k].1 != socketId
  {
    if |users| == 0 then None
    else if users[0].1 == socketId then Some(users[0].0)
    else
      var r := FirstUserOf(users[1..], socketId);
      assert forall k :: 1 <= k < |users| ==> users[k] == users[1..][k - 1];
      r
  }

  /** `for (const [uid, sid] of activeUsers.entries()) if (sid === socketId) { userId = uid; break; }` */
  method FindUserOfSocket(users: Assoc<string, string>, socketId: string) returns (found: Option<string>)
    ensures found == FirstUserOf(users, socketId)
  {
    found := None;
    var i := 0;
    while i < |users|
      invariant 0 <= i <= |users|
      invariant FirstUserOf(users[i..], socketId) == FirstUserOf(users, socketId)
    {
      assert users[i..][1..] == users[i + 1..];
      if users[i].1 == socketId {
        found := Some(users[i].0);
        return;
      }
      i := i + 1;
    }
  }

  /** The cleanup loop of `disconnect`: delete the user from every shop set, and
      collect the shops whose set held it. */
  method LeaveAllShops(shops: Assoc<string, seq<string>>, userId: string)
    returns (r: Assoc<string, seq<string>>, touched: seq<string>)
    ensures r == LeftAll(shops, userId)
    ensures touched == ShopsHolding(shops, userId)
  {
    r, touched := [], [];
    var i := 0;
    while i < |shops|
      invariant 0 <= i <= |shops|
      invariant |r| == i && forall k :: 0 <= k < i ==> r[k] == (shops[k].0, DeleteFromSet(shops[k].1, userId))
      invariant touched + ShopsHolding(shops[i..], userId) == ShopsHolding(shops, userId)
    {
      var (shopId, users) := shops[i];
      LeaveStep(shops, userId, i);
      if userId in users {
        touched := touched + [shopId];
      }
      r := r + [(shopId, DeleteFromSet(users, userId))];
      i := i + 1;
    }
  }

  lemma LeaveStep(shops: Assoc<string, seq<string>>, userId: string, i: nat)
    requires i < |shops|
    ensures ShopsHolding(shops[i..], userId)
      == (if userId in shops[i].1 then [shops[i].0] else []) + ShopsHolding(shops[i + 1..], userId)
  {
    assert shops[i..][1..] == shops[i + 1..];
  }

  /** Leaving every shop removes exactly that user and nothing else. */
  lemma LeftAllFacts(shops: Assoc<string, seq<string>>, userId: string, i: nat, x: string)
    requires i < |shops|
    ensures LeftAll(shops, userId)[i].0 == shops[i].0
    ensures userId !in LeftAll(shops, userId)[i].1
    ensures x != userId ==> (x in LeftAll(shops, userId)[i].1 <==> x in shops[i].1)
  {
  }

  lemma {:induction false} LeftAllKeepsKeys(shops: Assoc<string, seq<string>>, userId: string)
    requires KeysDistinct(shops)
    ensures KeysDistinct(LeftAll(shops, userId))
  {
  }

  /** A user that is in no shop leaves the table unchanged. */
  lemma {:induction false} LeftAllNoop(shops: Assoc<string, seq<string>>, userId: string)
    requires forall i :: 0 <= i < |shops| ==> userId !in shops[i].1
    ensures LeftAll(shops, userId) == shops
  {
    if |shops| > 0 {
      DeleteAbsent(shops[0].1, userId);
      LeftAllNoop(shops[1..], userId);
    }
  }

  lemma {:induction false} DeleteAbsent(s: seq<string>, u: string)
    requires u !in s
    ensures DeleteFromSet(s, u) == s
  {
    if |s| > 0 {
      DeleteAbsent(s[1..], u);
    }
  }

  class Registry {
    /** The connected sockets, and the shop rooms each one has joined. */
    var rooms: map<string, set<string>>
    var activeUsers: Assoc<string, string>
    var activeShops: Assoc<string, seq<string>>

    ghost predicate Valid()
      reads this
    {
      KeysDistinct(activeUsers) && KeysDistinct(activeShops)
    }

    constructor ()
      ensures Valid() && rooms == map[] && activeUsers == [] && activeShops == []
    {
      rooms, activeUsers, activeShops := map[], [], [];
    }

    /** `io.to(shopId)`: every socket in the shop's room. */
    function Room(shopId: string): (r: set<string>)
      reads this
      ensures forall s :: s in r <==> s in rooms && shopId in rooms[s]
    {
      set s | s in rooms && shopId in rooms[s]
    }

    /** A new socket connects. */
    method Connection(socketId: string)
      requires Valid() && socketId !in rooms
      modifies this
      ensures Valid()
      ensures rooms == old(rooms)[socketId := {}]
      ensures activeUsers == old(activeUsers) && activeShops == old(activeShops)
    {
      rooms := rooms[socketId := {}];
    }

    /** `userConnected`: the user now maps to this socket, replacing any earlier
        one, and every socket hears the new list of online users. */
    method UserConnected(socketId: string, userId: string) returns (out: seq<Delivery>)
      requires Valid() && socketId in rooms
      modifies this
      ensures Valid() && rooms == old(rooms) && activeShops == old(activeShops)
      ensures activeUsers == Put(old(activeUsers), userId, socketId)
      ensures Get(activeUsers, userId) == Some(socketId)
      ensures forall u :: u != userId ==> Get(activeUsers, u) == Get(old(activeUsers), u)
      ensures out == [Delivery(rooms.Keys, ActiveUsers(Keys(activeUsers)))]
    {
      forall u ensures Get(Put(activeUsers, userId, socketId), u) == if u == userId then Some(socketId) else Get(activeUsers, u) {
        PutGet(activeUsers, userId, socketId, u);
      }
      activeUsers := Put(activeUsers, userId, socketId);
      out := [Delivery(rooms.Keys, ActiveUsers(Keys(activeUsers)))];
    }

    /** `joinShop`: the socket joins the room, the user joins the shop's set, and
        the whole room (the joining socket included) hears the shop's users. */
    method JoinShop(socketId: string, shopId: string, userId: string) returns (out: seq<Delivery>)
      requires Valid() && socketId in rooms
      modifies this
      ensures Valid() && activeUsers == old(activeUsers)
      ensures rooms == old(rooms)[socketId := old(rooms)[socketId] + {shopId}]
      ensures activeShops == Joined(old(activeShops), shopId, userId)
      ensures Get(activeShops, shopId).Some? && userId in Get(activeShops, shopId).value
      ensures out == [Delivery(Room(shopId), ShopUsers(shopId, Get(activeShops, shopId).value))]
    {
      rooms := rooms[socketId := rooms[socketId] + {shopId}];
      JoinedFacts(activeShops, shopId, userId, shopId);
      activeShops := Joined(activeShops, shopId, userId);
      out := [Delivery(Room(shopId), ShopUsers(shopId, Get(activeShops, shopId).value))];
    }

    /** `startEditing`: relayed to the shop's room, except the sending socket. */
    method StartEditing(socketId: string, shopId: string, itemId: string, userId: string) returns (out: seq<Delivery>)
      ensures |out| == 1 && out[0].event == UserEditing(itemId, userId)
      ensures forall s :: s in out[0].to <==> s in Room(shopId) && s != socketId
    {
      out := [Delivery(Room(shopId) - {socketId}, UserEditing(itemId, userId))];
    }

    /** `stopEditing`: relayed to the shop's room, except the sending socket. */
    method StopEditing(socketId: string, shopId: string, itemId: string) returns (out: seq<Delivery>)
      ensures |out| == 1 && out[0].event == UserStoppedEditing(itemId)
      ensures forall s :: s in out[0].to <==> s in Room(shopId) && s != socketId
    {
      out := [Delivery(Room(shopId) - {socketId}, UserStoppedEditing(itemId))];
    }

    /** `itemChanged`: type, data and userId are passed on untouched as `itemUpdate`
        to the shop's room, except the sending socket. */
    method ItemChanged(socketId: string, shopId: string, changeType: string, data: Json, userId: string)
      returns (out: seq<Delivery>)
      ensures |out| == 1 && out[0].event == ItemUpdate(changeType, data, userId)
      ensures forall s :: s in out[0].to <==> s in Room(shopId) && s != socketId
    {
      out := [Delivery(Room(shopId) - {socketId}, ItemUpdate(changeType, data, userId))];
    }

    /** The `shopUsers` message of each shop in `touched`, in that order: the
        shop's room hears the users now in its set. */
    method ShopUsersMessages(touched: seq<string>) returns (out: seq<Delivery>)
      ensures |out| == |touched|
      ensures forall k :: 0 <= k < |touched| ==>
        out[k] == Delivery(Room(touched[k]), ShopUsers(touched[k], Members(activeShops, touched[k])))
    {
      out := [];
      var i := 0;
      while i < |touched|
        invariant 0 <= i <= |touched| && |out| == i
        invariant forall k :: 0 <= k < i ==>
          out[k] == Delivery(Room(touched[k]), ShopUsers(touched[k], Members(activeShops, touched[k])))
      {
        out := out + [Delivery(Room(touched[i]), ShopUsers(touched[i], Members(activeShops, touched[i])))];
        i := i + 1;
      }
    }

    /** `disconnect`: socket.io has already taken the socket out of its rooms. The
        first user mapped to this socket, if any (and if its id is truthy), goes
        offline and leaves every shop set; each shop that held it and then every
        socket are told. A socket that never sent `userConnected` changes neither
        table. */
    method Disconnect(socketId: string) returns (out: seq<Delivery>)
      requires Valid() && socketId in rooms
      modifies this
      ensures Valid()
      ensures rooms == old(rooms) - {socketId}
      ensures var found := FirstUserOf(old(activeUsers), socketId);
        found.None? || found.value == "" ==>
        activeUsers == old(activeUsers) && activeShops == old(activeShops) && out == []
      ensures var found := FirstUserOf(old(activeUsers), socketId);
        found.Some? && found.value != "" ==>
        var uid := found.value;
        activeUsers == Remove(old(activeUsers), uid)
        && Get(activeUsers, uid).None?
        && (forall u :: u != uid ==> Get(activeUsers, u) == Get(old(activeUsers), u))
        && activeShops == LeftAll(old(activeShops), uid)
        && var touched := ShopsHolding(old(activeShops), uid);
        |out| == |touched| + 1
        && (forall k :: 0 <= k < |touched| ==>
              out[k] == Delivery(Room(touched[k]), ShopUsers(touched[k], Members(activeShops, touched[k]))))
        && out[|out| - 1] == Delivery(rooms.Keys, ActiveUsers(Keys(activeUsers)))
    {
      rooms := rooms - {socketId};
      var found := FindUserOfSocket(activeUsers, socketId);
      out := [];
      if found.Some? && found.value != "" {
        var uid := found.value;
        forall u ensures Get(Remove(activeUsers, uid), u) == if u == uid then None else Get(activeUsers, u) {
          RemoveGet(activeUsers, uid, u);
        }
        RemoveDistinct(activeUsers, uid);
        activeUsers := Remove(activeUsers, uid);
        var shops, touched := LeaveAllShops(activeShops, uid);
        LeftAllKeepsKeys(activeShops, uid);
        activeShops := shops;
        out := ShopUsersMessages(touched);
        out := out + [Delivery(rooms.Keys, ActiveUsers(Keys(activeUsers)))];
      }
    }
  }
}
