/** The hook of client/src/hooks/useSocketConnection.js: how one relayed change
    is merged into the cached item list of a shop, and the effect that connects,
    joins the shop's room and later disconnects. */
module SocketConnection {
  import opened Common
  import opened ClientItems
  import opened SocketClientModel

  /** `oldData.map(...)`: every entry with the item's id becomes the item. */
  function ReplaceById(cache: seq<ClientItem>, item: ClientItem): (r: seq<ClientItem>)
    ensures |r| == |cache|
    ensures forall i :: 0 <= i < |cache| ==> r[i] == (if cache[i].id == item.id then item else cache[i])
  {
    if |cache| == 0 then []
    else [if cache[0].id == item.id then item else cache[0]] + ReplaceById(cache[1..], item)
  }

  /** `oldData.filter(...)`: every entry with the item's id is dropped. */
  function DropById(cache: seq<ClientItem>, id: string): (r: seq<ClientItem>)
    ensures |r| <= |cache|
  {
    if |cache| == 0 then []
    else if cache[0].id == id then DropById(cache[1..], id)
    else [cache[0]] + DropById(cache[1..], id)
  }

  /** The cache after one `itemChange` from `sender`; `None` is a list not yet fetched. */
  function Merge(cache: Option<seq<ClientItem>>, changeType: string, item: ClientItem,
                 sender: Option<string>, localUser: string): (r: Option<seq<ClientItem>>)
    ensures sender == Some(localUser) ==> r == cache
    ensures sender != Some(localUser) && cache.None? ==> r == Some([item])
    ensures sender != Some(localUser) && cache.Some? ==> r.Some?
  {
    if sender == Some(localUser) then cache
    else if cache.None? then Some([item])
    else if changeType == "updated" then Some(ReplaceById(cache.value, item))
    else if changeType == "added" then Some(cache.value + [item])
    else if changeType == "deleted" then Some(DropById(cache.value, item.id))
    else cache
  }

  lemma {:induction false} DropByIdKeeps(cache: seq<ClientItem>, id: string, x: ClientItem)
    ensures x in DropById(cache, id) <==> x in cache && x.id != id
  {
    if |cache| > 0 {
      DropByIdKeeps(cache[1..], id, x);
      assert cache == [cache[0]] + cache[1..];
    }
  }

  lemma {:induction false} DropByIdCount(cache: seq<ClientItem>, id: string, x: ClientItem)
    ensures multiset(DropById(cache, id))[x] == if x.id == id then 0 else multiset(cache)[x]
  {
    if |cache| > 0 {
      DropByIdCount(cache[1..], id, x);
      assert cache == [cache[0]] + cache[1..];
    }
  }

  lemma {:induction false} DropByIdConcat(a: seq<ClientItem>, b: seq<ClientItem>, id: string)
    ensures DropById(a + b, id) == DropById(a, id) + DropById(b, id)
  {
    if |a| > 0 {
      DropByIdConcat(a[1..], b, id);
      assert (a + b)[1..] == a[1..] + b;
    } else {
      assert a + b == b;
    }
  }

  lemma {:induction false} DropByIdSplitAt(cache: seq<ClientItem>, id: string, j: nat)
    requires j <= |cache|
    ensures DropById(cache, id) == DropById(cache[..j], id) + DropById(cache[j..], id)
  {
    DropByIdConcat(cache[..j], cache[j..], id);
    assert cache[..j] + cache[j..] == cache;
  }

  lemma {:induction false} DropByIdTwice(cache: seq<ClientItem>, id: string)
    ensures DropById(DropById(cache, id), id) == DropById(cache, id)
  {
    if |cache| > 0 {
      DropByIdTwice(cache[1..], id);
      if cache[0].id != id {
        var t := [cache[0]] + DropById(cache[1..], id);
        assert t[0] == cache[0] && t[1..] == DropById(cache[1..], id);
      }
    }
  }

  /** The filter drops exactly the entries with the id, each as often as it
      occurs, and keeps the survivors in their order (what survives of any prefix
      comes first); filtering again changes nothing. */
  lemma {:induction false} DropByIdSubsequence(cache: seq<ClientItem>, id: string)
    ensures forall x :: multiset(DropById(cache, id))[x] == if x.id == id then 0 else multiset(cache)[x]
    ensures forall j :: 0 <= j <= |cache| ==> DropById(cache, id) == DropById(cache[..j], id) + DropById(cache[j..], id)
    ensures DropById(DropById(cache, id), id) == DropById(cache, id)
  {
    forall x
      ensures multiset(DropById(cache, id))[x] == if x.id == id then 0 else multiset(cache)[x]
    {
      DropByIdCount(cache, id, x);
    }
    forall j | 0 <= j <= |cache|
      ensures DropById(cache, id) == DropById(cache[..j], id) + DropById(cache[j..], id)
    {
      DropByIdSplitAt(cache, id, j);
    }
    DropByIdTwice(cache, id);
  }

  /** 'updated' replaces matching entries in place: same length, same order,
      and an absent id inserts nothing. */
  lemma UpdatedMerge(cache: seq<ClientItem>, item: ClientItem, sender: Option<string>, localUser: string)
    requires sender != Some(localUser)
    ensures var r := Merge(Some(cache), "updated", item, sender, localUser).value;
      && |r| == |cache|
      && (forall i :: 0 <= i < |cache| && cache[i].id == item.id ==> r[i] == item)
      && (forall i :: 0 <= i < |cache| && cache[i].id != item.id ==> r[i] == cache[i])
      && ((forall i :: 0 <= i < |cache| ==> cache[i].id != item.id) ==> r == cache)
  {
  }

  /** 'added' appends, even when the id is already cached, so a repeat grows the list again. */
  lemma AddedMerge(cache: seq<ClientItem>, item: ClientItem, sender: Option<string>, localUser: string)
    requires sender != Some(localUser)
    ensures var once := Merge(Some(cache), "added", item, sender, localUser);
      && once == Some(cache + [item])
      && |Merge(once, "added", item, sender, localUser).value| == |cache| + 2
      && Merge(once, "added", item, sender, localUser) != once
  {
  }

  /** 'deleted' drops every entry with the id, keeps the rest, and is idempotent. */
  lemma {:induction false} DeletedMerge(cache: seq<ClientItem>, item: ClientItem, sender: Option<string>, localUser: string)
    requires sender != Some(localUser)
    ensures var once := Merge(Some(cache), "deleted", item, sender, localUser);
      && (forall x :: x in once.value <==> x in cache && x.id != item.id)
      && Merge(once, "deleted", item, sender, localUser) == once
  {
    var once := Merge(Some(cache), "deleted", item, sender, localUser);
    forall x
      ensures x in once.value <==> x in cache && x.id != item.id
    {
      DropByIdKeeps(cache, item.id, x);
    }
    DropByIdTwice(cache, item.id);
  }

  /** Without a cached list even a deletion caches the item; any other type
      leaves an existing list alone. */
  lemma OtherMerges(cache: Option<seq<ClientItem>>, changeType: string, item: ClientItem, sender: Option<string>, localUser: string)
    requires sender != Some(localUser)
    ensures cache.None? ==> Merge(cache, "deleted", item, sender, localUser) == Some([item])
    ensures changeType != "updated" && changeType != "added" && changeType != "deleted" ==>
      Merge(cache, changeType, item, sender, localUser) == if cache.None? then Some([item]) else cache
  {
  }

  /** The effect: `connect(user)` then `joinShop(shop, user)`. On a client with
      no socket the join waits in the queue, and the connect event sends it; a
      socket still connecting is closed and replaced, and the join waits for the
      new one. */
  method Mount(client: SocketClient, shopId: string, userId: string) returns (r: ConnectCall)
    requires client.Valid()
    modifies client
    ensures client.Valid()
    ensures old(client.socket).None? && userId != "" && shopId != "" ==>
      r == Awaiting(old(client.created)) && client.socket == Some(old(client.created))
      && client.pendingJoins == old(client.pendingJoins) + [(shopId, userId)] && client.log == old(client.log)
    ensures old(client.socket).Some? && old(client.connected) && userId != "" && shopId != "" ==>
      r == ResolvedAtOnce && client.pendingJoins == old(client.pendingJoins)
      && client.log == old(client.log) + [Emit(old(client.socket).value, JoinShopMsg(shopId, userId))]
    ensures old(client.socket).Some? && !old(client.connected) && userId != "" && shopId != "" ==>
      r == Awaiting(old(client.created)) && client.socket == Some(old(client.created))
      && client.pendingJoins == old(client.pendingJoins) + [(shopId, userId)]
      && client.log == old(client.log) + [Close(old(client.socket).value)]
    ensures userId == "" ==>
      r == RejectedAtOnce && client.socket == old(client.socket)
      && client.pendingJoins == old(client.pendingJoins) && client.log == old(client.log)
  {
    r := client.Connect(Some(userId));
    client.JoinShop(shopId, userId);
  }

  /** Mount, then the socket connects: the join after any earlier queued ones is sent. */
  method MountThenConnect(client: SocketClient, shopId: string, userId: string)
    requires client.Valid() && client.socket.None? && userId != "" && shopId != ""
    modifies client
    ensures client.Valid() && client.connected && client.pendingJoins == []
    ensures client.log == old(client.log) + JoinEmits(old(client.created), old(client.pendingJoins) + [(shopId, userId)])
  {
    var _ := Mount(client, shopId, userId);
    client.OnConnect();
  }

  /** The effect's cleanup: `disconnect()`. */
  method Cleanup(client: SocketClient)
    requires client.Valid()
    modifies client
    ensures client.Valid() && client.socket.None? && client.pendingJoins == (if old(client.socket).Some? then [] else old(client.pendingJoins))
  {
    client.DisconnectClient();
  }
}
