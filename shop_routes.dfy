/** The shop and item handlers of server/src/routes/shops.js over an in-memory
    store of shop records. Each handler is a method of ShopStore; the decision it
    takes about one item (the advisory lock with its five-minute time-to-live, the
    field update, the reordering) is a function with its own contract. The caller
    is always authenticated (the 401 middleware is not modelled) and `now` is the
    server clock in milliseconds. */
module ShopRoutes {
  import opened Common
  import opened ShopModel

  /** Five minutes in milliseconds. */
  const LockTtlMs: int := 5 * 60 * 1000

  /** `new Date(item.lockedAt)`: a null lock time is the epoch. */
  function LockTime(it: Item): int {
    if it.lockedAt.Some? then it.lockedAt.value else 0
  }

  /** The lock is held by somebody other than `caller` and is not yet older than
      the time-to-live; an expired lock is just ignored, never swept. */
  predicate HeldByOther(it: Item, caller: string, now: int) {
    it.lockedBy.Some? && it.lockedBy.value != caller && !(now - LockTime(it) > LockTtlMs)
  }

  function Unlock(it: Item): (r: Item)
    ensures Unlocked(r) && LockConsistent(r)
  {
    it.(lockedBy := None, lockedAt := None, lockedByName := None)
  }

  /** POST .../lock on one item. */
  function Acquire(it: Item, caller: string, callerName: Option<string>, now: int): (r: Response<Item>)
    ensures r.Ok? || r.Locked?
    ensures r.Ok? <==> it.lockedBy.None? || it.lockedBy == Some(caller) || now - LockTime(it) > 300000
    ensures r.Ok? ==> r.value == it.(lockedBy := Some(caller), lockedAt := Some(now), lockedByName := callerName)
    ensures r.Locked? ==> r.heldBy == it.lockedByName
  {
    if HeldByOther(it, caller, now) then Locked(it.lockedByName)
    else Ok(it.(lockedBy := Some(caller), lockedAt := Some(now), lockedByName := callerName))
  }

  /** POST .../unlock on one item. */
  function Release(it: Item, caller: string, now: int): (r: Response<Item>)
    ensures r.Ok? || r.Forbidden?
    ensures r.Forbidden? <==> it.lockedBy.Some? && it.lockedBy.value != caller && now - LockTime(it) <= 300000
    ensures r.Ok? ==> r.value == it.(lockedBy := None, lockedAt := None, lockedByName := None)
  {
    if HeldByOther(it, caller, now) then Forbidden else Ok(Unlock(it))
  }

  /** The field writes of an update: `completed` and `order` whenever they are
      present (so false and 0 are written), `name`, `quantity` and `unit` only when
      truthy (so "" and 0 keep the old value). */
  function PatchFields(it: Item, p: ItemPatch): (r: Item)
    ensures r.completed == (if p.completed.Some? then p.completed.value else it.completed)
    ensures r.order == (if p.order.Some? then p.order.value else it.order)
    ensures r.name == (if p.name.Some? && p.name.value != "" then p.name else it.name)
    ensures r.quantity == (if p.quantity.Some? && p.quantity.value != 0 then p.quantity.value else it.quantity)
    ensures r.unit == (if p.unit.Some? && p.unit.value != "" then p.unit.value else it.unit)
    ensures r.id == it.id && r.addedBy == it.addedBy && r.createdAt == it.createdAt
    ensures r.lockedBy == it.lockedBy && r.lockedAt == it.lockedAt && r.lockedByName == it.lockedByName
  {
    var a := if p.completed.Some? then it.(completed := p.completed.value) else it;
    var b := if Truthy(p.name) then a.(name := p.name) else a;
    var c := if p.quantity.Some? && p.quantity.value != 0 then b.(quantity := p.quantity.value) else b;
    var d := if Truthy(p.unit) then c.(unit := p.unit.value) else c;
    if p.order.Some? then d.(order := p.order.value) else d
  }

  /** PATCH .../items/:itemId on one item: refused exactly when a lock would be,
      and on success the edit also releases any lock. */
  function ApplyEdit(it: Item, caller: string, now: int, p: ItemPatch): (r: Response<Item>)
    ensures r.Ok? || r.Locked?
    ensures forall name: Option<string> :: r.Ok? <==> Acquire(it, caller, name, now).Ok?
    ensures r.Locked? ==> r.heldBy == it.lockedByName
    ensures r.Ok? ==> Unlocked(r.value) && r.value == Unlock(PatchFields(it, p))
  {
    if HeldByOther(it, caller, now) then Locked(it.lockedByName) else Ok(Unlock(PatchFields(it, p)))
  }

  lemma LockFunctionsKeepConsistency(it: Item, caller: string, name: Option<string>, now: int, p: ItemPatch)
    ensures Acquire(it, caller, name, now).Ok? ==> LockConsistent(Acquire(it, caller, name, now).value)
    ensures Release(it, caller, now).Ok? ==> LockConsistent(Release(it, caller, now).value)
    ensures ApplyEdit(it, caller, now, p).Ok? ==> LockConsistent(ApplyEdit(it, caller, now, p).value)
  {
  }

  /** Re-locking by the holder never fails, whatever the lock's age. */
  lemma RelockByHolder(it: Item, caller: string, name: Option<string>, now: int)
    requires it.lockedBy == Some(caller)
    ensures Acquire(it, caller, name, now).Ok?
  {
  }

  /** X locks an unlocked item; Y, a minute later, is refused with X's name. */
  lemma LockScenarioWithinTtl(it: Item, x: string, xName: string, y: string, t: int)
    requires Unlocked(it) && x != y
    ensures var first := Acquire(it, x, Some(xName), t);
      first.Ok? && first.value.lockedBy == Some(x)
      && Acquire(first.value, y, None, t + 60000) == Locked(Some(xName))
  {
  }

  /** X locks, six minutes pass, Y takes the lock over. */
  lemma LockScenarioAfterTtl(it: Item, x: string, xName: string, y: string, yName: string, t: int)
    requires Unlocked(it) && x != y
    ensures var first := Acquire(it, x, Some(xName), t);
      var second := Acquire(first.value, y, Some(yName), t + 360000);
      second.Ok? && second.value.lockedBy == Some(y) && second.value.lockedByName == Some(yName)
  {
  }

  // ---------------------------------------------------------------------------
  // Finding items and moving them.

  /** `shop.items.id(itemId)` and `items.findIndex(...)`: the first item with that id. */
  function FindItem(items: seq<Item>, itemId: string): (r: Option<nat>)
    ensures r.Some? ==> r.value < |items| && items[r.value].id == itemId
    ensures r.Some? ==> forall k :: 0 <= k < r.value ==> items[k].id != itemId
    ensures r.None? ==> forall k :: 0 <= k < |items| ==> items[k].id != itemId
  {
    if |items| == 0 then None
    else if items[0].id == itemId then Some(0)
    else
      match FindItem(items[1..], itemId)
      case None => assert forall k :: 1 <= k < |items| ==> items[k] == items[1..][k - 1]; None
      case Some(i) => Some(i + 1)
  }

  /** The insertion point `Array.prototype.splice(start, 0, x)` uses on an array
      of length `len`: a negative start counts from the end, and both ends clamp. */
  function SpliceStart(start: int, len: nat): (p: nat)
    ensures p <= len
    ensures 0 <= start <= len ==> p == start
    ensures start > len ==> p == len
  {
    if start < 0 then (if len + start < 0 then 0 else len + start)
    else if start > len then len
    else start
  }

  function RemoveAt<T>(s: seq<T>, i: nat): (r: seq<T>)
    requires i < |s|
    ensures |r| == |s| - 1
  {
    s[..i] + s[i + 1..]
  }

  function InsertAt<T>(s: seq<T>, p: nat, x: T): (r: seq<T>)
    requires p <= |s|
    ensures |r| == |s| + 1
  {
    s[..p] + [x] + s[p..]
  }

  /** `const [item] = items.splice(from, 1); items.splice(to, 0, item)`. */
  function Moved<T>(s: seq<T>, from: nat, to: int): seq<T>
    requires from < |s|
  {
    InsertAt(RemoveAt(s, from), SpliceStart(to, |s| - 1), s[from])
  }

  lemma InsertAtFacts<T>(s: seq<T>, p: nat, x: T)
    requires p <= |s|
    ensures InsertAt(s, p, x)[p] == x
    ensures RemoveAt(InsertAt(s, p, x), p) == s
    ensures multiset(InsertAt(s, p, x)) == multiset(s) + multiset{x}
  {
    var m := InsertAt(s, p, x);
    assert m[..p] == s[..p];
    assert m[p + 1..] == s[p..];
    assert s == s[..p] + s[p..];
  }

  lemma RemoveAtFacts<T>(s: seq<T>, i: nat)
    requires i < |s|
    ensures multiset(RemoveAt(s, i)) + multiset{s[i]} == multiset(s)
  {
    assert s == s[..i] + [s[i]] + s[i + 1..];
  }

  /** Moving keeps the length and the elements, puts the moved element at the
      insertion point, and leaves every other element in its relative order. */
  lemma MovedFacts<T>(s: seq<T>, from: nat, to: int)
    requires from < |s|
    ensures var p := SpliceStart(to, |s| - 1);
      |Moved(s, from, to)| == |s|
      && Moved(s, from, to)[p] == s[from]
      && RemoveAt(Moved(s, from, to), p) == RemoveAt(s, from)
      && multiset(Moved(s, from, to)) == multiset(s)
  {
    var p := SpliceStart(to, |s| - 1);
    InsertAtFacts(RemoveAt(s, from), p, s[from]);
    RemoveAtFacts(s, from);
  }

  /** `items.forEach((item, index) => { item.order = index })`. */
  method Renumber(items: seq<Item>) returns (r: seq<Item>)
    ensures |r| == |items|
    ensures forall i :: 0 <= i < |r| ==> r[i] == items[i].(order := i)
  {
    r := items;
    var i := 0;
    while i < |r|
      invariant 0 <= i <= |r| == |items|
      invariant forall k :: 0 <= k < i ==> r[k] == items[k].(order := k)
      invariant forall k :: i <= k < |r| ==> r[k] == items[k]
    {
      r := r[i := r[i].(order := i)];
      i := i + 1;
    }
  }

  /** What a reorder leaves in the shop: the moved item at the insertion point,
      the others in their old relative order, every `order` equal to the position. */
  lemma ReorderFacts(items: seq<Item>, from: nat, to: int, r: seq<Item>)
    requires from < |items|
    requires |r| == |items|
    requires forall i :: 0 <= i < |r| ==> r[i] == Moved(items, from, to)[i].(order := i)
    ensures forall i :: 0 <= i < |r| ==> r[i].order == i
    ensures 0 <= to < |items| ==> r[to] == items[from].(order := to)
    ensures var p := SpliceStart(to, |items| - 1);
      forall i :: 0 <= i < |items| - 1 ==>
        RemoveAt(r, p)[i].id == RemoveAt(items, from)[i].id
  {
    MovedFacts(items, from, to);
    var p := SpliceStart(to, |items| - 1);
    var m := Moved(items, from, to);
    forall i | 0 <= i < |items| - 1
      ensures RemoveAt(r, p)[i].id == RemoveAt(items, from)[i].id
    {
      var j := if i < p then i else i + 1;
      assert RemoveAt(r, p)[i] == r[j];
      assert RemoveAt(m, p)[i] == m[j];
    }
  }

  /** Which shop and item a request names. */
  datatype Located = NoShop | NoItem | At(index: nat, item: Item)

  function Locate(shops: map<string, ShopRecord>, shopId: string, itemId: string): (l: Located)
    ensures l.NoShop? <==> shopId !in shops
    ensures l.At? ==>
      (shopId in shops && l.index < |shops[shopId].items|
       && l.item == shops[shopId].items[l.index] && l.item.id == itemId)
  {
    if shopId !in shops then NoShop
    else match FindItem(shops[shopId].items, itemId)
      case None => NoItem
      case Some(i) => At(i, shops[shopId].items[i])
  }

  /** The shops after item `i` of shop `shopId` is replaced by `it`. */
  function WithItem(shops: map<string, ShopRecord>, shopId: string, i: nat, it: Item): map<string, ShopRecord>
    requires shopId in shops && i < |shops[shopId].items|
  {
    shops[shopId := shops[shopId].(items := shops[shopId].items[i := it])]
  }

  /** Keep the items whose id differs from `itemId`. */
  function WithoutId(items: seq<Item>, itemId: string): (r: seq<Item>)
    ensures |r| <= |items|
    ensures forall k :: 0 <= k < |r| ==> r[k].id != itemId
  {
    if |items| == 0 then []
    else if items[0].id == itemId then WithoutId(items[1..], itemId)
    else [items[0]] + WithoutId(items[1..], itemId)
  }

  lemma {:induction false} WithoutIdKeeps(items: seq<Item>, itemId: string, it: Item)
    ensures it in WithoutId(items, itemId) <==> it in items && it.id != itemId
  {
    if |items| > 0 {
      WithoutIdKeeps(items[1..], itemId, it);
      assert items == [items[0]] + items[1..];
    }
  }

  /** Each item occurs in the result as often as in the input, unless it has the id. */
  lemma {:induction false} WithoutIdCount(items: seq<Item>, itemId: string, it: Item)
    ensures multiset(WithoutId(items, itemId))[it] == if it.id == itemId then 0 else multiset(items)[it]
  {
    if |items| > 0 {
      WithoutIdCount(items[1..], itemId, it);
      assert items == [items[0]] + items[1..];
    }
  }

  /** Filtering a concatenation filters each part: the survivors keep their order. */
  lemma {:induction false} WithoutIdConcat(a: seq<Item>, b: seq<Item>, itemId: string)
    ensures WithoutId(a + b, itemId) == WithoutId(a, itemId) + WithoutId(b, itemId)
  {
    if |a| > 0 {
      WithoutIdConcat(a[1..], b, itemId);
      assert (a + b)[1..] == a[1..] + b;
    } else {
      assert a + b == b;
    }
  }

  lemma {:induction false} WithoutIdNoMatch(items: seq<Item>, itemId: string)
    requires forall k :: 0 <= k < |items| ==> items[k].id != itemId
    ensures WithoutId(items, itemId) == items
  {
    if |items| > 0 {
      WithoutIdNoMatch(items[1..], itemId);
    }
  }

  lemma WithoutIdCounts(items: seq<Item>, itemId: string)
    ensures forall it :: multiset(WithoutId(items, itemId))[it] == if it.id == itemId then 0 else multiset(items)[it]
    ensures forall it :: it in WithoutId(items, itemId) <==> it in items && it.id != itemId
  {
    forall it
      ensures multiset(WithoutId(items, itemId))[it] == if it.id == itemId then 0 else multiset(items)[it]
      ensures it in WithoutId(items, itemId) <==> it in items && it.id != itemId
    {
      WithoutIdCount(items, itemId, it);
      WithoutIdKeeps(items, itemId, it);
    }
  }

  lemma {:induction false} WithoutIdSplitAt(items: seq<Item>, itemId: string, j: nat)
    requires j <= |items|
    ensures WithoutId(items, itemId) == WithoutId(items[..j], itemId) + WithoutId(items[j..], itemId)
  {
    WithoutIdConcat(items[..j], items[j..], itemId);
    assert items[..j] + items[j..] == items;
  }

  lemma WithoutIdSplits(items: seq<Item>, itemId: string)
    ensures forall j :: 0 <= j <= |items| ==>
      WithoutId(items, itemId) == WithoutId(items[..j], itemId) + WithoutId(items[j..], itemId)
  {
    forall j | 0 <= j <= |items|
      ensures WithoutId(items, itemId) == WithoutId(items[..j], itemId) + WithoutId(items[j..], itemId)
    {
      WithoutIdSplitAt(items, itemId, j);
    }
  }

  /** Deleting by id removes exactly the entries with that id, each as often as
      it occurs, and keeps the others in their order: what survives of any prefix
      comes before what survives of the rest. */
  lemma {:induction false} WithoutIdKeepsOthers(items: seq<Item>, itemId: string)
    ensures forall it :: multiset(WithoutId(items, itemId))[it] == if it.id == itemId then 0 else multiset(items)[it]
    ensures forall it :: it in WithoutId(items, itemId) <==> it in items && it.id != itemId
    ensures forall j :: 0 <= j <= |items| ==>
      WithoutId(items, itemId) == WithoutId(items[..j], itemId) + WithoutId(items[j..], itemId)
    ensures (forall k :: 0 <= k < |items| ==> items[k].id != itemId) ==> WithoutId(items, itemId) == items
  {
    WithoutIdCounts(items, itemId);
    WithoutIdSplits(items, itemId);
    if forall k :: 0 <= k < |items| ==> items[k].id != itemId {
      WithoutIdNoMatch(items, itemId);
    }
  }

  class ShopStore {
    var shops: map<string, ShopRecord>

    constructor ()
      ensures shops == map[]
    {
      shops := map[];
    }

    /** GET /:shopId/items */
    method GetItems(shopId: string) returns (r: Response<seq<Item>>)
      ensures shopId !in shops <==> r.NotFound?
      ensures shopId in shops ==> r == Ok(shops[shopId].items)
    {
      if shopId !in shops {
        return NotFound;
      }
      r := Ok(shops[shopId].items);
    }

    /** POST / : a new shop of the caller's current family (`req.user.currentFamilyId`),
        under a fresh ObjectId `id`. */
    method CreateShop(id: string, name: Option<string>, icon: Option<string>, familyId: Option<string>, now: int)
      returns (r: Response<ShopRecord>)
      requires id !in shops
      modifies this
      ensures r == Created(NewShop(id, name, icon, familyId, now))
      ensures shops == old(shops)[id := r.value]
    {
      var shop := NewShop(id, name, icon, familyId, now);
      shops := shops[id := shop];
      r := Created(shop);
    }

    /** PATCH /:id : a truthy name or icon overwrites; there is no family check. */
    method PatchShop(shopId: string, name: Option<string>, icon: Option<string>) returns (r: Response<ShopRecord>)
      modifies this
      ensures shopId !in old(shops) ==> r.NotFound? && shops == old(shops)
      ensures shopId in old(shops) ==>
        var s := old(shops)[shopId];
        var s1 := s.(name := if Truthy(name) then name else s.name,
                     icon := if Truthy(icon) then icon.value else s.icon);
        r == Ok(s1) && shops == old(shops)[shopId := s1]
    {
      if shopId !in shops {
        return NotFound;
      }
      var s := shops[shopId];
      if Truthy(name) { s := s.(name := name); }
      if Truthy(icon) { s := s.(icon := icon.value); }
      shops := shops[shopId := s];
      r := Ok(s);
    }

    /** DELETE /:id : `userFamilyId` is the caller's `currentFamilyId`. Reading
        `._id` of an absent one throws, which the handler's catch answers with 500;
        otherwise the shop goes only when both family ids are truthy and equal. */
    method DeleteShop(shopId: string, userFamilyId: Option<string>) returns (r: Response<()>)
      modifies this
      ensures shopId !in old(shops) ==> r.NotFound? && shops == old(shops)
      ensures shopId in old(shops) && userFamilyId.None? ==> r.ServerError? && shops == old(shops)
      ensures shopId in old(shops) && userFamilyId.Some? ==>
        var f := old(shops)[shopId].familyId;
        if Truthy(f) && Truthy(userFamilyId) && f == userFamilyId
        then r == Ok(()) && shops == old(shops) - {shopId}
        else r.Forbidden? && shops == old(shops)
    {
      if shopId !in shops {
        return NotFound;
      }
      if userFamilyId.None? {
        return ServerError;
      }
      var f := shops[shopId].familyId;
      if !Truthy(f) || !Truthy(userFamilyId) || f != userFamilyId {
        return Forbidden;
      }
      shops := shops - {shopId};
      r := Ok(());
    }

    /** POST /:shopId/items : append one item with the request's name only;
        quantity and unit of the request are not read. `newId` is a fresh ObjectId. */
    method AddItem(shopId: string, name: Option<string>, caller: string, newId: string, now: int)
      returns (r: Response<Item>)
      requires shopId in shops ==> forall i :: 0 <= i < |shops[shopId].items| ==> shops[shopId].items[i].id != newId
      modifies this
      ensures shopId !in old(shops) ==> r.NotFound? && shops == old(shops)
      ensures shopId in old(shops) ==>
        var s := old(shops)[shopId];
        r == Created(NewItem(newId, name, Some(caller), now))
        && shops == old(shops)[shopId := s.(items := s.items + [r.value])]
        && shops[shopId].items[|shops[shopId].items| - 1] == r.value
    {
      if shopId !in shops {
        return NotFound;
      }
      var s := shops[shopId];
      var it := NewItem(newId, name, Some(caller), now);
      shops := shops[shopId := s.(items := s.items + [it])];
      r := Created(it);
    }

    /** POST /:shopId/items/:itemId/lock */
    method Lock(shopId: string, itemId: string, caller: string, callerName: Option<string>, now: int)
      returns (r: Response<Item>)
      modifies this
      ensures !Locate(old(shops), shopId, itemId).At? ==> r.NotFound? && shops == old(shops)
      ensures Locate(old(shops), shopId, itemId).At? ==>
        var l := Locate(old(shops), shopId, itemId);
        r == Acquire(l.item, caller, callerName, now)
        && shops == (if r.Ok? then WithItem(old(shops), shopId, l.index, r.value) else old(shops))
    {
      var l := Locate(shops, shopId, itemId);
      if !l.At? {
        return NotFound;
      }
      r := Acquire(l.item, caller, callerName, now);
      if r.Ok? {
        shops := WithItem(shops, shopId, l.index, r.value);
      }
    }

    /** POST /:shopId/items/:itemId/unlock */
    method Unlock(shopId: string, itemId: string, caller: string, now: int) returns (r: Response<Item>)
      modifies this
      ensures !Locate(old(shops), shopId, itemId).At? ==> r.NotFound? && shops == old(shops)
      ensures Locate(old(shops), shopId, itemId).At? ==>
        var l := Locate(old(shops), shopId, itemId);
        r == Release(l.item, caller, now)
        && shops == (if r.Ok? then WithItem(old(shops), shopId, l.index, r.value) else old(shops))
    {
      var l := Locate(shops, shopId, itemId);
      if !l.At? {
        return NotFound;
      }
      r := Release(l.item, caller, now);
      if r.Ok? {
        shops := WithItem(shops, shopId, l.index, r.value);
      }
    }

    /** PATCH /:shopId/items/:itemId */
    method UpdateItem(shopId: string, itemId: string, caller: string, now: int, patch: ItemPatch)
      returns (r: Response<Item>)
      modifies this
      ensures !Locate(old(shops), shopId, itemId).At? ==> r.NotFound? && shops == old(shops)
      ensures Locate(old(shops), shopId, itemId).At? ==>
        var l := Locate(old(shops), shopId, itemId);
        r == ApplyEdit(l.item, caller, now, patch)
        && shops == (if r.Ok? then WithItem(old(shops), shopId, l.index, r.value) else old(shops))
    {
      var l := Locate(shops, shopId, itemId);
      if !l.At? {
        return NotFound;
      }
      r := ApplyEdit(l.item, caller, now, patch);
      if r.Ok? {
        shops := WithItem(shops, shopId, l.index, r.value);
      }
    }

    /** DELETE /:shopId/items/:itemId : no 404 for an unknown item, no lock check. */
    method DeleteItem(shopId: string, itemId: string) returns (r: Response<()>)
      modifies this
      ensures shopId !in old(shops) ==> r.NotFound? && shops == old(shops)
      ensures shopId in old(shops) ==>
        var s := old(shops)[shopId];
        r == Ok(()) && shops == old(shops)[shopId := s.(items := WithoutId(s.items, itemId))]
    {
      if shopId !in shops {
        return NotFound;
      }
      var s := shops[shopId];
      shops := shops[shopId := s.(items := WithoutId(s.items, itemId))];
      r := Ok(());
    }

    /** PATCH /:shopId/items/:itemId/reorder with body `{ order }`. */
    method Reorder(shopId: string, itemId: string, order: int) returns (r: Response<seq<Item>>)
      modifies this
      ensures shopId !in old(shops) ==> r.NotFound? && shops == old(shops)
      ensures shopId in old(shops) && FindItem(old(shops)[shopId].items, itemId).None? ==>
        r.NotFound? && shops == old(shops)
      ensures shopId in old(shops) && FindItem(old(shops)[shopId].items, itemId).Some? ==>
        var s := old(shops)[shopId];
        var from := FindItem(s.items, itemId).value;
        r.Ok? && shops == old(shops)[shopId := s.(items := r.value)]
        && |r.value| == |s.items|
        && (forall i :: 0 <= i < |r.value| ==> r.value[i] == Moved(s.items, from, order)[i].(order := i))
    {
      if shopId !in shops {
        return NotFound;
      }
      var s := shops[shopId];
      var found := FindItem(s.items, itemId);
      if found.None? {
        return NotFound;
      }
      var from := found.value;
      MovedFacts(s.items, from, order);
      var items := Renumber(Moved(s.items, from, order));
      shops := shops[shopId := s.(items := items)];
      r := Ok(items);
    }
  }

  /** The user document that authentication puts on the request: the schema of
      server/src/models/User.js has `familyId` and no `currentFamilyId`, so the
      handlers' `req.user.currentFamilyId` is always undefined. */
  datatype SessionUser = SessionUser(id: string, familyId: Option<string>)

  /** As written: the shop is created with `currentFamilyId` (absent) and the
      delete reads `currentFamilyId._id`, so deleting it is a server error, even
      when the user belongs to a family. */
  method CreateThenDeleteAsWritten(u: SessionUser, shopId: string, name: Option<string>, icon: Option<string>, now: int)
    returns (created: Response<ShopRecord>, deleted: Response<()>)
    ensures created.Created? && created.value.familyId.None?
    ensures deleted == ServerError
  {
    var store := new ShopStore();
    created := store.CreateShop(shopId, name, icon, None, now);
    deleted := store.DeleteShop(shopId, None);
  }

  /** As intended: both handlers read the user's `familyId`, and a member of a
      family can delete the shop it created. */
  method CreateThenDeleteByFamily(u: SessionUser, shopId: string, name: Option<string>, icon: Option<string>, now: int)
    returns (created: Response<ShopRecord>, deleted: Response<()>)
    ensures created.Created? && created.value.familyId == u.familyId
    ensures Truthy(u.familyId) ==> deleted == Ok(())
  {
    var store := new ShopStore();
    created := store.CreateShop(shopId, name, icon, u.familyId, now);
    deleted := store.DeleteShop(shopId, u.familyId);
  }
}
