/** The shop record of server/src/models/Shop.js: a shop owns an ordered array of
    item sub-documents. The item carries the three lock fields that the route
    handlers read and write, although the schema itself does not declare them. */
module ShopModel {
  import opened Common

  const DefaultQuantity: int := 1
  const DefaultUnit: string := "ks"
  const DefaultOrder: int := 0
  /** U+1F3EA CONVENIENCE STORE, the schema's default shop icon. */
  const DefaultShopIcon: string := "\U{1F3EA}"

  /** One entry of `shop.items`. Timestamps are milliseconds since the epoch. */
  datatype Item = Item(
    id: string,
    name: Option<string>,
    quantity: int,
    unit: string,
    completed: bool,
    addedBy: Option<string>,
    order: int,
    createdAt: int,
    lockedBy: Option<string>,
    lockedAt: Option<int>,
    lockedByName: Option<string>)

  datatype ShopRecord = ShopRecord(
    id: string,
    name: Option<string>,
    icon: string,
    familyId: Option<string>,
    items: seq<Item>,
    createdAt: int)

  /** The body of an item update request; a field the client left out is None. */
  datatype ItemPatch = ItemPatch(
    completed: Option<bool>,
    name: Option<string>,
    quantity: Option<int>,
    unit: Option<string>,
    order: Option<int>)

  predicate Unlocked(it: Item) {
    it.lockedBy.None? && it.lockedAt.None? && it.lockedByName.None?
  }

  /** A holder is recorded exactly when a lock time is. */
  predicate LockConsistent(it: Item) {
    it.lockedBy.Some? <==> it.lockedAt.Some?
  }

  /** A sub-document pushed with only the given fields; the schema fills the rest. */
  function NewItem(id: string, name: Option<string>, addedBy: Option<string>, now: int): (it: Item)
    ensures it.id == id && it.name == name && it.addedBy == addedBy
    ensures it.quantity == 1 && it.unit == "ks"
    ensures !it.completed
    ensures it.order == 0 && it.createdAt == now
    ensures Unlocked(it) && LockConsistent(it)
  {
    Item(id, name, DefaultQuantity, DefaultUnit, false, addedBy, DefaultOrder, now, None, None, None)
  }

  /** A shop created with an optional icon: an absent icon takes the default. */
  function NewShop(id: string, name: Option<string>, icon: Option<string>, familyId: Option<string>, now: int): (s: ShopRecord)
    ensures s.id == id && s.name == name && s.familyId == familyId && s.createdAt == now
    ensures s.icon == (if icon.Some? then icon.value else "\U{1F3EA}")
    ensures s.items == []
  {
    ShopRecord(id, name, if icon.Some? then icon.value else DefaultShopIcon, familyId, [], now)
  }
}
