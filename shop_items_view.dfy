/** The item view of client/src/components/shop-items/index.jsx: the display
    comparator for each sort mode, the update a drag produces, and the update
    bodies of an edit and of a completion toggle. `localeCompare` is the abstract
    collation `collate`. */
module ShopItemsView {
  import opened Common
  import opened ClientItems
  import opened ShopModel
  import opened ShopRoutes

  /** Drag-and-drop's `result`: the positions are positions in the displayed list. */
  datatype DragResult = DragResult(source: nat, destination: Option<nat>)

  ghost predicate Collation(collate: (string, string) -> int)
  {
    forall x, y :: collate(x, y) > 0 ==> collate(y, x) <= 0
  }

  /** The `sortedItems` comparator. */
  function Compare(sortBy: string, collate: (string, string) -> int, a: ClientItem, b: ClientItem): int
  {
    if sortBy == "name" then collate(a.name, b.name)
    else if sortBy == "date" then b.createdAt - a.createdAt
    else if sortBy == "completed" then
      if a.completed != b.completed then (if a.completed then 1 else -1)
      else OrderKey(a) - OrderKey(b)
    else if sortBy == "custom" then OrderKey(a) - OrderKey(b)
    else 0
  }

  function Comparator(sortBy: string, collate: (string, string) -> int): (ClientItem, ClientItem) -> int
  {
    (a, b) => Compare(sortBy, collate, a, b)
  }

  /** The list as displayed. */
  function SortedItems(items: seq<ClientItem>, sortBy: string, collate: (string, string) -> int): seq<ClientItem>
  {
    Sort(items, Comparator(sortBy, collate))
  }

  lemma ComparatorAntisymmetric(sortBy: string, collate: (string, string) -> int)
    requires Collation(collate)
    ensures Antisymmetric(Comparator(sortBy, collate))
  {
  }

  predicate OrderLe(a: ClientItem, b: ClientItem) {
    OrderKey(a) <= OrderKey(b)
  }

  /** Uncompleted first, then by order. */
  predicate CompletedLe(a: ClientItem, b: ClientItem) {
    (!a.completed && b.completed) || (a.completed == b.completed && OrderKey(a) <= OrderKey(b))
  }

  predicate NewerOrSame(a: ClientItem, b: ClientItem) {
    a.createdAt >= b.createdAt
  }

  /** 'custom' shows the items in ascending order, a missing order counting as 0. */
  lemma {:induction false} CustomSortAscending(items: seq<ClientItem>, collate: (string, string) -> int)
    ensures var r := SortedItems(items, "custom", collate);
      forall i, j :: 0 <= i < j < |r| ==> OrderKey(r[i]) <= OrderKey(r[j])
  {
    var cmp := Comparator("custom", collate);
    SortSorted(items, cmp);
    AdjacentToGlobal(Sort(items, cmp), OrderLe);
  }

  /** 'completed' shows every uncompleted item before every completed one, and
      each group in ascending order. */
  lemma {:induction false} CompletedSortGroups(items: seq<ClientItem>, collate: (string, string) -> int)
    ensures var r := SortedItems(items, "completed", collate);
      && (forall i, j :: 0 <= i < j < |r| && r[i].completed ==> r[j].completed)
      && (forall i, j :: 0 <= i < j < |r| && r[i].completed == r[j].completed ==> OrderKey(r[i]) <= OrderKey(r[j]))
  {
    var cmp := Comparator("completed", collate);
    SortSorted(items, cmp);
    var r := Sort(items, cmp);
    assert forall k :: 0 <= k < |r| - 1 ==> CompletedLe(r[k], r[k + 1]) by {
      forall k | 0 <= k < |r| - 1
        ensures CompletedLe(r[k], r[k + 1])
      {
        assert cmp(r[k], r[k + 1]) <= 0;
      }
    }
    AdjacentToGlobal(r, CompletedLe);
  }

  /** 'date' shows the newest item first. */
  lemma {:induction false} DateSortNewestFirst(items: seq<ClientItem>, collate: (string, string) -> int)
    ensures var r := SortedItems(items, "date", collate);
      forall i, j :: 0 <= i < j < |r| ==> r[i].createdAt >= r[j].createdAt
  {
    var cmp := Comparator("date", collate);
    SortSorted(items, cmp);
    AdjacentToGlobal(Sort(items, cmp), NewerOrSame);
  }

  /** `localeCompare` is a total order on strings: "not after" chains. */
  ghost predicate CollationTransitive(collate: (string, string) -> int)
  {
    forall x, y, z :: collate(x, y) <= 0 && collate(y, z) <= 0 ==> collate(x, z) <= 0
  }

  predicate NameLe(collate: (string, string) -> int, a: ClientItem, b: ClientItem) {
    collate(a.name, b.name) <= 0
  }

  /** 'name' shows neighbours in collation order and, for a transitive
      collation, every pair. */
  lemma {:induction false} NameSortCollated(items: seq<ClientItem>, collate: (string, string) -> int)
    requires Collation(collate)
    ensures var r := SortedItems(items, "name", collate);
      forall i :: 0 <= i < |r| - 1 ==> collate(r[i].name, r[i + 1].name) <= 0
    ensures var r := SortedItems(items, "name", collate);
      CollationTransitive(collate) ==> forall i, j :: 0 <= i < j < |r| ==> collate(r[i].name, r[j].name) <= 0
  {
    ComparatorAntisymmetric("name", collate);
    SortSorted(items, Comparator("name", collate));
    var r := SortedItems(items, "name", collate);
    if CollationTransitive(collate) {
      var le := (a, b) => NameLe(collate, a, b);
      assert Transitive(le);
      assert forall k :: 0 <= k < |r| - 1 ==> le(r[k], r[k + 1]);
      AdjacentToGlobal(r, le);
      assert forall i, j :: 0 <= i < j < |r| ==> le(r[i], r[j]);
    }
  }

  /** Any other mode calls every pair equal, so the stored order is shown. */
  lemma {:induction false} UnknownSortKeepsOrder(items: seq<ClientItem>, sortBy: string, collate: (string, string) -> int)
    requires sortBy != "name" && sortBy != "date" && sortBy != "completed" && sortBy != "custom"
    ensures SortedItems(items, sortBy, collate) == items
  {
    SortAllEqual(items, Comparator(sortBy, collate));
  }

  /** The body `{ order }` of a drag's update request. */
  function OrderPatch(order: int): (p: ItemPatch)
    ensures p.order == Some(order)
    ensures p.completed.None? && p.name.None? && p.quantity.None? && p.unit.None?
  {
    ItemPatch(None, None, None, None, Some(order))
  }

  /** `handleDragEnd` as written: the dragged position is looked up in `items`,
      the list in stored order, not in the displayed list the position refers
      to. The rearranged copy the handler builds is not used further. */
  function DragUpdate(items: seq<ClientItem>, drag: DragResult): (r: Option<(string, ItemPatch)>)
    requires drag.source < |items|
    ensures r.None? <==> drag.destination.None? || drag.destination.value == drag.source
    ensures r.Some? ==> r.value.0 == items[drag.source].id && r.value.1 == OrderPatch(drag.destination.value)
  {
    match drag.destination
    case None => None
    case Some(dest) =>
      if dest == drag.source then None
      else
        var copy := Moved(items, drag.source, dest);
        MovedFacts(items, drag.source, dest);
        Some((copy[SpliceStart(dest, |items| - 1)].id, OrderPatch(dest)))
  }

  /** The drag as intended: the update is for the item displayed at the dragged position. */
  function DragUpdateDisplayed(items: seq<ClientItem>, sortBy: string, collate: (string, string) -> int, drag: DragResult)
    : (r: Option<(string, ItemPatch)>)
    requires drag.source < |items|
    ensures r.None? <==> drag.destination.None? || drag.destination.value == drag.source
    ensures r.Some? ==> r.value.0 == SortedItems(items, sortBy, collate)[drag.source].id
    ensures r.Some? ==> exists k :: 0 <= k < |items| && items[k].id == r.value.0
    ensures r.Some? ==> r.value.1 == OrderPatch(drag.destination.value)
  {
    var shown := SortedItems(items, sortBy, collate);
    SortPermutes(items, Comparator(sortBy, collate));
    assert shown[drag.source] in multiset(items);
    DragUpdate(shown, drag)
  }

  /** Two items stored out of display order: the drag of the first displayed item
      updates the other one. */
  lemma DragUpdatesWrongItem()
    ensures var a := ClientItem("a", "milk", 1, "ks", false, Some(1), 0);
      var b := ClientItem("b", "bread", 1, "ks", false, Some(0), 0);
      var drag := DragResult(0, Some(1));
      && SortedItems([a, b], "custom", (x, y) => 0) == [b, a]
      && DragUpdate([a, b], drag) == Some(("a", OrderPatch(1)))
      && DragUpdateDisplayed([a, b], "custom", (x, y) => 0, drag) == Some(("b", OrderPatch(1)))
  {
    var a := ClientItem("a", "milk", 1, "ks", false, Some(1), 0);
    var b := ClientItem("b", "bread", 1, "ks", false, Some(0), 0);
    var cmp := Comparator("custom", (x, y) => 0);
    assert Sort([b], cmp) == [b];
    assert [a, b][1..] == [b];
    assert Sort([a, b], cmp) == Insert(a, [b], cmp);
  }

  /** When the stored order is the displayed order both agree. */
  lemma DragAgreesWhenStoredAsShown(items: seq<ClientItem>, sortBy: string, collate: (string, string) -> int, drag: DragResult)
    requires drag.source < |items| && SortedItems(items, sortBy, collate) == items
    ensures DragUpdateDisplayed(items, sortBy, collate, drag) == DragUpdate(items, drag)
  {
  }

  /** On the server a drag's update is refused with 423 while another user holds
      a fresh lock; otherwise it writes the order, releases the lock and changes
      nothing else. */
  lemma DragPatchWritesOnlyOrder(it: Item, caller: string, now: int, dest: nat)
    ensures PatchFields(it, OrderPatch(dest)) == it.(order := dest)
    ensures HeldByOther(it, caller, now) ==>
      ApplyEdit(it, caller, now, OrderPatch(dest)) == Locked(it.lockedByName)
    ensures !HeldByOther(it, caller, now) ==>
      ApplyEdit(it, caller, now, OrderPatch(dest)) == Ok(Unlock(it.(order := dest)))
  {
  }

  /** The body of an edit submit: name, quantity and unit, nothing else. */
  function EditPatch(edited: ClientItem): (p: ItemPatch)
    ensures p.name == Some(edited.name) && p.quantity == Some(edited.quantity) && p.unit == Some(edited.unit)
    ensures p.completed.None? && p.order.None?
  {
    ItemPatch(None, Some(edited.name), Some(edited.quantity), Some(edited.unit), None)
  }

  /** The body of a toggle: the negation of what the client shows. */
  function TogglePatch(shown: ClientItem): (p: ItemPatch)
    ensures p.completed == Some(!shown.completed)
    ensures p.name.None? && p.quantity.None? && p.unit.None? && p.order.None?
  {
    ItemPatch(Some(!shown.completed), None, None, None, None)
  }

  /** An edit never touches completion or order on the server, and an emptied
      name, unit or zero quantity keeps the stored value. */
  lemma EditOnServer(it: Item, edited: ClientItem)
    ensures var r := PatchFields(it, EditPatch(edited));
      && r.completed == it.completed && r.order == it.order
      && (edited.name == "" ==> r.name == it.name)
      && (edited.name != "" ==> r.name == Some(edited.name))
      && (edited.quantity == 0 ==> r.quantity == it.quantity)
      && (edited.quantity != 0 ==> r.quantity == edited.quantity)
      && (edited.unit == "" ==> r.unit == it.unit)
    ensures forall caller: string, now: int :: ApplyEdit(it, caller, now, EditPatch(edited)).Ok? ==>
      var r := ApplyEdit(it, caller, now, EditPatch(edited)).value;
      r.completed == it.completed && r.order == it.order && Unlocked(r)
  {
  }

  /** A toggle writes `completed` even when the new value is false; through the
      handler it is refused with 423 while another user holds a fresh lock, and
      otherwise it also releases the lock and changes nothing else. */
  lemma ToggleOnServer(it: Item, caller: string, now: int, shown: ClientItem)
    ensures PatchFields(it, TogglePatch(shown)) == it.(completed := !shown.completed)
    ensures HeldByOther(it, caller, now) ==>
      ApplyEdit(it, caller, now, TogglePatch(shown)) == Locked(it.lockedByName)
    ensures !HeldByOther(it, caller, now) ==>
      ApplyEdit(it, caller, now, TogglePatch(shown)) == Ok(Unlock(it.(completed := !shown.completed)))
  {
  }
}
