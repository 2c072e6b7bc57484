/** The older item view of client/src/components/ShopItems.jsx: its comparator,
    its drag handler, which asks the server's reorder endpoint to move an item,
    the guards of its add and edit forms, and its reaction to a relayed change. */
module LegacyShopItems {
  import opened Common
  import opened ClientItems
  import opened ShopModel
  import opened ShopRoutes
  import ShopItemsView

  /** The comparator: 'completed' and 'custom' share one branch. */
  function Compare(sortBy: string, collate: (string, string) -> int, a: ClientItem, b: ClientItem): int
  {
    if sortBy == "name" then collate(a.name, b.name)
    else if sortBy == "date" then b.createdAt - a.createdAt
    else if sortBy == "completed" || sortBy == "custom" then
      if a.completed != b.completed then (if a.completed then 1 else -1)
      else OrderKey(a) - OrderKey(b)
    else 0
  }

  function Comparator(sortBy: string, collate: (string, string) -> int): (ClientItem, ClientItem) -> int
  {
    (a, b) => Compare(sortBy, collate, a, b)
  }

  /** The list as displayed. */
  function SortedItems(items: seq<ClientItem>, sortBy: string, collate: (string, string) -> int): seq<ClientItem>
  {
    Sort(items, Comparator(sortBy, collate))
  }

  /** Both 'custom' and 'completed' put every uncompleted item first and order
      each group, so they show the same list; the newer view's 'completed' mode
      shows that list too, while its 'custom' mode does not group. */
  lemma {:induction false} CustomIsCompletedSort(items: seq<ClientItem>, collate: (string, string) -> int)
    ensures SortedItems(items, "custom", collate) == SortedItems(items, "completed", collate)
    ensures SortedItems(items, "completed", collate) == ShopItemsView.SortedItems(items, "completed", collate)
    ensures var r := SortedItems(items, "custom", collate);
      && (forall i, j :: 0 <= i < j < |r| && r[i].completed ==> r[j].completed)
      && (forall i, j :: 0 <= i < j < |r| && r[i].completed == r[j].completed ==> OrderKey(r[i]) <= OrderKey(r[j]))
  {
    SortSameComparator(items, Comparator("custom", collate), Comparator("completed", collate));
    SortSameComparator(items, Comparator("completed", collate), ShopItemsView.Comparator("completed", collate));
    ShopItemsView.CompletedSortGroups(items, collate);
  }

  /** 'date' is newest first and an unknown mode keeps the stored order. */
  lemma {:induction false} DateAndUnknownSort(items: seq<ClientItem>, sortBy: string, collate: (string, string) -> int)
    ensures var r := SortedItems(items, "date", collate);
      forall i, j :: 0 <= i < j < |r| ==> r[i].createdAt >= r[j].createdAt
    ensures sortBy != "name" && sortBy != "date" && sortBy != "completed" && sortBy != "custom" ==>
      SortedItems(items, sortBy, collate) == items
  {
    SortSameComparator(items, Comparator("date", collate), ShopItemsView.Comparator("date", collate));
    assert SortedItems(items, "date", collate) == ShopItemsView.SortedItems(items, "date", collate);
    ShopItemsView.DateSortNewestFirst(items, collate);
    if sortBy != "name" && sortBy != "date" && sortBy != "completed" && sortBy != "custom" {
      SortAllEqual(items, Comparator(sortBy, collate));
    }
  }

  /** A request to PATCH .../items/:itemId/reorder with body `{ order }`. */
  datatype ReorderRequest = ReorderRequest(itemId: string, newOrder: int)

  /** `onDragEnd` as written: like the newer view it takes the item at the
      dragged position of the stored list, not of the displayed one. */
  function DragRequest(items: seq<ClientItem>, drag: ShopItemsView.DragResult): (r: Option<ReorderRequest>)
    requires drag.source < |items|
    ensures r.None? <==> drag.destination.None? || drag.destination.value == drag.source
    ensures r.Some? ==> r.value == ReorderRequest(items[drag.source].id, drag.destination.value)
  {
    match drag.destination
    case None => None
    case Some(dest) =>
      if dest == drag.source then None
      else
        MovedFacts(items, drag.source, dest);
        Some(ReorderRequest(Moved(items, drag.source, dest)[SpliceStart(dest, |items| - 1)].id, dest))
  }

  /** The drag as intended: the request moves the item displayed at the dragged position. */
  function DragRequestDisplayed(items: seq<ClientItem>, sortBy: string, collate: (string, string) -> int,
                                drag: ShopItemsView.DragResult): (r: Option<ReorderRequest>)
    requires drag.source < |items|
    ensures r.None? <==> drag.destination.None? || drag.destination.value == drag.source
    ensures r.Some? ==> r.value.itemId == SortedItems(items, sortBy, collate)[drag.source].id
    ensures r.Some? ==> exists k :: 0 <= k < |items| && items[k].id == r.value.itemId
    ensures r.Some? ==> r.value.newOrder == drag.destination.value
  {
    var shown := SortedItems(items, sortBy, collate);
    SortPermutes(items, Comparator(sortBy, collate));
    assert shown[drag.source] in multiset(items);
    DragRequest(shown, drag)
  }

  /** A completed item stored first is displayed last: dragging the top (uncompleted)
      item asks the server to move the completed one. */
  lemma DragRequestsWrongItem()
    ensures var a := ClientItem("a", "milk", 1, "ks", true, Some(0), 0);
      var b := ClientItem("b", "bread", 1, "ks", false, Some(1), 0);
      var drag := ShopItemsView.DragResult(0, Some(1));
      && SortedItems([a, b], "custom", (x, y) => 0) == [b, a]
      && DragRequest([a, b], drag) == Some(ReorderRequest("a", 1))
      && DragRequestDisplayed([a, b], "custom", (x, y) => 0, drag) == Some(ReorderRequest("b", 1))
  {
    var a := ClientItem("a", "milk", 1, "ks", true, Some(0), 0);
    var b := ClientItem("b", "bread", 1, "ks", false, Some(1), 0);
    var cmp := Comparator("custom", (x, y) => 0);
    assert Sort([b], cmp) == [b];
    assert [a, b][1..] == [b];
    assert Sort([a, b], cmp) == Insert(a, [b], cmp);
  }

  /** The body of an add: name, quantity and unit as entered. */
  datatype AddRequest = AddRequest(name: string, quantity: int, unit: string)

  /** `handleSubmit`: sent only when the name has a non-whitespace character. */
  function SubmitAdd(name: string, quantity: int, unit: string): (r: Option<AddRequest>)
    ensures r.Some? <==> exists i :: 0 <= i < |name| && !IsWhitespace(name[i])
    ensures r.Some? ==> r.value == AddRequest(name, quantity, unit)
  {
    TrimNonEmpty(name);
    if Trim(name) != "" then Some(AddRequest(name, quantity, unit)) else None
  }

  /** `handleEdit`: sent only while an item is being edited and its name has a
      non-whitespace character; the body is the newer view's edit body. */
  function SubmitEdit(editing: Option<ClientItem>): (r: Option<(string, ItemPatch)>)
    ensures r.Some? <==> editing.Some? && exists i :: 0 <= i < |editing.value.name| && !IsWhitespace(editing.value.name[i])
    ensures r.Some? ==> r.value == (editing.value.id, ShopItemsView.EditPatch(editing.value))
  {
    match editing
    case None => None
    case Some(e) =>
      TrimNonEmpty(e.name);
      if Trim(e.name) != "" then Some((e.id, ShopItemsView.EditPatch(e))) else None
  }

  /** An edit that passes the guard always renames the item on the server. */
  lemma {:induction false} GuardedEditRenames(it: Item, editing: Option<ClientItem>)
    requires SubmitEdit(editing).Some?
    ensures PatchFields(it, SubmitEdit(editing).value.1).name == Some(editing.value.name)
  {
    var e := editing.value;
    assert exists i :: 0 <= i < |e.name| && !IsWhitespace(e.name[i]);
    assert e.name != "";
  }

  datatype Reaction = Refetch | Ignore

  /** `itemUpdate` listener: a change from anyone but the local user refetches. */
  function OnItemUpdate(localUser: string, sender: Option<string>): (r: Reaction)
    ensures r == Refetch <==> sender != Some(localUser)
  {
    if sender == Some(localUser) then Ignore else Refetch
  }
}
