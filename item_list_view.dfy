/** The drag rule of `DraggableItem` in client/src/components/shop-items/ItemList.jsx. */
module ItemListView {
  import opened ClientItems

  /** `isDragDisabled`: only uncompleted items of the 'custom' view can be dragged. */
  predicate DragDisabled(sortBy: string, item: ClientItem)
  {
    sortBy != "custom" || item.completed
  }

  /** `isDraggable`, what the card is told. */
  predicate IsDraggable(sortBy: string, item: ClientItem)
  {
    sortBy == "custom" && !item.completed
  }

  /** Drag is off in every other view, off for completed items in every view,
      and on exactly in the remaining case; the card's flag is its negation. */
  lemma DragRule(sortBy: string, item: ClientItem)
    ensures sortBy != "custom" ==> DragDisabled(sortBy, item)
    ensures item.completed ==> DragDisabled(sortBy, item)
    ensures !DragDisabled(sortBy, item) <==> sortBy == "custom" && !item.completed
    ensures IsDraggable(sortBy, item) <==> !DragDisabled(sortBy, item)
  {
  }
}
