/**
 * The read-only demo list of `DragAndDrop`: a fixed list of three entries
 * shown in the order saved in the `itemOrderOld` cookie, reorderable by drag
 * and drop, with one entry's description open at a time.
 */
module DragAndDrop {
  import opened Wrappers
  import Splice
  import Ordering
  import Selection

  datatype ListItem = ListItem(id: string, title: string, description: string)

  function IdOf(item: ListItem): string { item.id }

  /**
   * `list.map((item) => item.id)`. Each component keeps its own wrapper of
   * `Ordering.Keys` so that its contracts read in its own terms.
   */
  function Ids(s: seq<ListItem>): (r: seq<string>)
    ensures |r| == |s| && forall i :: 0 <= i < |s| ==> r[i] == s[i].id
  {
    Ordering.Keys(s, IdOf)
  }

  /** `itemsList`, the entries every session starts from. */
  const ItemsList: seq<ListItem> := [
    ListItem("1", "Item 1", "Lorem ipsum description 1"),
    ListItem("2", "Item 2", "Lorem ipsum description 2"),
    ListItem("3", "Item 3", "Lorem ipsum description 3")
  ]

  /** The ids of the fixed entries. */
  lemma ItemsListIds()
    ensures Ordering.UniqueKeys(ItemsList, IdOf)
    ensures Ordering.KeySet(ItemsList, IdOf) == {"1", "2", "3"}
  {
    assert Ordering.KeySet(ItemsList, IdOf) == {IdOf(ItemsList[0]), IdOf(ItemsList[1]), IdOf(ItemsList[2])};
  }

  /**
   * `loadOrderFromCookies`: the fixed entries in saved order, unknown ids
   * dropped; with no saved order, the fixed list itself.
   */
  function LoadOrder(saved: Option<seq<string>>): (r: seq<ListItem>)
    ensures saved.None? ==> r == ItemsList
    ensures saved.Some? ==> |r| <= |saved.value| && Ids(r) == Ordering.Filter(saved.value, {"1", "2", "3"})
    ensures forall x :: x in r ==> x in ItemsList
  {
    ItemsListIds();
    Ordering.Reconcile(saved, ItemsList, IdOf)
  }

  /** Saving the ids of any list drawn from the fixed entries and loading again gives that list. */
  lemma DrawnRoundTrip(list: seq<ListItem>)
    requires forall x :: x in list ==> x in ItemsList
    ensures LoadOrder(Some(Ids(list))) == list
  {
    ItemsListIds();
    Ordering.DrawnRoundTrip(list, ItemsList, IdOf);
  }

  /** In particular every permutation of the fixed entries survives the round trip. */
  lemma PermutationRoundTrip(list: seq<ListItem>)
    requires multiset(list) == multiset(ItemsList)
    ensures LoadOrder(Some(Ids(list))) == list
  {
    forall x | x in list
      ensures x in ItemsList
    {
      assert x in multiset(list);
    }
    DrawnRoundTrip(list);
  }

  class Controller {
    var items: seq<ListItem>
    var visibleDescriptions: Option<string>
    /** The order store: the saved ids, or none if never written or expired. */
    var savedOrder: Option<seq<string>>

    /** Every shown entry is one of the fixed entries. */
    ghost predicate Valid()
      reads this
    {
      forall x :: x in items ==> x in ItemsList
    }

    constructor (savedOrder: Option<seq<string>>)
      ensures Valid()
      ensures items == [] && visibleDescriptions == None && this.savedOrder == savedOrder
    {
      items := [];
      visibleDescriptions := None;
      this.savedOrder := savedOrder;
    }

    /** `saveOrderToCookies`: overwrites the saved order with the ids of `newOrder`. */
    method SaveOrderToCookies(newOrder: seq<ListItem>)
      modifies this`savedOrder
      ensures savedOrder == Some(Ids(newOrder))
    {
      savedOrder := Some(Ids(newOrder));
    }

    /** The mount effect: shows the fixed entries in the saved order; a saved list comes back. */
    method Mount()
      modifies this`items
      ensures Valid()
      ensures items == LoadOrder(savedOrder)
      ensures old(Valid()) && savedOrder == Some(Ids(old(items))) ==> items == old(items)
    {
      ghost var before := items;
      items := LoadOrder(savedOrder);
      if old(Valid()) && savedOrder == Some(Ids(before)) {
        DrawnRoundTrip(before);
      }
    }

    /**
     * `handleOnDragEnd`: a drop outside the list does nothing; otherwise the
     * entry moves from the source to the destination index and the new
     * order is saved.
     */
    method OnDragEnd(result: Splice.DropResult)
      requires Valid()
      requires Splice.InRange(result, |items|)
      modifies this`items, this`savedOrder
      ensures Valid()
      ensures result.destination.None? ==> items == old(items) && savedOrder == old(savedOrder)
      ensures result.destination.Some? ==>
        items == Splice.Move(old(items), result.source, result.destination.value) &&
        savedOrder == Some(Ids(items))
      ensures multiset(items) == multiset(old(items))
    {
      if result.destination.None? {
        return;
      }
      var reordered := Splice.MoveCopy(items, result.source, result.destination.value);
      Splice.MovePermutes(items, result.source, result.destination.value);
      Splice.MoveMembers(items, result.source, result.destination.value);
      items := reordered;
      SaveOrderToCookies(reordered);
    }

    /** `toggleDescription`: opens `id`'s description, or closes it if it is the open one. */
    method ToggleDescription(id: string)
      modifies this`visibleDescriptions
      ensures visibleDescriptions == Selection.Toggle(old(visibleDescriptions), id)
    {
      visibleDescriptions := Selection.Toggle(visibleDescriptions, id);
    }
  }
}
