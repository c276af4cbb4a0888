/**
 * The note list of `DragAndDropFormList`: notes kept in display order in
 * memory, a record store (the IndexedDB object store `formData`, key path
 * `id`) and an order store (the `itemOrder` cookie holding the list's ids).
 */
module FormList {
  import opened Wrappers
  import Splice
  import Ordering
  import Selection

  /** A note. `date` is the formatted time it was created or last saved. */
  datatype FormData = FormData(id: int, title: string, description: string, date: string)

  function IdOf(n: FormData): int { n.id }

  /**
   * `list.map((item) => item.id)`. Each component keeps its own wrapper of
   * `Ordering.Keys` so that its contracts read in its own terms.
   */
  function Ids(s: seq<FormData>): (r: seq<int>)
    ensures |r| == |s| && forall i :: 0 <= i < |s| ==> r[i] == s[i].id
  {
    Ordering.Keys(s, IdOf)
  }

  // ---------------------------------------------------------------------
  // Record Store

  type Store = map<int, FormData>

  /** Every record is stored under its own id, as the key path `id` makes it. */
  predicate Keyed(store: Store)
  {
    forall k :: k in store ==> store[k].id == k
  }

  /** Under the key path no two stored records share an id. */
  lemma KeyedUniqueIds(store: Store, a: int, b: int)
    requires Keyed(store) && a in store && b in store
    requires store[a].id == store[b].id
    ensures a == b && store[a] == store[b]
  {
  }

  /** `saveData`: `store.put(data)`, an upsert under the note's id. */
  function Put(store: Store, n: FormData): (r: Store)
    ensures n.id in r && r[n.id] == n
    ensures forall k :: k != n.id ==> (k in r <==> k in store)
    ensures forall k :: k != n.id && k in store ==> r[k] == store[k]
    ensures Keyed(store) ==> Keyed(r)
  {
    store[n.id := n]
  }

  /** Putting the same note twice is putting it once. */
  lemma PutIdempotent(store: Store, n: FormData)
    ensures Put(Put(store, n), n) == Put(store, n)
  {
  }

  /** `deleteData`: `store.delete(id)`; a missing id is not an error. */
  function Delete(store: Store, id: int): (r: Store)
    ensures id !in r
    ensures forall k :: k != id ==> (k in r <==> k in store)
    ensures forall k :: k in r ==> r[k] == store[k]
    ensures id !in store ==> r == store
    ensures Keyed(store) ==> Keyed(r)
  {
    store - {id}
  }

  /** What `getAll` returns: every stored record once, in ascending key order. */
  ghost predicate Lists(store: Store, all: seq<FormData>)
  {
    (forall i :: 0 <= i < |all| ==> all[i].id in store && store[all[i].id] == all[i]) &&
    (forall k :: k in store ==> store[k] in all) &&
    (forall i, j :: 0 <= i < j < |all| ==> all[i].id < all[j].id)
  }

  /** A non-empty set of keys has a least one. */
  lemma {:induction false} Least(keys: set<int>) returns (m: int)
    requires keys != {}
    ensures m in keys && forall k :: k in keys ==> m <= k
    decreases keys
  {
    // Supplies the witness for the `:|` below: a set without members is empty.
    assert (forall k :: k !in keys) ==> keys == {};
    var x :| x in keys;
    if keys == {x} {
      m := x;
    } else {
      var rest := keys - {x};
      var least := Least(rest);
      m := if x < least then x else least;
      forall k | k in keys
        ensures m <= k
      {
        if k != x {
          assert k in rest;
        }
      }
    }
  }

  /** `loadAllData`: `store.getAll()`, taking the keys from the least up. */
  method GetAll(store: Store) returns (all: seq<FormData>)
    requires Keyed(store)
    ensures Lists(store, all)
  {
    all := [];
    var rest := store.Keys;
    while rest != {}
      invariant rest <= store.Keys
      invariant forall i :: 0 <= i < |all| ==> all[i].id in store && store[all[i].id] == all[i]
      invariant forall k :: k in store && k !in rest ==> store[k] in all
      invariant forall i, j :: 0 <= i < j < |all| ==> all[i].id < all[j].id
      invariant forall i, k :: 0 <= i < |all| && k in rest ==> all[i].id < k
      decreases rest
    {
      ghost var least := Least(rest);
      var m :| m in rest && forall k :: k in rest ==> m <= k;
      all := all + [store[m]];
      rest := rest - {m};
    }
  }

  /** The ids found among the listed records are the store's keys. */
  lemma ListedKeys(store: Store, all: seq<FormData>)
    requires Keyed(store) && Lists(store, all)
    ensures Ordering.KeySet(all, IdOf) == store.Keys
  {
    forall k | k in store
      ensures k in Ordering.KeySet(all, IdOf)
    {
      var i :| 0 <= i < |all| && all[i] == store[k];
      assert IdOf(all[i]) == k;
    }
  }

  /**
   * Reload after a settled state: when every note of `items` is the record
   * stored under its id, reconciling the listed records with the ids of
   * `items` as the saved order gives `items` back.
   */
  lemma ReloadRestores(items: seq<FormData>, store: Store, loaded: seq<FormData>)
    requires Lists(store, loaded)
    requires forall x :: x in items ==> x.id in store && store[x.id] == x
    ensures Ordering.Reconcile(Some(Ids(items)), loaded, IdOf) == items
  {
    forall x | x in items
      ensures Ordering.Find(loaded, IdOf, IdOf(x)) == Some(x)
    {
      var i :| 0 <= i < |loaded| && loaded[i] == store[x.id];
      assert IdOf(x) in Ordering.KeySet(loaded, IdOf);
    }
    Ordering.RoundTrip(items, loaded, IdOf);
  }

  // ---------------------------------------------------------------------
  // Per-id updates of the in-memory list

  /** `handleTitleChange`'s update: the title of the notes with that id. */
  function SetTitle(items: seq<FormData>, id: int, title: string): (r: seq<FormData>)
    ensures |r| == |items| && Ids(r) == Ids(items)
    ensures forall i :: 0 <= i < |r| ==>
      r[i].title == (if items[i].id == id then title else items[i].title) &&
      r[i].description == items[i].description && r[i].date == items[i].date
  {
    seq(|items|, i requires 0 <= i < |items| =>
      if items[i].id == id then items[i].(title := title) else items[i])
  }

  /** `handleDescriptionChange`'s update: the description of the notes with that id. */
  function SetDescription(items: seq<FormData>, id: int, description: string): (r: seq<FormData>)
    ensures |r| == |items| && Ids(r) == Ids(items)
    ensures forall i :: 0 <= i < |r| ==>
      r[i].description == (if items[i].id == id then description else items[i].description) &&
      r[i].title == items[i].title && r[i].date == items[i].date
  {
    seq(|items|, i requires 0 <= i < |items| =>
      if items[i].id == id then items[i].(description := description) else items[i])
  }

  /** `handleSaveItem`'s update: the notes with that id get the new save time. */
  function Stamp(items: seq<FormData>, id: int, date: string): (r: seq<FormData>)
    ensures |r| == |items| && Ids(r) == Ids(items)
    ensures forall i :: 0 <= i < |r| ==>
      r[i].date == (if items[i].id == id then date else items[i].date) &&
      r[i].title == items[i].title && r[i].description == items[i].description
  {
    seq(|items|, i requires 0 <= i < |items| =>
      if items[i].id == id then items[i].(date := date) else items[i])
  }

  /** Of several title edits to one note only the last one is kept. */
  lemma LastTitleWins(items: seq<FormData>, id: int, first: string, last: string)
    ensures SetTitle(SetTitle(items, id, first), id, last) == SetTitle(items, id, last)
  {
  }

  /** Of several description edits to one note only the last one is kept. */
  lemma LastDescriptionWins(items: seq<FormData>, id: int, first: string, last: string)
    ensures SetDescription(SetDescription(items, id, first), id, last) == SetDescription(items, id, last)
  {
  }

  /** `prevItems.filter((item) => item.id !== id)`. */
  function Without(items: seq<FormData>, id: int): (r: seq<FormData>)
    ensures |r| <= |items|
    ensures forall x :: x in r <==> x in items && x.id != id
    ensures (forall x :: x in items ==> x.id != id) ==> r == items
  {
    if items == [] then []
    else if items[0].id == id then Without(items[1..], id)
    else [items[0]] + Without(items[1..], id)
  }

  /** Filtering works piecewise, so the kept notes keep their order and their repetitions. */
  lemma {:induction false} WithoutAppend(a: seq<FormData>, b: seq<FormData>, id: int)
    ensures Without(a + b, id) == Without(a, id) + Without(b, id)
  {
    if a == [] {
      assert a + b == b;
    } else {
      assert (a + b)[1..] == a[1..] + b;
      WithoutAppend(a[1..], b, id);
    }
  }

  /** Removing an id that is in the list shortens it. */
  lemma {:induction false} WithoutShrinks(items: seq<FormData>, id: int)
    requires id in Ids(items)
    ensures |Without(items, id)| < |items|
  {
    if items[0].id != id {
      assert Ids(items[1..]) == Ids(items)[1..];
      WithoutShrinks(items[1..], id);
    }
  }

  /** Removing notes keeps the ids of the rest unique. */
  lemma {:induction false} WithoutUnique(items: seq<FormData>, id: int)
    requires Ordering.UniqueKeys(items, IdOf)
    ensures Ordering.UniqueKeys(Without(items, id), IdOf)
  {
    if items != [] {
      var rest := items[1..];
      PrependUnique(items[0], rest);
      WithoutUnique(rest, id);
      if items[0].id != id {
        var kept := Without(rest, id);
        assert items[0].id !in Ids(kept) by {
          forall j | 0 <= j < |kept|
            ensures Ids(kept)[j] != items[0].id
          {
            assert kept[j] in rest;
          }
        }
        PrependUnique(items[0], kept);
      }
    }
  }

  /** Putting a note with a new id in front keeps the ids unique. */
  lemma PrependUnique(n: FormData, items: seq<FormData>)
    ensures Ordering.UniqueKeys([n] + items, IdOf) <==>
      Ordering.UniqueKeys(items, IdOf) && n.id !in Ids(items)
  {
    var s := [n] + items;
    if Ordering.UniqueKeys(s, IdOf) {
      forall i | 0 <= i < |items|
        ensures items[i].id != n.id
      {
        assert IdOf(s[0]) != IdOf(s[i + 1]);
      }
      forall i, j | 0 <= i < j < |items|
        ensures IdOf(items[i]) != IdOf(items[j])
      {
        assert IdOf(s[i + 1]) != IdOf(s[j + 1]);
      }
    }
  }

  // ---------------------------------------------------------------------
  // The list controller

  /** Every note of the list is the record stored under its id. */
  ghost predicate AllStored(items: seq<FormData>, store: Store)
  {
    forall x :: x in items ==> x.id in store && store[x.id] == x
  }

  /** Reordering a stored list leaves it stored. */
  lemma MoveStored(items: seq<FormData>, from: nat, to: nat, store: Store)
    requires from < |items| && to < |items|
    requires AllStored(items, store)
    ensures AllStored(Splice.Move(items, from, to), store)
  {
    Splice.MoveMembers(items, from, to);
  }

  class Controller {
    var items: seq<FormData>
    var visibleDescriptions: Option<string>
    var isDescriptionVisible: bool
    var confirmRemoveId: Option<int>
    /** The record store. */
    var records: Store
    /** The order store: the saved ids, or none if never written or expired. */
    var savedOrder: Option<seq<int>>

    ghost predicate Valid()
      reads this
    {
      Keyed(records)
    }

    /** The list and both stores agree: every note is stored and the saved order is the list's. */
    ghost predicate Settled()
      reads this
    {
      savedOrder == Some(Ids(items)) && AllStored(items, records)
    }

    /** The component's initial state over stores left by earlier sessions. */
    constructor (records: Store, savedOrder: Option<seq<int>>)
      requires Keyed(records)
      ensures Valid()
      ensures items == [] && visibleDescriptions == None && !isDescriptionVisible && confirmRemoveId == None
      ensures this.records == records && this.savedOrder == savedOrder
    {
      items := [];
      visibleDescriptions := None;
      isDescriptionVisible := false;
      confirmRemoveId := None;
      this.records := records;
      this.savedOrder := savedOrder;
    }

    /** `saveOrderToCookies`: overwrites the saved order with the ids of `newOrder`. */
    method SaveOrderToCookies(newOrder: seq<FormData>)
      modifies this`savedOrder
      ensures savedOrder == Some(Ids(newOrder))
    {
      savedOrder := Some(Ids(newOrder));
    }

    /**
     * The mount effect: loads every record and orders them by the saved
     * order. A settled list comes back as it was.
     */
    method FetchData()
      requires Valid()
      modifies this`items
      ensures savedOrder.None? ==> Lists(records, items)
      ensures savedOrder.Some? ==> Ids(items) == Ordering.Filter(savedOrder.value, records.Keys)
      ensures forall x :: x in items ==> x.id in records && records[x.id] == x
      ensures old(Settled()) ==> items == old(items)
    {
      var loaded := GetAll(records);
      ghost var before := items;
      items := Ordering.Reconcile(savedOrder, loaded, IdOf);
      ListedKeys(records, loaded);
      forall x | x in items
        ensures x.id in records && records[x.id] == x
      {
        var i :| 0 <= i < |loaded| && loaded[i] == x;
      }
      if old(Settled()) {
        ReloadRestores(before, records, loaded);
      }
    }

    /**
     * `handleOnDragEnd`: a drop outside the list does nothing; otherwise the
     * element moves from the source to the destination index and the new
     * order is saved.
     */
    method OnDragEnd(result: Splice.DropResult)
      requires Splice.InRange(result, |items|)
      modifies this`items, this`savedOrder
      ensures result.destination.None? ==> items == old(items) && savedOrder == old(savedOrder)
      ensures result.destination.Some? ==>
        items == Splice.Move(old(items), result.source, result.destination.value) &&
        savedOrder == Some(Ids(items))
      ensures multiset(items) == multiset(old(items))
      ensures old(Settled()) ==> Settled()
    {
      if result.destination.Some? {
        ghost var before := items;
        var reordered := Splice.MoveCopy(items, result.source, result.destination.value);
        Splice.MovePermutes(before, result.source, result.destination.value);
        ghost var stored := AllStored(before, records);
        if stored {
          MoveStored(before, result.source, result.destination.value, records);
        }
        items := reordered;
        SaveOrderToCookies(reordered);
        assert stored ==> AllStored(items, records);
      }
    }

    /** `handleAddNewItem`: a blank note with the given id and date goes in front; nothing is stored. */
    method AddNewItem(newId: int, date: string)
      modifies this`items
      ensures items == [FormData(newId, "", "", date)] + old(items)
      ensures Ordering.UniqueKeys(items, IdOf) <==>
        Ordering.UniqueKeys(old(items), IdOf) && newId !in Ids(old(items))
    {
      var newItem := FormData(newId, "", "", date);
      PrependUnique(newItem, items);
      items := [newItem] + items;
    }

    /** `handleTitleChange`. */
    method ChangeTitle(id: int, title: string)
      modifies this`items
      ensures items == SetTitle(old(items), id, title)
    {
      items := SetTitle(items, id, title);
    }

    /** `handleDescriptionChange`. */
    method ChangeDescription(id: int, description: string)
      modifies this`items
      ensures items == SetDescription(old(items), id, description)
    {
      items := SetDescription(items, id, description);
    }

    /**
     * `handleSaveItem`: stamps the notes with that id; if there is one, the
     * first is put into the record store and the order is saved.
     */
    method SaveItem(id: int, date: string)
      requires Valid()
      modifies this`items, this`records, this`savedOrder
      ensures Valid()
      ensures items == Stamp(old(items), id, date)
      ensures id !in Ids(old(items)) ==>
        items == old(items) && records == old(records) && savedOrder == old(savedOrder)
      ensures id in Ids(old(items)) ==>
        id in records && records == Put(old(records), records[id]) &&
        Ordering.Find(items, IdOf, id) == Some(records[id]) && records[id].date == date &&
        savedOrder == Some(Ids(items))
      ensures old(Settled()) ==> Settled()
    {
      ghost var before := items;
      var updated := Stamp(items, id, date);
      items := updated;
      var itemToSave := Ordering.Find(updated, IdOf, id);
      if itemToSave.Some? {
        records := Put(records, itemToSave.value);
        SaveOrderToCookies(updated);
      } else {
        assert updated == before;
      }
    }

    /** `setConfirmRemoveId(id)` behind the Remove button: asks for confirmation only. */
    method RequestRemove(id: int)
      modifies this`confirmRemoveId
      ensures confirmRemoveId == Some(id)
    {
      confirmRemoveId := Some(id);
    }

    /** The Cancel button of the confirmation: clears the request only. */
    method CancelRemove()
      modifies this`confirmRemoveId
      ensures confirmRemoveId == None
    {
      confirmRemoveId := None;
    }

    /**
     * `handleRemoveItem`: deletes the record, drops the notes with that id
     * from the list, saves the remaining order and clears the request.
     */
    method RemoveItem(id: int)
      requires Valid()
      modifies this`items, this`records, this`savedOrder, this`confirmRemoveId
      ensures Valid()
      ensures records == Delete(old(records), id)
      ensures items == Without(old(items), id)
      ensures savedOrder == Some(Ids(items))
      ensures confirmRemoveId == None
      ensures old(Settled()) ==> Settled()
      ensures Ordering.UniqueKeys(old(items), IdOf) ==> Ordering.UniqueKeys(items, IdOf)
    {
      if Ordering.UniqueKeys(items, IdOf) {
        WithoutUnique(items, id);
      }
      records := Delete(records, id);
      var updated := Without(items, id);
      items := updated;
      SaveOrderToCookies(updated);
      confirmRemoveId := None;
    }

    /** The "Please Remove" button: closes the open note, then removes. */
    method ConfirmRemove(id: int)
      requires Valid()
      modifies this
      ensures Valid()
      ensures visibleDescriptions == None && !isDescriptionVisible
      ensures records == Delete(old(records), id)
      ensures items == Without(old(items), id)
      ensures savedOrder == Some(Ids(items))
      ensures confirmRemoveId == None
      ensures old(Settled()) ==> Settled()
      ensures Ordering.UniqueKeys(old(items), IdOf) ==> Ordering.UniqueKeys(items, IdOf)
    {
      HideDescription();
      RemoveItem(id);
    }

    /** `toggleDescription`. */
    method ToggleDescription(id: string)
      modifies this`visibleDescriptions
      ensures visibleDescriptions == Selection.Toggle(old(visibleDescriptions), id)
    {
      visibleDescriptions := Selection.Toggle(visibleDescriptions, id);
    }

    /** `showDescription`: opens `id`'s note. */
    method ShowDescription(id: string)
      modifies this`visibleDescriptions, this`isDescriptionVisible
      ensures visibleDescriptions == Some(id) && isDescriptionVisible
    {
      visibleDescriptions := Some(id);
      isDescriptionVisible := true;
    }

    /** `hideDescription`: closes the open note. */
    method HideDescription()
      modifies this`visibleDescriptions, this`isDescriptionVisible
      ensures visibleDescriptions == None && !isDescriptionVisible
    {
      visibleDescriptions := None;
      isDescriptionVisible := false;
    }
  }

  /**
   * A first session: add a note, give it a title and save it. The record
   * store then holds exactly that note and the order store its id.
   */
  method FirstNote(created: string, saved: string)
  {
    var list := new Controller(map[], None);
    list.AddNewItem(1000, created);
    list.ChangeTitle(1000, "Groceries");
    assert list.items == [FormData(1000, "Groceries", "", created)];
    list.SaveItem(1000, saved);
    assert list.items == [FormData(1000, "Groceries", "", saved)];
    assert Ordering.Find(list.items, IdOf, 1000) == Some(list.items[0]);
    assert list.records == map[1000 := FormData(1000, "Groceries", "", saved)];
    assert Ids(list.items) == [1000];
    assert list.savedOrder == Some([1000]);
  }
}
