# Ordered note list: a Dafny model

This project models the note list of the `kayaks-ts` notepad:
`DragAndDropFormList`, a React component that keeps notes in display order in
memory and keeps two browser stores in step with that list:

- the **record store**, the IndexedDB object store `formData` with key path `id`;
- the **order store**, the `itemOrder` cookie holding the list's ids.

It also models the smaller `DragAndDrop` component, which shows a fixed
list of three entries in the order saved in the `itemOrderOld` cookie.

Modules:

- `Wrappers`: `Option`, used for `null`-able state and for the order store
  (`None` = cookie absent or expired).
- `Splice`: the reorder. `Move` is the two `splice` calls of `handleOnDragEnd`.
  Lemmas show it is a permutation, lands the moved element at the destination,
  keeps the others in relative order, and is undone by dragging back.
  `MoveCopy` does the same work on a fresh array, as the source does after
  `Array.from`. `DropResult` is the drag-release event.
- `Ordering`: the reconciler `loadOrderFromCookies`, generic in the record type
  and its id. Its parts are `find`, `map` and `filter`. Lemmas cover dropping
  stale ids, hiding orphaned records, and the save/load round trip.
- `Selection`: the `toggleDescription` update shared by both components.
- `FormList`: the note type `FormData`, and the record store as a
  `map<int, FormData>` with put, delete and getAll. It also has the per-id
  list updates and the class `Controller`. That class holds the component
  state (`items`, `visibleDescriptions`, `isDescriptionVisible`,
  `confirmRemoveId`) together with the two stores, and has one method per
  handler. `Settled()` says the list and both stores agree. Reorder, save and
  removal keep it. From a
  settled state, `FetchData` (the mount effect) gives
  the same list back.
- `DragAndDrop`: the entry type, the fixed `itemsList`, its `loadOrderFromCookies`,
  and a `Controller` with mount, drag end and toggle.

Inputs from outside the program are parameters. The id of a new note
(`Date.now()`) and the formatted date string (`toLocaleString`) are arguments
of `AddNewItem` and `SaveItem`. The stores' contents at page load are the
constructor's arguments. The drop event is an argument of `OnDragEnd`.

Some behaviour of the code is easy to assume wrongly. The model follows the code:

- No debounced autosave exists. A note is written to the record store only by
  an explicit `SaveItem`.
- Nothing checks the drop indices before splicing. `OnDragEnd` therefore
  requires `Splice.InRange`: both indices are positions in the list whenever
  there is a destination.
- `getAll` returns the records in ascending key order, which is how IndexedDB
  returns them. It is not an unspecified order.
- A new note already carries a formatted `date` when it is created, not only
  once it is saved.

Records that are in the record store but not in a saved order stay hidden
after a reload (`Ordering.OrphanInvisible`); the code does not append them.

The obvious statement "toggling the same id twice restores the previous
selection" holds only when nothing or that same id was open.
`Selection.ToggleTwice` proves it under that condition.
`Selection.ToggleTwiceFromOther` shows that when a different id was open, two
toggles leave nothing open.

Note ids come from the clock, so they are not guaranteed to be unique, and the
model does not assume they are. `AddNewItem` keeps the ids unique exactly when
the new id is not already in the list, and `RemoveItem` keeps unique ids
unique. `Settled()` needs no uniqueness: it makes every note with a given id
equal to its stored record, so notes that share an id are identical.

## Model

| member | source | states |
|---|---|---|
| `Splice.RemoveAt` | src/components/parts/DragAndDropFormList.tsx:105 | the list without the element at the index: one shorter, earlier elements in place, later ones shifted down one |
| `Splice.InsertAt` | src/components/parts/DragAndDropFormList.tsx:106 | the element sits at the index, earlier elements in place, later ones shifted up one |
| `Splice.Move` | src/components/parts/DragAndDropFormList.tsx:104-106 | the two splices of a reorder: the length is kept and the source element lands at the destination index |
| `Splice.MoveShape` | src/components/parts/DragAndDropFormList.tsx:104-106 | taking the moved element back out gives the list with the source element taken out, so the others keep their relative order |
| `Splice.MoveAt` | src/components/parts/DragAndDropFormList.tsx:104-106 | where each element ends up: the moved one at the destination, the ones between the two indices shifted by one, the rest in place |
| `Splice.MovePermutes` | src/components/parts/DragAndDropFormList.tsx:104-106 | a reorder is a permutation (same multiset) |
| `Splice.MoveMembers` | src/components/parts/DragAndDropFormList.tsx:104-106 | a reorder neither adds nor loses an element |
| `Splice.MoveBack` | src/components/parts/DragAndDropFormList.tsx:104-106 | dragging from the destination back to the source restores the list |
| `Splice.MoveCopy` | src/components/parts/DragAndDropFormList.tsx:104-106 | copying the list into an array and shifting it in place gives exactly `Move` of the list |
| `Ordering.Keys` | src/components/parts/DragAndDropFormList.tsx:76 | `map((item) => item.id)`: one id per record, in the records' order |
| `Ordering.Find` | src/components/parts/DragAndDropFormList.tsx:85 | a record is found exactly when some record has the id, and the one found is a loaded record with that id |
| `Ordering.FindFirst` | src/components/parts/DragAndDropFormList.tsx:85 | when several records share the id, the one found is the first of them |
| `Ordering.Filter` | src/components/parts/DragAndDropFormList.tsx:84-86 | the kept ids are the saved ids that have a record, never more than were saved |
| `Ordering.FilterAppend` | src/components/parts/DragAndDropFormList.tsx:84-86 | filtering a concatenation is concatenating the filtered parts, so the kept ids stay in saved order with their repetitions |
| `Ordering.Pick` | src/components/parts/DragAndDropFormList.tsx:84-87 | at most one record per saved id, every one a loaded record, their ids the saved ids that have a record in saved order, each the first loaded record with its id |
| `Ordering.Reconcile` | src/components/parts/DragAndDropFormList.tsx:80-90 | with no saved order the loaded records unchanged; with one, the records of `Pick`: no more than the saved ids, all loaded, in saved order, stale ids dropped |
| `Ordering.StaleDropped` | src/components/parts/DragAndDropFormList.tsx:84-86 | a saved id without a loaded record does not appear in the result, and no error is raised |
| `Ordering.OrphanInvisible` | src/components/parts/DragAndDropFormList.tsx:84-87 | a loaded record whose id is not in the saved order does not appear |
| `Ordering.RoundTrip` | src/components/parts/DragAndDropFormList.tsx:75-90 | if looking up each record's id among the loaded records finds that record, applying the list's ids as the order gives the list back |
| `Ordering.DrawnRoundTrip` | src/components/parts/DragAndDrop.tsx:22-37 | against loaded records with unique ids, any list drawn from them survives saving its ids and reconciling |
| `Ordering.PermutationRoundTrip` | src/components/parts/DragAndDropFormList.tsx:75-90 | a list with unique ids whose permutation was loaded comes back exactly from its saved ids |
| `Selection.Toggle` | src/components/parts/DragAndDrop.tsx:54-56 | the result is empty exactly when the toggled id was open, and otherwise it is that id |
| `Selection.ToggleTwice` | src/components/parts/DragAndDrop.tsx:54-56 | from nothing open or that id open, toggling the same id twice restores the state |
| `Selection.ToggleOther` | src/components/parts/DragAndDrop.tsx:54-56 | toggling an id that is not the open one opens it |
| `Selection.ToggleTwiceFromOther` | src/components/parts/DragAndDrop.tsx:54-56 | with another id open, two toggles of an id close everything, so the toggle is not an involution in general |
| `FormList.Ids` | src/components/parts/DragAndDropFormList.tsx:76 | one id per note, in list order |
| `FormList.KeyedUniqueIds` | src/components/parts/DragAndDropFormList.tsx:21 | with the key path `id` (`Keyed`), two stored records with the same id are the same record under the same key |
| `FormList.Put` | src/components/parts/DragAndDropFormList.tsx:36-41 | after a put the note is stored under its id, every other key and record is unchanged, and records stay under their own ids |
| `FormList.PutIdempotent` | src/components/parts/DragAndDropFormList.tsx:36-41 | putting the same note twice is putting it once |
| `FormList.Delete` | src/components/parts/DragAndDropFormList.tsx:62-67 | after a delete the id is absent and all else is unchanged; deleting a missing id is a no-op |
| `FormList.GetAll` | src/components/parts/DragAndDropFormList.tsx:44-59 | returns every stored record exactly once, each the record under its id, in strictly ascending id order |
| `FormList.ListedKeys` | src/components/parts/DragAndDropFormList.tsx:44-59 | the ids among the listed records are exactly the store's keys |
| `FormList.ReloadRestores` | src/components/parts/DragAndDropFormList.tsx:75-99 | when every note of the list is the stored record for its id, reconciling the store's listing with the list's ids gives the list back |
| `FormList.SetTitle` | src/components/parts/DragAndDropFormList.tsx:129-136 | same length and id sequence; only the title of notes with that id changes, to the new title |
| `FormList.SetDescription` | src/components/parts/DragAndDropFormList.tsx:138-145 | same length and id sequence; only the description of notes with that id changes |
| `FormList.Stamp` | src/components/parts/DragAndDropFormList.tsx:147-162 | same length and id sequence; only the date of notes with that id changes, to the save time |
| `FormList.LastTitleWins` | src/components/parts/DragAndDropFormList.tsx:129-136 | two title edits to a note leave only the later title |
| `FormList.LastDescriptionWins` | src/components/parts/DragAndDropFormList.tsx:138-145 | two description edits to a note leave only the later description |
| `FormList.Without` | src/components/parts/DragAndDropFormList.tsx:176 | the notes kept are exactly the notes whose id differs, never more than before; a list without that id is unchanged |
| `FormList.WithoutAppend` | src/components/parts/DragAndDropFormList.tsx:176 | filtering a concatenation is concatenating the filtered parts, so the kept notes keep their order and repetitions |
| `FormList.WithoutShrinks` | src/components/parts/DragAndDropFormList.tsx:176 | removing an id that is in the list makes it shorter |
| `FormList.WithoutUnique` | src/components/parts/DragAndDropFormList.tsx:176 | filtering keeps the ids unique |
| `FormList.MoveStored` | src/components/parts/DragAndDropFormList.tsx:104-109 | reordering a list whose notes are all stored gives a list whose notes are all stored |
| `FormList.PrependUnique` | src/components/parts/DragAndDropFormList.tsx:112-127 | a note put in front keeps the ids unique exactly when its id is new and the rest were unique |
| `FormList.Controller.constructor` | src/components/parts/DragAndDropFormList.tsx:70-73 | empty list, nothing open, no removal pending, the stores as found |
| `FormList.Controller.SaveOrderToCookies` | src/components/parts/DragAndDropFormList.tsx:75-78 | the order store becomes the ids of the list, overwriting whatever was saved |
| `FormList.Controller.FetchData` | src/components/parts/DragAndDropFormList.tsx:92-99 | with no saved order the list is the store's listing; with one, its ids are the saved ids that have a record; each note is the stored record; a settled list comes back unchanged |
| `FormList.Controller.OnDragEnd` | src/components/parts/DragAndDropFormList.tsx:101-110 | no destination: list and order store unchanged; otherwise the list becomes `Move` of the old list and the order store its ids; always a permutation; keeps `Settled()` |
| `FormList.Controller.AddNewItem` | src/components/parts/DragAndDropFormList.tsx:112-127 | a note with the new id, empty title and description goes in front of the unchanged old list; no store is written; ids stay unique exactly when the new id is fresh |
| `FormList.Controller.ChangeTitle` | src/components/parts/DragAndDropFormList.tsx:129-136 | the list becomes `SetTitle` of the old one; nothing else changes |
| `FormList.Controller.ChangeDescription` | src/components/parts/DragAndDropFormList.tsx:138-145 | the list becomes `SetDescription` of the old one; nothing else changes |
| `FormList.Controller.SaveItem` | src/components/parts/DragAndDropFormList.tsx:147-171 | the list is stamped; with no note of that id nothing is written; otherwise the first such note is put into the record store, only that key changes, and the order store becomes the list's ids; keeps `Settled()` |
| `FormList.Controller.RequestRemove` | src/components/parts/DragAndDropFormList.tsx:196-198 | only the pending removal is set |
| `FormList.Controller.CancelRemove` | src/components/parts/DragAndDropFormList.tsx:243 | only the pending removal is cleared |
| `FormList.Controller.RemoveItem` | src/components/parts/DragAndDropFormList.tsx:173-181 | the id is deleted from the record store and filtered out of the list, the order store becomes the remaining ids, the pending removal is cleared; keeps `Settled()` and unique ids |
| `FormList.Controller.ConfirmRemove` | src/components/parts/DragAndDropFormList.tsx:235-238 | closes the open note, then removes as `RemoveItem` does; keeps `Settled()` and unique ids |
| `FormList.Controller.ToggleDescription` | src/components/parts/DragAndDropFormList.tsx:183-185 | the open note becomes `Toggle` of the previous one |
| `FormList.Controller.ShowDescription` | src/components/parts/DragAndDropFormList.tsx:186-189 | the note with that id is open and the single-note view is on |
| `FormList.Controller.HideDescription` | src/components/parts/DragAndDropFormList.tsx:191-194 | nothing is open and the single-note view is off |
| `DragAndDrop.Ids` | src/components/parts/DragAndDrop.tsx:23 | one id per entry, in list order |
| `DragAndDrop.ItemsListIds` | src/components/parts/DragAndDrop.tsx:5-9 | the fixed entries have the unique ids "1", "2", "3" |
| `DragAndDrop.LoadOrder` | src/components/parts/DragAndDrop.tsx:27-37 | with no saved order the fixed list; with one, fixed entries only, no more than the saved ids, whose ids are the saved ids among "1", "2", "3" in saved order |
| `DragAndDrop.DrawnRoundTrip` | src/components/parts/DragAndDrop.tsx:22-37 | saving the ids of any list of fixed entries and loading again gives that list |
| `DragAndDrop.PermutationRoundTrip` | src/components/parts/DragAndDrop.tsx:22-37 | every permutation of the fixed list survives saving and loading |
| `DragAndDrop.Controller.constructor` | src/components/parts/DragAndDrop.tsx:19-20 | empty list, nothing open, the saved order as found |
| `DragAndDrop.Controller.SaveOrderToCookies` | src/components/parts/DragAndDrop.tsx:22-25 | the order store becomes the ids of the list |
| `DragAndDrop.Controller.Mount` | src/components/parts/DragAndDrop.tsx:39-41 | the list becomes `LoadOrder` of the saved order; a list of fixed entries whose ids were saved comes back unchanged |
| `DragAndDrop.Controller.OnDragEnd` | src/components/parts/DragAndDrop.tsx:43-52 | no destination: nothing changes; otherwise the list becomes `Move` of the old list and the order store its ids; always a permutation of fixed entries |
| `DragAndDrop.Controller.ToggleDescription` | src/components/parts/DragAndDrop.tsx:54-56 | the open entry becomes `Toggle` of the previous one |

## Left out

- IndexedDB mechanics are not modelled: opening the database, the upgrade step that creates `formData`, transactions, and the success and error callbacks (`openDB`, lines 14-33). These are browser I/O. The store is a map, and every put and delete succeeds. The store-unavailable and write-failed error paths are therefore not represented.
- Cookie encoding is not modelled. That covers JSON encoding, `JSON.parse` of a corrupted cookie, and the 7-day expiry. The order store is an optional id sequence, and an expired cookie is a constructor argument of `None`.
- The clock and the locale are not modelled: `Date.now()` and `toLocaleString('pl-PL', ...)`. Their values are parameters.
- async/await interleaving and React state batching are not modelled. Each handler is one atomic step. This includes `handleRemoveItem` writing the order store inside a `setItems` updater.
- `hideDescription` ignores its `id` argument. `HideDescription` therefore takes none.
- Rendering, CSS classes and the react-beautiful-dnd wiring are left out. So are `MyForm.tsx`, `LanguageFormList.tsx`, `Button.tsx`, `Main.tsx` and the two subpages. They are UI, or persistence unrelated to the note list.
- Reordering is not proved to keep ids unique. It is proved to be a permutation, so the notes and their ids are the same as before.
