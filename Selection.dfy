/** The "which description is open" state shared by both lists. */
module Selection {
  import opened Wrappers

  /** `toggleDescription`: closes the open description if it is `id`'s, otherwise opens `id`'s. */
  function Toggle<T(==)>(prev: Option<T>, id: T): (r: Option<T>)
    ensures r.None? <==> prev == Some(id)
    ensures r.Some? ==> r.value == id
  {
    if prev == Some(id) then None else Some(id)
  }

  /** Toggling the same id twice restores the state when nothing or that id was open. */
  lemma ToggleTwice<T>(prev: Option<T>, id: T)
    requires prev == None || prev == Some(id)
    ensures Toggle(Toggle(prev, id), id) == prev
  {
  }

  /** Toggling an id that is not the open one opens it. */
  lemma ToggleOther<T>(prev: Option<T>, id: T)
    requires prev != Some(id)
    ensures Toggle(prev, id) == Some(id)
  {
  }

  /** When another id is open, toggling `id` twice closes everything rather than restoring it. */
  lemma ToggleTwiceFromOther<T>(other: T, id: T)
    requires other != id
    ensures Toggle(Toggle(Some(other), id), id) == None
  {
  }
}
