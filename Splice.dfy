/**
 * The list arithmetic behind a drag-and-drop reorder: the source copies the
 * list, removes the element at the source index with `splice(from, 1)` and
 * reinserts it at the destination index with `splice(to, 0, x)`.
 */
module Splice {
  import opened Wrappers

  /**
   * What a drag release reports: the index the element was picked up at
   * and, unless it was dropped outside the list, the index it was dropped at.
   */
  datatype DropResult = DropResult(source: nat, destination: Option<nat>)

  /** The indices of a drop that has a destination name positions of a list of length `n`. */
  predicate InRange(result: DropResult, n: nat)
  {
    result.destination.Some? ==> result.source < n && result.destination.value < n
  }

  /** `s.splice(i, 1)`: the list without its element at index `i`. */
  function RemoveAt<T>(s: seq<T>, i: nat): (r: seq<T>)
    requires i < |s|
    ensures |r| == |s| - 1
    ensures forall j :: 0 <= j < i ==> r[j] == s[j]
    ensures forall j :: i <= j < |r| ==> r[j] == s[j + 1]
  {
    s[..i] + s[i + 1..]
  }

  /** `s.splice(i, 0, x)`: the list with `x` inserted so that it sits at index `i`. */
  function InsertAt<T>(s: seq<T>, i: nat, x: T): (r: seq<T>)
    requires i <= |s|
    ensures |r| == |s| + 1
    ensures r[i] == x
    ensures forall j :: 0 <= j < i ==> r[j] == s[j]
    ensures forall j :: i < j < |r| ==> r[j] == s[j - 1]
  {
    s[..i] + [x] + s[i..]
  }

  /** Inserting at `i` and then removing at `i` gives the list back. */
  lemma RemoveInserted<T>(s: seq<T>, i: nat, x: T)
    requires i <= |s|
    ensures RemoveAt(InsertAt(s, i, x), i) == s
  {
  }

  /** Removing at `i` and reinserting the removed element at `i` gives the list back. */
  lemma InsertRemoved<T>(s: seq<T>, i: nat)
    requires i < |s|
    ensures InsertAt(RemoveAt(s, i), i, s[i]) == s
  {
  }

  /** The two splices of a reorder. Both indices are positions in the list. */
  function Move<T>(s: seq<T>, from: nat, to: nat): (r: seq<T>)
    requires from < |s| && to < |s|
    ensures |r| == |s|
    ensures r[to] == s[from]
  {
    InsertAt(RemoveAt(s, from), to, s[from])
  }

  /**
   * A reorder keeps every other element in its relative order: taking the
   * moved element back out leaves the list with the source element taken out.
   */
  lemma MoveShape<T>(s: seq<T>, from: nat, to: nat)
    requires from < |s| && to < |s|
    ensures RemoveAt(Move(s, from, to), to) == RemoveAt(s, from)
  {
    RemoveInserted(RemoveAt(s, from), to, s[from]);
  }

  /** Where every element of the list ends up after a reorder. */
  lemma MoveAt<T>(s: seq<T>, from: nat, to: nat, j: nat)
    requires from < |s| && to < |s| && j < |s|
    ensures Move(s, from, to)[j] ==
      if j == to then s[from]
      else if from <= j < to then s[j + 1]
      else if to < j <= from then s[j - 1]
      else s[j]
  {
  }

  /** A reorder is a permutation of the list. */
  lemma {:induction false} MovePermutes<T>(s: seq<T>, from: nat, to: nat)
    requires from < |s| && to < |s|
    ensures multiset(Move(s, from, to)) == multiset(s)
  {
    var rest := RemoveAt(s, from);
    assert s == s[..from] + [s[from]] + s[from + 1..];
    assert multiset(s) == multiset(rest) + multiset{s[from]};
    assert Move(s, from, to) == rest[..to] + [s[from]] + rest[to..];
    assert rest == rest[..to] + rest[to..];
  }

  /** A reorder neither adds nor loses elements. */
  lemma MoveMembers<T>(s: seq<T>, from: nat, to: nat)
    requires from < |s| && to < |s|
    ensures forall x :: x in Move(s, from, to) <==> x in s
  {
    MovePermutes(s, from, to);
    forall x
      ensures x in Move(s, from, to) <==> x in s
    {
      assert x in Move(s, from, to) <==> x in multiset(Move(s, from, to));
      assert x in s <==> x in multiset(s);
    }
  }

  /** Dragging the element back from the destination to the source undoes a reorder. */
  lemma MoveBack<T>(s: seq<T>, from: nat, to: nat)
    requires from < |s| && to < |s|
    ensures Move(Move(s, from, to), to, from) == s
  {
    MoveShape(s, from, to);
    InsertRemoved(s, from);
  }

  /**
   * `Array.from(items)` followed by the two splices, done on a fresh array:
   * the elements between the two indices shift by one place and the moved
   * element is written at the destination.
   */
  method MoveCopy<T>(items: seq<T>, from: nat, to: nat) returns (r: seq<T>)
    requires from < |items| && to < |items|
    ensures r == Move(items, from, to)
  {
    var a := new T[|items|](i requires 0 <= i < |items| => items[i]);
    var moved := a[from];
    var k := from;
    if from <= to {
      while k < to
        invariant from <= k <= to
        invariant a.Length == |items|
        invariant forall j {:trigger a[j]} :: 0 <= j < a.Length ==> a[j] == (if from <= j < k then items[j + 1] else items[j])
      {
        a[k] := a[k + 1];
        k := k + 1;
      }
    } else {
      while k > to
        invariant to <= k <= from
        invariant a.Length == |items|
        invariant forall j {:trigger a[j]} :: 0 <= j < a.Length ==> a[j] == (if k < j <= from then items[j - 1] else items[j])
      {
        a[k] := a[k - 1];
        k := k - 1;
      }
    }
    a[to] := moved;
    r := a[..];
    forall j | 0 <= j < |items|
      ensures r[j] == Move(items, from, to)[j]
    {
      MoveAt(items, from, to, j);
    }
  }
}
