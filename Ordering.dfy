/**
 * The reconciler: rebuilds the display list from the loaded records and the
 * saved id order. Each saved id is looked up among the loaded records with
 * `find` (first record with that id) and ids with no record are dropped;
 * with no saved order the loaded records are used as they are.
 * The id of a record is given by `key`.
 */
module Ordering {
  import opened Wrappers

  /** `list.map((item) => item.id)`. */
  function Keys<T, K>(s: seq<T>, key: T -> K): (r: seq<K>)
    ensures |r| == |s| && forall i :: 0 <= i < |s| ==> r[i] == key(s[i])
  {
    seq(|s|, i requires 0 <= i < |s| => key(s[i]))
  }

  /** The ids that occur among the records. */
  function KeySet<T, K>(s: seq<T>, key: T -> K): set<K>
  {
    set i | 0 <= i < |s| :: key(s[i])
  }

  /** No two records of the list share an id. */
  predicate UniqueKeys<T, K(==)>(s: seq<T>, key: T -> K)
  {
    forall i, j :: 0 <= i < j < |s| ==> key(s[i]) != key(s[j])
  }

  /** `s.find((item) => item.id === k)`: the first record with id `k`, if any. */
  function Find<T(==), K(==)>(s: seq<T>, key: T -> K, k: K): (r: Option<T>)
    ensures r.Some? <==> k in KeySet(s, key)
    ensures r.Some? ==> r.value in s && key(r.value) == k
  {
    if |s| == 0 then None
    else if key(s[0]) == k then Some(s[0])
    else
      assert KeySet(s, key) == {key(s[0])} + KeySet(s[1..], key) by {
        assert s == [s[0]] + s[1..];
      }
      Find(s[1..], key, k)
  }

  /** `find` returns the first record with the id, not a later one. */
  lemma {:induction false} FindFirst<T, K>(s: seq<T>, key: T -> K, i: nat)
    requires i < |s|
    requires forall j :: 0 <= j < i ==> key(s[j]) != key(s[i])
    ensures Find(s, key, key(s[i])) == Some(s[i])
  {
    if i > 0 {
      FindFirst(s[1..], key, i - 1);
    }
  }

  /** The ids of `ids` that are in `keep`, in their order. */
  function Filter<K>(ids: seq<K>, keep: set<K>): (r: seq<K>)
    ensures |r| <= |ids|
    ensures forall i :: 0 <= i < |r| ==> r[i] in ids && r[i] in keep
    ensures forall i :: 0 <= i < |ids| && ids[i] in keep ==> ids[i] in r
  {
    if ids == [] then []
    else (if ids[0] in keep then [ids[0]] else []) + Filter(ids[1..], keep)
  }

  /** Filtering works piecewise, so the kept ids keep their order and their repetitions. */
  lemma {:induction false} FilterAppend<K>(a: seq<K>, b: seq<K>, keep: set<K>)
    ensures Filter(a + b, keep) == Filter(a, keep) + Filter(b, keep)
  {
    if a == [] {
      assert a + b == b;
    } else {
      assert (a + b)[1..] == a[1..] + b;
      FilterAppend(a[1..], b, keep);
    }
  }

  /** `ids.map(find).filter(defined)`: the saved order applied to the loaded records. */
  function Pick<T(==), K(==)>(ids: seq<K>, loaded: seq<T>, key: T -> K): (r: seq<T>)
    ensures |r| <= |ids|
    ensures forall x :: x in r ==> x in loaded
    ensures Keys(r, key) == Filter(ids, KeySet(loaded, key))
    ensures forall i :: 0 <= i < |r| ==> Find(loaded, key, key(r[i])) == Some(r[i])
  {
    if ids == [] then []
    else
      var rest := Pick(ids[1..], loaded, key);
      match Find(loaded, key, ids[0])
      case Some(x) =>
        assert Keys([x] + rest, key) == [key(x)] + Keys(rest, key);
        [x] + rest
      case None => rest
  }

  /**
   * `loadOrderFromCookies`: with a saved order, the loaded records whose
   * ids the order names, in saved order, each the first loaded record with
   * its id, stale ids dropped; with none, the loaded records unchanged.
   */
  function Reconcile<T(==), K(==)>(saved: Option<seq<K>>, loaded: seq<T>, key: T -> K): (r: seq<T>)
    ensures saved.None? ==> r == loaded
    ensures saved.Some? ==> |r| <= |saved.value|
    ensures forall x :: x in r ==> x in loaded
    ensures saved.Some? ==> Keys(r, key) == Filter(saved.value, KeySet(loaded, key))
    ensures saved.Some? ==> forall i :: 0 <= i < |r| ==> Find(loaded, key, key(r[i])) == Some(r[i])
  {
    match saved
    case None => loaded
    case Some(ids) => Pick(ids, loaded, key)
  }

  /** In a list with unique ids, an id determines the index. */
  lemma SameKeySameIndex<T, K>(s: seq<T>, key: T -> K, i: nat, j: nat)
    requires UniqueKeys(s, key)
    requires i < |s| && j < |s| && key(s[i]) == key(s[j])
    ensures i == j
  {
  }

  /** A saved id with no loaded record is dropped without error. */
  lemma StaleDropped<T, K>(ids: seq<K>, loaded: seq<T>, key: T -> K, k: K)
    requires k !in KeySet(loaded, key)
    ensures forall x :: x in Reconcile(Some(ids), loaded, key) ==> key(x) != k
  {
  }

  /** A loaded record whose id the saved order does not name does not appear. */
  lemma OrphanInvisible<T, K>(ids: seq<K>, loaded: seq<T>, key: T -> K, y: T)
    requires key(y) !in ids
    ensures y !in Reconcile(Some(ids), loaded, key)
  {
    var r := Reconcile(Some(ids), loaded, key);
    forall i | 0 <= i < |r|
      ensures r[i] != y
    {
      assert Keys(r, key)[i] in ids;
    }
  }

  /**
   * The save/load round trip: when every record of `list` is what looking
   * its id up among the loaded records finds, applying the ids of `list`
   * as the saved order gives `list` back.
   */
  lemma {:induction false} RoundTrip<T, K>(list: seq<T>, loaded: seq<T>, key: T -> K)
    requires forall x :: x in list ==> Find(loaded, key, key(x)) == Some(x)
    ensures Pick(Keys(list, key), loaded, key) == list
  {
    if list != [] {
      assert Keys(list, key)[1..] == Keys(list[1..], key);
      RoundTrip(list[1..], loaded, key);
    }
  }

  /** Round trip against loaded records with unique ids: any list drawn from them comes back. */
  lemma DrawnRoundTrip<T, K>(list: seq<T>, loaded: seq<T>, key: T -> K)
    requires UniqueKeys(loaded, key)
    requires forall x :: x in list ==> x in loaded
    ensures Reconcile(Some(Keys(list, key)), loaded, key) == list
  {
    forall x | x in list
      ensures Find(loaded, key, key(x)) == Some(x)
    {
      var y := Find(loaded, key, key(x)).value;
      var i :| 0 <= i < |loaded| && loaded[i] == x;
      var j :| 0 <= j < |loaded| && loaded[j] == y;
      assert i == j;
    }
    RoundTrip(list, loaded, key);
  }

  /**
   * Round trip when the loaded records are a permutation of a list with
   * unique ids: reconciling with the ids of the list gives the list.
   */
  lemma PermutationRoundTrip<T, K>(list: seq<T>, loaded: seq<T>, key: T -> K)
    requires UniqueKeys(list, key)
    requires multiset(loaded) == multiset(list)
    ensures Reconcile(Some(Keys(list, key)), loaded, key) == list
  {
    forall x | x in list
      ensures Find(loaded, key, key(x)) == Some(x)
    {
      assert x in multiset(loaded);
      var y := Find(loaded, key, key(x)).value;
      assert y in multiset(list);
      var i :| 0 <= i < |list| && list[i] == x;
      var j :| 0 <= j < |list| && list[j] == y;
      SameKeySameIndex(list, key, i, j);
    }
    RoundTrip(list, loaded, key);
  }
}
