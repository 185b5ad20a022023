/**
 * Sorting by a key as Array.prototype.sort does: ascending, and entries with equal keys keep their order.
 */
module StableSorts {
  function Insert<T>(sorted: seq<T>, x: T, key: T -> real): seq<T> {
    if sorted == [] || key(sorted[|sorted| - 1]) <= key(x) then sorted + [x]
    else Insert(sorted[..|sorted| - 1], x, key) + [sorted[|sorted| - 1]]
  }

  function StableSort<T>(items: seq<T>, key: T -> real): seq<T> {
    if items == [] then []
    else Insert(StableSort(items[..|items| - 1], key), items[|items| - 1], key)
  }

  predicate Ascending<T>(items: seq<T>, key: T -> real) {
    forall i, j | 0 <= i < j < |items| :: key(items[i]) <= key(items[j])
  }

  lemma {:induction false} InsertAdds<T>(sorted: seq<T>, x: T, key: T -> real)
    ensures multiset(Insert(sorted, x, key)) == multiset(sorted) + multiset{x}
    decreases |sorted|
  {
    if sorted != [] && key(sorted[|sorted| - 1]) > key(x) {
      InsertAdds(sorted[..|sorted| - 1], x, key);
      assert sorted == sorted[..|sorted| - 1] + [sorted[|sorted| - 1]];
    }
  }

  lemma {:induction false} InsertSorts<T>(sorted: seq<T>, x: T, key: T -> real, bound: real)
    requires Ascending(sorted, key) && key(x) <= bound
    requires forall i | 0 <= i < |sorted| :: key(sorted[i]) <= bound
    ensures Ascending(Insert(sorted, x, key), key)
    ensures forall i | 0 <= i < |Insert(sorted, x, key)| :: key(Insert(sorted, x, key)[i]) <= bound
    decreases |sorted|
  {
    if sorted != [] && key(sorted[|sorted| - 1]) > key(x) {
      var n := |sorted| - 1;
      InsertSorts(sorted[..n], x, key, key(sorted[n]));
    }
  }

  lemma {:induction false} SortSorts<T>(items: seq<T>, key: T -> real)
    ensures Ascending(StableSort(items, key), key)
    decreases |items|
  {
    if items != [] {
      var n := |items| - 1;
      SortSorts(items[..n], key);
      var sorted := StableSort(items[..n], key);
      var last := if sorted != [] then key(sorted[|sorted| - 1]) else key(items[n]);
      var top := if last > key(items[n]) then last else key(items[n]);
      InsertSorts(sorted, items[n], key, top);
    }
  }

  lemma {:induction false} SortPermutes<T>(items: seq<T>, key: T -> real)
    ensures multiset(StableSort(items, key)) == multiset(items)
    decreases |items|
  {
    if items != [] {
      var n := |items| - 1;
      SortPermutes(items[..n], key);
      InsertAdds(StableSort(items[..n], key), items[n], key);
      assert items == items[..n] + [items[n]];
    }
  }

  /** The items with one key, in order. */
  function WithKey<T>(items: seq<T>, key: T -> real, at: real): seq<T> {
    if items == [] then []
    else WithKey(items[..|items| - 1], key, at) + if key(items[|items| - 1]) == at then [items[|items| - 1]] else []
  }

  lemma {:induction false} WithKeySnoc<T>(items: seq<T>, x: T, key: T -> real, at: real)
    ensures WithKey(items + [x], key, at) == WithKey(items, key, at) + if key(x) == at then [x] else []
  {
    assert (items + [x])[..|items|] == items;
  }

  lemma {:induction false} InsertIsStable<T>(sorted: seq<T>, x: T, key: T -> real, at: real)
    ensures WithKey(Insert(sorted, x, key), key, at) == WithKey(sorted, key, at) + if key(x) == at then [x] else []
    decreases |sorted|
  {
    if sorted == [] || key(sorted[|sorted| - 1]) <= key(x) {
      WithKeySnoc(sorted, x, key, at);
    } else {
      var front, last := sorted[..|sorted| - 1], sorted[|sorted| - 1];
      InsertIsStable(front, x, key, at);
      WithKeySnoc(Insert(front, x, key), last, key, at);
      SwapApart(WithKey(front, key, at), if key(x) == at then [x] else [], if key(last) == at then [last] else []);
    }
  }

  /** Of two items with different keys at most one is kept. */
  lemma {:induction false} SwapApart<T>(front: seq<T>, a: seq<T>, b: seq<T>)
    requires a == [] || b == []
    ensures (front + a) + b == (front + b) + a
  {
  }

  /** Items with equal keys keep their order. */
  lemma {:induction false} SortIsStable<T>(items: seq<T>, key: T -> real, at: real)
    ensures WithKey(StableSort(items, key), key, at) == WithKey(items, key, at)
    decreases |items|
  {
    if items != [] {
      var n := |items| - 1;
      SortIsStable(items[..n], key, at);
      InsertIsStable(StableSort(items[..n], key), items[n], key, at);
    }
  }

  lemma {:induction false} SortedStays<T>(items: seq<T>, key: T -> real)
    requires Ascending(items, key)
    ensures StableSort(items, key) == items
    decreases |items|
  {
    if items != [] {
      var n := |items| - 1;
      assert Ascending(items[..n], key);
      SortedStays(items[..n], key);
      assert n > 0 ==> key(items[..n][n - 1]) <= key(items[n]);
      assert Insert(items[..n], items[n], key) == items[..n] + [items[n]] == items;
    }
  }
}
