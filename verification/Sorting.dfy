/**
  A stable descending sort by a real-valued key: what Python's
  `list.sort(key=..., reverse=True)` and `sorted(..., reverse=True)` promise.
  The promise pins the result down: `SortDescIsUnique` shows that no other list
  is a stable descending arrangement, so nothing depends on the algorithm used here.
 */
module Sorting {

  ghost predicate Descending<T>(xs: seq<T>, key: T -> real) {
    forall i, j :: 0 <= i < j < |xs| ==> key(xs[i]) >= key(xs[j])
  }

  /** The elements whose key is `k`, in the order in which they stand. */
  ghost function WithKey<T>(xs: seq<T>, key: T -> real, k: real): seq<T> {
    if xs == [] then []
    else (if key(xs[0]) == k then [xs[0]] else []) + WithKey(xs[1..], key, k)
  }

  /** `ys` holds the elements of `xs`, those with equal keys in the order they have in `xs`. */
  ghost predicate StableArrangement<T>(xs: seq<T>, ys: seq<T>, key: T -> real) {
    forall k :: WithKey(ys, key, k) == WithKey(xs, key, k)
  }

  /** Put `x` in front of the first element that is not larger. */
  function Insert<T>(x: T, xs: seq<T>, key: T -> real): seq<T> {
    if xs == [] || key(x) >= key(xs[0]) then [x] + xs
    else [xs[0]] + Insert(x, xs[1..], key)
  }

  function SortDesc<T>(xs: seq<T>, key: T -> real): seq<T> {
    if xs == [] then [] else Insert(xs[0], SortDesc(xs[1..], key), key)
  }

  lemma WithKeyCons<T>(x: T, xs: seq<T>, key: T -> real, k: real)
    ensures WithKey([x] + xs, key, k) == (if key(x) == k then [x] else []) + WithKey(xs, key, k)
  {
    assert ([x] + xs)[1..] == xs;
  }

  lemma {:induction false} WithKeyIn<T>(xs: seq<T>, key: T -> real, x: T)
    ensures multiset(xs)[x] == multiset(WithKey(xs, key, key(x)))[x]
  {
    if xs != [] {
      WithKeyIn(xs[1..], key, x);
      assert xs == [xs[0]] + xs[1..];
    }
  }

  /** A stable arrangement is a permutation. */
  lemma ArrangementIsPermutation<T>(xs: seq<T>, ys: seq<T>, key: T -> real)
    requires StableArrangement(xs, ys, key)
    ensures multiset(xs) == multiset(ys)
  {
    forall x ensures multiset(xs)[x] == multiset(ys)[x] {
      WithKeyIn(xs, key, x);
      WithKeyIn(ys, key, x);
    }
  }

  lemma {:induction false} InsertWithKey<T>(x: T, xs: seq<T>, key: T -> real, k: real)
    requires Descending(xs, key)
    ensures WithKey(Insert(x, xs, key), key, k) == WithKey([x] + xs, key, k)
  {
    if xs != [] && key(x) < key(xs[0]) {
      InsertWithKey(x, xs[1..], key, k);
      WithKeyCons(xs[0], Insert(x, xs[1..], key), key, k);
      WithKeyCons(x, xs, key, k);
      WithKeyCons(x, xs[1..], key, k);
    }
  }

  lemma {:induction false} InsertDescends<T>(x: T, xs: seq<T>, key: T -> real)
    requires Descending(xs, key)
    ensures Descending(Insert(x, xs, key), key)
    ensures Insert(x, xs, key)[0] == x || (xs != [] && Insert(x, xs, key)[0] == xs[0])
    ensures |Insert(x, xs, key)| == |xs| + 1
  {
    if xs != [] && key(x) < key(xs[0]) {
      InsertDescends(x, xs[1..], key);
      var rest := Insert(x, xs[1..], key);
      assert forall j :: 0 <= j < |rest| ==> key(rest[0]) >= key(rest[j]);
    }
  }

  lemma {:induction false} SortDescArranges<T>(xs: seq<T>, key: T -> real)
    ensures Descending(SortDesc(xs, key), key)
    ensures StableArrangement(xs, SortDesc(xs, key), key)
    ensures |SortDesc(xs, key)| == |xs|
  {
    if xs != [] {
      var rest := SortDesc(xs[1..], key);
      SortDescArranges(xs[1..], key);
      InsertDescends(xs[0], rest, key);
      forall k ensures WithKey(SortDesc(xs, key), key, k) == WithKey(xs, key, k) {
        InsertWithKey(xs[0], rest, key, k);
        WithKeyCons(xs[0], rest, key, k);
      }
    }
  }

  lemma SameHead<T>(xs: seq<T>, ys: seq<T>, key: T -> real)
    requires Descending(xs, key) && Descending(ys, key)
    requires StableArrangement(xs, ys, key) && xs != []
    ensures ys != [] && xs[0] == ys[0]
  {
    ArrangementIsPermutation(xs, ys, key);
    assert |multiset(xs)| == |multiset(ys)|;
    assert xs[0] in multiset(ys) && ys[0] in multiset(xs);
    assert key(xs[0]) == key(ys[0]);
    assert WithKey(xs, key, key(xs[0]))[0] == WithKey(ys, key, key(xs[0]))[0];
  }

  /** Two descending lists with the same elements in the same order within each key are equal. */
  lemma {:induction false} SortDescIsUnique<T>(xs: seq<T>, ys: seq<T>, key: T -> real)
    requires Descending(xs, key) && Descending(ys, key)
    requires StableArrangement(xs, ys, key)
    ensures xs == ys
  {
    if xs == [] {
      ArrangementIsPermutation(xs, ys, key);
      assert |multiset(ys)| == 0;
    } else {
      SameHead(xs, ys, key);
      forall k ensures WithKey(xs[1..], key, k) == WithKey(ys[1..], key, k) {
        var a, b := WithKey(xs, key, k), WithKey(ys, key, k);
        if key(xs[0]) == k {
          assert a[1..] == WithKey(xs[1..], key, k) && b[1..] == WithKey(ys[1..], key, k);
        } else {
          assert a == WithKey(xs[1..], key, k) && b == WithKey(ys[1..], key, k);
        }
      }
      SortDescIsUnique(xs[1..], ys[1..], key);
    }
  }

  /** Sorting a list that is already in descending order changes nothing. */
  lemma SortDescOfDescending<T>(xs: seq<T>, key: T -> real)
    requires Descending(xs, key)
    ensures SortDesc(xs, key) == xs
  {
    SortDescArranges(xs, key);
    SortDescIsUnique(xs, SortDesc(xs, key), key);
  }
}
