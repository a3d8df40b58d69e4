/** `ORDER BY key DESC` and `LIMIT n` over the rows a query selects. SQLite leaves the order
    of rows with equal keys unspecified; the model keeps them in table order. */
module Ordering {

  predicate SortedDesc<T>(xs: seq<T>, key: T -> int) {
    forall i, j :: 0 <= i < j < |xs| ==> key(xs[i]) >= key(xs[j])
  }

  /** Places `x` before the first element whose key is smaller than its own. */
  function InsertDesc<T>(x: T, xs: seq<T>, key: T -> int): (r: seq<T>)
    requires SortedDesc(xs, key)
    ensures SortedDesc(r, key)
    ensures multiset(r) == multiset(xs) + multiset{x}
    ensures |r| == |xs| + 1
    decreases |xs|
  {
    if xs == [] then [x]
    else if key(x) >= key(xs[0]) then [x] + xs
    else
      var tail := InsertDesc(x, xs[1..], key);
      assert xs == [xs[0]] + xs[1..];
      BelowHead(x, xs, tail, key);
      [xs[0]] + tail
  }

  /** What is inserted behind the head of a descending sequence stays at or below it. */
  lemma BelowHead<T>(x: T, xs: seq<T>, tail: seq<T>, key: T -> int)
    requires SortedDesc(xs, key) && xs != [] && key(x) < key(xs[0])
    requires multiset(tail) == multiset(xs[1..]) + multiset{x}
    ensures forall k :: 0 <= k < |tail| ==> key(tail[k]) <= key(xs[0])
  {
    forall k | 0 <= k < |tail| ensures key(tail[k]) <= key(xs[0]) {
      var y := tail[k];
      assert y in multiset(tail);
      if y != x {
        assert y in multiset(xs[1..]);
        var j :| 0 <= j < |xs[1..]| && xs[1..][j] == y;
        assert xs[j + 1] == y;
      }
    }
  }

  /** Insertion sort, descending by `key`. */
  function SortDesc<T>(xs: seq<T>, key: T -> int): (r: seq<T>)
    ensures SortedDesc(r, key)
    ensures multiset(r) == multiset(xs)
    ensures |r| == |xs|
    decreases |xs|
  {
    if xs == [] then []
    else
      assert xs == [xs[0]] + xs[1..];
      InsertDesc(xs[0], SortDesc(xs[1..], key), key)
  }

  /** `LIMIT n`. */
  function Take<T>(xs: seq<T>, n: nat): (r: seq<T>)
    ensures |r| <= n && |r| <= |xs|
    ensures r == xs[..|r|]
    ensures |xs| <= n ==> r == xs
  {
    if |xs| <= n then xs else xs[..n]
  }

  /** The rows kept by `ORDER BY key DESC LIMIT n` have keys at least as large as every
      row left out. */
  lemma TakeKeepsLargest<T>(xs: seq<T>, n: nat, key: T -> int)
    requires SortedDesc(xs, key)
    ensures forall i, j :: 0 <= i < |Take(xs, n)| <= j < |xs| ==> key(Take(xs, n)[i]) >= key(xs[j])
  {
  }
}
