/** `Array.prototype.sort((a, b) => a - b)` on offsets: the library sort is specified by
    its result, an ascending permutation of its input. */
module Sorting {

  predicate Sorted(xs: seq<nat>)
  {
    forall i, j :: 0 <= i < j < |xs| ==> xs[i] <= xs[j]
  }

  /** Puts `x` before the first element not below it. */
  function Insert(x: nat, xs: seq<nat>): (r: seq<nat>)
    ensures multiset(r) == multiset(xs) + multiset{x}
    ensures |r| == |xs| + 1
  {
    if xs == [] || x <= xs[0] then [x] + xs
    else
      assert xs == [xs[0]] + xs[1..];
      [xs[0]] + Insert(x, xs[1..])
  }

  /** A lower bound of `x` and of every element of `xs` bounds the result. */
  lemma {:induction false} InsertLowerBound(x: nat, xs: seq<nat>, lo: nat)
    requires lo <= x && forall k :: 0 <= k < |xs| ==> lo <= xs[k]
    ensures forall k :: 0 <= k < |Insert(x, xs)| ==> lo <= Insert(x, xs)[k]
  {
    if xs != [] && x > xs[0] {
      InsertLowerBound(x, xs[1..], lo);
      var rest := Insert(x, xs[1..]);
      assert Insert(x, xs) == [xs[0]] + rest;
      assert forall k :: 0 < k <= |rest| ==> ([xs[0]] + rest)[k] == rest[k - 1];
    }
  }

  /** Inserting into a sorted sequence keeps it sorted. */
  lemma {:induction false} InsertSorted(x: nat, xs: seq<nat>)
    requires Sorted(xs)
    ensures Sorted(Insert(x, xs))
  {
    if xs != [] && x > xs[0] {
      var rest := Insert(x, xs[1..]);
      InsertSorted(x, xs[1..]);
      InsertLowerBound(x, xs[1..], xs[0]);
      var r := Insert(x, xs);
      assert r == [xs[0]] + rest;
      forall i, j | 0 <= i < j < |r|
        ensures r[i] <= r[j]
      {
        assert r[j] == rest[j - 1];
        if i > 0 {
          assert r[i] == rest[i - 1];
        }
      }
    }
  }

  /** Insertion sort: an ascending permutation of `xs`. */
  function SortAscending(xs: seq<nat>): (r: seq<nat>)
    ensures multiset(r) == multiset(xs)
    ensures |r| == |xs|
  {
    if xs == [] then []
    else
      assert xs == [xs[0]] + xs[1..];
      Insert(xs[0], SortAscending(xs[1..]))
  }

  /** The result of the sort is ascending. */
  lemma {:induction false} SortAscendingSorted(xs: seq<nat>)
    ensures Sorted(SortAscending(xs))
  {
    if xs != [] {
      SortAscendingSorted(xs[1..]);
      InsertSorted(xs[0], SortAscending(xs[1..]));
    }
  }
}
