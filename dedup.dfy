/** Removing duplicates by a key, keeping the first element of each key in its place:
    the `some(...)`-guarded `push` loops and `[...new Set(xs)]` of the core. */
module Dedup {

  predicate HasKey<T, K(==,!new)>(xs: seq<T>, key: T -> K, k: K)
  {
    exists i :: 0 <= i < |xs| && key(xs[i]) == k
  }

  predicate DistinctKeys<T, K(==,!new)>(xs: seq<T>, key: T -> K)
  {
    forall i, j :: 0 <= i < j < |xs| ==> key(xs[i]) != key(xs[j])
  }

  /** One step of the loop: push `x` unless an element with its key is already there. */
  function AddIfNew<T, K(==,!new)>(acc: seq<T>, x: T, key: T -> K): seq<T>
  {
    if HasKey(acc, key, key(x)) then acc else acc + [x]
  }

  lemma HasKeyOfExtension<T, K(!new)>(xs: seq<T>, x: T, key: T -> K)
    ensures forall k :: HasKey(xs + [x], key, k) <==> HasKey(xs, key, k) || key(x) == k
  {
    var ys := xs + [x];
    forall k | HasKey(ys, key, k)
      ensures HasKey(xs, key, k) || key(x) == k
    {
      var i :| 0 <= i < |ys| && key(ys[i]) == k;
      if i < |xs| {
        assert ys[i] == xs[i];
      }
    }
    forall k | HasKey(xs, key, k)
      ensures HasKey(ys, key, k)
    {
      var i :| 0 <= i < |xs| && key(xs[i]) == k;
      assert ys[i] == xs[i];
    }
    assert ys[|xs|] == x;
  }

  /** One step of the loop keeps the invariant of `KeepFirst`. */
  lemma AddIfNewStep<T, K(!new)>(init: seq<T>, acc: seq<T>, x: T, key: T -> K)
    requires |acc| <= |init|
    requires forall y :: y in acc ==> y in init
    requires forall k :: HasKey(acc, key, k) <==> HasKey(init, key, k)
    requires DistinctKeys(acc, key)
    ensures |AddIfNew(acc, x, key)| <= |init + [x]|
    ensures forall y :: y in AddIfNew(acc, x, key) ==> y in init + [x]
    ensures forall k :: HasKey(AddIfNew(acc, x, key), key, k) <==> HasKey(init + [x], key, k)
    ensures DistinctKeys(AddIfNew(acc, x, key), key)
  {
    HasKeyOfExtension(init, x, key);
    if !HasKey(acc, key, key(x)) {
      HasKeyOfExtension(acc, x, key);
      assert forall i :: 0 <= i < |acc| ==> key(acc[i]) != key(x);
    }
  }

  /** The loop run over all of `xs`. */
  function KeepFirst<T(==), K(==,!new)>(xs: seq<T>, key: T -> K): (r: seq<T>)
    ensures |r| <= |xs|
    decreases |xs|
  {
    if xs == [] then []
    else AddIfNew(KeepFirst(xs[..|xs| - 1], key), xs[|xs| - 1], key)
  }

  /** What is kept comes from `xs`, every key of `xs` is kept, and no key twice. */
  lemma {:induction false} KeepFirstSound<T, K(!new)>(xs: seq<T>, key: T -> K)
    ensures forall y :: y in KeepFirst(xs, key) ==> y in xs
    ensures forall k :: HasKey(KeepFirst(xs, key), key, k) <==> HasKey(xs, key, k)
    ensures DistinctKeys(KeepFirst(xs, key), key)
    decreases |xs|
  {
    if xs != [] {
      var init := xs[..|xs| - 1];
      var x := xs[|xs| - 1];
      assert xs == init + [x];
      KeepFirstSound(init, key);
      AddIfNewStep(init, KeepFirst(init, key), x, key);
    } else {
      assert KeepFirst(xs, key) == [];
    }
  }

  /** Where the first element with key `k` sits in `xs`. */
  function FirstIndex<T, K(==,!new)>(xs: seq<T>, key: T -> K, k: K): (i: nat)
    requires HasKey(xs, key, k)
    ensures i < |xs| && key(xs[i]) == k
    ensures forall j :: 0 <= j < i ==> key(xs[j]) != k
  {
    if key(xs[0]) == k then 0
    else
      assert HasKey(xs[1..], key, k) by {
        var i :| 0 <= i < |xs| && key(xs[i]) == k;
        assert xs[1..][i - 1] == xs[i];
      }
      1 + FirstIndex(xs[1..], key, k)
  }

  lemma FirstIndexOfExtension<T, K(!new)>(xs: seq<T>, x: T, key: T -> K, k: K)
    requires HasKey(xs, key, k)
    ensures HasKey(xs + [x], key, k) && FirstIndex(xs + [x], key, k) == FirstIndex(xs, key, k)
  {
    var ys := xs + [x];
    var i := FirstIndex(xs, key, k);
    assert ys[i] == xs[i];
    assert forall j :: 0 <= j < i ==> ys[j] == xs[j];
  }

  /** A key that first appears at the last element of `xs` is first found there. */
  lemma FirstIndexOfNewKey<T, K(!new)>(init: seq<T>, x: T, key: T -> K)
    requires !HasKey(init, key, key(x))
    ensures HasKey(init + [x], key, key(x)) && FirstIndex(init + [x], key, key(x)) == |init|
  {
    var xs := init + [x];
    assert key(xs[|init|]) == key(x);
    assert forall j :: 0 <= j < |init| ==> key(xs[j]) == key(init[j]) != key(x);
  }

  /** Each kept element is the first element of `xs` with its key. */
  lemma {:induction false} KeepFirstIsFirst<T, K(!new)>(xs: seq<T>, key: T -> K)
    ensures forall y :: y in KeepFirst(xs, key) ==>
      HasKey(xs, key, key(y)) && xs[FirstIndex(xs, key, key(y))] == y
    decreases |xs|
  {
    if xs != [] {
      var init := xs[..|xs| - 1];
      var x := xs[|xs| - 1];
      assert xs == init + [x];
      KeepFirstIsFirst(init, key);
      var acc := KeepFirst(init, key);
      KeepFirstSound(init, key);
      forall y | y in KeepFirst(xs, key)
        ensures HasKey(xs, key, key(y)) && xs[FirstIndex(xs, key, key(y))] == y
      {
        if y in acc {
          FirstIndexOfExtension(init, x, key, key(y));
          assert xs[FirstIndex(init, key, key(y))] == init[FirstIndex(init, key, key(y))];
        } else {
          assert y == x && !HasKey(acc, key, key(x));
          FirstIndexOfNewKey(init, x, key);
        }
      }
    } else {
      assert KeepFirst(xs, key) == [];
    }
  }

  /** Two kept elements are in the order of the first occurrences of their keys. */
  lemma {:induction false} KeepFirstPairInOrder<T, K(!new)>(xs: seq<T>, key: T -> K, a: nat, b: nat)
    requires a < b < |KeepFirst(xs, key)|
    ensures HasKey(xs, key, key(KeepFirst(xs, key)[a])) && HasKey(xs, key, key(KeepFirst(xs, key)[b]))
    ensures FirstIndex(xs, key, key(KeepFirst(xs, key)[a])) < FirstIndex(xs, key, key(KeepFirst(xs, key)[b]))
    decreases |xs|
  {
    var init := xs[..|xs| - 1];
    var x := xs[|xs| - 1];
    assert xs == init + [x];
    KeepFirstSound(init, key);
    var acc := KeepFirst(init, key);
    var r := KeepFirst(xs, key);
    assert r == AddIfNew(acc, x, key);
    assert r[a] == acc[a] && HasKey(acc, key, key(acc[a]));
    FirstIndexOfExtension(init, x, key, key(acc[a]));
    if b < |acc| {
      KeepFirstPairInOrder(init, key, a, b);
      assert r[b] == acc[b] && HasKey(acc, key, key(acc[b]));
      FirstIndexOfExtension(init, x, key, key(acc[b]));
    } else {
      assert r == acc + [x] && r[b] == x;
      FirstIndexOfNewKey(init, x, key);
    }
  }

  /** The kept elements appear in the order of the first occurrences of their keys. */
  lemma KeepFirstInOrder<T, K(!new)>(xs: seq<T>, key: T -> K)
    ensures forall a :: 0 <= a < |KeepFirst(xs, key)| ==> HasKey(xs, key, key(KeepFirst(xs, key)[a]))
    ensures forall a, b :: 0 <= a < b < |KeepFirst(xs, key)| ==>
      FirstIndex(xs, key, key(KeepFirst(xs, key)[a])) < FirstIndex(xs, key, key(KeepFirst(xs, key)[b]))
  {
    var r := KeepFirst(xs, key);
    KeepFirstSound(xs, key);
    forall a | 0 <= a < |r|
      ensures HasKey(xs, key, key(r[a]))
    {
      assert HasKey(r, key, key(r[a]));
    }
    forall a, b | 0 <= a < b < |r|
      ensures FirstIndex(xs, key, key(r[a])) < FirstIndex(xs, key, key(r[b]))
    {
      KeepFirstPairInOrder(xs, key, a, b);
    }
  }
}
