/** First-occurrence deduplication, the `seen`-set loop that several
    functions of the scraper run over their results. */
module Dedup {

  /** The keys of the elements of `xs`. */
  function KeySet<T, K(==)>(xs: seq<T>, key: T -> K): (r: set<K>)
    ensures forall i :: 0 <= i < |xs| ==> key(xs[i]) in r
    ensures forall k :: k in r ==> exists i :: 0 <= i < |xs| && key(xs[i]) == k
    decreases |xs|
  {
    if xs == [] then {} else KeySet(xs[..|xs| - 1], key) + {key(xs[|xs| - 1])}
  }

  /** The elements of `xs` whose key has not occurred earlier, in order. */
  function DedupBy<T, K(==)>(xs: seq<T>, key: T -> K): seq<T>
    decreases |xs|
  {
    if xs == [] then []
    else
      var init := DedupBy(xs[..|xs| - 1], key);
      if key(xs[|xs| - 1]) in KeySet(init, key) then init else init + [xs[|xs| - 1]]
  }

  /** No two kept elements share a key. */
  predicate DistinctKeys<T, K(==)>(xs: seq<T>, key: T -> K) {
    forall i, j :: 0 <= i < j < |xs| ==> key(xs[i]) != key(xs[j])
  }

  /** `xs[i]` is the first element of `xs` with its key. */
  predicate FirstOfKey<T, K(==)>(xs: seq<T>, key: T -> K, i: nat)
    requires i < |xs|
  {
    forall j :: 0 <= j < i ==> key(xs[j]) != key(xs[i])
  }

  /** No two kept elements share a key. */
  lemma {:induction false} DedupByDistinct<T, K>(xs: seq<T>, key: T -> K)
    ensures DistinctKeys(DedupBy(xs, key), key)
    decreases |xs|
  {
    if xs != [] {
      var init := DedupBy(xs[..|xs| - 1], key);
      DedupByDistinct(xs[..|xs| - 1], key);
      if key(xs[|xs| - 1]) !in KeySet(init, key) {
        var r := init + [xs[|xs| - 1]];
        forall i | 0 <= i < |init| ensures key(r[i]) != key(r[|init|]) {
          assert r[i] == init[i];
        }
      }
    }
  }

  /** Every kept element comes from the input. */
  lemma {:induction false} DedupBySubset<T, K>(xs: seq<T>, key: T -> K)
    ensures forall x :: x in DedupBy(xs, key) ==> x in xs
    decreases |xs|
  {
    if xs != [] {
      var n := |xs| - 1;
      DedupBySubset(xs[..n], key);
      forall x | x in DedupBy(xs, key) ensures x in xs {
        if x in DedupBy(xs[..n], key) {
          assert x in xs[..n];
        }
      }
    }
  }

  /** Every key of the input is kept. */
  lemma {:induction false} DedupBySameKeys<T, K>(xs: seq<T>, key: T -> K)
    ensures KeySet(DedupBy(xs, key), key) == KeySet(xs, key)
    decreases |xs|
  {
    if xs != [] {
      var n := |xs| - 1;
      DedupBySameKeys(xs[..n], key);
      var init := DedupBy(xs[..n], key);
      if key(xs[n]) !in KeySet(init, key) {
        KeySetSnoc(init, xs[n], key);
      }
      KeySetSnoc(xs[..n], xs[n], key);
      assert xs[..n] + [xs[n]] == xs;
    }
  }

  /** The first element of every key is the one kept. */
  lemma {:induction false} DedupByKeepsFirst<T, K>(xs: seq<T>, key: T -> K, i: nat)
    requires i < |xs| && FirstOfKey(xs, key, i)
    ensures xs[i] in DedupBy(xs, key)
    decreases |xs|
  {
    var n := |xs| - 1;
    var init := DedupBy(xs[..n], key);
    assert DedupBy(xs, key) == if key(xs[n]) in KeySet(init, key) then init else init + [xs[n]];
    if i < n {
      assert xs[..n][i] == xs[i];
      assert FirstOfKey(xs[..n], key, i);
      DedupByKeepsFirst(xs[..n], key, i);
      assert xs[i] in init;
    } else {
      DedupBySameKeys(xs[..n], key);
      FirstKeyIsNew(xs, key, n);
      assert key(xs[n]) !in KeySet(init, key);
    }
  }

  lemma FirstKeyIsNew<T, K>(xs: seq<T>, key: T -> K, n: nat)
    requires n < |xs| && FirstOfKey(xs, key, n)
    ensures key(xs[n]) !in KeySet(xs[..n], key)
  {
  }

  /** Several loops build the deduplicated list front to back. */
  lemma DedupBySnoc<T, K>(xs: seq<T>, x: T, key: T -> K)
    ensures DedupBy(xs + [x], key) ==
      if key(x) in KeySet(DedupBy(xs, key), key) then DedupBy(xs, key) else DedupBy(xs, key) + [x]
  {
    assert (xs + [x])[..|xs|] == xs;
  }

  /** The set a `seen` loop keeps next to its result. */
  lemma KeySetSnoc<T, K>(xs: seq<T>, x: T, key: T -> K)
    ensures KeySet(xs + [x], key) == KeySet(xs, key) + {key(x)}
  {
    assert (xs + [x])[..|xs|] == xs;
  }

  /** `DedupBySnoc` for the prefixes of `xs`. */
  lemma DedupByTake<T, K>(xs: seq<T>, i: nat, key: T -> K)
    requires i < |xs|
    ensures DedupBy(xs[..i + 1], key) ==
      if key(xs[i]) in KeySet(DedupBy(xs[..i], key), key) then DedupBy(xs[..i], key) else DedupBy(xs[..i], key) + [xs[i]]
  {
    assert xs[..i + 1] == xs[..i] + [xs[i]];
    DedupBySnoc(xs[..i], xs[i], key);
  }

  /** The `seen`-set loop itself: keeps each element whose key has not been
      seen, front to back. */
  method DedupFirst<T, K(==)>(xs: seq<T>, key: T -> K) returns (r: seq<T>)
    ensures r == DedupBy(xs, key)
  {
    var seen: set<K> := {};
    r := [];
    for i := 0 to |xs|
      invariant r == DedupBy(xs[..i], key)
      invariant seen == KeySet(r, key)
    {
      DedupByTake(xs, i, key);
      if key(xs[i]) !in seen {
        KeySetSnoc(r, xs[i], key);
        seen := seen + {key(xs[i])};
        r := r + [xs[i]];
      }
    }
    assert xs[..|xs|] == xs;
  }
}
