/** How `scrape_category_products` (pricing_scrapper/knbk.py) merges the
    categories of successive pages: categories with the same name share one
    entry whose products are concatenated in page order, while every
    category with a placeholder name ("Category N", the name the page
    parser gives an untitled group) keeps an entry of its own.  Entries
    come out in the order their keys first appear.

    The fold is written once, generically in the key a category is filed
    under, and serves both the source's string keys (where a placeholder is
    filed under `"__placeholder_<n>"`) and the corrected keys of
    `CategoryKey`, under which no real name can collide with a
    placeholder. */
module KnbkMerge {
  import opened Text
  import opened Dedup
  import opened KnbkPage

  // ---------------------------------------------------------------------
  // Placeholder names

  predicate AllDigits(s: string) {
    forall i :: 0 <= i < |s| ==> IsDigit(s[i])
  }

  /** `_PLACEHOLDER_CATEGORY_RE.match(name)` for `^Category \d+$`: the
      digits may be followed by one final newline, which `$` admits. */
  predicate IsPlaceholderName(name: string) {
    StartsWith(name, "Category ") &&
    var rest := name[9..];
    var digits := if rest != [] && rest[|rest| - 1] == '\n' then rest[..|rest| - 1] else rest;
    digits != [] && AllDigits(digits)
  }

  /** The key a category is filed under, corrected: a placeholder is the
      `n`-th placeholder, a real name is itself. */
  datatype CategoryKey = Named(name: string) | Placeholder(index: nat)

  function CorrectKey(name: string, counter: nat): CategoryKey {
    if IsPlaceholderName(name) then Placeholder(counter) else Named(name)
  }

  /** The key as the source computes it. */
  function SourceKey(name: string, counter: nat): string {
    if IsPlaceholderName(name) then "__placeholder_" + NatToString(counter) else name
  }

  // ---------------------------------------------------------------------
  // The fold

  /** The loop's variables: `aggregated`, `ordered_keys` and
      `placeholder_counter`. */
  datatype MergeState<K(==)> = MergeState(agg: map<K, Category>, order: seq<K>, counter: nat)

  /** One category of a page. */
  function MergeStep<K(==)>(st: MergeState<K>, c: Category, keyOf: (string, nat) -> K): MergeState<K> {
    var key := keyOf(c.name, st.counter);
    var counter := if IsPlaceholderName(c.name) then st.counter + 1 else st.counter;
    if key in st.agg then
      MergeState(st.agg[key := Category(st.agg[key].name, st.agg[key].products + c.products)], st.order, counter)
    else
      MergeState(st.agg[key := Category(c.name, c.products)], st.order + [key], counter)
  }

  function MergeFold<K(==)>(cats: seq<Category>, keyOf: (string, nat) -> K): MergeState<K>
    decreases |cats|
  {
    if cats == [] then MergeState(map[], [], 0)
    else MergeStep(MergeFold(cats[..|cats| - 1], keyOf), cats[|cats| - 1], keyOf)
  }

  /** The fold continued from `st` over `cats`. */
  function MergeAll<K(==)>(st: MergeState<K>, cats: seq<Category>, keyOf: (string, nat) -> K): MergeState<K>
    decreases |cats|
  {
    if cats == [] then st
    else MergeStep(MergeAll(st, cats[..|cats| - 1], keyOf), cats[|cats| - 1], keyOf)
  }

  /** Folding page after page is folding them all at once. */
  lemma {:induction false} MergeAllAppend<K>(xs: seq<Category>, ys: seq<Category>, keyOf: (string, nat) -> K)
    ensures MergeFold(xs + ys, keyOf) == MergeAll(MergeFold(xs, keyOf), ys, keyOf)
    decreases |ys|
  {
    if ys == [] {
      assert xs + ys == xs;
    } else {
      MergeAllAppend(xs, ys[..|ys| - 1], keyOf);
      assert (xs + ys)[..|xs + ys| - 1] == xs + ys[..|ys| - 1];
    }
  }

  /** The loop over the categories of one page. */
  method MergeCategories(agg: map<CategoryKey, Category>, order: seq<CategoryKey>, counter: nat, cats: seq<Category>)
    returns (aggregated: map<CategoryKey, Category>, orderedKeys: seq<CategoryKey>, placeholderCounter: nat)
    ensures MergeState(aggregated, orderedKeys, placeholderCounter) == MergeAll(MergeState(agg, order, counter), cats, CorrectKey)
  {
    aggregated, orderedKeys, placeholderCounter := agg, order, counter;
    for i := 0 to |cats|
      invariant MergeState(aggregated, orderedKeys, placeholderCounter) == MergeAll(MergeState(agg, order, counter), cats[..i], CorrectKey)
    {
      assert cats[..i + 1][..i] == cats[..i];
      var category := cats[i];
      var key: CategoryKey;
      if IsPlaceholderName(category.name) {
        key := Placeholder(placeholderCounter);
        placeholderCounter := placeholderCounter + 1;
      } else {
        key := Named(category.name);
      }
      if key !in aggregated {
        aggregated := aggregated[key := Category(category.name, category.products)];
        orderedKeys := orderedKeys + [key];
      } else {
        aggregated := aggregated[key := aggregated[key].(products := aggregated[key].products + category.products)];
      }
    }
    assert cats[..|cats|] == cats;
  }

  /** `[aggregated[key] for key in ordered_keys]`. */
  function Lookup<K(==)>(agg: map<K, Category>, order: seq<K>): (r: seq<Category>)
    requires forall k :: k in order ==> k in agg
    ensures |r| == |order| && forall i :: 0 <= i < |order| ==> r[i] == agg[order[i]]
    decreases |order|
  {
    if order == [] then [] else Lookup(agg, order[..|order| - 1]) + [agg[order[|order| - 1]]]
  }

  // ---------------------------------------------------------------------
  // A reference description of the fold, by key

  /** How many of `cats` have a placeholder name. */
  function PlaceholderCount(cats: seq<Category>): nat
    decreases |cats|
  {
    if cats == [] then 0
    else if IsPlaceholderName(cats[|cats| - 1].name) then PlaceholderCount(cats[..|cats| - 1]) + 1
    else PlaceholderCount(cats[..|cats| - 1])
  }

  /** The key each category is filed under, in order. */
  function Keys<K(==)>(cats: seq<Category>, keyOf: (string, nat) -> K): (r: seq<K>)
    ensures |r| == |cats|
    decreases |cats|
  {
    if cats == [] then []
    else
      var init := cats[..|cats| - 1];
      Keys(init, keyOf) + [keyOf(cats[|cats| - 1].name, PlaceholderCount(init))]
  }

  /** The products of every category filed under `k`, in order. */
  function Gather<K(==)>(cats: seq<Category>, keyOf: (string, nat) -> K, k: K): seq<Product>
    decreases |cats|
  {
    if cats == [] then []
    else
      var init := cats[..|cats| - 1];
      if keyOf(cats[|cats| - 1].name, PlaceholderCount(init)) == k then Gather(init, keyOf, k) + cats[|cats| - 1].products
      else Gather(init, keyOf, k)
  }

  /** The name of the first category filed under `k`. */
  function FirstName<K(==)>(cats: seq<Category>, keyOf: (string, nat) -> K, k: K): Option<string>
    decreases |cats|
  {
    if cats == [] then None
    else
      var init := cats[..|cats| - 1];
      match FirstName(init, keyOf, k)
      case Some(n) => Some(n)
      case None => if keyOf(cats[|cats| - 1].name, PlaceholderCount(init)) == k then Some(cats[|cats| - 1].name) else None
  }

  function Ident<K(==)>(k: K): K {
    k
  }

  lemma {:induction false} FirstNameIff<K>(cats: seq<Category>, keyOf: (string, nat) -> K, k: K)
    ensures FirstName(cats, keyOf, k).Some? <==> k in Keys(cats, keyOf)
    decreases |cats|
  {
    if cats != [] {
      var init := cats[..|cats| - 1];
      FirstNameIff(init, keyOf, k);
      assert Keys(cats, keyOf) == Keys(init, keyOf) + [keyOf(cats[|cats| - 1].name, PlaceholderCount(init))];
    }
  }

  /** What the fold files under each key: an entry exactly for the keys
      that occur, named after the first category filed there and holding
      the products of all of them. */
  lemma {:induction false} MergeFoldAt<K>(cats: seq<Category>, keyOf: (string, nat) -> K, k: K)
    ensures var st := MergeFold(cats, keyOf);
      (k in st.agg <==> FirstName(cats, keyOf, k).Some?) &&
      (k in st.agg ==> st.agg[k] == Category(FirstName(cats, keyOf, k).value, Gather(cats, keyOf, k))) &&
      (k !in st.agg ==> Gather(cats, keyOf, k) == [])
    ensures MergeFold(cats, keyOf).counter == PlaceholderCount(cats)
    decreases |cats|
  {
    if cats != [] {
      var init := cats[..|cats| - 1];
      MergeFoldAt(init, keyOf, k);
      var key := keyOf(cats[|cats| - 1].name, PlaceholderCount(init));
      if key != k {
        MergeFoldAt(init, keyOf, key);
      }
    }
  }

  /** The fold's key order: every key once, in the order of first
      appearance. */
  lemma {:induction false} MergeFoldOrder<K>(cats: seq<Category>, keyOf: (string, nat) -> K)
    ensures MergeFold(cats, keyOf).order == DedupBy(Keys(cats, keyOf), Ident)
    ensures forall k :: k in MergeFold(cats, keyOf).order ==> k in MergeFold(cats, keyOf).agg
    decreases |cats|
  {
    if cats != [] {
      var init := cats[..|cats| - 1];
      var keys := Keys(cats, keyOf);
      var key := keyOf(cats[|cats| - 1].name, PlaceholderCount(init));
      MergeFoldOrder(init, keyOf);
      MergeFoldAt(init, keyOf, key);
      FirstNameIff(init, keyOf, key);
      DedupBySameKeys(Keys(init, keyOf), Ident);
      KeySetIdent(Keys(init, keyOf), key);
      assert keys[..|keys| - 1] == Keys(init, keyOf);
    }
  }

  lemma KeySetIdent<K>(xs: seq<K>, k: K)
    ensures k in KeySet(xs, Ident) <==> k in xs
  {
    if k in KeySet(xs, Ident) {
      var i :| 0 <= i < |xs| && Ident(xs[i]) == k;
    }
  }

  /** The merged categories. */
  function Merged<K(==)>(cats: seq<Category>, keyOf: (string, nat) -> K): seq<Category> {
    var st := MergeFold(cats, keyOf);
    MergeFoldOrder(cats, keyOf);
    Lookup(st.agg, st.order)
  }

  /** The loop's final lookup yields the merged list. */
  lemma MergedFromState<K>(cats: seq<Category>, keyOf: (string, nat) -> K, st: MergeState<K>)
    requires st == MergeFold(cats, keyOf)
    ensures forall k :: k in st.order ==> k in st.agg
    ensures Lookup(st.agg, st.order) == Merged(cats, keyOf)
  {
    MergeFoldOrder(cats, keyOf);
  }

  /** The merged list, by key: one entry per key in order of first
      appearance, named after the first category filed there and holding
      the products of all of them in order. */
  lemma MergedSpec<K>(cats: seq<Category>, keyOf: (string, nat) -> K)
    ensures var order := DedupBy(Keys(cats, keyOf), Ident);
      |Merged(cats, keyOf)| == |order| &&
      DistinctKeys(order, Ident) &&
      forall i :: 0 <= i < |order| ==>
        FirstName(cats, keyOf, order[i]).Some? &&
        Merged(cats, keyOf)[i] == Category(FirstName(cats, keyOf, order[i]).value, Gather(cats, keyOf, order[i]))
  {
    var order := DedupBy(Keys(cats, keyOf), Ident);
    MergeFoldOrder(cats, keyOf);
    DedupByDistinct(Keys(cats, keyOf), Ident);
    forall i | 0 <= i < |order|
      ensures FirstName(cats, keyOf, order[i]).Some? &&
        Merged(cats, keyOf)[i] == Category(FirstName(cats, keyOf, order[i]).value, Gather(cats, keyOf, order[i]))
    {
      MergeFoldAt(cats, keyOf, order[i]);
    }
  }

  // ---------------------------------------------------------------------
  // The corrected keys

  /** Corrected keys: a category is filed under its own name unless that
      name is a placeholder, and the placeholders are numbered in order. */
  lemma {:induction false} CorrectKeyAt(cats: seq<Category>, i: nat)
    requires i < |cats|
    ensures Keys(cats, CorrectKey)[i] ==
      if IsPlaceholderName(cats[i].name) then Placeholder(PlaceholderCount(cats[..i])) else Named(cats[i].name)
    decreases |cats|
  {
    var init := cats[..|cats| - 1];
    if i < |cats| - 1 {
      CorrectKeyAt(init, i);
      assert init[..i] == cats[..i];
    } else {
      assert init == cats[..i];
    }
  }

  /** Nothing before the `n`-th placeholder is filed under `Placeholder(m)`
      for `m >= n`. */
  lemma {:induction false} NoLaterPlaceholder(cats: seq<Category>, m: nat)
    requires m >= PlaceholderCount(cats)
    ensures Gather(cats, CorrectKey, Placeholder(m)) == []
    ensures FirstName(cats, CorrectKey, Placeholder(m)).None?
    decreases |cats|
  {
    if cats != [] {
      NoLaterPlaceholder(cats[..|cats| - 1], m);
    }
  }

  lemma {:induction false} PlaceholderCountGrows(cats: seq<Category>, i: nat)
    requires i < |cats| && IsPlaceholderName(cats[i].name)
    ensures PlaceholderCount(cats[..i]) < PlaceholderCount(cats)
    decreases |cats|
  {
    var init := cats[..|cats| - 1];
    if i < |cats| - 1 {
      PlaceholderCountGrows(init, i);
      assert init[..i] == cats[..i];
    } else {
      assert init == cats[..i];
    }
  }

  /** Placeholder categories never merge: the entry of a placeholder
      holds exactly its own name and products. */
  lemma {:induction false} PlaceholdersNeverMerge(cats: seq<Category>, i: nat)
    requires i < |cats| && IsPlaceholderName(cats[i].name)
    ensures var k := Placeholder(PlaceholderCount(cats[..i]));
      Gather(cats, CorrectKey, k) == cats[i].products && FirstName(cats, CorrectKey, k) == Some(cats[i].name)
    decreases |cats|
  {
    var init := cats[..|cats| - 1];
    var k := Placeholder(PlaceholderCount(cats[..i]));
    if i < |cats| - 1 {
      PlaceholdersNeverMerge(init, i);
      assert init[..i] == cats[..i];
      PlaceholderCountGrows(init, i);
    } else {
      assert init == cats[..i];
      NoLaterPlaceholder(init, PlaceholderCount(init));
    }
  }

  /** The products of the categories named `n`, in order. */
  function ProductsNamed(cats: seq<Category>, n: string): seq<Product>
    decreases |cats|
  {
    if cats == [] then []
    else if cats[|cats| - 1].name == n then ProductsNamed(cats[..|cats| - 1], n) + cats[|cats| - 1].products
    else ProductsNamed(cats[..|cats| - 1], n)
  }

  predicate HasName(cats: seq<Category>, n: string) {
    exists i :: 0 <= i < |cats| && cats[i].name == n
  }

  /** Categories with the same real name merge: their entry is named `n`
      and holds the products of all of them, in order; there is one
      exactly when some category is named `n`. */
  lemma {:induction false} NamedCategoriesMerge(cats: seq<Category>, n: string)
    requires !IsPlaceholderName(n)
    ensures Gather(cats, CorrectKey, Named(n)) == ProductsNamed(cats, n)
    ensures FirstName(cats, CorrectKey, Named(n)) == if HasName(cats, n) then Some(n) else None
    decreases |cats|
  {
    if cats != [] {
      var init := cats[..|cats| - 1];
      NamedCategoriesMerge(init, n);
      if HasName(init, n) {
        var i :| 0 <= i < |init| && init[i].name == n;
        assert cats[i].name == n;
      }
      if !HasName(init, n) && cats[|cats| - 1].name != n {
        forall i | 0 <= i < |cats| ensures cats[i].name != n {
          if i < |init| {
            assert cats[i] == init[i];
          }
        }
      }
    }
  }

  // ---------------------------------------------------------------------
  // The source's string keys

  /** With the source's string keys a category really named
      `__placeholder_0` lands in the entry of the first placeholder. */
  lemma SourceKeysMergePlaceholder(p: Product, q: Product)
    ensures var cats := [Category("Category 1", [p]), Category("__placeholder_0", [q])];
      Merged(cats, SourceKey) == [Category("Category 1", [p, q])]
  {
    var c0 := Category("Category 1", [p]);
    var c1 := Category("__placeholder_0", [q]);
    var cats := [c0, c1];
    assert IsPlaceholderName("Category 1") by {
      assert "Category 1"[..9] == "Category ";
      assert "Category 1"[9..] == "1";
    }
    assert !IsPlaceholderName("__placeholder_0") by {
      assert "__placeholder_0"[..9][0] != "Category "[0];
    }
    assert SourceKey("Category 1", 0) == "__placeholder_0" by {
      assert NatToString(0) == ['0'];
    }
    assert [c0][..0] == [];
    var st0: MergeState<string> := MergeState(map[], [], 0);
    assert MergeFold([c0][..0], SourceKey) == st0;
    var st1 := MergeFold([c0], SourceKey);
    assert st1 == MergeStep(st0, c0, SourceKey);
    assert st1 == MergeState(map["__placeholder_0" := c0], ["__placeholder_0"], 1);
    assert cats[..1] == [c0];
    var st2 := MergeFold(cats, SourceKey);
    assert st2 == MergeStep(st1, c1, SourceKey);
    assert st2.order == ["__placeholder_0"];
    assert st2.agg["__placeholder_0"] == Category("Category 1", [p, q]);
    assert Lookup(st2.agg, st2.order) == [st2.agg["__placeholder_0"]];
  }
}
