/** The element classifiers of the knbk.in.ua catalog extractor
    (pricing_scrapper/knbk.py): which open element starts a category, a
    product, a title or a price, and which elements mark the regions where
    subcategory links are looked for or ignored. */
module KnbkClassify {
  import opened Text
  import opened Html

  /** An open element: its tag name and attributes. */
  datatype Element = Element(tag: string, attrs: Attrs)

  // ---------------------------------------------------------------------
  // Keyword tables

  const CategoryContainerClassKeywords: seq<string> := [
    "products-group", "products_group", "subcategory", "catalog-section",
    "catalog_section", "category-section", "category_section"
  ]
  const CategoryContainerDataQaidKeywords: seq<string> := ["group", "subcategory"]

  const CategoryTitleClassKeywords: seq<string> := [
    "products-group__title", "group__title", "category__title", "subcategory__title",
    "section__title", "group-title", "category-title"
  ]
  const CategoryTitleDataQaidKeywords: seq<string> := ["group_title", "subcategory_title"]

  const ProductContainerClassKeywords: seq<string> := [
    "product-card", "product_card", "product-item", "product_tile", "product-tile",
    "product-list__item", "product-gallery__item", "b-product-gallery__item"
  ]
  const ProductContainerDataQaidKeywords: seq<string> := ["product"]

  const ProductTitleClassKeywords: seq<string> := [
    "product-card__title", "product__title", "product-title", "product__name",
    "product-name", "b-product-gallery__title", "b-product-gallery__name", "title", "name"
  ]

  const ProductPriceClassKeywords: seq<string> := [
    "price__value", "price-value", "price_current", "price__current",
    "product-price__value", "product-price", "b-goods-price__value",
    "goods-price__value", "price", "value"
  ]

  /** Classes of crossed-out or former prices. */
  const ExcludedPriceClassKeywords: seq<string> := ["old", "was", "strike", "compare", "cross"]

  const CategoryLinkClassKeywords: seq<string> := [
    "catalog", "categories", "category", "group", "section", "subcategory", "collection"
  ]
  const CategoryLinkDataQaidKeywords: seq<string> := [
    "catalog", "categories", "category", "group", "section", "subcategory"
  ]
  const CategoryLinkExcludedKeywords: seq<string> := [
    "breadcrumb", "breadcrumbs", "pagination", "pager", "footer", "header"
  ]

  // ---------------------------------------------------------------------
  // Matching helpers

  /** `_Element.classes`: the whitespace-separated words of `class`. */
  function Classes(e: Element): (r: seq<string>)
    ensures forall c :: c in r ==> IsWord(c)
    ensures !HasValue(e.attrs, "class") ==> r == []
  {
    if HasValue(e.attrs, "class") then Words(e.attrs["class"]) else []
  }

  /** Some keyword occurs in `s`: the inner loop of `_class_matches`. */
  predicate AnyKeywordIn(s: string, keywords: seq<string>)
    decreases |keywords|
  {
    keywords != [] && (Contains(s, keywords[0]) || AnyKeywordIn(s, keywords[1..]))
  }

  /** The outer loop of `_class_matches`: some class, case-folded, contains
      some keyword. */
  predicate AnyClassMatches(classes: seq<string>, keywords: seq<string>)
    decreases |classes|
  {
    classes != [] && (AnyKeywordIn(LowerStr(classes[0]), keywords) || AnyClassMatches(classes[1..], keywords))
  }

  /** The class loop of `_is_category_container`: classes containing `__`
      are skipped. */
  predicate AnyContainerClass(classes: seq<string>)
    decreases |classes|
  {
    classes != [] &&
    ((!Contains(LowerStr(classes[0]), "__") && AnyKeywordIn(LowerStr(classes[0]), CategoryContainerClassKeywords)) ||
     AnyContainerClass(classes[1..]))
  }

  /** `_class_matches`. */
  predicate ClassMatches(e: Element, keywords: seq<string>) {
    AnyClassMatches(Classes(e), keywords)
  }

  /** `_dataqaid_matches`: a non-empty `data-qaid`, case-folded, contains some keyword. */
  predicate DataQaidMatches(e: Element, keywords: seq<string>) {
    HasValue(e.attrs, "data-qaid") && AnyKeywordIn(LowerStr(e.attrs["data-qaid"]), keywords)
  }

  lemma {:induction false} AnyKeywordInIff(s: string, keywords: seq<string>)
    ensures AnyKeywordIn(s, keywords) <==> exists k :: k in keywords && Contains(s, k)
    decreases |keywords|
  {
    if keywords != [] {
      AnyKeywordInIff(s, keywords[1..]);
      if !AnyKeywordIn(s, keywords) {
        forall k | k in keywords ensures !Contains(s, k) {
          if k != keywords[0] {
            assert k in keywords[1..];
          }
        }
      }
    }
  }

  lemma {:induction false} AnyClassMatchesIff(classes: seq<string>, keywords: seq<string>)
    ensures AnyClassMatches(classes, keywords) <==>
      exists c :: c in classes && AnyKeywordIn(LowerStr(c), keywords)
    decreases |classes|
  {
    if classes != [] {
      AnyClassMatchesIff(classes[1..], keywords);
      if !AnyClassMatches(classes, keywords) {
        forall c | c in classes ensures !AnyKeywordIn(LowerStr(c), keywords) {
          if c != classes[0] {
            assert c in classes[1..];
          }
        }
      }
    }
  }

  lemma {:induction false} AnyContainerClassIff(classes: seq<string>)
    ensures AnyContainerClass(classes) <==>
      exists c :: c in classes && !Contains(LowerStr(c), "__") &&
                  AnyKeywordIn(LowerStr(c), CategoryContainerClassKeywords)
    decreases |classes|
  {
    if classes != [] {
      AnyContainerClassIff(classes[1..]);
      if !AnyContainerClass(classes) {
        forall c | c in classes
          ensures !(!Contains(LowerStr(c), "__") && AnyKeywordIn(LowerStr(c), CategoryContainerClassKeywords))
        {
          if c != classes[0] {
            assert c in classes[1..];
          }
        }
      }
    }
  }

  /** `_class_matches` holds iff some class, case-folded, contains some keyword. */
  lemma ClassMatchesIff(e: Element, keywords: seq<string>)
    ensures ClassMatches(e, keywords) <==>
      exists c, k :: c in Classes(e) && k in keywords && Contains(LowerStr(c), k)
  {
    AnyClassMatchesIff(Classes(e), keywords);
    if ClassMatches(e, keywords) {
      var c :| c in Classes(e) && AnyKeywordIn(LowerStr(c), keywords);
      AnyKeywordInIff(LowerStr(c), keywords);
    } else {
      forall c, k | c in Classes(e) && k in keywords ensures !Contains(LowerStr(c), k) {
        AnyKeywordInIff(LowerStr(c), keywords);
      }
    }
  }

  // ---------------------------------------------------------------------
  // The classifiers

  /** `_is_category_container`: a div/section/article whose `data-qaid`
      names a group, or with a class naming a group that is not a
      `block__element` class. */
  predicate IsCategoryContainer(e: Element) {
    e.tag in {"div", "section", "article"} &&
    (DataQaidMatches(e, CategoryContainerDataQaidKeywords) || AnyContainerClass(Classes(e)))
  }

  /** `_is_product_container`. */
  predicate IsProductContainer(e: Element) {
    e.tag in {"div", "li", "article", "section"} &&
    (ClassMatches(e, ProductContainerClassKeywords) ||
     DataQaidMatches(e, ProductContainerDataQaidKeywords))
  }

  /** `_is_category_title`. */
  predicate IsCategoryTitle(e: Element) {
    DataQaidMatches(e, CategoryTitleDataQaidKeywords) ||
    ((e.tag in {"h1", "h2", "h3", "h4"} || e.tag == "a") &&
     ClassMatches(e, CategoryTitleClassKeywords))
  }

  /** `_is_product_title`. */
  predicate IsProductTitle(e: Element) {
    e.tag in {"a", "div", "span"} &&
    (Get(e.attrs, "itemprop") == Some("name") || ClassMatches(e, ProductTitleClassKeywords))
  }

  /** `_is_product_price`: `itemprop="price"`; else a price class unless a
      crossed-out class is present too; else a `data-qaid` naming a price
      that is not an old one. */
  predicate IsProductPrice(e: Element) {
    if Get(e.attrs, "itemprop") == Some("price") then true
    else if ClassMatches(e, ProductPriceClassKeywords) then
      !ClassMatches(e, ExcludedPriceClassKeywords)
    else
      var dataRole := LowerStr(GetOrEmpty(e.attrs, "data-qaid"));
      Contains(dataRole, "price") && !Contains(dataRole, "old")
  }

  /** `_element_has_category_link_hint`. */
  predicate HasCategoryLinkHint(e: Element) {
    ClassMatches(e, CategoryLinkClassKeywords) ||
    DataQaidMatches(e, CategoryLinkDataQaidKeywords) ||
    (HasValue(e.attrs, "role") && LowerStr(e.attrs["role"]) in {"list", "group", "listbox", "menu"}) ||
    (HasValue(e.attrs, "data-role") && AnyKeywordIn(LowerStr(e.attrs["data-role"]), CategoryLinkDataQaidKeywords))
  }

  /** `_element_in_category_link_excluded_region`. */
  predicate InCategoryLinkExcludedRegion(e: Element) {
    ClassMatches(e, CategoryLinkExcludedKeywords) ||
    DataQaidMatches(e, CategoryLinkExcludedKeywords) ||
    (HasValue(e.attrs, "role") && LowerStr(e.attrs["role"]) in {"navigation", "contentinfo"})
  }

  // ---------------------------------------------------------------------
  // Properties

  /** A price class together with a crossed-out class never makes a price,
      whatever `data-qaid` says, unless `itemprop="price"` is set. */
  lemma CrossedOutPriceIsNotPrice(e: Element, c1: string, k1: string, c2: string, k2: string)
    requires Get(e.attrs, "itemprop") != Some("price")
    requires c1 in Classes(e) && k1 in ProductPriceClassKeywords && Contains(LowerStr(c1), k1)
    requires c2 in Classes(e) && k2 in ExcludedPriceClassKeywords && Contains(LowerStr(c2), k2)
    ensures !IsProductPrice(e)
  {
    ClassMatchesIff(e, ProductPriceClassKeywords);
    ClassMatchesIff(e, ExcludedPriceClassKeywords);
  }

  /** Without `itemprop="price"` and without a price class, an element is a
      price exactly when its `data-qaid` names a price and not an old one. */
  lemma PriceByDataQaid(e: Element)
    requires Get(e.attrs, "itemprop") != Some("price")
    requires forall c, k :: c in Classes(e) && k in ProductPriceClassKeywords ==> !Contains(LowerStr(c), k)
    ensures IsProductPrice(e) <==>
      ("data-qaid" in e.attrs && Contains(LowerStr(e.attrs["data-qaid"]), "price") &&
       !Contains(LowerStr(e.attrs["data-qaid"]), "old"))
  {
    ClassMatchesIff(e, ProductPriceClassKeywords);
  }

  /** Classes written `block__element` never make a category container;
      only `data-qaid` can. */
  lemma ElementClassesNeverMakeContainers(e: Element)
    requires forall c :: c in Classes(e) ==> Contains(LowerStr(c), "__")
    ensures IsCategoryContainer(e) <==>
      (e.tag in {"div", "section", "article"} && DataQaidMatches(e, CategoryContainerDataQaidKeywords))
  {
    AnyContainerClassIff(Classes(e));
  }
}
