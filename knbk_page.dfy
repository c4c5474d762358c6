/** The catalog-page parser of knbk.py: a stack machine over the tokenizer's
    events that groups products under the category containers enclosing
    them.

    Every open element is kept on a stack.  A category or product context
    is pushed by the element that starts it and is identified here by that
    element's depth (its position on the element stack), which is what the
    source's identity test `current.element is element` amounts to, since a
    context never outlives its element.  A text capture refers to the
    context it fills by that context's index on its stack.

    The step functions (`OnStartTag`, `OnData`, `OnEndTag`) describe one event on
    a `ParserState` value; the class `PageParser` performs the same steps
    on its fields and is proved to agree with them. */
module KnbkPage {
  import opened Text
  import opened Html
  import opened KnbkClassify

  datatype Product = Product(name: string, price: Option<string>, url: Option<string>)

  datatype Category = Category(name: string, products: seq<Product>)

  datatype CategoryCtx = CategoryCtx(depth: nat, name: Option<string>, products: seq<Product>)

  datatype ProductCtx = ProductCtx(depth: nat, name: Option<string>, price: Option<string>, url: Option<string>)

  datatype Role = CategoryName | ProductName | ProductPrice

  /** A pending text capture: the field it fills, the depth of the element
      whose text it collects, the text so far, and the index of its context
      on the category stack (`CategoryName`) or the product stack. */
  datatype Capture = Capture(role: Role, depth: nat, buffer: string, ctx: nat)

  /** Both context stacks, as the capture writes see them. */
  datatype Stacks = Stacks(categories: seq<CategoryCtx>, products: seq<ProductCtx>)

  // ---------------------------------------------------------------------
  // What the parser's output looks like

  /** Text as `_normalize_text` leaves it when non-empty. */
  predicate Clean(s: string) {
    s != [] && !IsSpace(s[0]) && !IsSpace(s[|s| - 1]) && SingleSpaced(s)
  }

  predicate GoodProduct(p: Product) {
    Clean(p.name) && (p.price.Some? ==> Clean(p.price.value))
  }

  predicate GoodProducts(ps: seq<Product>)
    decreases |ps|
  {
    ps == [] || (GoodProduct(ps[|ps| - 1]) && GoodProducts(ps[..|ps| - 1]))
  }

  /** An emitted category: a clean name and at least one well-formed product. */
  predicate GoodCategory(c: Category) {
    Clean(c.name) && c.products != [] && GoodProducts(c.products)
  }

  predicate GoodCategories(cats: seq<Category>)
    decreases |cats|
  {
    cats == [] || (GoodCategory(cats[|cats| - 1]) && GoodCategories(cats[..|cats| - 1]))
  }

  predicate GoodCategoryCtx(c: CategoryCtx) {
    (c.name.Some? ==> Clean(c.name.value)) && GoodProducts(c.products)
  }

  predicate GoodProductCtx(p: ProductCtx) {
    (p.name.Some? ==> Clean(p.name.value)) && (p.price.Some? ==> Clean(p.price.value))
  }

  lemma {:induction false} GoodProductsAll(ps: seq<Product>)
    ensures GoodProducts(ps) <==> forall i :: 0 <= i < |ps| ==> GoodProduct(ps[i])
    decreases |ps|
  {
    if ps != [] {
      GoodProductsAll(ps[..|ps| - 1]);
    }
  }

  lemma {:induction false} GoodCategoriesAll(cats: seq<Category>)
    ensures GoodCategories(cats) <==> forall i :: 0 <= i < |cats| ==> GoodCategory(cats[i])
    decreases |cats|
  {
    if cats != [] {
      GoodCategoriesAll(cats[..|cats| - 1]);
    }
  }

  /** The name given to the `n`-th category emitted without a title. */
  function Placeholder(n: nat): (r: string)
    ensures Clean(r)
  {
    var digits := NatToString(n);
    var r := "Category " + digits;
    assert forall i :: 9 <= i < |r| ==> r[i] == digits[i - 9];
    r
  }

  // ---------------------------------------------------------------------
  // Stack shapes

  /** Open category contexts, each well-formed, at depths strictly
      increasing towards the top and none deeper than `bound`. */
  predicate CategoryStackOk(cs: seq<CategoryCtx>, bound: nat)
    decreases |cs|
  {
    cs == [] ||
    (var top := cs[|cs| - 1];
     1 <= top.depth <= bound && GoodCategoryCtx(top) && CategoryStackOk(cs[..|cs| - 1], top.depth - 1))
  }

  predicate ProductStackOk(ps: seq<ProductCtx>, bound: nat)
    decreases |ps|
  {
    ps == [] ||
    (var top := ps[|ps| - 1];
     1 <= top.depth <= bound && GoodProductCtx(top) && ProductStackOk(ps[..|ps| - 1], top.depth - 1))
  }

  /** A capture's context is open and was pushed at or above its element. */
  predicate Bound(c: Capture, s: Stacks) {
    if c.role == CategoryName then c.ctx < |s.categories| && s.categories[c.ctx].depth <= c.depth
    else c.ctx < |s.products| && s.products[c.ctx].depth <= c.depth
  }

  /** Pending captures: depths non-decreasing towards the end, none deeper
      than `bound`, each bound to an open context. */
  predicate CapturesOk(caps: seq<Capture>, s: Stacks, bound: nat)
    decreases |caps|
  {
    caps == [] ||
    (var top := caps[|caps| - 1];
     top.depth <= bound && Bound(top, s) && CapturesOk(caps[..|caps| - 1], s, top.depth))
  }

  /** Existing contexts keep their depths while the stacks change. */
  predicate SameDepths(s: Stacks, t: Stacks) {
    |s.categories| <= |t.categories| && |s.products| <= |t.products| &&
    (forall i :: 0 <= i < |s.categories| ==> t.categories[i].depth == s.categories[i].depth) &&
    (forall i :: 0 <= i < |s.products| ==> t.products[i].depth == s.products[i].depth)
  }

  lemma CategoryStackAt(cs: seq<CategoryCtx>, b: nat, i: nat)
    requires CategoryStackOk(cs, b) && i < |cs|
    ensures 1 <= cs[i].depth <= b && GoodCategoryCtx(cs[i])
    decreases |cs|
  {
    if i < |cs| - 1 {
      CategoryStackAt(cs[..|cs| - 1], cs[|cs| - 1].depth - 1, i);
    }
  }

  lemma ProductStackAt(ps: seq<ProductCtx>, b: nat, i: nat)
    requires ProductStackOk(ps, b) && i < |ps|
    ensures 1 <= ps[i].depth <= b && GoodProductCtx(ps[i])
    decreases |ps|
  {
    if i < |ps| - 1 {
      ProductStackAt(ps[..|ps| - 1], ps[|ps| - 1].depth - 1, i);
    }
  }

  /** Replacing one context by a well-formed one at the same depth. */
  lemma {:induction false} CategoryStackUpdate(cs: seq<CategoryCtx>, b: nat, i: nat, c: CategoryCtx)
    requires CategoryStackOk(cs, b) && i < |cs| && c.depth == cs[i].depth && GoodCategoryCtx(c)
    ensures CategoryStackOk(cs[i := c], b)
    decreases |cs|
  {
    var n := |cs|;
    if i == n - 1 {
      assert cs[i := c][..n - 1] == cs[..n - 1];
    } else {
      CategoryStackUpdate(cs[..n - 1], cs[n - 1].depth - 1, i, c);
      assert cs[i := c][..n - 1] == cs[..n - 1][i := c];
    }
  }

  lemma {:induction false} ProductStackUpdate(ps: seq<ProductCtx>, b: nat, i: nat, p: ProductCtx)
    requires ProductStackOk(ps, b) && i < |ps| && p.depth == ps[i].depth && GoodProductCtx(p)
    ensures ProductStackOk(ps[i := p], b)
    decreases |ps|
  {
    var n := |ps|;
    if i == n - 1 {
      assert ps[i := p][..n - 1] == ps[..n - 1];
    } else {
      ProductStackUpdate(ps[..n - 1], ps[n - 1].depth - 1, i, p);
      assert ps[i := p][..n - 1] == ps[..n - 1][i := p];
    }
  }

  lemma CategoryStackPush(cs: seq<CategoryCtx>, b: nat, c: CategoryCtx)
    requires CategoryStackOk(cs, b) && c.depth == b + 1 && GoodCategoryCtx(c)
    ensures CategoryStackOk(cs + [c], b + 1)
  {
    assert (cs + [c])[..|cs|] == cs;
  }

  lemma ProductStackPush(ps: seq<ProductCtx>, b: nat, p: ProductCtx)
    requires ProductStackOk(ps, b) && p.depth == b + 1 && GoodProductCtx(p)
    ensures ProductStackOk(ps + [p], b + 1)
  {
    assert (ps + [p])[..|ps|] == ps;
  }

  lemma {:induction false} CapturesOkMono(caps: seq<Capture>, s: Stacks, t: Stacks, b: nat, b': nat)
    requires CapturesOk(caps, s, b) && SameDepths(s, t) && b <= b'
    ensures CapturesOk(caps, t, b')
    decreases |caps|
  {
    if caps != [] {
      var c := caps[|caps| - 1];
      CapturesOkMono(caps[..|caps| - 1], s, t, c.depth, c.depth);
    }
  }

  lemma CapturesOkAppendOne(caps: seq<Capture>, c: Capture, s: Stacks, b: nat)
    requires CapturesOk(caps, s, c.depth) && c.depth <= b && Bound(c, s)
    ensures CapturesOk(caps + [c], s, b)
  {
    assert (caps + [c])[..|caps|] == caps;
  }

  /** Once the element at depth `b + 1` is closed, no capture refers to the
      product it opened. */
  lemma {:induction false} CapturesOkPopProduct(caps: seq<Capture>, s: Stacks, b: nat)
    requires CapturesOk(caps, s, b) && s.products != [] && s.products[|s.products| - 1].depth > b
    ensures CapturesOk(caps, s.(products := s.products[..|s.products| - 1]), b)
    decreases |caps|
  {
    if caps != [] {
      CapturesOkPopProduct(caps[..|caps| - 1], s, caps[|caps| - 1].depth);
    }
  }

  lemma {:induction false} CapturesOkPopCategory(caps: seq<Capture>, s: Stacks, b: nat)
    requires CapturesOk(caps, s, b) && s.categories != [] && s.categories[|s.categories| - 1].depth > b
    ensures CapturesOk(caps, s.(categories := s.categories[..|s.categories| - 1]), b)
    decreases |caps|
  {
    if caps != [] {
      CapturesOkPopCategory(caps[..|caps| - 1], s, caps[|caps| - 1].depth);
    }
  }

  // ---------------------------------------------------------------------
  // Writing captured text into contexts

  /** `s2` is `s1` with possibly more name and price fields filled in:
      nothing already set changes. */
  predicate Extends(s1: Stacks, s2: Stacks) {
    |s2.categories| == |s1.categories| && |s2.products| == |s1.products| &&
    (forall i :: 0 <= i < |s1.categories| ==>
       s2.categories[i].depth == s1.categories[i].depth &&
       s2.categories[i].products == s1.categories[i].products &&
       (s1.categories[i].name.Some? ==> s2.categories[i].name == s1.categories[i].name)) &&
    (forall i :: 0 <= i < |s1.products| ==>
       s2.products[i].depth == s1.products[i].depth &&
       s2.products[i].url == s1.products[i].url &&
       (s1.products[i].name.Some? ==> s2.products[i].name == s1.products[i].name) &&
       (s1.products[i].price.Some? ==> s2.products[i].price == s1.products[i].price))
  }

  /** One finished capture with normalised text `text`: the text, when
      non-empty, fills the capture's field if that field is still unset. */
  function WriteCapture(s: Stacks, c: Capture, text: string): Stacks {
    if text == [] then s
    else
      match c.role
      case CategoryName =>
        if c.ctx < |s.categories| && s.categories[c.ctx].name.None? then
          s.(categories := s.categories[c.ctx := s.categories[c.ctx].(name := Some(text))])
        else s
      case ProductName =>
        if c.ctx < |s.products| && s.products[c.ctx].name.None? then
          s.(products := s.products[c.ctx := s.products[c.ctx].(name := Some(text))])
        else s
      case ProductPrice =>
        if c.ctx < |s.products| && s.products[c.ctx].price.None? then
          s.(products := s.products[c.ctx := s.products[c.ctx].(price := Some(text))])
        else s
  }

  /** A write never changes a field that is already set. */
  lemma WriteCaptureExtends(s: Stacks, c: Capture, text: string)
    ensures Extends(s, WriteCapture(s, c, text))
  {
  }

  /** An unset field is filled by a capture with non-empty text. */
  lemma WriteCaptureFills(s: Stacks, c: Capture, text: string)
    requires text != []
    ensures c.role == CategoryName && c.ctx < |s.categories| && s.categories[c.ctx].name.None? ==>
      WriteCapture(s, c, text).categories[c.ctx].name == Some(text)
    ensures c.role == ProductName && c.ctx < |s.products| && s.products[c.ctx].name.None? ==>
      WriteCapture(s, c, text).products[c.ctx].name == Some(text)
    ensures c.role == ProductPrice && c.ctx < |s.products| && s.products[c.ctx].price.None? ==>
      WriteCapture(s, c, text).products[c.ctx].price == Some(text)
  {
  }

  lemma ExtendsTrans(s1: Stacks, s2: Stacks, s3: Stacks)
    requires Extends(s1, s2) && Extends(s2, s3)
    ensures Extends(s1, s3)
  {
  }

  lemma WriteCaptureKeepsShape(s: Stacks, c: Capture, text: string, cb: nat, pb: nat, caps: seq<Capture>, kb: nat)
    requires text == [] || Clean(text)
    requires CategoryStackOk(s.categories, cb) && ProductStackOk(s.products, pb) && CapturesOk(caps, s, kb)
    ensures CategoryStackOk(WriteCapture(s, c, text).categories, cb)
    ensures ProductStackOk(WriteCapture(s, c, text).products, pb)
    ensures CapturesOk(caps, WriteCapture(s, c, text), kb)
  {
    var t := WriteCapture(s, c, text);
    if text != [] {
      match c.role {
        case CategoryName =>
          if c.ctx < |s.categories| && s.categories[c.ctx].name.None? {
            CategoryStackAt(s.categories, cb, c.ctx);
            CategoryStackUpdate(s.categories, cb, c.ctx, s.categories[c.ctx].(name := Some(text)));
          }
        case ProductName =>
          if c.ctx < |s.products| && s.products[c.ctx].name.None? {
            ProductStackAt(s.products, pb, c.ctx);
            ProductStackUpdate(s.products, pb, c.ctx, s.products[c.ctx].(name := Some(text)));
          }
        case ProductPrice =>
          if c.ctx < |s.products| && s.products[c.ctx].price.None? {
            ProductStackAt(s.products, pb, c.ctx);
            ProductStackUpdate(s.products, pb, c.ctx, s.products[c.ctx].(price := Some(text)));
          }
      }
    }
    WriteCaptureExtends(s, c, text);
    CapturesOkMono(caps, s, t, kb, kb);
  }

  // ---------------------------------------------------------------------
  // The parser state and its steps

  datatype ParserState = ParserState(
    elements: seq<Element>,
    captures: seq<Capture>,
    categoryStack: seq<CategoryCtx>,
    productStack: seq<ProductCtx>,
    categories: seq<Category>)

  const Initial: ParserState := ParserState([], [], [], [], [])

  function StacksOf(st: ParserState): Stacks {
    Stacks(st.categoryStack, st.productStack)
  }

  /** The state's shape, with separate bounds on the depths of the open
      categories, products and captures, so that each of the three steps of
      closing an element can be described. */
  predicate InvAt(st: ParserState, catBound: nat, prodBound: nat, capBound: nat) {
    CategoryStackOk(st.categoryStack, catBound) &&
    ProductStackOk(st.productStack, prodBound) &&
    CapturesOk(st.captures, StacksOf(st), capBound) &&
    GoodCategories(st.categories)
  }

  /** Nothing is open deeper than the element stack. */
  predicate Inv(st: ParserState) {
    InvAt(st, |st.elements|, |st.elements|, |st.elements|)
  }

  /** What the classifiers say about an element, and the stripped `href`
      it carries when that is non-empty. */
  datatype Kinds = Kinds(
    categoryContainer: bool,
    productContainer: bool,
    categoryTitle: bool,
    productTitle: bool,
    productPrice: bool,
    href: Option<string>)

  function Classify(e: Element): Kinds {
    Kinds(IsCategoryContainer(e), IsProductContainer(e), IsCategoryTitle(e), IsProductTitle(e), IsProductPrice(e),
          if HasValue(e.attrs, "href") then Some(Strip(e.attrs["href"])) else None)
  }

  /** The category stack after a start tag. */
  function OpenCategory(cs: seq<CategoryCtx>, k: Kinds, depth: nat): seq<CategoryCtx> {
    if k.categoryContainer then cs + [CategoryCtx(depth, None, [])] else cs
  }

  /** The product stack after a start tag: products open only inside a category. */
  function OpenProduct(cs: seq<CategoryCtx>, ps: seq<ProductCtx>, k: Kinds, depth: nat): seq<ProductCtx> {
    if cs != [] && k.productContainer then ps + [ProductCtx(depth, None, None, None)] else ps
  }

  /** Records the `href` of a product title on the innermost product while
      it has no name yet. */
  function WithTitleUrl(ps: seq<ProductCtx>, k: Kinds): (r: seq<ProductCtx>)
    ensures |r| == |ps|
    ensures forall i :: 0 <= i < |ps| ==>
      r[i].depth == ps[i].depth && r[i].name == ps[i].name && r[i].price == ps[i].price
    ensures forall i :: 0 <= i < |ps| - 1 ==> r[i] == ps[i]
  {
    if ps != [] && k.productTitle && ps[|ps| - 1].name.None? && k.href.Some? then
      ps[|ps| - 1 := ps[|ps| - 1].(url := k.href)]
    else ps
  }

  /** The captures a start tag registers, each only while its field is unset. */
  function NewCaptures(cs: seq<CategoryCtx>, ps: seq<ProductCtx>, k: Kinds, depth: nat): seq<Capture> {
    TitleCapture(cs, k, depth) + ProductTitleCapture(ps, k, depth) + PriceCapture(ps, k, depth)
  }

  function TitleCapture(cs: seq<CategoryCtx>, k: Kinds, depth: nat): seq<Capture> {
    if cs != [] && k.categoryTitle && cs[|cs| - 1].name.None? then [Capture(CategoryName, depth, [], |cs| - 1)] else []
  }

  function ProductTitleCapture(ps: seq<ProductCtx>, k: Kinds, depth: nat): seq<Capture> {
    if ps != [] && k.productTitle && ps[|ps| - 1].name.None? then [Capture(ProductName, depth, [], |ps| - 1)] else []
  }

  function PriceCapture(ps: seq<ProductCtx>, k: Kinds, depth: nat): seq<Capture> {
    if ps != [] && k.productPrice && ps[|ps| - 1].price.None? then [Capture(ProductPrice, depth, [], |ps| - 1)] else []
  }

  /** A start tag for element `e` classified as `k`. */
  function StartTagWith(st: ParserState, e: Element, k: Kinds): ParserState {
    var depth := |st.elements| + 1;
    var cs := OpenCategory(st.categoryStack, k, depth);
    var ps := OpenProduct(cs, st.productStack, k, depth);
    ParserState(st.elements + [e], st.captures + NewCaptures(cs, ps, k, depth), cs, WithTitleUrl(ps, k), st.categories)
  }

  /** `handle_starttag`. */
  function OnStartTag(st: ParserState, e: Element): ParserState {
    StartTagWith(st, e, Classify(e))
  }

  /** Every capture gets the data appended. */
  function AppendToAll(caps: seq<Capture>, data: string): (r: seq<Capture>)
    ensures |r| == |caps|
    decreases |caps|
  {
    if caps == [] then []
    else
      var c := caps[|caps| - 1];
      AppendToAll(caps[..|caps| - 1], data) + [c.(buffer := c.buffer + data)]
  }

  /** `handle_data`. */
  function OnData(st: ParserState, data: string): ParserState {
    if data == [] then st else st.(captures := AppendToAll(st.captures, data))
  }

  /** One iteration of `_finalize_captures`: the last capture is popped and written. */
  function PopCapture(st: ParserState): ParserState
    requires st.captures != []
  {
    var c := st.captures[|st.captures| - 1];
    var s := WriteCapture(StacksOf(st), c, NormalizeText(c.buffer));
    st.(captures := st.captures[..|st.captures| - 1], categoryStack := s.categories, productStack := s.products)
  }

  /** `_finalize_captures`: every capture of an element deeper than the
      element stack is finished, innermost first. */
  function FinishCaptures(st: ParserState): (r: ParserState)
    ensures r.elements == st.elements && r.categories == st.categories
    decreases |st.captures|
  {
    if st.captures == [] || st.captures[|st.captures| - 1].depth <= |st.elements| then st
    else FinishCaptures(PopCapture(st))
  }

  /** `_finalize_product`'s effect on the category stack: a product with a
      name is appended to the innermost open category. */
  function AddProduct(cs: seq<CategoryCtx>, p: ProductCtx): seq<CategoryCtx> {
    if p.name.None? || p.name.value == [] || cs == [] then cs
    else
      var top := cs[|cs| - 1];
      cs[|cs| - 1 := top.(products := top.products + [Product(p.name.value, p.price, p.url)])]
  }

  /** `_finalize_product`: the innermost product, when opened by the element
      at depth `closed`, is closed. */
  function FinishProduct(st: ParserState, closed: nat): ParserState {
    var ps := st.productStack;
    if ps == [] || ps[|ps| - 1].depth != closed then st
    else st.(productStack := ps[..|ps| - 1], categoryStack := AddProduct(st.categoryStack, ps[|ps| - 1]))
  }

  /** The name an emitted category gets. */
  function CategoryTitle(c: CategoryCtx, emitted: nat): string {
    if c.name.Some? && c.name.value != [] then c.name.value else Placeholder(emitted + 1)
  }

  /** `_finalize_category`: the innermost category, when opened by the
      element at depth `closed`, is closed and emitted if it holds products. */
  function FinishCategory(st: ParserState, closed: nat): ParserState {
    var cs := st.categoryStack;
    if cs == [] || cs[|cs| - 1].depth != closed then st
    else
      var top := cs[|cs| - 1];
      var popped := st.(categoryStack := cs[..|cs| - 1]);
      if top.products == [] then popped
      else popped.(categories := st.categories + [Category(CategoryTitle(top, |st.categories|), top.products)])
  }

  /** `handle_endtag`: the innermost element is popped whatever the tag's
      name, and what it opened is closed. */
  function OnEndTag(st: ParserState): ParserState {
    if st.elements == [] then st
    else
      var closed := |st.elements|;
      var popped := st.(elements := st.elements[..closed - 1]);
      FinishCategory(FinishProduct(FinishCaptures(popped), closed), closed)
  }

  function Step(st: ParserState, ev: Event): ParserState {
    match ev
    case StartTag(tag, attrs) => OnStartTag(st, Element(tag, attrs))
    case EndTag(_) => OnEndTag(st)
    case Data(text) => OnData(st, text)
  }

  /** The parser's state after feeding it `events`. */
  function Run(events: seq<Event>): ParserState
    decreases |events|
  {
    if events == [] then Initial else Step(Run(events[..|events| - 1]), events[|events| - 1])
  }

  // ---------------------------------------------------------------------
  // Each step keeps the invariant

  lemma OpenCategoryOk(cs: seq<CategoryCtx>, b: nat, k: Kinds)
    requires CategoryStackOk(cs, b)
    ensures CategoryStackOk(OpenCategory(cs, k, b + 1), b + 1)
  {
    if k.categoryContainer {
      CategoryStackPush(cs, b, CategoryCtx(b + 1, None, []));
    }
  }

  lemma OpenProductOk(cs: seq<CategoryCtx>, ps: seq<ProductCtx>, b: nat, k: Kinds)
    requires ProductStackOk(ps, b)
    ensures ProductStackOk(WithTitleUrl(OpenProduct(cs, ps, k, b + 1), k), b + 1)
  {
    var ps1 := OpenProduct(cs, ps, k, b + 1);
    if cs != [] && k.productContainer {
      ProductStackPush(ps, b, ProductCtx(b + 1, None, None, None));
    }
    var ps2 := WithTitleUrl(ps1, k);
    if ps2 != ps1 {
      var n := |ps1| - 1;
      ProductStackAt(ps1, b + 1, n);
      ProductStackUpdate(ps1, b + 1, n, ps2[n]);
      assert ps2 == ps1[n := ps2[n]];
    }
  }

  lemma CapturesOkAppendMaybe(caps: seq<Capture>, extra: seq<Capture>, s: Stacks, d: nat)
    requires CapturesOk(caps, s, d)
    requires extra == [] || (|extra| == 1 && extra[0].depth == d && Bound(extra[0], s))
    ensures CapturesOk(caps + extra, s, d)
  {
    if extra == [] {
      assert caps + extra == caps;
    } else {
      assert extra == [extra[0]];
      CapturesOkAppendOne(caps, extra[0], s, d);
    }
  }

  /** The captures a start tag registers are bound to open contexts. */
  lemma NewCapturesOk(caps: seq<Capture>, cs: seq<CategoryCtx>, ps: seq<ProductCtx>, k: Kinds, d: nat)
    requires CapturesOk(caps, Stacks(cs, WithTitleUrl(ps, k)), d)
    requires CategoryStackOk(cs, d) && ProductStackOk(ps, d)
    ensures CapturesOk(caps + NewCaptures(cs, ps, k, d), Stacks(cs, WithTitleUrl(ps, k)), d)
  {
    var s := Stacks(cs, WithTitleUrl(ps, k));
    var a := TitleCapture(cs, k, d);
    var p := ProductTitleCapture(ps, k, d);
    var q := PriceCapture(ps, k, d);
    CapturesOkAppendMaybe(caps, a, s, d);
    CapturesOkAppendMaybe(caps + a, p, s, d);
    CapturesOkAppendMaybe(caps + a + p, q, s, d);
    NewCapturesSplit(caps, cs, ps, k, d);
  }

  lemma NewCapturesSplit(caps: seq<Capture>, cs: seq<CategoryCtx>, ps: seq<ProductCtx>, k: Kinds, d: nat)
    ensures caps + NewCaptures(cs, ps, k, d) ==
      caps + TitleCapture(cs, k, d) + ProductTitleCapture(ps, k, d) + PriceCapture(ps, k, d)
  {
  }

  lemma StartTagSameDepths(cs: seq<CategoryCtx>, ps: seq<ProductCtx>, k: Kinds, d: nat)
    ensures SameDepths(Stacks(cs, ps), Stacks(OpenCategory(cs, k, d), WithTitleUrl(OpenProduct(OpenCategory(cs, k, d), ps, k, d), k)))
  {
  }

  lemma StartTagCapturesOk(caps: seq<Capture>, cs0: seq<CategoryCtx>, ps0: seq<ProductCtx>, b: nat, k: Kinds)
    requires CategoryStackOk(cs0, b) && ProductStackOk(ps0, b) && CapturesOk(caps, Stacks(cs0, ps0), b)
    ensures var cs := OpenCategory(cs0, k, b + 1); var ps := OpenProduct(cs, ps0, k, b + 1);
      CapturesOk(caps + NewCaptures(cs, ps, k, b + 1), Stacks(cs, WithTitleUrl(ps, k)), b + 1)
  {
    var cs := OpenCategory(cs0, k, b + 1);
    var ps := OpenProduct(cs, ps0, k, b + 1);
    OpenCategoryOk(cs0, b, k);
    OpenProductOk(cs, ps0, b, k);
    StartTagSameDepths(cs0, ps0, k, b + 1);
    CapturesOkMono(caps, Stacks(cs0, ps0), Stacks(cs, WithTitleUrl(ps, k)), b, b + 1);
    NewCapturesOk(caps, cs, ps, k, b + 1);
  }

  lemma StartTagOk(st: ParserState, e: Element, k: Kinds)
    requires Inv(st)
    ensures Inv(StartTagWith(st, e, k))
  {
    StartTagParts(st.elements, st.captures, st.categoryStack, st.productStack, st.categories, e, k);
  }

  lemma StartTagParts(els: seq<Element>, caps: seq<Capture>, cs0: seq<CategoryCtx>, ps0: seq<ProductCtx>,
                      cats: seq<Category>, e: Element, k: Kinds)
    requires CategoryStackOk(cs0, |els|) && ProductStackOk(ps0, |els|)
    requires CapturesOk(caps, Stacks(cs0, ps0), |els|) && GoodCategories(cats)
    ensures Inv(StartTagWith(ParserState(els, caps, cs0, ps0, cats), e, k))
  {
    var b := |els|;
    var cs := OpenCategory(cs0, k, b + 1);
    var ps := OpenProduct(cs, ps0, k, b + 1);
    OpenCategoryOk(cs0, b, k);
    OpenProductOk(cs, ps0, b, k);
    StartTagCapturesOk(caps, cs0, ps0, b, k);
    InvIntro(StartTagWith(ParserState(els, caps, cs0, ps0, cats), e, k), caps + NewCaptures(cs, ps, k, b + 1),
             cs, WithTitleUrl(ps, k), cats);
  }

  lemma InvIntro(st: ParserState, caps: seq<Capture>, cs: seq<CategoryCtx>, ps: seq<ProductCtx>, cats: seq<Category>)
    requires st.captures == caps && st.categoryStack == cs && st.productStack == ps && st.categories == cats
    requires CategoryStackOk(cs, |st.elements|) && ProductStackOk(ps, |st.elements|)
    requires CapturesOk(caps, Stacks(cs, ps), |st.elements|) && GoodCategories(cats)
    ensures Inv(st)
  {
  }

  lemma {:induction false} CapturesOkBuffers(caps: seq<Capture>, s: Stacks, b: nat, data: string)
    requires CapturesOk(caps, s, b)
    ensures CapturesOk(AppendToAll(caps, data), s, b)
    decreases |caps|
  {
    if caps != [] {
      var init := caps[..|caps| - 1];
      CapturesOkBuffers(init, s, caps[|caps| - 1].depth, data);
      var r := AppendToAll(caps, data);
      assert r[..|caps| - 1] == AppendToAll(init, data);
    }
  }

  lemma DataOk(st: ParserState, data: string)
    requires Inv(st)
    ensures Inv(OnData(st, data))
  {
    if data != [] {
      CapturesOkBuffers(st.captures, StacksOf(st), |st.elements|, data);
    }
  }

  lemma PopCaptureOk(st: ParserState, n: nat)
    requires st.captures != [] && InvAt(st, n, n, n)
    ensures InvAt(PopCapture(st), n, n, n)
  {
    var c := st.captures[|st.captures| - 1];
    var init := st.captures[..|st.captures| - 1];
    CapturesOkMono(init, StacksOf(st), StacksOf(st), c.depth, n);
    WriteCaptureKeepsShape(StacksOf(st), c, NormalizeText(c.buffer), n, n, init, n);
  }

  lemma {:induction false} FinalizeCapturesOk(st: ParserState)
    requires InvAt(st, |st.elements| + 1, |st.elements| + 1, |st.elements| + 1)
    ensures InvAt(FinishCaptures(st), |st.elements| + 1, |st.elements| + 1, |st.elements|)
    decreases |st.captures|
  {
    if st.captures != [] && st.captures[|st.captures| - 1].depth > |st.elements| {
      PopCaptureOk(st, |st.elements| + 1);
      FinalizeCapturesOk(PopCapture(st));
    }
  }

  lemma FinalizeProductOk(st: ParserState, n: nat)
    requires InvAt(st, n + 1, n + 1, n)
    ensures InvAt(FinishProduct(st, n + 1), n + 1, n, n)
  {
    var ps := st.productStack;
    if ps != [] && ps[|ps| - 1].depth == n + 1 {
      var p := ps[|ps| - 1];
      var s1 := Stacks(st.categoryStack, ps[..|ps| - 1]);
      CapturesOkPopProduct(st.captures, StacksOf(st), n);
      var cs' := AddProduct(st.categoryStack, p);
      AddProductOk(st.categoryStack, p, n + 1);
      CapturesOkMono(st.captures, s1, Stacks(cs', ps[..|ps| - 1]), n, n);
    }
  }

  /** Adding a closed product to the innermost category keeps the category
      stack well formed and its depths. */
  lemma AddProductOk(cs: seq<CategoryCtx>, p: ProductCtx, b: nat)
    requires CategoryStackOk(cs, b) && GoodProductCtx(p)
    ensures CategoryStackOk(AddProduct(cs, p), b)
    ensures |AddProduct(cs, p)| == |cs|
    ensures forall i :: 0 <= i < |cs| ==> AddProduct(cs, p)[i].depth == cs[i].depth
  {
    var cs' := AddProduct(cs, p);
    if cs' != cs {
      var top := cs[|cs| - 1];
      var item := Product(p.name.value, p.price, p.url);
      assert (top.products + [item])[..|top.products|] == top.products;
      assert cs'[..|cs| - 1] == cs[..|cs| - 1];
    }
  }

  lemma FinalizeCategoryOk(st: ParserState, n: nat)
    requires InvAt(st, n + 1, n, n)
    ensures InvAt(FinishCategory(st, n + 1), n, n, n)
  {
    var cs := st.categoryStack;
    if cs != [] && cs[|cs| - 1].depth == n + 1 {
      CapturesOkPopCategory(st.captures, StacksOf(st), n);
      var top := cs[|cs| - 1];
      if top.products != [] {
        var cats := st.categories + [Category(CategoryTitle(top, |st.categories|), top.products)];
        assert cats[..|st.categories|] == st.categories;
      }
    }
  }

  lemma EndTagOk(st: ParserState)
    requires Inv(st)
    ensures Inv(OnEndTag(st))
  {
    if st.elements != [] {
      var closed := |st.elements|;
      ClosingOk(st.(elements := st.elements[..closed - 1]), closed - 1);
    }
  }

  /** The three closing steps, in the order `handle_endtag` runs them,
      take the shape for depth `n + 1` to the shape for depth `n`. */
  lemma ClosingOk(popped: ParserState, n: nat)
    requires |popped.elements| == n && InvAt(popped, n + 1, n + 1, n + 1)
    ensures Inv(FinishCategory(FinishProduct(FinishCaptures(popped), n + 1), n + 1))
  {
    FinalizeCapturesOk(popped);
    ClosingContextsOk(FinishCaptures(popped), n);
  }

  /** The product and category steps of closing, after the captures. */
  lemma ClosingContextsOk(st1: ParserState, n: nat)
    requires InvAt(st1, n + 1, n + 1, n)
    ensures InvAt(FinishCategory(FinishProduct(st1, n + 1), n + 1), n, n, n)
  {
    FinalizeProductOk(st1, n);
    FinalizeCategoryOk(FinishProduct(st1, n + 1), n);
  }

  lemma StepOk(st: ParserState, ev: Event)
    requires Inv(st)
    ensures Inv(Step(st, ev))
  {
    match ev {
      case StartTag(tag, attrs) => StartTagOk(st, Element(tag, attrs), Classify(Element(tag, attrs)));
      case EndTag(_) => EndTagOk(st);
      case Data(text) => DataOk(st, text);
    }
  }

  /** `Run` keeps the invariant from the first event on. */
  lemma {:induction false} RunOk(events: seq<Event>)
    ensures Inv(Run(events))
    decreases |events|
  {
    if events != [] {
      RunOk(events[..|events| - 1]);
      StepOk(Run(events[..|events| - 1]), events[|events| - 1]);
    }
  }

  // ---------------------------------------------------------------------
  // What the steps promise

  /** Every category `parse_category_products` returns has a clean name and
      at least one product, and every product a clean name and, when
      present, a clean price. */
  lemma RunCategoriesGood(events: seq<Event>)
    ensures forall i :: 0 <= i < |Run(events).categories| ==>
      Clean(Run(events).categories[i].name) && Run(events).categories[i].products != []
    ensures forall i, j :: 0 <= i < |Run(events).categories| && 0 <= j < |Run(events).categories[i].products| ==>
      GoodProduct(Run(events).categories[i].products[j])
  {
    var cats := Run(events).categories;
    RunOk(events);
    GoodCategoriesAll(cats);
    forall i | 0 <= i < |cats|
      ensures forall j :: 0 <= j < |cats[i].products| ==> GoodProduct(cats[i].products[j])
    {
      GoodProductsAll(cats[i].products);
    }
  }

  /** A step either leaves the emitted categories alone or emits one more. */
  lemma StepEmitsAtMostOne(st: ParserState, ev: Event)
    ensures Step(st, ev).categories == st.categories ||
      (|Step(st, ev).categories| == |st.categories| + 1 &&
       Step(st, ev).categories[..|st.categories|] == st.categories)
  {
  }

  /** Categories, once emitted, stay emitted in their order: the result on a
      prefix of the events is a prefix of the result. */
  lemma {:induction false} RunCategoriesGrow(events: seq<Event>, k: nat)
    requires k <= |events|
    ensures |Run(events[..k]).categories| <= |Run(events).categories|
    ensures Run(events[..k]).categories == Run(events).categories[..|Run(events[..k]).categories|]
    decreases |events|
  {
    if k < |events| {
      var init := events[..|events| - 1];
      assert init[..k] == events[..k];
      RunCategoriesGrow(init, k);
      StepEmitsAtMostOne(Run(init), events[|events| - 1]);
    } else {
      assert events[..k] == events;
    }
  }

  lemma NewCapturesUnset(cs: seq<CategoryCtx>, ps: seq<ProductCtx>, k: Kinds, d: nat)
    ensures forall c :: c in NewCaptures(cs, ps, k, d) ==>
      c.depth == d && c.buffer == [] &&
      (c.role == CategoryName ==> c.ctx == |cs| - 1 && cs[c.ctx].name.None? && k.categoryTitle) &&
      (c.role == ProductName ==> c.ctx == |ps| - 1 && ps[c.ctx].name.None? && k.productTitle) &&
      (c.role == ProductPrice ==> c.ctx == |ps| - 1 && ps[c.ctx].price.None? && k.productPrice)
  {
    NewCapturesSplit([], cs, ps, k, d);
  }

  lemma StartTagAppends(st: ParserState, e: Element, k: Kinds)
    ensures var r := StartTagWith(st, e, k);
      |st.captures| <= |r.captures| && r.captures[..|st.captures|] == st.captures &&
      r.captures[|st.captures|..] == NewCaptures(r.categoryStack, OpenProduct(r.categoryStack, st.productStack, k, |r.elements|), k, |r.elements|)
  {
  }

  /** A start tag keeps the pending captures and registers new ones only for
      fields still unset, on the innermost open contexts, and only when the
      element is a title or price of the matching kind. */
  lemma StartTagCapturesUnset(st: ParserState, e: Element)
    ensures var r := OnStartTag(st, e);
      |st.captures| <= |r.captures| && r.captures[..|st.captures|] == st.captures &&
      forall c :: c in r.captures[|st.captures|..] ==>
        c.depth == |r.elements| && c.buffer == [] &&
        (c.role == CategoryName ==>
           c.ctx == |r.categoryStack| - 1 && r.categoryStack[c.ctx].name.None? && IsCategoryTitle(e)) &&
        (c.role == ProductName ==>
           c.ctx == |r.productStack| - 1 && r.productStack[c.ctx].name.None? && IsProductTitle(e)) &&
        (c.role == ProductPrice ==>
           c.ctx == |r.productStack| - 1 && r.productStack[c.ctx].price.None? && IsProductPrice(e))
  {
    var k := Classify(e);
    var r := StartTagWith(st, e, k);
    var ps := OpenProduct(r.categoryStack, st.productStack, k, |r.elements|);
    StartTagAppends(st, e, k);
    NewCapturesUnset(r.categoryStack, ps, k, |r.elements|);
  }

  /** Finishing captures only fills fields that were unset: a name or a
      price, once set, is never overwritten. */
  lemma {:induction false} FinalizeCapturesExtends(st: ParserState)
    ensures Extends(StacksOf(st), StacksOf(FinishCaptures(st)))
    decreases |st.captures|
  {
    if st.captures != [] && st.captures[|st.captures| - 1].depth > |st.elements| {
      var c := st.captures[|st.captures| - 1];
      WriteCaptureExtends(StacksOf(st), c, NormalizeText(c.buffer));
      FinalizeCapturesExtends(PopCapture(st));
      ExtendsTrans(StacksOf(st), StacksOf(PopCapture(st)), StacksOf(FinishCaptures(st)));
    }
  }

  /** `_finalize_captures` pops exactly the captures deeper than the element
      stack, leaving a prefix. */
  lemma {:induction false} FinalizeCapturesPops(st: ParserState)
    ensures var r := FinishCaptures(st);
      |r.captures| <= |st.captures| && r.captures == st.captures[..|r.captures|] &&
      (r.captures == [] || r.captures[|r.captures| - 1].depth <= |st.elements|)
    decreases |st.captures|
  {
    if st.captures != [] && st.captures[|st.captures| - 1].depth > |st.elements| {
      FinalizeCapturesPops(PopCapture(st));
    }
  }

  /** Closing a product: it is dropped unless it has a non-empty name, and
      a named product goes to the innermost open category and nowhere else. */
  lemma FinalizeProductEffect(st: ParserState, closed: nat)
    requires st.productStack != [] && st.productStack[|st.productStack| - 1].depth == closed
    ensures var p := st.productStack[|st.productStack| - 1]; var r := FinishProduct(st, closed);
      r.productStack == st.productStack[..|st.productStack| - 1] &&
      (p.name.None? || p.name.value == [] || st.categoryStack == [] ==> r.categoryStack == st.categoryStack) &&
      (p.name.Some? && p.name.value != [] && st.categoryStack != [] ==>
         |r.categoryStack| == |st.categoryStack| &&
         r.categoryStack[..|st.categoryStack| - 1] == st.categoryStack[..|st.categoryStack| - 1] &&
         r.categoryStack[|st.categoryStack| - 1].products ==
           st.categoryStack[|st.categoryStack| - 1].products + [Product(p.name.value, p.price, p.url)])
  {
  }

  /** Closing a category: it is emitted iff it holds products, under its
      title or else as "Category N", N one more than the categories emitted
      so far. */
  lemma FinalizeCategoryEffect(st: ParserState, closed: nat)
    requires st.categoryStack != [] && st.categoryStack[|st.categoryStack| - 1].depth == closed
    ensures var c := st.categoryStack[|st.categoryStack| - 1]; var r := FinishCategory(st, closed);
      r.categoryStack == st.categoryStack[..|st.categoryStack| - 1] &&
      (c.products == [] <==> r.categories == st.categories) &&
      (c.products != [] ==>
         r.categories == st.categories + [Category(if c.name.Some? && c.name.value != [] then c.name.value
                                                   else "Category " + NatToString(|st.categories| + 1),
                                                   c.products)])
  {
  }

  // ---------------------------------------------------------------------
  // The parser

  class PageParser {
    var elements: seq<Element>
    var captures: seq<Capture>
    var categoryStack: seq<CategoryCtx>
    var productStack: seq<ProductCtx>
    var categories: seq<Category>

    function Model(): ParserState
      reads this
    {
      ParserState(elements, captures, categoryStack, productStack, categories)
    }

    ghost predicate Valid()
      reads this
    {
      Inv(Model())
    }

    constructor ()
      ensures Model() == Initial && Valid()
    {
      elements := [];
      captures := [];
      categoryStack := [];
      productStack := [];
      categories := [];
    }

    /** `handle_starttag`. */
    method HandleStartTag(tag: string, attrs: Attrs)
      requires Valid()
      modifies this
      ensures Model() == OnStartTag(old(Model()), Element(tag, attrs)) && Valid()
    {
      var element := Element(tag, attrs);
      var kinds := Classify(element);
      OpenElement(element, kinds);
    }

    /** The body of `handle_starttag` once the element is classified. */
    method OpenElement(element: Element, kinds: Kinds)
      requires Valid()
      modifies this
      ensures Model() == StartTagWith(old(Model()), element, kinds) && Valid()
    {
      var depth := |elements| + 1;
      var cs := OpenCategory(categoryStack, kinds, depth);
      var ps := OpenProduct(cs, productStack, kinds, depth);
      var added := NewCaptures(cs, ps, kinds, depth);
      StartTagOk(Model(), element, kinds);
      elements, captures, categoryStack, productStack :=
        elements + [element], captures + added, cs, WithTitleUrl(ps, kinds);
    }

    /** `handle_data`: the text goes to every pending capture. */
    method HandleData(data: string)
      requires Valid()
      modifies this
      ensures Model() == OnData(old(Model()), data) && Valid()
    {
      DataOk(Model(), data);
      if data == [] {
        return;
      }
      AppendToCaptures(data);
    }

    /** Every pending capture's buffer gets `data` appended. */
    method AppendToCaptures(data: string)
      modifies this
      ensures Model() == old(Model()).(captures := AppendToAll(old(captures), data))
    {
      ghost var caps0 := captures;
      var i := 0;
      while i < |captures|
        invariant 0 <= i <= |captures| == |caps0|
        invariant captures[..i] == AppendToAll(caps0[..i], data)
        invariant captures[i..] == caps0[i..]
        invariant Model() == old(Model()).(captures := captures)
      {
        var c := captures[i];
        assert caps0[..i + 1][..i] == caps0[..i];
        assert c == caps0[i];
        captures := captures[i := c.(buffer := c.buffer + data)];
        assert captures[..i + 1] == captures[..i] + [captures[i]];
        i := i + 1;
      }
      assert captures == captures[..i] && caps0 == caps0[..i];
    }

    /** `handle_endtag`. */
    method HandleEndTag(tag: string)
      requires Valid()
      modifies this
      ensures Model() == OnEndTag(old(Model())) && Valid()
    {
      EndTagOk(Model());
      if elements == [] {
        return;
      }
      CloseInnermost();
    }

    /** The innermost element is popped and the three finalisers run. */
    method CloseInnermost()
      requires elements != [] && Inv(Model())
      modifies this
      ensures Model() == OnEndTag(old(Model()))
    {
      var closed := |elements|;
      elements := elements[..closed - 1];
      FinalizeCaptures();
      FinalizeProduct(closed);
      FinalizeCategory(closed);
    }

    /** `_finalize_captures`. */
    method FinalizeCaptures()
      requires InvAt(Model(), |elements| + 1, |elements| + 1, |elements| + 1)
      modifies this
      ensures Model() == FinishCaptures(old(Model()))
    {
      var current := |elements|;
      while captures != [] && captures[|captures| - 1].depth > current
        invariant InvAt(Model(), current + 1, current + 1, current + 1)
        invariant |elements| == current
        invariant FinishCaptures(Model()) == FinishCaptures(old(Model()))
        decreases |captures|
      {
        ghost var before := Model();
        PopCaptureOk(before, current + 1);
        FinishLastCapture();
      }
    }

    /** One round of `_finalize_captures`: the innermost capture is
        removed and its normalised text written to its target. */
    method FinishLastCapture()
      requires captures != [] && Bound(captures[|captures| - 1], StacksOf(Model()))
      modifies this
      ensures Model() == PopCapture(old(Model()))
    {
      ghost var before := Model();
      var capture := captures[|captures| - 1];
      captures := captures[..|captures| - 1];
      var text := NormalizeText(capture.buffer);
      if text != [] {
        match capture.role {
          case CategoryName =>
            if categoryStack[capture.ctx].name.None? {
              categoryStack := categoryStack[capture.ctx := categoryStack[capture.ctx].(name := Some(text))];
            }
          case ProductName =>
            if productStack[capture.ctx].name.None? {
              productStack := productStack[capture.ctx := productStack[capture.ctx].(name := Some(text))];
            }
          case ProductPrice =>
            if productStack[capture.ctx].price.None? {
              productStack := productStack[capture.ctx := productStack[capture.ctx].(price := Some(text))];
            }
        }
      }
      assert Model() == PopCapture(before);
    }

    /** `_finalize_product`. */
    method FinalizeProduct(closed: nat)
      modifies this
      ensures Model() == FinishProduct(old(Model()), closed)
    {
      if productStack == [] {
        return;
      }
      var current := productStack[|productStack| - 1];
      if current.depth != closed {
        return;
      }
      productStack := productStack[..|productStack| - 1];
      if current.name.None? || current.name.value == [] {
        return;
      }
      var product := Product(current.name.value, current.price, current.url);
      if categoryStack != [] {
        var top := categoryStack[|categoryStack| - 1];
        categoryStack := categoryStack[|categoryStack| - 1 := top.(products := top.products + [product])];
      }
    }

    /** `_finalize_category`. */
    method FinalizeCategory(closed: nat)
      modifies this
      ensures Model() == FinishCategory(old(Model()), closed)
    {
      if categoryStack == [] {
        return;
      }
      var current := categoryStack[|categoryStack| - 1];
      if current.depth != closed {
        return;
      }
      categoryStack := categoryStack[..|categoryStack| - 1];
      if current.products == [] {
        return;
      }
      var name := if current.name.Some? && current.name.value != [] then current.name.value
                  else "Category " + NatToString(|categories| + 1);
      categories := categories + [Category(name, current.products)];
    }
  }

  /** `parse_category_products`, over the events of the catalog page. */
  method ParseCategoryProducts(events: seq<Event>) returns (cats: seq<Category>)
    ensures cats == Run(events).categories
  {
    var parser := new PageParser();
    for n := 0 to |events|
      invariant parser.Valid() && parser.Model() == Run(events[..n])
    {
      assert events[..n + 1][..n] == events[..n];
      match events[n] {
        case StartTag(tag, attrs) => parser.HandleStartTag(tag, attrs);
        case EndTag(tag) => parser.HandleEndTag(tag);
        case Data(text) => parser.HandleData(text);
      }
    }
    assert events[..|events|] == events;
    cats := parser.categories;
  }
}
