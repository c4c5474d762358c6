/** The public entry points of the generic price extractor of
    pricing_scrapper/scraper.py: `iter_prices`, which lists the price
    strings of a page, and `extract_prices`, which pairs each price with a
    short description taken from the page's text nodes or from the visible
    text around the match. */
module Extract {
  import opened Text
  import opened Html
  import opened Markup
  import opened PricePattern
  import opened VisibleText
  import opened Window
  import opened Candidates
  import opened Selection

  /** `PriceResult`: a description and the price it belongs to. */
  datatype PriceResult = PriceResult(description: string, price: string)

  /** The `(description, price)` pair the extractor deduplicates on. */
  function Key(r: PriceResult): (string, string) {
    (r.description, r.price)
  }

  /** The longest description the extractor reports. */
  const MaxDescription: nat := 160

  /** The default `context` of `extract_prices`. */
  const DefaultContext: nat := 60

  /** The text the price pattern is run over: `<script>`/`<style>` elements
      replaced by a space, then entities decoded. */
  function SearchText(html: string): string {
    Unescape(RemoveScriptStyle(html))
  }

  /** Every span lies within `text` and is not reversed. */
  predicate Spans(text: string, ms: seq<(nat, nat)>) {
    forall k :: 0 <= k < |ms| ==> ms[k].0 <= ms[k].1 <= |text|
  }

  /** The stripped text of each span that does not start inside a tag, in
      order: what `iter_prices` yields for the matches `ms`. */
  function VisiblePrices(text: string, ms: seq<(nat, nat)>): (r: seq<string>)
    requires Spans(text, ms)
    ensures |r| <= |ms|
  {
    if ms == [] then []
    else
      var init := VisiblePrices(text, ms[..|ms| - 1]);
      var m := ms[|ms| - 1];
      if IsInsideHtmlTag(text, m.0) then init else init + [Strip(text[m.0..m.1])]
  }

  lemma VisiblePricesSnoc(text: string, ms: seq<(nat, nat)>, n: nat)
    requires Spans(text, ms) && n < |ms|
    ensures Spans(text, ms[..n]) && Spans(text, ms[..n + 1])
    ensures VisiblePrices(text, ms[..n + 1]) ==
      if IsInsideHtmlTag(text, ms[n].0) then VisiblePrices(text, ms[..n])
      else VisiblePrices(text, ms[..n]) + [Strip(text[ms[n].0..ms[n].1])]
  {
    assert ms[..n + 1][..n] == ms[..n];
  }

  /** Each listed price is the stripped text of a span starting outside a
      tag. */
  lemma {:induction false} VisiblePricesSound(text: string, ms: seq<(nat, nat)>)
    requires Spans(text, ms)
    ensures forall p :: p in VisiblePrices(text, ms) ==>
      exists k :: 0 <= k < |ms| && !IsInsideHtmlTag(text, ms[k].0) && p == Strip(text[ms[k].0..ms[k].1])
    decreases |ms|
  {
    if ms != [] {
      var n := |ms| - 1;
      VisiblePricesSnoc(text, ms, n);
      assert ms[..n + 1] == ms;
      VisiblePricesSound(text, ms[..n]);
      var init := VisiblePrices(text, ms[..n]);
      forall p | p in VisiblePrices(text, ms)
        ensures exists k :: 0 <= k < |ms| && !IsInsideHtmlTag(text, ms[k].0) && p == Strip(text[ms[k].0..ms[k].1])
      {
        if p in init {
          var k :| 0 <= k < n && !IsInsideHtmlTag(text, ms[..n][k].0) && p == Strip(text[ms[..n][k].0..ms[..n][k].1]);
          assert ms[..n][k] == ms[k];
        } else {
          assert p == Strip(text[ms[n].0..ms[n].1]) && !IsInsideHtmlTag(text, ms[n].0);
        }
      }
    }
  }

  /** The stripped text of every span starting outside a tag is listed. */
  lemma {:induction false} VisiblePricesComplete(text: string, ms: seq<(nat, nat)>, k: nat)
    requires Spans(text, ms) && k < |ms| && !IsInsideHtmlTag(text, ms[k].0)
    ensures Strip(text[ms[k].0..ms[k].1]) in VisiblePrices(text, ms)
    decreases |ms|
  {
    var n := |ms| - 1;
    SpansPrefix(text, ms, n);
    if k < n {
      assert ms[..n][k] == ms[k];
      VisiblePricesComplete(text, ms[..n], k);
    }
  }

  lemma SpansPrefix(text: string, ms: seq<(nat, nat)>, n: nat)
    requires Spans(text, ms) && n <= |ms|
    ensures Spans(text, ms[..n])
  {
  }

  /** A match of the price pattern is a valid span whose stripped text is
      not empty. */
  lemma MatchesAreSpans(text: string)
    ensures Spans(text, FindAll(text, 0))
    ensures forall k :: 0 <= k < |FindAll(text, 0)| ==>
      Strip(text[FindAll(text, 0)[k].0..FindAll(text, 0)[k].1]) != []
  {
    FindAllSpec(text);
    forall k | 0 <= k < |FindAll(text, 0)|
      ensures Strip(text[FindAll(text, 0)[k].0..FindAll(text, 0)[k].1]) != []
    {
      var m := FindAll(text, 0)[k];
      MatchStartsVisible(text, m.0);
      StripVisibleStart(text[m.0..m.1]);
    }
  }

  /** Stripping keeps a text whose first character is not whitespace. */
  lemma StripVisibleStart(s: string)
    requires s != [] && !IsSpace(s[0])
    ensures Strip(s) != [] && Strip(s)[0] == s[0]
  {
    TrailingSpacesRun(s);
  }

  /** `iter_prices`: the stripped text of every price match that does not
      start inside a tag. */
  method IterPrices(html: string) returns (prices: seq<string>)
    ensures Spans(SearchText(html), FindAll(SearchText(html), 0))
    ensures prices == VisiblePrices(SearchText(html), FindAll(SearchText(html), 0))
  {
    var searchText := RemoveScriptStyle(html);
    searchText := Unescape(searchText);
    var matches := FindAll(searchText, 0);
    MatchesAreSpans(searchText);
    prices := [];
    for k := 0 to |matches|
      invariant Spans(searchText, matches[..k])
      invariant prices == VisiblePrices(searchText, matches[..k])
    {
      VisiblePricesSnoc(searchText, matches, k);
      var m := matches[k];
      if IsInsideHtmlTag(searchText, m.0) {
        continue;
      }
      prices := prices + [Strip(searchText[m.0..m.1])];
    }
    assert matches[..|matches|] == matches;
  }

  /** Every price `iter_prices` yields is non-empty and has no whitespace
      at either end. */
  lemma IterPricesVisible(html: string)
    ensures Spans(SearchText(html), FindAll(SearchText(html), 0))
    ensures forall p :: p in VisiblePrices(SearchText(html), FindAll(SearchText(html), 0)) ==>
      p != [] && !IsSpace(p[0]) && !IsSpace(p[|p| - 1])
  {
    var text := SearchText(html);
    var ms := FindAll(text, 0);
    MatchesAreSpans(text);
    VisiblePricesSound(text, ms);
    forall p | p in VisiblePrices(text, ms)
      ensures p != [] && !IsSpace(p[0]) && !IsSpace(p[|p| - 1])
    {
      var k :| 0 <= k < |ms| && !IsInsideHtmlTag(text, ms[k].0) && p == Strip(text[ms[k].0..ms[k].1]);
      StripEdges(text[ms[k].0..ms[k].1]);
    }
  }

  // ---------------------------------------------------------------------
  // `_refine_snippet`

  /** What `_refine_snippet` picks before its fallback: the prepared text
      before the price if it is a usable description, else the prepared
      text after it, else the snippet itself; the prepared snippet when the
      price does not occur in it. */
  function RefineCandidate(snippet: string, price: string): string {
    if price != [] && FindFrom(snippet, price, 0) != -1 then
      if IsValidCandidate(Prepared(Before(snippet, price))) then Prepared(Before(snippet, price))
      else if IsValidCandidate(Prepared(After(snippet, price))) then Prepared(After(snippet, price))
      else snippet
    else Prepared(snippet)
  }

  /** `_refine_snippet`: the picked text, or the stripped snippet when the
      pick is empty. */
  function RefineSnippet(snippet: string, price: string): string {
    if snippet == [] then snippet
    else
      var candidate := RefineCandidate(snippet, price);
      if candidate == [] then Strip(snippet) else candidate
  }

  /** A snippet with visible text always yields a description. */
  lemma RefineSnippetNonEmpty(snippet: string, price: string)
    requires Strip(snippet) != []
    ensures RefineSnippet(snippet, price) != []
  {
  }

  /** The text before the price wins over the text after it, and either
      wins over the snippet as a whole. */
  lemma RefineSnippetPrefers(snippet: string, price: string)
    requires price != [] && FindFrom(snippet, price, 0) != -1
    ensures IsValidCandidate(Prepared(Before(snippet, price))) ==>
      RefineSnippet(snippet, price) == Prepared(Before(snippet, price))
    ensures (!IsValidCandidate(Prepared(Before(snippet, price))) &&
      IsValidCandidate(Prepared(After(snippet, price)))) ==>
      RefineSnippet(snippet, price) == Prepared(After(snippet, price))
    ensures (!IsValidCandidate(Prepared(Before(snippet, price))) &&
      !IsValidCandidate(Prepared(After(snippet, price)))) ==>
      RefineSnippet(snippet, price) == snippet
  {
    FindFromFindsContained(snippet, price);
  }

  /** `s` has no whitespace at either end. */
  predicate Bare(s: string) {
    s == [] || (!IsSpace(s[0]) && !IsSpace(s[|s| - 1]))
  }

  /** A prepared text has no whitespace at either end. */
  lemma PreparedEdges(t: string)
    ensures Bare(Prepared(t))
  {
    PreparedWithShape(t, NoiseWords);
    assert Prepared(t) == PreparedWith(t, NoiseWords);
  }

  /** Choosing among texts with no whitespace at their ends gives one. */
  lemma ChooseBare(before: string, after: string, whole: string, useBefore: bool, useAfter: bool)
    requires Bare(before) && Bare(after) && Bare(whole)
    ensures Bare(if useBefore then before else if useAfter then after else whole)
  {
  }

  /** The pick keeps the snippet's property of having no whitespace at
      either end. */
  lemma RefineCandidateEdges(snippet: string, price: string)
    requires Bare(snippet)
    ensures Bare(RefineCandidate(snippet, price))
  {
    if price != [] && FindFrom(snippet, price, 0) != -1 {
      var b, a := Before(snippet, price), After(snippet, price);
      PreparedEdges(b);
      PreparedEdges(a);
      ChooseBare(Prepared(b), Prepared(a), snippet, IsValidCandidate(Prepared(b)), IsValidCandidate(Prepared(a)));
    } else {
      PreparedEdges(snippet);
    }
  }

  /** Refining a snippet with no whitespace at its ends, as `_clean_snippet`
      produces, gives a description with none either. */
  lemma RefineSnippetEdges(snippet: string, price: string)
    requires Bare(snippet)
    ensures Bare(RefineSnippet(snippet, price))
  {
    RefineCandidateEdges(snippet, price);
    StripEdges(snippet);
  }

  // ---------------------------------------------------------------------
  // `extract_prices`

  /** The prices among `rs`. */
  function PricesOf(rs: seq<PriceResult>): set<string>
    decreases |rs|
  {
    if rs == [] then {} else PricesOf(rs[..|rs| - 1]) + {rs[|rs| - 1].price}
  }

  /** The elements of `ps`. */
  function Elements(ps: seq<string>): set<string>
    decreases |ps|
  {
    if ps == [] then {} else Elements(ps[..|ps| - 1]) + {ps[|ps| - 1]}
  }

  lemma {:induction false} PricesOfMeaning(rs: seq<PriceResult>)
    ensures forall p :: p in PricesOf(rs) <==> exists i :: 0 <= i < |rs| && rs[i].price == p
    decreases |rs|
  {
    if rs != [] {
      var n := |rs| - 1;
      PricesOfMeaning(rs[..n]);
      assert forall i :: 0 <= i < n ==> rs[..n][i] == rs[i];
    }
  }

  lemma {:induction false} ElementsMeaning(ps: seq<string>)
    ensures forall p :: p in Elements(ps) <==> p in ps
    decreases |ps|
  {
    if ps != [] {
      var n := |ps| - 1;
      ElementsMeaning(ps[..n]);
      assert ps == ps[..n] + [ps[n]];
    }
  }

  lemma ElementsSnoc(ps: seq<string>, p: string)
    ensures Elements(ps + [p]) == Elements(ps) + {p}
  {
    assert (ps + [p])[..|ps|] == ps;
  }

  /** The keys of `rs`. */
  function KeysOf(rs: seq<PriceResult>): set<(string, string)> {
    set i | 0 <= i < |rs| :: Key(rs[i])
  }

  /** No two results share a key. */
  predicate DistinctKeys(rs: seq<PriceResult>) {
    forall i, j :: 0 <= i < j < |rs| ==> Key(rs[i]) != Key(rs[j])
  }

  /** A reported description is non-empty and at most 160 characters long. */
  predicate Reported(r: PriceResult) {
    r.price != [] && 0 < |r.description| <= MaxDescription
  }

  predicate AllReported(rs: seq<PriceResult>) {
    forall i :: 0 <= i < |rs| ==> Reported(rs[i])
  }

  /** The state of the `extract_prices` loop after the first `k` matches:
      `seen` holds the keys of the results, no key repeats, every result is
      reported properly, and the prices reported are those `iter_prices`
      yields for those matches. */
  predicate Progress(text: string, ms: seq<(nat, nat)>, k: nat, results: seq<PriceResult>,
                     seen: set<(string, string)>)
    requires Spans(text, ms)
  {
    k <= |ms| && Spans(text, ms[..k]) &&
    seen == KeysOf(results) && DistinctKeys(results) && AllReported(results) &&
    PricesOf(results) == Elements(VisiblePrices(text, ms[..k]))
  }

  lemma ProgressStart(text: string, ms: seq<(nat, nat)>)
    requires Spans(text, ms)
    ensures Progress(text, ms, 0, [], {})
  {
    assert ms[..0] == [];
  }

  /** A match that starts inside a tag changes nothing. */
  lemma SkipInsideTag(text: string, ms: seq<(nat, nat)>, k: nat, results: seq<PriceResult>,
                      seen: set<(string, string)>)
    requires Spans(text, ms) && Progress(text, ms, k, results, seen)
    requires k < |ms| && IsInsideHtmlTag(text, ms[k].0)
    ensures Progress(text, ms, k + 1, results, seen)
  {
    VisiblePricesSnoc(text, ms, k);
  }

  /** A result whose key was seen already is dropped; its price has been
      reported. */
  lemma SkipSeen(text: string, ms: seq<(nat, nat)>, k: nat, results: seq<PriceResult>,
                 seen: set<(string, string)>, x: PriceResult)
    requires Spans(text, ms) && Progress(text, ms, k, results, seen)
    requires k < |ms| && !IsInsideHtmlTag(text, ms[k].0)
    requires x.price == Strip(text[ms[k].0..ms[k].1]) && Key(x) in seen
    ensures Progress(text, ms, k + 1, results, seen)
  {
    VisiblePricesSnoc(text, ms, k);
    ElementsSnoc(VisiblePrices(text, ms[..k]), x.price);
    var i :| 0 <= i < |results| && Key(results[i]) == Key(x);
    PricesOfMeaning(results);
  }

  /** A result with a new key is appended. */
  lemma AddResult(text: string, ms: seq<(nat, nat)>, k: nat, results: seq<PriceResult>,
                  seen: set<(string, string)>, x: PriceResult)
    requires Spans(text, ms) && Progress(text, ms, k, results, seen)
    requires k < |ms| && !IsInsideHtmlTag(text, ms[k].0)
    requires x.price == Strip(text[ms[k].0..ms[k].1]) && Key(x) !in seen && Reported(x)
    ensures Progress(text, ms, k + 1, results + [x], seen + {Key(x)})
  {
    VisiblePricesSnoc(text, ms, k);
    ElementsSnoc(VisiblePrices(text, ms[..k]), x.price);
    assert (results + [x])[..|results|] == results;
    assert (results + [x])[|results|] == x;
    assert forall i :: 0 <= i < |results| ==> (results + [x])[i] == results[i];
  }

  /** The cut `extract_prices` applies to long descriptions: the first 157
      characters and `...`. */
  function Shorten(d: string): (r: string)
    ensures |r| <= MaxDescription
    ensures |d| <= MaxDescription ==> r == d
    ensures |d| > MaxDescription ==>
      |r| == MaxDescription && r[..157] == d[..157] && r[157..] == "..."
  {
    if |d| > MaxDescription then d[..157] + "..." else d
  }

  /** The text node holding the price, found from `nodeCursor` on, and
      its best neighbouring text; the cursor moves to that node. */
  method NeighbourText(price: string, nodes: seq<TextNode>, cands: seq<string>, consumed: array<nat>, nodeCursor: nat)
    returns (chosen: Option<string>, cursor: nat)
    requires price != [] && consumed.Length == |nodes| == |cands|
    modifies consumed
    ensures cursor == nodeCursor || cursor < |nodes|
    ensures chosen.Some? ==> IsValidCandidate(chosen.value)
  {
    chosen, cursor := None, nodeCursor;
    var nodeIndex := LocateNodeForPrice(nodes, price, consumed, nodeCursor);
    if nodeIndex.Some? {
      cursor := nodeIndex.value;
      chosen := SelectBestNeighbor(nodes, cands, nodeIndex.value, price);
    }
  }

  /** The description `extract_prices` gives the match `m` of `searchText`:
      the best neighbouring text node of the node holding the price, else
      the refined snippet of visible text around the match, else the price
      itself, shortened to 160 characters.  Returns the node cursor for the
      next match. */
  method DescribeMatch(searchText: string, m: (nat, nat), price: string, context: nat,
                       nodes: seq<TextNode>, cands: seq<string>, consumed: array<nat>, nodeCursor: nat)
    returns (description: string, cursor: nat)
    requires m.0 <= m.1 <= |searchText| && price != []
    requires consumed.Length == |nodes| == |cands|
    modifies consumed
    ensures 0 < |description| <= MaxDescription
    ensures cursor == nodeCursor || cursor < |nodes|
  {
    var window := VisibleTextWindow(searchText, m.0, m.1, context);
    var snippet := CleanSnippet(window);

    var chosen;
    chosen, cursor := NeighbourText(price, nodes, cands, consumed, nodeCursor);
    var d: string;
    if chosen.None? || chosen.value == [] {
      d := RefineSnippet(snippet, price);
    } else {
      d := chosen.value;
    }
    if d == [] {
      d := price;
    }
    description := Shorten(d);
  }

  /** `extract_prices`: one result per price match outside a tag, described
      as `DescribeMatch` says; a repeated `(description, price)` pair is
      reported once.  The page's tokenizer is a parameter. */
  method ExtractPrices(html: string, context: nat, tokenize: string -> seq<Event>)
    returns (results: seq<PriceResult>)
    ensures AllReported(results)
    ensures DistinctKeys(results)
    ensures Spans(SearchText(html), FindAll(SearchText(html), 0))
    ensures PricesOf(results) == Elements(VisiblePrices(SearchText(html), FindAll(SearchText(html), 0)))
  {
    var strippedHtml := RemoveScriptStyle(html);
    var searchText := Unescape(strippedHtml);
    var nodes := CollectTextNodes(tokenize(strippedHtml));
    var cands := PreparedTexts(nodes);
    var consumed := new nat[|nodes|](_ => 0);
    var nodeCursor: nat := 0;
    results := [];
    var seen: set<(string, string)> := {};
    var matches := FindAll(searchText, 0);
    MatchesAreSpans(searchText);

    ProgressStart(searchText, matches);
    for k := 0 to |matches|
      invariant consumed.Length == |nodes|
      invariant Progress(searchText, matches, k, results, seen)
    {
      var m := matches[k];
      if IsInsideHtmlTag(searchText, m.0) {
        SkipInsideTag(searchText, matches, k, results, seen);
        continue;
      }
      var price := Strip(searchText[m.0..m.1]);
      var description;
      description, nodeCursor := DescribeMatch(searchText, m, price, context, nodes, cands, consumed, nodeCursor);

      var x := PriceResult(description, price);
      if Key(x) in seen {
        SkipSeen(searchText, matches, k, results, seen, x);
        continue;
      }
      AddResult(searchText, matches, k, results, seen, x);
      seen := seen + {Key(x)};
      results := results + [x];
    }
    assert matches[..|matches|] == matches;
  }
}
