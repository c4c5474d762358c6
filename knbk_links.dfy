/** Link discovery on knbk.in.ua catalog pages (pricing_scrapper/knbk.py):
    which anchor leads to the next page of a category, which anchors lead
    to subcategories, and how catalog URLs are normalised before they are
    compared.

    Both link parsers are classes over the tokenizer's events whose
    methods are proved to perform the step functions written next to
    them. URL resolution (`urljoin`) is the parameter `join`. */
module KnbkLinks {
  import opened Text
  import opened Html
  import opened Urls
  import opened KnbkClassify
  import opened Dedup

  // ---------------------------------------------------------------------
  // Link texts and attributes

  const NextTextSymbols: set<string> := {">", ">>", "»", "›", "→"}
  const NextTextKeywords: set<string> := {
    "next", "next page", "следующая", "следующая страница", "вперед", "вперёд", "далее", "далі"
  }
  const NextTextPrefixes: seq<string> := ["наступ", "следующ", "дал", "далі", "вперёд", "вперед"]
  const NextAttrKeywords: seq<string> := ["next", "pagination_next", "pager_next"]
  const NextAttrKeys: seq<string> := ["data-qaid", "data-role", "data-action", "data-direction"]
  const NextClassHints: set<string> := {
    "pagination__next", "pagination-next", "pagination_next", "pager__next", "pager-next",
    "page__next", "page-next", "nav__next", "nav-next", "arrow-next", "btn-next"
  }
  const NextClassContexts: seq<string> := ["pag", "pager", "page", "nav", "arrow", "btn"]

  /** The `data-*` attributes consulted, in this order, when `href` is a placeholder. */
  const DataLinkAttributes: seq<string> := [
    "data-url", "data-href", "data-link", "data-next-url", "data-next-href",
    "data-target-url", "data-page-url", "data-page-link"
  ]

  predicate StartsWithAny(s: string, prefixes: seq<string>) {
    exists p :: p in prefixes && StartsWith(s, p)
  }

  /** `_text_looks_like_next`: the trimmed text, case-folded, is a "next"
      word or starts like one, or the trimmed text is an arrow. */
  predicate TextLooksLikeNext(text: string) {
    var normalized := Strip(text);
    normalized != [] &&
    (LowerStr(normalized) in NextTextKeywords ||
     StartsWithAny(LowerStr(normalized), NextTextPrefixes) ||
     normalized in NextTextSymbols)
  }

  /** `_is_placeholder_href`: empty after trimming, `#`, a `javascript:`
      URL or `void(0)`. */
  predicate IsPlaceholderHref(value: string) {
    var lowered := LowerStr(Strip(value));
    Strip(value) == [] || lowered == "#" || StartsWith(lowered, "javascript:") ||
    lowered in {"void(0)", "void(0);"}
  }

  /** An attribute holding a usable link. */
  predicate UsableLink(attrs: Attrs, key: string) {
    HasValue(attrs, key) && !IsPlaceholderHref(attrs[key])
  }

  /** The first of `keys` holding a usable link, trimmed. */
  function FirstDataLink(attrs: Attrs, keys: seq<string>): Option<string>
    decreases |keys|
  {
    if keys == [] then None
    else if UsableLink(attrs, keys[0]) && Strip(attrs[keys[0]]) != [] then Some(Strip(attrs[keys[0]]))
    else FirstDataLink(attrs, keys[1..])
  }

  /** `_extract_href_candidate`. */
  function ExtractHrefCandidate(attrs: Attrs): Option<string> {
    if UsableLink(attrs, "href") then Some(Strip(attrs["href"]))
    else FirstDataLink(attrs, DataLinkAttributes)
  }

  lemma StripIdempotent(s: string)
    ensures Strip(Strip(s)) == Strip(s)
  {
    StripEdges(s);
    StripNoEdgeSpaceIsIdentity(Strip(s));
  }

  /** Trimming does not change whether a value is a placeholder. */
  lemma PlaceholderOfStrip(s: string)
    ensures IsPlaceholderHref(Strip(s)) == IsPlaceholderHref(s)
  {
    StripIdempotent(s);
  }

  /** The first usable attribute wins, and a trimmed usable value is
      never a placeholder. */
  lemma {:induction false} FirstDataLinkFirst(attrs: Attrs, keys: seq<string>)
    ensures FirstDataLink(attrs, keys).None? <==> forall k :: k in keys ==> !UsableLink(attrs, k)
    ensures FirstDataLink(attrs, keys).Some? ==>
      exists j :: 0 <= j < |keys| && UsableLink(attrs, keys[j]) &&
        FirstDataLink(attrs, keys).value == Strip(attrs[keys[j]]) &&
        forall i :: 0 <= i < j ==> !UsableLink(attrs, keys[i])
    ensures FirstDataLink(attrs, keys).Some? ==> !IsPlaceholderHref(FirstDataLink(attrs, keys).value)
    decreases |keys|
  {
    if keys != [] {
      FirstDataLinkFirst(attrs, keys[1..]);
      if UsableLink(attrs, keys[0]) {
        PlaceholderOfStrip(attrs[keys[0]]);
      } else {
        var r := FirstDataLink(attrs, keys);
        if r.Some? {
          var j :| 0 <= j < |keys[1..]| && UsableLink(attrs, keys[1..][j]) &&
            r.value == Strip(attrs[keys[1..][j]]) &&
            forall i :: 0 <= i < j ==> !UsableLink(attrs, keys[1..][i]);
          assert keys[1..][j] == keys[j + 1];
          forall i | 0 <= i < j + 1 ensures !UsableLink(attrs, keys[i]) {
            if i > 0 {
              assert keys[i] == keys[1..][i - 1];
            }
          }
        } else {
          forall k | k in keys ensures !UsableLink(attrs, k) {
            if k != keys[0] {
              assert k in keys[1..];
            }
          }
        }
      }
    }
  }

  /** `_extract_href_candidate` takes the trimmed `href` when it is usable,
      else the first usable `data-*` link in the fixed order, else nothing;
      what it returns is never a placeholder. */
  lemma ExtractHrefCandidateSpec(attrs: Attrs)
    ensures UsableLink(attrs, "href") ==> ExtractHrefCandidate(attrs) == Some(Strip(attrs["href"]))
    ensures ExtractHrefCandidate(attrs).None? <==>
      !UsableLink(attrs, "href") && forall k :: k in DataLinkAttributes ==> !UsableLink(attrs, k)
    ensures ExtractHrefCandidate(attrs).Some? ==>
      !IsPlaceholderHref(ExtractHrefCandidate(attrs).value) && ExtractHrefCandidate(attrs).value != []
  {
    FirstDataLinkFirst(attrs, DataLinkAttributes);
    if UsableLink(attrs, "href") {
      PlaceholderOfStrip(attrs["href"]);
    }
  }

  /** A class naming a "next" control. */
  predicate ClassSaysNext(cls: string) {
    var lowered := LowerStr(cls);
    lowered in NextClassHints ||
    (Contains(lowered, "next") && exists hint :: hint in NextClassContexts && Contains(lowered, hint))
  }

  /** The attribute tests of `_link_attrs_next_href`, which all lead to
      the same answer. */
  predicate AttrsSayNext(attrs: Attrs) {
    (HasValue(attrs, "rel") && exists part :: part in Words(attrs["rel"]) && LowerStr(part) == "next") ||
    (exists key :: key in NextAttrKeys && HasValue(attrs, key) &&
       exists kw :: kw in NextAttrKeywords && Contains(LowerStr(attrs[key]), kw)) ||
    (HasValue(attrs, "aria-label") && TextLooksLikeNext(attrs["aria-label"])) ||
    (HasValue(attrs, "title") && TextLooksLikeNext(attrs["title"])) ||
    (HasValue(attrs, "class") && exists cls :: cls in Words(attrs["class"]) && ClassSaysNext(cls))
  }

  /** `_link_attrs_next_href`. */
  function LinkAttrsNextHref(attrs: Attrs): Option<string> {
    var href := ExtractHrefCandidate(attrs);
    if href.Some? && href.value != [] && AttrsSayNext(attrs) then href else None
  }

  /** A link marked as "next" yields its extracted link, which is never a
      placeholder; an unmarked link yields nothing. */
  lemma LinkAttrsNextHrefSpec(attrs: Attrs)
    ensures LinkAttrsNextHref(attrs).Some? <==> ExtractHrefCandidate(attrs).Some? && AttrsSayNext(attrs)
    ensures LinkAttrsNextHref(attrs).Some? ==>
      LinkAttrsNextHref(attrs) == ExtractHrefCandidate(attrs) && !IsPlaceholderHref(LinkAttrsNextHref(attrs).value)
  {
    ExtractHrefCandidateSpec(attrs);
  }

  // ---------------------------------------------------------------------
  // The pagination parser

  /** The state of `_PaginationParser`: the link found, and the anchor or
      button being read, with the nesting depth inside it and its text. */
  datatype PagState = PagState(
    nextHref: Option<string>,
    candidateTag: Option<string>,
    candidateHref: Option<string>,
    candidateDepth: nat,
    buffer: string)

  const PagInitial: PagState := PagState(None, None, None, 0, [])

  function PagReset(st: PagState): PagState {
    st.(candidateTag := None, candidateHref := None, candidateDepth := 0, buffer := [])
  }

  /** `handle_starttag`, given the "next" link the tag's attributes name
      and its usable link, if any. */
  function PagStartTagWith(st: PagState, tag: string, next: Option<string>, candidate: Option<string>): PagState {
    if st.nextHref.Some? then st
    else if tag in {"link", "a", "button"} && next.Some? then PagReset(st).(nextHref := next)
    else if tag in {"a", "button"} && candidate.Some? then
      st.(candidateTag := Some(tag), candidateHref := candidate, buffer := [], candidateDepth := 0)
    else if st.candidateTag.Some? then st.(candidateDepth := st.candidateDepth + 1)
    else st
  }

  /** `handle_starttag`. */
  function PagStartTag(st: PagState, tag: string, attrs: Attrs): PagState {
    PagStartTagWith(st, tag, LinkAttrsNextHref(attrs), ExtractHrefCandidate(attrs))
  }

  lemma StartTagWithLinks(st: PagState, tag: string, attrs: Attrs, next: Option<string>, candidate: Option<string>)
    requires next == LinkAttrsNextHref(attrs) && candidate == ExtractHrefCandidate(attrs)
    ensures PagStartTag(st, tag, attrs) == PagStartTagWith(st, tag, next, candidate)
  {
  }

  /** `handle_endtag`: the candidate's own closing tag decides it. */
  function PagEndTag(st: PagState, tag: string): PagState {
    if st.candidateTag.None? then st
    else if tag != st.candidateTag.value || st.candidateDepth > 0 then
      st.(candidateDepth := if st.candidateDepth > 0 then st.candidateDepth - 1 else 0)
    else if st.candidateHref.Some? && st.candidateHref.value != [] && TextLooksLikeNext(NormalizeText(st.buffer)) then
      PagReset(st).(nextHref := st.candidateHref)
    else PagReset(st)
  }

  /** `handle_data`. */
  function PagData(st: PagState, data: string): PagState {
    if st.nextHref.None? && st.candidateTag.Some? then st.(buffer := st.buffer + data) else st
  }

  function PagStep(st: PagState, ev: Event): PagState {
    match ev
    case StartTag(tag, attrs) => PagStartTag(st, tag, attrs)
    case EndTag(tag) => PagEndTag(st, tag)
    case Data(text) => PagData(st, text)
  }

  function PagRun(events: seq<Event>): PagState
    decreases |events|
  {
    if events == [] then PagInitial else PagStep(PagRun(events[..|events| - 1]), events[|events| - 1])
  }

  /** The parser's invariant: a link found or being read is never a
      placeholder, and once a link is found nothing is being read. */
  predicate PagOk(st: PagState) {
    (st.nextHref.Some? ==> !IsPlaceholderHref(st.nextHref.value) && st.candidateTag.None?) &&
    (st.candidateTag.Some? <==> st.candidateHref.Some?) &&
    (st.candidateHref.Some? ==> !IsPlaceholderHref(st.candidateHref.value)) &&
    (st.candidateTag.None? ==> st.candidateDepth == 0 && st.buffer == [])
  }

  lemma PagStepOk(st: PagState, ev: Event)
    requires PagOk(st)
    ensures PagOk(PagStep(st, ev))
  {
    match ev {
      case StartTag(tag, attrs) =>
        LinkAttrsNextHrefSpec(attrs);
        ExtractHrefCandidateSpec(attrs);
      case EndTag(_) =>
      case Data(_) =>
    }
  }

  /** The first link found is kept: no later event changes the state. */
  lemma PagFirstWins(st: PagState, ev: Event)
    requires PagOk(st) && st.nextHref.Some?
    ensures PagStep(st, ev) == st
  {
  }

  /** Over a whole page: the link found is never a placeholder, and the
      link found after a prefix of the events is the one found after all
      of them. */
  lemma {:induction false} PagRunSpec(events: seq<Event>, k: nat)
    requires k <= |events|
    ensures PagOk(PagRun(events))
    ensures PagRun(events[..k]).nextHref.Some? ==> PagRun(events).nextHref == PagRun(events[..k]).nextHref
    decreases |events|
  {
    if events != [] {
      var n := |events| - 1;
      PagRunSpec(events[..n], if k <= n then k else n);
      PagStepOk(PagRun(events[..n]), events[n]);
      if k <= n {
        assert events[..n][..k] == events[..k];
        if PagRun(events[..k]).nextHref.Some? {
          PagFirstWins(PagRun(events[..n]), events[n]);
        }
      } else {
        assert events[..k] == events;
      }
    }
  }

  class PaginationParser {
    var nextHref: Option<string>
    var candidateTag: Option<string>
    var candidateHref: Option<string>
    var candidateDepth: nat
    var buffer: string

    function Model(): PagState
      reads this
    {
      PagState(nextHref, candidateTag, candidateHref, candidateDepth, buffer)
    }

    constructor ()
      ensures Model() == PagInitial
    {
      nextHref := None;
      candidateTag := None;
      candidateHref := None;
      candidateDepth := 0;
      buffer := [];
    }

    method ResetCandidate()
      modifies this
      ensures Model() == PagReset(old(Model()))
    {
      candidateTag := None;
      candidateHref := None;
      candidateDepth := 0;
      buffer := [];
    }

    /** `handle_starttag`. */
    method HandleStartTag(tag: string, attrs: Attrs)
      modifies this
      ensures Model() == PagStartTag(old(Model()), tag, attrs)
    {
      var next := LinkAttrsNextHref(attrs);
      var candidate := ExtractHrefCandidate(attrs);
      StartTagWithLinks(Model(), tag, attrs, next, candidate);
      if nextHref.Some? {
        return;
      }
      if tag in {"link", "a", "button"} && next.Some? {
        nextHref := next;
        ResetCandidate();
        return;
      }
      if tag in {"a", "button"} && candidate.Some? {
        candidateTag, candidateHref, buffer, candidateDepth := Some(tag), candidate, [], 0;
        return;
      }
      if candidateTag.Some? {
        candidateDepth := candidateDepth + 1;
      }
    }

    /** `handle_endtag`. */
    method HandleEndTag(tag: string)
      modifies this
      ensures Model() == PagEndTag(old(Model()), tag)
    {
      if candidateTag.None? {
        return;
      }
      if tag != candidateTag.value {
        if candidateDepth > 0 {
          candidateDepth := candidateDepth - 1;
        }
        return;
      }
      if candidateDepth > 0 {
        candidateDepth := candidateDepth - 1;
        return;
      }
      var text := NormalizeText(buffer);
      if candidateHref.Some? && candidateHref.value != [] && TextLooksLikeNext(text) {
        nextHref := candidateHref;
      }
      ResetCandidate();
    }

    /** `handle_data`. */
    method HandleData(data: string)
      modifies this
      ensures Model() == PagData(old(Model()), data)
    {
      if nextHref.Some? {
        return;
      }
      if candidateTag.Some? {
        buffer := buffer + data;
      }
    }

    method Feed(ev: Event)
      modifies this
      ensures Model() == PagStep(old(Model()), ev)
    {
      match ev {
        case StartTag(tag, attrs) => HandleStartTag(tag, attrs);
        case EndTag(tag) => HandleEndTag(tag);
        case Data(text) => HandleData(text);
      }
    }
  }

  /** The part of `_find_next_page_url` after parsing: the link is resolved
      against the page's URL, stripped of its fragment and kept only for
      http, https or no scheme. */
  function ResolveNextHref(href: Option<string>, baseUrl: string, join: (string, string) -> string): Option<string> {
    if href.None? || href.value == [] then None
    else
      var joined := join(baseUrl, href.value);
      if joined == [] then None
      else
        var defragged := Defrag(joined);
        if defragged == [] then None
        else
          var parsed := Parse(defragged);
          if parsed.scheme != [] && parsed.scheme !in {"http", "https"} then None
          else Some(Unparse(parsed.(fragment := [])))
  }

  /** `_find_next_page_url`. */
  method FindNextPageUrl(events: seq<Event>, baseUrl: string, join: (string, string) -> string)
    returns (r: Option<string>)
    ensures r == ResolveNextHref(PagRun(events).nextHref, baseUrl, join)
  {
    var parser := new PaginationParser();
    for n := 0 to |events|
      invariant parser.Model() == PagRun(events[..n])
    {
      assert events[..n + 1][..n] == events[..n];
      parser.Feed(events[n]);
    }
    assert events[..|events|] == events;
    r := ResolveNextHref(parser.nextHref, baseUrl, join);
  }

  /** The next-page URL is never built from a placeholder link, and is only
      found when some link was marked or labelled as "next". */
  lemma NextPageUrlFromRealLink(events: seq<Event>, baseUrl: string, join: (string, string) -> string)
    ensures ResolveNextHref(PagRun(events).nextHref, baseUrl, join).Some? ==>
      PagRun(events).nextHref.Some? && !IsPlaceholderHref(PagRun(events).nextHref.value)
  {
    PagRunSpec(events, 0);
  }

  // ---------------------------------------------------------------------
  // Catalog URLs

  /** The last non-empty segment of a `/`-separated path, if any. */
  function LastSegment(path: string): (r: Option<string>)
    ensures r.Some? ==> r.value != [] && '/' !in r.value
    decreases |path|
  {
    if path == [] then None
    else if path[|path| - 1] == '/' then LastSegment(path[..|path| - 1])
    else
      var start := RFindChar(path, '/', |path|) + 1;
      assert forall j :: start <= j < |path| ==> path[start..][j - start] == path[j];
      Some(path[start..])
  }

  /** What `_path_looks_like_category` decides: the last segment, case-folded,
      is a `g` or `c` followed by at least one digit. */
  predicate LooksLikeCategoryPath(path: string) {
    match LastSegment(path)
    case None => false
    case Some(last) => |last| >= 2 && Lower(last[0]) in {'g', 'c'} && IsDigit(Lower(last[1]))
  }

  /** `_path_looks_like_category`, with its digit-counting loop. */
  method PathLooksLikeCategory(path: string) returns (b: bool)
    ensures b == LooksLikeCategoryPath(path)
  {
    var last := LastSegment(path);
    if last.None? {
      return false;
    }
    var lowered := LowerStr(last.value);
    if |lowered| < 2 || lowered[0] !in {'g', 'c'} {
      return false;
    }
    assert lowered[0] == Lower(last.value[0]) && lowered[1] == Lower(last.value[1]);
    var digitCount := 0;
    var i := 1;
    while i < |lowered| && IsDigit(lowered[i])
      invariant 1 <= i <= |lowered|
      invariant digitCount == i - 1
      invariant i > 1 ==> IsDigit(lowered[1])
    {
      digitCount := digitCount + 1;
      i := i + 1;
    }
    b := digitCount > 0;
  }

  /** Python's `s.rstrip(c)`. */
  function RStripChar(s: string, c: char): (r: string)
    ensures |r| <= |s| && r == s[..|r|]
    ensures r == [] || r[|r| - 1] != c
    ensures forall i :: |r| <= i < |s| ==> s[i] == c
  {
    if s == [] || s[|s| - 1] != c then s else RStripChar(s[..|s| - 1], c)
  }

  /** The components `_normalize_catalog_url` reassembles; a base scheme
      or host of `""` stands for none. */
  function CatalogParts(url: string, baseScheme: string, baseNetloc: string): (r: Option<Url>)
    ensures r.Some? ==> r.value.scheme in {"http", "https"} && r.value.netloc != []
    ensures r.Some? ==> r.value.params == [] && r.value.query == [] && r.value.fragment == []
    ensures r.Some? ==> r.value.path == "/" || (r.value.path != [] && r.value.path[|r.value.path| - 1] != '/')
    ensures r.Some? && baseNetloc != [] ==> LowerStr(r.value.netloc) == LowerStr(baseNetloc)
  {
    var trimmed := Strip(url);
    if url == [] || trimmed == [] then None
    else
      var joined := Defrag(trimmed);
      if joined == [] then None else CatalogPartsOf(Parse(joined), baseScheme, baseNetloc)
  }

  /** The checks and substitutions `_normalize_catalog_url` applies to the
      parsed URL. */
  function CatalogPartsOf(parsed: Url, baseScheme: string, baseNetloc: string): (r: Option<Url>)
    ensures r.Some? ==> r.value.scheme in {"http", "https"} && r.value.netloc != []
    ensures r.Some? ==> r.value.params == [] && r.value.query == [] && r.value.fragment == []
    ensures r.Some? ==> r.value.path == "/" || (r.value.path != [] && r.value.path[|r.value.path| - 1] != '/')
    ensures r.Some? && baseNetloc != [] ==> LowerStr(r.value.netloc) == LowerStr(baseNetloc)
  {
    var scheme := if parsed.scheme != [] then parsed.scheme else if baseScheme != [] then baseScheme else "https";
    var netloc := if parsed.netloc != [] then parsed.netloc else baseNetloc;
    if scheme !in {"http", "https"} || netloc == [] then None
    else if baseNetloc != [] && LowerStr(netloc) != LowerStr(baseNetloc) then None
    else
      var path0 := if parsed.path != [] then parsed.path else "/";
      var path := if path0 == "/" || RStripChar(path0, '/') == [] then "/" else RStripChar(path0, '/');
      Some(Url(scheme, netloc, path, [], [], []))
  }

  /** `_normalize_catalog_url`. */
  function NormalizeCatalogUrl(url: string, baseScheme: string, baseNetloc: string): Option<string> {
    match CatalogParts(url, baseScheme, baseNetloc)
    case None => None
    case Some(u) => Some(Unparse(u))
  }

  // ---------------------------------------------------------------------
  // The subcategory link parser

  datatype CategoryLink = CategoryLink(name: string, url: string)

  /** What `_CategoryLinkParser` derives from its base URL. */
  datatype LinkBase = LinkBase(url: string, scheme: string, netloc: string, normalized: Option<string>)

  function MakeLinkBase(baseUrl: string): LinkBase {
    var parsed := Parse(baseUrl);
    var scheme := if parsed.scheme != [] then parsed.scheme else "https";
    LinkBase(baseUrl, scheme, parsed.netloc, NormalizeCatalogUrl(baseUrl, scheme, parsed.netloc))
  }

  /** Some open element, searched innermost first, satisfies `p`: the loops
      of `_anchor_has_category_hint` and `_anchor_in_excluded_region`. */
  predicate AnyFromEnd(stack: seq<Element>, p: Element -> bool)
    decreases |stack|
  {
    stack != [] && (p(stack[|stack| - 1]) || AnyFromEnd(stack[..|stack| - 1], p))
  }

  lemma {:induction false} AnyFromEndIff(stack: seq<Element>, p: Element -> bool)
    ensures AnyFromEnd(stack, p) <==> exists i :: 0 <= i < |stack| && p(stack[i])
    decreases |stack|
  {
    if stack != [] {
      var n := |stack| - 1;
      AnyFromEndIff(stack[..n], p);
      if AnyFromEnd(stack[..n], p) {
        var i :| 0 <= i < n && p(stack[..n][i]);
        assert stack[..n][i] == stack[i];
      }
      if exists i :: 0 <= i < |stack| && p(stack[i]) {
        var i :| 0 <= i < |stack| && p(stack[i]);
        if i < n {
          assert stack[..n][i] == stack[i];
        }
      }
    }
  }

  predicate HasHintedAncestor(stack: seq<Element>) {
    AnyFromEnd(stack, HasCategoryLinkHint)
  }

  predicate HasExcludedAncestor(stack: seq<Element>) {
    AnyFromEnd(stack, InCategoryLinkExcludedRegion)
  }

  /** An anchor's target is admitted when it normalises to a URL on the
      base host other than the base page, with a category-like path. */
  ghost predicate AdmittedTarget(b: LinkBase, url: string) {
    (exists raw :: NormalizeCatalogUrl(raw, b.scheme, b.netloc) == Some(url)) &&
    Some(url) != b.normalized && LooksLikeCategoryPath(Parse(url).path)
  }

  /** The normalised target of an anchor with attributes `attrs` whose open
      elements (the anchor included) are `stack`, when the anchor qualifies. */
  function AnchorTarget(b: LinkBase, join: (string, string) -> string, stack: seq<Element>, attrs: Attrs): Option<string> {
    match ExtractHrefCandidate(attrs)
    case None => None
    case Some(href) =>
      var absolute := join(b.url, href);
      match NormalizeCatalogUrl(absolute, b.scheme, b.netloc)
      case None => None
      case Some(normalized) =>
        if Some(normalized) == b.normalized || !LooksLikeCategoryPath(Parse(normalized).path) then None
        else if !HasHintedAncestor(stack) || HasExcludedAncestor(stack) then None
        else Some(normalized)
  }

  /** An anchor qualifies only with an admitted, non-empty target inside a
      hinted and not excluded region. */
  lemma AnchorTargetAdmitted(b: LinkBase, join: (string, string) -> string, stack: seq<Element>, attrs: Attrs)
    ensures var r := AnchorTarget(b, join, stack, attrs);
      r.Some? ==> AdmittedTarget(b, r.value) && r.value != [] && HasHintedAncestor(stack) && !HasExcludedAncestor(stack)
  {
    var r := AnchorTarget(b, join, stack, attrs);
    if r.Some? {
      var absolute := join(b.url, ExtractHrefCandidate(attrs).value);
      NormalizedNonEmpty(absolute, b.scheme, b.netloc);
    }
  }

  /** The state of `_CategoryLinkParser`. */
  datatype LinkState = LinkState(
    links: seq<CategoryLink>,
    stack: seq<Element>,
    currentHref: Option<string>,
    currentAttrs: Option<Attrs>,
    buffer: string,
    depth: nat)

  const LinkInitial: LinkState := LinkState([], [], None, None, [], 0)

  const LinkNameAttributes: seq<string> := ["title", "aria-label", "data-name"]

  /** The first of `keys` whose value normalises to a non-empty text. */
  function AttrName(attrs: Attrs, keys: seq<string>): (r: string)
    decreases |keys|
  {
    if keys == [] then []
    else if HasValue(attrs, keys[0]) && NormalizeText(attrs[keys[0]]) != [] then NormalizeText(attrs[keys[0]])
    else AttrName(attrs, keys[1..])
  }

  /** The name of a finished link: its text, else a naming attribute,
      else the URL's path, else the URL. */
  function LinkName(buffer: string, attrs: Option<Attrs>, href: string): (r: string)
    ensures href != [] ==> r != []
  {
    var text := NormalizeText(buffer);
    if text != [] then text
    else
      var fromAttrs := if attrs.Some? then AttrName(attrs.value, LinkNameAttributes) else [];
      if fromAttrs != [] then fromAttrs
      else if Parse(href).path != [] then Parse(href).path
      else href
  }

  function LinkReset(st: LinkState): LinkState {
    st.(currentHref := None, currentAttrs := None, buffer := [], depth := 0)
  }

  /** `handle_starttag`, given what the anchor checks decide for this tag. */
  function LinkStartTagWith(st: LinkState, tag: string, attrs: Attrs, target: Option<string>): LinkState {
    var stack := st.stack + [Element(tag, attrs)];
    if tag == "a" then
      match target
      case None => st.(stack := stack)
      case Some(normalized) =>
        st.(stack := stack, currentHref := Some(normalized), currentAttrs := Some(attrs), buffer := [], depth := 0)
    else if st.currentHref.Some? then st.(stack := stack, depth := st.depth + 1)
    else st.(stack := stack)
  }

  /** `handle_starttag`. */
  function LinkStartTag(b: LinkBase, join: (string, string) -> string, st: LinkState, tag: string, attrs: Attrs): LinkState {
    LinkStartTagWith(st, tag, attrs, AnchorTarget(b, join, st.stack + [Element(tag, attrs)], attrs))
  }

  lemma StartTagWithTarget(b: LinkBase, join: (string, string) -> string, st: LinkState, tag: string, attrs: Attrs, target: Option<string>)
    requires tag == "a" ==> target == AnchorTarget(b, join, st.stack + [Element(tag, attrs)], attrs)
    ensures LinkStartTag(b, join, st, tag, attrs) == LinkStartTagWith(st, tag, attrs, target)
  {
  }

  /** `handle_endtag`: the innermost element is popped; the anchor's own
      closing tag records the link. */
  function LinkEndTag(st: LinkState, tag: string): LinkState {
    if st.stack == [] then st
    else
      var popped := st.(stack := st.stack[..|st.stack| - 1]);
      if st.currentHref.None? then popped
      else if st.depth > 0 then popped.(depth := st.depth - 1)
      else if tag != "a" then popped
      else
        var name := LinkName(st.buffer, st.currentAttrs, st.currentHref.value);
        var recorded := if name != [] then popped.(links := st.links + [CategoryLink(name, st.currentHref.value)]) else popped;
        LinkReset(recorded)
  }

  /** `handle_data`. */
  function LinkData(st: LinkState, data: string): LinkState {
    if st.currentHref.Some? && data != [] then st.(buffer := st.buffer + data) else st
  }

  function LinkStep(b: LinkBase, join: (string, string) -> string, st: LinkState, ev: Event): LinkState {
    match ev
    case StartTag(tag, attrs) => LinkStartTag(b, join, st, tag, attrs)
    case EndTag(tag) => LinkEndTag(st, tag)
    case Data(text) => LinkData(st, text)
  }

  function LinkRun(b: LinkBase, join: (string, string) -> string, events: seq<Event>): LinkState
    decreases |events|
  {
    if events == [] then LinkInitial
    else LinkStep(b, join, LinkRun(b, join, events[..|events| - 1]), events[|events| - 1])
  }

  /** One more event extends the run by one step. */
  lemma LinkRunSnoc(b: LinkBase, join: (string, string) -> string, events: seq<Event>, n: nat)
    requires n < |events|
    ensures LinkRun(b, join, events[..n + 1]) == LinkStep(b, join, LinkRun(b, join, events[..n]), events[n])
  {
    assert events[..n + 1][..n] == events[..n];
  }

  /** Every recorded link and the anchor being read have an admitted target,
      and every recorded link a non-empty name. */
  ghost predicate LinkOk(b: LinkBase, st: LinkState) {
    (forall l :: l in st.links ==> l.name != [] && AdmittedTarget(b, l.url)) &&
    (st.currentHref.Some? ==> AdmittedTarget(b, st.currentHref.value) && st.currentHref.value != [])
  }

  /** A normalised URL is never empty: it has a host. */
  lemma NormalizedNonEmpty(url: string, bs: string, bn: string)
    requires NormalizeCatalogUrl(url, bs, bn).Some?
    ensures NormalizeCatalogUrl(url, bs, bn).value != []
  {
    var u := CatalogParts(url, bs, bn).value;
    var v := u.(path := if u.params != "" then u.path + ";" + u.params else u.path, params := "");
    assert NetAndPath(v)[..2] == "//";
  }

  lemma LinkStartTagOk(b: LinkBase, st: LinkState, tag: string, attrs: Attrs, target: Option<string>)
    requires LinkOk(b, st)
    requires target.Some? ==> AdmittedTarget(b, target.value) && target.value != []
    ensures LinkOk(b, LinkStartTagWith(st, tag, attrs, target))
  {
  }

  lemma LinkEndTagOk(b: LinkBase, st: LinkState, tag: string)
    requires LinkOk(b, st)
    ensures LinkOk(b, LinkEndTag(st, tag))
  {
  }

  lemma LinkStepOk(b: LinkBase, join: (string, string) -> string, st: LinkState, ev: Event)
    requires LinkOk(b, st)
    ensures LinkOk(b, LinkStep(b, join, st, ev))
  {
    match ev {
      case StartTag(tag, attrs) =>
        AnchorTargetAdmitted(b, join, st.stack + [Element(tag, attrs)], attrs);
        LinkStartTagOk(b, st, tag, attrs, AnchorTarget(b, join, st.stack + [Element(tag, attrs)], attrs));
      case EndTag(tag) =>
        LinkEndTagOk(b, st, tag);
      case Data(_) =>
    }
  }

  lemma {:induction false} LinkRunOk(b: LinkBase, join: (string, string) -> string, events: seq<Event>)
    ensures LinkOk(b, LinkRun(b, join, events))
    decreases |events|
  {
    if events != [] {
      LinkRunOk(b, join, events[..|events| - 1]);
      LinkStepOk(b, join, LinkRun(b, join, events[..|events| - 1]), events[|events| - 1]);
    }
  }

  class CategoryLinkParser {
    const base: LinkBase
    const join: (string, string) -> string
    var links: seq<CategoryLink>
    var stack: seq<Element>
    var currentHref: Option<string>
    var currentAttrs: Option<Attrs>
    var buffer: string
    var depth: nat

    function Model(): LinkState
      reads this
    {
      LinkState(links, stack, currentHref, currentAttrs, buffer, depth)
    }

    constructor (baseUrl: string, join: (string, string) -> string)
      ensures base == MakeLinkBase(baseUrl) && this.join == join && Model() == LinkInitial
    {
      base := MakeLinkBase(baseUrl);
      this.join := join;
      links := [];
      stack := [];
      currentHref := None;
      currentAttrs := None;
      buffer := [];
      depth := 0;
    }

    /** `_anchor_has_category_hint`: the open elements, innermost first. */
    method AnchorHasCategoryHint(stack: seq<Element>) returns (found: bool)
      ensures found == HasHintedAncestor(stack)
    {
      var i := |stack|;
      assert stack[..i] == stack;
      while i > 0
        invariant 0 <= i <= |stack|
        invariant HasHintedAncestor(stack) == AnyFromEnd(stack[..i], HasCategoryLinkHint)
      {
        assert stack[..i][..i - 1] == stack[..i - 1];
        if HasCategoryLinkHint(stack[i - 1]) {
          return true;
        }
        i := i - 1;
      }
      return false;
    }

    /** `_anchor_in_excluded_region`. */
    method AnchorInExcludedRegion(stack: seq<Element>) returns (found: bool)
      ensures found == HasExcludedAncestor(stack)
    {
      var i := |stack|;
      assert stack[..i] == stack;
      while i > 0
        invariant 0 <= i <= |stack|
        invariant HasExcludedAncestor(stack) == AnyFromEnd(stack[..i], InCategoryLinkExcludedRegion)
      {
        assert stack[..i][..i - 1] == stack[..i - 1];
        if InCategoryLinkExcludedRegion(stack[i - 1]) {
          return true;
        }
        i := i - 1;
      }
      return false;
    }

    /** The checks `handle_starttag` makes of an anchor whose element has
        just been pushed: the normalised target when it qualifies. */
    method AnchorTargetOf(stack: seq<Element>, attrs: Attrs) returns (target: Option<string>)
      ensures target == AnchorTarget(base, join, stack, attrs)
    {
      var href := ExtractHrefCandidate(attrs);
      if href.None? {
        return None;
      }
      var absolute := join(base.url, href.value);
      var normalized := NormalizeCatalogUrl(absolute, base.scheme, base.netloc);
      if normalized.None? || normalized == base.normalized {
        return None;
      }
      var categoryPath := PathLooksLikeCategory(Parse(normalized.value).path);
      if !categoryPath {
        return None;
      }
      var hinted := AnchorHasCategoryHint(stack);
      if !hinted {
        return None;
      }
      var excluded := AnchorInExcludedRegion(stack);
      if excluded {
        return None;
      }
      return normalized;
    }

    /** `handle_starttag`. */
    method HandleStartTag(tag: string, attrs: Attrs)
      modifies this
      ensures Model() == LinkStartTag(base, join, old(Model()), tag, attrs)
    {
      var pushed := stack + [Element(tag, attrs)];
      var target: Option<string> := None;
      if tag == "a" {
        target := AnchorTargetOf(pushed, attrs);
      }
      StartTagWithTarget(base, join, Model(), tag, attrs, target);
      OpenWith(tag, attrs, target);
    }

    /** `handle_starttag` once the anchor's target, if any, is known. */
    method OpenWith(tag: string, attrs: Attrs, target: Option<string>)
      modifies this
      ensures Model() == LinkStartTagWith(old(Model()), tag, attrs, target)
    {
      var next := LinkStartTagWith(Model(), tag, attrs, target);
      links, stack, currentHref, currentAttrs, buffer, depth := next.links, next.stack, next.currentHref, next.currentAttrs, next.buffer, next.depth;
    }

    /** `handle_endtag`. */
    method HandleEndTag(tag: string)
      modifies this
      ensures Model() == LinkEndTag(old(Model()), tag)
    {
      if stack == [] {
        return;
      }
      stack := stack[..|stack| - 1];
      if currentHref.None? {
        return;
      }
      if tag == "a" {
        if depth > 0 {
          depth := depth - 1;
          return;
        }
        CloseAnchor();
      } else if depth > 0 {
        depth := depth - 1;
      }
    }

    /** The anchor's own closing tag: the link is recorded when it has a
        name, and the anchor state is reset. */
    method CloseAnchor()
      requires currentHref.Some?
      modifies this
      ensures var name := LinkName(old(buffer), old(currentAttrs), old(currentHref).value);
        Model() == old(Model()).(links := if name != [] then old(links) + [CategoryLink(name, old(currentHref).value)] else old(links),
                                 currentHref := None, currentAttrs := None, buffer := [], depth := 0)
    {
      var name := LinkName(buffer, currentAttrs, currentHref.value);
      if name != [] {
        links := links + [CategoryLink(name, currentHref.value)];
      }
      currentHref := None;
      currentAttrs := None;
      buffer := [];
      depth := 0;
    }

    /** `handle_data`. */
    method HandleData(data: string)
      modifies this
      ensures Model() == LinkData(old(Model()), data)
    {
      if currentHref.Some? && data != [] {
        buffer := buffer + data;
      }
    }

    method Feed(ev: Event)
      modifies this
      ensures Model() == LinkStep(base, join, old(Model()), ev)
    {
      match ev {
        case StartTag(tag, attrs) => HandleStartTag(tag, attrs);
        case EndTag(tag) => HandleEndTag(tag);
        case Data(text) => HandleData(text);
      }
    }
  }

  function LinkUrl(l: CategoryLink): string {
    l.url
  }

  /** `_parse_subcategory_links`: the links of the page, first occurrence
      of every URL only. */
  method ParseSubcategoryLinks(events: seq<Event>, baseUrl: string, join: (string, string) -> string)
    returns (ordered: seq<CategoryLink>)
    ensures ordered == DedupBy(LinkRun(MakeLinkBase(baseUrl), join, events).links, LinkUrl)
  {
    var parser := new CategoryLinkParser(baseUrl, join);
    for n := 0 to |events|
      invariant parser.base == MakeLinkBase(baseUrl) && parser.join == join
      invariant parser.Model() == LinkRun(MakeLinkBase(baseUrl), join, events[..n])
    {
      LinkRunSnoc(MakeLinkBase(baseUrl), join, events, n);
      parser.Feed(events[n]);
    }
    assert events[..|events|] == events;
    ordered := DedupFirst(parser.links, LinkUrl);
  }

  /** The subcategory links of a page have distinct URLs, non-empty names,
      and targets on the base host other than the base page, with
      category-like paths, reached through a hinted and not excluded
      region. */
  lemma SubcategoryLinksSpec(events: seq<Event>, baseUrl: string, join: (string, string) -> string)
    ensures var r := DedupBy(LinkRun(MakeLinkBase(baseUrl), join, events).links, LinkUrl);
      DistinctKeys(r, LinkUrl) &&
      forall l :: l in r ==> l.name != [] && AdmittedTarget(MakeLinkBase(baseUrl), l.url)
  {
    var links := LinkRun(MakeLinkBase(baseUrl), join, events).links;
    LinkRunOk(MakeLinkBase(baseUrl), join, events);
    DedupByDistinct(links, LinkUrl);
    DedupBySubset(links, LinkUrl);
  }
}
