/** The pagination discovery of server.py: the parser that collects the
    anchors of a page, the normal form under which two URLs name the same
    page, the heuristic that tells a pagination link from any other, and
    the list of same-site pagination URLs a page links to.

    The page arrives as the tokenizer's events, and `urljoin` is a
    parameter. */
module ServerLinks {
  import opened Text
  import opened Html
  import opened Urls

  /** `_PaginationLink`: an anchor with its target, its stripped text and
      its attributes. */
  datatype PaginationLink = PaginationLink(href: string, text: string, attrs: Attrs)

  type Join = (string, string) -> string

  // ---------------------------------------------------------------------
  // Collecting anchors

  /** The state of `_PaginationLinkParser`: the links so far, and for the
      anchor being read its attributes, its text pieces and how deeply the
      tags inside it are nested. */
  datatype AnchorState = AnchorState(
    links: seq<PaginationLink>,
    current: Option<Attrs>,
    parts: seq<string>,
    depth: nat)

  const AnchorInitial := AnchorState([], None, [], 0)

  /** `handle_starttag`: an anchor with a non-empty `href` opens, one
      without drops whatever anchor was open; another tag inside an open
      anchor nests one level deeper. */
  function AnchorStart(st: AnchorState, tag: string, attrs: Attrs): AnchorState {
    if tag == "a" then
      if !HasValue(attrs, "href") then st.(current := None, parts := [], depth := 0)
      else st.(current := Some(attrs), parts := [], depth := 0)
    else if st.current.Some? then st.(depth := st.depth + 1)
    else st
  }

  /** `handle_endtag`: the `</a>` at nesting level 0 closes the open anchor
      and records it; any other end tag inside it climbs one level. */
  function AnchorEnd(st: AnchorState, tag: string): AnchorState {
    if st.current.None? then st
    else if tag == "a" && st.depth == 0 then
      var attrs := st.current.value;
      var links :=
        if HasValue(attrs, "href") then
          st.links + [PaginationLink(attrs["href"], Strip(JoinWith(st.parts, "")), attrs)]
        else st.links;
      st.(links := links, current := None, parts := [])
    else if st.depth > 0 then st.(depth := st.depth - 1)
    else st
  }

  /** `handle_data`: non-empty text inside an open anchor is kept. */
  function AnchorData(st: AnchorState, data: string): AnchorState {
    if st.current.Some? && data != "" then st.(parts := st.parts + [data]) else st
  }

  function AnchorStep(st: AnchorState, ev: Event): AnchorState {
    match ev
    case StartTag(tag, attrs) => AnchorStart(st, tag, attrs)
    case EndTag(tag) => AnchorEnd(st, tag)
    case Data(text) => AnchorData(st, text)
  }

  /** The parser's state after feeding it `events`. */
  function AnchorRun(events: seq<Event>): AnchorState
    decreases |events|
  {
    if events == [] then AnchorInitial
    else AnchorStep(AnchorRun(events[..|events| - 1]), events[|events| - 1])
  }

  /** What every state reached from the start satisfies: each recorded link
      has a non-empty target taken from the `href` of an `<a>` start tag
      among `events`, and text with no whitespace at either end; an open
      anchor came from such a start tag, and with none open there is no
      text and no nesting. */
  ghost predicate AnchorOk(st: AnchorState, events: seq<Event>) {
    (forall l :: l in st.links ==>
      l.href != "" && HasValue(l.attrs, "href") && l.href == l.attrs["href"] &&
      (l.text == "" || (!IsSpace(l.text[0]) && !IsSpace(l.text[|l.text| - 1]))) &&
      StartTag("a", l.attrs) in events) &&
    (st.current.Some? ==> HasValue(st.current.value, "href") && StartTag("a", st.current.value) in events) &&
    (st.current.None? ==> st.parts == [] && st.depth == 0)
  }

  lemma AnchorStepOk(st: AnchorState, events: seq<Event>, ev: Event)
    requires AnchorOk(st, events)
    ensures AnchorOk(AnchorStep(st, ev), events + [ev])
  {
    var next := AnchorStep(st, ev);
    var all := events + [ev];
    assert forall e :: e in events ==> e in all;
    match ev {
      case StartTag(tag, attrs) =>
        assert ev in all;
      case EndTag(tag) =>
        if st.current.Some? && tag == "a" && st.depth == 0 && HasValue(st.current.value, "href") {
          StripEdges(JoinWith(st.parts, ""));
        }
      case Data(text) =>
    }
  }

  lemma {:induction false} AnchorRunOk(events: seq<Event>)
    ensures AnchorOk(AnchorRun(events), events)
    decreases |events|
  {
    if events != [] {
      var n := |events| - 1;
      AnchorRunOk(events[..n]);
      AnchorStepOk(AnchorRun(events[..n]), events[..n], events[n]);
      assert events[..n] + [events[n]] == events;
    }
  }

  /** Every collected link has a non-empty target equal to the `href` of
      an anchor start tag of the page, and stripped text. */
  lemma AnchorLinksAreAnchors(events: seq<Event>, l: PaginationLink)
    requires l in AnchorRun(events).links
    ensures l.href != "" && HasValue(l.attrs, "href") && l.href == l.attrs["href"]
    ensures StartTag("a", l.attrs) in events
    ensures Strip(l.text) == l.text
  {
    AnchorRunOk(events);
    StripNoEdgeSpaceIsIdentity(l.text);
  }

  lemma AnchorRunSnoc(events: seq<Event>, ev: Event)
    ensures AnchorRun(events + [ev]) == AnchorStep(AnchorRun(events), ev)
  {
    assert (events + [ev])[..|events|] == events;
  }

  /** A plain anchor yields one link whose text is its stripped content. */
  lemma PlainAnchor(attrs: Attrs, text: string)
    requires HasValue(attrs, "href") && text != ""
    ensures AnchorRun([StartTag("a", attrs), Data(text), EndTag("a")]).links ==
      [PaginationLink(attrs["href"], Strip(text), attrs)]
  {
    var e1 := [StartTag("a", attrs)];
    var e2 := e1 + [Data(text)];
    AnchorRunSnoc([], StartTag("a", attrs));
    assert [] + [StartTag("a", attrs)] == e1;
    AnchorRunSnoc(e1, Data(text));
    AnchorRunSnoc(e2, EndTag("a"));
    assert AnchorRun(e2) == AnchorState([], Some(attrs), [text], 0);
    assert e2 + [EndTag("a")] == [StartTag("a", attrs), Data(text), EndTag("a")];
    assert JoinWith([text], "") == text;
  }

  /** A tag nested in an anchor does not close it: the anchor's own `</a>`
      does, with the text from both sides of the nested tag. */
  lemma NestedTagInAnchor(attrs: Attrs, tag: string, a: string, b: string)
    requires HasValue(attrs, "href") && tag != "a" && a != "" && b != ""
    ensures AnchorRun([StartTag("a", attrs), Data(a), StartTag(tag, map[]), EndTag(tag), Data(b), EndTag("a")]).links ==
      [PaginationLink(attrs["href"], Strip(a + b), attrs)]
  {
    var e5 := [StartTag("a", attrs), Data(a), StartTag(tag, map[]), EndTag(tag), Data(b)];
    NestedTagPrefix(attrs, tag, a, b);
    AnchorRunSnoc(e5, EndTag("a"));
    assert JoinWith([a, b], "") == a + b;
    assert e5 + [EndTag("a")] == [StartTag("a", attrs), Data(a), StartTag(tag, map[]), EndTag(tag), Data(b), EndTag("a")];
  }

  /** Up to the anchor's own end tag, the nested element only goes one
      level deeper and back. */
  lemma NestedTagPrefix(attrs: Attrs, tag: string, a: string, b: string)
    requires HasValue(attrs, "href") && tag != "a" && a != "" && b != ""
    ensures AnchorRun([StartTag("a", attrs), Data(a), StartTag(tag, map[]), EndTag(tag), Data(b)]) ==
      AnchorState([], Some(attrs), [a, b], 0)
  {
    var e1 := [StartTag("a", attrs)];
    var e2 := e1 + [Data(a)];
    var e3 := e2 + [StartTag(tag, map[])];
    var e4 := e3 + [EndTag(tag)];
    assert AnchorRun(e1) == AnchorState([], Some(attrs), [], 0) by {
      AnchorRunSnoc([], StartTag("a", attrs));
      assert [] + [StartTag("a", attrs)] == e1;
    }
    assert AnchorRun(e2) == AnchorState([], Some(attrs), [a], 0) by {
      AnchorRunSnoc(e1, Data(a));
    }
    assert AnchorRun(e3) == AnchorState([], Some(attrs), [a], 1) by {
      AnchorRunSnoc(e2, StartTag(tag, map[]));
    }
    assert AnchorRun(e4) == AnchorState([], Some(attrs), [a], 0) by {
      AnchorRunSnoc(e3, EndTag(tag));
    }
    AnchorRunSnoc(e4, Data(b));
    assert e4 + [Data(b)] == [StartTag("a", attrs), Data(a), StartTag(tag, map[]), EndTag(tag), Data(b)];
  }

  /** `_PaginationLinkParser`, fed one event at a time. */
  class PaginationLinkParser {
    var links: seq<PaginationLink>
    var currentAttrs: Option<Attrs>
    var currentTextParts: seq<string>
    var nestedDepth: nat

    function Model(): AnchorState
      reads this
    {
      AnchorState(links, currentAttrs, currentTextParts, nestedDepth)
    }

    constructor ()
      ensures Model() == AnchorInitial
    {
      links := [];
      currentAttrs := None;
      currentTextParts := [];
      nestedDepth := 0;
    }

    /** `handle_starttag`. */
    method HandleStartTag(tag: string, attrs: Attrs)
      modifies this
      ensures Model() == AnchorStart(old(Model()), tag, attrs)
    {
      if tag == "a" {
        if !HasValue(attrs, "href") {
          currentAttrs, currentTextParts, nestedDepth := None, [], 0;
          return;
        }
        currentAttrs, currentTextParts, nestedDepth := Some(attrs), [], 0;
      } else if currentAttrs.Some? {
        nestedDepth := nestedDepth + 1;
      }
    }

    /** `handle_endtag`. */
    method HandleEndTag(tag: string)
      modifies this
      ensures Model() == AnchorEnd(old(Model()), tag)
    {
      if currentAttrs.None? {
        return;
      }
      if tag == "a" && nestedDepth == 0 {
        var attrs := currentAttrs.value;
        if HasValue(attrs, "href") {
          var text := Strip(JoinWith(currentTextParts, ""));
          links := links + [PaginationLink(attrs["href"], text, attrs)];
        }
        currentAttrs, currentTextParts := None, [];
      } else if nestedDepth > 0 {
        nestedDepth := nestedDepth - 1;
      }
    }

    /** `handle_data`. */
    method HandleData(data: string)
      modifies this
      ensures Model() == AnchorData(old(Model()), data)
    {
      if currentAttrs.Some? && data != "" {
        currentTextParts := currentTextParts + [data];
      }
    }

    method Feed(ev: Event)
      modifies this
      ensures Model() == AnchorStep(old(Model()), ev)
    {
      match ev {
        case StartTag(tag, attrs) => HandleStartTag(tag, attrs);
        case EndTag(tag) => HandleEndTag(tag);
        case Data(text) => HandleData(text);
      }
    }
  }

  /** `parser.feed(html_text)` followed by `parser.links`. */
  method CollectLinks(events: seq<Event>) returns (links: seq<PaginationLink>)
    ensures links == AnchorRun(events).links
  {
    var parser := new PaginationLinkParser();
    for n := 0 to |events|
      invariant parser.Model() == AnchorRun(events[..n])
    {
      assert events[..n + 1][..n] == events[..n];
      parser.Feed(events[n]);
    }
    assert events[..|events|] == events;
    links := parser.links;
  }

  // ---------------------------------------------------------------------
  // Normal form of a URL

  /** The components `_normalize_url` keeps: no fragment, and `/` for an
      empty path. */
  function Normalized(u: Url): Url {
    u.(path := if u.path == "" then "/" else u.path, fragment := "")
  }

  /** `_normalize_url`. */
  function NormalizeUrl(url: string): string {
    Unsplit(Normalized(Split(url)))
  }

  /** For a URL with a network location, the normal form splits into the
      URL's own components without fragment and with a non-empty path. */
  lemma NormalizeUrlSpec(url: string)
    requires Split(url).netloc != ""
    ensures Split(NormalizeUrl(url)) == Normalized(Split(url))
    ensures Split(NormalizeUrl(url)).fragment == "" && Split(NormalizeUrl(url)).path != ""
  {
    SplitIsWellFormed(url);
    SplitUnsplit(Normalized(Split(url)));
  }

  /** Normalising twice is normalising once. */
  lemma NormalizeUrlIdempotent(url: string)
    requires Split(url).netloc != ""
    ensures NormalizeUrl(NormalizeUrl(url)) == NormalizeUrl(url)
  {
    NormalizeUrlSpec(url);
  }

  /** Two URLs that differ only in their fragment have the same normal form. */
  lemma NormalizeIgnoresFragment(u: Url, fragment: string)
    requires WellFormed(u) && u.netloc != "" && '#' !in fragment
    ensures NormalizeUrl(Unsplit(u)) == NormalizeUrl(Unsplit(u.(fragment := fragment)))
  {
    SplitUnsplit(u);
    SplitUnsplit(u.(fragment := fragment));
  }

  // ---------------------------------------------------------------------
  // The pagination heuristic

  /** `_PAGINATION_TEXT_HINTS`. */
  predicate IsTextHint(t: string) {
    t in {"next", "next page", "следующая", "следующая страница", "след.", "weiter", "suivant", "далі"}
  }

  /** `_PAGINATION_ARROW_TEXTS`. */
  predicate IsArrowText(t: string) {
    t in {">", "»", "›", "→"}
  }

  /** `_PAGINATION_HREF_HINTS`. */
  const HrefHints: seq<string> := ["page=", "paged=", "pagination", "per_page=", "p=", "offset=", "start=", "page/"]

  /** Some marker of `markers` occurs in `s`. */
  predicate AnyContained(s: string, markers: seq<string>)
    decreases |markers|
  {
    markers != [] && (Contains(s, markers[0]) || AnyContained(s, markers[1..]))
  }

  lemma AnyContainedMeaning(s: string, markers: seq<string>)
    ensures AnyContained(s, markers) <==> exists i :: 0 <= i < |markers| && Contains(s, markers[i])
    decreases |markers|
  {
    if markers != [] {
      AnyContainedMeaning(s, markers[1..]);
      if AnyContained(s, markers[1..]) {
        var i :| 0 <= i < |markers[1..]| && Contains(s, markers[1..][i]);
        assert markers[i + 1] == markers[1..][i];
      }
      if exists i :: 0 <= i < |markers| && Contains(s, markers[i]) {
        var i :| 0 <= i < |markers| && Contains(s, markers[i]);
        if i > 0 {
          assert markers[1..][i - 1] == markers[i];
        }
      }
    }
  }

  /** The lower-cased `rel`, `class`, `aria-label` and `title`, joined by spaces. */
  function AttrText(attrs: Attrs): string {
    LowerStr(JoinWith([GetOrEmpty(attrs, "rel"), GetOrEmpty(attrs, "class"),
      GetOrEmpty(attrs, "aria-label"), GetOrEmpty(attrs, "title")], " "))
  }

  /** `s.replace(c, "")`. */
  function RemoveChar(s: string, c: char): (r: string)
    ensures c !in r
    ensures forall x :: x in r ==> x in s
    decreases |s|
  {
    if s == [] then []
    else if s[0] == c then RemoveChar(s[1..], c)
    else [s[0]] + RemoveChar(s[1..], c)
  }

  /** `s.isdigit()`. */
  predicate IsDigits(s: string) {
    s != [] && forall i :: 0 <= i < |s| ==> IsDigit(s[i])
  }

  /** `[segment for segment in parts if segment]`. */
  function NonEmpty(parts: seq<string>): (r: seq<string>)
    ensures forall p :: p in r ==> p != "" && p in parts
    decreases |parts|
  {
    if parts == [] then []
    else if parts[0] == "" then NonEmpty(parts[1..])
    else [parts[0]] + NonEmpty(parts[1..])
  }

  /** Some path segment starts with `page`, ignoring case. */
  predicate HasPageSegment(path: string) {
    exists p :: p in NonEmpty(SplitOn(path, '/')) && StartsWith(LowerStr(p), "page")
  }

  /** The value `parse_qs` keeps from one `name=value` field: present only
      when the field has an `=` and something after it. */
  function FieldValue(field: string): (r: Option<string>)
    ensures r.Some? ==> r.value != ""
  {
    if '=' !in field then None
    else
      var v := field[IndexOfChar(field, '=') + 1..];
      if v == "" then None else Some(v)
  }

  /** Some value `parse_qs(query)` yields is all digits. */
  predicate HasDigitValue(query: string) {
    exists field :: field in SplitOn(query, '&') && FieldValue(field).Some? && IsDigits(FieldValue(field).value)
  }

  /** `_looks_like_pagination_link`, its tests in the source's order. */
  predicate LooksLikePaginationLink(link: PaginationLink, absoluteUrl: string) {
    var textLower := LowerStr(Strip(link.text));
    var attrsLower := AttrText(link.attrs);
    var hrefLower := LowerStr(link.href);
    if IsTextHint(textLower) then true
    else if IsArrowText(textLower) &&
      (Contains(attrsLower, "next") || Contains(attrsLower, "page") || Contains(attrsLower, "pagination")) then true
    else if AnyContained(hrefLower, HrefHints) then true
    else if Contains(attrsLower, "next") then true
    else if IsDigits(RemoveChar(textLower, ' ')) then
      var parsed := Split(absoluteUrl);
      AnyContained(hrefLower, HrefHints) ||
      Contains(attrsLower, "page") || Contains(attrsLower, "pagination") ||
      HasPageSegment(parsed.path) || HasDigitValue(parsed.query)
    else false
  }

  /** A link whose text is one of the hint words is a pagination link. */
  lemma TextHintSuffices(link: PaginationLink, absoluteUrl: string)
    requires IsTextHint(LowerStr(Strip(link.text)))
    ensures LooksLikePaginationLink(link, absoluteUrl)
  {
  }

  /** A link whose target carries one of the query or path markers is a
      pagination link, whatever its text. */
  lemma HrefHintSuffices(link: PaginationLink, absoluteUrl: string, i: nat)
    requires i < |HrefHints| && Contains(LowerStr(link.href), HrefHints[i])
    ensures LooksLikePaginationLink(link, absoluteUrl)
  {
    AnyContainedMeaning(LowerStr(link.href), HrefHints);
  }

  /** "next" among the attribute words makes any link a pagination link. */
  lemma NextAttributeSuffices(link: PaginationLink, absoluteUrl: string)
    requires Contains(AttrText(link.attrs), "next")
    ensures LooksLikePaginationLink(link, absoluteUrl)
  {
  }

  /** No hint word and no arrow holds a digit, and no arrow is a hint word. */
  lemma HintsHoldNoDigit(t: string)
    ensures IsTextHint(t) || IsArrowText(t) ==> forall k :: 0 <= k < |t| ==> !IsDigit(t[k])
    ensures IsArrowText(t) ==> |t| == 1
    ensures IsTextHint(t) ==> |t| >= 4
  {
  }

  /** A text whose spaces removed leaves only digits holds a digit. */
  lemma DigitsHoldDigit(t: string) returns (k: nat)
    requires IsDigits(RemoveChar(t, ' '))
    ensures k < |t| && IsDigit(t[k])
  {
    var c := RemoveChar(t, ' ');
    assert c[0] in t;
    k :| 0 <= k < |t| && t[k] == c[0];
  }

  /** An arrow alone is not enough: without a pagination word among the
      attributes or a marker in the target, an arrow link is not a
      pagination link. */
  lemma ArrowNeedsHint(link: PaginationLink, absoluteUrl: string)
    requires IsArrowText(LowerStr(Strip(link.text)))
    requires !Contains(AttrText(link.attrs), "next") && !Contains(AttrText(link.attrs), "page")
    requires !Contains(AttrText(link.attrs), "pagination")
    requires forall i :: 0 <= i < |HrefHints| ==> !Contains(LowerStr(link.href), HrefHints[i])
    ensures !LooksLikePaginationLink(link, absoluteUrl)
  {
    var t := LowerStr(Strip(link.text));
    AnyContainedMeaning(LowerStr(link.href), HrefHints);
    HintsHoldNoDigit(t);
    assert !IsDigits(RemoveChar(t, ' ')) by {
      if IsDigits(RemoveChar(t, ' ')) {
        var k := DigitsHoldDigit(t);
        assert false;
      }
    }
  }

  /** An arrow with a pagination word among the attributes is a
      pagination link. */
  lemma ArrowWithHint(link: PaginationLink, absoluteUrl: string)
    requires IsArrowText(LowerStr(Strip(link.text)))
    requires Contains(AttrText(link.attrs), "page") || Contains(AttrText(link.attrs), "pagination")
    ensures LooksLikePaginationLink(link, absoluteUrl)
  {
  }

  /** A page number counts exactly when it has context: a marker in the
      target, `next`, `page` or `pagination` among the attributes, a `page…`
      path segment or an all-digit query value of the resolved URL. */
  lemma NumberNeedsContext(link: PaginationLink, absoluteUrl: string)
    requires IsDigits(RemoveChar(LowerStr(Strip(link.text)), ' '))
    ensures LooksLikePaginationLink(link, absoluteUrl) <==>
      AnyContained(LowerStr(link.href), HrefHints) ||
      Contains(AttrText(link.attrs), "next") || Contains(AttrText(link.attrs), "page") ||
      Contains(AttrText(link.attrs), "pagination") ||
      HasPageSegment(Split(absoluteUrl).path) || HasDigitValue(Split(absoluteUrl).query)
  {
    var t := LowerStr(Strip(link.text));
    var k := DigitsHoldDigit(t);
    HintsHoldNoDigit(t);
  }

  /** A link whose text is no hint word, no arrow and no number, with no
      marker in its target and no `next` among its attributes, is not a
      pagination link. */
  lemma OrdinaryLinkIsNot(link: PaginationLink, absoluteUrl: string)
    requires !IsTextHint(LowerStr(Strip(link.text))) && !IsArrowText(LowerStr(Strip(link.text)))
    requires !IsDigits(RemoveChar(LowerStr(Strip(link.text)), ' '))
    requires forall i :: 0 <= i < |HrefHints| ==> !Contains(LowerStr(link.href), HrefHints[i])
    requires !Contains(AttrText(link.attrs), "next")
    ensures !LooksLikePaginationLink(link, absoluteUrl)
  {
    AnyContainedMeaning(LowerStr(link.href), HrefHints);
  }

  // ---------------------------------------------------------------------
  // Discovering pagination URLs

  predicate IsHttp(scheme: string) {
    scheme == "http" || scheme == "https"
  }

  /** A target that names a script, a mail address or a phone number. */
  predicate IsNonPageTarget(hrefLower: string) {
    StartsWith(hrefLower, "javascript:") || StartsWith(hrefLower, "mailto:") || StartsWith(hrefLower, "tel:")
  }

  /** The filters `_discover_pagination_urls` applies to a link of the page
      at `pageUrl` before asking the heuristic: the normal form of the
      link's resolved target, when that is an http(s) URL on the same host
      and not the page itself. */
  function Resolve(link: PaginationLink, pageUrl: string, join: Join): Option<string> {
    var href := Strip(link.href);
    if href == "" || StartsWith(href, "#") then None
    else if IsNonPageTarget(LowerStr(href)) then None
    else
      var base := Split(pageUrl);
      var parsed0 := Split(join(pageUrl, href));
      if !IsHttp(parsed0.scheme) then None
      else if LowerStr(parsed0.netloc) != LowerStr(base.netloc) then None
      else
        var parsed := if parsed0.scheme == "" then parsed0.(scheme := base.scheme) else parsed0;
        var normalized := NormalizeUrl(Unsplit(parsed));
        if normalized == NormalizeUrl(pageUrl) then None else Some(normalized)
  }

  /** What one link contributes before duplicates are dropped: its
      resolved URL, when the link also looks like pagination. */
  function Candidate(link: PaginationLink, pageUrl: string, join: Join): Option<string> {
    match Resolve(link, pageUrl, join)
    case None => None
    case Some(u) => if LooksLikePaginationLink(link, u) then Some(u) else None
  }

  function Candidates(links: seq<PaginationLink>, pageUrl: string, join: Join): (cs: seq<Option<string>>)
    ensures |cs| == |links|
  {
    seq(|links|, k requires 0 <= k < |links| => Candidate(links[k], pageUrl, join))
  }

  /** The values present in `cs`, in order, each at its first occurrence. */
  function FirstOccurrences(cs: seq<Option<string>>): seq<string>
    decreases |cs|
  {
    if cs == [] then []
    else
      var init := FirstOccurrences(cs[..|cs| - 1]);
      var c := cs[|cs| - 1];
      if c.Some? && c.value !in init then init + [c.value] else init
  }

  /** The first occurrences are pairwise distinct, each is a value of `cs`,
      and every value of `cs` is among them. */
  lemma {:induction false} FirstOccurrencesSpec(cs: seq<Option<string>>)
    ensures forall i, j :: 0 <= i < j < |FirstOccurrences(cs)| ==> FirstOccurrences(cs)[i] != FirstOccurrences(cs)[j]
    ensures forall u :: u in FirstOccurrences(cs) ==> Some(u) in cs
    ensures forall k :: 0 <= k < |cs| && cs[k].Some? ==> cs[k].value in FirstOccurrences(cs)
    decreases |cs|
  {
    if cs != [] {
      var n := |cs| - 1;
      FirstOccurrencesSpec(cs[..n]);
      assert cs == cs[..n] + [cs[n]];
      forall k | 0 <= k < |cs| && cs[k].Some?
        ensures cs[k].value in FirstOccurrences(cs)
      {
        if k < n {
          assert cs[..n][k] == cs[k];
        }
      }
    }
  }

  /** `_discover_pagination_urls` on the links of a page. */
  function Discovered(links: seq<PaginationLink>, pageUrl: string, join: Join): seq<string> {
    FirstOccurrences(Candidates(links, pageUrl, join))
  }

  /** The discovered URLs are pairwise distinct, each is the candidate of
      some link, and every link's candidate is among them. */
  lemma DiscoveredSpec(links: seq<PaginationLink>, pageUrl: string, join: Join)
    ensures forall i, j :: 0 <= i < j < |Discovered(links, pageUrl, join)| ==>
      Discovered(links, pageUrl, join)[i] != Discovered(links, pageUrl, join)[j]
    ensures forall u :: u in Discovered(links, pageUrl, join) ==>
      exists k :: 0 <= k < |links| && Candidate(links[k], pageUrl, join) == Some(u)
    ensures forall k :: 0 <= k < |links| && Candidate(links[k], pageUrl, join).Some? ==>
      Candidate(links[k], pageUrl, join).value in Discovered(links, pageUrl, join)
  {
    FirstOccurrencesSpec(Candidates(links, pageUrl, join));
    DiscoveredSources(links, pageUrl, join);
    DiscoveredComplete(links, pageUrl, join);
  }

  lemma DiscoveredSources(links: seq<PaginationLink>, pageUrl: string, join: Join)
    ensures forall u :: u in Discovered(links, pageUrl, join) ==>
      exists k :: 0 <= k < |links| && Candidate(links[k], pageUrl, join) == Some(u)
  {
    var cs := Candidates(links, pageUrl, join);
    FirstOccurrencesSpec(cs);
    forall u | u in FirstOccurrences(cs)
      ensures exists k :: 0 <= k < |links| && Candidate(links[k], pageUrl, join) == Some(u)
    {
      var k :| 0 <= k < |cs| && cs[k] == Some(u);
      assert Candidate(links[k], pageUrl, join) == Some(u);
    }
  }

  lemma DiscoveredComplete(links: seq<PaginationLink>, pageUrl: string, join: Join)
    ensures forall k :: 0 <= k < |links| && Candidate(links[k], pageUrl, join).Some? ==>
      Candidate(links[k], pageUrl, join).value in Discovered(links, pageUrl, join)
  {
    var cs := Candidates(links, pageUrl, join);
    FirstOccurrencesSpec(cs);
    forall k | 0 <= k < |links| && Candidate(links[k], pageUrl, join).Some?
      ensures Candidate(links[k], pageUrl, join).value in FirstOccurrences(cs)
    {
      assert cs[k] == Candidate(links[k], pageUrl, join);
    }
  }

  /** A candidate is an http(s) URL on the page's host (ignoring case),
      without fragment, differing from the page, and comes from a link that
      looks like pagination and whose target is neither empty, nor a
      fragment, nor a script, mail or phone target. */
  lemma CandidateSpec(link: PaginationLink, pageUrl: string, join: Join, u: string)
    requires Candidate(link, pageUrl, join) == Some(u)
    requires Split(pageUrl).netloc != ""
    ensures IsHttp(Split(u).scheme)
    ensures LowerStr(Split(u).netloc) == LowerStr(Split(pageUrl).netloc)
    ensures Split(u).fragment == ""
    ensures u != NormalizeUrl(pageUrl)
    ensures LooksLikePaginationLink(link, u)
    ensures Strip(link.href) != "" && !StartsWith(Strip(link.href), "#")
    ensures !IsNonPageTarget(LowerStr(Strip(link.href)))
  {
    var href := Strip(link.href);
    var absolute := join(pageUrl, href);
    var parsed := Split(absolute);
    assert Resolve(link, pageUrl, join) == Some(u);
    assert |parsed.netloc| == |LowerStr(parsed.netloc)|;
    SplitIsWellFormed(absolute);
    SplitUnsplit(parsed);
    NormalizeUrlSpec(Unsplit(parsed));
  }

  /** The filtering steps of the loop of `_discover_pagination_urls`, up to
      the duplicate check. */
  method ResolveLink(link: PaginationLink, pageUrl: string, join: Join,
                     baseNetloc: string, baseScheme: string, baseNormalized: string)
    returns (r: Option<string>)
    requires baseNetloc == LowerStr(Split(pageUrl).netloc) && baseScheme == Split(pageUrl).scheme
    requires baseNormalized == NormalizeUrl(pageUrl)
    ensures r == Resolve(link, pageUrl, join)
  {
    var href := Strip(link.href);
    if href == "" || StartsWith(href, "#") {
      return None;
    }
    var hrefLower := LowerStr(href);
    if IsNonPageTarget(hrefLower) {
      return None;
    }
    var absolute := join(pageUrl, href);
    var parsed := Split(absolute);
    if !IsHttp(parsed.scheme) {
      return None;
    }
    if LowerStr(parsed.netloc) != baseNetloc {
      return None;
    }
    if parsed.scheme == "" {
      parsed := parsed.(scheme := baseScheme);
    }
    var normalized := NormalizeUrl(Unsplit(parsed));
    if normalized == baseNormalized {
      return None;
    }
    r := Some(normalized);
  }

  /** The loop of `_discover_pagination_urls` after `i` links: `seen`
      holds exactly the URLs discovered so far. */
  ghost predicate DiscoverProgress(cs: seq<Option<string>>, i: nat, discovered: seq<string>, seen: set<string>) {
    i <= |cs| && discovered == FirstOccurrences(cs[..i]) && (forall u :: u in seen <==> u in discovered)
  }

  lemma DiscoverSkip(cs: seq<Option<string>>, i: nat, discovered: seq<string>, seen: set<string>)
    requires DiscoverProgress(cs, i, discovered, seen) && i < |cs|
    requires cs[i].None? || cs[i].value in seen
    ensures DiscoverProgress(cs, i + 1, discovered, seen)
  {
    assert cs[..i + 1][..i] == cs[..i];
  }

  lemma DiscoverAdd(cs: seq<Option<string>>, i: nat, discovered: seq<string>, seen: set<string>, u: string)
    requires DiscoverProgress(cs, i, discovered, seen) && i < |cs|
    requires cs[i] == Some(u) && u !in seen
    ensures DiscoverProgress(cs, i + 1, discovered + [u], seen + {u})
  {
    assert cs[..i + 1][..i] == cs[..i];
  }

  /** One link of the loop of `_discover_pagination_urls`: resolved,
      then dropped if already discovered, then kept if it looks like a
      pagination link. */
  method DiscoverLink(ghost cs: seq<Option<string>>, ghost i: nat, link: PaginationLink, pageUrl: string, join: Join,
                      baseNetloc: string, baseScheme: string, baseNormalized: string,
                      discovered0: seq<string>, seen0: set<string>)
    returns (discovered: seq<string>, seen: set<string>)
    requires baseNetloc == LowerStr(Split(pageUrl).netloc) && baseScheme == Split(pageUrl).scheme
    requires baseNormalized == NormalizeUrl(pageUrl)
    requires DiscoverProgress(cs, i, discovered0, seen0) && i < |cs| && cs[i] == Candidate(link, pageUrl, join)
    ensures DiscoverProgress(cs, i + 1, discovered, seen)
  {
    discovered, seen := discovered0, seen0;
    var resolved := ResolveLink(link, pageUrl, join, baseNetloc, baseScheme, baseNormalized);
    if resolved.None? {
      DiscoverSkip(cs, i, discovered, seen);
      return;
    }
    var normalized := resolved.value;
    if normalized in seen {
      DiscoverSkip(cs, i, discovered, seen);
      return;
    }
    if !LooksLikePaginationLink(link, normalized) {
      DiscoverSkip(cs, i, discovered, seen);
      return;
    }
    DiscoverAdd(cs, i, discovered, seen, normalized);
    seen := seen + {normalized};
    discovered := discovered + [normalized];
  }

  /** `_discover_pagination_urls`, with `seen` holding what is already in
      `discovered`. */
  method DiscoverPaginationUrls(events: seq<Event>, pageUrl: string, join: Join)
    returns (discovered: seq<string>)
    ensures discovered == Discovered(AnchorRun(events).links, pageUrl, join)
  {
    var links := CollectLinks(events);
    var base := Split(pageUrl);
    var baseNetloc := LowerStr(base.netloc);
    var baseScheme := base.scheme;
    var baseNormalized := NormalizeUrl(pageUrl);
    discovered := DiscoverAmong(links, pageUrl, join, baseNetloc, baseScheme, baseNormalized);
  }

  /** The loop of `_discover_pagination_urls` over the page's links. */
  method DiscoverAmong(links: seq<PaginationLink>, pageUrl: string, join: Join,
                       baseNetloc: string, baseScheme: string, baseNormalized: string)
    returns (discovered: seq<string>)
    requires baseNetloc == LowerStr(Split(pageUrl).netloc) && baseScheme == Split(pageUrl).scheme
    requires baseNormalized == NormalizeUrl(pageUrl)
    ensures discovered == Discovered(links, pageUrl, join)
  {
    ghost var cs := Candidates(links, pageUrl, join);
    discovered := [];
    var seen: set<string> := {};
    for i := 0 to |links|
      invariant DiscoverProgress(cs, i, discovered, seen)
    {
      assert cs[i] == Candidate(links[i], pageUrl, join);
      discovered, seen := DiscoverLink(cs, i, links[i], pageUrl, join, baseNetloc, baseScheme, baseNormalized,
                                       discovered, seen);
    }
    assert cs[..|links|] == cs;
  }
}
