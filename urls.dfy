/** URL splitting and reassembly, after `urllib.parse`.

    `urljoin` is not written out: every caller receives it as a parameter
    `join: (base, reference) -> absolute`.  `urlsplit`, `urlunsplit`,
    `urlparse`, `urlunparse` and `urldefrag` follow CPython 3.11, except that
    the removal of leading control characters and embedded tabs/newlines and
    the IPv6 bracket validation are not modelled. */
module Urls {
  import opened Text

  /** The components of a URL; `params` is always empty for `urlsplit`. */
  datatype Url = Url(scheme: string, netloc: string, path: string, params: string,
                     query: string, fragment: string)

  predicate IsSchemeChar(c: char) {
    IsAsciiAlpha(c) || IsDigit(c) || c == '+' || c == '-' || c == '.'
  }

  /** Schemes for which `urlunsplit` writes `//` even with an empty netloc. */
  const UsesNetloc: set<string> := {
    "ftp", "http", "gopher", "nntp", "telnet", "imap", "wais", "file", "mms",
    "https", "shttp", "snews", "prospero", "rtsp", "rtspu", "rsync", "svn",
    "svn+ssh", "sftp", "nfs", "git", "git+ssh", "ws", "wss"
  }

  /** Schemes for which `urlparse` separates `;params` from the path. */
  const UsesParams: set<string> := {
    "", "ftp", "hdl", "prospero", "http", "imap", "https", "shttp", "rtsp",
    "rtspu", "sip", "sips", "mms", "sftp", "tel"
  }

  predicate IsNetlocDelimiter(c: char) {
    c == '/' || c == '?' || c == '#'
  }

  /** A scheme as `urlsplit` yields it: empty, or an ASCII letter followed by
      scheme characters, in lower case. */
  predicate ValidScheme(s: string) {
    s == [] ||
    (IsAsciiAlpha(s[0]) && forall i :: 0 <= i < |s| ==> IsSchemeChar(s[i]) && !('A' <= s[i] <= 'Z'))
  }

  /** The length of the scheme prefix before the first ':', if there is one. */
  function SchemeLength(url: string): (r: Option<nat>)
    ensures r.Some? ==> 0 < r.value < |url| && url[r.value] == ':' && ':' !in url[..r.value]
    ensures r.Some? ==> IsAsciiAlpha(url[0]) && forall i :: 0 <= i < r.value ==> IsSchemeChar(url[i])
  {
    if ':' !in url then None
    else
      var i := IndexOfChar(url, ':');
      if i > 0 && IsAsciiAlpha(url[0]) && (forall k :: 0 <= k < i ==> IsSchemeChar(url[k]))
      then Some(i) else None
  }

  /** The first position at or after `from` holding a netloc delimiter, or `|s|`. */
  function NetlocEnd(s: string, from: nat): (r: nat)
    requires from <= |s|
    ensures from <= r <= |s|
    ensures forall i :: from <= i < r ==> !IsNetlocDelimiter(s[i])
    ensures r < |s| ==> IsNetlocDelimiter(s[r])
    decreases |s| - from
  {
    if from == |s| || IsNetlocDelimiter(s[from]) then from else NetlocEnd(s, from + 1)
  }

  /** Splits off the text after the first `c`: `(before, after, found)`. */
  function SplitFirst(s: string, c: char): (r: (string, string))
    ensures c !in s ==> r == (s, "")
    ensures c in s ==> s == r.0 + [c] + r.1 && c !in r.0
  {
    if c !in s then (s, "")
    else
      var i := IndexOfChar(s, c);
      assert s == s[..i] + [c] + s[i + 1..];
      (s[..i], s[i + 1..])
  }

  /** The scheme (lower-cased) and the text after its ':'. */
  function SplitScheme(url: string): (string, string) {
    match SchemeLength(url)
    case Some(i) => (LowerStr(url[..i]), url[i + 1..])
    case None => ("", url)
  }

  /** The network location after a leading `//`, and the rest. */
  function SplitNetloc(rest: string): (r: (string, string))
    ensures r.0 + r.1 == rest || (StartsWith(rest, "//") && "//" + r.0 + r.1 == rest)
  {
    if StartsWith(rest, "//") then
      var e := NetlocEnd(rest, 2);
      assert rest == rest[..2] + rest[2..e] + rest[e..];
      (rest[2..e], rest[e..])
    else ("", rest)
  }

  /** Path, query and fragment of what follows the network location. */
  function SplitTail(rest: string): (string, string, string) {
    var (beforeHash, fragment) := SplitFirst(rest, '#');
    var (path, query) := SplitFirst(beforeHash, '?');
    (path, query, fragment)
  }

  /** `urlsplit(url)`. */
  function Split(url: string): (u: Url)
    ensures u.params == ""
  {
    var (scheme, rest) := SplitScheme(url);
    var (netloc, rest2) := SplitNetloc(rest);
    var (path, query, fragment) := SplitTail(rest2);
    Url(scheme, netloc, path, "", query, fragment)
  }

  /** The part of `urlunsplit` up to the end of the path. */
  function NetAndPath(u: Url): string {
    if u.netloc != "" || (u.scheme != "" && u.scheme in UsesNetloc && !StartsWith(u.path, "//")) then
      var p := if u.path != "" && u.path[0] != '/' then "/" + u.path else u.path;
      "//" + u.netloc + p
    else u.path
  }

  /** All text `urlunsplit` writes after the path. */
  function QueryAndFragment(u: Url): string {
    Marked('?', u.query) + Marked('#', u.fragment)
  }

  /** `mark + text` when `text` is non-empty, else nothing. */
  function Marked(mark: char, text: string): string {
    if text != "" then [mark] + text else ""
  }

  /** `urlunsplit((scheme, netloc, path, query, fragment))`. */
  function Unsplit(u: Url): string {
    (if u.scheme != "" then u.scheme + ":" else "") + NetAndPath(u) + QueryAndFragment(u)
  }

  /** `_splitparams`: the position of the ';' that starts the parameters. */
  function ParamsStart(path: string): (r: Option<nat>)
    ensures r.Some? ==> r.value < |path| && path[r.value] == ';' && '/' !in path[r.value..]
  {
    if '/' in path then
      var lastSlash := RFindChar(path, '/', |path|);
      var i := FindFrom(path, ";", lastSlash as nat);
      if i < 0 then None
      else
        assert path[i..i + 1] == ";";
        assert forall j :: i < j < |path| ==> path[j] != '/';
        Some(i as nat)
    else if ';' in path then Some(IndexOfChar(path, ';'))
    else None
  }

  /** `urlparse(url)`. */
  function Parse(url: string): (u: Url) {
    var s := Split(url);
    if s.scheme in UsesParams && ';' in s.path then
      match ParamsStart(s.path)
      case Some(i) => s.(path := s.path[..i], params := s.path[i + 1..])
      case None => s
    else s
  }

  /** `urlunparse(...)`, also `ParseResult.geturl()`. */
  function Unparse(u: Url): string {
    Unsplit(Rejoined(u))
  }

  /** The parts `urlunparse` hands on to `urlunsplit`: the parameters put
      back after the path. */
  function Rejoined(u: Url): Url {
    u.(path := if u.params != "" then u.path + ";" + u.params else u.path, params := "")
  }

  /** `urldefrag(url)[0]`: the URL without its fragment. */
  function Defrag(url: string): string {
    if '#' in url then Unparse(Parse(url).(fragment := "")) else url
  }

  // ---------------------------------------------------------------------
  // Properties

  /** What `Split` yields for a URL with a network location. */
  predicate WellFormed(u: Url) {
    ValidScheme(u.scheme) && u.params == "" &&
    (forall i :: 0 <= i < |u.netloc| ==> !IsNetlocDelimiter(u.netloc[i])) &&
    '?' !in u.path && '#' !in u.path && '#' !in u.query &&
    (u.path == "" || u.path[0] == '/')
  }

  lemma LowerStrOfSchemeIsValid(s: string)
    requires s != [] && IsAsciiAlpha(s[0]) && forall i :: 0 <= i < |s| ==> IsSchemeChar(s[i])
    ensures ValidScheme(LowerStr(s))
  {
    var l := LowerStr(s);
    forall i | 0 <= i < |l| ensures IsSchemeChar(l[i]) && !('A' <= l[i] <= 'Z') {
      assert l[i] == Lower(s[i]);
    }
  }

  lemma LowerStrOfLower(s: string)
    requires ValidScheme(s)
    ensures LowerStr(s) == s
  {
    var l := LowerStr(s);
    forall i | 0 <= i < |s| ensures l[i] == s[i] {
      assert l[i] == Lower(s[i]);
    }
  }

  lemma IndexOfCharFirst(s: string, c: char, i: nat)
    requires i < |s| && s[i] == c && c !in s[..i]
    ensures c in s && IndexOfChar(s, c) == i
  {
    assert s[i] in s;
  }

  lemma SplitFirstAt(s: string, c: char, a: string, b: string)
    requires s == a + [c] + b && c !in a
    ensures c in s && SplitFirst(s, c) == (a, b)
  {
    assert s[|a|] == c;
    assert s[..|a|] == a;
    IndexOfCharFirst(s, c, |a|);
  }

  lemma SplitFirstAbsent(s: string, c: char)
    requires c !in s
    ensures SplitFirst(s, c) == (s, "")
  {
  }

  /** Every URL with a network location splits into well-formed components. */
  lemma SplitIsWellFormed(url: string)
    requires Split(url).netloc != ""
    ensures WellFormed(Split(url))
  {
    var (scheme, rest) := SplitScheme(url);
    if SchemeLength(url).Some? {
      LowerStrOfSchemeIsValid(url[..SchemeLength(url).value]);
    }
    var (netloc, rest2) := SplitNetloc(rest);
    assert StartsWith(rest, "//");
    var e := NetlocEnd(rest, 2);
    assert rest2 == rest[e..];
    var beforeHash := SplitFirst(rest2, '#').0;
    assert beforeHash == [] || beforeHash[0] == rest2[0];
    var path := SplitFirst(beforeHash, '?').0;
    assert path == [] || path[0] == beforeHash[0];
  }

  /** What `Unsplit` writes after the network location. */
  function Tail(u: Url): string {
    u.path + QueryAndFragment(u)
  }

  lemma SplitFirstMarked(a: string, c: char, b: string)
    requires c !in a
    ensures SplitFirst(a + Marked(c, b), c) == (a, b)
  {
    if b != "" {
      SplitFirstAt(a + Marked(c, b), c, a, b);
    } else {
      assert a + Marked(c, b) == a;
    }
  }

  lemma SplitTailOfTail(u: Url)
    requires WellFormed(u)
    ensures SplitTail(Tail(u)) == (u.path, u.query, u.fragment)
  {
    var q := u.path + Marked('?', u.query);
    assert '#' !in Marked('?', u.query);
    assert '#' !in q;
    assert Tail(u) == q + Marked('#', u.fragment);
    SplitFirstMarked(q, '#', u.fragment);
    SplitFirstMarked(u.path, '?', u.query);
  }

  lemma NetlocEndAt(s: string, from: nat, k: nat)
    requires from <= k <= |s|
    requires forall i :: from <= i < k ==> !IsNetlocDelimiter(s[i])
    requires k == |s| || IsNetlocDelimiter(s[k])
    ensures NetlocEnd(s, from) == k
    decreases k - from
  {
    if from < k {
      NetlocEndAt(s, from + 1, k);
    }
  }

  lemma SplitNetlocOf(netloc: string, tail: string)
    requires forall i :: 0 <= i < |netloc| ==> !IsNetlocDelimiter(netloc[i])
    requires tail == "" || IsNetlocDelimiter(tail[0])
    ensures SplitNetloc("//" + netloc + tail) == (netloc, tail)
  {
    var rest := "//" + netloc + tail;
    assert forall i :: 2 <= i < 2 + |netloc| ==> rest[i] == netloc[i - 2];
    assert tail != "" ==> rest[2 + |netloc|] == tail[0];
    NetlocEndAt(rest, 2, 2 + |netloc|);
    assert rest[2..2 + |netloc|] == netloc;
    assert rest[2 + |netloc|..] == tail;
  }

  lemma SplitSchemeOf(scheme: string, rest: string)
    requires ValidScheme(scheme) && StartsWith(rest, "//")
    ensures SplitScheme((if scheme != "" then scheme + ":" else "") + rest) == (scheme, rest)
  {
    var s := (if scheme != "" then scheme + ":" else "") + rest;
    if scheme != "" {
      assert s[|scheme|] == ':';
      assert s[..|scheme|] == scheme;
      IndexOfCharFirst(s, ':', |scheme|);
      assert SchemeLength(s) == Some(|scheme|);
      assert s[|scheme| + 1..] == rest;
      LowerStrOfLower(scheme);
    } else {
      assert s == rest && rest[..2] == "//";
      assert s[0] == '/';
      assert SchemeLength(s) == None;
    }
  }

  lemma TailStart(u: Url)
    requires WellFormed(u)
    ensures Tail(u) == "" || IsNetlocDelimiter(Tail(u)[0])
  {
    if u.path == "" {
      assert Tail(u) == QueryAndFragment(u);
    } else {
      assert Tail(u)[0] == u.path[0];
    }
  }

  lemma UnsplitParts(u: Url)
    requires u.netloc != "" && (u.path == "" || u.path[0] == '/')
    ensures Unsplit(u) == (if u.scheme != "" then u.scheme + ":" else "") + ("//" + u.netloc + Tail(u))
  {
    var n := "//" + u.netloc;
    assert NetAndPath(u) == n + u.path;
    Associate(if u.scheme != "" then u.scheme + ":" else "", n, u.path, QueryAndFragment(u));
  }

  lemma Associate(a: string, b: string, c: string, d: string)
    ensures a + (b + c) + d == a + (b + (c + d))
  {
  }

  lemma SplitFromParts(url: string, u: Url, rest: string, tail: string)
    requires u.params == ""
    requires SplitScheme(url) == (u.scheme, rest)
    requires SplitNetloc(rest) == (u.netloc, tail)
    requires SplitTail(tail) == (u.path, u.query, u.fragment)
    ensures Split(url) == u
  {
  }

  /** Reassembling a well-formed URL with a network location and splitting
      it again gives back the same components. */
  lemma SplitUnsplit(u: Url)
    requires WellFormed(u) && u.netloc != ""
    ensures Split(Unsplit(u)) == u
  {
    var tail := Tail(u);
    var rest := "//" + u.netloc + tail;
    UnsplitParts(u);
    TailStart(u);
    SplitSchemeOf(u.scheme, rest);
    SplitNetlocOf(u.netloc, tail);
    SplitTailOfTail(u);
    SplitFromParts(Unsplit(u), u, rest, tail);
  }

  /** Putting the parameters of `urlparse` back gives the parts of
      `urlsplit` again, but for a trailing `;` with nothing after it. */
  lemma RejoinedParse(url: string)
    requires Split(url).netloc != ""
    ensures WellFormed(Rejoined(Parse(url)))
    ensures Rejoined(Parse(url)) == Split(url).(path := Rejoined(Parse(url)).path)
    ensures Rejoined(Parse(url)).path == Split(url).path ||
            Rejoined(Parse(url)).path + ";" == Split(url).path
  {
    var s := Split(url);
    var p := Parse(url);
    SplitIsWellFormed(url);
    if p != s {
      var i := ParamsStart(s.path).value;
      assert p == s.(path := s.path[..i], params := s.path[i + 1..]);
      RejoinParams(s, i);
    }
  }

  /** Splitting the path at its `;` and rejoining it. */
  lemma RejoinParams(s: Url, i: nat)
    requires WellFormed(s) && s.params == "" && i < |s.path| && s.path[i] == ';'
    ensures WellFormed(Rejoined(s.(path := s.path[..i], params := s.path[i + 1..])))
    ensures Rejoined(s.(path := s.path[..i], params := s.path[i + 1..])) ==
            s.(path := Rejoined(s.(path := s.path[..i], params := s.path[i + 1..])).path)
    ensures Rejoined(s.(path := s.path[..i], params := s.path[i + 1..])).path == s.path ||
            Rejoined(s.(path := s.path[..i], params := s.path[i + 1..])).path + ";" == s.path
  {
    if s.path[i + 1..] != "" {
      ParamsRejoin(s.path, i);
    } else {
      TrimmedPath(s, i);
      assert s.path[..i] + ";" == s.path[..i + 1] == s.path;
    }
  }

  lemma ParamsRejoin(path: string, i: nat)
    requires i < |path| && path[i] == ';'
    ensures path[..i] + ";" + path[i + 1..] == path
  {
  }

  lemma TrimmedPath(u: Url, i: nat)
    requires WellFormed(u) && i <= |u.path|
    ensures WellFormed(u.(path := u.path[..i]))
  {
    assert forall c :: c in u.path[..i] ==> c in u.path;
  }

  /** `urlparse` followed by `geturl()` keeps the scheme, the network
      location, the query and the fragment of a URL with a network location. */
  lemma UnparseParse(url: string)
    requires Split(url).netloc != ""
    ensures Split(Unparse(Parse(url))).scheme == Split(url).scheme
    ensures Split(Unparse(Parse(url))).netloc == Split(url).netloc
    ensures Split(Unparse(Parse(url))).query == Split(url).query
    ensures Split(Unparse(Parse(url))).fragment == Split(url).fragment
  {
    RejoinedParse(url);
    SplitUnsplit(Rejoined(Parse(url)));
  }
}
