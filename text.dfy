/** Character classes and string helpers shared by the extractors.

    Python's Unicode tables are larger than what is written here: `IsSpace`
    is exactly `str.isspace`, while `IsDigit`, `IsAlpha` and `Lower` (used for
    `casefold`, `lower` and case-insensitive regex matching) cover ASCII,
    Latin-1 and the basic Cyrillic block, which is what the catalog pages use. */
module Text {

  datatype Option<T> = None | Some(value: T)

  datatype Result<T> = Ok(value: T) | Err(message: string)

  // ---------------------------------------------------------------------
  // Character classes

  /** Exactly the characters for which Python's `str.isspace` holds (and
      which the regex class `\s` matches in a `str` pattern). */
  predicate IsSpace(c: char) {
    c == ' ' || ('\t' <= c <= '\r') || ('\U{1C}' <= c <= '\U{1F}') ||
    c == '\U{85}' || c == '\U{A0}' || c == '\U{1680}' ||
    ('\U{2000}' <= c <= '\U{200A}') || c == '\U{2028}' || c == '\U{2029}' ||
    c == '\U{202F}' || c == '\U{205F}' || c == '\U{3000}'
  }

  predicate IsDigit(c: char) {
    '0' <= c <= '9'
  }

  predicate IsAsciiAlpha(c: char) {
    'a' <= c <= 'z' || 'A' <= c <= 'Z'
  }

  predicate IsAlpha(c: char) {
    IsAsciiAlpha(c) ||
    c == '\U{AA}' || c == '\U{B5}' || c == '\U{BA}' ||
    ('\U{C0}' <= c <= '\U{FF}' && c != '\U{D7}' && c != '\U{F7}') ||
    ('\U{400}' <= c <= '\U{481}') || ('\U{48A}' <= c <= '\U{52F}')
  }

  /** Regex word characters, as used by `\b`. */
  predicate IsWordChar(c: char) {
    IsAlpha(c) || IsDigit(c) || c == '_'
  }

  /** Lower-case mapping of one character. */
  function Lower(c: char): (r: char)
    ensures IsAlpha(c) <==> IsAlpha(r)
    ensures IsDigit(r) <==> IsDigit(c)
    ensures IsSpace(r) <==> IsSpace(c)
  {
    if 'A' <= c <= 'Z' then (c as int + 32) as char
    else if '\U{C0}' <= c <= '\U{DE}' && c != '\U{D7}' then (c as int + 32) as char
    else if '\U{410}' <= c <= '\U{42F}' then (c as int + 32) as char
    else if '\U{400}' <= c <= '\U{40F}' then (c as int + 80) as char
    else if c == '\U{490}' then '\U{491}'
    else c
  }

  /** ASCII lower-casing, the model of IGNORECASE matching against an
      ASCII literal.  Python also folds U+017F to `s` and U+212A to `k`;
      those two are not modelled. */
  function AsciiLower(c: char): char {
    if 'A' <= c <= 'Z' then (c as int + 32) as char else c
  }

  function LowerStr(s: string): (r: string)
    ensures |r| == |s|
    ensures forall i :: 0 <= i < |s| ==> r[i] == Lower(s[i])
  {
    seq(|s|, i requires 0 <= i < |s| => Lower(s[i]))
  }

  // ---------------------------------------------------------------------
  // Prefixes, substrings and searching

  predicate StartsWith(s: string, prefix: string) {
    |prefix| <= |s| && s[..|prefix|] == prefix
  }

  predicate EndsWith(s: string, suffix: string) {
    |suffix| <= |s| && s[|s| - |suffix|..] == suffix
  }

  /** `sub` occurs in `s` at position `i`. */
  predicate IsAt(s: string, sub: string, i: int) {
    0 <= i && i + |sub| <= |s| && s[i..i + |sub|] == sub
  }

  /** Python's `sub in s`. */
  predicate Contains(s: string, sub: string) {
    exists i :: 0 <= i <= |s| && IsAt(s, sub, i)
  }

  /** Python's `s.find(sub, start)`: the least position at or after `start`
      where `sub` occurs, or -1. */
  function FindFrom(s: string, sub: string, start: nat): (r: int)
    decreases |s| + 1 - start
    ensures r == -1 || (start <= r && IsAt(s, sub, r))
    ensures r == -1 ==> forall i :: start <= i ==> !IsAt(s, sub, i)
    ensures r != -1 ==> forall i :: start <= i < r ==> !IsAt(s, sub, i)
  {
    if start + |sub| > |s| then -1
    else if s[start..start + |sub|] == sub then start
    else FindFrom(s, sub, start + 1)
  }

  lemma FindFromFindsContained(s: string, sub: string)
    ensures Contains(s, sub) <==> FindFrom(s, sub, 0) != -1
  {
    if Contains(s, sub) {
      var i :| 0 <= i <= |s| && IsAt(s, sub, i);
    }
  }

  /** Python's `s.rfind(c, 0, end)` for a one-character needle: the greatest
      position below `end` (clamped to `|s|`) holding `c`, or -1. */
  function RFindChar(s: string, c: char, end: nat): (r: int)
    ensures -1 <= r < end && r < |s|
    ensures r != -1 ==> s[r] == c
    ensures forall j :: r < j < end && j < |s| ==> s[j] != c
  {
    if end > |s| then RFindChar(s, c, |s|)
    else if end == 0 then -1
    else if s[end - 1] == c then end - 1
    else RFindChar(s, c, end - 1)
  }

  // ---------------------------------------------------------------------
  // Stripping

  /** The length of the leading whitespace run. */
  function LeadingSpaces(s: string): (n: nat)
    ensures n <= |s|
  {
    if s == [] || !IsSpace(s[0]) then 0 else 1 + LeadingSpaces(s[1..])
  }

  /** The leading run is whitespace and ends at a non-space. */
  lemma {:induction false} LeadingSpacesRun(s: string)
    ensures forall i :: 0 <= i < LeadingSpaces(s) ==> IsSpace(s[i])
    ensures LeadingSpaces(s) == |s| || !IsSpace(s[LeadingSpaces(s)])
    decreases |s|
  {
    if s != [] && IsSpace(s[0]) {
      LeadingSpacesRun(s[1..]);
      assert forall i :: 1 <= i < LeadingSpaces(s) ==> s[i] == s[1..][i - 1];
    }
  }

  /** The length of the trailing whitespace run. */
  function TrailingSpaces(s: string): (n: nat)
    ensures n <= |s|
  {
    if s == [] || !IsSpace(s[|s| - 1]) then 0 else 1 + TrailingSpaces(s[..|s| - 1])
  }

  /** The trailing run is whitespace and starts after a non-space. */
  lemma {:induction false} TrailingSpacesRun(s: string)
    ensures forall i :: |s| - TrailingSpaces(s) <= i < |s| ==> IsSpace(s[i])
    ensures TrailingSpaces(s) == |s| || !IsSpace(s[|s| - TrailingSpaces(s) - 1])
    decreases |s|
  {
    if s != [] && IsSpace(s[|s| - 1]) {
      TrailingSpacesRun(s[..|s| - 1]);
      assert forall i :: 0 <= i < |s| - 1 ==> s[i] == s[..|s| - 1][i];
    }
  }

  /** Python's `s.lstrip()`. */
  function LStripSpace(s: string): string {
    s[LeadingSpaces(s)..]
  }

  /** Python's `s.rstrip()`. */
  function RStripSpace(s: string): string {
    s[..|s| - TrailingSpaces(s)]
  }

  /** Python's `s.strip()`. */
  function Strip(s: string): (r: string)
    ensures |r| <= |s|
  {
    RStripSpace(LStripSpace(s))
  }

  /** A stripped text neither starts nor ends with whitespace. */
  lemma StripEdges(s: string)
    ensures Strip(s) == [] || (!IsSpace(Strip(s)[0]) && !IsSpace(Strip(s)[|Strip(s)| - 1]))
  {
    var l := LStripSpace(s);
    LeadingSpacesRun(s);
    TrailingSpacesRun(l);
    if Strip(s) != [] {
      assert Strip(s)[0] == l[0] == s[LeadingSpaces(s)];
    }
  }

  lemma StripNoEdgeSpaceIsIdentity(s: string)
    requires s == [] || (!IsSpace(s[0]) && !IsSpace(s[|s| - 1]))
    ensures Strip(s) == s
  {
  }

  /** Leading whitespace of a concatenation: it runs into `b` only when
      `a` is all whitespace. */
  lemma {:induction false} LeadingSpacesConcat(a: string, b: string)
    ensures LeadingSpaces(a + b) ==
      if LeadingSpaces(a) < |a| then LeadingSpaces(a) else |a| + LeadingSpaces(b)
    decreases |a|
  {
    if a == [] {
      assert a + b == b;
    } else {
      assert (a + b)[1..] == a[1..] + b;
      if IsSpace(a[0]) {
        LeadingSpacesConcat(a[1..], b);
      }
    }
  }

  /** Trailing whitespace of a concatenation: it runs into `a` only when
      `b` is all whitespace. */
  lemma {:induction false} TrailingSpacesConcat(a: string, b: string)
    ensures TrailingSpaces(a + b) ==
      if TrailingSpaces(b) < |b| then TrailingSpaces(b) else |b| + TrailingSpaces(a)
    decreases |b|
  {
    if b == [] {
      assert a + b == a;
    } else {
      var n := |a + b|;
      assert (a + b)[..n - 1] == a + b[..|b| - 1];
      if IsSpace(b[|b| - 1]) {
        TrailingSpacesConcat(a, b[..|b| - 1]);
      }
    }
  }

  // ---------------------------------------------------------------------
  // Whitespace collapsing and entity decoding

  /** Python's `re.sub(r"\s+", " ", s)`: every maximal whitespace run
      becomes one space. */
  function CollapseSpace(s: string): (r: string)
    ensures SingleSpaced(r)
    ensures |r| <= |s|
    ensures (r == []) == (s == [])
    ensures s != [] ==> (IsSpace(r[0]) <==> IsSpace(s[0]))
    decreases |s|
  {
    if s == [] then []
    else if IsSpace(s[0]) then
      var rest := LStripSpace(s);
      LeadingSpacesRun(s);
      assert |rest| < |s|;
      [' '] + CollapseSpace(rest)
    else [s[0]] + CollapseSpace(s[1..])
  }

  /** The character references decoded by the model of `html.unescape`. */
  const Entities: seq<(string, char)> := [
    ("&amp;", '&'), ("&lt;", '<'), ("&gt;", '>'), ("&quot;", '"'),
    ("&#39;", '\''), ("&apos;", '\''), ("&nbsp;", '\U{A0}'), ("&#160;", '\U{A0}')
  ]

  /** Index of the first entity of `Entities` that `s` starts with. */
  function EntityAt(s: string, k: nat): (r: Option<nat>)
    requires k <= |Entities|
    ensures r.Some? ==> k <= r.value < |Entities| && StartsWith(s, Entities[r.value].0)
    decreases |Entities| - k
  {
    if k == |Entities| then None
    else if StartsWith(s, Entities[k].0) then Some(k)
    else EntityAt(s, k + 1)
  }

  /** Model of `html.unescape` over the table `Entities`. */
  function Unescape(s: string): (r: string)
    ensures |r| <= |s|
    ensures (forall i :: 0 <= i < |s| ==> s[i] != '&') ==> r == s
  {
    if s == [] then []
    else if s[0] == '&' then
      match EntityAt(s, 0)
      case Some(k) => [Entities[k].1] + Unescape(s[|Entities[k].0|..])
      case None => [s[0]] + Unescape(s[1..])
    else [s[0]] + Unescape(s[1..])
  }

  /** `_normalize_text` of knbk.py: unescape, collapse whitespace, trim. */
  function NormalizeText(s: string): (r: string)
    ensures r == [] || (!IsSpace(r[0]) && !IsSpace(r[|r| - 1]))
    ensures SingleSpaced(r)
  {
    var c := CollapseSpace(Unescape(s));
    var l := LStripSpace(c);
    var r := RStripSpace(l);
    SingleSpacedSlice(c, |c| - |l|, |c|);
    SingleSpacedSlice(l, 0, |r|);
    StripEdges(c);
    r
  }

  /** Every whitespace character of `s` is the plain space, and no two
      whitespace characters are adjacent: what `re.sub(r"\s+", " ", …)`
      leaves. */
  predicate SingleSpaced(s: string) {
    forall i :: 0 <= i < |s| && IsSpace(s[i]) ==> s[i] == ' ' && (i + 1 < |s| ==> !IsSpace(s[i + 1]))
  }

  lemma SingleSpacedSlice(s: string, a: nat, b: nat)
    requires a <= b <= |s| && SingleSpaced(s)
    ensures SingleSpaced(s[a..b])
  {
    forall i | 0 <= i < b - a && IsSpace(s[a..b][i])
      ensures s[a..b][i] == ' ' && (i + 1 < b - a ==> !IsSpace(s[a..b][i + 1]))
    {
      assert s[a..b][i] == s[a + i];
      if i + 1 < b - a {
        assert s[a..b][i + 1] == s[a + i + 1];
      }
    }
  }

  // ---------------------------------------------------------------------
  // Splitting and joining

  /** A non-empty run of non-whitespace characters. */
  predicate IsWord(w: string) {
    w != [] && forall i :: 0 <= i < |w| ==> !IsSpace(w[i])
  }

  /** `[part for part in re.split(r"\s+", s) if part]`: the whitespace-separated words. */
  function Words(s: string): (r: seq<string>)
    ensures forall w :: w in r ==> IsWord(w)
    decreases |s|
  {
    var t := LStripSpace(s);
    LeadingSpacesRun(s);
    if t == [] then []
    else
      var w := FirstWord(t);
      var rest := Words(t[|w|..]);
      assert IsWord(w);
      [w] + rest
  }

  /** The longest non-whitespace prefix; non-empty when `s` starts with a non-space. */
  function FirstWord(s: string): (w: string)
    ensures |w| <= |s| && w == s[..|w|]
    ensures forall i :: 0 <= i < |w| ==> !IsSpace(s[i])
    ensures |w| < |s| ==> IsSpace(s[|w|])
    ensures s != [] && !IsSpace(s[0]) ==> w != []
  {
    if s == [] || IsSpace(s[0]) then [] else [s[0]] + FirstWord(s[1..])
  }

  /** Python's `s.split(sep)` for a one-character separator. */
  function SplitOn(s: string, sep: char): (r: seq<string>)
    ensures |r| >= 1
    ensures forall part :: part in r ==> sep !in part
    decreases |s|
  {
    if sep !in s then [s]
    else
      var i := IndexOfChar(s, sep);
      [s[..i]] + SplitOn(s[i + 1..], sep)
  }

  /** The first position of `c` in `s`. */
  function IndexOfChar(s: string, c: char): (i: nat)
    requires c in s
    ensures i < |s| && s[i] == c && c !in s[..i]
  {
    if s[0] == c then 0 else 1 + IndexOfChar(s[1..], c)
  }

  /** Python's `sep.join(parts)`. */
  function JoinWith(parts: seq<string>, sep: string): string
    decreases |parts|
  {
    if parts == [] then []
    else if |parts| == 1 then parts[0]
    else parts[0] + sep + JoinWith(parts[1..], sep)
  }

  // ---------------------------------------------------------------------
  // Decimal rendering

  function DigitChar(d: nat): (c: char)
    requires d < 10
    ensures IsDigit(c)
  {
    ('0' as int + d) as char
  }

  /** Python's `str(n)` for a non-negative integer. */
  function NatToString(n: nat): (r: string)
    ensures r != [] && forall i :: 0 <= i < |r| ==> IsDigit(r[i])
  {
    if n < 10 then [DigitChar(n)] else NatToString(n / 10) + [DigitChar(n % 10)]
  }

  /** Python's `str(n)`. */
  function IntToString(n: int): (r: string)
    ensures r != []
  {
    if n < 0 then "-" + NatToString(-n) else NatToString(n)
  }
}
