/** Description candidates in the generic price extractor of
    pricing_scrapper/scraper.py: stripping separators and shop-interface
    noise ("buy", "in stock", ...) from the front of a text, deciding
    whether a text is a usable description, and scoring it. */
module Candidates {
  import opened Text

  // ---------------------------------------------------------------------
  // Separators

  /** The characters of `" \t\r\n-–—:;|•·,/"`. */
  predicate IsSeparator(c: char) {
    c == ' ' || c == '\t' || c == '\r' || c == '\n' || c == '-' ||
    c == '\U{2013}' || c == '\U{2014}' || c == ':' || c == ';' || c == '|' ||
    c == '\U{2022}' || c == '\U{B7}' || c == ',' || c == '/'
  }

  /** The length of the leading run of separators. */
  function LeadingSeparators(s: string): (n: nat)
    ensures n <= |s|
  {
    if s == [] || !IsSeparator(s[0]) then 0 else 1 + LeadingSeparators(s[1..])
  }

  /** The length of the trailing run of separators. */
  function TrailingSeparators(s: string): (n: nat)
    ensures n <= |s|
  {
    if s == [] || !IsSeparator(s[|s| - 1]) then 0 else 1 + TrailingSeparators(s[..|s| - 1])
  }

  /** `s.lstrip(" \t\r\n-–—:;|•·,/")`. */
  function LStripSeparators(s: string): string {
    s[LeadingSeparators(s)..]
  }

  /** `s.strip(" \t\r\n-–—:;|•·,/")`. */
  function StripSeparators(s: string): string {
    var l := LStripSeparators(s);
    l[..|l| - TrailingSeparators(l)]
  }

  /** `r` does not start with a separator. */
  predicate NoLeadingSeparator(r: string) {
    r == [] || !IsSeparator(r[0])
  }

  /** `r` neither starts nor ends with a separator. */
  predicate Trimmed(r: string) {
    r == [] || (!IsSeparator(r[0]) && !IsSeparator(r[|r| - 1]))
  }

  /** After `lstrip` the text does not start with a separator. */
  lemma {:induction false} LStripSeparatorsClean(s: string)
    ensures NoLeadingSeparator(LStripSeparators(s))
    decreases |s|
  {
    if s != [] && IsSeparator(s[0]) {
      LStripSeparatorsClean(s[1..]);
      assert LStripSeparators(s) == LStripSeparators(s[1..]);
    }
  }

  /** A text that does not start with a separator is left alone by `lstrip`. */
  lemma LStripSeparatorsStripped(s: string)
    requires NoLeadingSeparator(s)
    ensures LStripSeparators(s) == s
  {
  }

  /** After `strip` the text neither starts nor ends with a separator. */
  lemma {:induction false} TrailingSeparatorsClean(s: string)
    ensures TrailingSeparators(s) == |s| || !IsSeparator(s[|s| - TrailingSeparators(s) - 1])
    decreases |s|
  {
    if s != [] && IsSeparator(s[|s| - 1]) {
      TrailingSeparatorsClean(s[..|s| - 1]);
    }
  }

  lemma StripSeparatorsClean(s: string)
    ensures Trimmed(StripSeparators(s))
  {
    var l := LStripSeparators(s);
    LStripSeparatorsClean(s);
    TrailingSeparatorsClean(l);
  }

  // ---------------------------------------------------------------------
  // Noise prefixes

  /** `_NOISE_PREFIXES`: the noise words, case-folded. */
  const NoiseList: seq<string> := [
    "в наявності", "в наявност", "замовлення", "в наличии", "наявність",
    "заказать", "замовити", "артикул", "галерея", "корзина", "наличие",
    "наличии", "роздрiб", "роздріб", "готово", "купити", "купить", "наявн.",
    "наявні", "список", "заказ", "кошик", "наявн", "оптом"
  ]

  /** The noise words as a set, the form the prefix match is defined over. */
  const NoiseWords: set<string> := set i | 0 <= i < |NoiseList| :: NoiseList[i]

  /** `p` (already folded) starts `t`, ignoring case. */
  predicate CaselessPrefix(t: string, p: string) {
    |p| <= |t| && forall k :: 0 <= k < |p| ==> Lower(t[k]) == p[k]
  }

  /** The longest of the first `n` prefixes of `t` whose folded form is a
      word of `ws`. */
  function LongestWordAt(t: string, ws: set<string>, n: nat): (r: Option<nat>)
    requires n <= |t|
    ensures r.Some? ==> 0 < r.value <= n
    decreases n
  {
    if n == 0 then None
    else if LowerStr(t[..n]) in ws then Some(n)
    else LongestWordAt(t, ws, n - 1)
  }

  /** `re.match` at the start of `t` of the alternation of the words `ws`,
      tried longest first and ignoring case: the length of the match. */
  function PrefixMatch(t: string, ws: set<string>): (r: Option<nat>)
    ensures r.Some? ==> 0 < r.value <= |t|
  {
    LongestWordAt(t, ws, |t|)
  }

  /** Folding a prefix gives the word exactly when the word starts the text. */
  lemma CaselessPrefixFolded(t: string, w: string)
    requires |w| <= |t|
    ensures CaselessPrefix(t, w) <==> LowerStr(t[..|w|]) == w
  {
    if CaselessPrefix(t, w) {
      assert forall k :: 0 <= k < |w| ==> LowerStr(t[..|w|])[k] == w[k];
    }
  }

  /** What `LongestWordAt` finds is a word starting the text. */
  lemma {:induction false} LongestWordAtSound(t: string, ws: set<string>, n: nat)
    requires n <= |t|
    ensures LongestWordAt(t, ws, n).Some? ==>
      var m := LongestWordAt(t, ws, n).value;
      LowerStr(t[..m]) in ws && CaselessPrefix(t, LowerStr(t[..m]))
    decreases n
  {
    if n > 0 {
      if LowerStr(t[..n]) in ws {
        CaselessPrefixFolded(t, LowerStr(t[..n]));
      } else {
        LongestWordAtSound(t, ws, n - 1);
      }
    }
  }

  /** `LongestWordAt` finds every word of length `n` or less that starts
      the text, or a longer one. */
  lemma {:induction false} LongestWordAtComplete(t: string, ws: set<string>, n: nat, w: string)
    requires n <= |t| && w in ws && 0 < |w| <= n && CaselessPrefix(t, w)
    ensures LongestWordAt(t, ws, n).Some? && |w| <= LongestWordAt(t, ws, n).value
    decreases n
  {
    CaselessPrefixFolded(t, w);
    if LowerStr(t[..n]) !in ws {
      assert n != |w|;
      LongestWordAtComplete(t, ws, n - 1, w);
    }
  }

  /** A match is a non-empty word of `ws` starting `t`, and no longer word
      of `ws` starts `t`; no match means that no non-empty word does. */
  lemma PrefixMatchMeaning(t: string, ws: set<string>)
    ensures PrefixMatch(t, ws).Some? ==>
      exists w :: w in ws && CaselessPrefix(t, w) && |w| == PrefixMatch(t, ws).value
    ensures PrefixMatch(t, ws).Some? ==>
      forall w :: w in ws && CaselessPrefix(t, w) ==> |w| <= PrefixMatch(t, ws).value
    ensures PrefixMatch(t, ws).None? ==>
      forall w :: w in ws && w != [] ==> !CaselessPrefix(t, w)
  {
    LongestWordAtSound(t, ws, |t|);
    if PrefixMatch(t, ws).Some? {
      var w := LowerStr(t[..PrefixMatch(t, ws).value]);
      assert w in ws && CaselessPrefix(t, w);
    }
    forall w | w in ws && w != [] && CaselessPrefix(t, w)
      ensures PrefixMatch(t, ws).Some? && |w| <= PrefixMatch(t, ws).value
    {
      LongestWordAtComplete(t, ws, |t|, w);
    }
  }

  /** No noise word is empty. */
  lemma NoiseWordsNonEmpty()
    ensures [] !in NoiseWords
  {
  }

  /** `_NOISE_PREFIX_RE.match(t)`: the length of the noise word at the start. */
  function NoiseMatch(t: string): Option<nat> {
    PrefixMatch(t, NoiseWords)
  }

  /** `r` is a suffix of `t`. */
  predicate IsSuffix(r: string, t: string) {
    |r| <= |t| && r == t[|t| - |r|..]
  }

  lemma SuffixTrans(r: string, s: string, t: string)
    requires IsSuffix(r, s) && IsSuffix(s, t)
    ensures IsSuffix(r, t)
  {
    assert t[|t| - |s|..][|s| - |r|..] == t[|t| - |r|..];
  }

  lemma LStripSeparatorsSuffix(t: string)
    ensures IsSuffix(LStripSeparators(t), t)
  {
  }

  /** Separators and words of `ws` cut from the front of `t` until neither
      is left: the loop of `_strip_noise_prefix` for the alternation `ws`. */
  function StrippedOf(t: string, ws: set<string>): string
    decreases |t|
  {
    var u := LStripSeparators(t);
    match PrefixMatch(u, ws)
    case Some(m) => StrippedOf(u[m..], ws)
    case None => u
  }

  /** The fixed point is a suffix of the input. */
  lemma {:induction false} StrippedOfSuffix(t: string, ws: set<string>)
    ensures IsSuffix(StrippedOf(t, ws), t)
    decreases |t|
  {
    var u := LStripSeparators(t);
    LStripSeparatorsSuffix(t);
    match PrefixMatch(u, ws)
    case Some(m) =>
      StrippedOfSuffix(u[m..], ws);
      assert IsSuffix(u[m..], u);
      SuffixTrans(u[m..], u, t);
      SuffixTrans(StrippedOf(t, ws), u[m..], t);
    case None =>
  }

  /** The fixed point starts with neither a separator nor a word of `ws`. */
  lemma {:induction false} StrippedOfClean(t: string, ws: set<string>)
    ensures NoLeadingSeparator(StrippedOf(t, ws)) && PrefixMatch(StrippedOf(t, ws), ws).None?
    decreases |t|
  {
    var u := LStripSeparators(t);
    LStripSeparatorsClean(t);
    match PrefixMatch(u, ws)
    case Some(m) => StrippedOfClean(u[m..], ws);
    case None =>
  }

  /** For a text that starts with no separator: one round of the loop. */
  lemma StrippedOfUnfold(s: string, ws: set<string>)
    requires NoLeadingSeparator(s)
    ensures PrefixMatch(s, ws).Some? ==>
      StrippedOf(s, ws) == StrippedOf(s[PrefixMatch(s, ws).value..], ws)
    ensures PrefixMatch(s, ws).None? ==> StrippedOf(s, ws) == s
  {
    LStripSeparatorsStripped(s);
  }

  /** What `_strip_noise_prefix` returns. */
  function StrippedOfNoise(t: string): string {
    StrippedOf(t, NoiseWords)
  }

  /** Left-stripping separators first does not change the fixed point. */
  lemma StrippedOfLStrip(t: string, ws: set<string>)
    ensures StrippedOf(LStripSeparators(t), ws) == StrippedOf(t, ws)
  {
    LStripSeparatorsClean(t);
    LStripSeparatorsStripped(LStripSeparators(t));
  }

  /** The loop of `_strip_noise_prefix` over the alternation `ws`. */
  method StripWords(text: string, ws: set<string>) returns (r: string)
    ensures r == StrippedOf(text, ws)
  {
    r := LStripSeparators(text);
    LStripSeparatorsClean(text);
    StrippedOfLStrip(text, ws);
    while r != []
      invariant NoLeadingSeparator(r)
      invariant StrippedOf(r, ws) == StrippedOf(text, ws)
      decreases |r|
    {
      var m := PrefixMatch(r, ws);
      if m.None? {
        break;
      }
      StrippedOfUnfold(r, ws);
      var rest := r[m.value..];
      r := LStripSeparators(rest);
      LStripSeparatorsClean(rest);
      StrippedOfLStrip(rest, ws);
    }
    StrippedOfUnfold(r, ws);
  }

  /** `_strip_noise_prefix`: strips separators, then repeatedly cuts a
      leading noise word and the separators after it. */
  method StripNoisePrefix(text: string) returns (r: string)
    ensures r == StrippedOfNoise(text)
    ensures IsSuffix(r, text)
    ensures NoLeadingSeparator(r) && NoiseMatch(r).None?
  {
    r := StripWords(text, NoiseWords);
    StrippedOfClean(text, NoiseWords);
    StrippedOfSuffix(text, NoiseWords);
  }

  // ---------------------------------------------------------------------
  // Candidate texts

  /** The text `_prepare_candidate_text` produces: whitespace runs become
      one space, the ends are trimmed, noise is cut from the front, the
      separators are trimmed from both ends, and noise is cut once more. */
  function Prepared(t: string): string {
    StrippedOfNoise(StripSeparators(StrippedOfNoise(Strip(CollapseSpace(t)))))
  }

  /** `_prepare_candidate_text`. */
  method PrepareCandidateText(text: string) returns (r: string)
    ensures r == Prepared(text)
    ensures Trimmed(r) && NoiseMatch(r).None?
    ensures SingleSpaced(r)
  {
    var t := CollapseSpace(text);
    t := Strip(t);
    t := StripNoisePrefix(t);
    t := StripSeparators(t);
    r := StripNoisePrefix(t);
    PreparedWithShape(text, NoiseWords);
  }

  /** Everything `Prepared` does, for the alternation `ws`. */
  function PreparedWith(t: string, ws: set<string>): string
  {
    StrippedOf(StripSeparators(StrippedOf(Strip(CollapseSpace(t)), ws)), ws)
  }

  lemma PreparedWithShape(t: string, ws: set<string>)
    ensures Trimmed(PreparedWith(t, ws)) && PrefixMatch(PreparedWith(t, ws), ws).None?
    ensures SingleSpaced(PreparedWith(t, ws))
  {
    var s := Strip(CollapseSpace(t));
    SingleSpacedStrip(CollapseSpace(t));
    var u := StrippedOf(s, ws);
    StrippedOfSuffix(s, ws);
    SingleSpacedSuffix(u, s);
    var v := StripSeparators(u);
    SingleSpacedStripSeparators(u);
    StripSeparatorsClean(u);
    StrippedOfEnds(v, ws);
  }

  lemma SingleSpacedStrip(c: string)
    requires SingleSpaced(c)
    ensures SingleSpaced(Strip(c))
  {
    SingleSpacedSlice(c, |c| - |LStripSpace(c)|, |c|);
    SingleSpacedSlice(LStripSpace(c), 0, |Strip(c)|);
  }

  lemma SingleSpacedSuffix(r: string, t: string)
    requires IsSuffix(r, t) && SingleSpaced(t)
    ensures SingleSpaced(r)
  {
    SingleSpacedSlice(t, |t| - |r|, |t|);
  }

  lemma SingleSpacedStripSeparators(u: string)
    requires SingleSpaced(u)
    ensures SingleSpaced(StripSeparators(u))
  {
    var l := LStripSeparators(u);
    SingleSpacedSlice(u, |u| - |l|, |u|);
    SingleSpacedSlice(l, 0, |StripSeparators(u)|);
  }

  /** Cutting from the front of a text that ends in a non-separator keeps
      that end. */
  lemma StrippedOfEnds(v: string, ws: set<string>)
    requires SingleSpaced(v)
    requires Trimmed(v)
    ensures Trimmed(StrippedOf(v, ws)) && PrefixMatch(StrippedOf(v, ws), ws).None?
    ensures SingleSpaced(StrippedOf(v, ws))
  {
    var r := StrippedOf(v, ws);
    StrippedOfSuffix(v, ws);
    StrippedOfClean(v, ws);
    SingleSpacedSuffix(r, v);
    if r != [] {
      assert r[|r| - 1] == v[|v| - 1];
    }
  }

  /** The text has an alphabetic character. */
  predicate HasLetter(t: string) {
    exists i :: 0 <= i < |t| && IsAlpha(t[i])
  }

  /** `_looks_like_noise`. */
  predicate LooksLikeNoise(t: string) {
    t == [] || NoiseMatch(t).Some? || LowerStr(t) == "-" || LowerStr(t) == "—"
  }

  /** `_is_valid_candidate`. */
  predicate IsValidCandidate(t: string) {
    t != [] && !LooksLikeNoise(t) && HasLetter(t)
  }

  /** A prepared text is a valid candidate exactly when it has a letter:
      preparation has already removed everything else the noise test looks for. */
  lemma PreparedValidIff(r: string)
    requires NoiseMatch(r).None?
    ensures IsValidCandidate(r) <==> HasLetter(r)
  {
    if HasLetter(r) {
      var i :| 0 <= i < |r| && IsAlpha(r[i]);
      NotADash(r, i);
    }
  }

  /** A text with a letter does not fold to a lone dash. */
  lemma NotADash(r: string, i: nat)
    requires i < |r| && IsAlpha(r[i])
    ensures LowerStr(r) != "-" && LowerStr(r) != "—"
  {
    if |r| == 1 {
      assert LowerStr(r)[0] == Lower(r[0]);
      assert IsAlpha(Lower(r[0]));
    }
  }

  // ---------------------------------------------------------------------
  // Scoring

  /** The character classes `_text_quality` counts. */
  datatype CharClass = Letter | Digit | PlainSpace | Extra

  /** `c` is in class `k`; the extra class is `-_/.`. */
  predicate InClass(c: char, k: CharClass) {
    match k
    case Letter => IsAlpha(c)
    case Digit => IsDigit(c)
    case PlainSpace => c == ' '
    case Extra => c == '-' || c == '_' || c == '/' || c == '.'
  }

  /** The number of characters of `t` in class `k`. */
  function Count(t: string, k: CharClass): (n: nat)
    ensures n <= |t|
  {
    if t == [] then 0 else (if InClass(t[0], k) then 1 else 0) + Count(t[1..], k)
  }

  /** `_text_quality`: length, twice the letters, the digits, five for
      containing a space, and the characters of `-_/.`. */
  function TextQuality(t: string): int {
    |t| + 2 * Count(t, Letter) + Count(t, Digit) +
    (if Count(t, PlainSpace) > 0 then 5 else 0) + Count(t, Extra)
  }

  /** Letters, digits and `-_/.` are disjoint classes. */
  lemma {:induction false} ClassesDisjoint(t: string)
    ensures Count(t, Letter) + Count(t, Digit) + Count(t, Extra) <= |t|
    decreases |t|
  {
    if t != [] {
      ClassesDisjoint(t[1..]);
    }
  }

  /** Every character adds one to three points, plus five for a space. */
  lemma TextQualityBounds(t: string)
    ensures |t| <= TextQuality(t) <= 3 * |t| + 5
  {
    ClassesDisjoint(t);
  }

  /** The number of leading positions on which `l` and `r` agree. */
  function SharedPrefix<T(==)>(l: seq<T>, r: seq<T>): (n: nat)
    ensures n <= |l| && n <= |r|
    ensures l[..n] == r[..n]
    ensures n < |l| && n < |r| ==> l[n] != r[n]
  {
    if l == [] || r == [] || l[0] != r[0] then 0
    else
      var n := SharedPrefix(l[1..], r[1..]);
      assert l[..n + 1] == [l[0]] + l[1..][..n];
      assert r[..n + 1] == [r[0]] + r[1..][..n];
      n + 1
  }

  /** `_common_prefix_length`: the zip loop that stops at the first difference. */
  method CommonPrefixLength<T(==)>(left: seq<T>, right: seq<T>) returns (length: nat)
    ensures length == SharedPrefix(left, right)
    ensures length <= |left| && length <= |right| && left[..length] == right[..length]
    ensures length < |left| && length < |right| ==> left[length] != right[length]
  {
    length := 0;
    while length < |left| && length < |right|
      invariant length <= |left| && length <= |right|
      invariant left[..length] == right[..length]
      decreases |left| - length
    {
      if left[length] != right[length] {
        break;
      }
      assert left[..length + 1] == left[..length] + [left[length]];
      assert right[..length + 1] == right[..length] + [right[length]];
      length := length + 1;
    }
    SharedPrefixUnique(left, right, length);
  }

  /** The shared prefix is the only length with those three properties. */
  lemma SharedPrefixUnique<T>(l: seq<T>, r: seq<T>, n: nat)
    requires n <= |l| && n <= |r| && l[..n] == r[..n]
    requires n < |l| && n < |r| ==> l[n] != r[n]
    ensures n == SharedPrefix(l, r)
  {
  }

  /** `_score_candidate_from_text`. */
  function ScoreCandidate<T(==)>(text: string, candidatePath: seq<T>, pricePath: seq<T>, distance: int): int {
    if !IsValidCandidate(text) then 0
    else
      var prefix := SharedPrefix(candidatePath, pricePath);
      TextQuality(text) + (if prefix == 0 then -25 else 40 * prefix) - 5 * distance
  }

  /** Only a valid candidate can score above zero. */
  lemma ScorePositiveIsValid<T>(text: string, c: seq<T>, p: seq<T>, distance: int)
    requires ScoreCandidate(text, c, p, distance) > 0
    ensures IsValidCandidate(text)
  {
  }

  /** Sharing more of the price's path, or lying nearer to it, scores higher
      for the same valid text. */
  lemma ScoreMonotone<T>(text: string, c1: seq<T>, c2: seq<T>, p: seq<T>, d1: int, d2: int)
    requires IsValidCandidate(text)
    requires SharedPrefix(c1, p) >= SharedPrefix(c2, p) && d1 <= d2
    ensures ScoreCandidate(text, c1, p, d1) >= ScoreCandidate(text, c2, p, d2)
    ensures SharedPrefix(c1, p) > SharedPrefix(c2, p) || d1 < d2 ==>
      ScoreCandidate(text, c1, p, d1) > ScoreCandidate(text, c2, p, d2)
  {
  }
}
