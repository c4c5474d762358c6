/** `PRICE_PATTERN` of scraper.py, written out as a recognizer, and the
    scan `finditer` makes with it.

    The pattern has two alternatives, tried in this order at every position:

      1. a currency mark (`$ € £ ₴` or one of `USD EUR GBP UAH`), an optional
         whitespace character, then an amount;
      2. an amount, an optional whitespace character, then a currency mark
         (`USD EUR GBP UAH ₴`);

    where an amount is `\d{1,3}(?:[\d.,\s]\d{3})*(?:[\d.,]\d{2})?`.  The
    pattern is compiled with IGNORECASE, so the three-letter codes match in
    any case.  The first alternative never needs to backtrack past a
    successful choice (nothing follows the amount), so it is written
    greedily; the second enumerates the choices in the order the regex
    engine backtracks through them. */
module PricePattern {
  import opened Text

  predicate IsSymbol(c: char) {
    c == '$' || c == '€' || c == '£' || c == '₴'
  }

  /** One of the currency codes, lower-cased for the case-insensitive
      comparison. */
  predicate IsCode(a: char, b: char, c: char) {
    (a == 'u' && b == 's' && c == 'd') || (a == 'e' && b == 'u' && c == 'r') ||
    (a == 'g' && b == 'b' && c == 'p') || (a == 'u' && b == 'a' && c == 'h')
  }

  /** `USD|EUR|GBP|UAH` (any case) at position `i`. */
  predicate CodeAt(s: string, i: nat) {
    i + 3 <= |s| && IsCode(AsciiLower(s[i]), AsciiLower(s[i + 1]), AsciiLower(s[i + 2]))
  }

  /** The currency mark at the start of the first alternative: its length. */
  function CurrencyPrefix(s: string, i: nat): (r: Option<nat>)
    ensures r.Some? ==> i + r.value <= |s| && (r.value == 1 || r.value == 3)
  {
    if i < |s| && IsSymbol(s[i]) then Some(1)
    else if CodeAt(s, i) then Some(3)
    else None
  }

  /** The currency mark at the end of the second alternative: its length. */
  function CurrencySuffix(s: string, i: nat): (r: Option<nat>)
    ensures r.Some? ==> i + r.value <= |s| && (r.value == 1 || r.value == 3)
  {
    if CodeAt(s, i) then Some(3)
    else if i < |s| && s[i] == '₴' then Some(1)
    else None
  }

  /** `d` digits from position `j`. */
  predicate DigitsAt(s: string, j: nat, d: nat)
    decreases d
  {
    d == 0 || (j < |s| && IsDigit(s[j]) && DigitsAt(s, j + 1, d - 1))
  }

  /** How many digits, at most `m`, follow position `j`: the greedy `\d{1,m}`. */
  function DigitRun(s: string, j: nat, m: nat): (r: nat)
    ensures r <= m && DigitsAt(s, j, r)
    ensures r == m || !(j + r < |s| && IsDigit(s[j + r]))
    decreases m
  {
    if j >= |s| || m == 0 || !IsDigit(s[j]) then 0 else 1 + DigitRun(s, j + 1, m - 1)
  }

  /** One repetition of `[\d.,\s]\d{3}` at position `j`. */
  predicate GroupAt(s: string, j: nat) {
    j + 4 <= |s| && (IsDigit(s[j]) || s[j] == '.' || s[j] == ',' || IsSpace(s[j])) &&
    IsDigit(s[j + 1]) && IsDigit(s[j + 2]) && IsDigit(s[j + 3])
  }

  /** `k` repetitions of the group from position `j`. */
  predicate GroupsAt(s: string, j: nat, k: nat)
    decreases k
  {
    k == 0 || (GroupAt(s, j) && GroupsAt(s, j + 4, k - 1))
  }

  /** The optional `[\d.,]\d{2}` at position `j`. */
  predicate CentsAt(s: string, j: nat) {
    j + 3 <= |s| && (IsDigit(s[j]) || s[j] == '.' || s[j] == ',') &&
    IsDigit(s[j + 1]) && IsDigit(s[j + 2])
  }

  /** How many repetitions of the group the greedy `*` takes from `j`. */
  function Groups(s: string, j: nat): nat
    decreases |s| - j
  {
    if GroupAt(s, j) then 1 + Groups(s, j + 4) else 0
  }

  // ---------------------------------------------------------------------
  // The two alternatives

  /** The greedy amount from `j`: where it ends.  Nothing follows the amount
      in the first alternative, so the first choice the engine makes at each
      step is the one it keeps. */
  function GreedyAmount(s: string, j: nat): (r: Option<nat>)
    ensures r.Some? ==> j < r.value <= |s|
  {
    var d := DigitRun(s, j, 3);
    if d == 0 then None
    else
      DigitsBound(s, j, d);
      GroupsBound(s, j + d);
      var k := j + d + 4 * Groups(s, j + d);
      Some(if CentsAt(s, k) then k + 3 else k)
  }

  /** The first alternative at `i`: the end of the match. */
  function Alt1(s: string, i: nat): (r: Option<nat>)
    ensures r.Some? ==> i < r.value <= |s|
  {
    match CurrencyPrefix(s, i)
    case None => None
    case Some(p) => GreedyAmount(s, if i + p < |s| && IsSpace(s[i + p]) then i + p + 1 else i + p)
  }

  /** `\s?` then the closing currency mark, from `p`. */
  function TrySpace(s: string, p: nat): (r: Option<nat>)
    ensures r.Some? ==> p < r.value <= |s|
  {
    if p < |s| && IsSpace(s[p]) && CurrencySuffix(s, p + 1).Some? then Some(p + 1 + CurrencySuffix(s, p + 1).value)
    else if CurrencySuffix(s, p).Some? then Some(p + CurrencySuffix(s, p).value)
    else None
  }

  /** The optional cents (taken first), then the rest, from `p`. */
  function TryTail(s: string, p: nat): (r: Option<nat>)
    ensures r.Some? ==> p < r.value <= |s|
  {
    if CentsAt(s, p) && TrySpace(s, p + 3).Some? then TrySpace(s, p + 3)
    else TrySpace(s, p)
  }

  /** Where the amount may end after `k` repetitions of the group from
      `j`, then fewer: the order in which the `*` backtracks. */
  function GroupEnds(j: nat, k: nat): seq<nat>
    decreases k
  {
    [j + 4 * k] + (if k == 0 then [] else GroupEnds(j, k - 1))
  }

  /** Where the amount may end after `d` leading digits from `i`, then
      fewer: the order in which `\d{1,3}` and then the `*` backtrack. */
  function DigitEnds(s: string, i: nat, d: nat): seq<nat>
    decreases d
  {
    if d == 0 then [] else GroupEnds(i + d, Groups(s, i + d)) + DigitEnds(s, i, d - 1)
  }

  /** The first of the positions `ps` from which `tail` matches. */
  function FirstMatch(s: string, ps: seq<nat>, tail: (string, nat) -> Option<nat>): Option<nat>
  {
    if ps == [] then None
    else if tail(s, ps[0]).Some? then tail(s, ps[0])
    else FirstMatch(s, ps[1..], tail)
  }

  /** The second alternative at `i`: the end of the match. */
  function Alt2(s: string, i: nat): (r: Option<nat>)
    ensures r.Some? ==> i < r.value <= |s|
  {
    Alt2Bound(s, i);
    FirstMatch(s, DigitEnds(s, i, DigitRun(s, i, 3)), TryTail)
  }

  /** `PRICE_PATTERN.match(s, i)`: the end of the match starting at `i`. */
  function MatchAt(s: string, i: nat): (r: Option<nat>)
    ensures r.Some? ==> i < r.value <= |s|
  {
    if Alt1(s, i).Some? then Alt1(s, i) else Alt2(s, i)
  }

  /** A matcher: the end of the match at a position, past that position. */
  ghost predicate Advances(m: (string, nat) -> Option<nat>) {
    forall t: string, p: nat :: m(t, p).Some? ==> p < m(t, p).value <= |t|
  }

  /** The scan `finditer` makes with matcher `m` from position `i`: the
      spans of the matches, each search resuming where the previous match
      ended. */
  function Scan(s: string, i: nat, m: (string, nat) -> Option<nat>): seq<(nat, nat)>
    requires Advances(m)
    decreases |s| - i
  {
    if i >= |s| then []
    else
      match m(s, i)
      case Some(e) => [(i, e)] + Scan(s, e, m)
      case None => Scan(s, i + 1, m)
  }

  /** `PRICE_PATTERN.finditer(s)` from position `i`. */
  function FindAll(s: string, i: nat): seq<(nat, nat)> {
    Scan(s, i, MatchAt)
  }

  // ---------------------------------------------------------------------
  // The grammar, declaratively

  /** `s[a..b]` is an amount: 1 to 3 digits, `k` groups, optional cents. */
  ghost predicate AmountSpan(s: string, a: nat, b: nat) {
    exists d: nat, k: nat :: 1 <= d <= 3 && AmountShape(s, a, b, d, k)
  }

  ghost predicate AmountShape(s: string, a: nat, b: nat, d: nat, k: nat) {
    var m := a + d + 4 * k;
    m <= b <= |s| &&
    (b == m || (b == m + 3 && CentsAt(s, m))) &&
    DigitsAt(s, a, d) && GroupsAt(s, a + d, k)
  }

  /** `s[i..e]` is a price by the first alternative. */
  ghost predicate Alt1Span(s: string, i: nat, e: nat) {
    CurrencyPrefix(s, i).Some? &&
    var j := i + CurrencyPrefix(s, i).value;
    AmountSpan(s, j, e) || (j < |s| && IsSpace(s[j]) && AmountSpan(s, j + 1, e))
  }

  /** The currency mark, with `\s?` before it, runs from `m` to `e`. */
  predicate SuffixSpan(s: string, m: nat, e: nat) {
    CurrencySuffix(s, m) == Some(e - m) ||
    (m < |s| && IsSpace(s[m]) && e >= m + 1 && CurrencySuffix(s, m + 1) == Some(e - m - 1))
  }

  /** `s[i..p]` is `\d{1,3}` followed by repetitions of the group. */
  ghost predicate LeadSpan(s: string, i: nat, p: nat) {
    exists d: nat, k: nat :: LeadShape(s, i, p, d, k)
  }

  ghost predicate LeadShape(s: string, i: nat, p: nat, d: nat, k: nat) {
    1 <= d <= 3 && p == i + d + 4 * k && DigitsAt(s, i, d) && GroupsAt(s, i + d, k)
  }

  /** `s[p..e]` is the optional cents, then `\s?` and the currency mark. */
  predicate TailSpan(s: string, p: nat, e: nat) {
    (CentsAt(s, p) && SuffixSpan(s, p + 3, e)) || SuffixSpan(s, p, e)
  }

  /** `s[i..e]` is a price by the second alternative, the tail starting at `p`. */
  ghost predicate Alt2Split(s: string, i: nat, p: nat, e: nat) {
    LeadSpan(s, i, p) && TailSpan(s, p, e)
  }

  /** `s[i..e]` matches `PRICE_PATTERN`. */
  ghost predicate PriceSpan(s: string, i: nat, e: nat) {
    Alt1Span(s, i, e) || exists p: nat :: Alt2Split(s, i, p, e)
  }

  // ---------------------------------------------------------------------
  // Soundness

  lemma {:induction false} DigitsBound(s: string, j: nat, d: nat)
    requires DigitsAt(s, j, d)
    ensures d == 0 || (j + d <= |s| && IsDigit(s[j]))
    decreases d
  {
    if d > 0 {
      DigitsBound(s, j + 1, d - 1);
    }
  }

  /** The repetitions the greedy `*` takes lie within `s`. */
  lemma {:induction false} GroupsBound(s: string, j: nat)
    ensures Groups(s, j) == 0 || j + 4 * Groups(s, j) <= |s|
    decreases |s| - j
  {
    if GroupAt(s, j) {
      GroupsBound(s, j + 4);
    }
  }

  /** The greedy amount is an amount. */
  lemma GreedyAmountSound(s: string, j: nat)
    requires GreedyAmount(s, j).Some?
    ensures AmountSpan(s, j, GreedyAmount(s, j).value)
  {
    var d := DigitRun(s, j, 3);
    var g := Groups(s, j + d);
    DigitsBound(s, j, d);
    GroupsBound(s, j + d);
    GroupsUpTo(s, j + d, g);
    assert AmountShape(s, j, GreedyAmount(s, j).value, d, g);
  }

  lemma Alt1Sound(s: string, i: nat)
    requires Alt1(s, i).Some?
    ensures Alt1Span(s, i, Alt1(s, i).value)
  {
    var p := CurrencyPrefix(s, i).value;
    GreedyAmountSound(s, if i + p < |s| && IsSpace(s[i + p]) then i + p + 1 else i + p);
  }

  lemma {:induction false} GroupEndsSound(j: nat, k: nat, p: nat) returns (g: nat)
    requires p in GroupEnds(j, k)
    ensures g <= k && p == j + 4 * g
    decreases k
  {
    if p == j + 4 * k {
      g := k;
    } else {
      g := GroupEndsSound(j, k - 1, p);
    }
  }

  /** Every candidate end of the amount follows `\d{1,3}` and repetitions
      of the group. */
  lemma {:induction false} DigitEndsSound(s: string, i: nat, d: nat, p: nat) returns (d': nat, g: nat)
    requires d <= DigitRun(s, i, 3) && p in DigitEnds(s, i, d)
    ensures d' <= d && LeadShape(s, i, p, d', g)
    decreases d
  {
    if p in GroupEnds(i + d, Groups(s, i + d)) {
      d' := d;
      g := GroupEndsSound(i + d, Groups(s, i + d), p);
      DigitsUpTo(s, i, d, 3);
      GroupsUpTo(s, i + d, g);
    } else {
      d', g := DigitEndsSound(s, i, d - 1, p);
    }
  }

  lemma {:induction false} FirstMatchSound(s: string, ps: seq<nat>, tail: (string, nat) -> Option<nat>) returns (k: nat)
    requires FirstMatch(s, ps, tail).Some?
    ensures k < |ps| && tail(s, ps[k]) == FirstMatch(s, ps, tail)
    decreases |ps|
  {
    if tail(s, ps[0]).Some? {
      k := 0;
    } else {
      var k' := FirstMatchSound(s, ps[1..], tail);
      k := k' + 1;
    }
  }

  /** Any shorter run of the digits the greedy `\d{1,m}` took is digits too. */
  lemma {:induction false} DigitsUpTo(s: string, j: nat, d: nat, m: nat)
    requires d <= DigitRun(s, j, m)
    ensures DigitsAt(s, j, d)
    decreases m
  {
    if d > 0 {
      DigitsUpTo(s, j + 1, d - 1, m - 1);
    }
  }

  /** Fewer repetitions than the greedy `*` took are repetitions too. */
  lemma {:induction false} GroupsUpTo(s: string, j: nat, g: nat)
    requires g <= Groups(s, j)
    ensures GroupsAt(s, j, g)
    decreases g
  {
    if g > 0 {
      GroupsUpTo(s, j + 4, g - 1);
    }
  }

  /** The second alternative ends past `i` and within `s`. */
  lemma Alt2Bound(s: string, i: nat)
    ensures var r := FirstMatch(s, DigitEnds(s, i, DigitRun(s, i, 3)), TryTail);
      r.Some? ==> i < r.value <= |s|
  {
    var ps := DigitEnds(s, i, DigitRun(s, i, 3));
    if FirstMatch(s, ps, TryTail).Some? {
      var k := FirstMatchSound(s, ps, TryTail);
      var d, g := DigitEndsSound(s, i, DigitRun(s, i, 3), ps[k]);
    }
  }

  /** Every match of `tail` from a position of `s` has the shape of a tail. */
  ghost predicate TailSound(s: string, tail: (string, nat) -> Option<nat>) {
    forall p: nat :: tail(s, p).Some? ==> TailSpan(s, p, tail(s, p).value)
  }

  lemma TryTailIsSound(s: string)
    ensures TailSound(s, TryTail)
  {
    forall p: nat | TryTail(s, p).Some? ensures TailSpan(s, p, TryTail(s, p).value) {
    }
  }

  /** The second alternative's search, for any tail of the right shape,
      finds a price: where its tail starts (`p`). */
  lemma SearchSound(s: string, i: nat, tail: (string, nat) -> Option<nat>) returns (p: nat)
    requires TailSound(s, tail)
    requires FirstMatch(s, DigitEnds(s, i, DigitRun(s, i, 3)), tail).Some?
    ensures Alt2Split(s, i, p, FirstMatch(s, DigitEnds(s, i, DigitRun(s, i, 3)), tail).value)
  {
    var run := DigitRun(s, i, 3);
    var ps := DigitEnds(s, i, run);
    var k := FirstMatchSound(s, ps, tail);
    p := ps[k];
    var d, g := DigitEndsSound(s, i, run, p);
  }

  /** What the second alternative finds: where its tail starts (`p`). */
  lemma Alt2Sound(s: string, i: nat) returns (p: nat)
    requires Alt2(s, i).Some?
    ensures Alt2Split(s, i, p, Alt2(s, i).value)
  {
    TryTailIsSound(s);
    p := SearchSound(s, i, TryTail);
  }

  /** Every match the recognizer reports is a price by the grammar. */
  lemma MatchAtSound(s: string, i: nat)
    requires MatchAt(s, i).Some?
    ensures i < MatchAt(s, i).value <= |s| && PriceSpan(s, i, MatchAt(s, i).value)
  {
    if Alt1(s, i).Some? {
      Alt1Sound(s, i);
    } else {
      var p := Alt2Sound(s, i);
    }
  }

  // ---------------------------------------------------------------------
  // Completeness

  /** Any amount by the grammar starts with a digit, so the greedy first
      alternative finds a match. */
  lemma Alt1Complete(s: string, i: nat, e: nat)
    requires Alt1Span(s, i, e)
    ensures Alt1(s, i).Some?
  {
    var j := i + CurrencyPrefix(s, i).value;
    if AmountSpan(s, j, e) {
      var d: nat, k: nat :| 1 <= d <= 3 && AmountShape(s, j, e, d, k);
      DigitsBound(s, j, d);
      assert DigitRun(s, j, 3) > 0;
    } else {
      var d: nat, k: nat :| 1 <= d <= 3 && AmountShape(s, j + 1, e, d, k);
      DigitsBound(s, j + 1, d);
      assert DigitRun(s, j + 1, 3) > 0;
    }
  }

  /** The greedy `*` takes at least as many groups as any valid split. */
  lemma {:induction false} GroupsAtLeast(s: string, j: nat, k: nat)
    requires GroupsAt(s, j, k)
    ensures k <= Groups(s, j)
    decreases k
  {
    if k > 0 {
      GroupsAtLeast(s, j + 4, k - 1);
    }
  }

  /** The greedy `\d{1,m}` takes at least as many digits as any valid split. */
  lemma {:induction false} DigitsAtLeast(s: string, j: nat, d: nat, m: nat)
    requires DigitsAt(s, j, d) && d <= m
    ensures d <= DigitRun(s, j, m)
    decreases m
  {
    if d > 0 {
      DigitsAtLeast(s, j + 1, d - 1, m - 1);
    }
  }

  lemma TryTailComplete(s: string, p: nat, e: nat)
    requires TailSpan(s, p, e)
    ensures TryTail(s, p).Some?
  {
  }

  lemma {:induction false} GroupEndsComplete(j: nat, k: nat, g: nat)
    requires g <= k
    ensures j + 4 * g in GroupEnds(j, k)
    decreases k
  {
    if g < k {
      GroupEndsComplete(j, k - 1, g);
    }
  }

  lemma {:induction false} DigitEndsComplete(s: string, i: nat, d: nat, d': nat, g: nat)
    requires 1 <= d' <= d && g <= Groups(s, i + d')
    ensures i + d' + 4 * g in DigitEnds(s, i, d)
    decreases d
  {
    if d' == d {
      GroupEndsComplete(i + d, Groups(s, i + d), g);
    } else {
      DigitEndsComplete(s, i, d - 1, d', g);
    }
  }

  lemma {:induction false} FirstMatchComplete(s: string, ps: seq<nat>, tail: (string, nat) -> Option<nat>, k: nat)
    requires k < |ps| && tail(s, ps[k]).Some?
    ensures FirstMatch(s, ps, tail).Some?
    decreases |ps|
  {
    if k > 0 && tail(s, ps[0]).None? {
      FirstMatchComplete(s, ps[1..], tail, k - 1);
    }
  }

  lemma Alt2Complete(s: string, i: nat, p: nat, e: nat)
    requires Alt2Split(s, i, p, e)
    ensures Alt2(s, i).Some?
  {
    var d: nat, g: nat :| LeadShape(s, i, p, d, g);
    TryTailComplete(s, p, e);
    GroupsAtLeast(s, i + d, g);
    DigitsAtLeast(s, i, d, 3);
    var ps := DigitEnds(s, i, DigitRun(s, i, 3));
    DigitEndsComplete(s, i, DigitRun(s, i, 3), d, g);
    var k :| 0 <= k < |ps| && ps[k] == p;
    FirstMatchComplete(s, ps, TryTail, k);
  }

  /** The recognizer finds a match at `i` exactly when the grammar admits
      some price starting at `i`. */
  lemma MatchAtComplete(s: string, i: nat, e: nat)
    requires PriceSpan(s, i, e)
    ensures MatchAt(s, i).Some?
  {
    if Alt1Span(s, i, e) {
      Alt1Complete(s, i, e);
    } else {
      var p: nat :| Alt2Split(s, i, p, e);
      Alt2Complete(s, i, p, e);
    }
  }

  // ---------------------------------------------------------------------
  // The scan

  /** The scan: every span it reports is a match, at or after `i`. */
  lemma {:induction false} ScanMatches(s: string, i: nat, m: (string, nat) -> Option<nat>)
    requires Advances(m)
    ensures forall k :: 0 <= k < |Scan(s, i, m)| ==>
      i <= Scan(s, i, m)[k].0 < Scan(s, i, m)[k].1 <= |s| && m(s, Scan(s, i, m)[k].0) == Some(Scan(s, i, m)[k].1)
    decreases |s| - i
  {
    if i < |s| {
      if m(s, i).Some? {
        var e := m(s, i).value;
        ScanMatches(s, e, m);
        var r := Scan(s, i, m);
        var rest := Scan(s, e, m);
        assert r == [(i, e)] + rest;
        forall k | 0 <= k < |r| ensures i <= r[k].0 < r[k].1 <= |s| && m(s, r[k].0) == Some(r[k].1) {
          if k > 0 {
            assert r[k] == rest[k - 1];
          }
        }
      } else {
        ScanMatches(s, i + 1, m);
      }
    }
  }

  /** The scan: the spans come in order and do not overlap. */
  lemma {:induction false} ScanOrdered(s: string, i: nat, m: (string, nat) -> Option<nat>)
    requires Advances(m)
    ensures forall k :: 0 <= k < |Scan(s, i, m)| - 1 ==> Scan(s, i, m)[k].1 <= Scan(s, i, m)[k + 1].0
    decreases |s| - i
  {
    if i < |s| {
      if m(s, i).Some? {
        var e := m(s, i).value;
        ScanOrdered(s, e, m);
        ScanMatches(s, e, m);
        var r := Scan(s, i, m);
        var rest := Scan(s, e, m);
        assert r == [(i, e)] + rest;
        forall k | 0 <= k < |r| - 1 ensures r[k].1 <= r[k + 1].0 {
          assert r[k + 1] == rest[k];
          if k > 0 {
            assert r[k] == rest[k - 1];
          }
        }
      } else {
        ScanOrdered(s, i + 1, m);
      }
    }
  }

  /** Position `p` lies inside one of the spans `r`. */
  predicate InSpan(r: seq<(nat, nat)>, p: nat) {
    r != [] && (r[0].0 <= p < r[0].1 || InSpan(r[1..], p))
  }

  /** The scan is leftmost: every position at or after `i` where a match
      could start lies inside a reported span. */
  lemma {:induction false} ScanCovers(s: string, i: nat, m: (string, nat) -> Option<nat>)
    requires Advances(m)
    ensures forall p :: i <= p < |s| && m(s, p).Some? ==> InSpan(Scan(s, i, m), p)
    decreases |s| - i
  {
    if i < |s| {
      if m(s, i).Some? {
        var e := m(s, i).value;
        ScanCovers(s, e, m);
        var r := Scan(s, i, m);
        var rest := Scan(s, e, m);
        assert r == [(i, e)] + rest;
        assert r[1..] == rest;
      } else {
        ScanCovers(s, i + 1, m);
      }
    }
  }

  /** `PRICE_PATTERN.finditer(s)` reports matches of the pattern, in order,
      without overlap, and misses no position where a match could start. */
  lemma FindAllSpec(s: string)
    ensures forall k :: 0 <= k < |FindAll(s, 0)| ==>
      FindAll(s, 0)[k].0 < FindAll(s, 0)[k].1 <= |s| && MatchAt(s, FindAll(s, 0)[k].0) == Some(FindAll(s, 0)[k].1)
    ensures forall k :: 0 <= k < |FindAll(s, 0)| - 1 ==> FindAll(s, 0)[k].1 <= FindAll(s, 0)[k + 1].0
    ensures forall p :: 0 <= p < |s| && MatchAt(s, p).Some? ==> InSpan(FindAll(s, 0), p)
  {
    ScanMatches(s, 0, MatchAt);
    ScanOrdered(s, 0, MatchAt);
    ScanCovers(s, 0, MatchAt);
  }

  /** A match starts with a currency mark or a digit, never with whitespace. */
  lemma MatchStartsVisible(s: string, i: nat)
    requires MatchAt(s, i).Some?
    ensures i < |s| && !IsSpace(s[i])
  {
    if Alt1(s, i).None? {
      assert DigitRun(s, i, 3) > 0;
    }
  }
}
