/** The character walk of pricing_scrapper/scraper.py that collects the
    visible text on either side of a price match, skipping over tags. */
module Window {
  import opened Text

  /** The reversal the backward walk applies to its buffer. */
  function Reversed(b: string): (r: string)
    ensures |r| == |b|
    ensures forall i :: 0 <= i < |b| ==> r[i] == b[|b| - 1 - i]
  {
    if b == [] then [] else Reversed(b[1..]) + [b[0]]
  }

  /** The first `n` characters of `s` (all of it when shorter). */
  function Front(s: string, n: nat): (r: string)
    ensures |r| <= n && |r| <= |s| && r == s[..|r|]
  {
    if |s| <= n then s else s[..n]
  }

  /** The last `n` characters of `s` (all of it when shorter). */
  function Back(s: string, n: nat): (r: string)
    ensures |r| <= n && |r| <= |s| && r == s[|s| - |r|..]
  {
    if |s| <= n then s else s[|s| - n..]
  }

  /** `s` holds neither `<` nor `>`. */
  predicate NoBrackets(s: string) {
    '<' !in s && '>' !in s
  }

  /** One more character after `x`: left-stripping ignores it only while
      everything so far is whitespace. */
  lemma LStripSnoc(x: string, c: char)
    ensures LStripSpace(x + [c]) ==
      if LStripSpace(x) == [] && IsSpace(c) then [] else LStripSpace(x) + [c]
  {
    LeadingSpacesConcat(x, [c]);
  }

  /** One more character before `x`, mirrored for right-stripping. */
  lemma RStripCons(c: char, x: string)
    ensures RStripSpace([c] + x) ==
      if RStripSpace(x) == [] && IsSpace(c) then [] else [c] + RStripSpace(x)
  {
    TrailingSpacesConcat([c], x);
  }

  /** Once the left-stripped prefix is non-empty, the rest is kept whole. */
  lemma LStripPrefix(a: string, b: string)
    requires LStripSpace(a) != []
    ensures LStripSpace(a + b) == LStripSpace(a) + b
  {
    LeadingSpacesConcat(a, b);
    assert (a + b)[LeadingSpaces(a)..] == a[LeadingSpaces(a)..] + b;
  }

  /** Once the right-stripped suffix is non-empty, everything before it is kept. */
  lemma RStripSuffix(a: string, b: string)
    requires RStripSpace(b) != []
    ensures RStripSpace(a + b) == a + RStripSpace(b)
  {
    TrailingSpacesConcat(a, b);
    assert (a + b)[..|a + b| - TrailingSpaces(b)] == a + b[..|b| - TrailingSpaces(b)];
  }

  lemma ReversedSnoc(b: string, c: char)
    ensures Reversed(b + [c]) == [c] + Reversed(b)
  {
  }

  /** The forward walk over tag-free text so far: the buffer is the
      left-stripped text walked over. */
  ghost predicate ForwardSoFar(text: string, start: int, idx: int, buffer: string) {
    0 <= start <= idx <= |text| && buffer == LStripSpace(text[start..idx])
  }

  lemma ForwardStep(text: string, start: int, idx: int, buffer: string)
    requires ForwardSoFar(text, start, idx, buffer) && idx < |text| && NoBrackets(text[start..])
    ensures text[idx] != '<' && text[idx] != '>'
    ensures ForwardSoFar(text, start, idx + 1,
      if buffer == [] && IsSpace(text[idx]) then buffer else buffer + [text[idx]])
  {
    assert text[start..idx + 1] == text[start..idx] + [text[idx]];
    assert text[idx] == text[start..][idx - start];
    LStripSnoc(text[start..idx], text[idx]);
  }

  lemma ForwardDone(text: string, start: int, idx: int, buffer: string, limit: nat)
    requires ForwardSoFar(text, start, idx, buffer) && |buffer| <= limit
    requires idx == |text| || |buffer| == limit
    ensures buffer == Front(LStripSpace(text[start..]), limit)
  {
    var x := text[start..];
    assert x == text[start..idx] + text[idx..];
    if idx == |text| {
      assert text[start..idx] == x;
    } else if limit > 0 {
      LStripPrefix(text[start..idx], text[idx..]);
      assert (buffer + text[idx..])[..limit] == buffer;
    }
  }

  /** The backward walk over tag-free text so far: the reversed buffer is
      the right-stripped text walked over. */
  ghost predicate BackwardSoFar(text: string, start: int, idx: int, buffer: string) {
    -1 <= idx <= start < |text| && Reversed(buffer) == RStripSpace(text[idx + 1..start + 1])
  }

  lemma BackwardStep(text: string, start: int, idx: int, buffer: string)
    requires BackwardSoFar(text, start, idx, buffer) && 0 <= idx && NoBrackets(text[..start + 1])
    ensures text[idx] != '<' && text[idx] != '>'
    ensures BackwardSoFar(text, start, idx - 1,
      if buffer == [] && IsSpace(text[idx]) then buffer else buffer + [text[idx]])
  {
    assert text[idx..start + 1] == [text[idx]] + text[idx + 1..start + 1];
    assert text[idx] == text[..start + 1][idx];
    RStripCons(text[idx], text[idx + 1..start + 1]);
    ReversedSnoc(buffer, text[idx]);
  }

  lemma BackwardDone(text: string, start: int, idx: int, buffer: string, limit: nat)
    requires BackwardSoFar(text, start, idx, buffer) && |buffer| <= limit
    requires idx == -1 || |buffer| == limit
    ensures Reversed(buffer) == Back(RStripSpace(text[..start + 1]), limit)
  {
    var x := text[..start + 1];
    var a, b := text[..idx + 1], text[idx + 1..start + 1];
    assert x == a + b;
    if idx == -1 {
      assert b == x;
    } else if limit > 0 {
      RStripSuffix(a, b);
      assert (a + RStripSpace(b))[|a + RStripSpace(b)| - limit..] == RStripSpace(b);
    }
  }

  /** What the walk of `_gather_visible_text` keeps true: the buffer
      holds at most `limit` characters, none a bracket, the first not
      whitespace; over tag-free text it is the stripped text walked over. */
  ghost predicate Gathering(text: string, start: int, direction: int, limit: nat,
                            idx: int, buffer: string, collected: int, inTag: bool)
  {
    var forward := direction == 1 && 0 <= start <= |text| && NoBrackets(text[start..]);
    var backward := direction == -1 && -1 <= start < |text| && NoBrackets(text[..start + 1]);
    collected == |buffer| <= limit &&
    NoBrackets(buffer) &&
    (buffer != [] ==> !IsSpace(buffer[0])) &&
    (forward ==> !inTag && ForwardSoFar(text, start, idx, buffer)) &&
    (backward ==> !inTag && BackwardSoFar(text, start, idx, buffer))
  }

  /** One character of the walk: a `<` or `>` opens or closes a tag as the
      direction says, any other character outside a tag is kept unless it
      is leading whitespace. */
  method GatherStep(text: string, start: int, direction: int, limit: nat,
                    idx: int, buffer0: string, collected0: int, inTag0: bool)
    returns (buffer: string, collected: int, inTag: bool)
    requires direction == -1 || direction == 1
    requires 0 <= idx < |text| && collected0 < limit
    requires Gathering(text, start, direction, limit, idx, buffer0, collected0, inTag0)
    ensures Gathering(text, start, direction, limit, idx + direction, buffer, collected, inTag)
  {
    var c := text[idx];
    if direction == 1 && 0 <= start <= |text| && NoBrackets(text[start..]) {
      ForwardStep(text, start, idx, buffer0);
    }
    if direction == -1 && -1 <= start < |text| && NoBrackets(text[..start + 1]) {
      BackwardStep(text, start, idx, buffer0);
    }
    buffer, collected, inTag := buffer0, collected0, inTag0;
    if c == '<' {
      inTag := direction == 1;
    } else if c == '>' {
      inTag := direction != 1;
    } else if !inTag {
      if buffer != [] || !IsSpace(c) {
        buffer := buffer + [c];
        collected := collected + 1;
      }
    }
  }

  /** `_gather_visible_text`: walks from `start` one step at a time in
      `direction`, keeping at most `limit` characters outside tags and
      skipping whitespace until the first kept character.  In the backward
      walk a `>` opens a tag and a `<` closes it. */
  method GatherVisibleText(text: string, start: int, direction: int, limit: nat)
    returns (r: string)
    requires direction == -1 || direction == 1
    ensures |r| <= limit
    ensures NoBrackets(r)
    ensures r != [] ==> !IsSpace(if direction == 1 then r[0] else r[|r| - 1])
    ensures direction == 1 && 0 <= start <= |text| && NoBrackets(text[start..]) ==>
      r == Front(LStripSpace(text[start..]), limit)
    ensures direction == -1 && -1 <= start < |text| && NoBrackets(text[..start + 1]) ==>
      r == Back(RStripSpace(text[..start + 1]), limit)
  {
    var idx := start;
    var buffer: string := [];
    var collected := 0;
    var inTag := false;
    while 0 <= idx < |text| && collected < limit
      invariant Gathering(text, start, direction, limit, idx, buffer, collected, inTag)
      decreases if direction == 1 then |text| - idx else idx + 1
    {
      buffer, collected, inTag := GatherStep(text, start, direction, limit, idx, buffer, collected, inTag);
      idx := idx + direction;
    }
    r := GatherResult(text, start, direction, limit, idx, buffer, collected, inTag);
  }

  /** The end of the walk: the buffer, reversed for the backward walk. */
  method GatherResult(text: string, start: int, direction: int, limit: nat,
                      idx: int, buffer: string, collected: int, inTag: bool)
    returns (r: string)
    requires direction == -1 || direction == 1
    requires Gathering(text, start, direction, limit, idx, buffer, collected, inTag)
    requires !(0 <= idx < |text|) || collected >= limit
    ensures |r| <= limit
    ensures NoBrackets(r)
    ensures r != [] ==> !IsSpace(if direction == 1 then r[0] else r[|r| - 1])
    ensures direction == 1 && 0 <= start <= |text| && NoBrackets(text[start..]) ==>
      r == Front(LStripSpace(text[start..]), limit)
    ensures direction == -1 && -1 <= start < |text| && NoBrackets(text[..start + 1]) ==>
      r == Back(RStripSpace(text[..start + 1]), limit)
  {
    if direction == 1 && 0 <= start <= |text| && NoBrackets(text[start..]) {
      ForwardDone(text, start, idx, buffer, limit);
    }
    if direction == -1 && -1 <= start < |text| && NoBrackets(text[..start + 1]) {
      BackwardDone(text, start, idx, buffer, limit);
    }
    if direction == -1 {
      r := Reversed(buffer);
      assert forall i :: 0 <= i < |r| ==> r[i] == buffer[|buffer| - 1 - i];
    } else {
      r := buffer;
    }
  }

  /** `text[start..end]` sits in `r` at `a`, with at most `context`
      tag-free characters on either side. */
  predicate Framed(r: string, text: string, start: nat, end: nat, context: nat, a: nat)
    requires start <= end <= |text|
  {
    a <= context && IsAt(r, text[start..end], a) &&
    |r| <= a + (end - start) + context &&
    NoBrackets(r[..a]) && NoBrackets(r[a + (end - start)..])
  }

  /** `_visible_text_window`: up to `context` visible characters on each
      side of `text[start..end]`, with the matched text itself in between. */
  method VisibleTextWindow(text: string, start: nat, end: nat, context: nat) returns (r: string)
    requires start <= end <= |text|
    ensures exists a: nat :: Framed(r, text, start, end, context, a)
    ensures NoBrackets(text) ==>
      r == Back(RStripSpace(text[..start]), context) + text[start..end] +
        Front(LStripSpace(text[end..]), context)
  {
    var left := GatherVisibleText(text, start - 1, -1, context);
    var right := GatherVisibleText(text, end, 1, context);
    r := left + text[start..end] + right;
    WindowFramed(left, text[start..end], right);
    assert Framed(r, text, start, end, context, |left|);
    if NoBrackets(text) {
      assert text[..start - 1 + 1] == text[..start];
      NoBracketsSlices(text, start, end);
    }
  }

  lemma WindowFramed(left: string, mid: string, right: string)
    ensures IsAt(left + mid + right, mid, |left|)
    ensures (left + mid + right)[..|left|] == left
    ensures (left + mid + right)[|left| + |mid|..] == right
  {
    assert (left + mid + right)[|left|..|left| + |mid|] == mid;
  }

  lemma NoBracketsSlices(text: string, start: nat, end: nat)
    requires start <= end <= |text| && NoBrackets(text)
    ensures NoBrackets(text[..start]) && NoBrackets(text[end..])
  {
    assert forall c :: c in text[..start] ==> c in text;
    assert forall c :: c in text[end..] ==> c in text;
  }
}
