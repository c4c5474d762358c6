/** Markup-level rewriting done by the generic price extractor of
    pricing_scrapper/scraper.py: cutting out script and style elements,
    replacing tags by spaces in a snippet, cleaning a snippet, and deciding
    whether a position lies inside a tag. */
module Markup {
  import opened Text

  // ---------------------------------------------------------------------
  // `_SCRIPT_STYLE_RE`: `<(script|style)\b[^>]*>.*?</\1>`, ignoring case,
  // with `.` matching newlines.

  /** `name` (lower case) occurs at `i`, ignoring ASCII case. */
  predicate NameAt(s: string, i: nat, name: string) {
    i + |name| <= |s| && forall k :: 0 <= k < |name| ==> AsciiLower(s[i + k]) == name[k]
  }

  /** The regex `\b` after a word character at `j - 1`. */
  predicate WordEnd(s: string, j: nat) {
    j >= |s| || !IsWordChar(s[j])
  }

  /** The element name that follows `<` when it starts at `i`: `script`
      tried first, then `style`, each needing a word boundary after it. */
  function ElementName(s: string, i: nat): (r: Option<string>)
    ensures r.Some? ==>
      (r.value == "script" || r.value == "style") &&
      NameAt(s, i, r.value) && WordEnd(s, i + |r.value|)
    ensures r.None? ==>
      !(NameAt(s, i, "script") && WordEnd(s, i + 6)) &&
      !(NameAt(s, i, "style") && WordEnd(s, i + 5))
  {
    if NameAt(s, i, "script") && WordEnd(s, i + 6) then Some("script")
    else if NameAt(s, i, "style") && WordEnd(s, i + 5) then Some("style")
    else None
  }

  /** `</name>`, ignoring case, at position `k`. */
  predicate CloseTagAt(s: string, k: nat, name: string) {
    k + |name| + 3 <= |s| && s[k] == '<' && s[k + 1] == '/' &&
    NameAt(s, k + 2, name) && s[k + 2 + |name|] == '>'
  }

  /** The lazy `.*?</\1>`: the first closing tag at or after `k`. */
  function FindClose(s: string, k: nat, name: string): (r: Option<nat>)
    ensures r.Some? ==> k <= r.value && CloseTagAt(s, r.value, name)
    ensures r.Some? ==> forall j :: k <= j < r.value ==> !CloseTagAt(s, j, name)
    ensures r.None? ==> forall j :: k <= j ==> !CloseTagAt(s, j, name)
    decreases |s| - k
  {
    if k >= |s| then None
    else if CloseTagAt(s, k, name) then Some(k)
    else FindClose(s, k + 1, name)
  }

  /** Where a script or style element that starts at `i` ends, if one does:
      `<`, the name, everything up to the first `>`, then everything up to
      and including the first matching closing tag. */
  function ElementEnd(s: string, i: nat): (r: Option<nat>)
    ensures r.Some? ==>
      i < r.value <= |s| && s[i] == '<' && ElementName(s, i + 1).Some? &&
      r.value >= |ElementName(s, i + 1).value| + 3 &&
      CloseTagAt(s, r.value - |ElementName(s, i + 1).value| - 3, ElementName(s, i + 1).value)
  {
    if i < |s| && s[i] == '<' then
      match ElementName(s, i + 1)
      case None => None
      case Some(name) =>
        var gt := FindFrom(s, ">", i + 1 + |name|);
        if gt == -1 then None
        else
          match FindClose(s, gt + 1, name)
          case None => None
          case Some(c) => Some(c + |name| + 3)
    else None
  }

  /** The lazy match ends at the earliest closing tag: an element whose
      opening tag is closed by `>` at `g` and that has a closing tag at `c`
      is matched, and the match ends no later than that closing tag. */
  lemma ElementEndIsLazy(s: string, i: nat, name: string, g: nat, c: nat)
    requires i < |s| && s[i] == '<' && ElementName(s, i + 1) == Some(name)
    requires i + 1 + |name| <= g < c && CloseTagAt(s, c, name) && s[g] == '>'
    ensures ElementEnd(s, i).Some? && ElementEnd(s, i).value <= c + |name| + 3
  {
    assert IsAt(s, ">", g);
    var gt := FindFrom(s, ">", i + 1 + |name|);
    assert gt != -1 && gt <= g;
    assert FindClose(s, gt + 1, name).Some?;
  }

  /** `_SCRIPT_STYLE_RE.sub(" ", s)`: each script or style element becomes
      one space, scanning left to right. */
  function RemoveScriptStyle(s: string): (r: string)
    ensures |r| <= |s|
    decreases |s|
  {
    if s == [] then []
    else
      match ElementEnd(s, 0)
      case Some(e) => " " + RemoveScriptStyle(s[e..])
      case None => [s[0]] + RemoveScriptStyle(s[1..])
  }

  /** Text before the first `<` passes through the excision unchanged. */
  lemma {:induction false} RemoveScriptStylePrefix(a: string, b: string)
    requires '<' !in a
    ensures RemoveScriptStyle(a + b) == a + RemoveScriptStyle(b)
    decreases |a|
  {
    if a == [] {
      assert a + b == b;
    } else {
      assert (a + b)[0] == a[0];
      assert (a + b)[1..] == a[1..] + b;
      RemoveScriptStylePrefix(a[1..], b);
    }
  }

  /** Text without `<` has no element to remove. */
  lemma RemoveScriptStylePlain(s: string)
    requires '<' !in s
    ensures RemoveScriptStyle(s) == s
  {
    RemoveScriptStylePrefix(s, []);
    assert s + [] == s;
  }

  // ---------------------------------------------------------------------
  // `_TAG_RE`: `<[^>]+>`

  /** A tag starts at `i`: `<`, at least one character other than `>`, and
      a later `>`. */
  predicate TagAt(s: string, i: nat) {
    i + 1 < |s| && s[i] == '<' && s[i + 1] != '>' && '>' in s[i + 1..]
  }

  /** `_TAG_RE.sub(" ", s)`: each tag, up to its first `>`, becomes one space. */
  function RemoveTags(s: string): (r: string)
    ensures |r| <= |s|
    decreases |s|
  {
    if s == [] then []
    else if TagAt(s, 0) then " " + RemoveTags(s[IndexOfChar(s[1..], '>') + 2..])
    else [s[0]] + RemoveTags(s[1..])
  }

  /** Text without `>` holds no tag and is left alone. */
  lemma {:induction false} RemoveTagsWithoutGt(s: string)
    requires '>' !in s
    ensures RemoveTags(s) == s
    decreases |s|
  {
    if s != [] {
      assert s == [s[0]] + s[1..];
      RemoveTagsWithoutGt(s[1..]);
    }
  }

  /** A tag after the first character is a tag of the rest. */
  lemma TagAtCons(c: char, t: string, i: nat)
    requires i < |t|
    ensures TagAt([c] + t, i + 1) <==> TagAt(t, i)
  {
    assert ([c] + t)[i + 2..] == t[i + 1..];
  }

  /** The output of the tag substitution contains no tag. */
  lemma {:induction false} RemoveTagsLeavesNoTag(s: string)
    ensures forall i :: 0 <= i < |RemoveTags(s)| ==> !TagAt(RemoveTags(s), i)
    decreases |s|
  {
    if s != [] {
      var r := RemoveTags(s);
      var t;
      if TagAt(s, 0) {
        t := RemoveTags(s[IndexOfChar(s[1..], '>') + 2..]);
        RemoveTagsLeavesNoTag(s[IndexOfChar(s[1..], '>') + 2..]);
        assert r == [' '] + t;
      } else {
        t := RemoveTags(s[1..]);
        RemoveTagsLeavesNoTag(s[1..]);
        assert r == [s[0]] + t;
        if s[0] == '<' && |s| > 1 {
          if s[1] == '>' {
            assert t[0] == '>';
          } else {
            assert '>' !in s[1..];
            RemoveTagsWithoutGt(s[1..]);
          }
        }
      }
      forall i | 1 <= i < |r| ensures !TagAt(r, i) {
        TagAtCons(r[0], t, i - 1);
      }
    }
  }

  /** `_clean_snippet`: tags become spaces, entities are decoded, whitespace
      runs collapse to one space and the ends are trimmed. */
  function CleanSnippet(snippet: string): (r: string)
    ensures r == [] || (!IsSpace(r[0]) && !IsSpace(r[|r| - 1]))
    ensures SingleSpaced(r)
  {
    NormalizeText(RemoveTags(snippet))
  }

  // ---------------------------------------------------------------------
  // `_is_inside_html_tag`

  /** The last `<` before `index` is not followed by a `>` before `index`. */
  function IsInsideHtmlTag(text: string, index: nat): bool {
    var lt := RFindChar(text, '<', index);
    if lt == -1 then false
    else
      var gt := RFindChar(text, '>', index);
      !(gt > lt)
  }

  /** Position `index` is inside a tag exactly when some `<` before it is
      not followed by any `>` before it. */
  lemma IsInsideHtmlTagIff(text: string, index: nat)
    ensures IsInsideHtmlTag(text, index) <==>
      exists k :: 0 <= k < index && k < |text| && text[k] == '<' &&
        forall j :: k < j < index && j < |text| ==> text[j] != '>'
  {
    var lt := RFindChar(text, '<', index);
    var gt := RFindChar(text, '>', index);
    if IsInsideHtmlTag(text, index) {
      assert 0 <= lt < index && lt < |text| && text[lt] == '<';
      assert forall j :: lt < j < index && j < |text| ==> text[j] != '>';
    } else if lt != -1 {
      assert gt > lt && text[gt] == '>';
      forall k | 0 <= k < index && k < |text| && text[k] == '<'
        ensures exists j :: k < j < index && j < |text| && text[j] == '>'
      {
        assert k <= lt;
        assert k < gt;
      }
    }
  }
}
