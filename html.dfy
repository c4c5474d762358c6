/** The output of the HTML tokenizer, as the parsers of this project consume it.

    The tokenizer is a library: its result is taken as a sequence of events.
    A self-closing tag `<x/>` is delivered as `StartTag` followed by `EndTag`,
    which is what every parser here does with it.  Attribute names are
    lower-case and later duplicates win, as `dict(attrs)` gives them; an
    attribute written without a value is absent from the map. */
module Html {
  import opened Text

  type Attrs = map<string, string>

  datatype Event =
    | StartTag(tag: string, attrs: Attrs)
    | EndTag(tag: string)
    | Data(text: string)

  /** `attrs.get(key)`. */
  function Get(attrs: Attrs, key: string): (r: Option<string>)
    ensures r.Some? <==> key in attrs
    ensures r.Some? ==> r.value == attrs[key]
  {
    if key in attrs then Some(attrs[key]) else None
  }

  /** `attrs.get(key, "")`. */
  function GetOrEmpty(attrs: Attrs, key: string): (r: string)
    ensures key in attrs ==> r == attrs[key]
    ensures key !in attrs ==> r == ""
  {
    if key in attrs then attrs[key] else ""
  }

  /** Python truthiness of `attrs.get(key)`: present and non-empty. */
  predicate HasValue(attrs: Attrs, key: string) {
    key in attrs && attrs[key] != ""
  }

  /** The events a self-closing tag produces. */
  function SelfClosing(tag: string, attrs: Attrs): seq<Event> {
    [StartTag(tag, attrs), EndTag(tag)]
  }
}
