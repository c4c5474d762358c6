/** The parser of pricing_scrapper/scraper.py that collects the visible
    text nodes of a page, each with the structural path of the elements
    open around it.  A path step is a tag and the number of earlier
    siblings with the same tag under the same parent.

    The step functions (`OnStartTag`, `OnEndTag`, `OnData`) describe one
    tokenizer event on a `ParserState` value; the class `VisibleTextParser`
    performs the same steps on its fields. */
module VisibleText {
  import opened Text
  import opened Html

  /** A `Counter[str]`: a missing tag counts zero. */
  type Counts = map<string, nat>

  function Count(m: Counts, tag: string): nat {
    if tag in m then m[tag] else 0
  }

  /** `counts[tag] += 1`. */
  function Bump(m: Counts, tag: string): (r: Counts)
    ensures Count(r, tag) == Count(m, tag) + 1
    ensures forall t :: t != tag ==> Count(r, t) == Count(m, t)
  {
    m[tag := Count(m, tag) + 1]
  }

  /** An open element: its tag, its index among same-tag siblings, and the
      counters of its own children. */
  datatype StackEntry = StackEntry(tag: string, index: nat, childCounts: Counts)

  function Identity(e: StackEntry): (string, nat) {
    (e.tag, e.index)
  }

  datatype TextNode = TextNode(text: string, path: seq<(string, nat)>)

  datatype ParserState = ParserState(stack: seq<StackEntry>, rootCounts: Counts, nodes: seq<TextNode>)

  const Initial: ParserState := ParserState([], map[], [])

  /** Content of these elements is never visible text. */
  predicate IsHiddenTag(tag: string) {
    tag == "script" || tag == "style"
  }

  /** Some open element is a script or a style. */
  predicate InHidden(stack: seq<StackEntry>) {
    exists k :: 0 <= k < |stack| && IsHiddenTag(stack[k].tag)
  }

  /** The identities of the open elements, outermost first. */
  function PathOf(stack: seq<StackEntry>): (r: seq<(string, nat)>)
    ensures |r| == |stack|
    ensures forall k :: 0 <= k < |stack| ==> r[k] == Identity(stack[k])
  {
    seq(|stack|, k requires 0 <= k < |stack| => Identity(stack[k]))
  }

  /** The counters a start tag consults: the innermost open element's, or
      the document's when nothing is open. */
  function CurrentCounts(st: ParserState): Counts {
    if st.stack == [] then st.rootCounts else st.stack[|st.stack| - 1].childCounts
  }

  /** The counters that numbered the open element at depth `k`. */
  function ParentCounts(st: ParserState, k: nat): Counts
    requires k < |st.stack|
  {
    if k == 0 then st.rootCounts else st.stack[k - 1].childCounts
  }

  function OnStartTag(st: ParserState, tag: string): ParserState {
    if st.stack == [] then
      st.(stack := [StackEntry(tag, Count(st.rootCounts, tag), map[])],
          rootCounts := Bump(st.rootCounts, tag))
    else
      var parent := st.stack[|st.stack| - 1];
      st.(stack := st.stack[..|st.stack| - 1] +
        [parent.(childCounts := Bump(parent.childCounts, tag)),
         StackEntry(tag, Count(parent.childCounts, tag), map[])])
  }

  /** Any end tag closes the innermost open element, whatever its name. */
  function OnEndTag(st: ParserState): ParserState {
    if st.stack == [] then st else st.(stack := st.stack[..|st.stack| - 1])
  }

  function OnData(st: ParserState, data: string): ParserState {
    if data == [] || InHidden(st.stack) || Strip(data) == [] then st
    else st.(nodes := st.nodes + [TextNode(Unescape(Strip(data)), PathOf(st.stack))])
  }

  function Step(st: ParserState, ev: Event): ParserState {
    match ev
    case StartTag(tag, _) => OnStartTag(st, tag)
    case EndTag(_) => OnEndTag(st)
    case Data(text) => OnData(st, text)
  }

  /** The state after feeding `events`, the last one applied last. */
  function Run(st: ParserState, events: seq<Event>): ParserState
    decreases |events|
  {
    if events == [] then st else Step(Run(st, events[..|events| - 1]), events[|events| - 1])
  }

  // ---------------------------------------------------------------------
  // Invariants

  /** Every open element's index is below the counter that numbered it, so
      the next sibling of the same tag is given a fresh index. */
  predicate Numbered(st: ParserState) {
    forall k :: 0 <= k < |st.stack| ==> st.stack[k].index < Count(ParentCounts(st, k), st.stack[k].tag)
  }

  /** A collected node has text and lies outside any script or style. */
  predicate NodeOk(n: TextNode) {
    n.text != [] && forall j :: 0 <= j < |n.path| ==> !IsHiddenTag(n.path[j].0)
  }

  predicate NodesOk(nodes: seq<TextNode>) {
    forall i :: 0 <= i < |nodes| ==> NodeOk(nodes[i])
  }

  predicate Inv(st: ParserState) {
    Numbered(st) && NodesOk(st.nodes)
  }

  lemma InitialInv()
    ensures Inv(Initial)
  {
  }

  lemma OnStartTagNumbered(st: ParserState, tag: string)
    requires Numbered(st)
    ensures Numbered(OnStartTag(st, tag))
  {
    var st' := OnStartTag(st, tag);
    var n := |st.stack|;
    forall k | 0 <= k < |st'.stack|
      ensures st'.stack[k].index < Count(ParentCounts(st', k), st'.stack[k].tag)
    {
      if k < n {
        assert st'.stack[k].tag == st.stack[k].tag && st'.stack[k].index == st.stack[k].index;
        assert k > 0 ==> st'.stack[k - 1].childCounts == st.stack[k - 1].childCounts;
        assert ParentCounts(st', k) == ParentCounts(st, k);
      }
    }
  }

  lemma OnEndTagNumbered(st: ParserState)
    requires Numbered(st)
    ensures Numbered(OnEndTag(st))
  {
    var st' := OnEndTag(st);
    forall k | 0 <= k < |st'.stack|
      ensures st'.stack[k].index < Count(ParentCounts(st', k), st'.stack[k].tag)
    {
      assert ParentCounts(st', k) == ParentCounts(st, k);
    }
  }

  lemma OnDataNodesOk(st: ParserState, data: string)
    requires NodesOk(st.nodes)
    ensures NodesOk(OnData(st, data).nodes)
  {
    if !(data == [] || InHidden(st.stack) || Strip(data) == []) {
      var n := TextNode(Unescape(Strip(data)), PathOf(st.stack));
      assert Unescape(Strip(data)) != [];
      forall j | 0 <= j < |n.path| ensures !IsHiddenTag(n.path[j].0) {
        assert n.path[j].0 == st.stack[j].tag;
      }
    }
  }

  lemma StepInv(st: ParserState, ev: Event)
    requires Inv(st)
    ensures Inv(Step(st, ev))
  {
    match ev
    case StartTag(tag, _) => OnStartTagNumbered(st, tag);
    case EndTag(_) => OnEndTagNumbered(st);
    case Data(text) => OnDataNodesOk(st, text);
  }

  /** Feeding events keeps the invariant. */
  lemma {:induction false} RunInv(st: ParserState, events: seq<Event>)
    requires Inv(st)
    ensures Inv(Run(st, events))
    decreases |events|
  {
    if events != [] {
      RunInv(st, events[..|events| - 1]);
      StepInv(Run(st, events[..|events| - 1]), events[|events| - 1]);
    }
  }

  /** Nodes are only ever appended: every node collected stays, in order. */
  lemma {:induction false} RunExtendsNodes(st: ParserState, events: seq<Event>)
    ensures st.nodes <= Run(st, events).nodes
    decreases |events|
  {
    if events != [] {
      RunExtendsNodes(st, events[..|events| - 1]);
    }
  }

  // ---------------------------------------------------------------------
  // Sibling numbering

  /** A start tag is numbered by the current counter of its tag, which then
      goes up by one while the counters of other tags stay. */
  lemma StartTagNumber(st: ParserState, tag: string)
    ensures |OnStartTag(st, tag).stack| == |st.stack| + 1
    ensures OnStartTag(st, tag).stack[|st.stack|] == StackEntry(tag, Count(CurrentCounts(st), tag), map[])
    ensures CurrentCounts(OnEndTag(OnStartTag(st, tag))) == Bump(CurrentCounts(st), tag)
  {
    if st.stack != [] {
      assert OnEndTag(OnStartTag(st, tag)).stack == st.stack[..|st.stack| - 1] +
        [st.stack[|st.stack| - 1].(childCounts := Bump(st.stack[|st.stack| - 1].childCounts, tag))];
    }
  }

  /** `n` empty `tag` elements in a row. */
  function Siblings(tag: string, n: nat): (r: seq<Event>)
    ensures |r| == 2 * n
  {
    if n == 0 then [] else Siblings(tag, n - 1) + [StartTag(tag, map[]), EndTag(tag)]
  }

  lemma RunSnocTwo(st: ParserState, events: seq<Event>, a: Event, b: Event)
    ensures Run(st, events + [a, b]) == Step(Step(Run(st, events), a), b)
  {
    assert (events + [a, b])[..|events| + 1] == events + [a];
    assert (events + [a])[..|events|] == events;
  }

  /** After `n` same-tag siblings, the next one is numbered `n` higher than
      the first would have been: the counter counts the earlier siblings. */
  lemma {:induction false} SiblingsCounted(st: ParserState, tag: string, n: nat)
    ensures Count(CurrentCounts(Run(st, Siblings(tag, n))), tag) == Count(CurrentCounts(st), tag) + n
    ensures |Run(st, Siblings(tag, n)).stack| == |st.stack|
  {
    if n > 0 {
      SiblingsCounted(st, tag, n - 1);
      var mid := Run(st, Siblings(tag, n - 1));
      RunSnocTwo(st, Siblings(tag, n - 1), StartTag(tag, map[]), EndTag(tag));
      assert Siblings(tag, n) == Siblings(tag, n - 1) + [StartTag(tag, map[]), EndTag(tag)];
      assert Step(Step(mid, StartTag(tag, map[])), EndTag(tag)) == OnEndTag(OnStartTag(mid, tag));
      StartTagNumber(mid, tag);
    }
  }

  // ---------------------------------------------------------------------
  // The parser object

  class VisibleTextParser {
    var stack: seq<StackEntry>
    var rootCounts: Counts
    var nodes: seq<TextNode>

    function Model(): ParserState
      reads this
    {
      ParserState(stack, rootCounts, nodes)
    }

    constructor ()
      ensures Model() == Initial
    {
      stack, rootCounts, nodes := [], map[], [];
    }

    method HandleStartTag(tag: string, attrs: Attrs)
      modifies this
      ensures Model() == OnStartTag(old(Model()), tag)
    {
      if stack != [] {
        var parent := stack[|stack| - 1];
        var index := Count(parent.childCounts, tag);
        parent := parent.(childCounts := Bump(parent.childCounts, tag));
        stack := stack[..|stack| - 1] + [parent, StackEntry(tag, index, map[])];
      } else {
        var index := Count(rootCounts, tag);
        rootCounts := Bump(rootCounts, tag);
        stack := stack + [StackEntry(tag, index, map[])];
      }
    }

    method HandleEndTag(tag: string)
      modifies this
      ensures Model() == OnEndTag(old(Model()))
    {
      if stack != [] {
        stack := stack[..|stack| - 1];
      }
    }

    method HandleData(data: string)
      modifies this
      ensures Model() == OnData(old(Model()), data)
    {
      if data == [] {
        return;
      }
      if InHidden(stack) {
        return;
      }
      var text := Strip(data);
      if text == [] {
        return;
      }
      text := Unescape(text);
      nodes := nodes + [TextNode(text, PathOf(stack))];
    }

    method Handle(ev: Event)
      modifies this
      ensures Model() == Step(old(Model()), ev)
    {
      match ev
      case StartTag(tag, attrs) => HandleStartTag(tag, attrs);
      case EndTag(tag) => HandleEndTag(tag);
      case Data(text) => HandleData(text);
    }

    method Feed(events: seq<Event>)
      modifies this
      ensures Model() == Run(old(Model()), events)
    {
      for i := 0 to |events|
        invariant Model() == Run(old(Model()), events[..i])
      {
        assert events[..i + 1][..i] == events[..i];
        Handle(events[i]);
      }
      assert events[..|events|] == events;
    }
  }

  /** `_collect_text_nodes`: a fresh parser fed the page's events.  Every
      node has text, none lies in a script or style, and the indices along
      every open path stay below their parents' counters. */
  method CollectTextNodes(events: seq<Event>) returns (r: seq<TextNode>)
    ensures r == Run(Initial, events).nodes
    ensures NodesOk(r)
  {
    var parser := new VisibleTextParser();
    parser.Feed(events);
    r := parser.nodes;
    RunInv(Initial, events);
  }
}
