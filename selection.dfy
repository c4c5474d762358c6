/** Choosing the description of a price in pricing_scrapper/scraper.py:
    finding the text node the price came from, picking the best
    neighbouring text node, and falling back to the text window. */
module Selection {
  import opened Text
  import opened Candidates
  import opened VisibleText

  // ---------------------------------------------------------------------
  // `str.split(price, 1)`

  /** The text before the first occurrence of `sep`. */
  function Before(text: string, sep: string): string
    requires FindFrom(text, sep, 0) != -1
  {
    text[..FindFrom(text, sep, 0)]
  }

  /** The text after the first occurrence of `sep`. */
  function After(text: string, sep: string): string
    requires FindFrom(text, sep, 0) != -1
  {
    text[FindFrom(text, sep, 0) + |sep|..]
  }

  /** The two halves put back around the separator give the text, and the
      separator does not occur earlier. */
  lemma SplitOnce(text: string, sep: string)
    requires FindFrom(text, sep, 0) != -1
    ensures text == Before(text, sep) + sep + After(text, sep)
    ensures forall i :: 0 <= i < |Before(text, sep)| ==> !IsAt(text, sep, i)
  {
    var p := FindFrom(text, sep, 0);
    assert text[p..p + |sep|] == sep;
    assert text == text[..p] + text[p..p + |sep|] + text[p + |sep|..];
  }

  // ---------------------------------------------------------------------
  // `_locate_node_for_price`

  /** Where `price` occurs in node `i` at or after what is already consumed. */
  function FindIn(nodes: seq<TextNode>, price: string, consumed: seq<nat>, i: nat): int
    requires i < |nodes| && |consumed| == |nodes|
  {
    FindFrom(nodes[i].text, price, consumed[i])
  }

  /** The first node in `[lo, hi)` that still holds the price. */
  function FirstHit(nodes: seq<TextNode>, price: string, consumed: seq<nat>, lo: nat, hi: nat): (r: Option<nat>)
    requires |consumed| == |nodes| && hi <= |nodes|
    ensures r.Some? ==> lo <= r.value < hi && FindIn(nodes, price, consumed, r.value) != -1
    ensures r.Some? ==> forall j :: lo <= j < r.value ==> FindIn(nodes, price, consumed, j) == -1
    ensures r.None? ==> forall j :: lo <= j < hi ==> FindIn(nodes, price, consumed, j) == -1
    decreases hi - lo
  {
    if lo >= hi then None
    else if FindIn(nodes, price, consumed, lo) != -1 then Some(lo)
    else FirstHit(nodes, price, consumed, lo + 1, hi)
  }

  /** The node the price is attributed to: the first one from `start` on
      that still holds it, else the first one from the beginning. */
  function Locate(nodes: seq<TextNode>, price: string, consumed: seq<nat>, start: nat): (r: Option<nat>)
    requires |consumed| == |nodes|
    ensures r.Some? ==>
      r.value < |nodes| &&
      consumed[r.value] <= FindIn(nodes, price, consumed, r.value) &&
      IsAt(nodes[r.value].text, price, FindIn(nodes, price, consumed, r.value))
    ensures r.Some? && start <= r.value ==>
      forall j :: start <= j < r.value ==> FindIn(nodes, price, consumed, j) == -1
    ensures r.Some? && r.value < start ==>
      (forall j :: start <= j < |nodes| ==> FindIn(nodes, price, consumed, j) == -1) &&
      (forall j :: 0 <= j < r.value ==> FindIn(nodes, price, consumed, j) == -1)
    ensures r.None? <==> forall j :: 0 <= j < |nodes| ==> FindIn(nodes, price, consumed, j) == -1
  {
    if nodes == [] then None
    else
      match FirstHit(nodes, price, consumed, start, |nodes|)
      case Some(i) => Some(i)
      case None => FirstHit(nodes, price, consumed, 0, |nodes|)
  }

  /** `_locate_node_for_price`: on success the node's consumed offset moves
      past the occurrence found, and nothing else changes. */
  method LocateNodeForPrice(nodes: seq<TextNode>, price: string, consumed: array<nat>, start: nat)
    returns (r: Option<nat>)
    requires consumed.Length == |nodes|
    modifies consumed
    ensures r == Locate(nodes, price, old(consumed[..]), start)
    ensures r.Some? ==>
      consumed[..] == old(consumed[..])[r.value := FindIn(nodes, price, old(consumed[..]), r.value) + |price|]
    ensures r.None? ==> consumed[..] == old(consumed[..])
  {
    if |nodes| == 0 {
      return None;
    }
    r := ClaimFirstHit(nodes, price, consumed, start);
    if r.None? {
      r := ClaimFirstHit(nodes, price, consumed, 0);
    }
  }

  /** One scan of `_locate_node_for_price`: the first node from `lo` on
      that still holds the price has its consumed offset moved past it. */
  method ClaimFirstHit(nodes: seq<TextNode>, price: string, consumed: array<nat>, lo: nat)
    returns (r: Option<nat>)
    requires consumed.Length == |nodes|
    modifies consumed
    ensures r == FirstHit(nodes, price, old(consumed[..]), lo, |nodes|)
    ensures r.Some? ==>
      r.value < |nodes| &&
      consumed[..] == old(consumed[..])[r.value := FindIn(nodes, price, old(consumed[..]), r.value) + |price|]
    ensures r.None? ==> consumed[..] == old(consumed[..])
  {
    var n := |nodes|;
    ghost var before := consumed[..];
    var idx := lo;
    while idx < n
      invariant lo <= idx && consumed[..] == before
      invariant FirstHit(nodes, price, before, lo, n) == FirstHit(nodes, price, before, idx, n)
      decreases n - idx
    {
      var pos := FindFrom(nodes[idx].text, price, consumed[idx]);
      assert pos == FindIn(nodes, price, before, idx);
      if pos != -1 {
        consumed[idx] := pos + |price|;
        return Some(idx);
      }
      idx := idx + 1;
    }
    return None;
  }

  // ---------------------------------------------------------------------
  // `_select_best_neighbor_description`

  /** The prepared text of every node, in order.  The scans below read a
      node's candidate text from this sequence; `_prepare_candidate_text`
      is a pure function of the node's text, so preparing each node once
      up front gives the same texts the loops compute as they go. */
  function PreparedTexts(nodes: seq<TextNode>): (r: seq<string>)
    ensures |r| == |nodes|
  {
    seq(|nodes|, j requires 0 <= j < |nodes| => Prepared(nodes[j].text))
  }

  lemma PreparedTextsAt(nodes: seq<TextNode>, j: nat)
    requires j < |nodes|
    ensures PreparedTexts(nodes)[j] == Prepared(nodes[j].text)
  {
  }

  /** What a scan learns from one node: its score, whether the scan stops
      there once something has scored above zero, and its candidate text. */
  datatype Entry = Entry(score: int, halt: bool, text: string)

  /** Node `j` seen from the price node `p` by the backward scan: scored
      at distance `p - j`; it stops the scan eight or more nodes away, or
      four or more away outside the price's branch.  A node whose text
      prepares to nothing is skipped: it scores nothing and stops nothing. */
  function BackEntry(nodes: seq<TextNode>, cands: seq<string>, p: nat, j: nat): Entry
    requires j < p < |nodes| == |cands|
  {
    var c := cands[j];
    Entry(if c == [] then 0 else ScoreCandidate(c, nodes[j].path, nodes[p].path, p - j),
          c != [] && (p - j >= 8 || (SharedPrefix(nodes[j].path, nodes[p].path) == 0 && p - j >= 4)),
          c)
  }

  /** Node `j` seen by the forward scan: scored two nodes farther than it
      is, and it stops the scan six or more nodes away. */
  function ForwardEntry(nodes: seq<TextNode>, cands: seq<string>, p: nat, j: nat): Entry
    requires p < j < |nodes| == |cands|
  {
    var c := cands[j];
    Entry(if c == [] then 0 else ScoreCandidate(c, nodes[j].path, nodes[p].path, j - p + 2),
          c != [] && j - p >= 6, c)
  }

  /** The `n` nodes nearest before `p`, nearest first. */
  function BackEntries(nodes: seq<TextNode>, cands: seq<string>, p: nat, n: nat): (r: seq<Entry>)
    requires n <= p < |nodes| == |cands|
    ensures |r| == n
  {
    if n == 0 then [] else BackEntries(nodes, cands, p, n - 1) + [BackEntry(nodes, cands, p, p - n)]
  }

  /** The `n` nodes nearest after `p`, nearest first. */
  function ForwardEntries(nodes: seq<TextNode>, cands: seq<string>, p: nat, n: nat): (r: seq<Entry>)
    requires p + n < |nodes| == |cands|
    ensures |r| == n
  {
    if n == 0 then [] else ForwardEntries(nodes, cands, p, n - 1) + [ForwardEntry(nodes, cands, p, p + n)]
  }

  /** All the nodes before `p`, nearest first. */
  function Behind(nodes: seq<TextNode>, cands: seq<string>, p: nat): (r: seq<Entry>)
    requires p < |nodes| == |cands|
    ensures |r| == p
  {
    BackEntries(nodes, cands, p, p)
  }

  /** All the nodes after `p`, nearest first. */
  function Ahead(nodes: seq<TextNode>, cands: seq<string>, p: nat): (r: seq<Entry>)
    requires p < |nodes| == |cands|
    ensures |r| == |nodes| - p - 1
  {
    ForwardEntries(nodes, cands, p, |nodes| - p - 1)
  }

  /** Entry `t` of the backward run is node `p - 1 - t`. */
  lemma {:induction false} BackEntriesAt(nodes: seq<TextNode>, cands: seq<string>, p: nat, n: nat, t: nat)
    requires t < n <= p < |nodes| == |cands|
    ensures BackEntries(nodes, cands, p, n)[t] == BackEntry(nodes, cands, p, p - 1 - t)
    decreases n
  {
    if t < n - 1 {
      BackEntriesAt(nodes, cands, p, n - 1, t);
    }
  }

  /** Entry `t` of the forward run is node `p + 1 + t`. */
  lemma {:induction false} ForwardEntriesAt(nodes: seq<TextNode>, cands: seq<string>, p: nat, n: nat, t: nat)
    requires t < n && p + n < |nodes| == |cands|
    ensures ForwardEntries(nodes, cands, p, n)[t] == ForwardEntry(nodes, cands, p, p + 1 + t)
    decreases n
  {
    if t < n - 1 {
      ForwardEntriesAt(nodes, cands, p, n - 1, t);
    }
  }

  // A scan examines entries in order, keeps the first best score above
  // zero, and stops after a halting entry once something scored above
  // zero.

  /** Where a scan that has examined the entries below `t` stops (`seen`:
      one of them scored above zero); None when it runs out of entries. */
  function Stop(es: seq<Entry>, t: nat, seen: bool): (r: Option<nat>)
    requires t <= |es|
    ensures r.Some? ==> t < r.value <= |es|
    decreases |es| - t
  {
    if t == |es| then None
    else if es[t].halt && (seen || es[t].score > 0) then Some(t + 1)
    else Stop(es, t + 1, seen || es[t].score > 0)
  }

  /** How many entries the scan examines. */
  function Examined(es: seq<Entry>): (n: nat)
    ensures n <= |es|
  {
    match Stop(es, 0, false)
    case None => |es|
    case Some(s) => s
  }

  /** Entry `t` is the scan's choice among the first `stop`: above zero,
      above every nearer score, and no farther one examined beats it. */
  predicate Pick(es: seq<Entry>, stop: nat, t: nat) {
    t < stop <= |es| && es[t].score > 0 &&
    (forall k :: 0 <= k < t ==> es[k].score < es[t].score) &&
    (forall k :: t < k < stop ==> es[k].score <= es[t].score)
  }

  /** The scan has at most one choice. */
  lemma PickUnique(es: seq<Entry>, stop: nat, t1: nat, t2: nat)
    requires Pick(es, stop, t1) && Pick(es, stop, t2)
    ensures t1 == t2
  {
  }

  /** Some entry scores above zero. */
  predicate AnyPositive(es: seq<Entry>) {
    exists t :: 0 <= t < |es| && es[t].score > 0
  }

  /** A scan that has not stopped, after the entries `es`, with its
      running best score and the entry it came from. */
  ghost predicate Running(es: seq<Entry>, best: int, found: bool, bt: nat) {
    best >= 0 && (best == 0 <==> !found) && Stop(es, 0, false).None? &&
    (!found ==> forall k :: 0 <= k < |es| ==> es[k].score <= 0) &&
    (found ==> Pick(es, |es|, bt) && best == es[bt].score)
  }

  /** Stopping is decided by the entries examined so far. */
  lemma {:induction false} StopSnoc(es: seq<Entry>, e: Entry, t: nat, seen: bool)
    requires t <= |es| && Stop(es, t, seen).None?
    ensures Stop(es + [e], t, seen) ==
      if e.halt && (seen || e.score > 0 || exists k :: t <= k < |es| && es[k].score > 0)
      then Some(|es| + 1) else None
    decreases |es| - t
  {
    var es' := es + [e];
    if t < |es| {
      assert es'[t] == es[t];
      StopSnoc(es, e, t + 1, seen || es[t].score > 0);
      if exists k :: t <= k < |es| && es[k].score > 0 {
        var k :| t <= k < |es| && es[k].score > 0;
        if k > t {
          assert t + 1 <= k < |es| && es[k].score > 0;
        }
      }
    }
  }

  /** One more entry for a running scan: either it stops there with its
      choice, or it keeps running. */
  lemma RunStep(es: seq<Entry>, e: Entry, best: int, found: bool, bt: nat,
                best': int, found': bool, bt': nat)
    requires Running(es, best, found, bt)
    requires e.score > best ==> best' == e.score && found' && bt' == |es|
    requires e.score <= best ==> best' == best && found' == found && bt' == bt
    ensures e.halt && best' > 0 ==>
      Stop(es + [e], 0, false) == Some(|es| + 1) && found' && Pick(es + [e], |es| + 1, bt')
    ensures !(e.halt && best' > 0) ==> Running(es + [e], best', found', bt')
  {
    var es' := es + [e];
    StopSnoc(es, e, 0, false);
    assert found ==> es[bt].score > 0;
    assert (best' > 0) == (e.score > 0 || exists k :: 0 <= k < |es| && es[k].score > 0);
    assert forall k :: 0 <= k < |es| ==> es'[k] == es[k];
  }

  /** A scan that stopped within a prefix stops at the same place in the
      whole sequence. */
  lemma {:induction false} StopPrefix(es: seq<Entry>, n: nat, t: nat, seen: bool)
    requires t <= n <= |es| && Stop(es[..n], t, seen).Some?
    ensures Stop(es, t, seen) == Stop(es[..n], t, seen)
    decreases n - t
  {
    assert es[..n][t] == es[t];
    if !(es[t].halt && (seen || es[t].score > 0)) {
      StopPrefix(es, n, t + 1, seen || es[t].score > 0);
    }
  }

  /** A scan that ran to the end. */
  lemma RanOut(es: seq<Entry>, best: int, found: bool, bt: nat)
    requires Running(es, best, found, bt)
    ensures Examined(es) == |es|
    ensures found <==> AnyPositive(es)
    ensures found ==> Pick(es, |es|, bt)
  {
    if found {
      assert es[bt].score > 0;
    }
  }

  /** The state of a scan: its best score so far, the entry that score
      came from and that entry's text, and whether the scan has stopped. */
  datatype ScanState = ScanState(best: int, choice: Option<nat>, text: Option<string>, halted: bool)

  /** One iteration of the loop on entry `t`: a stopped scan ignores it;
      otherwise a strictly better score takes over the choice, and a
      halting entry stops the scan once the best score is above zero. */
  function Advance(s: ScanState, e: Entry, t: nat): ScanState {
    if s.halted then s
    else
      var s' := if e.score > s.best then ScanState(e.score, Some(t), Some(e.text), false) else s;
      s'.(halted := e.halt && s'.best > 0)
  }

  /** The loop run over the first `n` entries. */
  function Fold(es: seq<Entry>, n: nat): (s: ScanState)
    requires n <= |es|
    ensures s.choice.Some? ==> s.choice.value < n
  {
    if n == 0 then ScanState(0, None, None, false)
    else Advance(Fold(es, n - 1), es[n - 1], n - 1)
  }

  /** The loop over the first `n` entries sees only those. */
  lemma {:induction false} FoldPrefix(es: seq<Entry>, n: nat, m: nat)
    requires n <= m <= |es|
    ensures Fold(es[..m], n) == Fold(es, n)
    decreases n
  {
    if n > 0 {
      FoldPrefix(es, n - 1, m);
      assert es[..m][n - 1] == es[n - 1];
    }
  }

  /** A loop that stopped stays stopped with the same choice. */
  lemma {:induction false} FoldHalted(es: seq<Entry>, n: nat, m: nat)
    requires n <= m <= |es| && Fold(es, n).halted
    ensures Fold(es, m) == Fold(es, n)
    decreases m
  {
    if n < m {
      FoldHalted(es, n, m - 1);
    }
  }

  /** The loop's best score is never negative; it has a text exactly when
      it has a choice, and that is the text of the chosen entry, which
      scored above zero. */
  lemma {:induction false} FoldChoice(es: seq<Entry>, n: nat)
    requires n <= |es|
    ensures var s := Fold(es, n);
      s.best >= 0 && (s.choice.Some? <==> s.text.Some?) &&
      (s.choice.Some? ==> s.text.value == es[s.choice.value].text && es[s.choice.value].score > 0)
    decreases n
  {
    if n > 0 {
      FoldChoice(es, n - 1);
    }
  }

  /** The loop against the reference definitions above: while running it
      keeps the first best score, and once stopped its choice is the
      `Pick` among the entries up to the stop. */
  lemma {:induction false} ScanSound(es: seq<Entry>)
    ensures var s := Fold(es, |es|);
      !s.halted ==> Running(es, s.best, s.choice.Some?, if s.choice.Some? then s.choice.value else 0)
    ensures var s := Fold(es, |es|);
      s.halted ==> s.choice.Some? && Stop(es, 0, false).Some? && Pick(es, Stop(es, 0, false).value, s.choice.value)
    decreases |es|
  {
    if es != [] {
      var init := es[..|es| - 1];
      ScanSound(init);
      if Fold(init, |init|).halted {
        ScanSoundHalted(es);
      } else {
        ScanSoundRunning(es);
      }
    }
  }

  /** The step of `ScanSound` after the loop has stopped. */
  lemma ScanSoundHalted(es: seq<Entry>)
    requires es != []
    requires var init := es[..|es| - 1]; var s := Fold(init, |init|);
      s.halted && s.choice.Some? && Stop(init, 0, false).Some? && Pick(init, Stop(init, 0, false).value, s.choice.value)
    ensures var s := Fold(es, |es|);
      s.halted && s.choice.Some? && Stop(es, 0, false).Some? && Pick(es, Stop(es, 0, false).value, s.choice.value)
  {
    var init := es[..|es| - 1];
    FoldPrefix(es, |init|, |init|);
    StopPrefix(es, |init|, 0, false);
    assert forall k :: 0 <= k < |init| ==> es[k] == init[k];
  }

  /** The step of `ScanSound` while the loop is running. */
  lemma ScanSoundRunning(es: seq<Entry>)
    requires es != []
    requires var init := es[..|es| - 1]; var s := Fold(init, |init|);
      !s.halted && Running(init, s.best, s.choice.Some?, if s.choice.Some? then s.choice.value else 0)
    ensures var s := Fold(es, |es|);
      !s.halted ==> Running(es, s.best, s.choice.Some?, if s.choice.Some? then s.choice.value else 0)
    ensures var s := Fold(es, |es|);
      s.halted ==> s.choice.Some? && Stop(es, 0, false).Some? && Pick(es, Stop(es, 0, false).value, s.choice.value)
  {
    var init := es[..|es| - 1];
    var e := es[|es| - 1];
    assert es == init + [e];
    FoldPrefix(es, |init|, |init|);
    var s := Fold(init, |init|);
    var s' := Advance(s, e, |init|);
    RunStep(init, e, s.best, s.choice.Some?, if s.choice.Some? then s.choice.value else 0,
            s'.best, s'.choice.Some?, if s'.choice.Some? then s'.choice.value else 0);
  }

  /** The loop chooses exactly when some entry scores above zero, and its
      choice is the `Pick` among the entries it examines. */
  lemma ScanMeaning(es: seq<Entry>)
    ensures Fold(es, |es|).choice.Some? <==> AnyPositive(es)
    ensures Fold(es, |es|).choice.Some? ==> Pick(es, Examined(es), Fold(es, |es|).choice.value)
  {
    ScanSound(es);
    var s := Fold(es, |es|);
    if s.halted {
      assert es[s.choice.value].score > 0;
    } else {
      RanOut(es, s.best, s.choice.Some?, if s.choice.Some? then s.choice.value else 0);
    }
  }

  /** The backward loop's choice is a valid candidate, the prepared text
      of the chosen node. */
  lemma BackChosen(nodes: seq<TextNode>, cands: seq<string>, p: nat)
    requires p < |nodes| == |cands|
    ensures var s := Fold(Behind(nodes, cands, p), p);
      (s.choice.Some? <==> s.text.Some?) &&
      (s.choice.Some? ==> s.text.value == cands[p - 1 - s.choice.value] && IsValidCandidate(s.text.value))
  {
    var s := Fold(Behind(nodes, cands, p), p);
    FoldChoice(Behind(nodes, cands, p), p);
    if s.choice.Some? {
      var j := p - 1 - s.choice.value;
      BackEntriesAt(nodes, cands, p, p, s.choice.value);
      ScorePositiveIsValid(cands[j], nodes[j].path, nodes[p].path, p - j);
    }
  }

  /** The forward loop's choice is a valid candidate, the prepared text
      of the chosen node. */
  lemma ForwardChosen(nodes: seq<TextNode>, cands: seq<string>, p: nat)
    requires p < |nodes| == |cands|
    ensures var s := Fold(Ahead(nodes, cands, p), |nodes| - p - 1);
      (s.choice.Some? <==> s.text.Some?) &&
      (s.choice.Some? ==> s.text.value == cands[p + 1 + s.choice.value] && IsValidCandidate(s.text.value))
  {
    var s := Fold(Ahead(nodes, cands, p), |nodes| - p - 1);
    FoldChoice(Ahead(nodes, cands, p), |nodes| - p - 1);
    if s.choice.Some? {
      var j := p + 1 + s.choice.value;
      ForwardEntriesAt(nodes, cands, p, |nodes| - p - 1, s.choice.value);
      ScorePositiveIsValid(cands[j], nodes[j].path, nodes[p].path, j - p + 2);
    }
  }

  /** One backward step from an unstopped state `before`: node `j`,
      scored `score`, is taken when it beats the best so far, and the loop
      stops there when something positive has been taken and `j` is eight
      nodes away, or four with no shared path. */
  lemma BackStep(nodes: seq<TextNode>, cands: seq<string>, p: nat, j: nat, n: nat,
                 before: ScanState, score: int, best: int, choice: Option<nat>, text: Option<string>)
    requires j < p < |nodes| == |cands| && n == p - 1 - j
    requires Fold(Behind(nodes, cands, p), n) == before && !before.halted
    requires score == if cands[j] == [] then 0 else ScoreCandidate(cands[j], nodes[j].path, nodes[p].path, p - j)
    requires if score > before.best then best == score && choice == Some(n) && text == Some(cands[j])
             else best == before.best && choice == before.choice && text == before.text
    ensures Fold(Behind(nodes, cands, p), n + 1) ==
      ScanState(best, choice, text, cands[j] != [] && best > 0 &&
        (p - j >= 8 || (SharedPrefix(nodes[j].path, nodes[p].path) == 0 && p - j >= 4)))
  {
    BackEntriesAt(nodes, cands, p, p, n);
  }

  /** One forward step, mirrored: the loop stops at six nodes away. */
  lemma ForwardStep(nodes: seq<TextNode>, cands: seq<string>, p: nat, j: nat, n: nat,
                    before: ScanState, score: int, best: int, choice: Option<nat>, text: Option<string>)
    requires p < j < |nodes| == |cands| && n == j - p - 1
    requires Fold(Ahead(nodes, cands, p), n) == before && !before.halted
    requires score == if cands[j] == [] then 0 else ScoreCandidate(cands[j], nodes[j].path, nodes[p].path, j - p + 2)
    requires if score > before.best then best == score && choice == Some(n) && text == Some(cands[j])
             else best == before.best && choice == before.choice && text == before.text
    ensures Fold(Ahead(nodes, cands, p), n + 1) ==
      ScanState(best, choice, text, cands[j] != [] && best > 0 && j - p >= 6)
  {
    ForwardEntriesAt(nodes, cands, p, |nodes| - p - 1, n);
  }

  /** Node `j` is the backward scan's choice. */
  predicate BackwardPick(nodes: seq<TextNode>, cands: seq<string>, p: nat, j: nat)
    requires p < |nodes| == |cands|
  {
    j < p && Pick(Behind(nodes, cands, p), Examined(Behind(nodes, cands, p)), p - 1 - j)
  }

  /** Node `j` is the forward scan's choice. */
  predicate ForwardPick(nodes: seq<TextNode>, cands: seq<string>, p: nat, j: nat)
    requires p < |nodes| == |cands|
  {
    p < j < |nodes| && Pick(Ahead(nodes, cands, p), Examined(Ahead(nodes, cands, p)), j - p - 1)
  }

  /** The price's own node provides the description: the price occurs in
      it and the text before or after it is a valid candidate. */
  predicate OwnNodeWins(text: string, price: string) {
    FindFrom(text, price, 0) != -1 &&
    (IsValidCandidate(Prepared(Before(text, price))) || IsValidCandidate(Prepared(After(text, price))))
  }

  /** `_select_best_neighbor_description`, with `cands` the prepared texts
      of the nodes.  The price's own node wins when the text before the
      price, or failing that after it, is a valid candidate.  Otherwise,
      when an earlier node scores above zero, the earlier nodes' scan
      chooses; failing that, when a later node scores above zero, the
      later nodes' scan chooses; else there is none. */
  method SelectBestNeighbor(nodes: seq<TextNode>, cands: seq<string>, priceIndex: nat, price: string)
    returns (r: Option<string>)
    requires |cands| == |nodes|
    requires nodes == [] || priceIndex < |nodes|
    requires price != []
    ensures r.Some? ==> IsValidCandidate(r.value)
    ensures nodes == [] ==> r.None?
    ensures nodes != [] && FindFrom(nodes[priceIndex].text, price, 0) != -1 &&
      IsValidCandidate(Prepared(Before(nodes[priceIndex].text, price)))
      ==> r == Some(Prepared(Before(nodes[priceIndex].text, price)))
    ensures nodes != [] && FindFrom(nodes[priceIndex].text, price, 0) != -1 &&
      !IsValidCandidate(Prepared(Before(nodes[priceIndex].text, price))) &&
      IsValidCandidate(Prepared(After(nodes[priceIndex].text, price)))
      ==> r == Some(Prepared(After(nodes[priceIndex].text, price)))
    ensures nodes != [] && !OwnNodeWins(nodes[priceIndex].text, price) &&
      AnyPositive(Behind(nodes, cands, priceIndex))
      ==> exists j: nat :: BackwardPick(nodes, cands, priceIndex, j) && r == Some(cands[j])
    ensures nodes != [] && !OwnNodeWins(nodes[priceIndex].text, price) &&
      !AnyPositive(Behind(nodes, cands, priceIndex)) && AnyPositive(Ahead(nodes, cands, priceIndex))
      ==> exists j: nat :: ForwardPick(nodes, cands, priceIndex, j) && r == Some(cands[j])
    ensures nodes != [] && !OwnNodeWins(nodes[priceIndex].text, price) &&
      !AnyPositive(Behind(nodes, cands, priceIndex)) && !AnyPositive(Ahead(nodes, cands, priceIndex))
      ==> r.None?
  {
    if nodes == [] {
      return None;
    }
    var p := priceIndex;
    var priceNode := nodes[p];

    if FindFrom(priceNode.text, price, 0) != -1 {
      var before := Before(priceNode.text, price);
      var after := After(priceNode.text, price);
      var candidateText := PrepareCandidateText(before);
      if IsValidCandidate(candidateText) {
        return Some(candidateText);
      }
      candidateText := PrepareCandidateText(after);
      if IsValidCandidate(candidateText) {
        return Some(candidateText);
      }
    }
    assert !OwnNodeWins(priceNode.text, price);
    r := ScanNeighbours(nodes, cands, p);
  }

  /** The scans of `_select_best_neighbor_description` once the price's
      own node has no description: the earlier nodes', then the later
      nodes'. */
  method ScanNeighbours(nodes: seq<TextNode>, cands: seq<string>, p: nat) returns (r: Option<string>)
    requires p < |nodes| == |cands|
    ensures r.Some? ==> IsValidCandidate(r.value)
    ensures AnyPositive(Behind(nodes, cands, p))
      ==> exists j: nat :: BackwardPick(nodes, cands, p, j) && r == Some(cands[j])
    ensures !AnyPositive(Behind(nodes, cands, p)) && AnyPositive(Ahead(nodes, cands, p))
      ==> exists j: nat :: ForwardPick(nodes, cands, p, j) && r == Some(cands[j])
    ensures !AnyPositive(Behind(nodes, cands, p)) && !AnyPositive(Ahead(nodes, cands, p))
      ==> r.None?
  {
    BackChosen(nodes, cands, p);
    ScanMeaning(Behind(nodes, cands, p));
    ForwardChosen(nodes, cands, p);
    ScanMeaning(Ahead(nodes, cands, p));
    r := BackwardScan(nodes, cands, p);
    if r.Some? {
      assert BackwardPick(nodes, cands, p, p - 1 - Fold(Behind(nodes, cands, p), p).choice.value);
    } else {
      r := ForwardScan(nodes, cands, p);
      if r.Some? {
        assert ForwardPick(nodes, cands, p, p + 1 + Fold(Ahead(nodes, cands, p), |nodes| - p - 1).choice.value);
      }
    }
  }

  /** The loop over the nodes before the price node, nearest first: it
      ends as the scan of their entries does. */
  method BackwardScan(nodes: seq<TextNode>, cands: seq<string>, p: nat) returns (r: Option<string>)
    requires p < |nodes| == |cands|
    ensures r == Fold(Behind(nodes, cands, p), p).text
  {
    var best := 0;
    r := None;
    ghost var choice: Option<nat> := None;
    ghost var n: nat := 0;
    var idx: int := p - 1;
    while idx >= 0
      invariant -1 <= idx < p && n == p - 1 - idx && best >= 0
      invariant Fold(Behind(nodes, cands, p), n) == ScanState(best, choice, r, false)
      decreases idx
    {
      var stop;
      best, r, choice, stop := BackwardVisit(nodes, cands, p, idx, n, best, r, choice);
      if stop {
        FoldHalted(Behind(nodes, cands, p), n + 1, p);
        return;
      }
      idx, n := idx - 1, n + 1;
    }
  }

  /** One node of the backward loop: scored unless its text is empty, and
      the loop told to stop once a positive best is found at eight nodes
      away, or at four when the node shares no path with the price's. */
  method BackwardVisit(nodes: seq<TextNode>, cands: seq<string>, p: nat, idx: nat, ghost n: nat,
                       best0: int, r0: Option<string>, ghost choice0: Option<nat>)
    returns (best: int, r: Option<string>, ghost choice: Option<nat>, stop: bool)
    requires idx < p < |nodes| == |cands| && n == p - 1 - idx && best0 >= 0
    requires Fold(Behind(nodes, cands, p), n) == ScanState(best0, choice0, r0, false)
    ensures best >= 0
    ensures Fold(Behind(nodes, cands, p), n + 1) == ScanState(best, choice, r, stop)
  {
    var pricePath := nodes[p].path;
    var distance := p - idx;
    var candidateText := cands[idx];
    ghost var before := ScanState(best0, choice0, r0, false);
    best, r, choice, stop := best0, r0, choice0, false;
    if candidateText == [] {
      BackStep(nodes, cands, p, idx, n, before, 0, best, choice, r);
      return;
    }
    var score := ScoreCandidate(candidateText, nodes[idx].path, pricePath, distance);
    if score > best {
      best, r, choice := score, Some(candidateText), Some(n);
    }
    BackStep(nodes, cands, p, idx, n, before, score, best, choice, r);
    if distance >= 8 && best > 0 {
      stop := true;
      return;
    }
    var shared := CommonPrefixLength(nodes[idx].path, pricePath);
    if shared == 0 && distance >= 4 {
      if best > 0 {
        stop := true;
        return;
      }
    }
  }

  /** The loop over the nodes after the price node, nearest first, each
      scored two nodes farther than it is. */
  method ForwardScan(nodes: seq<TextNode>, cands: seq<string>, p: nat) returns (r: Option<string>)
    requires p < |nodes| == |cands|
    ensures r == Fold(Ahead(nodes, cands, p), |nodes| - p - 1).text
  {
    var pricePath := nodes[p].path;
    var best := 0;
    r := None;
    ghost var choice: Option<nat> := None;
    ghost var n: nat := 0;
    var idx := p + 1;
    while idx < |nodes|
      invariant p < idx <= |nodes| && n == idx - p - 1 && best >= 0
      invariant Fold(Ahead(nodes, cands, p), n) == ScanState(best, choice, r, false)
      decreases |nodes| - idx
    {
      var distance := idx - p;
      var candidateText := cands[idx];
      ghost var before := ScanState(best, choice, r, false);
      if candidateText == [] {
        ForwardStep(nodes, cands, p, idx, n, before, 0, best, choice, r);
        idx, n := idx + 1, n + 1;
        continue;
      }
      var score := ScoreCandidate(candidateText, nodes[idx].path, pricePath, distance + 2);
      if score > best {
        best, r, choice := score, Some(candidateText), Some(n);
      }
      ForwardStep(nodes, cands, p, idx, n, before, score, best, choice, r);
      if distance >= 6 && best > 0 {
        break;
      }
      idx, n := idx + 1, n + 1;
    }
    if idx < |nodes| {
      FoldHalted(Ahead(nodes, cands, p), n + 1, |nodes| - p - 1);
    }
  }
}
