/**
 * The matching algorithms of nlcmd's MarkovChain as functions of the node
 * map: finding the first known window, walking edges from it (queryEdge at
 * every step), one sub-match (_scanSingleMatch), the strict whole-phrase
 * match and the sub-phrase scan. The chain class runs the same algorithms
 * with loops and is proved to agree with these definitions.
 */
module Scanning {
  import opened Base
  import opened Edges
  import opened Matches
  import opened Mixins
  import opened Training
  import opened Nodes

  /** The index of the first window, from window `k` on, that labels a node. */
  function FirstWindow(g: Graph, phrase: seq<string>, order: nat, k: nat): (r: Option<nat>)
    requires k + order <= |phrase| + 1
    ensures r.Some? ==> k <= r.value && r.value + order <= |phrase| && Window(phrase, order, r.value) in g
    ensures r.Some? ==> forall j :: k <= j < r.value ==> Window(phrase, order, j) !in g
    ensures r.None? ==> forall j :: k <= j && j + order <= |phrase| ==> Window(phrase, order, j) !in g
    decreases |phrase| - k
  {
    if k + order > |phrase| then None
    else if Window(phrase, order, k) in g then Some(k)
    else FirstWindow(g, phrase, order, k + 1)
  }

  /** The state at the end of a walk: edges taken, their probability sum, the details. */
  datatype Walked = Walked(nEdges: nat, sum: real, details: Details)

  /** The edge table of node `l`; a node the map lacks has none. */
  function TableOf(g: Graph, l: Label): Table
  {
    if l in g then g[l] else []
  }

  /**
   * The walk of _scanSingleMatch: the first window was found at `offset`,
   * `nEdges` edges have been taken so far and `node` is the current node.
   * Each further window is handed to queryEdge (with the capture offset
   * `offset + nEdges`); the walk ends when the windows run out or no edge is
   * found.
   */
  function Walk(g: Graph, phrase: seq<string>, order: nat, node: Label, offset: nat, nEdges: nat, sum: real,
                d: Details): (r: Outcome<Walked>)
    requires offset + nEdges + order <= |phrase|
    ensures r.Return? ==> nEdges <= r.value.nEdges && offset + r.value.nEdges + order <= |phrase|
    ensures r.Return? ==> r.value.details.entries == d.entries
    decreases |phrase| - nEdges, 2
  {
    if offset + nEdges + 1 + order > |phrase| then Return(Walked(nEdges, sum, d))
    else SlideOn(g, phrase, order, node, offset, nEdges, sum, d)
  }

  /** The window slid to while windows remain: the one after the `nEdges` windows walked from `offset`. */
  function SlideOn(g: Graph, phrase: seq<string>, order: nat, node: Label, offset: nat, nEdges: nat, sum: real,
                   d: Details): (r: Outcome<Walked>)
    requires offset + nEdges + 1 + order <= |phrase|
    ensures r.Return? ==> nEdges <= r.value.nEdges && offset + r.value.nEdges + order <= |phrase|
    ensures r.Return? ==> r.value.details.entries == d.entries
    decreases |phrase| - nEdges, 1
  {
    QueryOn(g, phrase, order, node, offset, nEdges, sum, d, Window(phrase, order, offset + nEdges + 1))
  }

  /** Window `w` handed to queryEdge, and the edge found followed. */
  function QueryOn(g: Graph, phrase: seq<string>, order: nat, node: Label, offset: nat, nEdges: nat, sum: real,
                   d: Details, w: Label): (r: Outcome<Walked>)
    requires offset + nEdges + 1 + order <= |phrase|
    ensures r.Return? ==> nEdges <= r.value.nEdges && offset + r.value.nEdges + order <= |phrase|
    ensures r.Return? ==> r.value.details.entries == d.entries
    decreases |phrase| - nEdges, 0
  {
    var f :- QueryEdgeSpec(node, TableOf(g, node), w, d, offset + nEdges);
    match f.edge
    case None => Return(Walked(nEdges, sum, f.details))
    case Some(e) =>
      Walk(g, phrase, order, e.target, offset, nEdges + 1, sum + e.probability, f.details)
  }

  /** One step of the walk while windows remain, with the query's outcome named. */
  lemma WalkStep(g: Graph, phrase: seq<string>, order: nat, node: Label, offset: nat, nEdges: nat, sum: real,
                 d: Details, q: Outcome<Found>)
    requires offset + nEdges + 1 + order <= |phrase|
    requires q == QueryEdgeSpec(node, TableOf(g, node), Window(phrase, order, offset + nEdges + 1), d, offset + nEdges)
    ensures q.Throw? ==> Walk(g, phrase, order, node, offset, nEdges, sum, d) == Throw(q.error)
    ensures q.Return? && q.value.edge.None? ==>
      Walk(g, phrase, order, node, offset, nEdges, sum, d) == Return(Walked(nEdges, sum, q.value.details))
    ensures q.Return? && q.value.edge.Some? ==>
      Walk(g, phrase, order, node, offset, nEdges, sum, d) ==
      Walk(g, phrase, order, q.value.edge.value.target, offset, nEdges + 1, sum + q.value.edge.value.probability,
           q.value.details)
  {
    var w := Window(phrase, order, offset + nEdges + 1);
    assert Walk(g, phrase, order, node, offset, nEdges, sum, d) == QueryOn(g, phrase, order, node, offset, nEdges, sum, d, w);
  }

  /**
   * Window `w` falls through to step 3 at `node`: no exact edge, and neither
   * placeholder step finds one.
   */
  predicate Absorbed(g: Graph, node: Label, w: Label)
  {
    var t := TableOf(g, node);
    Lookup(t, w).None? && Step1(t, w, 0) == Return(None) && Step2(t, w, 0) == Return(None)
  }

  /** The details with `words` appended to the pending capture. */
  function Captured(d: Details, words: seq<string>): (r: Details)
    requires d.pending.Some?
    ensures r.entries == d.entries && r.pending.Some?
    ensures r.pending.value.token == d.pending.value.token && r.pending.value.offset == d.pending.value.offset
    ensures |r.pending.value.words| == |d.pending.value.words| + |words|
  {
    d.(pending := Some(d.pending.value.(words := d.pending.value.words + words)))
  }

  /**
   * A walk standing on a node whose label ends in a placeholder, with a
   * capture pending, stays on that node for every window that no edge
   * matches: each step takes the reflexive edge of probability 1.0 and
   * appends the window's last token to the capture, so `n` such windows
   * add `n` edges, `n` to the sum, and the `n` tokens they end with.
   */
  lemma {:induction false} WalkCaptures(g: Graph, phrase: seq<string>, order: nat, node: Label, offset: nat,
                                        nEdges: nat, n: nat, sum: real, d: Details)
    requires offset + nEdges + n + order <= |phrase|
    requires |node| == order && order > 0 && IsPlaceholder(node[order - 1]) && d.pending.Some?
    requires forall j :: offset + nEdges < j <= offset + nEdges + n ==> Absorbed(g, node, Window(phrase, order, j))
    ensures Walk(g, phrase, order, node, offset, nEdges, sum, d) ==
      Walk(g, phrase, order, node, offset, nEdges + n, sum + n as real,
           Captured(d, phrase[offset + nEdges + order..offset + nEdges + n + order]))
    decreases n
  {
    var words := phrase[offset + nEdges + order..offset + nEdges + n + order];
    if n == 0 {
      assert d.pending.value.words + words == d.pending.value.words;
      assert Captured(d, words) == d;
    } else {
      var w := Window(phrase, order, offset + nEdges + 1);
      assert Absorbed(g, node, w);
      var q := QueryEdgeSpec(node, TableOf(g, node), w, d, offset + nEdges);
      assert w[order - 1] == phrase[offset + nEdges + order];
      var d1 := Captured(d, [phrase[offset + nEdges + order]]);
      assert q == Return(Found(Some(Edge(node, 1.0)), d1));
      WalkStep(g, phrase, order, node, offset, nEdges, sum, d, q);
      WalkCaptures(g, phrase, order, node, offset, nEdges + 1, n - 1, sum + 1.0, d1);
      assert d1.pending.value.words + phrase[offset + nEdges + 1 + order..offset + nEdges + n + order] ==
        d.pending.value.words + words;
      assert sum + 1.0 + (n - 1) as real == sum + n as real;
    }
  }

  /** The outcome of one sub-match: its average (or a sentinel), the details and the mixin record. */
  datatype Single = Single(avg: Double, details: Details, mixin: MixinState)

  /** `e` records tokens of `phrase`, whose first token sits at offset `base`. */
  predicate Covers(e: Entry, phrase: seq<string>, base: int)
  {
    base <= e.offset && e.offset - base + |e.tokens| <= |phrase| &&
    e.tokens == phrase[e.offset - base..e.offset - base + |e.tokens|]
  }

  /**
   * MarkovChain._scanSingleMatch on `phrase`, which starts at `phraseOffset`
   * of the scanned phrase: -1 for a phrase of at most `order` tokens; 0 when
   * no window labels a node (the mixin has seen initQuery, no entry is
   * made); otherwise the walk's average, recorded as a new entry covering
   * the first known window and the windows walked.
   */
  function ScanSingleSpec(g: Graph, phrase: seq<string>, phraseOffset: int, order: nat, d: Details,
                          kind: Kind, m: MixinState): (r: Outcome<Single>)
    ensures |phrase| < order + 1 ==> r == Return(Single(Finite(-1.0), d, m))
    ensures r.Return? ==> |d.entries| <= |r.value.details.entries| <= |d.entries| + 1
    ensures r.Return? ==> r.value.details.entries[..|d.entries|] == d.entries
    ensures r.Return? && |r.value.details.entries| == |d.entries| ==>
      r.value.avg == Finite(if |phrase| < order + 1 then -1.0 else 0.0)
    ensures r.Return? && |r.value.details.entries| > |d.entries| ==>
      var e := r.value.details.entries[|d.entries|];
      Covers(e, phrase, phraseOffset) && order <= |e.tokens| && e.avg == r.value.avg &&
      (r.value.avg.NaN? <==> |e.tokens| == order)
    // a long enough phrase gains an entry exactly when one of its windows labels a node, and the entry starts
    // at the first such window; without one nothing can fail
    ensures |phrase| >= order + 1 && FirstWindow(g, phrase, order, 0).None? ==>
      r.Return? && r.value.details == d && r.value.avg == Finite(0.0)
    ensures |phrase| >= order + 1 && r.Return? ==>
      (|r.value.details.entries| == |d.entries| <==> FirstWindow(g, phrase, order, 0).None?)
    ensures |phrase| >= order + 1 && r.Return? && FirstWindow(g, phrase, order, 0).Some? ==>
      r.value.details.entries[|d.entries|].offset == phraseOffset + FirstWindow(g, phrase, order, 0).value
  {
    if |phrase| < order + 1 then Return(Single(Finite(-1.0), d, m))
    else match FirstWindow(g, phrase, order, 0)
      case None => Return(Single(Finite(0.0), d, InitQuerySpec(kind, m, |phrase|)))
      case Some(k) => SubMatchSpec(g, phrase, phraseOffset, order, k, d, kind, m)
  }

  /**
   * The sub-match once window `k` labels a node: the walk from it, its
   * average, and a new entry for the tokens walked.
   */
  function SubMatchSpec(g: Graph, phrase: seq<string>, phraseOffset: int, order: nat, k: nat, d: Details,
                        kind: Kind, m: MixinState): (r: Outcome<Single>)
    requires k + order <= |phrase|
    ensures r.Return? ==> |r.value.details.entries| == |d.entries| + 1
    ensures r.Return? ==> r.value.details.entries[..|d.entries|] == d.entries
    ensures r.Return? ==>
      var e := r.value.details.entries[|d.entries|];
      e.offset == phraseOffset + k && k + |e.tokens| <= |phrase| && e.tokens == phrase[k..k + |e.tokens|] &&
      order <= |e.tokens| && e.avg == r.value.avg && (r.value.avg.NaN? <==> |e.tokens| == order)
    // the new entry carries the capture the walk left pending, and no capture stays pending
    ensures r.Return? ==>
      var walk := Walk(g, phrase, order, Window(phrase, order, k), k, 0, 0.0, d);
      walk.Return? && r.value.details.entries[|d.entries|].placeholder == walk.value.details.pending &&
      r.value.details.pending.None?
  {
    var walk := Walk(g, phrase, order, Window(phrase, order, k), k, 0, 0.0, d);
    if walk.Throw? then Throw(walk.error) else
    var w := walk.value;
    var avg := Average(w.sum, w.nEdges);
    var d' := AddEntry(w.details, phrase[k..k + w.nEdges + order], phraseOffset + k, avg);
    assert d'.entries[..|d.entries|] == d.entries;
    Return(Single(avg, d', Recorded(kind, m, |phrase|, w.nEdges, w.sum)))
  }

  /** The outcome of match: the score and the mixin record. */
  datatype Matched = Matched(score: Double, mixin: MixinState)

  /**
   * MarkovChain.match: -1 for a short phrase; the sub-match's average when
   * its single entry covers the whole phrase; 0 otherwise.
   */
  function MatchSpec(g: Graph, phrase: seq<string>, order: nat, kind: Kind, m: MixinState): (r: Outcome<Matched>)
  {
    if |phrase| < order + 1 then Return(Matched(Finite(-1.0), m))
    else
      var single := ScanSingleSpec(g, phrase, 0, order, NoDetails, kind, m);
      if single.Throw? then Throw(single.error)
      else
      var s := single.value;
      var es := s.details.entries;
      if |es| != 1 || es[0].offset != 0 || |es[0].tokens| != |phrase| then Return(Matched(Finite(0.0), s.mixin))
      else Return(Matched(s.avg, s.mixin))
  }

  /** The largest average among `es` and `max`, as scan keeps it with Java's `>`. */
  function Best(max: Double, es: seq<Entry>): Double
    decreases |es|
  {
    if es == [] then max
    else Best(if Greater(es[0].avg, max) then es[0].avg else max, es[1..])
  }

  /** Entries that cover `phrase` in order, without overlap, from offset `from` on. */
  predicate Spans(es: seq<Entry>, phrase: seq<string>, from: int)
  {
    (forall i :: 0 <= i < |es| ==> Covers(es[i], phrase, 0) && from <= es[i].offset) &&
    (forall i :: 0 <= i < |es| - 1 ==> es[i].offset + |es[i].tokens| <= es[i + 1].offset)
  }

  /** The outcome of scan: the best average, the details and the mixin record. */
  datatype Scanned = Scanned(max: Double, details: Details, mixin: MixinState)

  /**
   * The do-while loop of MarkovChain.scan from `offset` on: one sub-match on
   * the rest of the phrase; after a positive average the next attempt
   * starts right after that entry's tokens, otherwise the loop ends.
   */
  function ScanFrom(g: Graph, phrase: seq<string>, order: nat, offset: nat, d: Details, max: Double,
                    kind: Kind, m: MixinState): (r: Outcome<Scanned>)
    requires offset <= |phrase|
    requires max.Finite? && max.value >= 0.0
    ensures r.Return? ==> |d.entries| <= |r.value.details.entries|
    ensures r.Return? ==> r.value.details.entries[..|d.entries|] == d.entries
    ensures r.Return? ==> Spans(r.value.details.entries[|d.entries|..], phrase, offset)
    ensures r.Return? ==> r.value.max == Best(max, r.value.details.entries[|d.entries|..])
    decreases |phrase| - offset
  {
    var single := ScanSingleSpec(g, phrase[offset..], offset, order, d, kind, m);
    if single.Throw? then Throw(single.error)
    else
    var s := single.value;
    var max' := if Greater(s.avg, max) then s.avg else max;
    var es := s.details.entries;
    if Greater(s.avg, Finite(0.0)) then
      var e := es[|es| - 1];
      var r := ScanFrom(g, phrase, order, e.offset + |e.tokens|, s.details, max', kind, s.mixin);
      ScanStep(phrase, offset, d.entries, es, r, max, max');
      r
    else
      assert es[|d.entries|..] == [] || (|es[|d.entries|..]| == 1 && es[|d.entries|] == es[|d.entries|..][0]);
      CoversAllShifted(es, phrase, offset);
      Return(Scanned(max', s.details, s.mixin))
  }

  /** One turn of scan's loop, with the sub-match's outcome named. */
  lemma ScanFromStep(g: Graph, phrase: seq<string>, order: nat, offset: nat, d: Details, max: Double,
                     kind: Kind, m: MixinState, s: Outcome<Single>)
    requires offset <= |phrase|
    requires max.Finite? && max.value >= 0.0
    requires s == ScanSingleSpec(g, phrase[offset..], offset, order, d, kind, m)
    ensures s.Throw? ==> ScanFrom(g, phrase, order, offset, d, max, kind, m) == Throw(s.error)
    ensures s.Return? && !Greater(s.value.avg, Finite(0.0)) ==>
      ScanFrom(g, phrase, order, offset, d, max, kind, m) ==
      Return(Scanned(if Greater(s.value.avg, max) then s.value.avg else max, s.value.details, s.value.mixin))
    ensures s.Return? && Greater(s.value.avg, Finite(0.0)) ==>
      var es := s.value.details.entries;
      |es| > 0 && offset < es[|es| - 1].offset + |es[|es| - 1].tokens| <= |phrase| &&
      ScanFrom(g, phrase, order, offset, d, max, kind, m) ==
      ScanFrom(g, phrase, order, es[|es| - 1].offset + |es[|es| - 1].tokens|, s.value.details,
               if Greater(s.value.avg, max) then s.value.avg else max, kind, s.value.mixin)
  {
  }

  /** An entry covering a suffix of the phrase that starts at `offset` covers the phrase. */
  lemma CoversShifted(e: Entry, phrase: seq<string>, offset: nat)
    requires offset <= |phrase|
    ensures Covers(e, phrase[offset..], offset) ==> Covers(e, phrase, 0)
  {
    if Covers(e, phrase[offset..], offset) {
      assert phrase[offset..][e.offset - offset..e.offset - offset + |e.tokens|] == phrase[e.offset..e.offset + |e.tokens|];
    }
  }

  lemma CoversAllShifted(es: seq<Entry>, phrase: seq<string>, offset: nat)
    requires offset <= |phrase|
    ensures forall i :: 0 <= i < |es| && Covers(es[i], phrase[offset..], offset) ==> Covers(es[i], phrase, 0)
  {
    forall i | 0 <= i < |es| ensures Covers(es[i], phrase[offset..], offset) ==> Covers(es[i], phrase, 0) {
      CoversShifted(es[i], phrase, offset);
    }
  }

  /** One more sub-match in front of the rest of the scan keeps the entries in order and the best average. */
  lemma ScanStep(phrase: seq<string>, offset: nat, before: seq<Entry>, mid: seq<Entry>, r: Outcome<Scanned>,
                 max: Double, max': Double)
    requires offset <= |phrase|
    requires |mid| == |before| + 1 && mid[..|before|] == before
    requires Covers(mid[|before|], phrase[offset..], offset)
    requires max' == if Greater(mid[|before|].avg, max) then mid[|before|].avg else max
    requires r.Return? ==> |mid| <= |r.value.details.entries| && r.value.details.entries[..|mid|] == mid
    requires r.Return? ==> Spans(r.value.details.entries[|mid|..], phrase, mid[|before|].offset + |mid[|before|].tokens|)
    requires r.Return? ==> r.value.max == Best(max', r.value.details.entries[|mid|..])
    ensures r.Return? ==> |before| <= |r.value.details.entries| && r.value.details.entries[..|before|] == before
    ensures r.Return? ==> Spans(r.value.details.entries[|before|..], phrase, offset)
    ensures r.Return? ==> r.value.max == Best(max, r.value.details.entries[|before|..])
  {
    if r.Return? {
      var after := r.value.details.entries;
      var e := mid[|before|];
      CoversShifted(e, phrase, offset);
      assert after[|before|..] == [e] + after[|mid|..];
      assert after[|before|..][1..] == after[|mid|..];
    }
  }

  /**
   * MarkovChain.scan(phrase, details): -1 for a short phrase, otherwise the
   * best sub-match average, starting from 0.
   */
  function ScanSpec(g: Graph, phrase: seq<string>, order: nat, d: Details, kind: Kind, m: MixinState): (r: Outcome<Scanned>)
    ensures |phrase| < order + 1 ==> r == Return(Scanned(Finite(-1.0), d, m))
  {
    if |phrase| < order + 1 then Return(Scanned(Finite(-1.0), d, m))
    else ScanFrom(g, phrase, order, 0, d, Finite(0.0), kind, m)
  }

  // ------------------------------------------------------------ properties

  /** Walking edges whose probabilities lie in [0, 1] keeps the sum between 0 and the number of edges. */
  lemma {:induction false} WalkBounds(g: Graph, phrase: seq<string>, order: nat, node: Label, offset: nat,
                                      nEdges: nat, sum: real, d: Details)
    requires offset + nEdges + order <= |phrase|
    requires Probabilities(g)
    requires 0.0 <= sum <= nEdges as real
    ensures var r := Walk(g, phrase, order, node, offset, nEdges, sum, d);
      r.Return? ==> 0.0 <= r.value.sum <= r.value.nEdges as real
    decreases |phrase| - nEdges
  {
    var k := offset + nEdges + 1;
    if k + order <= |phrase| {
      var f := QueryEdgeSpec(node, TableOf(g, node), Window(phrase, order, k), d, offset + nEdges);
      WalkStep(g, phrase, order, node, offset, nEdges, sum, d, f);
      if f.Return? && f.value.edge.Some? {
        var e := f.value.edge.value;
        if e in TableOf(g, node) {
          var i :| 0 <= i < |g[node]| && g[node][i] == e;
          assert InRange(g[node]);
        }
        WalkBounds(g, phrase, order, e.target, offset, nEdges + 1, sum + e.probability, f.value.details);
      }
    }
  }

  /**
   * On a chain whose probabilities lie in [0, 1], match is -1 exactly for a
   * phrase of at most `order` tokens and otherwise a number in [0, 1] (never
   * the NaN of an edgeless sub-match).
   */
  lemma MatchBounds(g: Graph, phrase: seq<string>, order: nat, kind: Kind, m: MixinState)
    requires Probabilities(g)
    ensures var r := MatchSpec(g, phrase, order, kind, m);
      r.Return? ==> (
        r.value.score.Finite? &&
        (|phrase| < order + 1 ==> r.value.score.value == -1.0) &&
        (|phrase| >= order + 1 ==> 0.0 <= r.value.score.value <= 1.0))
  {
    if |phrase| >= order + 1 {
      var k := FirstWindow(g, phrase, order, 0);
      if k.Some? {
        WalkBounds(g, phrase, order, Window(phrase, order, k.value), k.value, 0, 0.0, NoDetails);
        var w := Walk(g, phrase, order, Window(phrase, order, k.value), k.value, 0, 0.0, NoDetails);
        if w.Return? && w.value.nEdges > 0 {
          QuotientBounded(w.value.sum, w.value.nEdges as real);
        }
      }
    }
  }

  /** Following the trained path from window `j` takes every remaining edge with probability 1. */
  lemma {:induction false} WalkPath(g: Graph, phrase: seq<string>, order: nat, j: nat, d: Details)
    requires order < |phrase|
    requires IsPath(g, phrase, order, |phrase| - order + 1)
    requires j + order <= |phrase|
    ensures Walk(g, phrase, order, Window(phrase, order, j), 0, j, j as real, d) ==
      Return(Walked(|phrase| - order, (|phrase| - order) as real, d))
    decreases |phrase| - j
  {
    if j + order < |phrase| {
      var w := Window(phrase, order, j + 1);
      assert TableOf(g, Window(phrase, order, j)) == [Edge(w, 1.0)];
      assert Lookup([Edge(w, 1.0)], w) == Some(Edge(w, 1.0));
      WalkStep(g, phrase, order, Window(phrase, order, j), 0, j, j as real, d,
               QueryEdgeSpec(Window(phrase, order, j), [Edge(w, 1.0)], w, d, j));
      WalkPath(g, phrase, order, j + 1, d);
      assert j as real + 1.0 == (j + 1) as real;
    }
  }

  /** A sub-match over a trained path starts at window 0 and covers the whole phrase with average 1. */
  lemma PathScansWhole(g: Graph, phrase: seq<string>, order: nat, kind: Kind, m: MixinState)
    requires order < |phrase| && IsPath(g, phrase, order, |phrase| - order + 1)
    ensures ScanSingleSpec(g, phrase, 0, order, NoDetails, kind, m) ==
      Return(Single(Finite(1.0), Details([Entry(phrase, 0, Finite(1.0), None)], None),
                    Recorded(kind, m, |phrase|, |phrase| - order, (|phrase| - order) as real)))
  {
    assert Window(phrase, order, 0) in g;
    assert FirstWindow(g, phrase, order, 0) == Some(0);
    WalkPath(g, phrase, order, 0, NoDetails);
    var n := |phrase| - order;
    AverageOfOnes(n);
    assert phrase[0..0 + n + order] == phrase;
    assert AddEntry(NoDetails, phrase, 0, Finite(1.0)) == Details([Entry(phrase, 0, Finite(1.0), None)], None);
  }

  /**
   * A fresh chain trained on one phrase whose windows are all different
   * matches that phrase with 1.0: every edge of the path has probability 1.
   */
  lemma TrainedPhraseMatches(phrase: seq<string>, order: nat, kind: Kind, m: MixinState)
    requires order < |phrase| && DistinctWindows(phrase, order)
    ensures MatchSpec(TrainSpec(Empty, phrase, order).graph, phrase, order, kind, m) ==
      Return(Matched(Finite(1.0), Recorded(kind, m, |phrase|, |phrase| - order, (|phrase| - order) as real)))
  {
    var n := |phrase| - order + 1;
    var g := TrainUpTo(Empty, phrase, order, n).graph;
    assert TrainSpec(Empty, phrase, order).graph == g;
    TrainUpToPath(phrase, order, n);
    PathMatches(g, phrase, order, kind, m);
  }

  /** A node map holding the path of a phrase matches that phrase with 1.0. */
  lemma PathMatches(g: Graph, phrase: seq<string>, order: nat, kind: Kind, m: MixinState)
    requires order < |phrase| && IsPath(g, phrase, order, |phrase| - order + 1)
    ensures MatchSpec(g, phrase, order, kind, m) ==
      Return(Matched(Finite(1.0), Recorded(kind, m, |phrase|, |phrase| - order, (|phrase| - order) as real)))
  {
    PathScansWhole(g, phrase, order, kind, m);
  }

  /** A chain trained on "foo bar baz" at order 1 matches that phrase with the score 1.0. */
  lemma FooBarBazMatches(kind: Kind, m: MixinState)
    ensures MatchSpec(TrainSpec(Empty, ["foo", "bar", "baz"], 1).graph, ["foo", "bar", "baz"], 1, kind, m).Return?
    ensures MatchSpec(TrainSpec(Empty, ["foo", "bar", "baz"], 1).graph, ["foo", "bar", "baz"], 1, kind, m).value.score == Finite(1.0)
  {
    var phrase := ["foo", "bar", "baz"];
    forall i, j | 0 <= i < j && j + 1 <= |phrase|
      ensures Window(phrase, 1, i) != Window(phrase, 1, j)
    {
      assert Window(phrase, 1, i)[0] == phrase[i];
      assert Window(phrase, 1, j)[0] == phrase[j];
    }
    TrainedPhraseMatches(phrase, 1, kind, m);
  }

  /**
   * A chain of order 2 trained on "füge wegpunkt in <location> zusätzlich
   * ein" scans "füge wegpunkt in St. Georgen zusätzlich ein" with the best
   * average 1.0, in one entry that covers the whole phrase and carries the
   * capture of <location>: the two words "St." and "Georgen", starting at
   * the window of offset 1.
   */
  lemma StGeorgenCaptured(kind: Kind, m: MixinState)
    ensures var g := TrainSpec(Empty, ["füge", "wegpunkt", "in", "<location>", "zusätzlich", "ein"], 2).graph;
      var s := ScanSpec(g, ["füge", "wegpunkt", "in", "St.", "Georgen", "zusätzlich", "ein"], 2, NoDetails, kind, m);
      s.Return? && s.value.max == Finite(1.0) &&
      s.value.details.entries ==
        [Entry(["füge", "wegpunkt", "in", "St.", "Georgen", "zusätzlich", "ein"], 0, Finite(1.0),
               Some(Placeholder("<location>", 1, ["St.", "Georgen"])))]
  {
    var t := ["füge", "wegpunkt", "in", "<location>", "zusätzlich", "ein"];
    var g := StGeorgenGraph(t);
    StGeorgenTables(g, t);
    StGeorgenScan(g, ["füge", "wegpunkt", "in", "St.", "Georgen", "zusätzlich", "ein"], kind, m);
  }

  /** The scan of StGeorgenCaptured over any node map that holds the trained path. */
  lemma StGeorgenScan(g: Graph, q: seq<string>, kind: Kind, m: MixinState)
    requires q == ["füge", "wegpunkt", "in", "St.", "Georgen", "zusätzlich", "ein"]
    requires ["füge", "wegpunkt"] in g
    requires TableOf(g, ["füge", "wegpunkt"]) == [Edge(["wegpunkt", "in"], 1.0)]
    requires TableOf(g, ["wegpunkt", "in"]) == [Edge(["in", "<location>"], 1.0)]
    requires TableOf(g, ["in", "<location>"]) == [Edge(["<location>", "zusätzlich"], 1.0)]
    requires TableOf(g, ["<location>", "zusätzlich"]) == [Edge(["zusätzlich", "ein"], 1.0)]
    ensures var s := ScanSpec(g, q, 2, NoDetails, kind, m);
      s.Return? && s.value.max == Finite(1.0) &&
      s.value.details.entries == [Entry(q, 0, Finite(1.0), Some(Placeholder("<location>", 1, ["St.", "Georgen"])))]
  {
    var d := Details([], Some(Placeholder("<location>", 1, ["St.", "Georgen"])));
    StGeorgenWalk(g, q);
    assert Window(q, 2, 0) == ["füge", "wegpunkt"];
    assert FirstWindow(g, q, 2, 0) == Some(0);
    AverageOfOnes(5);
    assert q[0..0 + 5 + 2] == q;
    var d' := AddEntry(d, q, 0, Finite(1.0));
    var mixin := Recorded(kind, m, |q|, 5, 5.0);
    assert q[0..] == q;
    var single := ScanSingleSpec(g, q[0..], 0, 2, NoDetails, kind, m);
    assert single == Return(Single(Finite(1.0), d', mixin));
    ScanFromStep(g, q, 2, 0, NoDetails, Finite(0.0), kind, m, single);
    var last := ScanSingleSpec(g, q[7..], 7, 2, d', kind, mixin);
    assert last == Return(Single(Finite(-1.0), d', mixin));
    ScanFromStep(g, q, 2, 7, d', Finite(1.0), kind, mixin, last);
  }

  /** The windows of the training phrase of StGeorgenCaptured differ pairwise (by their first tokens). */
  lemma StGeorgenDistinct()
    ensures DistinctWindows(["füge", "wegpunkt", "in", "<location>", "zusätzlich", "ein"], 2)
  {
    var t := ["füge", "wegpunkt", "in", "<location>", "zusätzlich", "ein"];
    forall i, j | 0 <= i < j && j + 2 <= |t|
      ensures Window(t, 2, i) != Window(t, 2, j)
    {
      assert Window(t, 2, i)[0] == t[i] && Window(t, 2, j)[0] == t[j];
      assert t[i][0] != t[j][0];
    }
  }

  /** The path the training phrase of StGeorgenCaptured lays down. */
  lemma StGeorgenGraph(t: seq<string>) returns (g: Graph)
    requires t == ["füge", "wegpunkt", "in", "<location>", "zusätzlich", "ein"]
    ensures g == TrainSpec(Empty, t, 2).graph
    ensures IsPath(g, t, 2, 5)
  {
    g := TrainSpec(Empty, t, 2).graph;
    StGeorgenDistinct();
    TrainUpToPath(t, 2, 5);
  }

  lemma StGeorgenTables(g: Graph, t: seq<string>)
    requires t == ["füge", "wegpunkt", "in", "<location>", "zusätzlich", "ein"]
    requires IsPath(g, t, 2, 5)
    ensures ["füge", "wegpunkt"] in g
    ensures TableOf(g, ["füge", "wegpunkt"]) == [Edge(["wegpunkt", "in"], 1.0)]
    ensures TableOf(g, ["wegpunkt", "in"]) == [Edge(["in", "<location>"], 1.0)]
    ensures TableOf(g, ["in", "<location>"]) == [Edge(["<location>", "zusätzlich"], 1.0)]
    ensures TableOf(g, ["<location>", "zusätzlich"]) == [Edge(["zusätzlich", "ein"], 1.0)]
  {
    assert Window(t, 2, 0) == ["füge", "wegpunkt"];
    assert Window(t, 2, 1) == ["wegpunkt", "in"];
    assert Window(t, 2, 2) == ["in", "<location>"];
    assert Window(t, 2, 3) == ["<location>", "zusätzlich"];
    assert Window(t, 2, 4) == ["zusätzlich", "ein"];
  }

  /** queryEdge at "wegpunkt in" for the window "in St.": step 2 starts the capture of <location> with "St.". */
  lemma StGeorgenStartsCapture()
    ensures QueryEdgeSpec(["wegpunkt", "in"], [Edge(["in", "<location>"], 1.0)], ["in", "St."], NoDetails, 1) ==
      Return(Found(Some(Edge(["in", "<location>"], 1.0)), Details([], Some(Placeholder("<location>", 1, ["St."])))))
  {
    var t := [Edge(["in", "<location>"], 1.0)];
    var w := ["in", "St."];
    assert IndexOf(t, w) == None;
    assert !IsPlaceholder("in") && IsPlaceholder("<location>");
    assert Step1(t, w, 1) == Return(None);
    assert Step1(t, w, 0) == Return(None);
    assert Step2(t, w, 0) == Return(Some(0));
  }

  /** At "in <location>" no edge matches the window "St. Georgen", so step 3 takes over. */
  lemma StGeorgenAbsorbs()
    ensures var t := [Edge(["<location>", "zusätzlich"], 1.0)];
      var w := ["St.", "Georgen"];
      Lookup(t, w).None? && Step1(t, w, 0) == Return(None) && Step2(t, w, 0) == Return(None)
  {
    var t := [Edge(["<location>", "zusätzlich"], 1.0)];
    var w := ["St.", "Georgen"];
    assert IndexOf(t, w) == None;
    assert IsPlaceholder("<location>") && !IsPlaceholder("zusätzlich");
    assert Step1(t, w, 1) == Return(None);
    assert Step2(t, w, 1) == Return(None);
  }

  /** queryEdge at "in <location>" for the window "Georgen zusätzlich": step 1 leaves the placeholder. */
  lemma StGeorgenEndsCapture(d: Details)
    ensures QueryEdgeSpec(["in", "<location>"], [Edge(["<location>", "zusätzlich"], 1.0)], ["Georgen", "zusätzlich"], d, 3) ==
      Return(Found(Some(Edge(["<location>", "zusätzlich"], 1.0)), d))
  {
    var t := [Edge(["<location>", "zusätzlich"], 1.0)];
    var w := ["Georgen", "zusätzlich"];
    assert IndexOf(t, w) == None;
    assert IsPlaceholder("<location>") && !IsPlaceholder("zusätzlich");
    assert Step1(t, w, 0) == Return(Some(0));
    assert Step2(t, w, 1) == Return(None);
    assert Step2(t, w, 0) == Return(None);
  }

  /**
   * The walk of StGeorgenCaptured: an exact edge, step 2 starting the
   * capture with "St.", step 3 adding "Georgen" on the reflexive edge,
   * step 1 leaving the placeholder, and a last exact edge.
   */
  lemma StGeorgenWalk(g: Graph, q: seq<string>)
    requires q == ["füge", "wegpunkt", "in", "St.", "Georgen", "zusätzlich", "ein"]
    requires TableOf(g, ["füge", "wegpunkt"]) == [Edge(["wegpunkt", "in"], 1.0)]
    requires TableOf(g, ["wegpunkt", "in"]) == [Edge(["in", "<location>"], 1.0)]
    requires TableOf(g, ["in", "<location>"]) == [Edge(["<location>", "zusätzlich"], 1.0)]
    requires TableOf(g, ["<location>", "zusätzlich"]) == [Edge(["zusätzlich", "ein"], 1.0)]
    ensures Walk(g, q, 2, ["füge", "wegpunkt"], 0, 0, 0.0, NoDetails) ==
      Return(Walked(5, 5.0, Details([], Some(Placeholder("<location>", 1, ["St.", "Georgen"])))))
  {
    var d1 := Details([], Some(Placeholder("<location>", 1, ["St."])));
    var d2 := Details([], Some(Placeholder("<location>", 1, ["St.", "Georgen"])));
    StGeorgenEnters(g, q);
    StGeorgenStays(g, q, d1);
    assert ["St."] + ["Georgen"] == ["St.", "Georgen"];
    assert Captured(d1, ["Georgen"]) == d2;
    StGeorgenLeaves(g, q, d2);
  }

  /** The first two steps of StGeorgenWalk: the exact edge, then step 2 starting the capture. */
  lemma StGeorgenEnters(g: Graph, q: seq<string>)
    requires q == ["füge", "wegpunkt", "in", "St.", "Georgen", "zusätzlich", "ein"]
    requires TableOf(g, ["füge", "wegpunkt"]) == [Edge(["wegpunkt", "in"], 1.0)]
    requires TableOf(g, ["wegpunkt", "in"]) == [Edge(["in", "<location>"], 1.0)]
    ensures Walk(g, q, 2, ["füge", "wegpunkt"], 0, 0, 0.0, NoDetails) ==
      Walk(g, q, 2, ["in", "<location>"], 0, 2, 2.0, Details([], Some(Placeholder("<location>", 1, ["St."]))))
  {
    assert Window(q, 2, 1) == ["wegpunkt", "in"];
    var w1 := Window(q, 2, 1);
    WalkStep(g, q, 2, ["füge", "wegpunkt"], 0, 0, 0.0, NoDetails,
             QueryEdgeSpec(["füge", "wegpunkt"], TableOf(g, ["füge", "wegpunkt"]), w1, NoDetails, 0));
    StGeorgenSecondStep(g, q);
  }

  /** The second step of StGeorgenWalk: step 2 on "in St.". */
  lemma StGeorgenSecondStep(g: Graph, q: seq<string>)
    requires q == ["füge", "wegpunkt", "in", "St.", "Georgen", "zusätzlich", "ein"]
    requires TableOf(g, ["wegpunkt", "in"]) == [Edge(["in", "<location>"], 1.0)]
    ensures Walk(g, q, 2, ["wegpunkt", "in"], 0, 1, 1.0, NoDetails) ==
      Walk(g, q, 2, ["in", "<location>"], 0, 2, 2.0, Details([], Some(Placeholder("<location>", 1, ["St."]))))
  {
    assert Window(q, 2, 2) == ["in", "St."];
    StGeorgenStartsCapture();
    WalkStep(g, q, 2, ["wegpunkt", "in"], 0, 1, 1.0, NoDetails,
             QueryEdgeSpec(["wegpunkt", "in"], TableOf(g, ["wegpunkt", "in"]), Window(q, 2, 2), NoDetails, 1));
  }

  /** The third step of StGeorgenWalk: step 3 feeds "Georgen" to the capture on the reflexive edge. */
  lemma StGeorgenStays(g: Graph, q: seq<string>, d: Details)
    requires q == ["füge", "wegpunkt", "in", "St.", "Georgen", "zusätzlich", "ein"]
    requires TableOf(g, ["in", "<location>"]) == [Edge(["<location>", "zusätzlich"], 1.0)]
    requires d.pending.Some?
    ensures Walk(g, q, 2, ["in", "<location>"], 0, 2, 2.0, d) ==
      Walk(g, q, 2, ["in", "<location>"], 0, 3, 3.0, Captured(d, ["Georgen"]))
  {
    assert Window(q, 2, 3) == ["St.", "Georgen"];
    StGeorgenAbsorbs();
    assert Absorbed(g, ["in", "<location>"], Window(q, 2, 3));
    assert IsPlaceholder("<location>");
    WalkCaptures(g, q, 2, ["in", "<location>"], 0, 2, 1, 2.0, d);
    assert q[4..5] == ["Georgen"];
  }

  /** The last steps of StGeorgenWalk: step 1 leaves the placeholder, an exact edge follows, the windows run out. */
  lemma StGeorgenLeaves(g: Graph, q: seq<string>, d: Details)
    requires q == ["füge", "wegpunkt", "in", "St.", "Georgen", "zusätzlich", "ein"]
    requires TableOf(g, ["in", "<location>"]) == [Edge(["<location>", "zusätzlich"], 1.0)]
    requires TableOf(g, ["<location>", "zusätzlich"]) == [Edge(["zusätzlich", "ein"], 1.0)]
    ensures Walk(g, q, 2, ["in", "<location>"], 0, 3, 3.0, d) == Return(Walked(5, 5.0, d))
  {
    var w2 := ["in", "<location>"];
    assert Window(q, 2, 4) == ["Georgen", "zusätzlich"];
    var v4 := Window(q, 2, 4);
    StGeorgenEndsCapture(d);
    WalkStep(g, q, 2, w2, 0, 3, 3.0, d, QueryEdgeSpec(w2, TableOf(g, w2), v4, d, 3));
    StGeorgenLastStep(g, q, d);
  }

  /** The fifth step of StGeorgenWalk: the exact edge to "zusätzlich ein", after which the windows run out. */
  lemma StGeorgenLastStep(g: Graph, q: seq<string>, d: Details)
    requires q == ["füge", "wegpunkt", "in", "St.", "Georgen", "zusätzlich", "ein"]
    requires TableOf(g, ["<location>", "zusätzlich"]) == [Edge(["zusätzlich", "ein"], 1.0)]
    ensures Walk(g, q, 2, ["<location>", "zusätzlich"], 0, 4, 4.0, d) == Return(Walked(5, 5.0, d))
  {
    var w3 := ["<location>", "zusätzlich"];
    assert Window(q, 2, 5) == ["zusätzlich", "ein"];
    WalkStep(g, q, 2, w3, 0, 4, 4.0, d, QueryEdgeSpec(w3, TableOf(g, w3), Window(q, 2, 5), d, 4));
  }

  /** Best never falls below its start, and is a finite number once its start is. */
  lemma {:induction false} BestAtLeast(max: Double, es: seq<Entry>)
    requires max.Finite?
    ensures Best(max, es).Finite? && Best(max, es).value >= max.value
    ensures forall i :: 0 <= i < |es| && es[i].avg.Finite? ==> Best(max, es).value >= es[i].avg.value
    decreases |es|
  {
    if es != [] {
      var next := if Greater(es[0].avg, max) then es[0].avg else max;
      BestAtLeast(next, es[1..]);
      forall i | 0 <= i < |es| && es[i].avg.Finite? ensures Best(max, es).value >= es[i].avg.value {
        if i > 0 { assert es[1..][i - 1] == es[i]; }
      }
    }
  }

  /**
   * scan returns -1 exactly for a phrase of at most `order` tokens; otherwise
   * a number at least 0 and at least every recorded sub-match average, and
   * the new entries cover the phrase left to right without overlapping.
   */
  lemma ScanResult(g: Graph, phrase: seq<string>, order: nat, d: Details, kind: Kind, m: MixinState)
    ensures var r := ScanSpec(g, phrase, order, d, kind, m);
      r.Return? ==> (
        r.value.max.Finite? &&
        (r.value.max.value == -1.0 <==> |phrase| < order + 1) &&
        (|phrase| >= order + 1 ==> r.value.max.value >= 0.0) &&
        |d.entries| <= |r.value.details.entries| &&
        r.value.details.entries[..|d.entries|] == d.entries &&
        Spans(r.value.details.entries[|d.entries|..], phrase, 0) &&
        forall i :: |d.entries| <= i < |r.value.details.entries| && r.value.details.entries[i].avg.Finite? ==>
          r.value.details.entries[i].avg.value <= r.value.max.value)
  {
    var r := ScanSpec(g, phrase, order, d, kind, m);
    if |phrase| >= order + 1 && r.Return? {
      var es := r.value.details.entries;
      BestAtLeast(Finite(0.0), es[|d.entries|..]);
      forall i | |d.entries| <= i < |es| && es[i].avg.Finite? ensures es[i].avg.value <= r.value.max.value {
        assert es[|d.entries|..][i - |d.entries|] == es[i];
      }
    }
  }

  /** A query leaves the mixin record consistent with non-negative sums, and keeps every earlier record. */
  predicate RecordGrows(m: MixinState, m': MixinState)
  {
    Consistent(m') && NonNegative(m') && Keeps(m, m')
  }

  /** One sub-match opens at most one record, whose sum is that of probabilities in [0, 1]. */
  lemma SingleMixin(g: Graph, phrase: seq<string>, phraseOffset: int, order: nat, d: Details, kind: Kind, m: MixinState)
    requires Probabilities(g) && Consistent(m) && NonNegative(m)
    ensures var r := ScanSingleSpec(g, phrase, phraseOffset, order, d, kind, m);
      r.Return? ==> RecordGrows(m, r.value.mixin)
  {
    if |phrase| >= order + 1 {
      var k := FirstWindow(g, phrase, order, 0);
      if k.Some? {
        WalkBounds(g, phrase, order, Window(phrase, order, k.value), k.value, 0, 0.0, d);
      }
    }
  }

  /** match keeps the mixin record growing. */
  lemma MatchMixin(g: Graph, phrase: seq<string>, order: nat, kind: Kind, m: MixinState)
    requires Probabilities(g) && Consistent(m) && NonNegative(m)
    ensures var r := MatchSpec(g, phrase, order, kind, m);
      r.Return? ==> RecordGrows(m, r.value.mixin)
  {
    SingleMixin(g, phrase, 0, order, NoDetails, kind, m);
  }

  lemma {:induction false} ScanFromMixin(g: Graph, phrase: seq<string>, order: nat, offset: nat, d: Details,
                                         max: Double, kind: Kind, m: MixinState)
    requires offset <= |phrase|
    requires max.Finite? && max.value >= 0.0
    requires Probabilities(g) && Consistent(m) && NonNegative(m)
    ensures var r := ScanFrom(g, phrase, order, offset, d, max, kind, m);
      r.Return? ==> RecordGrows(m, r.value.mixin)
    decreases |phrase| - offset
  {
    var s := ScanSingleSpec(g, phrase[offset..], offset, order, d, kind, m);
    var r := ScanFrom(g, phrase, order, offset, d, max, kind, m);
    ScanFromStep(g, phrase, order, offset, d, max, kind, m, s);
    if s.Return? {
      assert RecordGrows(m, s.value.mixin) by {
        SingleMixin(g, phrase[offset..], offset, order, d, kind, m);
      }
      if Greater(s.value.avg, Finite(0.0)) {
        var es := s.value.details.entries;
        var next := es[|es| - 1].offset + |es[|es| - 1].tokens|;
        var max' := if Greater(s.value.avg, max) then s.value.avg else max;
        var r' := ScanFrom(g, phrase, order, next, s.value.details, max', kind, s.value.mixin);
        assert r == r';
        ScanFromMixin(g, phrase, order, next, s.value.details, max', kind, s.value.mixin);
        if r'.Return? {
          KeepsTransitive(m, s.value.mixin, r'.value.mixin);
        }
      } else {
        assert r.Return? && r.value.mixin == s.value.mixin;
      }
    }
  }

  lemma KeepsTransitive(a: MixinState, b: MixinState, c: MixinState)
    requires Keeps(a, b) && Keeps(b, c)
    ensures Keeps(a, c)
  {
    assert c.sums[..|a.sums|] == b.sums[..|b.sums|][..|a.sums|];
    assert c.counts[..|a.counts|] == b.counts[..|b.counts|][..|a.counts|];
  }

  /** scan keeps the mixin record growing. */
  lemma ScanMixin(g: Graph, phrase: seq<string>, order: nat, d: Details, kind: Kind, m: MixinState)
    requires Probabilities(g) && Consistent(m) && NonNegative(m)
    ensures var r := ScanSpec(g, phrase, order, d, kind, m);
      r.Return? ==> RecordGrows(m, r.value.mixin)
  {
    if |phrase| >= order + 1 {
      ScanFromMixin(g, phrase, order, 0, d, Finite(0.0), kind, m);
    }
  }
}
