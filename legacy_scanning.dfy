/**
 * The matching algorithms of markov's MarkovChain as functions of the node
 * map. The older engine follows exact edges only (its placeholder branch is
 * switched off), so a sub-match is the longest run of linked windows from
 * the first window that labels a node. The chain class runs the same
 * algorithms with loops and is proved to agree with these definitions.
 */
module LegacyScanning {
  import opened Base
  import opened Edges
  import opened Matches
  import opened Mixins
  import opened Training
  import opened Nodes
  import opened Scanning
  import opened LegacyResults

  /** The end of an exact walk: the edges taken and the sum of their probabilities. */
  datatype Run = Run(nEdges: nat, sum: real)

  /**
   * The walk of _scanSingleMatch: the first window was found at `offset`,
   * `nEdges` edges have been taken and `node` is the current node. The next
   * window is looked up among the node's edges; the walk ends when the
   * windows run out or the node has no edge to it.
   */
  function ExactWalk(g: Graph, phrase: seq<string>, order: nat, node: Label, offset: nat, nEdges: nat, sum: real): (r: Run)
    requires offset + nEdges + order <= |phrase|
    ensures nEdges <= r.nEdges && offset + r.nEdges + order <= |phrase|
    decreases |phrase| - nEdges
  {
    if offset + nEdges + 1 + order > |phrase| then Run(nEdges, sum)
    else match Lookup(TableOf(g, node), Window(phrase, order, offset + nEdges + 1))
      case None => Run(nEdges, sum)
      case Some(e) => ExactWalk(g, phrase, order, e.target, offset, nEdges + 1, sum + e.probability)
  }

  /** Window `i` has a successor window and its node has an edge to it. */
  predicate Linked(g: Graph, phrase: seq<string>, order: nat, i: nat)
  {
    i + 1 + order <= |phrase| && Lookup(TableOf(g, Window(phrase, order, i)), Window(phrase, order, i + 1)).Some?
  }

  /** The probability of the edge from window `i` to window `i + 1`; 0 when there is none. */
  function StepProbability(g: Graph, phrase: seq<string>, order: nat, i: nat): real
    requires i + 1 + order <= |phrase|
  {
    match Lookup(TableOf(g, Window(phrase, order, i)), Window(phrase, order, i + 1))
    case None => 0.0
    case Some(e) => e.probability
  }

  /** Each of the `n` windows from window `k` on is linked to the next one. */
  predicate LinkedFrom(g: Graph, phrase: seq<string>, order: nat, k: nat, n: nat)
    decreases n
  {
    n == 0 || (Linked(g, phrase, order, k) && LinkedFrom(g, phrase, order, k + 1, n - 1))
  }

  /** The probabilities of the `n` steps from window `k` on, added up. */
  function PathSum(g: Graph, phrase: seq<string>, order: nat, k: nat, n: nat): real
    requires k + n + order <= |phrase|
    decreases n
  {
    if n == 0 then 0.0 else StepProbability(g, phrase, order, k) + PathSum(g, phrase, order, k + 1, n - 1)
  }

  /**
   * The exact walk from window `offset + nEdges` takes the longest run of
   * linked windows: every step it takes is linked, the first step it does
   * not take is not, and its sum grows by the probabilities of the steps taken.
   */
  lemma {:induction false} ExactWalkLongest(g: Graph, phrase: seq<string>, order: nat, offset: nat, nEdges: nat, sum: real)
    requires offset + nEdges + order <= |phrase|
    ensures var r := ExactWalk(g, phrase, order, Window(phrase, order, offset + nEdges), offset, nEdges, sum);
      LinkedFrom(g, phrase, order, offset + nEdges, r.nEdges - nEdges) &&
      !Linked(g, phrase, order, offset + r.nEdges) &&
      r.sum == sum + PathSum(g, phrase, order, offset + nEdges, r.nEdges - nEdges)
    decreases |phrase| - nEdges
  {
    var i := offset + nEdges;
    var node := Window(phrase, order, i);
    var r := ExactWalk(g, phrase, order, node, offset, nEdges, sum);
    if Linked(g, phrase, order, i) {
      var w := Window(phrase, order, i + 1);
      var e := Lookup(TableOf(g, node), w).value;
      assert e.target == w;
      var r' := ExactWalk(g, phrase, order, w, offset, nEdges + 1, sum + e.probability);
      assert r == r';
      ExactWalkLongest(g, phrase, order, offset, nEdges + 1, sum + e.probability);
      var n := r'.nEdges - (nEdges + 1);
      assert r.nEdges - nEdges == n + 1;
      assert StepProbability(g, phrase, order, i) == e.probability;
      assert LinkedFrom(g, phrase, order, i, n + 1);
      assert PathSum(g, phrase, order, i, n + 1) == e.probability + PathSum(g, phrase, order, i + 1, n);
    } else {
      assert r == Run(nEdges, sum);
      assert PathSum(g, phrase, order, i, 0) == 0.0;
    }
  }

  /** The outcome of one sub-match: its average (or a sentinel) and the details. */
  datatype Attempt = Attempt(avg: Double, details: Details)

  /**
   * MarkovChain._scanSingleMatch on the sub-list of `phrase` from `from` on,
   * which scan hands over together with `from` as its offset; offsets here
   * are positions in the whole phrase. -1 when at most `order` tokens are
   * left; 0 when no window labels a node; otherwise the exact walk's
   * average, recorded as a new entry without capture for the first known
   * window and the windows walked.
   */
  function ExactSingleSpec(g: Graph, phrase: seq<string>, from: nat, order: nat, d: Details): (r: Attempt)
    requires from <= |phrase|
    ensures |phrase| - from < order + 1 ==> r == Attempt(Finite(-1.0), d)
    ensures |d.entries| <= |r.details.entries| <= |d.entries| + 1
    ensures r.details.entries[..|d.entries|] == d.entries
    ensures |r.details.entries| == |d.entries| ==>
      r.avg == Finite(if |phrase| - from < order + 1 then -1.0 else 0.0)
    ensures |r.details.entries| > |d.entries| ==>
      var e := r.details.entries[|d.entries|];
      Covers(e, phrase, 0) && from <= e.offset && order <= |e.tokens| && e.avg == r.avg &&
      e.placeholder.None? && r.details.pending.None? && (r.avg.NaN? <==> |e.tokens| == order)
  {
    if |phrase| - from < order + 1 then Attempt(Finite(-1.0), d)
    else match FirstWindow(g, phrase, order, from)
      case None => Attempt(Finite(0.0), d)
      case Some(k) => ExactSubMatch(g, phrase, order, k, d)
  }

  /**
   * The sub-match once window `k` labels a node: the exact walk from it,
   * its average, and a new entry without capture for the tokens walked.
   */
  function ExactSubMatch(g: Graph, phrase: seq<string>, order: nat, k: nat, d: Details): (r: Attempt)
    requires k + order <= |phrase|
    ensures |r.details.entries| == |d.entries| + 1
    ensures r.details.entries[..|d.entries|] == d.entries
    ensures var e := r.details.entries[|d.entries|];
      e.offset == k && k + |e.tokens| <= |phrase| && e.tokens == phrase[k..k + |e.tokens|] &&
      order <= |e.tokens| && e.avg == r.avg && e.placeholder.None? && r.details.pending.None? &&
      (r.avg.NaN? <==> |e.tokens| == order)
  {
    var run := ExactWalk(g, phrase, order, Window(phrase, order, k), k, 0, 0.0);
    var avg := Average(run.sum, run.nEdges);
    var d' := AddEntryCarrying(d, phrase[k..k + run.nEdges + order], k, avg, None);
    assert d'.entries[..|d.entries|] == d.entries;
    Attempt(avg, d')
  }

  /**
   * MarkovChain.match: -1 for a short phrase; the sub-match's average when
   * its single entry covers the whole phrase; 0 otherwise.
   */
  function ExactMatchSpec(g: Graph, phrase: seq<string>, order: nat): Double
  {
    if |phrase| < order + 1 then Finite(-1.0)
    else
      var s := ExactSingleSpec(g, phrase, 0, order, NoDetails);
      var es := s.details.entries;
      if |es| != 1 || es[0].offset != 0 || |es[0].tokens| != |phrase| then Finite(0.0) else s.avg
  }

  /**
   * match is the average edge probability along the whole phrase when its
   * first window labels a node and every window is linked to the next one,
   * and 0 otherwise (for a phrase of more than `order` tokens).
   */
  lemma ExactMatchWhole(g: Graph, phrase: seq<string>, order: nat)
    requires order < |phrase|
    ensures ExactMatchSpec(g, phrase, order) ==
      if Window(phrase, order, 0) in g && LinkedFrom(g, phrase, order, 0, |phrase| - order)
      then Average(PathSum(g, phrase, order, 0, |phrase| - order), |phrase| - order)
      else Finite(0.0)
  {
    var s := ExactSingleSpec(g, phrase, 0, order, NoDetails);
    var n := |phrase| - order;
    match FirstWindow(g, phrase, order, 0)
    case None =>
      assert Window(phrase, order, 0) !in g;
      assert s == Attempt(Finite(0.0), NoDetails);
    case Some(k) =>
      var run := ExactWalk(g, phrase, order, Window(phrase, order, k), k, 0, 0.0);
      ExactWalkLongest(g, phrase, order, k, 0, 0.0);
      var tokens := phrase[k..k + run.nEdges + order];
      assert s == ExactSubMatch(g, phrase, order, k, NoDetails);
      assert s == Attempt(Average(run.sum, run.nEdges), AddEntryCarrying(NoDetails, tokens, k, Average(run.sum, run.nEdges), None));
      assert |s.details.entries| == 1 && s.details.entries[0].offset == k && |s.details.entries[0].tokens| == run.nEdges + order;
      if k > 0 {
        assert Window(phrase, order, 0) !in g;
        assert ExactMatchSpec(g, phrase, order) == Finite(0.0);
      } else if run.nEdges < n {
        assert !Linked(g, phrase, order, run.nEdges);
        LinkedFromBreaks(g, phrase, order, 0, n, run.nEdges);
        assert ExactMatchSpec(g, phrase, order) == Finite(0.0);
      } else {
        assert ExactMatchSpec(g, phrase, order) == s.avg;
      }
  }

  /** The entry a sub-match records covers the longest linked run from its start window. */
  lemma {:induction false} SubMatchFinds(g: Graph, phrase: seq<string>, order: nat, k: nat, d: Details)
    requires k + order <= |phrase|
    ensures var s := ExactSubMatch(g, phrase, order, k, d);
      var n := |s.details.entries[|d.entries|].tokens| - order;
      LinkedFrom(g, phrase, order, k, n) && !Linked(g, phrase, order, k + n) &&
      s.avg == Average(PathSum(g, phrase, order, k, n), n)
  {
    var s := ExactSubMatch(g, phrase, order, k, d);
    var run := ExactWalk(g, phrase, order, Window(phrase, order, k), k, 0, 0.0);
    EntryOfRun(g, phrase, order, k, d);
    var n := |s.details.entries[|d.entries|].tokens| - order;
    assert n == run.nEdges && s.avg == Average(run.sum, run.nEdges);
    RunFromWindow(g, phrase, order, k, n);
    assert PathSum(g, phrase, order, k, n) == run.sum;
    assert s.avg == Average(PathSum(g, phrase, order, k, n), n);
  }

  /** The exact walk from window `k` takes `n` steps: the longest linked run from there, with its probability sum. */
  lemma RunFromWindow(g: Graph, phrase: seq<string>, order: nat, k: nat, n: nat)
    requires k + order <= |phrase|
    requires n == ExactWalk(g, phrase, order, Window(phrase, order, k), k, 0, 0.0).nEdges
    ensures LinkedFrom(g, phrase, order, k, n) && !Linked(g, phrase, order, k + n)
    ensures k + n + order <= |phrase| && PathSum(g, phrase, order, k, n) == ExactWalk(g, phrase, order, Window(phrase, order, k), k, 0, 0.0).sum
  {
    ExactWalkLongest(g, phrase, order, k, 0, 0.0);
    assert Window(phrase, order, k + 0) == Window(phrase, order, k);
  }

  /** The entry of a sub-match spans the walked windows and carries the walk's average. */
  lemma EntryOfRun(g: Graph, phrase: seq<string>, order: nat, k: nat, d: Details)
    requires k + order <= |phrase|
    ensures var run := ExactWalk(g, phrase, order, Window(phrase, order, k), k, 0, 0.0);
      var s := ExactSubMatch(g, phrase, order, k, d);
      |s.details.entries[|d.entries|].tokens| == run.nEdges + order && s.avg == Average(run.sum, run.nEdges)
  {
  }

  /**
   * A single sub-match records an entry exactly when some window from `from` on is in the
   * graph; the entry starts at the first such window and spans the longest linked run.
   */
  lemma ExactSingleFinds(g: Graph, phrase: seq<string>, from: nat, order: nat, d: Details)
    requires from + order < |phrase|
    ensures var s := ExactSingleSpec(g, phrase, from, order, d);
      (|s.details.entries| == |d.entries| <==>
        forall j :: from <= j && j + order <= |phrase| ==> Window(phrase, order, j) !in g) &&
      (|s.details.entries| > |d.entries| ==>
        var e := s.details.entries[|d.entries|];
        var n := |e.tokens| - order;
        Window(phrase, order, e.offset) in g &&
        (forall j :: from <= j < e.offset ==> Window(phrase, order, j) !in g) &&
        LinkedFrom(g, phrase, order, e.offset, n) && !Linked(g, phrase, order, e.offset + n) &&
        s.avg == Average(PathSum(g, phrase, order, e.offset, n), n))
  {
    var s := ExactSingleSpec(g, phrase, from, order, d);
    match FirstWindow(g, phrase, order, from)
    case None =>
    case Some(k) =>
      assert s == ExactSubMatch(g, phrase, order, k, d);
      SubMatchFinds(g, phrase, order, k, d);
      assert s.details.entries[|d.entries|].offset == k;
  }

  /** A run of linked windows has no unlinked window inside it. */
  lemma {:induction false} LinkedFromBreaks(g: Graph, phrase: seq<string>, order: nat, k: nat, n: nat, j: nat)
    requires k <= j < k + n
    requires !Linked(g, phrase, order, j)
    ensures !LinkedFrom(g, phrase, order, k, n)
    decreases n
  {
    if j > k {
      LinkedFromBreaks(g, phrase, order, k + 1, n - 1, j);
    }
  }

  /** Along a trained path every step has probability 1. */
  lemma {:induction false} PathSumOnPath(g: Graph, phrase: seq<string>, order: nat, k: nat, n: nat)
    requires order < |phrase| && IsPath(g, phrase, order, |phrase| - order + 1)
    requires k + n + order <= |phrase|
    ensures PathSum(g, phrase, order, k, n) == n as real
    ensures LinkedFrom(g, phrase, order, k, n)
    decreases n
  {
    if n > 0 {
      var w := Window(phrase, order, k + 1);
      assert TableOf(g, Window(phrase, order, k)) == [Edge(w, 1.0)];
      assert Lookup([Edge(w, 1.0)], w) == Some(Edge(w, 1.0));
      PathSumOnPath(g, phrase, order, k + 1, n - 1);
    }
  }

  /**
   * A fresh chain trained on one phrase whose windows are all different
   * matches that phrase with 1.0 in the older engine too.
   */
  lemma TrainedPhraseMatchesExactly(phrase: seq<string>, order: nat)
    requires order < |phrase| && DistinctWindows(phrase, order)
    ensures ExactMatchSpec(TrainSpec(Empty, phrase, order).graph, phrase, order) == Finite(1.0)
  {
    var g := TrainSpec(Empty, phrase, order).graph;
    var n := |phrase| - order;
    TrainUpToPath(phrase, order, n + 1);
    assert IsPath(g, phrase, order, |phrase| - order + 1);
    PathSumOnPath(g, phrase, order, 0, n);
    ExactMatchWhole(g, phrase, order);
    AverageOfOnes(n);
  }

  /** The outcome of scan: the best average and the details. */
  datatype Swept = Swept(max: Double, details: Details)

  /**
   * What scan's loop relies on about a sub-match `s` made from `offset` on
   * details `d`: at most one entry is added and the earlier ones stay; with
   * none added the result is -1 or 0; an added entry covers the phrase from
   * `offset` on, carries the average and no capture, and is longer than
   * `order` tokens exactly when the average is not NaN.
   */
  predicate Advances(s: Attempt, d: Details, phrase: seq<string>, offset: nat, order: nat)
  {
    |d.entries| <= |s.details.entries| <= |d.entries| + 1 &&
    s.details.entries[..|d.entries|] == d.entries &&
    (|s.details.entries| == |d.entries| ==> s.avg.Finite? && s.avg.value <= 0.0) &&
    (|s.details.entries| > |d.entries| ==>
      var e := s.details.entries[|d.entries|];
      Covers(e, phrase, 0) && offset <= e.offset && order <= |e.tokens| && e.avg == s.avg &&
      e.placeholder.None? && (s.avg.NaN? <==> |e.tokens| == order))
  }

  /**
   * The do-while loop of MarkovChain.scan from `offset` on: one sub-match on
   * the rest of the phrase, then the rest of the loop.
   */
  function ExactScanFrom(g: Graph, phrase: seq<string>, order: nat, offset: nat, d: Details, max: Double): Swept
    requires offset <= |phrase|
    decreases |phrase| - offset, 1
  {
    ExactScanTurn(g, phrase, order, offset, d, max, ExactSingleSpec(g, phrase, offset, order, d))
  }

  /**
   * The rest of the loop after sub-match `s`: the best average so far takes
   * it in; after a positive average the next attempt starts right after
   * the new entry's tokens, otherwise the loop ends.
   */
  function ExactScanTurn(g: Graph, phrase: seq<string>, order: nat, offset: nat, d: Details, max: Double, s: Attempt): Swept
    requires offset <= |phrase| && Advances(s, d, phrase, offset, order)
    decreases |phrase| - offset, 0
  {
    var max' := if Greater(s.avg, max) then s.avg else max;
    if Greater(s.avg, Finite(0.0)) then
      var e := s.details.entries[|d.entries|];
      ExactScanFrom(g, phrase, order, e.offset + |e.tokens|, s.details, max')
    else Swept(max', s.details)
  }

  /** The sub-match of one turn has what scan's loop relies on. */
  lemma SingleAdvances(g: Graph, phrase: seq<string>, offset: nat, order: nat, d: Details)
    requires offset <= |phrase|
    ensures Advances(ExactSingleSpec(g, phrase, offset, order, d), d, phrase, offset, order)
  {
  }

  /**
   * One more entry `mid` in front of the rest of the scan: the entries stay
   * in order without overlapping, and the best average takes it in.
   */
  lemma SpanStep(phrase: seq<string>, offset: nat, before: seq<Entry>, mid: seq<Entry>, after: seq<Entry>,
                 max: Double, max': Double, best: Double)
    requires |mid| == |before| + 1 && mid[..|before|] == before
    requires Covers(mid[|before|], phrase, 0) && offset <= mid[|before|].offset
    requires max' == if Greater(mid[|before|].avg, max) then mid[|before|].avg else max
    requires |mid| <= |after| && after[..|mid|] == mid
    requires Spans(after[|mid|..], phrase, mid[|before|].offset + |mid[|before|].tokens|)
    requires best == Best(max', after[|mid|..])
    ensures |before| <= |after| && after[..|before|] == before
    ensures Spans(after[|before|..], phrase, offset)
    ensures best == Best(max, after[|before|..])
  {
    var e := mid[|before|];
    assert after[|before|..] == [e] + after[|mid|..];
    assert after[|before|..][1..] == after[|mid|..];
  }

  /**
   * The entries the rest of a scan adds after sub-match `s` follow the
   * earlier ones, cover the phrase left to right from `offset` on without
   * overlapping and carry no capture, and the best average is the largest
   * of theirs and `max`.
   */
  lemma {:induction false} ExactScanTurnSpans(g: Graph, phrase: seq<string>, order: nat, offset: nat, d: Details,
                                              max: Double, s: Attempt)
    requires offset <= |phrase| && Advances(s, d, phrase, offset, order)
    requires max.Finite? && max.value >= 0.0
    ensures var r := ExactScanTurn(g, phrase, order, offset, d, max, s);
      |d.entries| <= |r.details.entries| &&
      r.details.entries[..|d.entries|] == d.entries &&
      Spans(r.details.entries[|d.entries|..], phrase, offset) &&
      r.max == Best(max, r.details.entries[|d.entries|..]) &&
      forall i :: |d.entries| <= i < |r.details.entries| ==> r.details.entries[i].placeholder.None?
    decreases |phrase| - offset
  {
    var es := s.details.entries;
    var max' := if Greater(s.avg, max) then s.avg else max;
    if Greater(s.avg, Finite(0.0)) {
      var e := es[|d.entries|];
      var next := e.offset + |e.tokens|;
      var s' := ExactSingleSpec(g, phrase, next, order, s.details);
      SingleAdvances(g, phrase, next, order, s.details);
      ExactScanTurnSpans(g, phrase, order, next, s.details, max', s');
      var r := ExactScanTurn(g, phrase, order, next, s.details, max', s');
      assert ExactScanTurn(g, phrase, order, offset, d, max, s) == r;
      SpanStep(phrase, offset, d.entries, es, r.details.entries, max, max', r.max);
      forall i | |d.entries| <= i < |r.details.entries| ensures r.details.entries[i].placeholder.None? {
        if i == |d.entries| {
          assert r.details.entries[..|es|][i] == es[i];
        }
      }
    } else {
      assert es[|d.entries|..] == [] || (|es[|d.entries|..]| == 1 && es[|d.entries|] == es[|d.entries|..][0]);
    }
  }

  /**
   * MarkovChain.scan(phrase, details): -1 for a short phrase, otherwise the
   * best sub-match average, starting from 0.
   */
  function ExactScanSpec(g: Graph, phrase: seq<string>, order: nat, d: Details): Swept
  {
    if |phrase| < order + 1 then Swept(Finite(-1.0), d)
    else ExactScanFrom(g, phrase, order, 0, d, Finite(0.0))
  }

  /**
   * scan returns -1 exactly for a phrase of at most `order` tokens;
   * otherwise a number at least 0 and at least every recorded sub-match
   * average; the new entries cover the phrase left to right without
   * overlapping, and none of them carries a capture.
   */
  lemma ExactScanResult(g: Graph, phrase: seq<string>, order: nat, d: Details)
    ensures var r := ExactScanSpec(g, phrase, order, d);
      r.max.Finite? &&
      (r.max.value == -1.0 <==> |phrase| < order + 1) &&
      (|phrase| >= order + 1 ==> r.max.value >= 0.0) &&
      |d.entries| <= |r.details.entries| &&
      r.details.entries[..|d.entries|] == d.entries &&
      Spans(r.details.entries[|d.entries|..], phrase, 0) &&
      (forall i :: |d.entries| <= i < |r.details.entries| && r.details.entries[i].avg.Finite? ==>
        r.details.entries[i].avg.value <= r.max.value) &&
      forall i :: |d.entries| <= i < |r.details.entries| ==> r.details.entries[i].placeholder.None?
  {
    var r := ExactScanSpec(g, phrase, order, d);
    if |phrase| >= order + 1 {
      SingleAdvances(g, phrase, 0, order, d);
      ExactScanTurnSpans(g, phrase, order, 0, d, Finite(0.0), ExactSingleSpec(g, phrase, 0, order, d));
      var es := r.details.entries;
      BestAtLeast(Finite(0.0), es[|d.entries|..]);
      forall i | |d.entries| <= i < |es| && es[i].avg.Finite? ensures es[i].avg.value <= r.max.value {
        assert es[|d.entries|..][i - |d.entries|] == es[i];
      }
    }
  }

  // ------------------------------------------------- relation to nlcmd's engine

  /** Every table of the map leads to plain, non-null labels as wide as the window. */
  predicate PlainGraph(g: Graph, order: nat)
  {
    forall l :: l in g ==> PlainTable(g[l], order)
  }

  /**
   * Without placeholder tokens in the chain or the phrase, nlcmd's walk
   * (queryEdge at every step) takes the same edges as the exact walk and
   * leaves capture-free details alone.
   */
  lemma {:induction false} WalkIsExact(g: Graph, phrase: seq<string>, order: nat, node: Label, offset: nat, nEdges: nat,
                                       sum: real, d: Details)
    requires offset + nEdges + order <= |phrase| && order >= 1
    requires PlainGraph(g, order) && Nodes.Plain(phrase) && d.pending.None?
    requires node == Window(phrase, order, offset + nEdges)
    ensures var r := ExactWalk(g, phrase, order, node, offset, nEdges, sum);
      Walk(g, phrase, order, node, offset, nEdges, sum, d) == Return(Walked(r.nEdges, r.sum, d))
    decreases |phrase| - nEdges
  {
    var i := offset + nEdges;
    if i + 1 + order <= |phrase| {
      var w := Window(phrase, order, i + 1);
      PlainWalkStep(g, phrase, order, node, offset, nEdges, sum, d);
      match Lookup(TableOf(g, node), w)
      case None =>
      case Some(e) =>
        assert e.target == w;
        WalkIsExact(g, phrase, order, w, offset, nEdges + 1, sum + e.probability, d);
    }
  }

  /** One step of nlcmd's walk without placeholder tokens: the exact edge is followed, or the walk ends. */
  lemma PlainWalkStep(g: Graph, phrase: seq<string>, order: nat, node: Label, offset: nat, nEdges: nat,
                      sum: real, d: Details)
    requires offset + nEdges + 1 + order <= |phrase| && order >= 1
    requires PlainGraph(g, order) && Nodes.Plain(phrase) && d.pending.None?
    requires node == Window(phrase, order, offset + nEdges)
    ensures var found := Lookup(TableOf(g, node), Window(phrase, order, offset + nEdges + 1));
      Walk(g, phrase, order, node, offset, nEdges, sum, d) ==
        if found.None? then Return(Walked(nEdges, sum, d))
        else Walk(g, phrase, order, found.value.target, offset, nEdges + 1, sum + found.value.probability, d)
  {
    var i := offset + nEdges;
    var w := Window(phrase, order, i + 1);
    var t := TableOf(g, node);
    assert PlainTable(t, |w|);
    assert node != [] && Nodes.Plain(node) by {
      assert node[0] == phrase[i];
      forall j | 0 <= j < |node| ensures !IsPlaceholder(node[j]) { assert node[j] == phrase[i + j]; }
    }
    QueryExactOnly(node, t, w, d, i);
    WalkStep(g, phrase, order, node, offset, nEdges, sum, d, QueryEdgeSpec(node, t, w, d, i));
    assert DropCapture(d) == d;
  }

  /**
   * On chains and phrases without placeholder tokens the two engines agree:
   * nlcmd's match returns the older engine's score, whatever its mixin.
   */
  lemma MatchAgrees(g: Graph, phrase: seq<string>, order: nat, kind: Kind, m: MixinState)
    requires order >= 1 && PlainGraph(g, order) && Nodes.Plain(phrase)
    ensures MatchSpec(g, phrase, order, kind, m).Return?
    ensures MatchSpec(g, phrase, order, kind, m).value.score == ExactMatchSpec(g, phrase, order)
  {
    if |phrase| >= order + 1 {
      match FirstWindow(g, phrase, order, 0)
      case None =>
      case Some(k) =>
        WalkIsExact(g, phrase, order, Window(phrase, order, k), k, 0, 0.0, NoDetails);
    }
  }
}
