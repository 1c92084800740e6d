/**
 * markov's MarkovChain object and its helpers: the sliding window with its
 * sticky placeholder flag, the placeholder node that lends its parent's
 * edges, and the chain with load, train, match, _scanSingleMatch, scan and
 * traverse, each proved to agree with the definitions of modules Training
 * and LegacyScanning.
 *
 * The sub-list that scan hands to _scanSingleMatch is modelled as the whole
 * phrase together with the index it starts at; offsets are positions in the
 * whole phrase.
 */
module LegacyChain {
  import opened Base
  import opened Edges
  import opened Matches
  import opened Training
  import opened Nodes
  import opened Scanning
  import opened LegacyResults
  import opened LegacyScanning
  import NlcmdChain

  /** Some token of the window is a placeholder. */
  predicate HasPlaceholder(l: Label)
  {
    exists i :: 0 <= i < |l| && IsPlaceholder(l[i])
  }

  /**
   * markov's SlidingWindow over the tokens of `phrase` from `start` on. Each
   * slide returns the next window and raises the placeholder flag when the
   * window holds a placeholder token; only resetPlaceholder lowers it.
   */
  class SlidingWindow {
    ghost const phrase: seq<string>
    ghost const start: nat
    const size: nat
    /** The tokens not yet slid past (the source's copy of the list, whose head is removed). */
    var rest: seq<string>
    /** The position in `phrase` of the window last returned; `start - 1` before the first slide. */
    var offset: int
    /** _isPlaceholder. */
    var placeholder: bool

    ghost predicate Valid()
      reads this
    {
      start - 1 <= offset < |phrase| && rest == phrase[offset + 1..]
    }

    /** SlidingWindow(phrase.subList(start, |phrase|), size). */
    constructor (phrase: seq<string>, start: nat, size: nat)
      requires start <= |phrase|
      ensures this.phrase == phrase && this.start == start && this.size == size
      ensures offset == start - 1 && !placeholder && Valid()
    {
      this.phrase := phrase;
      this.start := start;
      this.size := size;
      rest := phrase[start..];
      offset := start - 1;
      placeholder := false;
    }

    /** isPlaceholder: a slid window held a placeholder token since the flag was last lowered. */
    function IsPlaceholder(): bool
      reads this
    {
      placeholder
    }

    /** resetPlaceholder: lowers the flag; the position stays. */
    method ResetPlaceholder()
      modifies this`placeholder
      ensures !placeholder
    {
      placeholder := false;
    }

    /** canSlide: another full window remains. */
    function CanSlide(): (r: bool)
      requires Valid()
      reads this
      ensures r <==> offset + 1 + size <= |phrase|
    {
      |rest| >= size
    }

    /**
     * slide: the next window, or none once fewer than `size` tokens are
     * left. The flag goes up when the window holds a placeholder token and
     * never comes down here.
     */
    method Slide() returns (l: Option<Label>)
      requires Valid() && size >= 1
      modifies this
      ensures Valid()
      ensures old(offset) + 1 + size <= |phrase| ==>
        offset == old(offset) + 1 && l == Some(Window(phrase, size, offset)) &&
        placeholder == (old(placeholder) || HasPlaceholder(l.value))
      ensures old(offset) + 1 + size > |phrase| ==> offset == old(offset) && l == None && placeholder == old(placeholder)
    {
      if |rest| < size {
        return None;
      }
      var fragments := rest[..size];
      var i := 0;
      while i < size
        invariant 0 <= i <= size && rest == old(rest) && offset == old(offset)
        invariant placeholder == (old(placeholder) || exists j :: 0 <= j < i && Base.IsPlaceholder(fragments[j]))
      {
        if Base.IsPlaceholder(fragments[i]) {
          placeholder := true;
        }
        i := i + 1;
      }
      assert fragments == phrase[offset + 1..offset + 1 + size];
      rest := rest[1..];
      offset := offset + 1;
      return Some(fragments);
    }
  }

  /**
   * markov's PlaceholderNode: a node that answers its parent's label and
   * edges and passes both addEdge overloads on to the parent, so an edge
   * added through either is seen through both.
   */
  class PlaceholderNode {
    const parent: Node

    constructor (node: Node)
      ensures parent == node
    {
      parent := node;
    }

    /** getLabel. */
    function Name(): (r: Label)
      ensures r == parent.name
    {
      parent.name
    }

    /** getEdges. */
    function Edges(): (r: Table)
      reads parent
      ensures r == parent.edges
    {
      parent.edges
    }

    /** addEdge(Edge): the edge goes into the parent's table. */
    method PutEdge(edge: Edge)
      modifies parent
      ensures parent.edges == Put(old(parent.edges), edge) && Edges() == parent.edges
    {
      parent.PutEdge(edge);
    }

    /** addEdge(Node): the parent's table takes the update rule. */
    method AddEdge(node: Node)
      modifies parent
      ensures parent.edges == AddEdgeSpec(old(parent.edges), node.name) && Edges() == parent.edges
    {
      parent.AddEdge(node);
    }
  }

  /**
   * markov's MarkovChain. The node map is kept as a value: each label maps
   * to its node's edge table, and `keys` lists the labels in insertion
   * order, the order in which the model visits nodes.
   */
  class MarkovChain {
    const window: nat
    var graph: Graph
    var keys: seq<Label>

    /** The node map as a value. */
    function Value(): Chain
      reads `graph, `keys
    {
      Chain(graph, keys)
    }

    /** The window spans at least one token. */
    ghost predicate Valid()
    {
      window >= 1
    }

    /** MarkovChain(window): no nodes yet. */
    constructor (window: nat)
      requires window >= 1
      ensures this.window == window && Value() == Empty && Valid()
    {
      this.window := window;
      graph := map[];
      keys := [];
    }

    /** `_nodes.get(l)`, and a new node put into the map when it is absent. */
    method NodeAt(l: Label)
      modifies this`graph, this`keys
      ensures Value() == NodeFor(old(Value()), l)
    {
      if l !in graph {
        graph, keys := graph[l := []], keys + [l];
      }
    }

    /**
     * MarkovChain.load: the triples are inserted in order, each with both
     * nodes looked up or created and `n1.addEdge(new Edge(n2, p))`; a
     * malformed element ends the loop with false, the triples before it
     * inserted.
     */
    method Load(items: seq<Item>) returns (ok: bool)
      modifies this`graph, this`keys
      ensures Value() == LoadSpec(old(Value()), items).chain
      ensures ok == LoadSpec(old(Value()), items).ok
    {
      var i := 0;
      while i < |items|
        invariant 0 <= i <= |items|
        invariant LoadSpec(old(Value()), items) == LoadSpec(Value(), items[i..])
      {
        assert items[i..][0] == items[i] && items[i..][1..] == items[i + 1..];
        if items[i].Malformed? {
          return false;
        }
        NodeAt(items[i].from);
        NodeAt(items[i].to);
        var t := PutEdgeIn(graph[items[i].from], Edge(items[i].to, items[i].probability));
        graph := graph[items[i].from := t];
        i := i + 1;
      }
      return true;
    }

    /**
     * MarkovChain.train: a phrase of at most `window` tokens is ignored;
     * otherwise every window's node is looked up or created and each node
     * gets addEdge to the next window's node.
     */
    method Train(phrase: seq<string>)
      requires Valid()
      modifies this`graph, this`keys
      ensures Value() == TrainSpec(old(Value()), phrase, window)
    {
      if |phrase| <= window {
        return;
      }
      ghost var c0 := Value();
      var sw := new SlidingWindow(phrase, 0, window);
      var first := sw.Slide();
      var n1 := first.value;
      NodeAt(n1);
      while sw.CanSlide()
        invariant sw.Valid() && sw.phrase == phrase && sw.size == window
        invariant 0 <= sw.offset && sw.offset + window <= |phrase|
        invariant n1 == Window(phrase, window, sw.offset)
        invariant Value() == TrainUpTo(c0, phrase, window, sw.offset + 1)
        decreases |phrase| - sw.offset
      {
        n1 := TrainStep(sw, n1, c0);
      }
      assert sw.offset + 1 == |phrase| - window + 1;
    }

    /** One turn of train's loop: slide, look up or create the next window's node, link the previous one to it. */
    method TrainStep(sw: SlidingWindow, n1: Label, ghost c0: Chain) returns (n2: Label)
      requires Valid() && sw.Valid() && sw.size == window && 0 <= sw.offset && sw.CanSlide()
      requires n1 == Window(sw.phrase, window, sw.offset)
      requires Value() == TrainUpTo(c0, sw.phrase, window, sw.offset + 1)
      modifies this`graph, this`keys, sw
      ensures sw.Valid() && sw.offset == old(sw.offset) + 1 && sw.offset + window <= |sw.phrase|
      ensures n2 == Window(sw.phrase, window, sw.offset)
      ensures Value() == TrainUpTo(c0, sw.phrase, window, sw.offset + 1)
    {
      ghost var n := sw.offset + 1;
      var next := sw.Slide();
      n2 := next.value;
      NodeAt(n2);
      ghost var c1 := Value();
      var t := AddEdgeIn(graph[n1], n2);
      graph := graph[n1 := t];
      TrainUpToNext(c0, sw.phrase, window, n, c1, Value());
    }

    /**
     * MarkovChain._scanSingleMatch on the tokens of `phrase` from `from` on:
     * -1 when at most `window` of them are left, 0 when no window labels a
     * node, otherwise the average along the exact edges walked, recorded
     * as a new entry without capture.
     */
    method ScanSingle(phrase: seq<string>, from: nat, details: MatchResults) returns (avg: Double)
      requires Valid() && from <= |phrase|
      modifies details
      ensures var s := ExactSingleSpec(graph, phrase, from, window, old(details.Value()));
        avg == s.avg && details.Value() == s.details
    {
      avg := ScanSingleIn(graph, window, phrase, from, details);
    }

    /**
     * MarkovChain.match: -1 for a phrase of at most `window` tokens;
     * otherwise one sub-match into fresh details, whose average counts only
     * when its single entry covers the whole phrase from offset 0.
     */
    method Match(phrase: seq<string>) returns (r: Double)
      requires Valid()
      ensures r == ExactMatchSpec(graph, phrase, window)
    {
      r := MatchIn(graph, window, phrase);
    }

    /**
     * MarkovChain.scan(phrase, details): -1 for a short phrase; otherwise
     * sub-matches from the start of the phrase, each starting right after
     * the previous entry, while the average is positive; the largest
     * average is the result. Null details are replaced by fresh ones.
     */
    method Scan(phrase: seq<string>, details: MatchResults?) returns (r: Double)
      requires Valid()
      modifies details
      ensures var s := ExactScanSpec(graph, phrase, window, if details == null then NoDetails else old(details.Value()));
        r == s.max && (details != null ==> details.Value() == s.details)
    {
      r := ScanIn(graph, window, phrase, details);
    }

    /**
     * MarkovChain.traverse: the listener calls as a trace. Nodes are visited
     * in key order and edges in table order; a null label throws a
     * NullPointerException where the source dereferences it.
     */
    method Traverse() returns (tr: Trace)
      requires KeysIn(Value())
      ensures tr == TraverseSpec(Value(), window)
    {
      var events := [StartModel(window)];
      ghost var items: seq<Item> := [];
      var i := 0;
      while i < |keys|
        invariant 0 <= i <= |keys|
        invariant items == TraverseItems(graph, keys[..i])
        invariant events == [StartModel(window)] + ItemEvents(items).events && ItemEvents(items).failure.None?
      {
        var k := keys[i];
        TraverseItemsNext(graph, keys, i);
        TraverseItemsPrefix(graph, keys, i + 1);
        var failed;
        events, failed := NlcmdChain.TraverseEdges(window, k, graph[k], items, events);
        items := items + EdgeItems(k, graph[k]);
        if failed {
          ItemEventsFailed(items, TraverseItems(graph, keys));
          return Trace(events, Some(NullPointer));
        }
        i := i + 1;
      }
      assert keys[..i] == keys;
      return Trace(events + [EndModel], None);
    }
  }

  /** match on the node map `g` of a chain whose window is `order`. */
  method MatchIn(g: Graph, order: nat, phrase: seq<string>) returns (r: Double)
    requires order >= 1
    ensures r == ExactMatchSpec(g, phrase, order)
  {
    if |phrase| < order + 1 {
      return Finite(-1.0);
    }
    var details := new MatchResults();
    var avg := ScanSingleIn(g, order, phrase, 0, details);
    var es := details.entries;
    if |es| != 1 || es[0].offset != 0 || |es[0].tokens| != |phrase| {
      return Finite(0.0);
    }
    return avg;
  }

  /** scan(phrase, details) on the node map `g` of a chain whose window is `order`. */
  method ScanIn(g: Graph, order: nat, phrase: seq<string>, details: MatchResults?) returns (r: Double)
    requires order >= 1
    modifies details
    ensures var s := ExactScanSpec(g, phrase, order, if details == null then NoDetails else old(details.Value()));
      r == s.max && (details != null ==> details.Value() == s.details)
  {
    if |phrase| < order + 1 {
      return Finite(-1.0);
    }
    var res := details;
    if res == null {
      res := new MatchResults();
    }
    r := ScanLoop(g, order, phrase, res);
  }

  /** _scanSingleMatch on the node map `g` of a chain whose window is `order`. */
  method ScanSingleIn(g: Graph, order: nat, phrase: seq<string>, from: nat, details: MatchResults) returns (avg: Double)
    requires order >= 1 && from <= |phrase|
    modifies details
    ensures var s := ExactSingleSpec(g, phrase, from, order, old(details.Value()));
      avg == s.avg && details.Value() == s.details
  {
    if |phrase| - from < order + 1 {
      return Finite(-1.0);
    }
    var sw := new SlidingWindow(phrase, from, order);
    var found, node := FindFirst(g, order, sw, from);
    if found.None? {
      return Finite(0.0);
    }
    avg := SubMatch(g, order, phrase, sw, found.value, node, details);
  }

  /** The first loop of _scanSingleMatch: slide until a window labels a node. */
  method FindFirst(g: Graph, order: nat, sw: SlidingWindow, from: nat) returns (found: Option<nat>, node: Label)
    requires sw.Valid() && sw.offset == from - 1 && sw.size == order && 1 <= order && from + order < |sw.phrase|
    modifies sw
    ensures sw.Valid() && found == FirstWindow(g, sw.phrase, order, from)
    ensures found.Some? ==> sw.offset == found.value && node == Window(sw.phrase, order, found.value)
  {
    var offset := from;
    while sw.CanSlide()
      invariant sw.Valid() && sw.size == order
      invariant sw.offset == offset - 1 && offset + order <= |sw.phrase| + 1
      invariant FirstWindow(g, sw.phrase, order, from) == FirstWindow(g, sw.phrase, order, offset)
      decreases |sw.phrase| - offset
    {
      var l := sw.Slide();
      if l.value in g {
        return Some(offset), l.value;
      }
      offset := offset + 1;
    }
    return None, [];
  }

  /**
   * The rest of _scanSingleMatch once the window at `k` labels a node:
   * walk the exact edges, then record the tokens walked with their average
   * and no capture.
   */
  method SubMatch(g: Graph, order: nat, phrase: seq<string>, sw: SlidingWindow, k: nat, node: Label,
                  details: MatchResults)
    returns (avg: Double)
    requires sw.Valid() && sw.phrase == phrase && sw.offset == k && sw.size == order && order >= 1
    requires k + order <= |phrase| && node == Window(phrase, order, k)
    modifies sw, details
    ensures var s := ExactSubMatch(g, phrase, order, k, old(details.Value()));
      avg == s.avg && details.Value() == s.details
  {
    var nEdges, sum := WalkFrom(g, order, sw, k, node);
    avg := Average(sum, nEdges);
    details.AppendCarrying(phrase[k..k + nEdges + order], k, avg, None);
  }

  /**
   * The second loop of _scanSingleMatch: from the node of window `k`, look
   * the next window up among the current node's edges and follow the edge,
   * until the windows run out or no edge is found. Answers the number of
   * edges taken and the sum of their probabilities.
   */
  method WalkFrom(g: Graph, order: nat, sw: SlidingWindow, k: nat, node: Label) returns (nEdges: nat, sum: real)
    requires sw.Valid() && sw.offset == k && sw.size == order && order >= 1 && k + order <= |sw.phrase|
    requires node == Window(sw.phrase, order, k)
    modifies sw
    ensures Run(nEdges, sum) == ExactWalk(g, sw.phrase, order, node, k, 0, 0.0)
  {
    ghost var phrase := sw.phrase;
    ghost var target := ExactWalk(g, phrase, order, node, k, 0, 0.0);
    var cur := node;
    nEdges, sum := 0, 0.0;
    while sw.CanSlide()
      invariant sw.Valid() && sw.phrase == phrase && sw.size == order
      invariant sw.offset == k + nEdges && k + nEdges + order <= |phrase|
      invariant ExactWalk(g, phrase, order, cur, k, nEdges, sum) == target
      decreases |phrase| - sw.offset
    {
      var found;
      found, cur, nEdges, sum := WalkTurn(g, order, sw, cur, k, nEdges, sum);
      if !found {
        break;
      }
    }
  }

  /**
   * One turn of the walk loop: slide the window on and look the new window
   * up among the edges of `cur`. When an edge is found the walk moves to its
   * target with one more edge and its probability added; either way the
   * exact walk from the new state ends where the one from the old state does.
   */
  method WalkTurn(g: Graph, order: nat, sw: SlidingWindow, cur: Label, k: nat, nEdges: nat, sum: real)
    returns (found: bool, cur': Label, nEdges': nat, sum': real)
    requires sw.Valid() && sw.size == order && order >= 1 && sw.offset == k + nEdges
    requires k + nEdges + 1 + order <= |sw.phrase|
    modifies sw
    ensures sw.Valid() && sw.offset == k + nEdges + 1
    ensures found ==> (nEdges' == nEdges + 1 &&
      ExactWalk(g, sw.phrase, order, cur', k, nEdges', sum') == ExactWalk(g, sw.phrase, order, cur, k, nEdges, sum))
    ensures !found ==> (cur' == cur && nEdges' == nEdges && sum' == sum &&
      ExactWalk(g, sw.phrase, order, cur, k, nEdges, sum) == Run(nEdges, sum))
  {
    var l := sw.Slide();
    var edge := Lookup(TableOf(g, cur), l.value);
    if edge.None? {
      return false, cur, nEdges, sum;
    }
    return true, edge.value.target, nEdges + 1, sum + edge.value.probability;
  }

  /**
   * The do-while loop of scan on the node map `g`: sub-matches from
   * position 0 on, each starting right after the previous entry, while the
   * average is positive; the largest average is kept.
   */
  method ScanLoop(g: Graph, order: nat, phrase: seq<string>, details: MatchResults) returns (max: Double)
    requires order >= 1
    modifies details
    ensures ExactScanFrom(g, phrase, order, 0, old(details.Value()), Finite(0.0)) == Swept(max, details.Value())
  {
    ghost var target := ExactScanFrom(g, phrase, order, 0, details.Value(), Finite(0.0));
    max := Finite(0.0);
    var offset := 0;
    while true
      invariant offset <= |phrase|
      invariant ExactScanFrom(g, phrase, order, offset, details.Value(), max) == target
      decreases |phrase| - offset
    {
      var next;
      next, max := ScanTurn(g, order, phrase, offset, details, max);
      if next.None? {
        return;
      }
      offset := next.value;
    }
  }

  /**
   * One turn of scan's loop: a sub-match on the rest of the phrase, the
   * larger of its average and `max`, and where the next attempt starts when
   * the average was positive.
   */
  method ScanTurn(g: Graph, order: nat, phrase: seq<string>, offset: nat, details: MatchResults, max: Double)
    returns (next: Option<nat>, max': Double)
    requires order >= 1 && offset <= |phrase|
    modifies details
    ensures var w := ExactScanFrom(g, phrase, order, offset, old(details.Value()), max);
      (next.None? ==> w == Swept(max', details.Value())) &&
      (next.Some? ==> offset < next.value <= |phrase| && w == ExactScanFrom(g, phrase, order, next.value, details.Value(), max'))
  {
    ghost var d := details.Value();
    ghost var s := ExactSingleSpec(g, phrase, offset, order, d);
    SingleAdvances(g, phrase, offset, order, d);
    assert ExactScanFrom(g, phrase, order, offset, d, max) == ExactScanTurn(g, phrase, order, offset, d, max, s);
    var avg := ScanSingleIn(g, order, phrase, offset, details);
    next := None;
    if Greater(avg, Finite(0.0)) {
      var entry := details.entries[|details.entries| - 1];
      assert entry == s.details.entries[|d.entries|];
      next := Some(entry.offset + |entry.tokens|);
    }
    max' := max;
    if Greater(avg, max) {
      max' := avg;
    }
  }
}
