/**
 * A chain's node map as a value, and the three operations both engines share
 * on it: train (slide a window over a phrase and link consecutive windows),
 * load (insert serialised edge triples) and traverse (emit every edge).
 *
 * The node map (a Java HashMap from label to node) is a map from label to
 * edge table, together with the order in which labels were first inserted,
 * which is the order the model visits nodes in.
 */
module Training {
  import opened Base
  import opened Edges

  type Graph = map<Label, Table>

  datatype Chain = Chain(graph: Graph, keys: seq<Label>)

  const Empty := Chain(map[], [])

  /** Every edge leads to a node of the map. */
  predicate Closed(g: Graph)
  {
    forall l, i :: l in g && 0 <= i < |g[l]| ==> g[l][i].target in g
  }

  /** Each label listed once: the last one does not occur before it, and so on. */
  predicate DistinctKeys(keys: seq<Label>)
    decreases |keys|
  {
    keys == [] || (keys[|keys| - 1] !in keys[..|keys| - 1] && DistinctKeys(keys[..|keys| - 1]))
  }

  /** The invariant of a node map: keys listed once each, a closed graph, one edge per target. */
  ghost predicate WellFormed(c: Chain)
  {
    DistinctKeys(c.keys) &&
    (forall l :: l in c.graph <==> l in c.keys) &&
    Closed(c.graph) &&
    (forall l :: l in c.graph ==> DistinctTargets(c.graph[l]))
  }

  /** Every node's outgoing probabilities sum to 1, or it has none. */
  predicate Normalised(g: Graph)
  {
    forall l :: l in g ==> g[l] == [] || Total(g[l]) == 1.0
  }

  /** Every probability lies in (0, 1]. */
  predicate Probabilities(g: Graph)
  {
    forall l :: l in g ==> InRange(g[l]) && Positive(g[l])
  }

  /** The `k`-th window of `order` tokens. */
  function Window(phrase: seq<string>, order: nat, k: nat): Label
    requires k + order <= |phrase|
  {
    phrase[k..k + order]
  }

  /** `_nodes.get(l)`, creating and inserting an edgeless node when absent. */
  function NodeFor(c: Chain, l: Label): Chain
  {
    if l in c.graph then c else Chain(c.graph[l := []], c.keys + [l])
  }

  lemma NodeForWellFormed(c: Chain, l: Label)
    requires WellFormed(c)
    ensures WellFormed(NodeFor(c, l))
    ensures forall x :: x in NodeFor(c, l).graph <==> x in c.graph || x == l
    ensures forall x :: x in c.graph ==> NodeFor(c, l).graph[x] == c.graph[x]
    ensures l !in c.graph ==> NodeFor(c, l).graph[l] == []
  {
    if l !in c.graph {
      var c' := NodeFor(c, l);
      assert forall i :: 0 <= i < |c.keys| ==> c.keys[i] in c.graph;
      assert c'.keys[|c.keys|] == l;
      forall x | x in c'.keys ensures x in c'.graph {
        var i :| 0 <= i < |c'.keys| && c'.keys[i] == x;
        if i < |c.keys| { assert c.keys[i] == x; }
      }
      forall x | x in c'.graph ensures x in c'.keys {
        if x != l { assert x in c.keys; var i :| 0 <= i < |c.keys| && c.keys[i] == x; assert c'.keys[i] == x; }
      }
    }
  }

  /** Replacing one node's table by a table of existing targets keeps the invariant. */
  lemma SetTableWellFormed(c: Chain, from: Label, t: Table)
    requires WellFormed(c) && from in c.graph
    requires DistinctTargets(t) && forall i :: 0 <= i < |t| ==> t[i].target in c.graph
    ensures WellFormed(Chain(c.graph[from := t], c.keys))
  {
  }

  /**
   * The chain after the first `n` windows of a training phrase: window k is
   * looked up or created, and for k > 0 the previous window's node gets
   * addEdge to it.
   */
  function TrainUpTo(c: Chain, phrase: seq<string>, order: nat, n: nat): (r: Chain)
    requires n + order <= |phrase| + 1
    ensures forall j :: 0 <= j < n ==> Window(phrase, order, j) in r.graph
    ensures forall l :: l in c.graph ==> l in r.graph
    decreases n
  {
    if n == 0 then c
    else
      var prev := TrainUpTo(c, phrase, order, n - 1);
      var c1 := NodeFor(prev, Window(phrase, order, n - 1));
      if n == 1 then c1
      else
        var from := Window(phrase, order, n - 2);
        Chain(c1.graph[from := AddEdgeSpec(c1.graph[from], Window(phrase, order, n - 1))], c1.keys)
  }

  /** One more window of a training phrase: create its node, then link the previous window's node to it. */
  lemma TrainUpToNext(c: Chain, phrase: seq<string>, order: nat, n: nat, c1: Chain, c2: Chain)
    requires 0 < n && n + 1 + order <= |phrase| + 1
    requires c1 == NodeFor(TrainUpTo(c, phrase, order, n), Window(phrase, order, n))
    requires c2 == Chain(c1.graph[Window(phrase, order, n - 1) := AddEdgeSpec(c1.graph[Window(phrase, order, n - 1)], Window(phrase, order, n))], c1.keys)
    ensures c2 == TrainUpTo(c, phrase, order, n + 1)
  {
  }

  /** MarkovChain.train: phrases of at most `order` tokens are ignored. */
  function TrainSpec(c: Chain, phrase: seq<string>, order: nat): Chain
  {
    if |phrase| <= order then c else TrainUpTo(c, phrase, order, |phrase| - order + 1)
  }

  /** Training adds exactly the phrase's windows as nodes. */
  lemma {:induction false} TrainUpToKeys(c: Chain, phrase: seq<string>, order: nat, n: nat, l: Label)
    requires n + order <= |phrase| + 1
    ensures l in TrainUpTo(c, phrase, order, n).graph <==>
      l in c.graph || exists j :: 0 <= j < n && Window(phrase, order, j) == l
    decreases n
  {
    if n > 0 {
      TrainUpToKeys(c, phrase, order, n - 1, l);
      if exists j :: 0 <= j < n && Window(phrase, order, j) == l {
        var j :| 0 <= j < n && Window(phrase, order, j) == l;
        if j < n - 1 {
          assert exists j' :: 0 <= j' < n - 1 && Window(phrase, order, j') == l;
        }
      }
    }
  }

  /** Node.addEdge between two nodes of a well-formed chain keeps it well-formed. */
  lemma AddEdgeWellFormed(c: Chain, from: Label, w: Label)
    requires WellFormed(c) && from in c.graph && w in c.graph
    ensures WellFormed(Chain(c.graph[from := AddEdgeSpec(c.graph[from], w)], c.keys))
  {
    var t := AddEdgeSpec(c.graph[from], w);
    AddEdgeKeys(c.graph[from], w);
    forall i | 0 <= i < |t| ensures t[i].target in c.graph {
      assert t[i].target in Targets(t);
      if t[i].target != w {
        var j :| 0 <= j < |c.graph[from]| && c.graph[from][j].target == t[i].target;
      }
    }
    SetTableWellFormed(c, from, t);
  }

  /** One training step keeps the node-map invariant. */
  lemma TrainStepWellFormed(c: Chain, phrase: seq<string>, order: nat, n: nat)
    requires 0 < n && n + order <= |phrase| + 1
    requires WellFormed(TrainUpTo(c, phrase, order, n - 1))
    ensures WellFormed(TrainUpTo(c, phrase, order, n))
  {
    var prev := TrainUpTo(c, phrase, order, n - 1);
    var w := Window(phrase, order, n - 1);
    var c1 := NodeFor(prev, w);
    NodeForWellFormed(prev, w);
    if n > 1 {
      AddEdgeWellFormed(c1, Window(phrase, order, n - 2), w);
    }
  }

  lemma {:induction false} TrainUpToWellFormed(c: Chain, phrase: seq<string>, order: nat, n: nat)
    requires n + order <= |phrase| + 1
    requires WellFormed(c)
    ensures WellFormed(TrainUpTo(c, phrase, order, n))
    decreases n
  {
    if n > 0 {
      TrainUpToWellFormed(c, phrase, order, n - 1);
      TrainStepWellFormed(c, phrase, order, n);
    }
  }

  /** Training keeps the node-map invariant. */
  lemma TrainWellFormed(c: Chain, phrase: seq<string>, order: nat)
    requires WellFormed(c)
    ensures WellFormed(TrainSpec(c, phrase, order))
  {
    if |phrase| > order {
      TrainUpToWellFormed(c, phrase, order, |phrase| - order + 1);
    }
  }

  lemma TrainStepKeepsEdges(c: Chain, phrase: seq<string>, order: nat, n: nat, l: Label)
    requires 0 < n && n + order <= |phrase| + 1
    requires l in TrainUpTo(c, phrase, order, n - 1).graph
    ensures l in TrainUpTo(c, phrase, order, n).graph
    ensures Targets(TrainUpTo(c, phrase, order, n - 1).graph[l]) <= Targets(TrainUpTo(c, phrase, order, n).graph[l])
  {
    var prev := TrainUpTo(c, phrase, order, n - 1);
    var c1 := NodeFor(prev, Window(phrase, order, n - 1));
    assert c1.graph[l] == prev.graph[l];
    if n > 1 {
      var from := Window(phrase, order, n - 2);
      if l == from {
        AddEdgeKeys(c1.graph[from], Window(phrase, order, n - 1));
      }
    }
  }

  /** Training never removes an edge: every target a node had, it still has. */
  lemma {:induction false} TrainUpToKeepsEdges(c: Chain, phrase: seq<string>, order: nat, n: nat, l: Label)
    requires n + order <= |phrase| + 1
    requires l in c.graph
    ensures Targets(c.graph[l]) <= Targets(TrainUpTo(c, phrase, order, n).graph[l])
    decreases n
  {
    if n > 0 {
      TrainUpToKeepsEdges(c, phrase, order, n - 1, l);
      TrainStepKeepsEdges(c, phrase, order, n, l);
    }
  }

  /** After training, each window's node has an edge to the next window. */
  lemma {:induction false} TrainUpToLinks(c: Chain, phrase: seq<string>, order: nat, n: nat, j: nat)
    requires n + order <= |phrase| + 1
    requires j + 1 < n
    ensures Window(phrase, order, j + 1) in Targets(TrainUpTo(c, phrase, order, n).graph[Window(phrase, order, j)])
    decreases n
  {
    if j + 2 < n {
      TrainUpToLinks(c, phrase, order, n - 1, j);
      TrainStepKeepsEdges(c, phrase, order, n, Window(phrase, order, j));
    } else {
      var prev := TrainUpTo(c, phrase, order, n - 1);
      var c1 := NodeFor(prev, Window(phrase, order, n - 1));
      AddEdgeKeys(c1.graph[Window(phrase, order, j)], Window(phrase, order, j + 1));
    }
  }

  /** Training keeps every node normalised and every probability in (0, 1]. */
  lemma {:induction false} TrainUpToNormalised(c: Chain, phrase: seq<string>, order: nat, n: nat)
    requires n + order <= |phrase| + 1
    requires Normalised(c.graph) && Probabilities(c.graph)
    ensures Normalised(TrainUpTo(c, phrase, order, n).graph) && Probabilities(TrainUpTo(c, phrase, order, n).graph)
    decreases n
  {
    if n > 0 {
      TrainUpToNormalised(c, phrase, order, n - 1);
      var prev := TrainUpTo(c, phrase, order, n - 1);
      var c1 := NodeFor(prev, Window(phrase, order, n - 1));
      NodeForKeepsNormalised(prev, Window(phrase, order, n - 1));
      if n > 1 {
        AddEdgeKeepsNormalised(c1.graph, Window(phrase, order, n - 2), Window(phrase, order, n - 1));
      }
    }
  }

  /** A new edgeless node keeps a map normalised with probabilities in (0, 1]. */
  lemma NodeForKeepsNormalised(c: Chain, l: Label)
    requires Normalised(c.graph) && Probabilities(c.graph)
    ensures Normalised(NodeFor(c, l).graph) && Probabilities(NodeFor(c, l).graph)
  {
    assert InRange([]) && Positive([]);
  }

  /** Adding an edge to one node of a normalised map with probabilities in (0, 1] keeps both. */
  lemma AddEdgeKeepsNormalised(g: Graph, from: Label, w: Label)
    requires from in g && Normalised(g) && Probabilities(g)
    ensures Normalised(g[from := AddEdgeSpec(g[from], w)]) && Probabilities(g[from := AddEdgeSpec(g[from], w)])
  {
    AddEdgeNormalised(g[from], w);
    AddEdgeInRange(g[from], w);
    AddEdgePositive(g[from], w);
  }

  /** The windows of a phrase are pairwise different. */
  predicate DistinctWindows(phrase: seq<string>, order: nat)
  {
    forall i, j :: 0 <= i < j && j + order <= |phrase| ==> Window(phrase, order, i) != Window(phrase, order, j)
  }

  /** `g` holds the path that the first `n` windows of the phrase form. */
  ghost predicate IsPath(g: Graph, phrase: seq<string>, order: nat, n: nat)
    requires n + order <= |phrase| + 1
  {
    forall j :: 0 <= j < n ==>
      Window(phrase, order, j) in g &&
      g[Window(phrase, order, j)] == if j + 1 < n then [Edge(Window(phrase, order, j + 1), 1.0)] else []
  }

  lemma NewEdge(t: Table, w: Label)
    requires t == []
    ensures AddEdgeSpec(t, w) == [Edge(w, 1.0)]
  {
    assert WeakenOthers(t, -1) == [];
  }

  lemma WindowFresh(phrase: seq<string>, order: nat, n: nat)
    requires 0 < n && n + order <= |phrase| + 1
    requires DistinctWindows(phrase, order)
    ensures Window(phrase, order, n - 1) !in TrainUpTo(Empty, phrase, order, n - 1).graph
  {
    TrainUpToKeys(Empty, phrase, order, n - 1, Window(phrase, order, n - 1));
    forall j | 0 <= j < n - 1 ensures Window(phrase, order, j) != Window(phrase, order, n - 1) { }
  }

  lemma TrainPathStep(phrase: seq<string>, order: nat, n: nat)
    requires 0 < n && n + order <= |phrase| + 1
    requires DistinctWindows(phrase, order)
    requires IsPath(TrainUpTo(Empty, phrase, order, n - 1).graph, phrase, order, n - 1)
    ensures IsPath(TrainUpTo(Empty, phrase, order, n).graph, phrase, order, n)
  {
    var prev := TrainUpTo(Empty, phrase, order, n - 1);
    var w := Window(phrase, order, n - 1);
    WindowFresh(phrase, order, n);
    var c1 := NodeFor(prev, w);
    var g := TrainUpTo(Empty, phrase, order, n).graph;
    if n > 1 {
      var from := Window(phrase, order, n - 2);
      NewEdge(c1.graph[from], w);
      assert g == c1.graph[from := [Edge(w, 1.0)]];
      forall j | 0 <= j < n
        ensures Window(phrase, order, j) in g
        ensures g[Window(phrase, order, j)] == if j + 1 < n then [Edge(Window(phrase, order, j + 1), 1.0)] else []
      {
        if j < n - 2 {
          assert Window(phrase, order, j) != Window(phrase, order, n - 2);
          assert Window(phrase, order, j) != w;
        } else if j == n - 2 {
          assert Window(phrase, order, j) != w;
        }
      }
    }
  }

  /**
   * On an empty chain, a phrase whose windows are all different yields a
   * path: each window's only edge leads to the next window with probability 1.
   */
  lemma {:induction false} TrainUpToPath(phrase: seq<string>, order: nat, n: nat)
    requires n + order <= |phrase| + 1
    requires DistinctWindows(phrase, order)
    ensures IsPath(TrainUpTo(Empty, phrase, order, n).graph, phrase, order, n)
    decreases n
  {
    if n > 0 {
      TrainUpToPath(phrase, order, n - 1);
      TrainPathStep(phrase, order, n);
    }
  }

  // ---------------------------------------------------------------- load

  /** One element of the serialised chain: an edge triple, or an element the JSON reader rejects. */
  datatype Item = Triple(from: Label, probability: real, to: Label) | Malformed

  datatype Loaded = Loaded(chain: Chain, ok: bool)

  /** Insert one triple: both nodes looked up or created, then addEdge(Edge) on the source. */
  function LoadItem(c: Chain, from: Label, probability: real, to: Label): Chain
  {
    var c1 := NodeFor(NodeFor(c, from), to);
    Chain(c1.graph[from := Put(c1.graph[from], Edge(to, probability))], c1.keys)
  }

  /** MarkovChain.load: triples are inserted in order up to the first malformed element. */
  function LoadSpec(c: Chain, items: seq<Item>): Loaded
    decreases |items|
  {
    if items == [] then Loaded(c, true)
    else match items[0]
      case Malformed => Loaded(c, false)
      case Triple(from, p, to) => LoadSpec(LoadItem(c, from, p, to), items[1..])
  }

  predicate AllTriples(items: seq<Item>)
  {
    forall i :: 0 <= i < |items| ==> items[i].Triple?
  }

  /** Loading reports success exactly when no element is malformed. */
  lemma {:induction false} LoadOk(c: Chain, items: seq<Item>)
    ensures LoadSpec(c, items).ok <==> AllTriples(items)
    decreases |items|
  {
    if items != [] && items[0].Triple? {
      LoadOk(LoadItem(c, items[0].from, items[0].probability, items[0].to), items[1..]);
      if AllTriples(items[1..]) {
        forall i | 0 <= i < |items| ensures items[i].Triple? {
          if i > 0 { assert items[1..][i - 1] == items[i]; }
        }
      }
    }
  }

  lemma LoadItemWellFormed(c: Chain, from: Label, p: real, to: Label)
    requires WellFormed(c)
    ensures WellFormed(LoadItem(c, from, p, to))
  {
    var c0 := NodeFor(c, from);
    NodeForWellFormed(c, from);
    var c1 := NodeFor(c0, to);
    NodeForWellFormed(c0, to);
    var t := Put(c1.graph[from], Edge(to, p));
    PutKeys(c1.graph[from], Edge(to, p));
    forall i | 0 <= i < |t| ensures t[i].target in c1.graph {
      assert t[i].target in Targets(t);
      if t[i].target != to {
        var j :| 0 <= j < |c1.graph[from]| && c1.graph[from][j].target == t[i].target;
      }
    }
    SetTableWellFormed(c1, from, t);
  }

  /** Loading keeps the node-map invariant, also when it stops at a malformed element. */
  lemma {:induction false} LoadWellFormed(c: Chain, items: seq<Item>)
    requires WellFormed(c)
    ensures WellFormed(LoadSpec(c, items).chain)
    decreases |items|
  {
    if items != [] && items[0].Triple? {
      LoadItemWellFormed(c, items[0].from, items[0].probability, items[0].to);
      LoadWellFormed(LoadItem(c, items[0].from, items[0].probability, items[0].to), items[1..]);
    }
  }

  lemma {:induction false} LoadConcat(c: Chain, a: seq<Item>, b: seq<Item>)
    requires AllTriples(a)
    ensures LoadSpec(c, a + b) == LoadSpec(LoadSpec(c, a).chain, b)
    decreases |a|
  {
    if a != [] {
      assert (a + b)[1..] == a[1..] + b;
      assert (a + b)[0] == a[0] && a[0].Triple?;
      var c' := LoadItem(c, a[0].from, a[0].probability, a[0].to);
      assert LoadSpec(c, a + b) == LoadSpec(c', (a + b)[1..]);
      assert LoadSpec(c, a) == LoadSpec(c', a[1..]);
      assert AllTriples(a[1..]) by {
        forall i | 0 <= i < |a| - 1 ensures a[1..][i].Triple? { assert a[1..][i] == a[i + 1]; }
      }
      LoadConcat(LoadItem(c, a[0].from, a[0].probability, a[0].to), a[1..], b);
    } else {
      assert a + b == b;
    }
  }

  // ------------------------------------------------------------ traverse

  /** The triples of one node's edges, in table order. */
  function EdgeItems(l: Label, t: Table): (r: seq<Item>)
    ensures |r| == |t|
  {
    seq(|t|, i requires 0 <= i < |t| => Triple(l, t[i].probability, t[i].target))
  }

  /** Every edge of the chain as a triple: nodes in key order, edges in table order. */
  function TraverseItems(g: Graph, keys: seq<Label>): (r: seq<Item>)
    requires forall i :: 0 <= i < |keys| ==> keys[i] in g
    ensures AllTriples(r)
    decreases |keys|
  {
    if keys == [] then []
    else
      var last := keys[|keys| - 1];
      TraverseItems(g, keys[..|keys| - 1]) + EdgeItems(last, g[last])
  }

  /** The listener calls of traverse. */
  datatype Event = StartModel(order: int) | StartGraph(source: Label) | EdgeTo(probability: real, target: Label) | EndGraph | EndModel

  /** The calls made, and the exception that stopped the walk if any. */
  datatype Trace = Trace(events: seq<Event>, failure: Option<Exception>)

  /**
   * The calls for a sequence of triples. A null (empty) source label fails
   * before startGraph, a null target label right after it.
   */
  function ItemEvents(items: seq<Item>): Trace
    decreases |items|
  {
    if items == [] then Trace([], None)
    else
      var tr := ItemEvents(items[..|items| - 1]);
      if tr.failure.Some? then tr
      else match items[|items| - 1]
        case Malformed => tr
        case Triple(from, p, to) =>
          if from == [] then Trace(tr.events, Some(NullPointer))
          else if to == [] then Trace(tr.events + [StartGraph(from)], Some(NullPointer))
          else Trace(tr.events + [StartGraph(from), EdgeTo(p, to), EndGraph], None)
  }

  /** Every listed label is a node of the map. */
  predicate KeysIn(c: Chain)
  {
    forall i :: 0 <= i < |c.keys| ==> c.keys[i] in c.graph
  }

  /**
   * MarkovChain.traverse: startModel, the calls for every edge, and endModel
   * unless a null label stopped the walk.
   */
  function TraverseSpec(c: Chain, order: int): Trace
    requires KeysIn(c)
  {
    var tr := ItemEvents(TraverseItems(c.graph, c.keys));
    Trace([StartModel(order)] + tr.events + (if tr.failure.None? then [EndModel] else []), tr.failure)
  }

  /** The triples of the first `i` nodes come first among the triples of all nodes. */
  lemma {:induction false} TraverseItemsPrefix(g: Graph, keys: seq<Label>, i: nat)
    requires forall j :: 0 <= j < |keys| ==> keys[j] in g
    requires i <= |keys|
    ensures TraverseItems(g, keys[..i]) <= TraverseItems(g, keys)
    decreases |keys|
  {
    if i < |keys| {
      var front := keys[..|keys| - 1];
      TraverseItemsPrefix(g, front, i);
      assert front[..i] == keys[..i];
    } else {
      assert keys[..i] == keys;
    }
  }

  /** The triples of the first `i + 1` nodes: those of the first `i`, then the edges of node `i`. */
  lemma TraverseItemsNext(g: Graph, keys: seq<Label>, i: nat)
    requires forall j :: 0 <= j < |keys| ==> keys[j] in g
    requires i < |keys|
    ensures TraverseItems(g, keys[..i + 1]) == TraverseItems(g, keys[..i]) + EdgeItems(keys[i], g[keys[i]])
  {
    assert keys[..i + 1][..i] == keys[..i];
  }

  /** Once a prefix of the triples has failed, the triples after it change nothing. */
  lemma {:induction false} ItemEventsFailed(p: seq<Item>, q: seq<Item>)
    requires p <= q && ItemEvents(p).failure.Some?
    ensures ItemEvents(q) == ItemEvents(p)
    decreases |q|
  {
    if |q| > |p| {
      assert p <= q[..|q| - 1];
      ItemEventsFailed(p, q[..|q| - 1]);
    } else {
      assert p == q;
    }
  }

  /** The calls for one more triple: the null checks of traverse's inner loop. */
  lemma ItemEventsNext(pre: seq<Item>, from: Label, p: real, to: Label)
    requires ItemEvents(pre).failure.None?
    ensures var before := ItemEvents(pre).events;
      ItemEvents(pre + [Triple(from, p, to)]) ==
        if from == [] then Trace(before, Some(NullPointer))
        else if to == [] then Trace(before + [StartGraph(from)], Some(NullPointer))
        else Trace(before + [StartGraph(from), EdgeTo(p, to), EndGraph], None)
  {
    assert (pre + [Triple(from, p, to)])[..|pre|] == pre;
  }

  /** The triples of the first `j + 1` edges of node `k`: those of the first `j`, then edge `j`. */
  lemma EdgeItemsNext(items: seq<Item>, k: Label, t: Table, j: nat)
    requires j < |t|
    ensures items + EdgeItems(k, t)[..j + 1] == items + EdgeItems(k, t)[..j] + [Triple(k, t[j].probability, t[j].target)]
  {
  }

  /** A failure at edge `j` of node `k` is the outcome of all of that node's triples. */
  lemma EdgeItemsFailed(items: seq<Item>, k: Label, t: Table, j: nat)
    requires j < |t| && ItemEvents(items + EdgeItems(k, t)[..j + 1]).failure.Some?
    ensures ItemEvents(items + EdgeItems(k, t)) == ItemEvents(items + EdgeItems(k, t)[..j + 1])
  {
    assert items + EdgeItems(k, t)[..j + 1] <= items + EdgeItems(k, t);
    ItemEventsFailed(items + EdgeItems(k, t)[..j + 1], items + EdgeItems(k, t));
  }

  predicate LabelsPresent(items: seq<Item>)
  {
    forall i :: 0 <= i < |items| ==> items[i].Triple? && items[i].from != [] && items[i].to != []
  }

  /**
   * Without null labels every triple becomes startGraph, addEdge, endGraph,
   * in order; otherwise the walk fails with a NullPointerException.
   */
  lemma {:induction false} ItemEventsShape(items: seq<Item>)
    requires AllTriples(items)
    ensures ItemEvents(items).failure.None? <==> LabelsPresent(items)
    ensures LabelsPresent(items) ==> |ItemEvents(items).events| == 3 * |items|
    ensures LabelsPresent(items) ==> forall i :: 0 <= i < |items| ==>
      ItemEvents(items).events[3 * i..3 * i + 3] ==
        [StartGraph(items[i].from), EdgeTo(items[i].probability, items[i].to), EndGraph]
    ensures ItemEvents(items).failure.Some? ==> ItemEvents(items).failure == Some(NullPointer)
    decreases |items|
  {
    if items != [] {
      var front := items[..|items| - 1];
      assert AllTriples(front) by {
        forall i | 0 <= i < |front| ensures front[i].Triple? { assert front[i] == items[i]; }
      }
      ItemEventsShape(front);
      var tr := ItemEvents(front);
      assert LabelsPresent(items) ==> LabelsPresent(front) by {
        if LabelsPresent(items) {
          forall i | 0 <= i < |front| ensures front[i].Triple? && front[i].from != [] && front[i].to != [] {
            assert front[i] == items[i];
          }
        }
      }
      if tr.failure.None? && !LabelsPresent(front) {
        assert false;
      }
      if LabelsPresent(front) && !LabelsPresent(items) {
        var i :| 0 <= i < |items| && !(items[i].Triple? && items[i].from != [] && items[i].to != []);
      }
      if LabelsPresent(items) {
        assert items == front + [items[|items| - 1]];
        EventsGrouped(tr.events, front, items[|items| - 1]);
      }
    }
  }

  /** The three calls of the triple `x` appended to calls grouped by triple stay grouped by triple. */
  lemma EventsGrouped(ev: seq<Event>, front: seq<Item>, x: Item)
    requires AllTriples(front) && x.Triple? && |ev| == 3 * |front|
    requires forall i :: 0 <= i < |front| ==>
      ev[3 * i..3 * i + 3] == [StartGraph(front[i].from), EdgeTo(front[i].probability, front[i].to), EndGraph]
    ensures var items, ev' := front + [x], ev + [StartGraph(x.from), EdgeTo(x.probability, x.to), EndGraph];
      forall i :: 0 <= i < |items| ==>
        ev'[3 * i..3 * i + 3] == [StartGraph(items[i].from), EdgeTo(items[i].probability, items[i].to), EndGraph]
  {
    var items, ev' := front + [x], ev + [StartGraph(x.from), EdgeTo(x.probability, x.to), EndGraph];
    forall i | 0 <= i < |items|
      ensures ev'[3 * i..3 * i + 3] == [StartGraph(items[i].from), EdgeTo(items[i].probability, items[i].to), EndGraph]
    {
      if i < |front| {
        assert ev'[3 * i..3 * i + 3] == ev[3 * i..3 * i + 3];
      }
    }
  }

  // ---------------------------------------------------------- round trip

  /** No node is isolated: each has an outgoing edge or is the target of one. */
  predicate NoIsolated(g: Graph)
  {
    forall l :: l in g ==> g[l] != [] || exists k :: k in g && l in Targets(g[k])
  }

  /** The labels a reload of the edges of `keys` creates. */
  function Reached(g: Graph, keys: seq<Label>): set<Label>
    requires forall i :: 0 <= i < |keys| ==> keys[i] in g
    decreases |keys|
  {
    if keys == [] then {}
    else
      var last := keys[|keys| - 1];
      Reached(g, keys[..|keys| - 1]) + (if g[last] != [] then {last} else {}) + Targets(g[last])
  }

  lemma {:induction false} ReachedContents(g: Graph, keys: seq<Label>, l: Label)
    requires forall i :: 0 <= i < |keys| ==> keys[i] in g
    ensures l in Reached(g, keys) <==>
      (l in keys && g[l] != []) || exists i :: 0 <= i < |keys| && l in Targets(g[keys[i]])
    decreases |keys|
  {
    if keys != [] {
      var front := keys[..|keys| - 1];
      ReachedContents(g, front, l);
      if exists i :: 0 <= i < |keys| && l in Targets(g[keys[i]]) {
        var i :| 0 <= i < |keys| && l in Targets(g[keys[i]]);
        if i < |front| { assert front[i] == keys[i]; }
      }
      if exists i :: 0 <= i < |front| && l in Targets(g[front[i]]) {
        var i :| 0 <= i < |front| && l in Targets(g[front[i]]);
        assert front[i] == keys[i];
      }
    }
  }

  /** `c'` is `c` with one triple inserted: the source's table gains the edge, other nodes keep theirs, new nodes are edgeless. */
  ghost predicate ItemLoaded(c: Chain, c': Chain, from: Label, p: real, to: Label)
  {
    (forall l :: l in c'.graph <==> l in c.graph || l == from || l == to) &&
    from in c'.graph && c'.graph[from] == Put(if from in c.graph then c.graph[from] else [], Edge(to, p)) &&
    (forall l :: l in c'.graph && l != from ==> c'.graph[l] == if l in c.graph then c.graph[l] else [])
  }

  lemma LoadItemGraph(c: Chain, from: Label, p: real, to: Label)
    ensures ItemLoaded(c, LoadItem(c, from, p, to), from, p, to)
  {
  }

  lemma EdgeItemsSnoc(k: Label, t: Table)
    requires t != []
    ensures EdgeItems(k, t) == EdgeItems(k, t[..|t| - 1]) + [Triple(k, t[|t| - 1].probability, t[|t| - 1].target)]
  {
  }

  /**
   * `c'` is `c` with the table `t` given to node `k`: the targets of `t` (and
   * `k`, when `t` has edges) added as nodes, every other node unchanged.
   */
  ghost predicate TableLoaded(c: Chain, c': Chain, k: Label, t: Table)
  {
    (forall l :: l in c'.graph <==> l in c.graph || (t != [] && l == k) || l in Targets(t)) &&
    (k in c'.graph ==> c'.graph[k] == t) &&
    (forall l :: l in c'.graph && l != k ==> c'.graph[l] == if l in c.graph then c.graph[l] else [])
  }

  /** One more triple of `k`'s table, with a target the table does not hold yet, extends it by that edge. */
  lemma TableLoadedStep(c: Chain, c1: Chain, c2: Chain, k: Label, t: Table)
    requires t != [] && DistinctTargets(t)
    requires TableLoaded(c, c1, k, t[..|t| - 1])
    requires ItemLoaded(c1, c2, k, t[|t| - 1].probability, t[|t| - 1].target)
    ensures TableLoaded(c, c2, k, t)
  {
    var front, e := t[..|t| - 1], t[|t| - 1];
    assert c2.graph[k] == t by {
      assert (if k in c1.graph then c1.graph[k] else []) == front;
      assert IndexOf(front, e.target) == None by {
        forall j | 0 <= j < |front| ensures front[j].target != e.target {
          assert front[j] == t[j];
        }
      }
      assert front + [e] == t;
    }
    assert Targets(t) == Targets(front) + {e.target} by {
      assert front + [e] == t;
      TargetsOfAppend(front, e);
    }
    forall l ensures l in c2.graph <==> l in c.graph || (t != [] && l == k) || l in Targets(t) {
    }
    forall l | l in c2.graph && l != k ensures c2.graph[l] == if l in c.graph then c.graph[l] else [] {
      assert c2.graph[l] == if l in c1.graph then c1.graph[l] else [];
    }
  }

  /**
   * Loading the triples of one node's table onto a chain in which that node
   * has no edges yet rebuilds the table and adds its targets as edgeless nodes.
   */
  lemma {:induction false} LoadEdgeItems(c: Chain, k: Label, t: Table)
    requires DistinctTargets(t)
    requires k in c.graph ==> c.graph[k] == []
    ensures TableLoaded(c, LoadSpec(c, EdgeItems(k, t)).chain, k, t)
    decreases |t|
  {
    if t == [] {
      assert EdgeItems(k, t) == [];
    } else {
      var front := t[..|t| - 1];
      var e := t[|t| - 1];
      assert DistinctTargets(front);
      LoadEdgeItems(c, k, front);
      EdgeItemsSnoc(k, t);
      LoadConcat(c, EdgeItems(k, front), [Triple(k, e.probability, e.target)]);
      var c1 := LoadSpec(c, EdgeItems(k, front)).chain;
      assert LoadSpec(c1, [Triple(k, e.probability, e.target)]).chain == LoadItem(c1, k, e.probability, e.target);
      LoadItemGraph(c1, k, e.probability, e.target);
      TableLoadedStep(c, c1, LoadItem(c1, k, e.probability, e.target), k, t);
    }
  }

  /** `c` holds the labels `reached`, with the tables of `g` on the nodes `keys` and no edges elsewhere. */
  ghost predicate Rebuilt(c: Chain, g: Graph, reached: set<Label>, keys: seq<Label>)
    requires forall i :: 0 <= i < |keys| ==> keys[i] in g
  {
    (forall l :: l in c.graph <==> l in reached) &&
    (forall i :: 0 <= i < |keys| && g[keys[i]] != [] ==> keys[i] in c.graph) &&
    (forall l :: l in c.graph ==> c.graph[l] == if l in keys then g[l] else [])
  }

  /** Giving node `k` (not yet among `keys`) its table extends a rebuilt prefix by `k`. */
  lemma RebuiltExtend(c: Chain, c': Chain, g: Graph, reached: set<Label>, keys: seq<Label>, k: Label)
    requires forall i :: 0 <= i < |keys| ==> keys[i] in g
    requires k in g && k !in keys
    requires Rebuilt(c, g, reached, keys) && TableLoaded(c, c', k, g[k])
    ensures forall i :: 0 <= i < |keys + [k]| ==> (keys + [k])[i] in g
    ensures Rebuilt(c', g, reached + (if g[k] != [] then {k} else {}) + Targets(g[k]), keys + [k])
  {
    assert forall l :: l in keys + [k] <==> l in keys || l == k;
    var reached' := reached + (if g[k] != [] then {k} else {}) + Targets(g[k]);
    forall l ensures l in c'.graph <==> l in reached' { }
    forall l | l in c'.graph ensures c'.graph[l] == if l in keys + [k] then g[l] else [] {
      if l != k {
        assert c'.graph[l] == if l in c.graph then c.graph[l] else [];
        assert l in keys + [k] <==> l in keys;
      } else {
        assert (keys + [k])[|keys|] == k;
      }
    }
    forall i | 0 <= i < |keys + [k]| && g[(keys + [k])[i]] != [] ensures (keys + [k])[i] in c'.graph {
      if i < |keys| { assert (keys + [k])[i] == keys[i]; }
    }
  }

  /**
   * Reloading the edges of the nodes `keys` (distinct) into an empty chain
   * creates exactly the labels they reach, gives those nodes their tables
   * back and leaves every other created node edgeless.
   */
  lemma {:induction false} LoadPrefix(g: Graph, keys: seq<Label>)
    requires forall i :: 0 <= i < |keys| ==> keys[i] in g
    requires DistinctKeys(keys)
    requires forall l :: l in g ==> DistinctTargets(g[l])
    ensures LoadSpec(Empty, TraverseItems(g, keys)).ok
    ensures Rebuilt(LoadSpec(Empty, TraverseItems(g, keys)).chain, g, Reached(g, keys), keys)
    decreases |keys|
  {
    LoadOk(Empty, TraverseItems(g, keys));
    if keys != [] {
      var front := keys[..|keys| - 1];
      var k := keys[|keys| - 1];
      LoadPrefix(g, front);
      var c := LoadSpec(Empty, TraverseItems(g, front)).chain;
      var c' := LoadSpec(c, EdgeItems(k, g[k])).chain;
      assert LoadSpec(Empty, TraverseItems(g, keys)).chain == c' by {
        LoadConcat(Empty, TraverseItems(g, front), EdgeItems(k, g[k]));
      }
      assert TableLoaded(c, c', k, g[k]) by {
        LoadEdgeItems(c, k, g[k]);
      }
      RebuiltExtend(c, c', g, Reached(g, front), front, k);
      assert front + [k] == keys;
    }
  }

  /**
   * Round trip: reloading the triples traverse emits into an empty chain
   * rebuilds the graph exactly (same nodes, same tables in the same order),
   * provided no node is isolated. Trained chains have no isolated nodes.
   */
  lemma TraverseLoadRoundTrip(c: Chain)
    requires WellFormed(c) && NoIsolated(c.graph)
    ensures LoadSpec(Empty, TraverseItems(c.graph, c.keys)).ok
    ensures LoadSpec(Empty, TraverseItems(c.graph, c.keys)).chain.graph == c.graph
  {
    var g := c.graph;
    assert forall i :: 0 <= i < |c.keys| ==> c.keys[i] in g;
    LoadPrefix(g, c.keys);
    ReachedAll(c);
    var r := LoadSpec(Empty, TraverseItems(g, c.keys)).chain.graph;
    forall l | l in r
      ensures l in g && r[l] == g[l]
    {
      assert l in Reached(g, c.keys);
      assert l in c.keys;
    }
    forall l | l in g
      ensures l in r
    {
      assert l in Reached(g, c.keys);
    }
    assert r == g;
  }

  /** Without isolated nodes, the edges of all nodes reach every node. */
  lemma ReachedAll(c: Chain)
    requires WellFormed(c) && NoIsolated(c.graph)
    ensures forall i :: 0 <= i < |c.keys| ==> c.keys[i] in c.graph
    ensures forall l :: l in Reached(c.graph, c.keys) <==> l in c.graph
  {
    var g := c.graph;
    assert forall i :: 0 <= i < |c.keys| ==> c.keys[i] in g;
    forall l ensures l in Reached(g, c.keys) <==> l in g {
      ReachedContents(g, c.keys, l);
      if l in g && g[l] == [] {
        var k :| k in g && l in Targets(g[k]);
        var i :| 0 <= i < |c.keys| && c.keys[i] == k;
      }
      if exists i :: 0 <= i < |c.keys| && l in Targets(g[c.keys[i]]) {
        var i :| 0 <= i < |c.keys| && l in Targets(g[c.keys[i]]);
        var j :| 0 <= j < |g[c.keys[i]]| && g[c.keys[i]][j].target == l;
      }
    }
  }

  /** A trained chain has no isolated node: every window is linked to a neighbour. */
  lemma {:induction false} TrainUpToNoIsolated(c: Chain, phrase: seq<string>, order: nat, n: nat)
    requires n + order <= |phrase| + 1 && n != 1
    requires NoIsolated(c.graph)
    ensures NoIsolated(TrainUpTo(c, phrase, order, n).graph)
  {
    var g := TrainUpTo(c, phrase, order, n).graph;
    forall l | l in g ensures g[l] != [] || exists k :: k in g && l in Targets(g[k]) {
      TrainUpToKeys(c, phrase, order, n, l);
      if l in c.graph {
        TrainUpToKeepsEdges(c, phrase, order, n, l);
        if c.graph[l] == [] {
          var k :| k in c.graph && l in Targets(c.graph[k]);
          TrainUpToKeepsEdges(c, phrase, order, n, k);
        } else {
          var e := c.graph[l][0];
          assert e.target in Targets(g[l]);
        }
      } else {
        var j :| 0 <= j < n && Window(phrase, order, j) == l;
        if j + 1 < n {
          TrainUpToLinks(c, phrase, order, n, j);
        } else {
          TrainUpToLinks(c, phrase, order, n, j - 1);
        }
      }
    }
  }
}
