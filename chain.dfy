/**
 * nlcmd's MarkovChain object: a map from label to node (each node owning its
 * edge table), the query mixin, and the operations train, load, match,
 * _scanSingleMatch, scan and traverse, each proved to agree with the
 * definitions of modules Training and Scanning.
 */
module NlcmdChain {
  import opened Base
  import opened Edges
  import opened Matches
  import opened Mixins
  import opened Training
  import opened Nodes
  import opened Scanning

  /** A call `node.associate(phrase, offset)`, which train makes on every window's node. */
  datatype Association = Association(node: Label, phrase: seq<string>, offset: int)

  /** The associate calls for the first `n` windows of a training phrase, in order. */
  function Associations(phrase: seq<string>, order: nat, n: nat): seq<Association>
    requires n + order <= |phrase| + 1
  {
    if n == 0 then [] else Associations(phrase, order, n - 1) + [Association(Window(phrase, order, n - 1), phrase, n - 1)]
  }

  /** Window `k` is associated with the training phrase at offset `k`, once, for every window. */
  lemma {:induction false} AssociationsAt(phrase: seq<string>, order: nat, n: nat)
    requires n + order <= |phrase| + 1
    ensures |Associations(phrase, order, n)| == n
    ensures forall k :: 0 <= k < n ==> Associations(phrase, order, n)[k] == Association(Window(phrase, order, k), phrase, k)
  {
    if n > 0 {
      AssociationsAt(phrase, order, n - 1);
    }
  }

  /** Training "foo bar baz" at order 1 associates the last window, "baz", with offset 2. */
  lemma FooBarBazAssociation()
    ensures Associations(["foo", "bar", "baz"], 1, 3)[2] == Association(["baz"], ["foo", "bar", "baz"], 2)
  {
    AssociationsAt(["foo", "bar", "baz"], 1, 3);
  }

  /** A window of `size` tokens sliding over a phrase, one token per step. */
  class SlidingWindow {
    ghost const phrase: seq<string>
    const size: nat
    /** The tokens not yet slid past (the source's copy of the phrase, whose head is removed). */
    var rest: seq<string>
    /** The offset of the window last returned; -1 before the first slide. */
    var offset: int

    ghost predicate Valid()
      reads this
    {
      -1 <= offset < |phrase| && rest == phrase[offset + 1..]
    }

    constructor (phrase: seq<string>, size: nat)
      requires size >= 1
      ensures this.phrase == phrase && this.size == size && offset == -1 && Valid()
    {
      this.phrase := phrase;
      this.size := size;
      rest := phrase;
      offset := -1;
    }

    /** SlidingWindow.canSlide: another full window remains. */
    function CanSlide(): (r: bool)
      requires Valid()
      reads this
      ensures r <==> offset + 1 + size <= |phrase|
    {
      |rest| >= size
    }

    /** SlidingWindow.slide: the next window, or none once the phrase is exhausted. */
    method Slide() returns (l: Option<Label>)
      requires Valid() && size >= 1
      modifies this
      ensures Valid()
      ensures old(offset) + 1 + size <= |phrase| ==>
        offset == old(offset) + 1 && l == Some(Window(phrase, size, offset))
      ensures old(offset) + 1 + size > |phrase| ==> offset == old(offset) && l == None
    {
      if |rest| < size {
        return None;
      }
      l := Some(rest[..size]);
      assert rest[..size] == phrase[offset + 1..offset + 1 + size];
      rest := rest[1..];
      offset := offset + 1;
    }
  }

  /**
   * nlcmd's MarkovChain. The node map is kept as a value: each label maps to
   * its node's edge table, and `keys` lists the labels in insertion order,
   * the order in which the model visits nodes.
   */
  class MarkovChain {
    const order: nat
    var graph: Graph
    var keys: seq<Label>
    var mixin: Mixin
    /** phraseList: every phrase train accepted. */
    var phraseList: seq<seq<string>>
    /** The calls of the node hook associate, in order (the hook itself does nothing). */
    ghost var associated: seq<Association>

    /** The node map as a value. */
    function Value(): Chain
      reads `graph, `keys
    {
      Chain(graph, keys)
    }

    ghost predicate Valid()
      reads this, mixin
    {
      order >= 1 && mixin.Valid()
    }

    /** MarkovChain(order), with the default mixin. */
    constructor (order: nat)
      requires order >= 1
      ensures this.order == order && Value() == Empty && fresh(mixin) && mixin.kind == Plain && mixin.State() == Initial
      ensures phraseList == [] && associated == [] && Valid()
    {
      this.order := order;
      associated := [];
      graph := map[];
      keys := [];
      mixin := new Mixin(Plain);
      phraseList := [];
    }

    /** setMixin: null restores the default mixin. */
    method SetMixin(m: Mixin?)
      requires Valid() && (m != null ==> m.Valid())
      modifies this`mixin
      ensures Valid()
      ensures m != null ==> mixin == m
      ensures m == null ==> fresh(mixin) && mixin.kind == Plain && mixin.State() == Initial
    {
      if m == null {
        mixin := new Mixin(Plain);
      } else {
        mixin := m;
      }
    }

    /** `_nodes.get(l)`, and `_mixin.create(l)` put into the map when it is absent. */
    method NodeAt(l: Label)
      modifies this`graph, this`keys
      ensures Value() == NodeFor(old(Value()), l)
    {
      if l !in graph {
        graph, keys := graph[l := []], keys + [l];
      }
    }

    /** One element of load's loop: both nodes looked up or created, then `n1.addEdge(new Edge(n2, p))`. */
    method LoadTriple(from: Label, p: real, to: Label)
      modifies this`graph, this`keys
      ensures Value() == LoadItem(old(Value()), from, p, to)
    {
      NodeAt(from);
      NodeAt(to);
      var t := PutEdgeIn(graph[from], Edge(to, p));
      graph := graph[from := t];
    }

    /**
     * MarkovChain.load: the triples are inserted in order; a malformed
     * element throws, leaving the triples before it inserted.
     */
    method Load(items: seq<Item>) returns (r: Outcome<()>)
      requires Valid()
      modifies this`graph, this`keys
      ensures Valid()
      ensures Value() == LoadSpec(old(Value()), items).chain
      ensures r.Return? <==> LoadSpec(old(Value()), items).ok
      ensures r.Throw? ==> r.error == Json
    {
      var i := 0;
      while i < |items|
        invariant 0 <= i <= |items|
        invariant LoadSpec(old(Value()), items) == LoadSpec(Value(), items[i..])
      {
        assert items[i..][0] == items[i] && items[i..][1..] == items[i + 1..];
        if items[i].Malformed? {
          return Throw(Json);
        }
        LoadTriple(items[i].from, items[i].probability, items[i].to);
        i := i + 1;
      }
      return Return(());
    }

    /**
     * MarkovChain.train: a phrase of at most `order` tokens is ignored;
     * otherwise every window's node is looked up or created and each node
     * gets addEdge to the next window's node.
     */
    method Train(phrase: seq<string>)
      requires Valid()
      modifies this`graph, this`keys, this`phraseList, this`associated
      ensures Valid()
      ensures Value() == TrainSpec(old(Value()), phrase, order)
      ensures phraseList == old(phraseList) + (if |phrase| <= order then [] else [phrase])
      ensures associated == old(associated) + (if |phrase| <= order then [] else Associations(phrase, order, |phrase| - order + 1))
    {
      if |phrase| <= order {
        return;
      }
      ghost var c0 := Value();
      phraseList := phraseList + [phrase];
      var sw := new SlidingWindow(phrase, order);
      var first := sw.Slide();
      var n1 := first.value;
      NodeAt(n1);
      associated := associated + [Association(n1, phrase, 0)];
      while sw.CanSlide()
        invariant sw.Valid() && sw.phrase == phrase && sw.size == order
        invariant 0 <= sw.offset && sw.offset + order <= |phrase|
        invariant n1 == Window(phrase, order, sw.offset)
        invariant Value() == TrainUpTo(c0, phrase, order, sw.offset + 1)
        invariant phraseList == old(phraseList) + [phrase]
        invariant associated == old(associated) + Associations(phrase, order, sw.offset + 1)
        decreases |phrase| - sw.offset
      {
        n1 := TrainStep(sw, n1, c0, old(associated));
      }
      assert sw.offset + 1 == |phrase| - order + 1;
    }

    /** One turn of train's loop: slide, look up or create the next window's node, link the previous one to it. */
    method TrainStep(sw: SlidingWindow, n1: Label, ghost c0: Chain, ghost a0: seq<Association>) returns (n2: Label)
      requires sw.Valid() && sw.size == order && order >= 1 && 0 <= sw.offset && sw.CanSlide()
      requires n1 == Window(sw.phrase, order, sw.offset)
      requires Value() == TrainUpTo(c0, sw.phrase, order, sw.offset + 1)
      requires associated == a0 + Associations(sw.phrase, order, sw.offset + 1)
      modifies this`graph, this`keys, this`associated, sw
      ensures sw.Valid() && sw.offset == old(sw.offset) + 1 && sw.offset + order <= |sw.phrase|
      ensures n2 == Window(sw.phrase, order, sw.offset)
      ensures Value() == TrainUpTo(c0, sw.phrase, order, sw.offset + 1)
      ensures associated == a0 + Associations(sw.phrase, order, sw.offset + 1)
    {
      ghost var n := sw.offset + 1;
      var next := sw.Slide();
      n2 := next.value;
      NodeAt(n2);
      associated := associated + [Association(n2, sw.phrase, sw.offset)];
      ghost var c1 := Value();
      var t := AddEdgeIn(graph[n1], n2);
      graph := graph[n1 := t];
      TrainUpToNext(c0, sw.phrase, order, n, c1, Value());
    }

    /**
     * MarkovChain._scanSingleMatch: find the first window that labels a
     * node, then follow queryEdge from window to window, feeding each edge
     * to the mixin; record the sub-phrase walked and its average.
     */
    method ScanSingle(phrase: seq<string>, phraseOffset: int, details: Result) returns (r: Outcome<Double>)
      requires Valid()
      modifies details, mixin
      ensures Valid()
      ensures var s := ScanSingleSpec(graph, phrase, phraseOffset, order, old(details.Value()), mixin.kind, old(mixin.State()));
        (r.Throw? <==> s.Throw?) && (r.Throw? ==> r.error == s.error) &&
        (r.Return? ==> r.value == s.value.avg && details.Value() == s.value.details && mixin.State() == s.value.mixin)
    {
      r := ScanSingleIn(graph, order, phrase, phraseOffset, details, mixin);
    }

    /**
     * MarkovChain.match: -1 for a phrase of at most `order` tokens; otherwise
     * one sub-match into fresh details, whose average counts only when its
     * single entry covers the whole phrase from offset 0.
     */
    method Match(phrase: seq<string>) returns (r: Outcome<Double>)
      requires Valid()
      modifies mixin
      ensures Valid()
      ensures var s := MatchSpec(graph, phrase, order, mixin.kind, old(mixin.State()));
        (r.Throw? <==> s.Throw?) && (r.Throw? ==> r.error == s.error) &&
        (r.Return? ==> r.value == s.value.score && mixin.State() == s.value.mixin)
    {
      if |phrase| < order + 1 {
        return Return(Finite(-1.0));
      }
      var details := new Result();
      var avg := ScanSingle(phrase, 0, details);
      if avg.Throw? {
        return Throw(avg.error);
      }
      var es := details.entries;
      if |es| != 1 || es[0].offset != 0 || |es[0].tokens| != |phrase| {
        return Return(Finite(0.0));
      }
      return avg;
    }

    /**
     * MarkovChain.scan(phrase, details): -1 for a short phrase; otherwise
     * sub-matches from the start of the phrase, each starting right after
     * the previous entry, for as long as the average is positive; the
     * largest average is the result. Null details are replaced by fresh ones.
     */
    method Scan(phrase: seq<string>, details: Result?) returns (r: Outcome<Double>)
      requires Valid()
      modifies details, mixin
      ensures Valid()
      ensures var s := ScanSpec(graph, phrase, order, if details == null then NoDetails else old(details.Value()),
                                mixin.kind, old(mixin.State()));
        (r.Throw? <==> s.Throw?) && (r.Throw? ==> r.error == s.error) &&
        (r.Return? ==>
          r.value == s.value.max && mixin.State() == s.value.mixin &&
          (details != null ==> details.Value() == s.value.details))
    {
      if |phrase| < order + 1 {
        return Return(Finite(-1.0));
      }
      var res := details;
      if res == null {
        res := new Result();
      }
      r := ScanLoop(graph, order, phrase, res, mixin);
    }

    /**
     * MarkovChain.scan(phrase, matches, placeholders): scan into fresh
     * details, then copy every entry into the caller's maps.
     */
    method ScanInto(phrase: seq<string>, matches: MapRef?<seq<string>, Double>,
                    placeholders: MapRef?<string, seq<string>>) returns (r: Outcome<Double>)
      requires Valid()
      modifies mixin, matches, placeholders
      ensures Valid()
      ensures var s := ScanSpec(graph, phrase, order, NoDetails, mixin.kind, old(mixin.State()));
        (s.Throw? ==> r == Throw(s.error)) &&
        (s.Return? ==>
          mixin.State() == s.value.mixin &&
          (r.Throw? <==> s.value.details.entries != [] && matches == null) &&
          (r.Throw? ==> r.error == NullPointer) &&
          (r.Return? ==> r.value == s.value.max) &&
          (matches != null ==> matches.contents == PutMatches(old(matches.contents), s.value.details.entries)) &&
          (placeholders != null && matches != null ==>
            placeholders.contents == PutPlaceholders(old(placeholders.contents), s.value.details.entries)))
    {
      var details := new Result();
      var ret := Scan(phrase, details);
      if ret.Throw? {
        return ret;
      }
      var x := details.ExtractMatches(matches, placeholders);
      if x.Throw? {
        return Throw(x.error);
      }
      return ret;
    }

    /**
     * MarkovChain.traverse: the listener calls as a trace. Nodes are visited
     * in key order and edges in table order; a null label throws a
     * NullPointerException where the source dereferences it.
     */
    method Traverse() returns (tr: Trace)
      requires KeysIn(Value())
      ensures tr == TraverseSpec(Value(), order)
    {
      var events := [StartModel(order)];
      ghost var items: seq<Item> := [];
      var i := 0;
      while i < |keys|
        invariant 0 <= i <= |keys|
        invariant items == TraverseItems(graph, keys[..i])
        invariant events == [StartModel(order)] + ItemEvents(items).events && ItemEvents(items).failure.None?
      {
        var k := keys[i];
        TraverseItemsNext(graph, keys, i);
        TraverseItemsPrefix(graph, keys, i + 1);
        var failed;
        events, failed := TraverseEdges(order, k, graph[k], items, events);
        items := items + EdgeItems(k, graph[k]);
        if failed {
          ItemEventsFailed(items, TraverseItems(graph, keys));
          return Trace(events, Some(NullPointer));
        }
        i := i + 1;
      }
      assert keys[..i] == keys;
      return Trace(events + [EndModel], None);
    }
  }

  /**
   * The inner loop of traverse: startGraph, addEdge and endGraph for every
   * edge of node `k`, up to the first null label.
   */
  method TraverseEdges(order: int, k: Label, t: Table, ghost items: seq<Item>, events: seq<Event>)
    returns (out: seq<Event>, failed: bool)
    requires events == [StartModel(order)] + ItemEvents(items).events && ItemEvents(items).failure.None?
    ensures out == [StartModel(order)] + ItemEvents(items + EdgeItems(k, t)).events
    ensures failed <==> ItemEvents(items + EdgeItems(k, t)).failure.Some?
    ensures failed ==> ItemEvents(items + EdgeItems(k, t)).failure == Some(NullPointer)
  {
    out, failed := events, false;
    var j := 0;
    ghost var pre := items;
    assert items + EdgeItems(k, t)[..0] == items;
    while j < |t|
      invariant 0 <= j <= |t| && pre == items + EdgeItems(k, t)[..j]
      invariant out == [StartModel(order)] + ItemEvents(pre).events && ItemEvents(pre).failure.None?
    {
      EdgeItemsNext(items, k, t, j);
      out, failed := VisitEdge(order, k, t[j], pre, out);
      if failed {
        EdgeItemsFailed(items, k, t, j);
        return;
      }
      pre := pre + [Triple(k, t[j].probability, t[j].target)];
      j := j + 1;
    }
    assert EdgeItems(k, t)[..j] == EdgeItems(k, t);
  }

  /** One edge in traverse's inner loop: startGraph, addEdge and endGraph, stopped by a null label. */
  method VisitEdge(order: int, k: Label, e: Edge, ghost pre: seq<Item>, events: seq<Event>)
    returns (out: seq<Event>, failed: bool)
    requires events == [StartModel(order)] + ItemEvents(pre).events && ItemEvents(pre).failure.None?
    ensures out == [StartModel(order)] + ItemEvents(pre + [Triple(k, e.probability, e.target)]).events
    ensures failed <==> ItemEvents(pre + [Triple(k, e.probability, e.target)]).failure.Some?
  {
    ItemEventsNext(pre, k, e.probability, e.target);
    if k == [] {
      return events, true;
    }
    out := events + [StartGraph(k)];
    if e.target == [] {
      return out, true;
    }
    out := out + [EdgeTo(e.probability, e.target), EndGraph];
    failed := false;
  }

  /** _scanSingleMatch on the node map `g` of a chain of order `order` whose mixin is `mixin`. */
  method ScanSingleIn(g: Graph, order: nat, phrase: seq<string>, phraseOffset: int, details: Result, mixin: Mixin)
    returns (r: Outcome<Double>)
    requires order >= 1 && mixin.Valid()
    modifies details, mixin
    ensures mixin.Valid()
    ensures var s := ScanSingleSpec(g, phrase, phraseOffset, order, old(details.Value()), mixin.kind, old(mixin.State()));
      (r.Throw? <==> s.Throw?) && (r.Throw? ==> r.error == s.error) &&
      (r.Return? ==> r.value == s.value.avg && details.Value() == s.value.details && mixin.State() == s.value.mixin)
  {
    if |phrase| < order + 1 {
      return Return(Finite(-1.0));
    }
    ghost var m0 := mixin.State();
    mixin.InitQuery(phrase);
    InitRecorded(mixin.kind, m0, |phrase|);
    var sw := new SlidingWindow(phrase, order);
    var found, node := FindFirst(g, order, sw);
    if found.None? {
      return Return(Finite(0.0));
    }
    r := SubMatch(g, order, phrase, sw, phraseOffset, found.value, node, details, mixin, m0);
  }

  /** The first loop of _scanSingleMatch: slide until a window labels a node. */
  method FindFirst(g: Graph, order: nat, sw: SlidingWindow) returns (found: Option<nat>, node: Label)
    requires sw.Valid() && sw.offset == -1 && sw.size == order && 1 <= order < |sw.phrase|
    modifies sw
    ensures sw.Valid() && found == FirstWindow(g, sw.phrase, order, 0)
    ensures found.Some? ==> sw.offset == found.value && node == Window(sw.phrase, order, found.value)
  {
    var offset := 0;
    while sw.CanSlide()
      invariant sw.Valid() && sw.size == order
      invariant sw.offset == offset - 1 && offset + order <= |sw.phrase| + 1
      invariant FirstWindow(g, sw.phrase, order, 0) == FirstWindow(g, sw.phrase, order, offset)
      decreases |sw.phrase| - offset
    {
      var l := sw.Slide();
      if l.value in g {
        return Some(offset), l.value;
      }
      offset := offset + 1;
    }
    return None, [];
  }

  /**
   * The do-while loop of scan on the node map `g`: sub-matches from
   * `offset` 0 on, each starting right after the previous entry, while the
   * average is positive; the largest average is kept.
   */
  method ScanLoop(g: Graph, order: nat, phrase: seq<string>, details: Result, mixin: Mixin) returns (r: Outcome<Double>)
    requires order >= 1 && mixin.Valid()
    modifies details, mixin
    ensures mixin.Valid()
    ensures var s := ScanFrom(g, phrase, order, 0, old(details.Value()), Finite(0.0), mixin.kind, old(mixin.State()));
      (r.Throw? <==> s.Throw?) && (r.Throw? ==> r.error == s.error) &&
      (r.Return? ==> r.value == s.value.max && details.Value() == s.value.details && mixin.State() == s.value.mixin)
  {
    ghost var target := ScanFrom(g, phrase, order, 0, details.Value(), Finite(0.0), mixin.kind, mixin.State());
    var max := Finite(0.0);
    var offset := 0;
    var subPhrase := phrase;
    while true
      invariant mixin.Valid()
      invariant offset <= |phrase| && subPhrase == phrase[offset..]
      invariant max.Finite? && max.value >= 0.0
      invariant ScanFrom(g, phrase, order, offset, details.Value(), max, mixin.kind, mixin.State()) == target
      decreases |phrase| - offset
    {
      var turn := ScanTurn(g, order, phrase, offset, subPhrase, details, mixin, max);
      if turn.Throw? {
        return Throw(turn.error);
      }
      var next;
      next, max := turn.value.0, turn.value.1;
      if next.None? {
        return Return(max);
      }
      offset := next.value;
      subPhrase := phrase[offset..];
    }
  }

  /**
   * One turn of scan's loop: a sub-match on the rest of the phrase, the
   * larger of its average and `max`, and where the next attempt starts when
   * the average was positive.
   */
  method ScanTurn(g: Graph, order: nat, phrase: seq<string>, offset: nat, subPhrase: seq<string>, details: Result,
                  mixin: Mixin, max: Double)
    returns (r: Outcome<(Option<nat>, Double)>)
    requires order >= 1 && mixin.Valid()
    requires offset <= |phrase| && subPhrase == phrase[offset..]
    requires max.Finite? && max.value >= 0.0
    modifies details, mixin
    ensures mixin.Valid()
    ensures r.Return? ==> r.value.1.Finite? && r.value.1.value >= 0.0
    ensures var w := ScanFrom(g, phrase, order, offset, old(details.Value()), max, mixin.kind, old(mixin.State()));
      (r.Throw? ==> w == Throw(r.error)) &&
      (r.Return? && r.value.0.None? ==> w == Return(Scanned(r.value.1, details.Value(), mixin.State()))) &&
      (r.Return? && r.value.0.Some? ==>
        offset < r.value.0.value <= |phrase| &&
        w == ScanFrom(g, phrase, order, r.value.0.value, details.Value(), r.value.1, mixin.kind, mixin.State()))
  {
    ghost var s := ScanSingleSpec(g, phrase[offset..], offset, order, details.Value(), mixin.kind, mixin.State());
    ScanFromStep(g, phrase, order, offset, details.Value(), max, mixin.kind, mixin.State(), s);
    var avg := ScanSingleIn(g, order, subPhrase, offset, details, mixin);
    if avg.Throw? {
      return Throw(avg.error);
    }
    var next := None;
    if Greater(avg.value, Finite(0.0)) {
      var entry := details.entries[|details.entries| - 1];
      next := Some(entry.offset + |entry.tokens|);
    }
    var max' := max;
    if Greater(avg.value, max) {
      max' := avg.value;
    }
    return Return((next, max'));
  }

  /**
   * The rest of _scanSingleMatch once the window at `offset` labels a node:
   * walk, close the mixin's query, and record the tokens walked with their
   * average.
   */
  method SubMatch(g: Graph, order: nat, phrase: seq<string>, sw: SlidingWindow, phraseOffset: int, offset: nat,
                  node: Label, details: Result, mixin: Mixin, ghost m0: MixinState)
    returns (r: Outcome<Double>)
    requires sw.Valid() && sw.phrase == phrase && sw.offset == offset && sw.size == order && order >= 1 && offset + order <= |sw.phrase|
    requires node == Window(sw.phrase, order, offset)
    requires mixin.Valid() && |m0.sums| == |m0.counts|
    requires mixin.State() == Recorded(mixin.kind, m0, |sw.phrase|, 0, 0.0)
    modifies sw, details, mixin
    ensures mixin.Valid()
    ensures var s := SubMatchSpec(g, phrase, phraseOffset, order, offset, old(details.Value()), mixin.kind, m0);
      (r.Throw? <==> s.Throw?) && (r.Throw? ==> r.error == s.error) &&
      (r.Return? ==> r.value == s.value.avg && details.Value() == s.value.details && mixin.State() == s.value.mixin)
  {
    var walked := WalkFrom(g, order, sw, offset, node, details, mixin, m0);
    if walked.Throw? {
      return Throw(walked.error);
    }
    var nEdges, sum := walked.value.0, walked.value.1;
    mixin.FinishQuery(nEdges > 0);
    var avg := Average(sum, nEdges);
    details.Append(phrase[offset..offset + nEdges + order], phraseOffset + offset, avg);
    return Return(avg);
  }

  /**
   * The slide and the query of one walk turn, before the mixin sees the
   * edge: the outcome is the next step of Walk.
   */
  method StepWalk(g: Graph, order: nat, sw: SlidingWindow, cur: Label, offset: nat, nEdges: nat, sum: real,
                  details: Result)
    returns (r: Outcome<Option<Edge>>)
    requires sw.Valid() && sw.size == order && order >= 1 && sw.offset == offset + nEdges
    requires offset + nEdges + 1 + order <= |sw.phrase|
    modifies sw, details
    ensures sw.Valid() && sw.offset == offset + nEdges + 1
    ensures var w := Walk(g, sw.phrase, order, cur, offset, nEdges, sum, old(details.Value()));
      (r.Throw? ==> w == Throw(r.error)) &&
      (r.Return? && r.value.None? ==> w == Return(Walked(nEdges, sum, details.Value()))) &&
      (r.Return? && r.value.Some? ==>
        w == Walk(g, sw.phrase, order, r.value.value.target, offset, nEdges + 1, sum + r.value.value.probability,
                  details.Value()))
  {
    var l := sw.Slide();
    ghost var q := QueryEdgeSpec(cur, TableOf(g, cur), l.value, details.Value(), offset + nEdges);
    WalkStep(g, sw.phrase, order, cur, offset, nEdges, sum, details.Value(), q);
    r := QueryEdgeIn(cur, TableOf(g, cur), l.value, details, offset + nEdges);
  }

  /**
   * One turn of the walk loop: slide the window on and query the edge from
   * `cur` for the new window; the outcome is the next step of Walk. An edge
   * found is handed to the mixin.
   */
  method WalkTurn(g: Graph, order: nat, sw: SlidingWindow, cur: Label, offset: nat, nEdges: nat, sum: real,
                  details: Result, mixin: Mixin, ghost m0: MixinState)
    returns (r: Outcome<Option<Edge>>)
    requires sw.Valid() && sw.size == order && order >= 1 && sw.offset == offset + nEdges
    requires offset + nEdges + 1 + order <= |sw.phrase|
    requires mixin.Valid() && |m0.sums| == |m0.counts|
    requires mixin.State() == Recorded(mixin.kind, m0, |sw.phrase|, nEdges, sum)
    modifies sw, details, mixin
    ensures sw.Valid() && sw.offset == offset + nEdges + 1
    ensures var w := Walk(g, sw.phrase, order, cur, offset, nEdges, sum, old(details.Value()));
      (r.Throw? ==> w == Throw(r.error)) &&
      (r.Return? && r.value.None? ==> w == Return(Walked(nEdges, sum, details.Value()))) &&
      (r.Return? && r.value.Some? ==>
        w == Walk(g, sw.phrase, order, r.value.value.target, offset, nEdges + 1, sum + r.value.value.probability,
                  details.Value()))
    ensures mixin.Valid()
    ensures mixin.State() ==
      if r.Return? && r.value.Some? then Recorded(mixin.kind, m0, |sw.phrase|, nEdges + 1, sum + r.value.value.probability)
      else old(mixin.State())
  {
    r := StepWalk(g, order, sw, cur, offset, nEdges, sum, details);
    if r.Return? && r.value.Some? {
      Feed(mixin, r.value.value.probability, m0, |sw.phrase|, nEdges, sum);
    }
  }

  /** Hands the probability of an edge taken to the mixin, whose open record then counts one more edge. */
  method Feed(mixin: Mixin, p: real, ghost m0: MixinState, ghost phraseLen: int, ghost n: nat, ghost sum: real)
    requires mixin.Valid() && |m0.sums| == |m0.counts|
    requires mixin.State() == Recorded(mixin.kind, m0, phraseLen, n, sum)
    modifies mixin
    ensures mixin.Valid() && mixin.State() == Recorded(mixin.kind, m0, phraseLen, n + 1, sum + p)
  {
    UpdateRecorded(mixin.kind, m0, phraseLen, n, sum, p);
    var _ := mixin.UpdateQuery(p);
  }

  /**
   * The second loop of _scanSingleMatch: from the node of window `offset`,
   * query the edge for each further window and follow it, feeding each
   * edge's probability to the mixin, until the windows run out or no edge
   * is found. Answers the number of edges taken and the sum of their
   * probabilities.
   */
  method WalkFrom(g: Graph, order: nat, sw: SlidingWindow, offset: nat, node: Label, details: Result,
                  mixin: Mixin, ghost m0: MixinState)
    returns (r: Outcome<(nat, real)>)
    requires sw.Valid() && sw.offset == offset && sw.size == order && order >= 1 && offset + order <= |sw.phrase|
    requires node == Window(sw.phrase, order, offset)
    requires mixin.Valid() && |m0.sums| == |m0.counts|
    requires mixin.State() == Recorded(mixin.kind, m0, |sw.phrase|, 0, 0.0)
    modifies sw, details, mixin
    ensures mixin.Valid()
    ensures var w := Walk(g, sw.phrase, order, node, offset, 0, 0.0, old(details.Value()));
      (r.Throw? <==> w.Throw?) && (r.Throw? ==> r.error == w.error) &&
      (r.Return? ==> (r.value.0 == w.value.nEdges && r.value.1 == w.value.sum && details.Value() == w.value.details &&
        mixin.State() == Recorded(mixin.kind, m0, |sw.phrase|, r.value.0, r.value.1)))
  {
    ghost var phrase := sw.phrase;
    ghost var target := Walk(g, phrase, order, node, offset, 0, 0.0, details.Value());
    var cur := node;
    var nEdges := 0;
    var sum := 0.0;
    while sw.CanSlide()
      invariant sw.Valid() && sw.phrase == phrase && sw.size == order
      invariant sw.offset == offset + nEdges && offset + nEdges + order <= |phrase|
      invariant Walk(g, phrase, order, cur, offset, nEdges, sum, details.Value()) == target
      invariant mixin.Valid() && mixin.State() == Recorded(mixin.kind, m0, |phrase|, nEdges, sum)
      decreases |phrase| - sw.offset
    {
      var found := WalkTurn(g, order, sw, cur, offset, nEdges, sum, details, mixin, m0);
      if found.Throw? {
        return Throw(found.error);
      }
      var edge := found.value;
      if edge.None? {
        break;
      }
      nEdges := nEdges + 1;
      sum := sum + edge.value.probability;
      cur := edge.value.target;
    }
    return Return((nEdges, sum));
  }
}
