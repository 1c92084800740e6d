/**
 * A chain's node: its edge table, the two `addEdge` overloads and nlcmd's
 * `queryEdge`, which falls back to placeholder matching when the window has
 * no exact edge.
 */
module Nodes {
  import opened Base
  import opened Edges
  import opened Matches

  /** What queryEdge hands back: the edge taken (if any) and the match details after the call. */
  datatype Found = Found(edge: Option<Edge>, details: Details)

  /**
   * Placeholder step 1 over the edges from index `i` on: the first target of
   * the form <prefix> <placeholder> <last> whose last token equals the
   * window's token at the same position. A null (empty) target label throws;
   * a target longer than the window reads past the window's end.
   */
  function Step1(t: Table, w: Label, i: nat): (r: Outcome<Option<nat>>)
    requires i <= |t|
    ensures r.Return? && r.value.Some? ==>
      var k := r.value.value;
      i <= k < |t| && 1 < |t[k].target| <= |w| &&
      IsPlaceholder(t[k].target[|t[k].target| - 2]) && t[k].target[|t[k].target| - 1] == w[|t[k].target| - 1]
    decreases |t| - i
  {
    if i == |t| then Return(None)
    else
      var f1 := t[i].target;
      if f1 == [] then Throw(NullPointer)
      else
        var last := |f1| - 1;
        if last > 0 && !IsPlaceholder(f1[last - 1]) then Step1(t, w, i + 1)
        else if last > 0 then
          var x :- At(w, last);
          if f1[last] == x then Return(Some(i)) else Step1(t, w, i + 1)
        else Step1(t, w, i + 1)
  }

  /** Whether tokens `i` up to `n` (exclusive) of `f1` and `w` agree; reading `w` may run past its end. */
  function PrefixAgrees(f1: Label, w: Label, i: nat, n: int): Outcome<bool>
    requires n <= |f1|
    decreases n - i
  {
    if n <= i then Return(true)
    else
      var x :- At(w, i);
      if f1[i] != x then Return(false) else PrefixAgrees(f1, w, i + 1, n)
  }

  /**
   * Placeholder step 2 over the edges from index `i` on: the first target
   * that agrees with the window on all but its last two tokens and ends in a
   * placeholder.
   */
  function Step2(t: Table, w: Label, i: nat): (r: Outcome<Option<nat>>)
    requires i <= |t|
    ensures r.Return? && r.value.Some? ==>
      var k := r.value.value;
      i <= k < |t| && t[k].target != [] && IsPlaceholder(t[k].target[|t[k].target| - 1])
    decreases |t| - i
  {
    if i == |t| then Return(None)
    else
      var f1 := t[i].target;
      if f1 == [] then Throw(NullPointer)
      else
        var agrees :- PrefixAgrees(f1, w, 0, |f1| - 2);
        if agrees && IsPlaceholder(f1[|f1| - 1]) then Return(Some(i)) else Step2(t, w, i + 1)
  }

  /**
   * Node.queryEdge for the node labelled `self` with table `t`, queried with
   * window `w`: the exact edge if there is one; otherwise step 1, then step 2
   * (which overrides step 1 and starts a capture holding the window's token),
   * then, when neither found an edge, step 3 (a reflexive edge of probability
   * 1 that feeds the window's token to the pending capture). When nothing
   * matches the pending capture is dropped.
   */
  function QueryEdgeSpec(self: Label, t: Table, w: Label, d: Details, offset: int): (r: Outcome<Found>)
    // an exact edge is taken as it is, and the details are left alone
    ensures Lookup(t, w).Some? ==> r == Return(Found(Lookup(t, w), d))
    // the entries are never touched, only the pending capture
    ensures r.Return? ==> r.value.details.entries == d.entries
    // the edge taken is one of the table's, or the reflexive edge of a node ending in a placeholder
    ensures r.Return? && r.value.edge.Some? ==>
      r.value.edge.value in t ||
      (r.value.edge.value == Edge(self, 1.0) && self != [] && IsPlaceholder(self[|self| - 1]))
    // no edge at all drops the capture
    ensures r.Return? && r.value.edge.None? ==> r.value.details == DropCapture(d) && Lookup(t, w).None?
    // without an exact edge both placeholder steps run, and their exceptions propagate
    ensures Lookup(t, w).None? && Step1(t, w, 0).Throw? ==> r == Throw(Step1(t, w, 0).error)
    ensures Lookup(t, w).None? && Step1(t, w, 0).Return? && Step2(t, w, 0).Throw? ==> r == Throw(Step2(t, w, 0).error)
    // step 2 overrides step 1: its edge is taken, and a capture for the target's placeholder starts with the word
    // the window holds at that position (an out-of-range read when the window is shorter)
    ensures Lookup(t, w).None? && Step1(t, w, 0).Return? && Step2(t, w, 0).Return? && Step2(t, w, 0).value.Some? ==>
      var e := t[Step2(t, w, 0).value.value];
      var n := |e.target|;
      (n > |w| ==> r == Throw(IndexOutOfBounds)) &&
      (n <= |w| ==> r == Return(Found(Some(e), d.(pending := Some(Placeholder(e.target[n - 1], offset, [w[n - 1]]))))))
    // step 1 alone: the sibling edge that ends the capture, with the details untouched
    ensures Lookup(t, w).None? && Step1(t, w, 0).Return? && Step1(t, w, 0).value.Some? && Step2(t, w, 0) == Return(None) ==>
      r == Return(Found(Some(t[Step1(t, w, 0).value.value]), d))
    // step 3: a node whose label ends in a placeholder takes its reflexive edge of probability 1 and feeds the
    // window's word to the pending capture; any other node has no edge for the window
    ensures Lookup(t, w).None? && Step1(t, w, 0) == Return(None) && Step2(t, w, 0) == Return(None) ==>
      if self == [] then r == Throw(NullPointer)
      else if !IsPlaceholder(self[|self| - 1]) then r == Return(Found(None, DropCapture(d)))
      else if |self| > |w| then r == Throw(IndexOutOfBounds)
      else if d.pending.None? then r == Throw(NullPointer)
      else r == Return(Found(Some(Edge(self, 1.0)),
                             d.(pending := Some(d.pending.value.(words := d.pending.value.words + [w[|self| - 1]])))))
  {
    match Lookup(t, w)
    case Some(e) => Return(Found(Some(e), d))
    case None =>
      var s1 :- Step1(t, w, 0);
      var s2 :- Step2(t, w, 0);
      if s2.Some? then
        var f1 := t[s2.value].target;
        var x :- At(w, |f1| - 1);
        var started := StartCapture(d, f1[|f1| - 1], offset);
        FirstWordCaptured(d, f1[|f1| - 1], offset, x);
        Return(Found(Some(t[s2.value]), CaptureWord(started, x).value))
      else if s1.Some? then Return(Found(Some(t[s1.value]), d))
      else if self == [] then Throw(NullPointer)
      else if IsPlaceholder(self[|self| - 1]) then
        var x :- At(w, |self| - 1);
        var d' :- CaptureWord(d, x);
        Return(Found(Some(Edge(self, 1.0)), d'))
      else Return(Found(None, DropCapture(d)))
  }

  /** The insertion of Node.addEdge(Edge) on a table: the edge verbatim, replacing one to the same target. */
  method PutEdgeIn(t: Table, edge: Edge) returns (r: Table)
    ensures r == Put(t, edge)
  {
    var i := IndexOf(t, edge.target);
    if i.Some? {
      r := t[i.value := edge];
    } else {
      r := t + [edge];
    }
  }

  /**
   * The update rule of Node.addEdge(Node) on a table of n edges: the edge to
   * `target` is strengthened (or created with 1/(n+1)), then every other
   * edge is weakened.
   */
  method AddEdgeIn(t: Table, target: Label) returns (r: Table)
    ensures r == AddEdgeSpec(t, target)
  {
    var existing := IndexOf(t, target);
    var nEdgesOld := |t|;
    var nEdgesNew := |t| + 1;
    var updated: int;
    r := t;
    if existing.Some? {
      updated := existing.value;
      var e := r[updated];
      r := r[updated := Edge(e.target, Strengthen(e.probability, nEdgesOld, nEdgesNew))];
    } else {
      updated := |r|;
      r := r + [Edge(target, 1.0 / nEdgesNew as real)];
    }
    ghost var inserted := r;
    var k := 0;
    while k < |r|
      invariant |r| == |inserted| && 0 <= k <= |r|
      invariant forall j :: 0 <= j < k && j != updated ==>
        r[j] == Edge(t[j].target, Weaken(t[j].probability, nEdgesOld, nEdgesNew))
      invariant forall j :: k <= j < |r| || j == updated ==> 0 <= j < |r| ==> r[j] == inserted[j]
    {
      if k != updated {
        var e := r[k];
        r := r[k := Edge(e.target, Weaken(e.probability, nEdgesOld, nEdgesNew))];
      }
      k := k + 1;
    }
    assert r == AddEdgeSpec(t, target);
  }

  /** Placeholder step 1: the index of the first target that ends a capture at window `w`. */
  method FindTerminating(t: Table, w: Label) returns (r: Outcome<Option<nat>>)
    ensures r == Step1(t, w, 0)
  {
    var i := 0;
    while i < |t|
      invariant 0 <= i <= |t|
      invariant Step1(t, w, 0) == Step1(t, w, i)
    {
      var f1 := t[i].target;
      if f1 == [] {
        return Throw(NullPointer);
      }
      var last := |f1| - 1;
      if last > 0 && IsPlaceholder(f1[last - 1]) {
        if last >= |w| {
          return Throw(IndexOutOfBounds);
        }
        if f1[last] == w[last] {
          return Return(Some(i));
        }
      }
      i := i + 1;
    }
    return Return(None);
  }

  /** Placeholder step 2: the index of the first target that starts a capture at window `w`. */
  method FindStarting(t: Table, w: Label) returns (r: Outcome<Option<nat>>)
    ensures r == Step2(t, w, 0)
  {
    var i := 0;
    while i < |t|
      invariant 0 <= i <= |t|
      invariant Step2(t, w, 0) == Step2(t, w, i)
    {
      var f1 := t[i].target;
      if f1 == [] {
        return Throw(NullPointer);
      }
      var agrees :- PrefixMatches(f1, w, |f1| - 2);
      if agrees && IsPlaceholder(f1[|f1| - 1]) {
        return Return(Some(i));
      }
      i := i + 1;
    }
    return Return(None);
  }

  /**
   * Node.queryEdge for the node labelled `self` with table `t`: the edge to
   * follow for window `w`, updating the placeholder capture of `details` as
   * the fallback steps do.
   */
  method QueryEdgeIn(self: Label, t: Table, w: Label, details: Result, offset: int) returns (r: Outcome<Option<Edge>>)
    modifies details
    ensures var s := QueryEdgeSpec(self, t, w, old(details.Value()), offset);
      (r.Throw? <==> s.Throw?) &&
      (r.Throw? ==> r.error == s.error) &&
      (r.Return? ==> r.value == s.value.edge && details.Value() == s.value.details)
  {
    var exact := Lookup(t, w);
    if exact.Some? {
      return Return(exact);
    }
    var hit1 :- FindTerminating(t, w);
    var hit2 :- FindStarting(t, w);
    // step 2 is not guarded by the outcome of step 1 and takes precedence
    if hit2.Some? {
      var f1 := t[hit2.value].target;
      var last := |f1| - 1;
      details.CreatePlaceholder(f1[last], offset);
      if last >= |w| {
        return Throw(IndexOutOfBounds);
      }
      // the capture just started, so appending cannot fail
      var _ := details.AppendPlaceholder(w[last]);
      return Return(Some(t[hit2.value]));
    }
    if hit1.Some? {
      return Return(Some(t[hit1.value]));
    }
    // 3) no sibling found: this node may keep consuming input into its own placeholder
    if self == [] {
      return Throw(NullPointer);
    }
    var last := |self| - 1;
    if IsPlaceholder(self[last]) {
      if last >= |w| {
        return Throw(IndexOutOfBounds);
      }
      var appended := details.AppendPlaceholder(w[last]);
      if appended.Throw? {
        return Throw(appended.error);
      }
      return Return(Some(Edge(self, 1.0)));
    }
    details.ResetPlaceholder();
    return Return(None);
  }

  /**
   * A graph vertex: its label and its edge table, which both `addEdge`
   * overloads update in place; the Edge objects of the source are the
   * table's entries.
   */
  class Node {
    const name: Label
    var edges: Table

    constructor (name: Label)
      ensures this.name == name && edges == []
    {
      this.name := name;
      edges := [];
    }

    /** Node.addEdge(Edge). */
    method PutEdge(edge: Edge)
      modifies this
      ensures edges == Put(old(edges), edge)
    {
      edges := PutEdgeIn(edges, edge);
    }

    /** Node.addEdge(Node). */
    method AddEdge(node: Node)
      modifies this
      ensures edges == AddEdgeSpec(old(edges), node.name)
    {
      edges := AddEdgeIn(edges, node.name);
    }

    /** Node.queryEdge. */
    method QueryEdge(w: Label, details: Result, offset: int) returns (r: Outcome<Option<Edge>>)
      modifies details
      ensures var s := QueryEdgeSpec(name, edges, w, old(details.Value()), offset);
        (r.Throw? <==> s.Throw?) &&
        (r.Throw? ==> r.error == s.error) &&
        (r.Return? ==> r.value == s.value.edge && details.Value() == s.value.details)
    {
      r := QueryEdgeIn(name, edges, w, details, offset);
    }
  }

  /** A label without placeholder tokens. */
  predicate Plain(l: Label)
  {
    forall i :: 0 <= i < |l| ==> !IsPlaceholder(l[i])
  }

  /** Every target of the table is a plain, non-null label as long as the window. */
  predicate PlainTable(t: Table, width: nat)
  {
    forall i :: 0 <= i < |t| ==> t[i].target != [] && |t[i].target| == width && Plain(t[i].target)
  }

  lemma {:induction false} Step1Plain(t: Table, w: Label, i: nat)
    requires i <= |t| && PlainTable(t, |w|)
    ensures Step1(t, w, i) == Return(None)
    decreases |t| - i
  {
    if i < |t| {
      Step1Plain(t, w, i + 1);
      var f1 := t[i].target;
      if |f1| > 1 {
        assert !IsPlaceholder(f1[|f1| - 2]);
      }
    }
  }

  lemma {:induction false} PrefixInRange(f1: Label, w: Label, i: nat, n: int)
    requires n <= |f1| && n <= |w|
    ensures PrefixAgrees(f1, w, i, n).Return?
    decreases n - i
  {
    if i < n {
      PrefixInRange(f1, w, i + 1, n);
    }
  }

  lemma {:induction false} Step2Plain(t: Table, w: Label, i: nat)
    requires i <= |t| && PlainTable(t, |w|)
    ensures Step2(t, w, i) == Return(None)
    decreases |t| - i
  {
    if i < |t| {
      Step2Plain(t, w, i + 1);
      var f1 := t[i].target;
      PrefixInRange(f1, w, 0, |f1| - 2);
      assert !IsPlaceholder(f1[|f1| - 1]);
    }
  }

  /**
   * Without placeholder tokens (in the node's own label and in its targets,
   * all as wide as the window), queryEdge is a plain lookup: the exact edge
   * or none, and a miss only drops the capture.
   */
  lemma QueryExactOnly(self: Label, t: Table, w: Label, d: Details, offset: int)
    requires self != [] && Plain(self) && PlainTable(t, |w|)
    ensures QueryEdgeSpec(self, t, w, d, offset) ==
      Return(Found(Lookup(t, w), if Lookup(t, w).None? then DropCapture(d) else d))
  {
    Step1Plain(t, w, 0);
    Step2Plain(t, w, 0);
    assert !IsPlaceholder(self[|self| - 1]);
  }

  /** The prefix comparison of placeholder step 2: tokens 0 up to `n` of `f1` and `w`. */
  method PrefixMatches(f1: Label, w: Label, n: int) returns (r: Outcome<bool>)
    requires n <= |f1|
    ensures r == PrefixAgrees(f1, w, 0, n)
  {
    var i := 0;
    while i < n
      invariant 0 <= i && (i <= n || i == 0)
      invariant PrefixAgrees(f1, w, 0, n) == PrefixAgrees(f1, w, i, n)
    {
      if i >= |w| {
        return Throw(IndexOutOfBounds);
      }
      if f1[i] != w[i] {
        return Return(false);
      }
      i := i + 1;
    }
    return Return(true);
  }
}
