/**
 * Edges, edge tables and the update rule that keeps a node's outgoing
 * probabilities normalised. Shared by both engines: the rule is the same in
 * nlcmd/.../MarkovChain.java and markov/.../MarkovChain.java.
 *
 * A node's edge table (a Java HashMap from target label to Edge) is a
 * sequence of edges in iteration order with pairwise distinct targets. The
 * model iterates a table in insertion order: a new target is appended, an
 * overwritten target keeps its place.
 */
module Edges {
  import opened Base

  /** An edge to the node labelled `target`, carrying its probability. */
  datatype Edge = Edge(target: Label, probability: real)

  type Table = seq<Edge>

  function Targets(t: Table): set<Label>
  {
    set i | 0 <= i < |t| :: t[i].target
  }

  predicate DistinctTargets(t: Table)
  {
    forall i, j :: 0 <= i < j < |t| ==> t[i].target != t[j].target
  }

  /** Every probability of the table lies in [0, 1]. */
  predicate InRange(t: Table)
  {
    forall i :: 0 <= i < |t| ==> 0.0 <= t[i].probability <= 1.0
  }

  /** Position of the edge to `target`, if the table has one. */
  function IndexOf(t: Table, target: Label): (r: Option<nat>)
    ensures r.Some? ==> r.value < |t| && t[r.value].target == target
    ensures r.None? <==> target !in Targets(t)
    ensures r.Some? ==> forall k :: 0 <= k < r.value ==> t[k].target != target
  {
    if t == [] then None
    else if t[0].target == target then Some(0)
    else match IndexOf(t[1..], target)
      case None => assert Targets(t) == {t[0].target} + Targets(t[1..]); None
      case Some(i) => Some(i + 1)
  }

  /** `HashMap.get`: the edge to `target`, or null. */
  function Lookup(t: Table, target: Label): Option<Edge>
  {
    match IndexOf(t, target)
    case None => None
    case Some(i) => Some(t[i])
  }

  /** `HashMap.put` keyed by the edge's target: replaces in place or appends. */
  function Put(t: Table, e: Edge): Table
  {
    match IndexOf(t, e.target)
    case Some(i) => t[i := e]
    case None => t + [e]
  }

  /** Sum of the outgoing probabilities. */
  function Total(t: Table): real
  {
    if t == [] then 0.0 else t[0].probability + Total(t[1..])
  }

  /** Edge.weaken */
  function Weaken(p: real, nOld: nat, nNew: nat): real
    requires nNew > 0
  {
    p * nOld as real / nNew as real
  }

  /** Edge.strengthen */
  function Strengthen(p: real, nOld: nat, nNew: nat): real
    requires nNew > 0
  {
    (p * nOld as real + 1.0) / nNew as real
  }

  /** Every edge except the one at position `keep` weakened from `n` to `n + 1` edges. */
  function WeakenOthers(t: Table, keep: int): (r: Table)
    ensures |r| == |t|
  {
    seq(|t|, j requires 0 <= j < |t| =>
      if j == keep then t[j] else Edge(t[j].target, Weaken(t[j].probability, |t|, |t| + 1)))
  }

  /**
   * Node.addEdge(Node): strengthen the edge to `target` (or create it with
   * probability 1/(n+1)) and weaken every other edge. Both formulas divide
   * by n + 1, even when the edge already existed.
   */
  function AddEdgeSpec(t: Table, target: Label): (r: Table)
  {
    var n := |t|;
    match IndexOf(t, target)
    case Some(i) =>
      WeakenOthers(t, i)[i := Edge(target, Strengthen(t[i].probability, n, n + 1))]
    case None =>
      WeakenOthers(t, -1) + [Edge(target, 1.0 / (n + 1) as real)]
  }

  lemma TargetsOfUpdate(t: Table, u: Table)
    requires |u| == |t|
    requires forall j :: 0 <= j < |t| ==> u[j].target == t[j].target
    ensures Targets(u) == Targets(t)
    ensures DistinctTargets(t) ==> DistinctTargets(u)
  {
    forall l | l in Targets(t) ensures l in Targets(u) {
      var j :| 0 <= j < |t| && t[j].target == l;
      assert u[j].target == l;
    }
  }

  lemma TargetsOfAppend(t: Table, e: Edge)
    ensures Targets(t + [e]) == Targets(t) + {e.target}
  {
    var u := t + [e];
    assert u[|t|].target == e.target;
    forall l | l in Targets(t) ensures l in Targets(u) {
      var j :| 0 <= j < |t| && t[j].target == l;
      assert u[j].target == l;
    }
  }

  /** addEdge adds `target` to the key set and changes no other key; a new key gets 1/(n+1). */
  lemma AddEdgeKeys(t: Table, target: Label)
    ensures Targets(AddEdgeSpec(t, target)) == Targets(t) + {target}
    ensures target in Targets(t) ==> |AddEdgeSpec(t, target)| == |t|
    ensures target !in Targets(t) ==>
      AddEdgeSpec(t, target) == WeakenOthers(t, -1) + [Edge(target, 1.0 / (|t| + 1) as real)]
    ensures DistinctTargets(t) ==> DistinctTargets(AddEdgeSpec(t, target))
  {
    var r := AddEdgeSpec(t, target);
    var w := WeakenOthers(t, -1);
    match IndexOf(t, target)
    case Some(i) =>
      TargetsOfUpdate(t, r);
    case None =>
      TargetsOfUpdate(t, w);
      TargetsOfAppend(w, Edge(target, 1.0 / (|t| + 1) as real));
  }

  /**
   * The probability addEdge leaves on every edge: the target's edge becomes
   * (p*n + 1)/(n + 1) (1/(n + 1) when new), every other edge p*n/(n + 1).
   */
  lemma AddEdgeProbabilities(t: Table, target: Label, l: Label)
    requires DistinctTargets(t)
    requires l in Targets(t) + {target}
    ensures Lookup(AddEdgeSpec(t, target), l).Some?
    ensures var n := |t|;
      var p := Lookup(AddEdgeSpec(t, target), l).value.probability;
      if l != target then p == Weaken(Lookup(t, l).value.probability, n, n + 1)
      else if target in Targets(t) then p == Strengthen(Lookup(t, l).value.probability, n, n + 1)
      else p == 1.0 / (n + 1) as real
  {
    var r := AddEdgeSpec(t, target);
    AddEdgeKeys(t, target);
    var k := IndexOf(r, l).value;
    if l in Targets(t) {
      var j := IndexOf(t, l).value;
      assert r[j].target == l;
    } else {
      assert r[|t|].target == l;
      assert k == |t|;
    }
  }

  lemma TotalAppend(t: Table, e: Edge)
    ensures Total(t + [e]) == Total(t) + e.probability
    decreases |t|
  {
    if t == [] {
      assert [e][1..] == [];
    } else {
      assert (t + [e])[1..] == t[1..] + [e];
      TotalAppend(t[1..], e);
    }
  }

  /** `scaled` is `original` times c/d, plus `bonus`/d. */
  predicate Rescaled(scaled: real, original: real, c: real, d: real, bonus: real)
  {
    scaled * d == original * c + bonus
  }

  /**
   * Scaling every probability by c/d, and adding 1/d at position `p`, scales
   * the total the same way.
   */
  lemma {:induction false} TotalScaled(s: Table, u: Table, c: real, d: real, p: int)
    requires |u| == |s|
    requires forall j :: 0 <= j < |s| ==>
      Rescaled(u[j].probability, s[j].probability, c, d, if j == p then 1.0 else 0.0)
    ensures Rescaled(Total(u), Total(s), c, d, if 0 <= p < |s| then 1.0 else 0.0)
    decreases |s|
  {
    if s != [] {
      forall j | 0 <= j < |s| - 1
        ensures Rescaled(u[1..][j].probability, s[1..][j].probability, c, d, if j == p - 1 then 1.0 else 0.0)
      {
        assert u[1..][j] == u[j + 1] && s[1..][j] == s[j + 1];
        assert Rescaled(u[j + 1].probability, s[j + 1].probability, c, d, if j + 1 == p then 1.0 else 0.0);
      }
      TotalScaled(s[1..], u[1..], c, d, p - 1);
      Distribute(u[0].probability, Total(u[1..]), d);
      Distribute(s[0].probability, Total(s[1..]), c);
      assert Rescaled(u[0].probability, s[0].probability, c, d, if 0 == p then 1.0 else 0.0);
    }
  }

  lemma DivideThenMultiply(x: real, d: real)
    requires d != 0.0
    ensures (x / d) * d == x
  {
  }

  lemma Distribute(a: real, b: real, d: real)
    ensures (a + b) * d == a * d + b * d
  {
  }

  lemma ProductBounded(p: real, c: real)
    requires 0.0 <= p <= 1.0 && 0.0 <= c
    ensures 0.0 <= p * c <= c
  {
  }

  lemma QuotientBounded(x: real, d: real)
    requires 0.0 <= x <= d && d > 0.0
    ensures 0.0 <= x / d <= 1.0
  {
  }

  lemma AddEdgeTotalExisting(t: Table, target: Label, i: nat)
    requires IndexOf(t, target) == Some(i)
    ensures Rescaled(Total(AddEdgeSpec(t, target)), Total(t), |t| as real, (|t| + 1) as real, 1.0)
  {
    var n := |t|;
    var c, d := n as real, (n + 1) as real;
    var r := AddEdgeSpec(t, target);
    forall j | 0 <= j < n
      ensures Rescaled(r[j].probability, t[j].probability, c, d, if j == i then 1.0 else 0.0)
    {
      if j == i {
        StrengthenRescaled(t[j].probability, n);
      } else {
        WeakenRescaled(t[j].probability, n);
      }
    }
    TotalScaled(t, r, c, d, i);
  }

  lemma AddEdgeTotalNew(t: Table, target: Label)
    requires IndexOf(t, target) == None
    ensures Rescaled(Total(AddEdgeSpec(t, target)), Total(t), |t| as real, (|t| + 1) as real, 1.0)
  {
    var d := (|t| + 1) as real;
    var w := WeakenOthers(t, -1);
    WeakenAllRescaled(t);
    var e := Edge(target, 1.0 / d);
    assert AddEdgeSpec(t, target) == w + [e];
    TotalAppend(w, e);
    AppendRescaled(Total(w), Total(t), |t| as real, d);
  }

  /** Weakening every edge scales the total by n/(n+1). */
  lemma WeakenAllRescaled(t: Table)
    ensures Rescaled(Total(WeakenOthers(t, -1)), Total(t), |t| as real, (|t| + 1) as real, 0.0)
  {
    var n := |t|;
    var w := WeakenOthers(t, -1);
    forall j | 0 <= j < n
      ensures Rescaled(w[j].probability, t[j].probability, n as real, (n + 1) as real, if j == -1 then 1.0 else 0.0)
    {
      WeakenRescaled(t[j].probability, n);
    }
    TotalScaled(t, w, n as real, (n + 1) as real, -1);
  }

  /** Adding an edge of probability 1/d to a rescaled total adds the bonus 1. */
  lemma AppendRescaled(total: real, original: real, c: real, d: real)
    requires d != 0.0 && Rescaled(total, original, c, d, 0.0)
    ensures Rescaled(total + 1.0 / d, original, c, d, 1.0)
  {
    DivideThenMultiply(1.0, d);
    Distribute(total, 1.0 / d, d);
  }

  lemma WeakenRescaled(p: real, n: nat)
    ensures Rescaled(Weaken(p, n, n + 1), p, n as real, (n + 1) as real, 0.0)
  {
    DivideThenMultiply(p * n as real, (n + 1) as real);
  }

  lemma StrengthenRescaled(p: real, n: nat)
    ensures Rescaled(Strengthen(p, n, n + 1), p, n as real, (n + 1) as real, 1.0)
  {
    DivideThenMultiply(p * n as real + 1.0, (n + 1) as real);
  }

  lemma NormalisedRescaled(x: real, total: real, n: nat)
    requires Rescaled(x, total, n as real, (n + 1) as real, 1.0)
    requires total == 1.0 || n == 0
    ensures x == 1.0
  {
  }

  /**
   * The central invariant of training: after addEdge the new total T'
   * satisfies T' * (n + 1) == T * n + 1 for the old total T of n edges.
   */
  lemma AddEdgeTotal(t: Table, target: Label)
    ensures Rescaled(Total(AddEdgeSpec(t, target)), Total(t), |t| as real, (|t| + 1) as real, 1.0)
  {
    var o := IndexOf(t, target);
    if o.Some? {
      AddEdgeTotalExisting(t, target, o.value);
    } else {
      AddEdgeTotalNew(t, target);
    }
  }

  /** A table that sums to 1, or is empty, still sums to 1 after addEdge. */
  lemma AddEdgeNormalised(t: Table, target: Label)
    requires Total(t) == 1.0 || t == []
    ensures Total(AddEdgeSpec(t, target)) == 1.0
  {
    AddEdgeTotal(t, target);
    NormalisedRescaled(Total(AddEdgeSpec(t, target)), Total(t), |t|);
  }

  lemma WeakenInRange(p: real, n: nat)
    requires 0.0 <= p <= 1.0
    ensures 0.0 <= Weaken(p, n, n + 1) <= 1.0
  {
    var c, d := n as real, (n + 1) as real;
    ProductBounded(p, c);
    QuotientBounded(p * c, d);
  }

  lemma StrengthenInRange(p: real, n: nat)
    requires 0.0 <= p <= 1.0
    ensures 0.0 <= Strengthen(p, n, n + 1) <= 1.0
  {
    var c, d := n as real, (n + 1) as real;
    ProductBounded(p, c);
    QuotientBounded(p * c + 1.0, d);
  }

  /** Probabilities in [0, 1] stay in [0, 1] under addEdge. */
  lemma AddEdgeInRange(t: Table, target: Label)
    requires InRange(t)
    ensures InRange(AddEdgeSpec(t, target))
  {
    var n := |t|;
    var r := AddEdgeSpec(t, target);
    forall j | 0 <= j < n { WeakenInRange(t[j].probability, n); }
    match IndexOf(t, target)
    case Some(i) =>
      StrengthenInRange(t[i].probability, n);
    case None =>
      var d := (n + 1) as real;
      QuotientBounded(1.0, d);
      assert r[n].probability == 1.0 / d;
  }

  /** Every probability of the table is positive. */
  predicate Positive(t: Table)
  {
    forall i :: 0 <= i < |t| ==> t[i].probability > 0.0
  }

  lemma PositiveQuotient(x: real, d: real)
    requires x > 0.0 && d > 0.0
    ensures x / d > 0.0
  {
  }

  lemma PositiveProduct(x: real, c: real)
    requires x > 0.0 && c > 0.0
    ensures x * c > 0.0
  {
  }

  lemma UpdatePositive(p: real, n: nat)
    requires p > 0.0 && n > 0
    ensures Weaken(p, n, n + 1) > 0.0 && Strengthen(p, n, n + 1) > 0.0
  {
    var c, d := n as real, (n + 1) as real;
    PositiveProduct(p, c);
    PositiveQuotient(p * c, d);
    PositiveQuotient(p * c + 1.0, d);
  }

  /** addEdge never produces a zero probability from positive ones. */
  lemma AddEdgePositive(t: Table, target: Label)
    requires Positive(t)
    ensures Positive(AddEdgeSpec(t, target))
  {
    var n := |t|;
    var c, d := n as real, (n + 1) as real;
    var r := AddEdgeSpec(t, target);
    forall j | 0 <= j < n
      ensures Weaken(t[j].probability, n, n + 1) > 0.0 && Strengthen(t[j].probability, n, n + 1) > 0.0
    {
      UpdatePositive(t[j].probability, n);
    }
    match IndexOf(t, target)
    case Some(i) =>
    case None =>
      PositiveQuotient(1.0, d);
      assert r[n].probability == 1.0 / d;
  }

  lemma PutKeys(t: Table, e: Edge)
    ensures Targets(Put(t, e)) == Targets(t) + {e.target}
    ensures DistinctTargets(t) ==> DistinctTargets(Put(t, e))
    ensures Lookup(Put(t, e), e.target) == Some(e)
  {
    var r := Put(t, e);
    match IndexOf(t, e.target)
    case Some(i) =>
      TargetsOfUpdate(t, r);
      var k := IndexOf(r, e.target).value;
      assert r[i].target == e.target;
    case None =>
      TargetsOfAppend(t, e);
      var k := IndexOf(r, e.target).value;
      assert r[|t|].target == e.target;
  }
}
