/**
 * Query hooks of a chain: nlcmd's MarkovChainMixin, whose hooks do nothing,
 * and CommandSet.Mixin, which records for every sub-match query the sum of
 * the probabilities walked and the number of edges, and scores a phrase by
 * its longest sub-match relative to the phrase length.
 */
module Mixins {
  import opened Base

  /** Which mixin class the object is. */
  datatype Kind = Plain | RelativeLength

  /** The recorded state of a CommandSet.Mixin (unused by the plain mixin). */
  datatype MixinState = MixinState(phraseLen: int, sums: seq<real>, counts: seq<nat>)

  const Initial := MixinState(0, [], [])

  /** initQuery: the relative mixin remembers the phrase length and opens a new (0, 0) record. */
  function InitQuerySpec(kind: Kind, s: MixinState, phraseLen: int): MixinState
  {
    match kind
    case Plain => s
    case RelativeLength => MixinState(phraseLen, s.sums + [0.0], s.counts + [0])
  }

  /**
   * updateQuery: the relative mixin adds the edge probability to the last sum
   * and counts one more edge; with no record open the list access fails.
   */
  function UpdateQuerySpec(kind: Kind, s: MixinState, probability: real): Outcome<MixinState>
  {
    match kind
    case Plain => Return(s)
    case RelativeLength =>
      if |s.sums| == 0 || |s.counts| == 0 then Throw(IndexOutOfBounds)
      else
        var i, j := |s.sums| - 1, |s.counts| - 1;
        Return(s.(sums := s.sums[i := s.sums[i] + probability], counts := s.counts[j := s.counts[j] + 1]))
  }

  /** The state after initQuery followed by `n` updates whose probabilities sum to `sum`. */
  function Recorded(kind: Kind, s: MixinState, phraseLen: int, n: nat, sum: real): MixinState
  {
    match kind
    case Plain => s
    case RelativeLength => MixinState(phraseLen, s.sums + [sum], s.counts + [n])
  }

  lemma InitRecorded(kind: Kind, s: MixinState, phraseLen: int)
    ensures InitQuerySpec(kind, s, phraseLen) == Recorded(kind, s, phraseLen, 0, 0.0)
  {
  }

  /** Each update extends the open record by one edge: the record is the running sum and count of the walk. */
  lemma UpdateRecorded(kind: Kind, s: MixinState, phraseLen: int, n: nat, sum: real, p: real)
    requires |s.sums| == |s.counts|
    ensures UpdateQuerySpec(kind, Recorded(kind, s, phraseLen, n, sum), p) ==
      Return(Recorded(kind, s, phraseLen, n + 1, sum + p))
  {
    if kind == RelativeLength {
      var r := Recorded(kind, s, phraseLen, n, sum);
      assert r.sums[|r.sums| - 1 := sum + p] == s.sums + [sum + p];
      assert r.counts[|r.counts| - 1 := n + 1] == s.counts + [n + 1];
    }
  }

  /** The two lists stay parallel, and a record exists only once a query has set the phrase length. */
  predicate Consistent(s: MixinState)
  {
    |s.sums| == |s.counts| && (|s.counts| > 0 ==> s.phraseLen > 0)
  }

  /** `s'` still holds every record of `s` unchanged: the lists only ever grow. */
  predicate Keeps(s: MixinState, s': MixinState)
  {
    s.sums <= s'.sums && s.counts <= s'.counts
  }

  /** Every recorded sum is at least 0. */
  predicate NonNegative(s: MixinState)
  {
    forall i :: 0 <= i < |s.sums| ==> s.sums[i] >= 0.0
  }

  /** `i` is the first index holding the largest positive edge count. */
  predicate IsLongest(counts: seq<nat>, i: int)
  {
    0 <= i < |counts| && counts[i] > 0 &&
    (forall j :: 0 <= j < |counts| ==> counts[j] <= counts[i]) &&
    (forall j :: 0 <= j < i ==> counts[j] < counts[i])
  }

  lemma LongestUnique(counts: seq<nat>, i: int, k: int)
    requires IsLongest(counts, i) && IsLongest(counts, k)
    ensures i == k
  {
  }

  /** The index getScore settles on: the first longest record, or -1 when no record has an edge. */
  function LongestIndex(counts: seq<nat>): (i: int)
    ensures -1 <= i < |counts|
    ensures i == -1 <==> forall j :: 0 <= j < |counts| ==> counts[j] == 0
    ensures i >= 0 ==> IsLongest(counts, i)
    decreases |counts|
  {
    if |counts| == 0 then -1
    else
      var n := |counts| - 1;
      var i := LongestIndex(counts[..n]);
      assert forall j :: 0 <= j < n ==> counts[..n][j] == counts[j];
      if counts[n] > (if i == -1 then 0 else counts[i]) then n else i
  }

  /** getScore as a value: the sum of the first longest record over the phrase length, or 0. */
  function Score(s: MixinState): real
    requires Consistent(s)
  {
    var i := LongestIndex(s.counts);
    if i == -1 then 0.0 else s.sums[i] / s.phraseLen as real
  }

  /**
   * The score is 0 when no record has an edge, the sum of the unique
   * longest record over the phrase length otherwise, and never negative
   * while every sum is non-negative.
   */
  lemma ScoreMeaning(s: MixinState)
    requires Consistent(s)
    ensures (forall j :: 0 <= j < |s.counts| ==> s.counts[j] == 0) ==> Score(s) == 0.0
    ensures forall i :: IsLongest(s.counts, i) ==> Score(s) == s.sums[i] / s.phraseLen as real
    ensures NonNegative(s) ==> Score(s) >= 0.0
  {
    var i := LongestIndex(s.counts);
    forall k | IsLongest(s.counts, k) ensures k == i { LongestUnique(s.counts, k, i); }
    if i >= 0 && NonNegative(s) {
      NonNegativeQuotient(s.sums[i], s.phraseLen as real);
    }
  }

  /** A chain's query hooks. */
  class Mixin {
    const kind: Kind
    var phraseLen: int
    var sums: seq<real>
    var counts: seq<nat>

    function State(): MixinState
      reads this
    {
      MixinState(phraseLen, sums, counts)
    }

    /** One (sum, count) record per query; a phrase length is known once a record exists. */
    predicate Valid()
      reads this
    {
      Consistent(State())
    }

    constructor (kind: Kind)
      ensures this.kind == kind && State() == Initial && Valid()
    {
      this.kind := kind;
      phraseLen := 0;
      sums := [];
      counts := [];
    }

    /** The query id of the source is a random number no hook reads; it is not modelled. */
    method InitQuery(phrase: seq<string>)
      requires Valid() && |phrase| > 0
      modifies this
      ensures State() == InitQuerySpec(kind, old(State()), |phrase|) && Valid()
    {
      if kind == RelativeLength {
        phraseLen := |phrase|;
        sums := sums + [0.0];
        counts := counts + [0];
      }
    }

    method UpdateQuery(probability: real) returns (r: Outcome<()>)
      requires Valid()
      modifies this
      ensures r.Return? <==> UpdateQuerySpec(kind, old(State()), probability).Return?
      ensures r.Return? ==> State() == UpdateQuerySpec(kind, old(State()), probability).value
      ensures r.Throw? ==> r.error == IndexOutOfBounds && State() == old(State())
      ensures Valid()
    {
      if kind == RelativeLength {
        if |sums| == 0 {
          return Throw(IndexOutOfBounds);
        }
        var i := |sums| - 1;
        sums := sums[i := sums[i] + probability];
        counts := counts[i := counts[i] + 1];
      }
      return Return(());
    }

    method FinishQuery(success: bool)
      ensures State() == old(State())
    {
    }

    /**
     * CommandSet.Mixin.getScore: the sum of the first longest record divided
     * by the phrase length of the latest query, or 0 when no record has an edge.
     */
    method GetScore() returns (r: real)
      requires Valid() && kind == RelativeLength
      ensures r == Score(State())
    {
      var maxIndex := -1;
      var maxLen := 0;
      var index := 0;
      while index < |counts|
        invariant 0 <= index <= |counts|
        invariant maxIndex == LongestIndex(counts[..index])
        invariant maxLen == if maxIndex == -1 then 0 else counts[maxIndex]
      {
        assert counts[..index + 1][..index] == counts[..index];
        var len := counts[index];
        if len > maxLen {
          maxLen := len;
          maxIndex := index;
        }
        index := index + 1;
      }
      assert counts[..index] == counts;
      if maxIndex > -1 {
        return sums[maxIndex] / phraseLen as real;
      }
      return 0.0;
    }
  }

  lemma NonNegativeQuotient(x: real, d: real)
    requires x >= 0.0 && d > 0.0
    ensures x / d >= 0.0
  {
  }
}
