/**
 * Shared vocabulary of both matcher engines: optional values, the Java
 * exceptions the engines can raise, double values that may be NaN, node
 * labels and the placeholder-token test.
 */
module Base {

  datatype Option<+T> = None | Some(value: T)

  /** The Java exceptions the modelled code can raise. */
  datatype Exception =
    | NullPointer
    | IndexOutOfBounds
    | NoSuchElement
    | IllegalState
    | ClassCast
    | Json
    | Runtime(message: string)

  /** A value or a thrown exception; failure-compatible, so `:-` propagates a throw. */
  datatype Outcome<+T> = Return(value: T) | Throw(error: Exception) {
    predicate IsFailure() { Throw? }

    function PropagateFailure<U>(): Outcome<U>
      requires Throw?
    {
      Throw(error)
    }

    function Extract(): T
      requires Return?
    {
      value
    }
  }

  /**
   * A Java double restricted to what the engines produce: an exact real or
   * NaN (the 0/0 average of a sub-match without edges).
   */
  datatype Double = Finite(value: real) | NaN

  /** Java's `a > b` on doubles: false whenever either side is NaN. */
  predicate Greater(a: Double, b: Double)
  {
    a.Finite? && b.Finite? && a.value > b.value
  }

  /** Java's `sum / n` for a sum of `n` probabilities: NaN for 0/0. */
  function Average(sum: real, n: nat): (r: Double)
    ensures n == 0 <==> r.NaN?
    ensures n > 0 ==> r.value * (n as real) == sum
  {
    if n == 0 then NaN else Finite(sum / n as real)
  }

  /** `n` probabilities of 1 average to 1. */
  lemma AverageOfOnes(n: nat)
    requires n > 0
    ensures Average(n as real, n) == Finite(1.0)
  {
  }

  /**
   * A node label: the tokens of one window. Java compares labels by their
   * space-joined string, which agrees with sequence equality as long as no
   * token contains a space; the model assumes tokens never do. The empty
   * label stands for the null label that an empty JSON array yields.
   */
  type Label = seq<string>

  /** A token of the form `<name>` marks an open slot. */
  predicate IsPlaceholder(token: string)
  {
    |token| > 0 && token[0] == '<' && token[|token| - 1] == '>'
  }

  /** Reads element `i` as Java's array indexing does, throwing when out of range. */
  function At<T>(s: seq<T>, i: int): (r: Outcome<T>)
    ensures r.Return? <==> 0 <= i < |s|
    ensures r.Return? ==> r.value == s[i]
    ensures r.Throw? ==> r.error == IndexOutOfBounds
  {
    if 0 <= i < |s| then Return(s[i]) else Throw(IndexOutOfBounds)
  }

  /** A caller-owned Java HashMap; a null reference is a `MapRef?` that is null. */
  class MapRef<K(==), V> {
    var contents: map<K, V>

    constructor ()
      ensures contents == map[]
    {
      contents := map[];
    }
  }
}
