/**
 * The CommandSet of markov's source tree: a HashMap from command key to
 * Markov chain, and the plain arg-max dispatch of match and scan over its
 * chains in iteration order. The chains are markov's MarkovChain, held by
 * value (node map and window). The three-argument scan the set calls on a
 * chain scans into fresh details and copies every entry into two fresh
 * maps, as extractMatches does in nlcmd's Result.
 */
module LegacyCommands {
  import opened Base
  import opened Matches
  import opened Training
  import opened LegacyScanning
  import Commands
  import LegacyResults
  import LegacyChain

  /** A command's chain by value: its node map and its window. */
  datatype Model = Model(graph: Graph, window: nat)

  /** The key order lists every key of the map once, and every chain has a window of at least 1. */
  ghost predicate Indexed<K>(chains: map<K, Model>, keys: seq<K>)
  {
    Commands.Distinct(keys) &&
    (forall k :: k in chains ==> k in keys) &&
    (forall i :: 0 <= i < |keys| ==> keys[i] in chains && chains[keys[i]].window >= 1)
  }

  /** What the three-argument scan hands back: the best average and the maps filled from its entries. */
  function ScanOf(m: Model, phrase: seq<string>): (Double, Commands.Found)
  {
    var s := ExactScanSpec(m.graph, phrase, m.window, NoDetails);
    (s.max, Commands.Found(PutMatches(map[], s.details.entries), PutPlaceholders(map[], s.details.entries)))
  }

  /** The match scores of the chains under the first `n` keys, in key order. */
  function MatchScores<K>(chains: map<K, Model>, keys: seq<K>, n: nat, phrase: seq<string>): (r: seq<Double>)
    requires n <= |keys| && forall i :: 0 <= i < |keys| ==> keys[i] in chains
    ensures |r| == n
    decreases n
  {
    if n == 0 then []
    else
      var m := chains[keys[n - 1]];
      MatchScores(chains, keys, n - 1, phrase) + [ExactMatchSpec(m.graph, phrase, m.window)]
  }

  /** The scan scores of the chains under the first `n` keys, in key order. */
  function ScanScores<K>(chains: map<K, Model>, keys: seq<K>, n: nat, phrase: seq<string>): (r: seq<Double>)
    requires n <= |keys| && forall i :: 0 <= i < |keys| ==> keys[i] in chains
    ensures |r| == n
    decreases n
  {
    if n == 0 then [] else ScanScores(chains, keys, n - 1, phrase) + [ScanOf(chains[keys[n - 1]], phrase).0]
  }

  /** The maps of the winning chain among the first `n`, if one has won. */
  function WinnerFound<K>(chains: map<K, Model>, keys: seq<K>, n: nat, phrase: seq<string>): Option<Commands.Found>
    requires n <= |keys| && forall i :: 0 <= i < |keys| ==> keys[i] in chains
  {
    match Commands.PickOf(ScanScores(chains, keys, n, phrase)).index
    case None => None
    case Some(j) => Some(ScanOf(chains[keys[j]], phrase).1)
  }

  /** One more score: it takes over the running maximum only when strictly greater. */
  lemma PickSnoc(scores: seq<Double>, x: Double)
    ensures var p := Commands.PickOf(scores);
      Commands.PickOf(scores + [x]) == if Greater(x, p.max) then Commands.Pick(x, Some(|scores|)) else p
  {
    assert (scores + [x])[..|scores|] == scores;
  }

  /** Entries without capture leave the placeholder map as it was. */
  lemma {:induction false} NoCaptureNoPlaceholders(m: map<string, seq<string>>, es: seq<Entry>)
    requires forall i :: 0 <= i < |es| ==> es[i].placeholder.None?
    ensures PutPlaceholders(m, es) == m
    decreases |es|
  {
    if es != [] {
      assert es[0].placeholder.None?;
      forall i | 0 <= i < |es| - 1 ensures es[1..][i].placeholder.None? {
        assert es[1..][i] == es[i + 1];
      }
      NoCaptureNoPlaceholders(m, es[1..]);
    }
  }

  /**
   * A chain of the older engine never reports a placeholder: the map the
   * three-argument scan fills is always empty. Its match map holds exactly
   * the token lists of the entries.
   */
  lemma ScanOfFound(m: Model, phrase: seq<string>, k: seq<string>)
    ensures ScanOf(m, phrase).1.placeholders == map[]
    ensures k in ScanOf(m, phrase).1.matches <==>
      exists i :: 0 <= i < |ExactScanSpec(m.graph, phrase, m.window, NoDetails).details.entries| &&
        ExactScanSpec(m.graph, phrase, m.window, NoDetails).details.entries[i].tokens == k
  {
    var es := ExactScanSpec(m.graph, phrase, m.window, NoDetails).details.entries;
    ExactScanResult(m.graph, phrase, m.window, NoDetails);
    assert es[|NoDetails.entries|..] == es;
    NoCaptureNoPlaceholders(map[], es);
    PutMatchesContents(map[], es, k);
  }

  /** markov's CommandSet: the HashMap of chains and its iteration order. */
  class CommandSet<K(==)> {
    var chains: map<K, Model>
    /** The HashMap's iteration order: a new key goes last, a replaced key keeps its place. */
    var keys: seq<K>

    ghost predicate Valid()
      reads this
    {
      Indexed(chains, keys)
    }

    constructor ()
      ensures chains == map[] && keys == [] && Valid()
    {
      chains := map[];
      keys := [];
    }

    /** HashMap.put(key, chain): the chain is stored under `key` in place of any earlier one. */
    method Put(key: K, m: Model)
      requires Valid() && m.window >= 1
      modifies this
      ensures Valid()
      ensures chains == old(chains)[key := m]
      ensures keys == if key in old(chains) then old(keys) else old(keys) + [key]
    {
      if key !in chains {
        assert (keys + [key])[..|keys|] == keys;
        keys := keys + [key];
      }
      chains := chains[key := m];
    }

    /**
     * match(phrase): the key of the first chain, in iteration order, whose
     * match score beats the running maximum (from -1) with Java's `>`, or
     * none: the first key of a maximal score above -1, never a NaN score.
     */
    method Match(phrase: seq<string>) returns (key: Option<K>)
      requires Valid()
      ensures var scores := MatchScores(chains, keys, |keys|, phrase);
        Commands.Chosen(scores, Commands.PickOf(scores).index) &&
        key == Commands.KeyAt(keys, Commands.PickOf(scores).index)
    {
      key := MatchLoop(chains, keys, phrase);
      Commands.PickChosen(MatchScores(chains, keys, |keys|, phrase));
    }

    /**
     * scan(phrase, matches, placeholders): every chain scans into fresh
     * maps; whenever a chain takes over the maximum, the non-null caller
     * maps are cleared and refilled with its maps. The winner is chosen as
     * match chooses it; maps stay as they were when no chain wins.
     */
    method Scan(phrase: seq<string>, matches: MapRef?<seq<string>, Double>,
                placeholders: MapRef?<string, seq<string>>) returns (key: Option<K>)
      requires Valid()
      modifies matches, placeholders
      ensures var scores := ScanScores(chains, keys, |keys|, phrase);
        Commands.Chosen(scores, Commands.PickOf(scores).index) &&
        key == Commands.KeyAt(keys, Commands.PickOf(scores).index) &&
        Commands.Handed(matches, placeholders, old(Commands.Contents(matches)), old(Commands.Contents(placeholders)),
                        WinnerFound(chains, keys, |keys|, phrase))
    {
      key := ScanLoop(chains, keys, phrase, matches, placeholders);
      Commands.PickChosen(ScanScores(chains, keys, |keys|, phrase));
    }
  }

  /** The loop of match over the chains in key order. */
  method MatchLoop<K(==)>(chains: map<K, Model>, keys: seq<K>, phrase: seq<string>) returns (key: Option<K>)
    requires Indexed(chains, keys)
    ensures key == Commands.KeyAt(keys, Commands.PickOf(MatchScores(chains, keys, |keys|, phrase)).index)
  {
    var max := Finite(-1.0);
    key := None;
    ghost var index: Option<nat> := None;
    var i := 0;
    while i < |keys|
      invariant 0 <= i <= |keys|
      invariant Commands.PickOf(MatchScores(chains, keys, i, phrase)) == Commands.Pick(max, index)
      invariant key == Commands.KeyAt(keys, index)
    {
      var m := chains[keys[i]];
      var avg := LegacyChain.MatchIn(m.graph, m.window, phrase);
      PickSnoc(MatchScores(chains, keys, i, phrase), avg);
      if Greater(avg, max) {
        max, key, index := avg, Some(keys[i]), Some(i);
      }
      i := i + 1;
    }
  }

  /**
   * The loop of scan over the chains in key order: the winner so far and
   * the caller's maps holding its maps.
   */
  method ScanLoop<K(==)>(chains: map<K, Model>, keys: seq<K>, phrase: seq<string>,
                         matches: MapRef?<seq<string>, Double>, placeholders: MapRef?<string, seq<string>>)
    returns (key: Option<K>)
    requires Indexed(chains, keys)
    modifies matches, placeholders
    ensures key == Commands.KeyAt(keys, Commands.PickOf(ScanScores(chains, keys, |keys|, phrase)).index)
    ensures Commands.Handed(matches, placeholders, old(Commands.Contents(matches)), old(Commands.Contents(placeholders)),
                            WinnerFound(chains, keys, |keys|, phrase))
  {
    ghost var m0, p0 := Commands.Contents(matches), Commands.Contents(placeholders);
    var max := Finite(-1.0);
    key := None;
    ghost var index: Option<nat> := None;
    var i := 0;
    while i < |keys|
      invariant 0 <= i <= |keys|
      invariant Commands.PickOf(ScanScores(chains, keys, i, phrase)) == Commands.Pick(max, index)
      invariant key == Commands.KeyAt(keys, index)
      invariant Commands.Handed(matches, placeholders, m0, p0, WinnerFound(chains, keys, i, phrase))
    {
      var avg, found := ScanInto(chains[keys[i]], phrase);
      PickSnoc(ScanScores(chains, keys, i, phrase), avg);
      if Greater(avg, max) {
        max, key, index := avg, Some(keys[i]), Some(i);
        Commands.Refill(matches, placeholders, found);
      }
      i := i + 1;
    }
  }

  /**
   * The three-argument scan the set calls on a chain: scan into fresh
   * details, then every entry's tokens and average into a fresh match map
   * and every capture into a fresh placeholder map.
   */
  method ScanInto(m: Model, phrase: seq<string>) returns (avg: Double, found: Commands.Found)
    requires m.window >= 1
    ensures (avg, found) == ScanOf(m, phrase)
  {
    var details := new LegacyResults.MatchResults();
    avg := LegacyChain.ScanIn(m.graph, m.window, phrase, details);
    found := Commands.Found(PutMatches(map[], details.entries), PutPlaceholders(map[], details.entries));
  }
}
