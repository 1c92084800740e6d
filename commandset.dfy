/**
 * nlcmd's CommandSet: one Markov chain per command key, trained from the
 * command's phrases, and the arg-max dispatch of match and scan over them.
 * A chain's score is its raw average (HIGHEST_AVG) or the CommandSet.Mixin
 * score of its longest sub-match relative to the phrase length
 * (LONGEST_AVG_REL); the third mode is not implemented by the source.
 *
 * The set holds each chain by value: its node map and its mixin record.
 * Matching a chain is MatchSpec / ScanSpec, which the chain class is proved
 * to compute; only the mixin record changes.
 */
module Commands {
  import opened Base
  import opened Matches
  import opened Mixins
  import opened Training
  import opened Scanning
  import NlcmdChain

  datatype ScoreMode = HighestAvg | LongestAvgRel | LongestAvgRelMor

  /** The mixin createChain installs for a mode. */
  function KindOf(mode: ScoreMode): Kind
  {
    if mode == LongestAvgRel then RelativeLength else Plain
  }

  /** A command's chain: the node map and the record of its mixin. */
  datatype Command = Command(chain: Chain, mixin: MixinState)

  /**
   * What put stores under a key: a trained chain whose probabilities lie
   * in (0, 1] and sum to 1 per node, with a consistent mixin record; the
   * null chain of the unimplemented mode.
   */
  predicate Sound(mode: ScoreMode, c: Option<Command>)
  {
    match c
    case None => mode == LongestAvgRelMor
    case Some(cmd) =>
      mode != LongestAvgRelMor && Normalised(cmd.chain.graph) && Probabilities(cmd.chain.graph) &&
      Consistent(cmd.mixin) && NonNegative(cmd.mixin)
  }

  /** No key occurs twice in the iteration order. */
  predicate Distinct<K(==)>(keys: seq<K>)
    decreases |keys|
  {
    keys == [] || (keys[|keys| - 1] !in keys[..|keys| - 1] && Distinct(keys[..|keys| - 1]))
  }

  /** No key repeats one that comes before it. */
  lemma {:induction false} DistinctAt<K>(keys: seq<K>, i: nat)
    requires Distinct(keys) && i < |keys|
    ensures keys[i] !in keys[..i] && Distinct(keys[..i])
    decreases |keys|
  {
    var n := |keys| - 1;
    if i < n {
      DistinctAt(keys[..n], i);
      assert keys[..n][..i] == keys[..i];
    }
  }

  /** The key order lists every key of the map once, and every stored chain is sound. */
  ghost predicate Indexed<K>(mode: ScoreMode, cmds: map<K, Option<Command>>, keys: seq<K>)
  {
    Distinct(keys) &&
    (forall k :: k in cmds ==> k in keys) && (forall i :: 0 <= i < |keys| ==> keys[i] in cmds) &&
    (forall k :: k in cmds ==> Sound(mode, cmds[k]))
  }

  // ------------------------------------------------------------ training

  /** A chain trained on every phrase in turn. */
  function TrainAll(c: Chain, phrases: seq<seq<string>>, order: nat): Chain
    decreases |phrases|, 1
  {
    if phrases == [] then c else TrainAllLast(c, phrases, order)
  }

  /** The chain trained on all phrases but the last, then on the last. */
  function TrainAllLast(c: Chain, phrases: seq<seq<string>>, order: nat): Chain
    requires phrases != []
    decreases |phrases|, 0
  {
    TrainSpec(TrainAll(c, phrases[..|phrases| - 1], order), phrases[|phrases| - 1], order)
  }

  /** Training keeps every node's outgoing probabilities in (0, 1] and summing to 1. */
  lemma {:induction false} TrainAllNormalised(c: Chain, phrases: seq<seq<string>>, order: nat)
    requires Normalised(c.graph) && Probabilities(c.graph)
    ensures Normalised(TrainAll(c, phrases, order).graph) && Probabilities(TrainAll(c, phrases, order).graph)
    decreases |phrases|
  {
    if phrases != [] {
      var front := phrases[..|phrases| - 1];
      var p := phrases[|phrases| - 1];
      TrainAllNormalised(c, front, order);
      if |p| > order {
        TrainUpToNormalised(TrainAll(c, front, order), p, order, |p| - order + 1);
      }
    }
  }

  /**
   * put(key, commands): createChain, then train on every command. The
   * unimplemented mode creates no chain, so training it throws; without
   * commands the null chain is stored.
   */
  function PutSpec(mode: ScoreMode, order: nat, phrases: seq<seq<string>>): (r: Outcome<Option<Command>>)
    ensures r.Throw? <==> mode == LongestAvgRelMor && phrases != []
    ensures r.Return? ==> Sound(mode, r.value)
  {
    if mode == LongestAvgRelMor then
      if phrases == [] then Return(None) else Throw(NullPointer)
    else
      TrainAllNormalised(Empty, phrases, order);
      Return(Some(Command(TrainAll(Empty, phrases, order), Initial)))
  }

  // ------------------------------------------------------------ scoring

  /** extractScore: the raw average, the mixin's score, or "Not implemented". */
  function ExtractScore(mode: ScoreMode, raw: Double, m: MixinState): (r: Outcome<Double>)
    requires Consistent(m)
    ensures r.Throw? <==> mode == LongestAvgRelMor
    ensures r.Throw? ==> r.error == Runtime("Not implemented")
  {
    match mode
    case HighestAvg => Return(raw)
    case LongestAvgRel => Return(Finite(Score(m)))
    case LongestAvgRelMor => Throw(Runtime("Not implemented"))
  }

  /** The score of one chain and its record after the query; `extra` is what scan hands back. */
  datatype Scored<T> = Scored(score: Double, command: Command, extra: T)

  /** The maps a chain's scan fills: sub-phrase averages and placeholder captures. */
  datatype Found = Found(matches: map<seq<string>, Double>, placeholders: map<string, seq<string>>)

  /** One turn of match's loop: the chain's match, then extractScore on its mixin. */
  function MatchOne(mode: ScoreMode, order: nat, c: Option<Command>, phrase: seq<string>): (r: Outcome<Scored<()>>)
    requires Sound(mode, c)
    ensures r.Return? ==> Sound(mode, Some(r.value.command)) && r.value.command.chain == c.value.chain
  {
    match c
    case None => Throw(NullPointer)
    case Some(cmd) =>
      var m := MatchSpec(cmd.chain.graph, phrase, order, KindOf(mode), cmd.mixin);
      if m.Throw? then Throw(m.error)
      else
        MatchMixin(cmd.chain.graph, phrase, order, KindOf(mode), cmd.mixin);
        var s := ExtractScore(mode, m.value.score, m.value.mixin);
        assert s.Return?;
        Return(Scored(s.value, Command(cmd.chain, m.value.mixin), ()))
  }

  /**
   * One turn of scan's loop: the chain's scan into fresh maps, then
   * extractScore on its mixin.
   */
  function ScanOne(mode: ScoreMode, order: nat, c: Option<Command>, phrase: seq<string>): (r: Outcome<Scored<Found>>)
    requires Sound(mode, c)
    ensures r.Return? ==> Sound(mode, Some(r.value.command)) && r.value.command.chain == c.value.chain
  {
    match c
    case None => Throw(NullPointer)
    case Some(cmd) =>
      var m := ScanSpec(cmd.chain.graph, phrase, order, NoDetails, KindOf(mode), cmd.mixin);
      if m.Throw? then Throw(m.error)
      else
        ScanMixin(cmd.chain.graph, phrase, order, NoDetails, KindOf(mode), cmd.mixin);
        var s := ExtractScore(mode, m.value.max, m.value.mixin);
        assert s.Return?;
        var es := m.value.details.entries;
        Return(Scored(s.value, Command(cmd.chain, m.value.mixin), Found(PutMatches(map[], es), PutPlaceholders(map[], es))))
  }

  /** The scores of the chains visited, in iteration order. */
  function Scores<T>(rs: seq<Scored<T>>): (r: seq<Double>)
    ensures |r| == |rs| && forall i :: 0 <= i < |rs| ==> r[i] == rs[i].score
    decreases |rs|
  {
    if rs == [] then [] else Scores(rs[..|rs| - 1]) + [rs[|rs| - 1].score]
  }

  // ------------------------------------------------------------ arg-max

  /** The winner so far: the running maximum, from -1, and the index of the chain that set it. */
  datatype Pick = Pick(max: Double, index: Option<nat>)

  /** match's and scan's selection over `scores`: a later score replaces the maximum only when strictly greater. */
  function PickOf(scores: seq<Double>): (r: Pick)
    ensures r.index.Some? ==> r.index.value < |scores| && r.max == scores[r.index.value]
    ensures r.index.None? ==> r.max == Finite(-1.0)
    decreases |scores|
  {
    if scores == [] then Pick(Finite(-1.0), None)
    else
      var n := |scores| - 1;
      var p := PickOf(scores[..n]);
      if Greater(scores[n], p.max) then Pick(scores[n], Some(n)) else p
  }

  /** Java's `a >= b` on doubles. */
  predicate AtLeast(a: Double, b: Double)
  {
    a.Finite? && b.Finite? && a.value >= b.value
  }

  /**
   * The arg-max the source promises: no winner exactly when no score
   * exceeds -1; otherwise the first index whose score exceeds -1 and is
   * not below any other score. NaN is never chosen.
   */
  predicate Chosen(scores: seq<Double>, w: Option<nat>)
  {
    match w
    case None => forall j :: 0 <= j < |scores| ==> !Greater(scores[j], Finite(-1.0))
    case Some(i) =>
      i < |scores| && Greater(scores[i], Finite(-1.0)) &&
      (forall j :: 0 <= j < |scores| ==> !Greater(scores[j], scores[i])) &&
      (forall j :: 0 <= j < i ==> !AtLeast(scores[j], scores[i]))
  }

  lemma {:induction false} PickChosen(scores: seq<Double>)
    ensures Chosen(scores, PickOf(scores).index)
    decreases |scores|
  {
    if scores != [] {
      var n := |scores| - 1;
      var front := scores[..n];
      PickChosen(front);
      assert forall j :: 0 <= j < n ==> front[j] == scores[j];
      var p := PickOf(front);
      if p.index.Some? {
        assert p.max.Finite? && p.max.value > -1.0;
      }
    }
  }

  /** The key of a winning index. */
  function KeyAt<K>(keys: seq<K>, w: Option<nat>): Option<K>
    requires w.Some? ==> w.value < |keys|
  {
    match w
    case None => None
    case Some(i) => Some(keys[i])
  }

  // ------------------------------------------------------------ the runs

  /** The chains' match results, key by key, each on the record the chain had before the loop. */
  function MatchRun<K(==)>(mode: ScoreMode, order: nat, cmds: map<K, Option<Command>>, keys: seq<K>,
                            phrase: seq<string>): (r: Outcome<seq<Scored<()>>>)
    requires forall k :: k in keys ==> k in cmds && Sound(mode, cmds[k])
    ensures r.Return? ==> |r.value| == |keys|
    ensures r.Return? ==> forall i :: 0 <= i < |keys| ==> Sound(mode, Some(r.value[i].command))
    decreases |keys|, 2
  {
    if keys == [] then Return([]) else MatchRunLast(mode, order, cmds, keys, phrase)
  }

  /** The run through the last key. */
  function MatchRunLast<K(==)>(mode: ScoreMode, order: nat, cmds: map<K, Option<Command>>, keys: seq<K>,
                                phrase: seq<string>): (r: Outcome<seq<Scored<()>>>)
    requires keys != []
    requires forall k :: k in keys ==> k in cmds && Sound(mode, cmds[k])
    ensures r.Return? ==> |r.value| == |keys|
    ensures r.Return? ==> forall i :: 0 <= i < |keys| ==> Sound(mode, Some(r.value[i].command))
    decreases |keys|, 1
  {
    MatchRunThrough(mode, order, cmds, keys, |keys| - 1, phrase)
  }

  /** The run over the keys before `n`, then the chain at key `n`. */
  function MatchRunThrough<K(==)>(mode: ScoreMode, order: nat, cmds: map<K, Option<Command>>, keys: seq<K>, n: nat,
                                   phrase: seq<string>): (r: Outcome<seq<Scored<()>>>)
    requires n < |keys|
    requires forall k :: k in keys ==> k in cmds && Sound(mode, cmds[k])
    ensures r.Return? ==> |r.value| == n + 1
    ensures r.Return? ==> forall i :: 0 <= i <= n ==> Sound(mode, Some(r.value[i].command))
    decreases |keys|, 0
  {
    var front :- MatchRun(mode, order, cmds, keys[..n], phrase);
    var x :- MatchOne(mode, order, cmds[keys[n]], phrase);
    Return(front + [x])
  }

  /** The chains' scan results, key by key. */
  function ScanRun<K(==)>(mode: ScoreMode, order: nat, cmds: map<K, Option<Command>>, keys: seq<K>,
                            phrase: seq<string>): (r: Outcome<seq<Scored<Found>>>)
    requires forall k :: k in keys ==> k in cmds && Sound(mode, cmds[k])
    ensures r.Return? ==> |r.value| == |keys|
    ensures r.Return? ==> forall i :: 0 <= i < |keys| ==> Sound(mode, Some(r.value[i].command))
    decreases |keys|, 2
  {
    if keys == [] then Return([]) else ScanRunLast(mode, order, cmds, keys, phrase)
  }

  /** The run through the last key. */
  function ScanRunLast<K(==)>(mode: ScoreMode, order: nat, cmds: map<K, Option<Command>>, keys: seq<K>,
                                phrase: seq<string>): (r: Outcome<seq<Scored<Found>>>)
    requires keys != []
    requires forall k :: k in keys ==> k in cmds && Sound(mode, cmds[k])
    ensures r.Return? ==> |r.value| == |keys|
    ensures r.Return? ==> forall i :: 0 <= i < |keys| ==> Sound(mode, Some(r.value[i].command))
    decreases |keys|, 1
  {
    ScanRunThrough(mode, order, cmds, keys, |keys| - 1, phrase)
  }

  /** The run over the keys before `n`, then the chain at key `n`. */
  function ScanRunThrough<K(==)>(mode: ScoreMode, order: nat, cmds: map<K, Option<Command>>, keys: seq<K>, n: nat,
                                   phrase: seq<string>): (r: Outcome<seq<Scored<Found>>>)
    requires n < |keys|
    requires forall k :: k in keys ==> k in cmds && Sound(mode, cmds[k])
    ensures r.Return? ==> |r.value| == n + 1
    ensures r.Return? ==> forall i :: 0 <= i <= n ==> Sound(mode, Some(r.value[i].command))
    decreases |keys|, 0
  {
    var front :- ScanRun(mode, order, cmds, keys[..n], phrase);
    var x :- ScanOne(mode, order, cmds[keys[n]], phrase);
    Return(front + [x])
  }

  /** The map after the loop stored every visited chain's new record. */
  function Replaced<K(==), T>(cmds: map<K, Option<Command>>, keys: seq<K>, rs: seq<Scored<T>>): map<K, Option<Command>>
    requires |keys| == |rs|
    decreases |keys|
  {
    if keys == [] then cmds
    else
      var n := |keys| - 1;
      Replaced(cmds, keys[..n], rs[..n])[keys[n] := Some(rs[n].command)]
  }

  /** Each visited key holds its chain's new record; nothing else changes. */
  lemma {:induction false} ReplacedContents<K, T>(cmds: map<K, Option<Command>>, keys: seq<K>,
                                                      rs: seq<Scored<T>>, k: K)
    requires |keys| == |rs| && Distinct(keys)
    ensures k in Replaced(cmds, keys, rs) <==> k in cmds || k in keys
    ensures k !in keys && k in cmds ==> Replaced(cmds, keys, rs)[k] == cmds[k]
    ensures forall i :: 0 <= i < |keys| && keys[i] == k ==> Replaced(cmds, keys, rs)[k] == Some(rs[i].command)
    decreases |keys|
  {
    if keys != [] {
      var n := |keys| - 1;
      ReplacedContents(cmds, keys[..n], rs[..n], k);
      assert forall i :: 0 <= i < n ==> keys[..n][i] == keys[i] && rs[..n][i] == rs[i];
      assert k in keys[..n] ==> exists i :: 0 <= i < n && keys[i] == k;
      assert k in keys && k != keys[n] ==> k in keys[..n] by {
        if k in keys && k != keys[n] {
          var i :| 0 <= i < |keys| && keys[i] == k;
          assert keys[..n][i] == k;
        }
      }
    }
  }

  lemma MatchRunNext<K>(mode: ScoreMode, order: nat, cmds: map<K, Option<Command>>, keys: seq<K>,
                            phrase: seq<string>, i: nat, rs: seq<Scored<()>>)
    requires i < |keys|
    requires forall k :: k in keys ==> k in cmds && Sound(mode, cmds[k])
    requires MatchRun(mode, order, cmds, keys[..i], phrase) == Return(rs)
    ensures var x := MatchOne(mode, order, cmds[keys[i]], phrase);
      MatchRun(mode, order, cmds, keys[..i + 1], phrase) == if x.Throw? then Throw(x.error) else Return(rs + [x.value])
  {
    assert keys[..i + 1][..i] == keys[..i];
    assert MatchRunLast(mode, order, cmds, keys[..i + 1], phrase) == MatchRunThrough(mode, order, cmds, keys[..i + 1], i, phrase);
  }

  lemma ScanRunNext<K>(mode: ScoreMode, order: nat, cmds: map<K, Option<Command>>, keys: seq<K>,
                           phrase: seq<string>, i: nat, rs: seq<Scored<Found>>)
    requires i < |keys|
    requires forall k :: k in keys ==> k in cmds && Sound(mode, cmds[k])
    requires ScanRun(mode, order, cmds, keys[..i], phrase) == Return(rs)
    ensures var x := ScanOne(mode, order, cmds[keys[i]], phrase);
      ScanRun(mode, order, cmds, keys[..i + 1], phrase) == if x.Throw? then Throw(x.error) else Return(rs + [x.value])
  {
    assert keys[..i + 1][..i] == keys[..i];
    assert ScanRunLast(mode, order, cmds, keys[..i + 1], phrase) == ScanRunThrough(mode, order, cmds, keys[..i + 1], i, phrase);
  }

  /** Once a chain throws, the whole run throws the same exception. */
  lemma {:induction false} MatchRunThrows<K>(mode: ScoreMode, order: nat, cmds: map<K, Option<Command>>, keys: seq<K>,
                                             phrase: seq<string>, j: nat)
    requires j <= |keys|
    requires forall k :: k in keys ==> k in cmds && Sound(mode, cmds[k])
    requires MatchRun(mode, order, cmds, keys[..j], phrase).Throw?
    ensures MatchRun(mode, order, cmds, keys, phrase) == MatchRun(mode, order, cmds, keys[..j], phrase)
    decreases |keys|
  {
    if j < |keys| {
      var n := |keys| - 1;
      assert keys[..n][..j] == keys[..j];
      MatchRunThrows(mode, order, cmds, keys[..n], phrase, j);
      assert MatchRunThrough(mode, order, cmds, keys, n, phrase) == MatchRun(mode, order, cmds, keys[..n], phrase);
      assert MatchRunLast(mode, order, cmds, keys, phrase) == MatchRunThrough(mode, order, cmds, keys, n, phrase);
    } else {
      assert keys[..j] == keys;
    }
  }

  lemma {:induction false} ScanRunThrows<K>(mode: ScoreMode, order: nat, cmds: map<K, Option<Command>>, keys: seq<K>,
                                            phrase: seq<string>, j: nat)
    requires j <= |keys|
    requires forall k :: k in keys ==> k in cmds && Sound(mode, cmds[k])
    requires ScanRun(mode, order, cmds, keys[..j], phrase).Throw?
    ensures ScanRun(mode, order, cmds, keys, phrase) == ScanRun(mode, order, cmds, keys[..j], phrase)
    decreases |keys|
  {
    if j < |keys| {
      var n := |keys| - 1;
      assert keys[..n][..j] == keys[..j];
      ScanRunThrows(mode, order, cmds, keys[..n], phrase, j);
      assert ScanRunThrough(mode, order, cmds, keys, n, phrase) == ScanRun(mode, order, cmds, keys[..n], phrase);
      assert ScanRunLast(mode, order, cmds, keys, phrase) == ScanRunThrough(mode, order, cmds, keys, n, phrase);
    } else {
      assert keys[..j] == keys;
    }
  }

  lemma PickNext<T>(rs: seq<Scored<T>>, x: Scored<T>)
    ensures var p := PickOf(Scores(rs));
      PickOf(Scores(rs + [x])) == if Greater(x.score, p.max) then Pick(x.score, Some(|rs|)) else p
  {
    assert Scores(rs + [x])[..|rs|] == Scores(rs);
  }

  /** What the winning chain handed back, if a chain has won. */
  function Winner<T>(rs: seq<Scored<T>>): Option<T>
  {
    match PickOf(Scores(rs)).index
    case None => None
    case Some(j) => Some(rs[j].extra)
  }

  /**
   * The state of match's and scan's loop after the first |rs| keys: the
   * running maximum and key are those of the results so far, and each
   * visited key holds its chain's new record.
   */
  ghost predicate Progress<K, T>(cmds: map<K, Option<Command>>, keys: seq<K>, rs: seq<Scored<T>>,
                                 chains: map<K, Option<Command>>, max: Double, key: Option<K>)
  {
    |rs| <= |keys| &&
    PickOf(Scores(rs)).max == max && key == KeyAt(keys, PickOf(Scores(rs)).index) &&
    chains == Replaced(cmds, keys[..|rs|], rs)
  }

  /** Storing sound records under the first |rs| keys keeps the map in step with the key order. */
  lemma {:induction false} ReplacedIndexed<K, T>(mode: ScoreMode, cmds: map<K, Option<Command>>, keys: seq<K>,
                                                 rs: seq<Scored<T>>)
    requires Indexed(mode, cmds, keys) && |rs| <= |keys|
    requires forall i :: 0 <= i < |rs| ==> Sound(mode, Some(rs[i].command))
    ensures Indexed(mode, Replaced(cmds, keys[..|rs|], rs), keys)
    decreases |rs|
  {
    if rs == [] {
      assert keys[..0] == [];
    } else {
      var n := |rs| - 1;
      ReplacedIndexed(mode, cmds, keys, rs[..n]);
      var front := Replaced(cmds, keys[..n], rs[..n]);
      assert keys[..|rs|][..n] == keys[..n];
      assert Replaced(cmds, keys[..|rs|], rs) == front[keys[n] := Some(rs[n].command)];
      IndexedPut(mode, front, keys, keys[n], Some(rs[n].command));
    }
  }

  /** One more key: a strictly greater score takes over the maximum, and the chain's new record is stored. */
  lemma Advance<K, T>(cmds: map<K, Option<Command>>, keys: seq<K>, rs: seq<Scored<T>>,
                      chains: map<K, Option<Command>>, max: Double, key: Option<K>, x: Scored<T>)
    requires Progress(cmds, keys, rs, chains, max, key) && |rs| < |keys|
    ensures var g := Greater(x.score, max);
      Progress(cmds, keys, rs + [x], chains[keys[|rs|] := Some(x.command)],
               if g then x.score else max, if g then Some(keys[|rs|]) else key) &&
      Winner(rs + [x]) == if g then Some(x.extra) else Winner(rs)
  {
    var i := |rs|;
    PickNext(rs, x);
    ReplacedStep(cmds, keys, i, rs, x);
    assert (rs + [x])[i] == x;
    assert forall j :: 0 <= j < i ==> (rs + [x])[j] == rs[j];
  }

  // ------------------------------------------------------------ properties

  /** Under LONGEST_AVG_REL one chain's score is the mixin's score, which is never negative. */
  lemma RelativeOneNonNegative(order: nat, c: Option<Command>, phrase: seq<string>)
    requires Sound(LongestAvgRel, c)
    ensures var x := MatchOne(LongestAvgRel, order, c, phrase); x.Return? ==> AtLeast(x.value.score, Finite(0.0))
    ensures var x := ScanOne(LongestAvgRel, order, c, phrase); x.Return? ==> AtLeast(x.value.score, Finite(0.0))
  {
    if c.Some? {
      var cmd := c.value;
      MatchMixin(cmd.chain.graph, phrase, order, RelativeLength, cmd.mixin);
      ScanMixin(cmd.chain.graph, phrase, order, NoDetails, RelativeLength, cmd.mixin);
      var m := MatchSpec(cmd.chain.graph, phrase, order, RelativeLength, cmd.mixin);
      if m.Return? {
        ScoreMeaning(m.value.mixin);
      }
      var s := ScanSpec(cmd.chain.graph, phrase, order, NoDetails, RelativeLength, cmd.mixin);
      if s.Return? {
        ScoreMeaning(s.value.mixin);
      }
    }
  }

  /** Under LONGEST_AVG_REL every chain of a match that does not throw scores at least 0. */
  lemma {:induction false} RelativeMatchNonNegative<K>(order: nat, cmds: map<K, Option<Command>>, keys: seq<K>,
                                                          phrase: seq<string>)
    requires forall k :: k in keys ==> k in cmds && Sound(LongestAvgRel, cmds[k])
    ensures var r := MatchRun(LongestAvgRel, order, cmds, keys, phrase);
      r.Return? ==> forall i :: 0 <= i < |keys| ==> AtLeast(r.value[i].score, Finite(0.0))
    decreases |keys|
  {
    var r := MatchRun(LongestAvgRel, order, cmds, keys, phrase);
    if keys != [] && r.Return? {
      var n := |keys| - 1;
      assert r == MatchRunLast(LongestAvgRel, order, cmds, keys, phrase);
      assert r == MatchRunThrough(LongestAvgRel, order, cmds, keys, n, phrase);
      RelativeMatchNonNegative(order, cmds, keys[..n], phrase);
      assert keys[n] in keys;
      RelativeOneNonNegative(order, cmds[keys[n]], phrase);
      var front := MatchRun(LongestAvgRel, order, cmds, keys[..n], phrase);
      var x := MatchOne(LongestAvgRel, order, cmds[keys[n]], phrase);
      assert front.Return? && x.Return? && r.value == front.value + [x.value];
    }
  }

  /** Under LONGEST_AVG_REL every chain of a scan that does not throw scores at least 0. */
  lemma {:induction false} RelativeScanNonNegative<K>(order: nat, cmds: map<K, Option<Command>>, keys: seq<K>,
                                                         phrase: seq<string>)
    requires forall k :: k in keys ==> k in cmds && Sound(LongestAvgRel, cmds[k])
    ensures var r := ScanRun(LongestAvgRel, order, cmds, keys, phrase);
      r.Return? ==> forall i :: 0 <= i < |keys| ==> AtLeast(r.value[i].score, Finite(0.0))
    decreases |keys|
  {
    var r := ScanRun(LongestAvgRel, order, cmds, keys, phrase);
    if keys != [] && r.Return? {
      var n := |keys| - 1;
      assert r == ScanRunLast(LongestAvgRel, order, cmds, keys, phrase);
      assert r == ScanRunThrough(LongestAvgRel, order, cmds, keys, n, phrase);
      RelativeScanNonNegative(order, cmds, keys[..n], phrase);
      assert keys[n] in keys;
      RelativeOneNonNegative(order, cmds[keys[n]], phrase);
      var front := ScanRun(LongestAvgRel, order, cmds, keys[..n], phrase);
      var x := ScanOne(LongestAvgRel, order, cmds[keys[n]], phrase);
      assert front.Return? && x.Return? && r.value == front.value + [x.value];
    }
  }

  /** Non-negative scores beat the initial -1, so some index is picked. */
  lemma NonNegativePicks(scores: seq<Double>)
    requires scores != [] && forall i :: 0 <= i < |scores| ==> AtLeast(scores[i], Finite(0.0))
    ensures PickOf(scores).index.Some?
  {
    PickChosen(scores);
    assert Greater(scores[0], Finite(-1.0));
  }

  /** With LONGEST_AVG_REL, a match or scan over a non-empty set that does not throw picks a key. */
  lemma RelativeAlwaysPicks<K>(order: nat, cmds: map<K, Option<Command>>, keys: seq<K>, phrase: seq<string>)
    requires forall k :: k in keys ==> k in cmds && Sound(LongestAvgRel, cmds[k])
    requires keys != []
    ensures var r := MatchRun(LongestAvgRel, order, cmds, keys, phrase);
      r.Return? ==> PickOf(Scores(r.value)).index.Some?
    ensures var r := ScanRun(LongestAvgRel, order, cmds, keys, phrase);
      r.Return? ==> PickOf(Scores(r.value)).index.Some?
  {
    RelativeMatchNonNegative(order, cmds, keys, phrase);
    RelativeScanNonNegative(order, cmds, keys, phrase);
    var m := MatchRun(LongestAvgRel, order, cmds, keys, phrase);
    if m.Return? {
      var scores := Scores(m.value);
      assert forall i :: 0 <= i < |scores| ==> scores[i] == m.value[i].score;
      NonNegativePicks(scores);
    }
    var s := ScanRun(LongestAvgRel, order, cmds, keys, phrase);
    if s.Return? {
      var scores := Scores(s.value);
      assert forall i :: 0 <= i < |scores| ==> scores[i] == s.value[i].score;
      NonNegativePicks(scores);
    }
  }

  /** Under the unimplemented mode, a non-empty set throws a NullPointerException. */
  lemma UnimplementedThrows<K>(order: nat, cmds: map<K, Option<Command>>, keys: seq<K>, phrase: seq<string>)
    requires forall k :: k in keys ==> k in cmds && Sound(LongestAvgRelMor, cmds[k])
    requires keys != []
    ensures MatchRun(LongestAvgRelMor, order, cmds, keys, phrase) == Throw(NullPointer)
    ensures ScanRun(LongestAvgRelMor, order, cmds, keys, phrase) == Throw(NullPointer)
  {
    MorRunThrows(order, cmds, keys, phrase);
  }

  lemma {:induction false} MorRunThrows<K>(order: nat, cmds: map<K, Option<Command>>, keys: seq<K>, phrase: seq<string>)
    requires forall k :: k in keys ==> k in cmds && Sound(LongestAvgRelMor, cmds[k])
    ensures keys != [] ==> MatchRun(LongestAvgRelMor, order, cmds, keys, phrase) == Throw(NullPointer)
    ensures keys != [] ==> ScanRun(LongestAvgRelMor, order, cmds, keys, phrase) == Throw(NullPointer)
    decreases |keys|
  {
    if keys != [] {
      var n := |keys| - 1;
      assert keys[n] in keys;
      assert MatchOne(LongestAvgRelMor, order, cmds[keys[n]], phrase) == Throw(NullPointer);
      assert ScanOne(LongestAvgRelMor, order, cmds[keys[n]], phrase) == Throw(NullPointer);
      if n > 0 {
        MorRunThrows(order, cmds, keys[..n], phrase);
      } else {
        assert keys[..n] == [];
      }
      assert MatchRunThrough(LongestAvgRelMor, order, cmds, keys, n, phrase) == Throw(NullPointer);
      assert MatchRunLast(LongestAvgRelMor, order, cmds, keys, phrase) == Throw(NullPointer);
      assert ScanRunThrough(LongestAvgRelMor, order, cmds, keys, n, phrase) == Throw(NullPointer);
      assert ScanRunLast(LongestAvgRelMor, order, cmds, keys, phrase) == Throw(NullPointer);
      assert MatchRun(LongestAvgRelMor, order, cmds, keys, phrase) == MatchRunLast(LongestAvgRelMor, order, cmds, keys, phrase);
      assert ScanRun(LongestAvgRelMor, order, cmds, keys, phrase) == ScanRunLast(LongestAvgRelMor, order, cmds, keys, phrase);
    }
  }

  // ------------------------------------------------------------ the set

  class CommandSet<K(==)> {
    const order: nat
    const mode: ScoreMode
    var chains: map<K, Option<Command>>
    /** The HashMap's iteration order: a new key goes last, a replaced key keeps its place. */
    var keys: seq<K>

    ghost predicate Valid()
      reads this
    {
      order >= 1 && Indexed(mode, chains, keys)
    }

    constructor (order: nat, mode: ScoreMode)
      requires order >= 1
      ensures this.order == order && this.mode == mode && chains == map[] && keys == [] && Valid()
    {
      this.order := order;
      this.mode := mode;
      chains := map[];
      keys := [];
    }

    /**
     * put(key, commands): a fresh chain (with the relative mixin under
     * LONGEST_AVG_REL) trained on every command, stored under `key` in
     * place of any earlier chain.
     */
    method Put(key: K, phrases: seq<seq<string>>) returns (r: Outcome<()>)
      requires Valid()
      modifies this
      ensures Valid()
      ensures var p := PutSpec(mode, order, phrases);
        (r.Throw? <==> p.Throw?) && (r.Throw? ==> r.error == p.error && chains == old(chains) && keys == old(keys)) &&
        (r.Return? ==>
          chains == old(chains)[key := p.value] &&
          keys == if key in old(chains) then old(keys) else old(keys) + [key])
    {
      var c, k;
      r, c, k := PutIn(mode, order, chains, keys, key, phrases);
      chains, keys := c, k;
    }

    /**
     * match(phrase): every chain's score in iteration order; the key of the
     * first chain whose score beats the running maximum (from -1) with
     * Java's `>`, or none.
     */
    method Match(phrase: seq<string>) returns (r: Outcome<Option<K>>)
      requires Valid()
      modifies this
      ensures Valid() && keys == old(keys)
      ensures var run := MatchRun(mode, order, old(chains), keys, phrase);
        (r.Throw? <==> run.Throw?) && (r.Throw? ==> r.error == run.error) &&
        (r.Return? ==>
          r.value == KeyAt(keys, PickOf(Scores(run.value)).index) &&
          chains == Replaced(old(chains), keys, run.value))
    {
      var c;
      r, c := MatchLoop(mode, order, chains, keys, phrase);
      chains := c;
    }

    /**
     * scan(phrase, matches, placeholders): every chain scans into fresh
     * maps; whenever a chain becomes the winner, non-null caller maps are
     * cleared and refilled with that chain's maps.
     */
    method Scan(phrase: seq<string>, matches: MapRef?<seq<string>, Double>,
                placeholders: MapRef?<string, seq<string>>) returns (r: Outcome<Option<K>>)
      requires Valid()
      modifies this, matches, placeholders
      ensures Valid() && keys == old(keys)
      ensures var run := ScanRun(mode, order, old(chains), keys, phrase);
        (r.Throw? <==> run.Throw?) && (r.Throw? ==> r.error == run.error) &&
        (r.Return? ==>
          var w := Winner(run.value);
          r.value == KeyAt(keys, PickOf(Scores(run.value)).index) &&
          chains == Replaced(old(chains), keys, run.value) &&
          (matches != null ==> matches.contents == if w.None? then old(matches.contents) else w.value.matches) &&
          (placeholders != null ==>
            placeholders.contents == if w.None? then old(placeholders.contents) else w.value.placeholders))
    {
      var c;
      r, c := ScanLoop(mode, order, chains, keys, phrase, matches, placeholders);
      chains := c;
    }
  }

  /** The body of CommandSet.put over the map and its key order. */
  method PutIn<K(==)>(mode: ScoreMode, order: nat, cmds: map<K, Option<Command>>, keys: seq<K>, key: K,
                      phrases: seq<seq<string>>)
    returns (r: Outcome<()>, cmds': map<K, Option<Command>>, keys': seq<K>)
    requires order >= 1 && Indexed(mode, cmds, keys)
    ensures Indexed(mode, cmds', keys')
    ensures var p := PutSpec(mode, order, phrases);
      (r.Throw? <==> p.Throw?) && (r.Throw? ==> r.error == p.error && cmds' == cmds && keys' == keys) &&
      (r.Return? ==> cmds' == cmds[key := p.value] && keys' == if key in cmds then keys else keys + [key])
  {
    var c: Option<Command>;
    if mode == LongestAvgRelMor {
      if phrases != [] {
        return Throw(NullPointer), cmds, keys;
      }
      c := None;
    } else {
      var cmd := TrainCommand(mode, order, phrases);
      c := Some(cmd);
    }
    IndexedPut(mode, cmds, keys, key, c);
    keys' := if key in cmds then keys else keys + [key];
    cmds' := cmds[key := c];
    return Return(()), cmds', keys';
  }

  /** Storing a sound chain keeps the key order in step with the map. */
  lemma IndexedPut<K>(mode: ScoreMode, cmds: map<K, Option<Command>>, keys: seq<K>, key: K, c: Option<Command>)
    requires Indexed(mode, cmds, keys) && Sound(mode, c)
    ensures Indexed(mode, cmds[key := c], if key in cmds then keys else keys + [key])
  {
    if key in cmds {
      IndexedReplace(mode, cmds, keys, key, c);
    } else {
      IndexedAdd(mode, cmds, keys, key, c);
    }
  }

  /** Overwriting a present key keeps the order. */
  lemma IndexedReplace<K>(mode: ScoreMode, cmds: map<K, Option<Command>>, keys: seq<K>, key: K, c: Option<Command>)
    requires Indexed(mode, cmds, keys) && Sound(mode, c) && key in cmds
    ensures Indexed(mode, cmds[key := c], keys)
  {
    var cmds' := cmds[key := c];
    forall k | k in cmds' ensures Sound(mode, cmds'[k]) {
      if k != key { assert cmds'[k] == cmds[k]; }
    }
  }

  /** A new key goes last. */
  lemma IndexedAdd<K>(mode: ScoreMode, cmds: map<K, Option<Command>>, keys: seq<K>, key: K, c: Option<Command>)
    requires Indexed(mode, cmds, keys) && Sound(mode, c) && key !in cmds
    ensures Indexed(mode, cmds[key := c], keys + [key])
  {
    var cmds' := cmds[key := c];
    var keys' := keys + [key];
    assert key !in keys;
    assert keys'[..|keys|] == keys && keys'[|keys|] == key;
    assert Distinct(keys');
    forall i | 0 <= i < |keys'| ensures keys'[i] in cmds' {
      if i < |keys| { assert keys'[i] == keys[i]; }
    }
    forall k | k in cmds' ensures Sound(mode, cmds'[k]) {
      if k != key { assert cmds'[k] == cmds[k]; }
    }
  }


  /**
   * createChain() followed by train() on every phrase: a fresh chain, with
   * the relative-length mixin under LONGEST_AVG_REL.
   */
  method TrainCommand(mode: ScoreMode, order: nat, phrases: seq<seq<string>>) returns (c: Command)
    requires order >= 1 && mode != LongestAvgRelMor
    ensures PutSpec(mode, order, phrases) == Return(Some(c))
  {
    var mc := new NlcmdChain.MarkovChain(order);
    if mode == LongestAvgRel {
      var m := new Mixin(RelativeLength);
      mc.SetMixin(m);
    }
    var i := 0;
    while i < |phrases|
      invariant 0 <= i <= |phrases| && mc.Valid() && mc.order == order
      invariant mc.Value() == TrainAll(Empty, phrases[..i], order) && mc.mixin.State() == Initial
      invariant mc.mixin.kind == KindOf(mode)
    {
      mc.Train(phrases[i]);
      assert mc.Value() == TrainAll(Empty, phrases[..i + 1], order) by {
        assert phrases[..i + 1][..i] == phrases[..i];
      }
      i := i + 1;
    }
    assert phrases[..i] == phrases;
    c := Command(mc.Value(), mc.mixin.State());
  }

  /** The loop of CommandSet.match over the chains in key order. */
  method MatchLoop<K(==)>(mode: ScoreMode, order: nat, cmds: map<K, Option<Command>>, keys: seq<K>, phrase: seq<string>)
    returns (r: Outcome<Option<K>>, chains: map<K, Option<Command>>)
    requires Indexed(mode, cmds, keys)
    ensures Indexed(mode, chains, keys)
    ensures var run := MatchRun(mode, order, cmds, keys, phrase);
      (r.Throw? <==> run.Throw?) && (r.Throw? ==> r.error == run.error) &&
      (r.Return? ==> r.value == KeyAt(keys, PickOf(Scores(run.value)).index) && chains == Replaced(cmds, keys, run.value))
  {
    var max := Finite(-1.0);
    var key: Option<K> := None;
    ghost var rs: seq<Scored<()>> := [];
    chains := cmds;
    r := Return(None);
    var i := 0;
    MatchStart(mode, order, cmds, keys, phrase);
    while i < |keys|
      invariant 0 <= i <= |keys| && i == |rs| && MatchRun(mode, order, cmds, keys[..i], phrase) == Return(rs)
      invariant Progress(cmds, keys, rs, chains, max, key)
    {
      var x;
      x, chains, max, key, rs, i := MatchStep(mode, order, cmds, keys, phrase, i, rs, chains, max, key);
      if x.Throw? {
        r := Throw(x.error);
        break;
      }
    }
    if r.Return? {
      MatchDone(mode, order, cmds, keys, phrase, rs, chains, max, key);
      r := Return(key);
    }
  }

  /** Before match's loop: no chain visited, no maximum yet. */
  lemma MatchStart<K>(mode: ScoreMode, order: nat, cmds: map<K, Option<Command>>, keys: seq<K>, phrase: seq<string>)
    ensures MatchRun(mode, order, cmds, keys[..0], phrase) == Return([])
    ensures Progress<K, ()>(cmds, keys, [], cmds, Finite(-1.0), None)
  {
    assert keys[..0] == [];
  }

  /** After match's loop: every chain visited, so the run is complete and the map stays indexed. */
  lemma MatchDone<K>(mode: ScoreMode, order: nat, cmds: map<K, Option<Command>>, keys: seq<K>, phrase: seq<string>,
                         rs: seq<Scored<()>>, chains: map<K, Option<Command>>, max: Double, key: Option<K>)
    requires Indexed(mode, cmds, keys)
    requires |rs| == |keys| && MatchRun(mode, order, cmds, keys[..|rs|], phrase) == Return(rs)
    requires Progress(cmds, keys, rs, chains, max, key)
    ensures Indexed(mode, chains, keys) && MatchRun(mode, order, cmds, keys, phrase) == Return(rs)
    ensures key == KeyAt(keys, PickOf(Scores(rs)).index) && chains == Replaced(cmds, keys, rs)
  {
    assert keys[..|rs|] == keys;
    ReplacedIndexed(mode, cmds, keys, rs);
  }

  /** The body of match's loop: query the chain at key `i` and store its new record. */
  method MatchStep<K(==)>(mode: ScoreMode, order: nat, ghost cmds: map<K, Option<Command>>, keys: seq<K>,
                          phrase: seq<string>, i: nat, ghost rs: seq<Scored<()>>,
                          chains: map<K, Option<Command>>, max: Double, key: Option<K>)
    returns (x: Outcome<Scored<()>>, chains': map<K, Option<Command>>, max': Double, key': Option<K>,
             ghost rs': seq<Scored<()>>, i': nat)
    requires Indexed(mode, cmds, keys)
    requires i < |keys| && i == |rs| && MatchRun(mode, order, cmds, keys[..i], phrase) == Return(rs)
    requires Progress(cmds, keys, rs, chains, max, key)
    ensures x.Throw? ==> MatchRun(mode, order, cmds, keys, phrase) == Throw(x.error) && Indexed(mode, chains', keys)
    ensures x.Return? ==>
      rs' == rs + [x.value] && i' == i + 1 &&
      i' <= |keys| && i' == |rs'| && MatchRun(mode, order, cmds, keys[..i'], phrase) == Return(rs') &&
      Progress(cmds, keys, rs', chains', max', key')
  {
    var k := keys[i];
    ReplacedAt(cmds, keys, i, rs);
    x := MatchTurn(mode, order, cmds, keys, phrase, i, rs, chains[k]);
    chains', max', key', rs', i' := chains, max, key, rs, i;
    if x.Throw? {
      MatchRunThrows(mode, order, cmds, keys, phrase, i + 1);
      ReplacedIndexed(mode, cmds, keys, rs);
      return;
    }
    Advance(cmds, keys, rs, chains, max, key, x.value);
    if Greater(x.value.score, max) {
      max', key' := x.value.score, Some(k);
    }
    chains' := chains[k := Some(x.value.command)];
    rs', i' := rs + [x.value], i + 1;
  }

  /**
   * The loop of CommandSet.scan: whenever a chain becomes the winner, the
   * non-null caller maps are cleared and refilled with that chain's maps.
   */
  method ScanLoop<K(==)>(mode: ScoreMode, order: nat, cmds: map<K, Option<Command>>, keys: seq<K>, phrase: seq<string>,
                         matches: MapRef?<seq<string>, Double>, placeholders: MapRef?<string, seq<string>>)
    returns (r: Outcome<Option<K>>, chains: map<K, Option<Command>>)
    requires Indexed(mode, cmds, keys)
    modifies matches, placeholders
    ensures Indexed(mode, chains, keys)
    ensures var run := ScanRun(mode, order, cmds, keys, phrase);
      (r.Throw? <==> run.Throw?) && (r.Throw? ==> r.error == run.error) &&
      (r.Return? ==>
        r.value == KeyAt(keys, PickOf(Scores(run.value)).index) && chains == Replaced(cmds, keys, run.value) &&
        Handed(matches, placeholders, old(Contents(matches)), old(Contents(placeholders)), Winner(run.value)))
  {
    var max := Finite(-1.0);
    var key: Option<K> := None;
    ghost var rs: seq<Scored<Found>> := [];
    ghost var m0, p0 := Contents(matches), Contents(placeholders);
    chains := cmds;
    r := Return(None);
    var i := 0;
    ScanStart(mode, order, cmds, keys, phrase);
    while i < |keys|
      invariant 0 <= i <= |keys| && i == |rs| && ScanRun(mode, order, cmds, keys[..i], phrase) == Return(rs)
      invariant Progress(cmds, keys, rs, chains, max, key)
      invariant Handed(matches, placeholders, m0, p0, Winner(rs))
    {
      var x;
      x, chains, max, key, rs, i := ScanStep(mode, order, cmds, keys, phrase, i, rs, chains, max, key,
                                              matches, placeholders, m0, p0);
      if x.Throw? {
        r := Throw(x.error);
        break;
      }
    }
    if r.Return? {
      ScanDone(mode, order, cmds, keys, phrase, rs, chains, max, key);
      r := Return(key);
    }
  }

  /** Before scan's loop: no chain visited, no maximum yet. */
  lemma ScanStart<K>(mode: ScoreMode, order: nat, cmds: map<K, Option<Command>>, keys: seq<K>, phrase: seq<string>)
    ensures ScanRun(mode, order, cmds, keys[..0], phrase) == Return([])
    ensures Progress<K, Found>(cmds, keys, [], cmds, Finite(-1.0), None)
  {
    assert keys[..0] == [];
  }

  /** After scan's loop: every chain visited, so the run is complete and the map stays indexed. */
  lemma ScanDone<K>(mode: ScoreMode, order: nat, cmds: map<K, Option<Command>>, keys: seq<K>, phrase: seq<string>,
                    rs: seq<Scored<Found>>, chains: map<K, Option<Command>>, max: Double, key: Option<K>)
    requires Indexed(mode, cmds, keys)
    requires |rs| == |keys| && ScanRun(mode, order, cmds, keys[..|rs|], phrase) == Return(rs)
    requires Progress(cmds, keys, rs, chains, max, key)
    ensures Indexed(mode, chains, keys) && ScanRun(mode, order, cmds, keys, phrase) == Return(rs)
    ensures key == KeyAt(keys, PickOf(Scores(rs)).index) && chains == Replaced(cmds, keys, rs)
  {
    assert keys[..|rs|] == keys;
    ReplacedIndexed(mode, cmds, keys, rs);
  }

  /**
   * The body of scan's loop: query the chain at key `i`, store its new
   * record, and refill the caller's maps when it takes over the maximum.
   */
  method ScanStep<K(==)>(mode: ScoreMode, order: nat, ghost cmds: map<K, Option<Command>>, keys: seq<K>,
                         phrase: seq<string>, i: nat, ghost rs: seq<Scored<Found>>,
                         chains: map<K, Option<Command>>, max: Double, key: Option<K>,
                         matches: MapRef?<seq<string>, Double>, placeholders: MapRef?<string, seq<string>>,
                         ghost m0: map<seq<string>, Double>, ghost p0: map<string, seq<string>>)
    returns (x: Outcome<Scored<Found>>, chains': map<K, Option<Command>>, max': Double, key': Option<K>,
             ghost rs': seq<Scored<Found>>, i': nat)
    requires Indexed(mode, cmds, keys)
    requires i < |keys| && i == |rs| && ScanRun(mode, order, cmds, keys[..i], phrase) == Return(rs)
    requires Progress(cmds, keys, rs, chains, max, key)
    requires Handed(matches, placeholders, m0, p0, Winner(rs))
    modifies matches, placeholders
    ensures x.Throw? ==> ScanRun(mode, order, cmds, keys, phrase) == Throw(x.error) && Indexed(mode, chains', keys)
    ensures x.Return? ==>
      rs' == rs + [x.value] && i' == i + 1 &&
      i' <= |keys| && i' == |rs'| && ScanRun(mode, order, cmds, keys[..i'], phrase) == Return(rs') &&
      Progress(cmds, keys, rs', chains', max', key') &&
      Handed(matches, placeholders, m0, p0, Winner(rs'))
  {
    var k := keys[i];
    ReplacedAt(cmds, keys, i, rs);
    x := ScanTurn(mode, order, cmds, keys, phrase, i, rs, chains[k]);
    chains', max', key', rs', i' := chains, max, key, rs, i;
    if x.Throw? {
      ScanRunThrows(mode, order, cmds, keys, phrase, i + 1);
      ReplacedIndexed(mode, cmds, keys, rs);
      return;
    }
    Advance(cmds, keys, rs, chains, max, key, x.value);
    if Greater(x.value.score, max) {
      max', key' := x.value.score, Some(k);
      Refill(matches, placeholders, x.value.extra);
    }
    chains' := chains[k := Some(x.value.command)];
    rs', i' := rs + [x.value], i + 1;
  }

  /** The contents of a map the caller may pass as null. */
  function Contents<K, V>(m: MapRef?<K, V>): map<K, V>
    reads m
  {
    if m == null then map[] else m.contents
  }

  /**
   * The caller's maps hold what the winning chain handed back, or what
   * they held before when no chain has won; null maps stay null.
   */
  ghost predicate Handed(matches: MapRef?<seq<string>, Double>, placeholders: MapRef?<string, seq<string>>,
                         m0: map<seq<string>, Double>, p0: map<string, seq<string>>, handed: Option<Found>)
    reads matches, placeholders
  {
    (matches != null ==> matches.contents == if handed.None? then m0 else handed.value.matches) &&
    (placeholders != null ==> placeholders.contents == if handed.None? then p0 else handed.value.placeholders)
  }

  /** `clear()` then `putAll()` on each non-null caller map. */
  method Refill(matches: MapRef?<seq<string>, Double>, placeholders: MapRef?<string, seq<string>>, f: Found)
    modifies matches, placeholders
    ensures matches != null ==> matches.contents == f.matches
    ensures placeholders != null ==> placeholders.contents == f.placeholders
  {
    if matches != null {
      matches.contents := f.matches;
    }
    if placeholders != null {
      placeholders.contents := f.placeholders;
    }
  }

  /** One turn of match's loop: query the chain at key `i`. */
  method MatchTurn<K>(mode: ScoreMode, order: nat, ghost cmds: map<K, Option<Command>>, ghost keys: seq<K>,
                      phrase: seq<string>, i: nat, ghost rs: seq<Scored<()>>, c: Option<Command>)
    returns (x: Outcome<Scored<()>>)
    requires i < |keys|
    requires forall k :: k in keys ==> k in cmds && Sound(mode, cmds[k])
    requires MatchRun(mode, order, cmds, keys[..i], phrase) == Return(rs)
    requires c == cmds[keys[i]]
    ensures MatchRun(mode, order, cmds, keys[..i + 1], phrase) == if x.Throw? then Throw(x.error) else Return(rs + [x.value])
    ensures x.Return? ==> Sound(mode, Some(x.value.command))
  {
    x := MatchOne(mode, order, c, phrase);
    MatchRunNext(mode, order, cmds, keys, phrase, i, rs);
  }

  /** One turn of scan's loop: scan the chain at key `i`. */
  method ScanTurn<K>(mode: ScoreMode, order: nat, ghost cmds: map<K, Option<Command>>, ghost keys: seq<K>,
                     phrase: seq<string>, i: nat, ghost rs: seq<Scored<Found>>, c: Option<Command>)
    returns (x: Outcome<Scored<Found>>)
    requires i < |keys|
    requires forall k :: k in keys ==> k in cmds && Sound(mode, cmds[k])
    requires ScanRun(mode, order, cmds, keys[..i], phrase) == Return(rs)
    requires c == cmds[keys[i]]
    ensures ScanRun(mode, order, cmds, keys[..i + 1], phrase) == if x.Throw? then Throw(x.error) else Return(rs + [x.value])
    ensures x.Return? ==> Sound(mode, Some(x.value.command))
  {
    x := ScanOne(mode, order, c, phrase);
    ScanRunNext(mode, order, cmds, keys, phrase, i, rs);
  }

  /** Before the loop reaches key `i`, that key still holds the chain it held at the start. */
  lemma ReplacedAt<K, T>(cmds: map<K, Option<Command>>, keys: seq<K>, i: nat, rs: seq<Scored<T>>)
    requires i < |keys| && |rs| == i && Distinct(keys) && keys[i] in cmds
    ensures keys[i] in Replaced(cmds, keys[..i], rs) && Replaced(cmds, keys[..i], rs)[keys[i]] == cmds[keys[i]]
  {
    DistinctAt(keys, i);
    ReplacedContents(cmds, keys[..i], rs, keys[i]);
  }

  lemma ReplacedStep<K, T>(cmds: map<K, Option<Command>>, keys: seq<K>, i: nat, rs: seq<Scored<T>>, x: Scored<T>)
    requires i < |keys| && |rs| == i
    ensures Replaced(cmds, keys[..i], rs)[keys[i] := Some(x.command)] == Replaced(cmds, keys[..i + 1], rs + [x])
  {
    assert keys[..i + 1][..i] == keys[..i];
    assert (rs + [x])[..i] == rs;
  }

  /**
   * new CommandSet(order, scoreMode): an order below 1 is rejected with an
   * IndexOutOfBoundsException.
   */
  method NewCommandSet<K(==)>(order: int, mode: ScoreMode) returns (r: Outcome<CommandSet<K>>)
    ensures r.Throw? <==> order < 1
    ensures r.Throw? ==> r.error == IndexOutOfBounds
    ensures r.Return? ==>
      fresh(r.value) && r.value.Valid() && r.value.order == order && r.value.mode == mode &&
      r.value.chains == map[] && r.value.keys == []
  {
    if order < 1 {
      return Throw(IndexOutOfBounds);
    }
    var cs := new CommandSet(order, mode);
    return Return(cs);
  }
}
