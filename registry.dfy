/**
 * The static front end of the nlcmd engine: global settings (chain order
 * and score mode), one command set created lazily on the first
 * registration and keyed by the callbacks themselves, and dispatch of the
 * winning callback after match or scan.
 */
module Registry {
  import opened Base
  import opened Commands

  /**
   * A registered callback. The command set is keyed by the lambda object
   * itself, so `id` stands for the object's identity: registering the same
   * object again replaces its chain.
   */
  datatype Callback = MatchLambda(id: nat) | ScanLambda(id: nat)

  /** A scan callback run on the maps the winning chain handed back. */
  datatype Call = Call(id: nat, matches: map<seq<string>, Double>, placeholders: map<string, seq<string>>)

  /**
   * After match: no winner runs nothing, a match callback runs, a scan
   * callback is a ClassCastException.
   */
  function MatchDispatch(w: Option<Callback>): (r: Outcome<Option<nat>>)
    ensures r.Throw? <==> w.Some? && w.value.ScanLambda?
    ensures r.Throw? ==> r.error == ClassCast
    ensures r.Return? ==> (r.value.Some? <==> w.Some?) && (r.value.Some? ==> w.value == MatchLambda(r.value.value))
  {
    match w
    case None => Return(None)
    case Some(MatchLambda(id)) => Return(Some(id))
    case Some(ScanLambda(_)) => Throw(ClassCast)
  }

  /**
   * After scan: no winner runs nothing, a scan callback runs on the maps
   * the command set filled (still empty when no chain won), a match
   * callback is a ClassCastException.
   */
  function ScanDispatch(w: Option<Callback>, found: Option<Found>): (r: Outcome<Option<Call>>)
    ensures r.Throw? <==> w.Some? && w.value.MatchLambda?
    ensures r.Throw? ==> r.error == ClassCast
    ensures r.Return? ==> (r.value.Some? <==> w.Some?) && (r.value.Some? ==> w.value == ScanLambda(r.value.value.id))
    ensures r.Return? && r.value.Some? && found.Some? ==>
      r.value.value.matches == found.value.matches && r.value.value.placeholders == found.value.placeholders
  {
    match w
    case None => Return(None)
    case Some(MatchLambda(_)) => Throw(ClassCast)
    case Some(ScanLambda(id)) =>
      if found.None? then Return(Some(Call(id, map[], map[])))
      else Return(Some(Call(id, found.value.matches, found.value.placeholders)))
  }

  /**
   * The callback match runs is a registered match callback whose chain
   * scored the first strict maximum above -1.
   */
  lemma MatchRunsBest<T>(keys: seq<Callback>, rs: seq<Scored<T>>)
    requires |rs| == |keys|
    ensures var w := PickOf(Scores(rs)).index;
      MatchDispatch(KeyAt(keys, w)).Return? && MatchDispatch(KeyAt(keys, w)).value.Some? ==>
        w.Some? && keys[w.value] == MatchLambda(MatchDispatch(KeyAt(keys, w)).value.value) &&
        Chosen(Scores(rs), w)
  {
    PickChosen(Scores(rs));
  }

  /** Match never raises ClassCastException while only match callbacks are registered. */
  lemma MatchOnlyNeverCasts(keys: seq<Callback>, w: Option<nat>)
    requires w.Some? ==> w.value < |keys|
    requires forall i :: 0 <= i < |keys| ==> keys[i].MatchLambda?
    ensures MatchDispatch(KeyAt(keys, w)).Return?
  {
    if w.Some? {
      assert keys[w.value].MatchLambda?;
    }
  }

  /**
   * Nlcmd's static state. Once a command set exists, order and score mode
   * are frozen: the set was built with them and the setters refuse.
   */
  class Nlcmd {
    var order: int
    var mode: ScoreMode
    var cs: CommandSet?<Callback>

    ghost predicate Valid()
      reads this, cs
    {
      order >= 1 && (cs != null ==> cs.Valid() && cs.order == order && cs.mode == mode)
    }

    /** The static initialisers: order 2, LONGEST_AVG_REL, no actions. */
    constructor ()
      ensures Valid() && order == 2 && mode == LongestAvgRel && cs == null
    {
      order := 2;
      mode := LongestAvgRel;
      cs := null;
    }

    /** setScoreMode: refused once actions are registered. */
    method SetScoreMode(m: ScoreMode) returns (r: Outcome<()>)
      requires Valid()
      modifies this
      ensures Valid() && cs == old(cs) && order == old(order)
      ensures r.Throw? <==> old(cs) != null
      ensures r.Throw? ==> r.error == IllegalState && mode == old(mode)
      ensures r.Return? ==> mode == m
    {
      if cs != null {
        return Throw(IllegalState);
      }
      mode := m;
      return Return(());
    }

    /** setOrder: refused once actions are registered, then for an order below 1. */
    method SetOrder(o: int) returns (r: Outcome<()>)
      requires Valid()
      modifies this
      ensures Valid() && cs == old(cs) && mode == old(mode)
      ensures old(cs) != null ==> r == Throw(IllegalState) && order == old(order)
      ensures old(cs) == null && o < 1 ==> r == Throw(IndexOutOfBounds) && order == old(order)
      ensures old(cs) == null && o >= 1 ==> r == Return(()) && order == o
    {
      if cs != null {
        return Throw(IllegalState);
      }
      if o < 1 {
        return Throw(IndexOutOfBounds);
      }
      order := o;
      return Return(());
    }

    /** reset: forget every action; the settings stay and become settable again. */
    method Reset()
      requires Valid()
      modifies this
      ensures Valid() && cs == null && order == old(order) && mode == old(mode)
    {
      cs := null;
    }

    /**
     * action(phrases, callback), both overloads: create the command set
     * with the current settings if there is none, then put the callback
     * with its training phrases. A put that throws leaves the (possibly
     * new) set unchanged.
     */
    method Action(phrases: seq<seq<string>>, callback: Callback) returns (r: Outcome<()>)
      requires Valid()
      modifies this, cs
      ensures Valid() && order == old(order) && mode == old(mode) && cs != null
      ensures old(cs) != null ==> cs == old(cs)
      ensures old(cs) == null ==> fresh(cs)
      ensures var chains := old(if cs == null then map[] else cs.chains);
        var keys := old(if cs == null then [] else cs.keys);
        var p := PutSpec(mode, order, phrases);
        (r.Throw? <==> p.Throw?) && (r.Throw? ==> r.error == p.error && cs.chains == chains && cs.keys == keys) &&
        (r.Return? ==>
          cs.chains == chains[callback := p.value] &&
          cs.keys == if callback in chains then keys else keys + [callback])
    {
      if cs == null {
        var n := NewCommandSet<Callback>(order, mode);
        cs := n.value;
      }
      r := cs.Put(callback, phrases);
    }

    /**
     * match(phrase): nothing happens without actions; otherwise the command
     * set's match picks the key and the winner is dispatched.
     */
    method Match(phrase: seq<string>) returns (r: Outcome<Option<nat>>)
      requires Valid()
      modifies cs
      ensures Valid()
      ensures cs == null ==> r == Return(None)
      ensures cs != null ==> (cs.keys == old(cs.keys) &&
        var run := MatchRun(mode, order, old(cs.chains), cs.keys, phrase);
        (run.Throw? ==> r == Throw(run.error)) &&
        (run.Return? ==>
          r == MatchDispatch(KeyAt(cs.keys, PickOf(Scores(run.value)).index)) &&
          cs.chains == Replaced(old(cs.chains), cs.keys, run.value)))
    {
      if cs == null {
        return Return(None);
      }
      var w :- cs.Match(phrase);
      r := MatchDispatch(w);
    }

    /**
     * scan(phrase): nothing happens without actions; otherwise the command
     * set scans into two fresh maps and the winner is dispatched with them.
     */
    method Scan(phrase: seq<string>) returns (r: Outcome<Option<Call>>)
      requires Valid()
      modifies cs
      ensures Valid()
      ensures cs == null ==> r == Return(None)
      ensures cs != null ==> (cs.keys == old(cs.keys) &&
        var run := ScanRun(mode, order, old(cs.chains), cs.keys, phrase);
        (run.Throw? ==> r == Throw(run.error)) &&
        (run.Return? ==>
          r == ScanDispatch(KeyAt(cs.keys, PickOf(Scores(run.value)).index), Winner(run.value)) &&
          cs.chains == Replaced(old(cs.chains), cs.keys, run.value)))
    {
      if cs == null {
        return Return(None);
      }
      var matches := new MapRef<seq<string>, Double>();
      var placeholders := new MapRef<string, seq<string>>();
      var w :- cs.Scan(phrase, matches, placeholders);
      match w
      case None =>
        r := Return(None);
      case Some(MatchLambda(_)) =>
        r := Throw(ClassCast);
      case Some(ScanLambda(id)) =>
        r := Return(Some(Call(id, matches.contents, placeholders.contents)));
    }
  }
}
