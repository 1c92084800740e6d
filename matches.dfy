/**
 * Match details collected while scanning a phrase: one entry per matched
 * sub-phrase, each carrying the placeholder capture that was pending when it
 * was recorded. Models nlcmd's Result (and markov's Result, which offers the
 * same operations without the two getters and extractMatches).
 */
module Matches {
  import opened Base

  /** A placeholder capture: the slot token, its offset, and the input words it consumed. */
  datatype Placeholder = Placeholder(token: string, offset: int, words: seq<string>)

  /** A matched sub-phrase: its tokens, its offset in the query phrase, its average probability. */
  datatype Entry = Entry(tokens: seq<string>, offset: int, avg: Double, placeholder: Option<Placeholder>)

  /** The state of a Result object: the entries and the capture in progress. */
  datatype Details = Details(entries: seq<Entry>, pending: Option<Placeholder>)

  const NoDetails := Details([], None)

  /** Result.append: record an entry carrying the pending capture, then drop the capture. */
  function AddEntry(d: Details, tokens: seq<string>, offset: int, avg: Double): Details
  {
    Details(d.entries + [Entry(tokens, offset, avg, d.pending)], None)
  }

  /** Result.createPlaceholder: start a new, empty capture for `token`. */
  function StartCapture(d: Details, token: string, offset: int): Details
  {
    d.(pending := Some(Placeholder(token, offset, [])))
  }

  /** Result.appendPlaceholder: add a word to the capture; a NullPointerException without one. */
  function CaptureWord(d: Details, word: string): Outcome<Details>
  {
    match d.pending
    case None => Throw(NullPointer)
    case Some(p) => Return(d.(pending := Some(p.(words := p.words + [word]))))
  }

  /** Result.resetPlaceholder */
  function DropCapture(d: Details): Details
  {
    d.(pending := None)
  }

  /** A capture just started and fed one word holds exactly that word. */
  lemma FirstWordCaptured(d: Details, token: string, offset: int, word: string)
    ensures CaptureWord(StartCapture(d, token, offset), word) ==
      Return(d.(pending := Some(Placeholder(token, offset, [word]))))
  {
    assert [] + [word] == [word];
  }

  /** Appends `words` one by one to the pending capture. */
  function AppendAll(d: Details, words: seq<string>): Outcome<Details>
    decreases |words|
  {
    if words == [] then Return(d)
    else
      var d' :- CaptureWord(d, words[0]);
      AppendAll(d', words[1..])
  }

  /**
   * A capture started for `token`, fed `words` and closed by append ends up
   * on the new entry with exactly those words, and no capture is left pending.
   */
  lemma {:induction false} CaptureRecorded(d: Details, token: string, offset: int, words: seq<string>,
                                           tokens: seq<string>, at: int, avg: Double)
    ensures AppendAll(StartCapture(d, token, offset), words).Return?
    ensures var d' := AddEntry(AppendAll(StartCapture(d, token, offset), words).value, tokens, at, avg);
      d'.entries == d.entries + [Entry(tokens, at, avg, Some(Placeholder(token, offset, words)))] &&
      d'.pending == None
  {
    var started := StartCapture(d, token, offset);
    AppendAllGrows(started, words);
    assert [] + words == words;
  }

  lemma {:induction false} AppendAllGrows(d: Details, words: seq<string>)
    requires d.pending.Some?
    ensures AppendAll(d, words).Return?
    ensures AppendAll(d, words).value ==
      d.(pending := Some(d.pending.value.(words := d.pending.value.words + words)))
    decreases |words|
  {
    if words != [] {
      var d' := CaptureWord(d, words[0]).value;
      assert AppendAll(d, words) == AppendAll(d', words[1..]);
      AppendAllGrows(d', words[1..]);
      assert d'.pending.value.words + words[1..] == d.pending.value.words + words;
    } else {
      assert d.pending.value.words + words == d.pending.value.words;
    }
  }

  /** The phrase -> probability map that extractMatches fills: later entries overwrite earlier ones. */
  function PutMatches(m: map<seq<string>, Double>, es: seq<Entry>): map<seq<string>, Double>
    decreases |es|
  {
    if es == [] then m else PutMatches(m[es[0].tokens := es[0].avg], es[1..])
  }

  /** The token -> captured words map that extractMatches fills. */
  function PutPlaceholders(m: map<string, seq<string>>, es: seq<Entry>): map<string, seq<string>>
    decreases |es|
  {
    if es == [] then m
    else
      var m' := match es[0].placeholder
        case None => m
        case Some(p) => m[p.token := p.words];
      PutPlaceholders(m', es[1..])
  }

  /** `i` is the last entry whose tokens are `k`. */
  predicate LastWithTokens(es: seq<Entry>, k: seq<string>, i: int)
  {
    0 <= i < |es| && es[i].tokens == k && forall j :: i < j < |es| ==> es[j].tokens != k
  }

  /**
   * extractMatches: a key is present iff it was present before or some entry
   * has those tokens, and then it holds the probability of the last such entry.
   */
  lemma {:induction false} PutMatchesContents(m: map<seq<string>, Double>, es: seq<Entry>, k: seq<string>)
    ensures k in PutMatches(m, es) <==> k in m || exists i :: 0 <= i < |es| && es[i].tokens == k
    ensures (forall i :: 0 <= i < |es| ==> es[i].tokens != k) && k in m ==> PutMatches(m, es)[k] == m[k]
    ensures forall i :: LastWithTokens(es, k, i) ==> PutMatches(m, es)[k] == es[i].avg
    decreases |es|
  {
    if es != [] {
      var m' := m[es[0].tokens := es[0].avg];
      PutMatchesContents(m', es[1..], k);
      forall i | 0 <= i < |es| - 1 ensures es[1..][i] == es[i + 1] { }
      if exists i :: 0 <= i < |es| && es[i].tokens == k {
        var i :| 0 <= i < |es| && es[i].tokens == k;
        if i > 0 { assert es[1..][i - 1].tokens == k; }
      }
      forall i | LastWithTokens(es, k, i) ensures PutMatches(m, es)[k] == es[i].avg {
        if i > 0 {
          assert LastWithTokens(es[1..], k, i - 1);
        } else {
          assert forall j :: 0 <= j < |es| - 1 ==> es[1..][j].tokens != k;
        }
      }
    }
  }

  /** Entry `i` carries a capture for `t`. */
  predicate CapturesToken(es: seq<Entry>, t: string, i: int)
    requires 0 <= i < |es|
  {
    es[i].placeholder.Some? && es[i].placeholder.value.token == t
  }

  /** `i` is the last entry that carries a capture for `t`. */
  predicate LastWithToken(es: seq<Entry>, t: string, i: int)
  {
    0 <= i < |es| && CapturesToken(es, t, i) && forall j :: i < j < |es| ==> !CapturesToken(es, t, j)
  }

  /**
   * extractMatches on placeholders: a token is present iff it was present
   * before or some entry carries a capture for it; it then holds the words of
   * the last such capture, and a token no entry captures keeps its old words.
   */
  lemma {:induction false} PutPlaceholdersContents(m: map<string, seq<string>>, es: seq<Entry>, t: string)
    ensures t in PutPlaceholders(m, es) <==> t in m || exists i :: 0 <= i < |es| && CapturesToken(es, t, i)
    ensures (forall i :: 0 <= i < |es| ==> !CapturesToken(es, t, i)) && t in m ==> PutPlaceholders(m, es)[t] == m[t]
    ensures forall i :: LastWithToken(es, t, i) ==> PutPlaceholders(m, es)[t] == es[i].placeholder.value.words
    decreases |es|
  {
    if es != [] {
      var m' := match es[0].placeholder
        case None => m
        case Some(p) => m[p.token := p.words];
      assert PutPlaceholders(m, es) == PutPlaceholders(m', es[1..]);
      assert CapturesToken(es, t, 0) ==> t in m' && m'[t] == es[0].placeholder.value.words;
      assert !CapturesToken(es, t, 0) ==> (t in m' <==> t in m) && (t in m ==> m'[t] == m[t]);
      PutPlaceholdersContents(m', es[1..], t);
      forall i | 0 <= i < |es| - 1 ensures es[1..][i] == es[i + 1] { }
      assert forall i :: 0 <= i < |es| - 1 ==> (CapturesToken(es[1..], t, i) <==> CapturesToken(es, t, i + 1));
      if exists i :: 0 <= i < |es| && CapturesToken(es, t, i) {
        var i :| 0 <= i < |es| && CapturesToken(es, t, i);
        if i > 0 { assert CapturesToken(es[1..], t, i - 1); }
      }
      forall i | LastWithToken(es, t, i) ensures PutPlaceholders(m, es)[t] == es[i].placeholder.value.words {
        if i > 0 {
          assert LastWithToken(es[1..], t, i - 1);
        } else {
          assert forall j :: 0 <= j < |es| - 1 ==> !CapturesToken(es[1..], t, j);
        }
      }
    }
  }

  /** The Result object: a list of entries and the capture in progress. */
  class Result {
    var entries: seq<Entry>
    var pending: Option<Placeholder>

    function Value(): Details
      reads this
    {
      Details(entries, pending)
    }

    constructor ()
      ensures Value() == NoDetails
    {
      entries := [];
      pending := None;
    }

    method Append(tokens: seq<string>, offset: int, avg: Double)
      modifies this
      ensures Value() == AddEntry(old(Value()), tokens, offset, avg)
    {
      entries := entries + [Entry(tokens, offset, avg, pending)];
      ResetPlaceholder();
    }

    method CreatePlaceholder(token: string, offset: int)
      modifies this
      ensures Value() == StartCapture(old(Value()), token, offset)
    {
      pending := Some(Placeholder(token, offset, []));
    }

    method AppendPlaceholder(word: string) returns (r: Outcome<()>)
      modifies this
      ensures r.Return? <==> CaptureWord(old(Value()), word).Return?
      ensures r.Return? ==> Value() == CaptureWord(old(Value()), word).value
      ensures r.Throw? ==> r.error == NullPointer && Value() == old(Value())
    {
      if pending.None? {
        return Throw(NullPointer);
      }
      var p := pending.value;
      pending := Some(p.(words := p.words + [word]));
      return Return(());
    }

    method ResetPlaceholder()
      modifies this
      ensures Value() == DropCapture(old(Value()))
    {
      pending := None;
    }

    /** Result.getPhrase: the first entry's tokens; NoSuchElementException when there is none. */
    method GetPhrase() returns (r: Outcome<seq<string>>)
      ensures entries == [] <==> r == Throw(NoSuchElement)
      ensures r.Return? ==> r.value == entries[0].tokens
    {
      if entries == [] {
        return Throw(NoSuchElement);
      }
      return Return(entries[0].tokens);
    }

    /** Result.getPlaceholder: the first entry's capture (possibly none); NoSuchElementException without entries. */
    method GetPlaceholder() returns (r: Outcome<Option<Placeholder>>)
      ensures entries == [] <==> r == Throw(NoSuchElement)
      ensures r.Return? ==> r.value == entries[0].placeholder
    {
      if entries == [] {
        return Throw(NoSuchElement);
      }
      return Return(entries[0].placeholder);
    }

    /**
     * Result.extractMatches: copy every entry into the caller's maps. A null
     * `matches` map fails on the first entry; a null `placeholders` map is skipped.
     */
    method ExtractMatches(matches: MapRef?<seq<string>, Double>, placeholders: MapRef?<string, seq<string>>)
      returns (r: Outcome<()>)
      modifies matches, placeholders
      ensures r.Throw? <==> entries != [] && matches == null
      ensures r.Throw? ==> r.error == NullPointer
      ensures matches != null ==> matches.contents == PutMatches(old(matches.contents), entries)
      ensures placeholders != null && matches != null ==>
        placeholders.contents == PutPlaceholders(old(placeholders.contents), entries)
      ensures placeholders != null && matches == null ==> placeholders.contents == old(placeholders.contents)
    {
      if entries != [] && matches == null {
        return Throw(NullPointer);
      }
      var i := 0;
      while i < |entries|
        invariant 0 <= i <= |entries|
        invariant matches != null ==>
          PutMatches(matches.contents, entries[i..]) == PutMatches(old(matches.contents), entries)
        invariant placeholders != null && matches != null ==>
          PutPlaceholders(placeholders.contents, entries[i..]) == PutPlaceholders(old(placeholders.contents), entries)
        invariant matches == null ==> i == 0 && entries == []
        invariant placeholders != null && matches == null ==> placeholders.contents == old(placeholders.contents)
      {
        var e := entries[i];
        assert entries[i..][1..] == entries[i + 1..];
        matches.contents := matches.contents[e.tokens := e.avg];
        if placeholders != null && e.placeholder.Some? {
          placeholders.contents := placeholders.contents[e.placeholder.value.token := e.placeholder.value.words];
        }
        i := i + 1;
      }
      return Return(());
    }
  }
}
