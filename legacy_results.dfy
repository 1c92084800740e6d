/**
 * markov's MatchResults, the accumulator of the older engine's queries. It
 * holds the same entries and pending capture as Result (module Matches,
 * which also models markov's Result), but a capture opens with the word
 * that started it, and _scanSingleMatch hands the capture to append itself.
 */
module LegacyResults {
  import opened Base
  import opened Matches

  /** MatchResults.createPlaceholder(keyword, word, offset): a new capture already holding `word`. */
  function StartCaptureWith(d: Details, keyword: string, word: string, offset: int): Details
  {
    d.(pending := Some(Placeholder(keyword, offset, [word])))
  }

  /**
   * The append that _scanSingleMatch calls with the capture it tracked: the
   * entry carries `p`, and the pending capture is dropped as after any append.
   */
  function AddEntryCarrying(d: Details, tokens: seq<string>, offset: int, avg: Double, p: Option<Placeholder>): Details
  {
    Details(d.entries + [Entry(tokens, offset, avg, p)], None)
  }

  /**
   * Opening a capture with a word is Result's createPlaceholder followed by
   * appendPlaceholder of that word; it replaces any capture in progress and
   * leaves the entries alone.
   */
  lemma StartWithIsStartThenCapture(d: Details, keyword: string, word: string, offset: int)
    ensures CaptureWord(StartCapture(d, keyword, offset), word) == Return(StartCaptureWith(d, keyword, word, offset))
    ensures StartCaptureWith(d, keyword, word, offset).entries == d.entries
  {
    assert [] + [word] == [word];
  }

  /**
   * A capture opened with `word`, fed `words` and closed by append ends up
   * on the new entry holding `word` followed by `words`, and nothing is left pending.
   */
  lemma CaptureWithRecorded(d: Details, keyword: string, word: string, offset: int, words: seq<string>,
                            tokens: seq<string>, at: int, avg: Double)
    ensures AppendAll(StartCaptureWith(d, keyword, word, offset), words).Return?
    ensures var d' := AddEntry(AppendAll(StartCaptureWith(d, keyword, word, offset), words).value, tokens, at, avg);
      d'.entries == d.entries + [Entry(tokens, at, avg, Some(Placeholder(keyword, offset, [word] + words)))] &&
      d'.pending == None
  {
    AppendAllGrows(StartCaptureWith(d, keyword, word, offset), words);
  }

  /** The three-argument append is the carrying append handed the pending capture. */
  lemma AddEntryIsCarryingPending(d: Details, tokens: seq<string>, offset: int, avg: Double)
    ensures AddEntry(d, tokens, offset, avg) == AddEntryCarrying(d, tokens, offset, avg, d.pending)
    ensures |AddEntry(d, tokens, offset, avg).entries| == |d.entries| + 1
  {
  }

  /** The MatchResults object: a list of entries and the capture in progress. */
  class MatchResults {
    var entries: seq<Entry>
    var pending: Option<Placeholder>

    function Value(): Details
      reads this
    {
      Details(entries, pending)
    }

    constructor ()
      ensures Value() == NoDetails
    {
      entries := [];
      pending := None;
    }

    /** append(matchPhrase, offset, avgProbability): one entry with the pending capture, which is then dropped. */
    method Append(tokens: seq<string>, offset: int, avg: Double)
      modifies this
      ensures Value() == AddEntry(old(Value()), tokens, offset, avg)
      ensures entries[..|old(entries)|] == old(entries)
    {
      entries := entries + [Entry(tokens, offset, avg, pending)];
      ResetPlaceholder();
    }

    /** The append _scanSingleMatch calls: one entry carrying `p`, then the pending capture dropped. */
    method AppendCarrying(tokens: seq<string>, offset: int, avg: Double, p: Option<Placeholder>)
      modifies this
      ensures Value() == AddEntryCarrying(old(Value()), tokens, offset, avg, p)
    {
      entries := entries + [Entry(tokens, offset, avg, p)];
      ResetPlaceholder();
    }

    /** createPlaceholder(keyword, word, offset): replace the capture by one holding exactly `word`. */
    method CreatePlaceholder(keyword: string, word: string, offset: int)
      modifies this
      ensures Value() == StartCaptureWith(old(Value()), keyword, word, offset)
      ensures pending.Some? && pending.value.words == [word] && entries == old(entries)
    {
      var p := Placeholder(keyword, offset, []);
      assert p.words + [word] == [word];
      pending := Some(p.(words := p.words + [word]));
    }

    /** appendPlaceholder: one more word for the capture; a NullPointerException without one. */
    method AppendPlaceholder(word: string) returns (r: Outcome<()>)
      modifies this
      ensures r.Return? <==> old(pending).Some?
      ensures r.Return? ==> Value() == CaptureWord(old(Value()), word).value
      ensures r.Throw? ==> r.error == NullPointer && Value() == old(Value())
    {
      if pending.None? {
        return Throw(NullPointer);
      }
      var p := pending.value;
      pending := Some(p.(words := p.words + [word]));
      return Return(());
    }

    /** resetPlaceholder: drop the capture; the entries stay. */
    method ResetPlaceholder()
      modifies this
      ensures Value() == DropCapture(old(Value()))
    {
      pending := None;
    }
  }
}
