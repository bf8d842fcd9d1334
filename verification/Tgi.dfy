/** The TGI hook's stop filter object and its resumed stream (daemon/integrations/tgi.py). */
module Tgi {
  import opened Texts
  import opened StopFilter
  import opened Buffer

  /** SlidingWindowStopFilter(stop_sequences): empty words are dropped. */
  function Usable(stops: seq<string>): (r: seq<string>)
    ensures WellFormed(r)
    ensures forall w :: w in r <==> w in stops && w != ""
  {
    if stops == [] then []
    else if stops[0] != "" then [stops[0]] + Usable(stops[1..])
    else Usable(stops[1..])
  }

  /** Of several words the order is kept, and of one exactly the empty one is dropped. */
  lemma {:induction false} UsableInOrder(before: seq<string>, word: string, after: seq<string>)
    ensures Usable(before + [word] + after) == Usable(before) + (if word == "" then [] else [word]) + Usable(after)
    decreases |before|
  {
    var all := before + [word] + after;
    if before == [] {
      assert all == [word] + after && all[1..] == after;
      assert [] + Usable(after) == Usable(after);
    } else {
      UsableInOrder(before[1..], word, after);
      assert all[0] == before[0] && all[1..] == before[1..] + [word] + after;
    }
  }

  class SlidingWindowStopFilter {
    const stopSequences: seq<string>
    var buffer: string
    var matchedStop: bool
    ghost var pieces: seq<string>    // everything fed so far

    function View(): State
      reads this
    {
      State(buffer, matchedStop)
    }

    /** The state is the one the whole history leads to. */
    ghost predicate Valid()
      reads this
    {
      WellFormed(stopSequences) && View() == FeedAll(stopSequences, INITIAL, pieces).0
    }

    constructor (stopSequences: seq<string>)
      ensures Valid() && pieces == [] && this.stopSequences == Usable(stopSequences)
    {
      this.stopSequences := Usable(stopSequences);
      buffer, matchedStop, pieces := "", false, [];
    }

    method Feed(text: string) returns (emitted: seq<string>)
      requires Valid()
      modifies this
      ensures Valid() && pieces == old(pieces) + [text]
      ensures (View(), emitted) == StopFilter.Feed(stopSequences, old(View()), text)
      ensures FeedAll(stopSequences, INITIAL, pieces).1 == FeedAll(stopSequences, INITIAL, old(pieces)).1 + emitted
      ensures forall k :: 0 <= k < |emitted| ==> emitted[k] != ""
      ensures matchedStop <==> !NoStop(stopSequences, Join(pieces))
    {
      FeedAllSnoc(stopSequences, INITIAL, pieces, text);
      FilterInvariant(stopSequences, pieces + [text]);
      hide FeedAll, Join, NoStop, WellFormed, StopFilter.Feed;
      emitted := Scan(text);
      pieces := pieces + [text];
    }

    method Scan(text: string) returns (emitted: seq<string>)
      modifies this`buffer, this`matchedStop
      ensures (View(), emitted) == StopFilter.Feed(stopSequences, old(View()), text)
      ensures forall k :: 0 <= k < |emitted| ==> emitted[k] != ""
    {
      hide Contains, IndexOf, FirstListed, Held;
      emitted := [];
      if matchedStop || text == "" {
        return;
      }
      if stopSequences == [] {
        return [text];
      }
      var candidate := buffer + text;
      var k := 0;
      while k < |stopSequences|
        invariant k <= |stopSequences|
        invariant forall j: nat :: j < k ==> !Contains(candidate, stopSequences[j])
        invariant emitted == [] && View() == old(View())
      {
        if Contains(candidate, stopSequences[k]) {
          FirstListedIs(stopSequences, candidate, k);
          var prefixSafe := candidate[..IndexOf(candidate, stopSequences[k])];
          if prefixSafe != "" {
            emitted := emitted + [prefixSafe];
          }
          assert emitted == NonEmpty(prefixSafe);
          buffer := "";
          matchedStop := true;
          return;
        }
        k := k + 1;
      }
      FirstListedIs(stopSequences, candidate, |stopSequences|);
      var length := HoldLength(stopSequences, candidate);
      var safeLen := |candidate| - length;
      buffer := candidate[safeLen..];
      if candidate[..safeLen] != "" {
        emitted := emitted + [candidate[..safeLen]];
      }
      assert emitted == NonEmpty(candidate[..safeLen]);
    }

    /** The search for the longest suffix of the candidate that begins a stop word: the whole candidate
        first, then ever shorter suffixes. */
    static method HoldLength(stops: seq<string>, candidate: string) returns (length: nat)
      requires candidate != ""
      ensures length == Held(stops, candidate)
    {
      if StartsSome(stops, candidate) {
        assert Suffix(candidate, |candidate|) == candidate;
        return |candidate|;
      }
      length := 0;
      var i := 1;
      assert Suffix(candidate, |candidate|) == candidate;
      while i < |candidate|
        invariant 1 <= i <= |candidate|
        invariant HeldUpTo(stops, candidate, |candidate|) == HeldUpTo(stops, candidate, |candidate| - i)
      {
        var suffix := candidate[i..];
        assert suffix == Suffix(candidate, |candidate| - i);
        if StartsSome(stops, suffix) {
          length := |suffix|;
          break;
        }
        i := i + 1;
      }
    }

    /** Nothing is left to emit at the end of a stream. */
    method FlushFinal() returns (emitted: seq<string>)
      requires Valid()
      modifies this`buffer
      ensures emitted == [] && buffer == ""
      ensures (View(), emitted) == StopFilter.FlushFinal(stopSequences, old(View()))
    {
      FlushIsSilent(stopSequences, pieces);
      emitted := StopFilter.FlushFinal(stopSequences, View()).1;
      buffer := "";
    }
  }

  lemma {:induction false} FeedAllSnoc(stops: seq<string>, st: State, pieces: seq<string>, text: string)
    ensures var (st1, parts) := FeedAll(stops, st, pieces);
            var (st2, emitted) := StopFilter.Feed(stops, st1, text);
            FeedAll(stops, st, pieces + [text]) == (st2, parts + emitted)
    decreases |pieces|
  {
    hide StopFilter.Feed;
    if pieces == [] {
      assert pieces + [text] == [text] && [text][1..] == [];
      var (st2, emitted) := StopFilter.Feed(stops, st, text);
      assert [] + emitted == emitted && emitted + [] == emitted;
    } else {
      var (next, first) := StopFilter.Feed(stops, st, pieces[0]);
      FeedAllSnoc(stops, next, pieces[1..], text);
      assert (pieces + [text])[1..] == pieces[1..] + [text];
      var (st1, parts) := FeedAll(stops, next, pieces[1..]);
      var (st2, emitted) := StopFilter.Feed(stops, st1, text);
      assert first + (parts + emitted) == (first + parts) + emitted;
    }
  }

  lemma {:induction false} FirstListedIs(stops: seq<string>, text: string, k: nat)
    requires k <= |stops|
    requires forall j: nat :: j < k ==> !Contains(text, stops[j])
    requires k < |stops| ==> Contains(text, stops[k])
    ensures FirstListed(stops, text) == k
  {
    hide Contains;
  }

  // ---------------------------------------------------------------------
  // stream_resumed
  // ---------------------------------------------------------------------

  /** One line of the response, already parsed; a line whose processing raises ends the stream without a flush. */
  datatype Line = Skipped | Special | Text(text: string, isFinal: bool) | DoneLine | Raising

  const DEFAULT_STOPS: seq<string> := ["<|eot_id|>", "</s>"]

  function StopWords(requested: seq<string>): seq<string> {
    if requested == [] then DEFAULT_STOPS else requested
  }

  /** The texts that reach the filter: up to [DONE], a line that raises, a final line or the first stop word. */
  function FedTexts(stops: seq<string>, sofar: seq<string>, lines: seq<Line>): seq<string>
    decreases |lines|
  {
    if lines == [] || lines[0].DoneLine? || lines[0].Raising? then sofar
    else if lines[0].Text? then
      var fed := sofar + [lines[0].text];
      if lines[0].isFinal || FeedAll(stops, INITIAL, fed).0.matched then fed else FedTexts(stops, fed, lines[1..])
    else FedTexts(stops, sofar, lines[1..])
  }

  /** The texts of the first n lines. */
  function TextsOf(lines: seq<Line>, n: nat): seq<string>
    decreases n
  {
    if n == 0 || n > |lines| then []
    else TextsOf(lines, n - 1) + if lines[n - 1].Text? then [lines[n - 1].text] else []
  }

  /** Line k, whose text has reached the filter, ends the stream: it is final, or a stop word is complete. */
  ghost predicate Concludes(stops: seq<string>, lines: seq<Line>, k: nat)
    requires k < |lines|
  {
    lines[k].Text? && (lines[k].isFinal || !NoStop(stops, Join(TextsOf(lines, k + 1))))
  }

  /** The stream is read up to line n: to its end, up to [DONE] or a line that raises, or up to and including the first
      line that concludes it. */
  ghost predicate EndsAt(stops: seq<string>, lines: seq<Line>, n: nat) {
    && n <= |lines|
    && (forall k: nat :: k < n ==> !lines[k].DoneLine? && !lines[k].Raising?)
    && (forall k: nat :: k + 1 < n ==> !Concludes(stops, lines, k))
    && (n == |lines| || lines[n].DoneLine? || lines[n].Raising? || (n > 0 && Concludes(stops, lines, n - 1)))
  }

  ghost predicate StillOpen(stops: seq<string>, lines: seq<Line>, n: nat) {
    && n <= |lines|
    && (forall k: nat :: k < n ==> !lines[k].DoneLine? && !lines[k].Raising? && !Concludes(stops, lines, k))
  }

  lemma OpenOneMore(stops: seq<string>, lines: seq<Line>, n: nat)
    requires n < |lines| && StillOpen(stops, lines, n) && !lines[n].DoneLine? && !lines[n].Raising?
    ensures if Concludes(stops, lines, n) then EndsAt(stops, lines, n + 1) else StillOpen(stops, lines, n + 1)
  {
    hide Concludes;
  }

  lemma OpenEnds(stops: seq<string>, lines: seq<Line>, n: nat)
    requires StillOpen(stops, lines, n) && (n == |lines| || lines[n].DoneLine? || lines[n].Raising?)
    ensures EndsAt(stops, lines, n)
  {
    hide Concludes;
  }

  /** The texts that reach the filter are those of the lines up to that line. */
  lemma {:induction false} FedUpTo(stops: seq<string>, lines: seq<Line>, n: nat) returns (last: nat)
    requires WellFormed(stops) && n <= |lines| && StillOpen(stops, lines, n)
    ensures EndsAt(stops, lines, last) && FedTexts(stops, TextsOf(lines, n), lines[n..]) == TextsOf(lines, last)
    decreases |lines| - n
  {
    hide StillOpen, EndsAt, FeedAll, NoStop, Join, WellFormed, Concludes;
    if n == |lines| || lines[n].DoneLine? || lines[n].Raising? {
      OpenEnds(stops, lines, n);
      last := n;
    } else {
      FedStep(stops, TextsOf(lines, n), lines, n);
      OpenOneMore(stops, lines, n);
      ConcludesWhenMatched(stops, lines, n);
      if Concludes(stops, lines, n) {
        last := n + 1;
      } else {
        assert TextsOf(lines, n) + [] == TextsOf(lines, n);
        last := FedUpTo(stops, lines, n + 1);
      }
    }
  }

  lemma ConcludesWhenMatched(stops: seq<string>, lines: seq<Line>, n: nat)
    requires WellFormed(stops) && n < |lines|
    ensures Concludes(stops, lines, n)
            <==> lines[n].Text?
                 && (lines[n].isFinal || FeedAll(stops, INITIAL, TextsOf(lines, n) + [lines[n].text]).0.matched)
  {
    hide FeedAll, NoStop, Join, WellFormed;
    if lines[n].Text? {
      FilterInvariant(stops, TextsOf(lines, n) + [lines[n].text]);
    }
  }

  function Tokens(chunks: seq<TokenChunk>): seq<string> {
    seq(|chunks|, i requires 0 <= i < |chunks| => chunks[i].token)
  }

  /** The chunks are numbered without a gap from the first id the client misses, none is empty, and together
      they spell what the filter lets through of the text. */
  method StreamResumed(requestId: string, lastFlushed: int, requestedStops: seq<string>, lines: seq<Line>)
    returns (chunks: seq<TokenChunk>)
    ensures NumberedFrom(chunks, if lastFlushed + 1 < 0 then 0 else lastFlushed + 1)
    ensures forall k :: 0 <= k < |chunks| ==>
              chunks[k].token != "" && chunks[k].requestId == requestId && !chunks[k].isFinal
    ensures var stops := Usable(if requestedStops == [] then ["<|eot_id|>", "</s>"] else requestedStops);
            exists n: nat :: EndsAt(stops, lines, n) && Join(Tokens(chunks)) == Output(stops, TextsOf(lines, n))
  {
    hide FeedAll, StopFilter.Feed, FedTexts, Join, NoStop, WellFormed, EndsAt;
    var nextSeq := lastFlushed + 1;
    if nextSeq < 0 {
      nextSeq := 0;
    }
    ghost var first := nextSeq;
    chunks := [];
    var filter := new SlidingWindowStopFilter(StopWords(requestedStops));
    var n := 0;
    ghost var stops := filter.stopSequences;
    ghost var last := FedUpTo(stops, lines, 0);
    var ended := false;
    NothingFed(stops);
    while n < |lines| && !ended
      invariant n <= |lines| && filter.Valid() && filter.stopSequences == stops && fresh(filter)
      invariant nextSeq == first + |chunks| && NumberedFrom(chunks, first)
      invariant forall k :: 0 <= k < |chunks| ==>
                  chunks[k].token != "" && chunks[k].requestId == requestId && !chunks[k].isFinal
      invariant Tokens(chunks) == FeedAll(stops, INITIAL, filter.pieces).1
      invariant FedTexts(stops, [], lines)
             == if ended then filter.pieces else FedTexts(stops, filter.pieces, lines[n..])
      decreases |lines| - n, !ended
    {
      var line := lines[n];
      FedStep(stops, filter.pieces, lines, n);
      n := n + 1;
      if line.Raising? {
        FlushIsSilent(stops, filter.pieces);
        assert FeedAll(stops, INITIAL, filter.pieces).1 + [] == FeedAll(stops, INITIAL, filter.pieces).1;
        return;
      }
      if line.DoneLine? {
        ended := true;
      } else if line.Text? {
        var safe := filter.Feed(line.text);
        chunks := AppendNumbered(chunks, requestId, nextSeq, safe);
        nextSeq := nextSeq + |safe|;
        ended := line.isFinal || filter.matchedStop;
      }
    }
    ghost var fed := filter.pieces;
    FedEnd(stops, fed, lines);
    assert FedTexts(stops, [], lines) == fed;
    FlushIsSilent(stops, fed);
    var flushed := filter.FlushFinal();
    assert FeedAll(stops, INITIAL, fed).1 + [] == FeedAll(stops, INITIAL, fed).1;
    chunks := AppendNumbered(chunks, requestId, nextSeq, flushed);
  }

  lemma NothingFed(stops: seq<string>)
    ensures FeedAll(stops, INITIAL, []) == (INITIAL, []) && Tokens([]) == []
  {
  }

  /** What line n adds to the texts fed. */
  lemma FedStep(stops: seq<string>, sofar: seq<string>, lines: seq<Line>, n: nat)
    requires n < |lines|
    ensures FedTexts(stops, sofar, lines[n..])
         == if lines[n].DoneLine? || lines[n].Raising? then sofar
            else if lines[n].Text? then
              var fed := sofar + [lines[n].text];
              if lines[n].isFinal || FeedAll(stops, INITIAL, fed).0.matched then fed
              else FedTexts(stops, fed, lines[n + 1..])
            else FedTexts(stops, sofar, lines[n + 1..])
  {
    hide FeedAll;
    assert lines[n..][0] == lines[n] && lines[n..][1..] == lines[n + 1..];
  }

  lemma FedEnd(stops: seq<string>, sofar: seq<string>, lines: seq<Line>)
    ensures FedTexts(stops, sofar, lines[|lines|..]) == sofar
  {
  }

  /** The yield loop: one chunk for each text. */
  method AppendNumbered(chunks: seq<TokenChunk>, requestId: string, nextSeq: int, texts: seq<string>)
    returns (r: seq<TokenChunk>)
    ensures |r| == |chunks| + |texts|
    ensures forall k :: 0 <= k < |chunks| ==> r[k] == chunks[k]
    ensures forall k :: |chunks| <= k < |r| ==>
              && r[k].requestId == requestId && !r[k].isFinal
              && r[k].sequenceId == nextSeq + k - |chunks|
              && r[k].token == texts[k - |chunks|]
    ensures Tokens(r) == Tokens(chunks) + texts
  {
    r := chunks;
    for i := 0 to |texts|
      invariant |r| == |chunks| + i
      invariant forall k :: 0 <= k < |chunks| ==> r[k] == chunks[k]
      invariant forall k :: |chunks| <= k < |r| ==>
                  && r[k].requestId == requestId && !r[k].isFinal
                  && r[k].sequenceId == nextSeq + k - |chunks|
                  && r[k].token == texts[k - |chunks|]
    {
      r := r + [TokenChunk(requestId, nextSeq + i, texts[i], false)];
    }
  }

  /** A deduplicator that holds the session's last flushed id passes every resumed chunk. */
  lemma ResumedChunksPass(lastFlushed: int, chunks: seq<TokenChunk>)
    requires lastFlushed >= -1 && NumberedFrom(chunks, lastFlushed + 1)
    ensures PassThrough(lastFlushed, chunks) == Passage(chunks, lastFlushed + |chunks|, false)
  {
    ReplayTolerance(lastFlushed, chunks, lastFlushed + 1);
  }
}
