/** The sliding window that keeps stop words, and beginnings of stop words, from the client
    (daemon/integrations/tgi.py). */
module StopFilter {
  import opened Sequences
  import opened Texts

  // ---------------------------------------------------------------------
  // Occurrences
  // ---------------------------------------------------------------------

  predicate OccursAt(text: string, word: string, i: nat) {
    i + |word| <= |text| && text[i..i + |word|] == word
  }

  /** Occurrences in a part of a text are those of the text that lie in it. */
  lemma OccursInPart(text: string, lo: nat, hi: nat, word: string, i: nat)
    requires lo <= hi <= |text|
    ensures OccursAt(text[lo..hi], word, i) <==> OccursAt(text, word, lo + i) && lo + i + |word| <= hi
  {
    if i + |word| <= hi - lo {
      PartOfPart(text, lo, hi, i, i + |word|);
    }
  }

  predicate Contains(text: string, word: string) {
    exists i: nat :: i <= |text| && OccursAt(text, word, i)
  }

  lemma OccursMeansContains(text: string, w: string, i: nat)
    requires OccursAt(text, w, i)
    ensures Contains(text, w)
  {
  }

  function FirstFrom(text: string, word: string, from: nat): (i: nat)
    requires exists j: nat :: from <= j <= |text| && OccursAt(text, word, j)
    ensures from <= i && OccursAt(text, word, i)
    ensures forall j: nat :: from <= j < i ==> !OccursAt(text, word, j)
    decreases |text| - from
  {
    if OccursAt(text, word, from) then from else FirstFrom(text, word, from + 1)
  }

  /** text.index(word) */
  function IndexOf(text: string, word: string): (i: nat)
    requires Contains(text, word)
    ensures OccursAt(text, word, i)
    ensures forall j: nat :: j < i ==> !OccursAt(text, word, j)
  {
    FirstFrom(text, word, 0)
  }

  lemma IndexUnique(text: string, word: string, i: nat)
    requires OccursAt(text, word, i)
    requires forall j: nat :: j < i ==> !OccursAt(text, word, j)
    ensures Contains(text, word) && IndexOf(text, word) == i
  {
  }

  ghost predicate NoStop(stops: seq<string>, text: string) {
    forall w :: w in stops ==> !Contains(text, w)
  }

  function Suffix(text: string, n: nat): (s: string)
    requires n <= |text|
    ensures |s| == n
  {
    text[|text| - n..]
  }

  /** any(stop.startswith(s) for stop in stops) */
  predicate StartsSome(stops: seq<string>, s: string) {
    exists k :: 0 <= k < |stops| && s <= stops[k]
  }

  /** The longest suffix of at most n characters that begins a stop word. */
  function HeldUpTo(stops: seq<string>, text: string, n: nat): (h: nat)
    requires n <= |text|
    ensures h <= n
    ensures h > 0 ==> StartsSome(stops, Suffix(text, h))
    ensures forall m: nat :: h < m <= n ==> !StartsSome(stops, Suffix(text, m))
  {
    if n == 0 || StartsSome(stops, Suffix(text, n)) then n else HeldUpTo(stops, text, n - 1)
  }

  function Held(stops: seq<string>, text: string): (h: nat)
    ensures h <= |text|
  {
    HeldUpTo(stops, text, |text|)
  }

  /** The position of the first listed stop word that occurs in the text, or |stops|. */
  function FirstListed(stops: seq<string>, text: string): (k: nat)
    ensures k <= |stops|
    ensures k < |stops| ==> Contains(text, stops[k])
    ensures forall j: nat :: j < k ==> !Contains(text, stops[j])
    decreases |stops|
  {
    if stops == [] || Contains(text, stops[0]) then 0
    else
      var k := FirstListed(stops[1..], text);
      assert forall j: nat :: 0 < j < k + 1 ==> stops[j] == stops[1..][j - 1];
      k + 1
  }

  // ---------------------------------------------------------------------
  // The filter as a function
  // ---------------------------------------------------------------------

  datatype State = State(buffer: string, matched: bool)

  const INITIAL := State("", false)

  function NonEmpty(s: string): seq<string> {
    if s == "" then [] else [s]
  }

  function Feed(stops: seq<string>, st: State, text: string): (State, seq<string>) {
    if st.matched || text == "" then (st, [])
    else if stops == [] then (st, [text])
    else
      var candidate := st.buffer + text;
      var k := FirstListed(stops, candidate);
      if k < |stops| then (State("", true), NonEmpty(candidate[..IndexOf(candidate, stops[k])]))
      else
        var safe := |candidate| - Held(stops, candidate);
        (State(candidate[safe..], false), NonEmpty(candidate[..safe]))
  }

  predicate EndsWith(text: string, word: string) {
    |word| <= |text| && text[|text| - |word|..] == word
  }

  function FlushFinal(stops: seq<string>, st: State): (State, seq<string>) {
    var cleared := State("", st.matched);
    if st.matched || st.buffer == "" then (cleared, [])
    else
      var k := FirstEnding(stops, st.buffer);
      if k < |stops| then (cleared, NonEmpty(st.buffer[..|st.buffer| - |stops[k]|]))
      else if StartsSome(stops, st.buffer) then (cleared, [])
      else (cleared, [st.buffer])
  }

  function FirstEnding(stops: seq<string>, text: string): (k: nat)
    ensures k <= |stops|
    ensures k < |stops| ==> EndsWith(text, stops[k])
    ensures forall j: nat :: j < k ==> !EndsWith(text, stops[j])
    decreases |stops|
  {
    if stops == [] || EndsWith(text, stops[0]) then 0
    else
      var k := FirstEnding(stops[1..], text);
      assert forall j: nat :: 0 < j < k + 1 ==> stops[j] == stops[1..][j - 1];
      k + 1
  }

  // ---------------------------------------------------------------------
  // Against the whole text
  // ---------------------------------------------------------------------

  /** The text before the first occurrence of the first listed stop word in it. */
  function Cut(stops: seq<string>, text: string): string {
    var k := FirstListed(stops, text);
    if k < |stops| then text[..IndexOf(text, stops[k])] else text
  }

  /** What the state and the output say about all the text that was fed. */
  ghost predicate Tracks(stops: seq<string>, fed: string, out: string, st: State) {
    if stops == [] then st == INITIAL && out == fed
    else if st.matched then st.buffer == "" && exists n: nat :: n <= |fed| && CutOf(stops, fed[..n], out)
    else
      && out + st.buffer == fed
      && NoStop(stops, fed)
      && |st.buffer| == Held(stops, fed)
  }

  ghost predicate CutOf(stops: seq<string>, text: string, out: string) {
    !NoStop(stops, text) && out == Cut(stops, text)
  }

  predicate WellFormed(stops: seq<string>) {
    forall k :: 0 <= k < |stops| ==> stops[k] != ""
  }

  /** A stop word does not end inside a text that contains none. */
  lemma NotInside(stops: seq<string>, fed: string, text: string, w: string, i: nat)
    requires w in stops && NoStop(stops, fed) && OccursAt(fed + text, w, i)
    ensures i + |w| > |fed|
  {
    hide OccursAt;
    PartsOfSum(fed, text);
    OccursInPart(fed + text, 0, |fed|, w, i);
    if i + |w| <= |fed| {
      OccursMeansContains(fed, w, i);
      assert false;
    }
  }

  /** What an occurrence covers of the old text begins the word. */
  lemma OverlapBegins(fed: string, text: string, w: string, i: nat)
    requires i <= |fed| < i + |w| && OccursAt(fed + text, w, i)
    ensures Suffix(fed, |fed| - i) <= w
  {
    var all := fed + text;
    var n := |fed| - i;
    PartOfPart(all, i, i + |w|, 0, n);
    PartsOfSum(fed, text);
    PartOfPart(all, 0, |fed|, i, |fed|);
    assert w[0..n] == all[i..|fed|] == fed[i..|fed|] == Suffix(fed, n);
  }

  /** A suffix that begins a stop word is held, or a longer one is. */
  lemma BeginningIsHeld(stops: seq<string>, fed: string, w: string, n: nat)
    requires w in stops && n <= |fed| && Suffix(fed, n) <= w
    ensures n <= Held(stops, fed)
  {
    hide Suffix;
    var k :| 0 <= k < |stops| && stops[k] == w;
    assert StartsSome(stops, Suffix(fed, n));
  }

  /** An occurrence in the text so far plus a new piece cannot begin before the held suffix:
      what it would cover of the old text begins a stop word and would be held. */
  lemma OccursInCandidate(stops: seq<string>, fed: string, text: string, w: string, i: nat)
    requires w in stops && w != ""
    requires NoStop(stops, fed)
    requires OccursAt(fed + text, w, i)
    ensures i >= |fed| - Held(stops, fed)
    ensures OccursAt(Suffix(fed, Held(stops, fed)) + text, w, i - (|fed| - Held(stops, fed)))
  {
    hide Held, NoStop, Contains, OccursAt, Suffix;
    NotInside(stops, fed, text, w, i);
    if i < |fed| {
      OverlapBegins(fed, text, w, i);
      BeginningIsHeld(stops, fed, w, |fed| - i);
    }
    var start := |fed| - Held(stops, fed);
    CandidatePart(fed, text, Held(stops, fed));
    OccursInPart(fed + text, start, |fed + text|, w, i - start);
    OccursFits(fed + text, w, i);
  }

  lemma OccursFits(text: string, w: string, i: nat)
    requires OccursAt(text, w, i)
    ensures i + |w| <= |text|
  {
  }

  /** The candidate is the end of the whole text. */
  lemma CandidatePart(fed: string, text: string, n: nat)
    requires n <= |fed|
    ensures (fed + text)[|fed| - n..|fed + text|] == Suffix(fed, n) + text
    ensures fed + text == fed[..|fed| - n] + (Suffix(fed, n) + text)
  {
  }

  /** The candidate contains the same stop words as the whole text, at the same places. */
  lemma CandidateSuffices(stops: seq<string>, fed: string, text: string, w: string)
    requires w in stops && w != ""
    requires NoStop(stops, fed)
    ensures var out := fed[..|fed| - Held(stops, fed)];
            var candidate := Suffix(fed, Held(stops, fed)) + text;
            && Contains(candidate, w) == Contains(fed + text, w)
            && (Contains(candidate, w) ==> IndexOf(fed + text, w) == |out| + IndexOf(candidate, w))
  {
    hide Held, Suffix, NoStop, Contains, OccursAt, IndexOf;
    var candidate := Suffix(fed, Held(stops, fed)) + text;
    var all := fed + text;
    CandidatePart(fed, text, Held(stops, fed));
    if Contains(all, w) {
      var i := IndexOf(all, w);
      OccursInCandidate(stops, fed, text, w, i);
      OccursMeansContains(candidate, w, i - (|fed| - Held(stops, fed)));
    }
    if Contains(candidate, w) {
      CandidateIndex(stops, fed, text, w);
    }
  }

  lemma CandidateIndex(stops: seq<string>, fed: string, text: string, w: string)
    requires w in stops && w != "" && NoStop(stops, fed)
    requires Contains(Suffix(fed, Held(stops, fed)) + text, w)
    ensures Contains(fed + text, w)
    ensures IndexOf(fed + text, w)
         == |fed| - Held(stops, fed) + IndexOf(Suffix(fed, Held(stops, fed)) + text, w)
  {
    hide Held, Suffix, NoStop, Contains, OccursAt;
    var start := |fed| - Held(stops, fed);
    var candidate := Suffix(fed, Held(stops, fed)) + text;
    var all := fed + text;
    var i := IndexOf(candidate, w);
    CandidatePart(fed, text, Held(stops, fed));
    OccursInPart(all, start, |all|, w, i);
    forall j: nat | j < start + i
      ensures !OccursAt(all, w, j)
    {
      if OccursAt(all, w, j) {
        OccursInCandidate(stops, fed, text, w, j);
      }
    }
    IndexUnique(all, w, start + i);
  }

  lemma {:induction false} FirstListedSame(stops: seq<string>, a: string, b: string)
    requires forall w :: w in stops ==> Contains(a, w) == Contains(b, w)
    ensures FirstListed(stops, a) == FirstListed(stops, b)
    decreases |stops|
  {
    hide Contains;
    if stops != [] {
      assert Contains(a, stops[0]) == Contains(b, stops[0]);
      FirstListedSame(stops[1..], a, b);
    }
  }

  lemma HeldSuffix(stops: seq<string>, a: string, b: string, n: nat)
    requires n <= |b|
    ensures HeldUpTo(stops, a + b, n) == HeldUpTo(stops, b, n)
  {
    forall m: nat | m <= n
      ensures Suffix(a + b, m) == Suffix(b, m)
    {
    }
  }

  /** A suffix that begins a stop word and reaches into the old text begins one there, too. */
  lemma LongSuffixWasHeld(stops: seq<string>, fed: string, text: string, m: nat)
    requires |text| < m <= |fed + text|
    ensures StartsSome(stops, Suffix(fed + text, m)) ==> StartsSome(stops, Suffix(fed, m - |text|))
  {
    var long, old' := Suffix(fed + text, m), Suffix(fed, m - |text|);
    assert old' <= long;
    forall k | 0 <= k < |stops| && long <= stops[k]
      ensures old' <= stops[k]
    {
      assert old' == long[..|old'|] == stops[k][..|old'|];
    }
  }

  /** The longest suffix worth holding never reaches behind the candidate: the search may forget
      everything that was emitted. */
  lemma HeldInCandidate(stops: seq<string>, fed: string, text: string)
    requires text != ""
    ensures var candidate := Suffix(fed, Held(stops, fed)) + text;
            Held(stops, fed + text) == Held(stops, candidate)
  {
    hide StartsSome;
    var out := fed[..|fed| - Held(stops, fed)];
    var candidate := Suffix(fed, Held(stops, fed)) + text;
    var all := fed + text;
    assert all == out + candidate;
    HeldSuffix(stops, out, candidate, |candidate|);
    forall m: nat | |candidate| < m <= |all|
      ensures !StartsSome(stops, Suffix(all, m))
    {
      LongSuffixWasHeld(stops, fed, text, m);
    }
  }

  lemma JoinNonEmpty(s: string)
    ensures Join(NonEmpty(s)) == s
  {
  }

  lemma CandidateAgrees(stops: seq<string>, fed: string, text: string)
    requires WellFormed(stops)
    requires NoStop(stops, fed)
    ensures var out := fed[..|fed| - Held(stops, fed)];
            var candidate := Suffix(fed, Held(stops, fed)) + text;
            var k := FirstListed(stops, candidate);
            && FirstListed(stops, fed + text) == k
            && (k < |stops| ==> IndexOf(fed + text, stops[k]) == |out| + IndexOf(candidate, stops[k]))
  {
    hide Contains, IndexOf, FirstListed, Held;
    var candidate := Suffix(fed, Held(stops, fed)) + text;
    forall w | w in stops
      ensures Contains(candidate, w) == Contains(fed + text, w)
    {
      CandidateSuffices(stops, fed, text, w);
    }
    FirstListedSame(stops, candidate, fed + text);
    var k := FirstListed(stops, candidate);
    if k < |stops| {
      CandidateSuffices(stops, fed, text, stops[k]);
    }
  }

  lemma ListedIsIn(stops: seq<string>, text: string)
    ensures NoStop(stops, text) <==> FirstListed(stops, text) == |stops|
  {
    hide Contains;
    var k := FirstListed(stops, text);
    if k < |stops| {
      assert stops[k] in stops;
    }
  }

  /** A step that meets a stop word. */
  lemma FeedMatches(stops: seq<string>, fed: string, text: string, k: nat)
    requires WellFormed(stops) && NoStop(stops, fed)
    requires k == FirstListed(stops, Suffix(fed, Held(stops, fed)) + text) < |stops|
    ensures var out := fed[..|fed| - Held(stops, fed)];
            var candidate := Suffix(fed, Held(stops, fed)) + text;
            CutOf(stops, fed + text, out + candidate[..IndexOf(candidate, stops[k])])
  {
    hide Contains, IndexOf, FirstListed, Held, NoStop, Suffix;
    var out := fed[..|fed| - Held(stops, fed)];
    var candidate := Suffix(fed, Held(stops, fed)) + text;
    CandidatePart(fed, text, Held(stops, fed));
    CandidateAgrees(stops, fed, text);
    ListedIsIn(stops, fed + text);
    TakeInSecond(out, candidate, IndexOf(candidate, stops[k]));
  }

  lemma TakeInSecond(a: string, b: string, i: nat)
    requires i <= |b|
    ensures (a + b)[..|a| + i] == a + b[..i]
  {
  }

  /** A step that meets none. */
  lemma FeedHolds(stops: seq<string>, fed: string, text: string)
    requires WellFormed(stops) && NoStop(stops, fed) && text != ""
    requires FirstListed(stops, Suffix(fed, Held(stops, fed)) + text) == |stops|
    ensures var out := fed[..|fed| - Held(stops, fed)];
            var candidate := Suffix(fed, Held(stops, fed)) + text;
            var safe := |candidate| - Held(stops, candidate);
            && NoStop(stops, fed + text)
            && out + candidate[..safe] + candidate[safe..] == fed + text
            && |candidate[safe..]| == Held(stops, fed + text)
  {
    hide Contains, IndexOf, FirstListed, NoStop, Held, Suffix, StartsSome;
    var out := fed[..|fed| - Held(stops, fed)];
    var candidate := Suffix(fed, Held(stops, fed)) + text;
    CandidatePart(fed, text, Held(stops, fed));
    CandidateAgrees(stops, fed, text);
    ListedIsIn(stops, fed + text);
    HeldInCandidate(stops, fed, text);
    SplitSecond(out, candidate, |candidate| - Held(stops, candidate));
  }

  lemma SplitSecond(a: string, b: string, i: nat)
    requires i <= |b|
    ensures a + b[..i] + b[i..] == a + b
  {
  }

  /** One step keeps the state in agreement with the whole text. */
  lemma FeedTracks(stops: seq<string>, fed: string, out: string, st: State, text: string)
    requires WellFormed(stops)
    requires Tracks(stops, fed, out, st)
    ensures var (st', parts) := Feed(stops, st, text);
            Tracks(stops, fed + text, out + Join(parts), st')
  {
    hide Contains, IndexOf, FirstListed, Held, NoStop, CutOf, WellFormed;
    var (st', parts) := Feed(stops, st, text);
    if text == "" {
      assert fed + text == fed && out + Join(parts) == out;
    } else if stops == [] {
      assert Join(parts) == text;
    } else if st.matched {
      var n: nat :| n <= |fed| && CutOf(stops, fed[..n], out);
      assert (fed + text)[..n] == fed[..n];
      assert out + Join(parts) == out;
    } else {
      var all := fed + text;
      var candidate := st.buffer + text;
      assert st.buffer == Suffix(fed, Held(stops, fed));
      assert out == fed[..|fed| - Held(stops, fed)];
      var k := FirstListed(stops, candidate);
      if k < |stops| {
        FeedMatches(stops, fed, text, k);
        JoinNonEmpty(candidate[..IndexOf(candidate, stops[k])]);
        assert all[..|all|] == all;
      } else {
        FeedHolds(stops, fed, text);
        JoinNonEmpty(candidate[..|candidate| - Held(stops, candidate)]);
      }
    }
  }

  // ---------------------------------------------------------------------
  // Whole runs
  // ---------------------------------------------------------------------

  function FeedAll(stops: seq<string>, st: State, pieces: seq<string>): (State, seq<string>)
    decreases |pieces|
  {
    if pieces == [] then (st, [])
    else
      var (st1, first) := Feed(stops, st, pieces[0]);
      var (st2, others) := FeedAll(stops, st1, pieces[1..]);
      (st2, first + others)
  }

  lemma {:induction false} FeedAllTracks(stops: seq<string>, fed: string, out: string, st: State, pieces: seq<string>)
    requires WellFormed(stops)
    requires Tracks(stops, fed, out, st)
    ensures var (st', parts) := FeedAll(stops, st, pieces);
            Tracks(stops, fed + Join(pieces), out + Join(parts), st')
    decreases |pieces|
  {
    hide Tracks, Feed, WellFormed;
    if pieces == [] {
      assert fed + Join(pieces) == fed && out + "" == out;
    } else {
      var (st1, first) := Feed(stops, st, pieces[0]);
      var (st2, others) := FeedAll(stops, st1, pieces[1..]);
      FeedTracks(stops, fed, out, st, pieces[0]);
      FeedAllTracks(stops, fed + pieces[0], out + Join(first), st1, pieces[1..]);
      JoinConcat(first, others);
      assert fed + Join(pieces) == fed + pieces[0] + Join(pieces[1..]);
      assert out + Join(first + others) == out + Join(first) + Join(others);
    }
  }

  lemma InitialTracks(stops: seq<string>)
    requires WellFormed(stops)
    ensures Tracks(stops, "", "", INITIAL)
  {
  }

  /** The filter against the text it was fed, under any chunking and any stop list: it has matched exactly
      when some stop word occurs in that text; until then output and buffer make up the text and the buffer is
      the longest suffix that begins a stop word. */
  lemma FilterInvariant(stops: seq<string>, pieces: seq<string>)
    requires WellFormed(stops)
    ensures var (st, parts) := FeedAll(stops, INITIAL, pieces); var text := Join(pieces);
            && (st.matched <==> !NoStop(stops, text))
            && (!st.matched && stops != [] ==> Join(parts) + st.buffer == text && |st.buffer| == Held(stops, text))
            && Tracks(stops, text, Join(parts), st)
  {
    hide FeedAll, Join, Tracks, NoStop, WellFormed, Held;
    InitialTracks(stops);
    FeedAllTracks(stops, "", "", INITIAL, pieces);
    var (st, parts) := FeedAll(stops, INITIAL, pieces);
    assert "" + Join(pieces) == Join(pieces) && "" + Join(parts) == Join(parts);
    TracksSays(stops, Join(pieces), Join(parts), st);
  }

  lemma TracksSays(stops: seq<string>, text: string, out: string, st: State)
    requires Tracks(stops, text, out, st)
    ensures st.matched <==> !NoStop(stops, text)
    ensures !st.matched && stops != [] ==> out + st.buffer == text && |st.buffer| == Held(stops, text)
  {
    hide FirstListed, IndexOf, Held, Contains, Cut;
    if st.matched && stops != [] {
      var n: nat :| n <= |text| && CutOf(stops, text[..n], out);
      StopPersists(stops, text[..n], text[n..]);
      assert text[..n] + text[n..] == text;
    }
  }

  lemma StopPersists(stops: seq<string>, a: string, b: string)
    ensures !NoStop(stops, a) ==> !NoStop(stops, a + b)
  {
    if !NoStop(stops, a) {
      var w :| w in stops && Contains(a, w);
      var i := IndexOf(a, w);
      hide IndexOf, Contains, OccursAt;
      PartsOfSum(a, b);
      OccursInPart(a + b, 0, |a|, w, i);
      OccursMeansContains(a + b, w, i);
    }
  }

  // ---------------------------------------------------------------------
  // The moment of the match
  // ---------------------------------------------------------------------

  lemma {:induction false} MatchedIsSilent(stops: seq<string>, st: State, pieces: seq<string>)
    requires st.matched
    ensures FeedAll(stops, st, pieces) == (st, [])
    decreases |pieces|
  {
    if pieces != [] {
      MatchedIsSilent(stops, st, pieces[1..]);
      assert Feed(stops, st, pieces[0]) == (st, []);
      var none: seq<string> := [];
      assert none + none == none;
    }
  }

  /** The first piece after which a stop word occurs in the text fed so far. */
  ghost predicate MatchesAfter(stops: seq<string>, fed: string, pieces: seq<string>, m: nat) {
    && 0 < m <= |pieces|
    && NoStop(stops, fed + Join(pieces[..m - 1]))
    && !NoStop(stops, fed + Join(pieces[..m]))
  }

  lemma {:induction false} MatchMomentFrom(stops: seq<string>, fed: string, out: string, st: State, pieces: seq<string>)
    returns (m: nat)
    requires WellFormed(stops) && stops != []
    requires Tracks(stops, fed, out, st) && !st.matched
    requires FeedAll(stops, st, pieces).0.matched
    ensures MatchesAfter(stops, fed, pieces, m)
    ensures out + Join(FeedAll(stops, st, pieces).1) == Cut(stops, fed + Join(pieces[..m]))
    decreases |pieces|
  {
    hide Feed, FirstListed, IndexOf, Held, NoStop, WellFormed, Cut, Tracks, Join;
    var (st1, first) := Feed(stops, st, pieces[0]);
    var (st2, others) := FeedAll(stops, st1, pieces[1..]);
    FeedTracks(stops, fed, out, st, pieces[0]);
    if st1.matched {
      m := 1;
      JoinOne(fed, pieces);
      UnmatchedHasNoStop(stops, fed, out, st);
      FeedStopsHere(stops, fed, out, st, pieces[0]);
      MatchedIsSilent(stops, st1, pieces[1..]);
      assert first + others == first;
    } else {
      var n := MatchMomentFrom(stops, fed + pieces[0], out + Join(first), st1, pieces[1..]);
      m := n + 1;
      JoinConcat(first, others);
      JoinTakes(fed, pieces, n);
      JoinTakes(fed, pieces, n - 1);
      assert out + Join(first) + Join(others) == out + Join(first + others);
    }
  }

  lemma UnmatchedHasNoStop(stops: seq<string>, fed: string, out: string, st: State)
    requires Tracks(stops, fed, out, st) && !st.matched && stops != []
    ensures NoStop(stops, fed)
  {
  }

  lemma JoinOne(fed: string, pieces: seq<string>)
    requires pieces != []
    ensures fed + Join(pieces[..0]) == fed && fed + Join(pieces[..1]) == fed + pieces[0]
  {
    assert pieces[..1] == [pieces[0]];
    assert pieces[0] + "" == pieces[0];
  }

  lemma JoinTakes(fed: string, pieces: seq<string>, m: nat)
    requires pieces != [] && m < |pieces|
    ensures fed + Join(pieces[..m + 1]) == fed + pieces[0] + Join(pieces[1..][..m])
  {
    assert pieces[..m + 1][1..] == pieces[1..][..m];
  }

  lemma FeedStopsHere(stops: seq<string>, fed: string, out: string, st: State, text: string)
    requires WellFormed(stops) && stops != []
    requires Tracks(stops, fed, out, st) && !st.matched
    requires Feed(stops, st, text).0.matched
    ensures !NoStop(stops, fed + text)
    ensures out + Join(Feed(stops, st, text).1) == Cut(stops, fed + text)
  {
    hide Contains, IndexOf, FirstListed, Held, NoStop, WellFormed;
    var candidate := st.buffer + text;
    assert st.buffer == Suffix(fed, Held(stops, fed));
    assert out == fed[..|fed| - Held(stops, fed)];
    var k := FirstListed(stops, candidate);
    FeedMatches(stops, fed, text, k);
    JoinNonEmpty(candidate[..IndexOf(candidate, stops[k])]);
  }

  /** When a stop word completes, the whole output is the text before the first occurrence of the stop word
      listed first among those present at that moment; nothing is emitted afterwards. */
  lemma OutputAtMatch(stops: seq<string>, pieces: seq<string>)
    requires WellFormed(stops)
    requires FeedAll(stops, INITIAL, pieces).0.matched
    ensures exists m: nat :: MatchesAfter(stops, "", pieces, m)
                          && Join(FeedAll(stops, INITIAL, pieces).1) == Cut(stops, Join(pieces[..m]))
  {
    hide Feed, FirstListed, IndexOf, Held, NoStop, Cut;
    InitialTracks(stops);
    if stops == [] {
      FeedAllTracks(stops, "", "", INITIAL, pieces);
      assert false;
    }
    var m := MatchMomentFrom(stops, "", "", INITIAL, pieces);
    assert "" + Join(FeedAll(stops, INITIAL, pieces).1) == Join(FeedAll(stops, INITIAL, pieces).1);
    assert "" + Join(pieces[..m]) == Join(pieces[..m]);
  }

  /** What is emitted up to a match contains neither the stop word that matched nor any listed before it. */
  lemma CutIsClean(stops: seq<string>, text: string, j: nat)
    requires WellFormed(stops)
    requires j <= FirstListed(stops, text) < |stops|
    ensures !Contains(Cut(stops, text), stops[j])
  {
    var k := FirstListed(stops, text);
    var at := IndexOf(text, stops[k]);
    if Contains(text[..at], stops[j]) {
      var i := IndexOf(text[..at], stops[j]);
      hide IndexOf, Contains, OccursAt;
      assert text[..at] == text[0..at];
      OccursInPart(text, 0, at, stops[j], i);
      OccursMeansContains(text, stops[j], i);
    }
  }

  // ---------------------------------------------------------------------
  // The final flush
  // ---------------------------------------------------------------------

  /** On every state a run can reach, flush_final emits nothing: what is still held begins a stop word and
      ends with none. */
  lemma FlushIsSilent(stops: seq<string>, pieces: seq<string>)
    requires WellFormed(stops)
    ensures FlushFinal(stops, FeedAll(stops, INITIAL, pieces).0)
         == (State("", FeedAll(stops, INITIAL, pieces).0.matched), [])
  {
    FilterInvariant(stops, pieces);
    var st := FeedAll(stops, INITIAL, pieces).0;
    var text := Join(pieces);
    hide FeedAll, Join;
    if !st.matched && st.buffer != "" {
      assert st.buffer == Suffix(text, Held(stops, text));
      forall k | 0 <= k < |stops|
        ensures !EndsWith(st.buffer, stops[k])
      {
        EndingOccurs(text, |st.buffer|, stops[k]);
        assert stops[k] in stops;
      }
    }
  }

  lemma EndingOccurs(text: string, n: nat, w: string)
    requires n <= |text|
    ensures EndsWith(Suffix(text, n), w) ==> Contains(text, w)
  {
    if |w| <= n {
      assert text[|text| - |w|..|text| - |w| + |w|] == Suffix(text, n)[n - |w|..];
      assert EndsWith(Suffix(text, n), w) ==> OccursAt(text, w, |text| - |w|);
    }
  }

  /** Everything a client sees of a run: the pieces emitted while feeding, then the final flush. */
  function Output(stops: seq<string>, pieces: seq<string>): string {
    var (st, parts) := FeedAll(stops, INITIAL, pieces);
    Join(parts + FlushFinal(stops, st).1)
  }

  /** The output of a run that meets no stop word: the text without its longest suffix that begins one. */
  lemma OutputWithoutMatch(stops: seq<string>, pieces: seq<string>)
    requires WellFormed(stops) && NoStop(stops, Join(pieces))
    ensures Output(stops, pieces) == Join(pieces)[..|Join(pieces)| - Held(stops, Join(pieces))]
  {
    FilterInvariant(stops, pieces);
    FlushIsSilent(stops, pieces);
    var (st, parts) := FeedAll(stops, INITIAL, pieces);
    hide FeedAll, NoStop, FlushFinal;
    assert parts + [] == parts;
  }

  // ---------------------------------------------------------------------
  // When the chunking does not matter
  // ---------------------------------------------------------------------

  ghost predicate ChunkingIndependent(stops: seq<string>) {
    forall xs, ys :: Join(xs) == Join(ys) ==> Output(stops, xs) == Output(stops, ys)
  }

  /** Every listed stop word contains the first one. */
  predicate FirstInAll(stops: seq<string>) {
    stops == [] || forall k :: 0 <= k < |stops| ==> Contains(stops[k], stops[0])
  }

  /** The output as a function of the whole text alone. */
  function WholeText(stops: seq<string>, text: string): string {
    if stops != [] && Contains(text, stops[0]) then text[..IndexOf(text, stops[0])]
    else text[..|text| - Held(stops, text)]
  }

  lemma ContainsTransitive(text: string, w: string, v: string)
    requires Contains(text, w) && Contains(w, v)
    ensures Contains(text, v)
  {
    var i, j := IndexOf(text, w), IndexOf(w, v);
    OccursInPart(text, i, i + |w|, v, j);
    hide IndexOf, Contains;
    assert OccursAt(text, w, i) && OccursAt(w, v, j);
    OccursMeansContains(text, v, i + j);
  }

  lemma FirstDecides(stops: seq<string>, text: string)
    requires stops != [] && FirstInAll(stops)
    ensures NoStop(stops, text) <==> !Contains(text, stops[0])
  {
    hide Contains;
    assert stops[0] in stops;
    if !NoStop(stops, text) {
      var w :| w in stops && Contains(text, w);
      var k :| 0 <= k < |stops| && stops[k] == w;
      ContainsTransitive(text, stops[k], stops[0]);
    }
  }

  lemma OccursInPrefix(text: string, n: nat, w: string, j: nat)
    requires n <= |text|
    ensures OccursAt(text[..n], w, j) <==> OccursAt(text, w, j) && j + |w| <= n
  {
    hide OccursAt;
    assert text[..n] == text[0..n];
    OccursInPart(text, 0, n, w, j);
  }

  lemma IndexInPrefix(text: string, n: nat, w: string)
    requires n <= |text| && Contains(text[..n], w)
    ensures Contains(text, w) && IndexOf(text, w) == IndexOf(text[..n], w)
  {
    hide OccursAt, IndexOf;
    var i := IndexOf(text[..n], w);
    OccursInPrefix(text, n, w, i);
    forall j: nat | j < i
      ensures !OccursAt(text, w, j)
    {
      OccursInPrefix(text, n, w, j);
    }
    IndexUnique(text, w, i);
  }

  lemma {:induction false} JoinPrefix(pieces: seq<string>, m: nat)
    requires m <= |pieces|
    ensures |Join(pieces[..m])| <= |Join(pieces)|
    ensures Join(pieces)[..|Join(pieces[..m])|] == Join(pieces[..m])
  {
    JoinConcat(pieces[..m], pieces[m..]);
    assert pieces == pieces[..m] + pieces[m..];
  }

  /** With one stop word, or more generally when all contain the first, the output depends on the text only. */
  lemma OutputIsWholeText(stops: seq<string>, pieces: seq<string>)
    requires WellFormed(stops) && FirstInAll(stops)
    ensures Output(stops, pieces) == WholeText(stops, Join(pieces))
  {
    hide Join, FeedAll, Held, FirstInAll, Contains, IndexOf, FlushFinal;
    var text := Join(pieces);
    FilterInvariant(stops, pieces);
    if stops == [] {
      OutputWithoutMatch(stops, pieces);
    } else {
      FirstDecides(stops, text);
      if NoStop(stops, text) {
        OutputWithoutMatch(stops, pieces);
      } else {
        hide NoStop, MatchesAfter, Cut;
        OutputAtMatch(stops, pieces);
        FlushIsSilent(stops, pieces);
        var (st, parts) := FeedAll(stops, INITIAL, pieces);
        assert parts + [] == parts;
        var m: nat :| MatchesAfter(stops, "", pieces, m) && Join(parts) == Cut(stops, Join(pieces[..m]));
        CutOfWhole(stops, pieces, m);
      }
    }
  }

  /** What is cut at the match is cut from the whole text. */
  lemma CutOfWhole(stops: seq<string>, pieces: seq<string>, m: nat)
    requires stops != [] && FirstInAll(stops) && MatchesAfter(stops, "", pieces, m)
    ensures Contains(Join(pieces), stops[0])
    ensures Cut(stops, Join(pieces[..m])) == Join(pieces)[..IndexOf(Join(pieces), stops[0])]
  {
    hide Join, FirstInAll, Contains, IndexOf, NoStop;
    var text, part := Join(pieces), Join(pieces[..m]);
    assert "" + part == part;
    FirstDecides(stops, part);
    JoinPrefix(pieces, m);
    IndexInPrefix(text, |part|, stops[0]);
    FirstListedIsZero(stops, part);
    PartOfPart(text, 0, |part|, 0, IndexOf(text, stops[0]));
    assert part == text[0..|part|];
  }

  lemma FirstListedIsZero(stops: seq<string>, text: string)
    requires stops != [] && Contains(text, stops[0])
    ensures FirstListed(stops, text) == 0
  {
  }

  /** A filler that no occurrence of v can end in. */
  function Filler(v: string): (f: string)
    requires v != ""
    ensures |f| == |v|
    ensures forall k :: 0 <= k < |f| ==> f[k] != v[|v| - 1]
  {
    seq(|v|, i => if v[|v| - 1] == 'a' then 'b' else 'a')
  }

  /** In w ++ filler ++ v the word v occurs, but not before the end of a w that does not contain it. */
  lemma OccursLate(w: string, v: string)
    requires v != "" && !Contains(w, v)
    ensures Contains(w + Filler(v) + v, v) && IndexOf(w + Filler(v) + v, v) >= |w|
  {
    var text := w + Filler(v) + v;
    assert OccursAt(text, v, |w| + |v|);
    forall i: nat | i < |w|
      ensures !OccursAt(text, v, i)
    {
      OccursInPrefix(text, |w|, v, i);
      assert text[..|w|] == w;
    }
  }

  lemma CutIsShorter(stops: seq<string>, text: string)
    requires WellFormed(stops) && !NoStop(stops, text)
    ensures |Cut(stops, text)| < |text|
  {
    ListedIsIn(stops, text);
  }

  lemma FedWhole(stops: seq<string>, text: string)
    requires WellFormed(stops) && stops != [] && !NoStop(stops, text)
    ensures Output(stops, [text]) == Cut(stops, text)
    ensures forall rest :: Output(stops, [text, rest]) == Cut(stops, text)
  {
    var k := FirstListed(stops, text);
    ListedIsIn(stops, text);
    assert OccursAt(text, stops[k], IndexOf(text, stops[k]));
    assert "" + text == text;
    var (st, parts) := Feed(stops, INITIAL, text);
    assert st == State("", true);
    JoinNonEmpty(Cut(stops, text));
    FedMatched(stops, INITIAL, text, []);
    forall rest
      ensures Output(stops, [text, rest]) == Cut(stops, text)
    {
      FedMatched(stops, INITIAL, text, [rest]);
      assert [text] + [rest] == [text, rest];
    }
    assert [text] + [] == [text];
  }

  lemma FedMatched(stops: seq<string>, st: State, text: string, rest: seq<string>)
    requires Feed(stops, st, text).0.matched
    ensures FeedAll(stops, st, [text] + rest) == Feed(stops, st, text)
  {
    var (st1, first) := Feed(stops, st, text);
    MatchedIsSilent(stops, st1, rest);
    assert ([text] + rest)[1..] == rest;
    assert first + [] == first;
  }

  /** The whole output is independent of the chunking exactly when every listed stop word contains the first
      one, so in particular for a single stop word. */
  lemma ChunkingIndependence(stops: seq<string>)
    requires WellFormed(stops)
    ensures ChunkingIndependent(stops) <==> FirstInAll(stops)
  {
    if FirstInAll(stops) {
      forall xs, ys | Join(xs) == Join(ys)
        ensures Output(stops, xs) == Output(stops, ys)
      {
        OutputIsWholeText(stops, xs);
        OutputIsWholeText(stops, ys);
      }
    } else {
      var k :| 0 <= k < |stops| && !Contains(stops[k], stops[0]);
      ChunkingMatters(stops, k);
    }
  }

  lemma ListedOccurs(stops: seq<string>, k: nat, text: string)
    requires k < |stops| && Contains(text, stops[k])
    ensures !NoStop(stops, text)
  {
    assert stops[k] in stops;
  }

  lemma ContainsItself(w: string)
    ensures Contains(w, w)
  {
    assert w[0..0 + |w|] == w;
    assert OccursAt(w, w, 0);
  }

  /** Otherwise the stop word listed first may complete later than another: fed in one piece it wins, fed in
      two the other has already cut the output. */
  lemma ChunkingMatters(stops: seq<string>, k: nat)
    requires WellFormed(stops)
    requires k < |stops| && !Contains(stops[k], stops[0])
    ensures !ChunkingIndependent(stops)
  {
    hide Contains, IndexOf, Output, NoStop, FirstListed, Join, Filler;
    var w, v := stops[k], stops[0];
    var rest := Filler(v) + v;
    var text := w + Filler(v) + v;
    assert text == w + rest;
    OccursLate(w, v);
    ContainsItself(w);
    ListedOccurs(stops, k, w);
    ListedOccurs(stops, 0, text);
    FedWhole(stops, w);
    FedWhole(stops, text);
    CutIsShorter(stops, w);
    FirstListedIsZero(stops, text);
    assert |Output(stops, [text])| >= |w|;
    assert Output(stops, [w, rest]) == Cut(stops, w);
    JoinOnePiece(text);
    JoinTwoPieces(w, rest);
    assert Join([text]) == Join([w, rest]);
  }

  lemma JoinTwoPieces(a: string, b: string)
    ensures Join([a, b]) == a + b
  {
    JoinOnePiece(b);
    assert [a, b][1..] == [b];
  }
}
