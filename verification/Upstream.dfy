/** The stream multiplexer: one request from its active stream over the buffering loop to the standby stream
    (proxy/upstream.py), for arbitrary upstream chunks and arbitrary timing of the control messages. */
module Upstream {
  import opened Wrappers
  import opened Buffer
  import opened StreamSession

  /** What is written to the client. */
  datatype ClientEvent = Data(chunk: TokenChunk) | KeepAlive | DoneMarker

  function DataOf(out: seq<ClientEvent>): seq<TokenChunk> {
    if out == [] then []
    else if out[0].Data? then [out[0].chunk] + DataOf(out[1..])
    else DataOf(out[1..])
  }

  function Pings(out: seq<ClientEvent>): nat {
    if out == [] then 0 else (if out[0].KeepAlive? then 1 else 0) + Pings(out[1..])
  }

  lemma {:induction false} DataOfConcat(a: seq<ClientEvent>, b: seq<ClientEvent>)
    ensures DataOf(a + b) == DataOf(a) + DataOf(b)
  {
    if a == [] {
      assert a + b == b;
    } else {
      assert (a + b)[1..] == a[1..] + b;
      DataOfConcat(a[1..], b);
    }
  }

  lemma {:induction false} PingsConcat(a: seq<ClientEvent>, b: seq<ClientEvent>)
    ensures Pings(a + b) == Pings(a) + Pings(b)
  {
    if a == [] {
      assert a + b == b;
    } else {
      assert (a + b)[1..] == a[1..] + b;
      PingsConcat(a[1..], b);
    }
  }

  /** The time between the first and the last of p pings that keep the interval exactly. */
  function PingSpan(p: nat, interval: real): real
    requires p >= 1
  {
    (p - 1) as real * interval
  }

  function Spread(p: nat, interval: real): real {
    if p <= 1 then 0.0 else Spread(p - 1, interval) + interval
  }

  lemma {:induction false} SpreadIsProduct(p: nat, interval: real)
    requires p >= 1
    ensures Spread(p, interval) == PingSpan(p, interval)
  {
    if p > 1 {
      SpreadIsProduct(p - 1, interval);
      OneMore((p - 2) as real, (p - 1) as real, interval);
    } else {
      NoTimes((p - 1) as real, interval);
    }
  }

  lemma OneMore(x: real, next: real, y: real)
    requires next == x + 1.0
    ensures next * y == x * y + y
  {
    Distributes(x, y);
  }

  lemma Distributes(x: real, y: real)
    ensures (x + 1.0) * y == x * y + y
  {
  }

  lemma NoTimes(x: real, y: real)
    requires x == 0.0
    ensures x * y == 0.0
  {
  }

  lemma DefaultPings(p: nat)
    requires p >= 1 && PingSpan(p, 0.8) < 2.5
    ensures p <= 4
  {
  }

  /** What the event loop lets happen to the request while it is suspended: a preemption signal with its
      cutoff, a readiness signal, and the passage of time. */
  datatype Turn = Turn(preemption: Option<int>, ready: bool, elapsed: real)

  type Environment = nat -> Turn

  function Observed(session: Session, turn: Turn): Session {
    var s := if turn.preemption.Some? then Signaled(session, turn.preemption.value) else session;
    if turn.ready then MadeReady(s) else s
  }

  predicate ReadyBefore(sessions: map<string, Session>, id: string) {
    id in sessions && sessions[id].handoverReady
  }

  function CutoffBefore(sessions: map<string, Session>, id: string): Option<int> {
    if id in sessions && sessions[id].preemptionSignaled then Some(sessions[id].cutoff) else None
  }

  /** A request as it enters the multiplexer: the cutoff of a signal received before, whether the standby was announced
      before, its mark, the clock, and the number of suspensions so far. */
  datatype Entry = Entry(cutoff: Option<int>, ready: bool, mark: int, clock: real, turn: nat)

  /** The cutoff of the latest preemption signal before suspension `until`. */
  function LatestCutoff(e: Entry, env: Environment, until: nat): Option<int> {
    if until <= e.turn then e.cutoff
    else if env(until - 1).preemption.Some? then env(until - 1).preemption
    else LatestCutoff(e, env, until - 1)
  }

  ghost predicate SignaledUntil(e: Entry, env: Environment, until: nat) {
    e.cutoff.Some? || exists t :: e.turn <= t < until && env(t).preemption.Some?
  }

  ghost predicate ReadyUntil(e: Entry, env: Environment, until: nat) {
    e.ready || ReadyDuring(env, e.turn, until)
  }

  /** A readiness signal arrives in one of the suspensions from..until-1. */
  ghost predicate ReadyDuring(env: Environment, from: nat, until: nat) {
    exists t :: from <= t < until && env(t).ready
  }

  function Lasting(turn: Turn): real {
    if turn.elapsed > 0.0 then turn.elapsed else 0.0
  }

  function Waits(turn: Turn): real {
    if turn.ready || turn.elapsed >= 0.1 then Lasting(turn) else 0.1
  }

  /** The clock at suspension `until`, if no wait before it timed out. */
  function ClockAt(e: Entry, env: Environment, until: nat): (later: real)
    ensures later >= e.clock
  {
    if until <= e.turn then e.clock else ClockAt(e, env, until - 1) + Lasting(env(until - 1))
  }

  function Passed(e: Entry, active: seq<TokenChunk>, n: nat): Passage
    requires n <= |active|
  {
    PassThrough(e.mark, active[..n])
  }

  /** The suspensions up to and including those of the first n chunks: one before each chunk, and one after each that
      was passed on. */
  function DealtWith(e: Entry, active: seq<TokenChunk>, n: nat): nat
    requires n <= |active|
  {
    e.turn + n + |Passed(e, active, n).accepted|
  }

  /** The first suspension after the last chunk was passed on. */
  function LastWrite(e: Entry, chunks: seq<TokenChunk>): nat
    decreases |chunks|
  {
    if chunks == [] then e.turn
    else
      var n := |chunks|;
      if |Passed(e, chunks, n).accepted| > |Passed(e, chunks, n - 1).accepted| then DealtWith(e, chunks, n)
      else LastWrite(e, chunks[..n - 1])
  }

  /** Phase 1 has one more suspension at the end of the stream, unless it stops at a chunk. */
  function PhaseOneEnd(e: Entry, active: seq<TokenChunk>, consumed: nat, cutoff: Option<int>): nat
    requires consumed <= |active|
  {
    DealtWith(e, active, consumed) + if Passed(e, active, consumed).gap || cutoff.Some? then 0 else 1
  }

  /** By the time chunk k has been dealt with, a signal has come, and its cutoff is reached. */
  predicate Due(k: nat, e: Entry, env: Environment, active: seq<TokenChunk>)
    requires k < |active|
  {
    match LatestCutoff(e, env, DealtWith(e, active, k + 1))
    case None => false
    case Some(cutoff) => cutoff >= 0 && active[k].sequenceId >= cutoff
  }

  ghost predicate StaysUntil(n: int, e: Entry, env: Environment, active: seq<TokenChunk>) {
    forall k: nat :: k < n && k < |active| ==> !Due(k, e, env, active)
  }

  /** Phase 1 ends at the first chunk at which leaving is due, with the cutoff that is reached there, or at the first
      gap or the end of the stream if that comes before. */
  ghost predicate LeftOnTime(consumed: nat, cutoff: Option<int>, e: Entry, env: Environment, active: seq<TokenChunk>) {
    && consumed <= |active|
    && StaysUntil(consumed - 1, e, env, active)
    && (consumed > 0 ==> !Passed(e, active, consumed - 1).gap)
    && (cutoff.Some? <==> consumed > 0 && !Passed(e, active, consumed).gap && Due(consumed - 1, e, env, active))
    && (cutoff.Some? ==> cutoff == LatestCutoff(e, env, DealtWith(e, active, consumed)))
    && (cutoff.None? && !Passed(e, active, consumed).gap ==> consumed == |active|)
  }

  /** What the multiplexer knows at a suspension. */
  ghost predicate Knows(session: Session, clock: real, e: Entry, env: Environment, until: nat) {
    && e.turn <= until
    && LatestCutoff(e, env, until) == (if session.preemptionSignaled then Some(session.cutoff) else None)
    && (session.preemptionSignaled <==> SignaledUntil(e, env, until))
    && (session.handoverReady <==> ReadyUntil(e, env, until))
    && clock == ClockAt(e, env, until)
  }

  lemma NothingObserved(e: Entry, session: Session, env: Environment)
    requires e.cutoff == (if session.preemptionSignaled then Some(session.cutoff) else None)
    requires e.ready == session.handoverReady
    ensures Knows(session, e.clock, e, env, e.turn)
    ensures LastWrite(e, []) == e.turn && ClockAt(e, env, e.turn) == e.clock
  {
  }

  lemma SignaledOneMore(e: Entry, env: Environment, until: nat)
    requires e.turn <= until
    ensures SignaledUntil(e, env, until + 1) <==> SignaledUntil(e, env, until) || env(until).preemption.Some?
    ensures ReadyUntil(e, env, until + 1) <==> ReadyUntil(e, env, until) || env(until).ready
  {
  }

  lemma KnowsOneMore(session: Session, clock: real, e: Entry, env: Environment, until: nat)
    requires Knows(session, clock, e, env, until)
    ensures Knows(Observed(session, env(until)), clock + Lasting(env(until)), e, env, until + 1)
  {
    hide SignaledUntil, ReadyUntil;
    SignaledOneMore(e, env, until);
  }

  lemma NothingLeft(e: Entry, env: Environment, active: seq<TokenChunk>)
    ensures StaysUntil(0, e, env, active) && StaysUntil(-1, e, env, active)
  {
  }

  lemma StaysOneMore(n: nat, e: Entry, env: Environment, active: seq<TokenChunk>, session: Session, clock: real)
    requires 0 < n <= |active| && StaysUntil(n - 1, e, env, active)
    requires Knows(session, clock, e, env, DealtWith(e, active, n))
    ensures Due(n - 1, e, env, active) <==> ReachedCutoff(session, active[n - 1].sequenceId)
    ensures !Due(n - 1, e, env, active) ==> StaysUntil(n, e, env, active)
  {
    hide SignaledUntil, ReadyUntil, ClockAt, DealtWith, LatestCutoff;
  }

  lemma StaysAtLast(n: nat, e: Entry, env: Environment, active: seq<TokenChunk>)
    requires n <= |active| && StaysUntil(n, e, env, active)
    ensures StaysUntil(n - 1, e, env, active) && (n > 0 ==> !Due(n - 1, e, env, active))
  {
    hide Due;
  }

  lemma WritesOneMore(e: Entry, active: seq<TokenChunk>, n: nat)
    requires n < |active|
    ensures LastWrite(e, active[..n + 1])
         == if |Passed(e, active, n + 1).accepted| > |Passed(e, active, n).accepted|
            then DealtWith(e, active, n + 1) else LastWrite(e, active[..n])
  {
    hide PassThrough;
    assert active[..n + 1][..n] == active[..n];
    assert active[..n + 1][..n + 1] == active[..n + 1];
  }

  /** Leaving at a cutoff means that a signal came. */
  lemma LeavesSignaled(consumed: nat, cutoff: Option<int>, e: Entry, env: Environment, active: seq<TokenChunk>)
    requires LeftOnTime(consumed, cutoff, e, env, active)
    ensures cutoff.Some? ==> SignaledUntil(e, env, PhaseOneEnd(e, active, consumed, cutoff))
    ensures cutoff.Some? ==> !Passed(e, active, consumed).gap
    ensures cutoff.None? && !Passed(e, active, consumed).gap ==> consumed == |active|
  {
    hide SignaledUntil, PassThrough;
    if cutoff.Some? {
      LatestSignaled(e, env, DealtWith(e, active, consumed));
    }
  }

  lemma {:induction false} LatestSignaled(e: Entry, env: Environment, until: nat)
    requires LatestCutoff(e, env, until).Some?
    ensures SignaledUntil(e, env, until)
  {
    if until > e.turn && env(until - 1).preemption.None? {
      LatestSignaled(e, env, until - 1);
    }
  }

  /** The buffering phase of a request: its first and last moment, its suspensions, and when keep-alives were sent.
      `activity` is when the client had last been written to before. */
  datatype Waiting = Waiting(activity: real, start: real, end: real, from: nat, until: nat, pingedAt: seq<real>)

  /** The k-th keep-alive; before the first one the last activity, behind the last one the end of the phase. */
  function PingAt(w: Waiting, k: int): real
    requires -1 <= k <= |w.pingedAt|
  {
    if k == -1 then w.activity else if k == |w.pingedAt| then w.end else w.pingedAt[k]
  }

  function LastPing(w: Waiting): real {
    PingAt(w, |w.pingedAt| - 1)
  }

  /** No suspension lasts longer than a wait's 100 ms. */
  ghost predicate Prompt(env: Environment, from: nat, until: nat) {
    forall t :: from <= t < until ==> env(t).elapsed <= 0.1
  }

  /** Keep-alives are sent after an idle time of at least the interval. */
  ghost predicate Apart(w: Waiting, interval: real) {
    forall k :: 0 <= k < |w.pingedAt| ==>
      PingAt(w, k) - PingAt(w, k - 1) >= interval && w.start <= PingAt(w, k) <= w.end
  }

  /** The client has been idle for less than the interval plus one wait, or for two waits at most. */
  predicate Served(idle: real, interval: real) {
    idle < interval + 0.1 || idle <= 0.2
  }

  /** So it is at every moment of the phase but its first. */
  ghost predicate NeverIdle(w: Waiting, interval: real) {
    forall k :: 0 <= k <= |w.pingedAt| ==> PingAt(w, k) <= w.start || Served(PingAt(w, k) - PingAt(w, k - 1), interval)
  }

  /** Keep-alives are apart; if waits take no longer than they should, the client is not left idle and the phase ends in
      time. A readiness signal ends it at once. */
  ghost predicate WaitingInTime(w: Waiting, ready: bool, env: Environment, interval: real) {
    && w.from <= w.until && w.start <= w.end
    && (ready ==> w.until == w.from && w.end == w.start && w.pingedAt == [])
    && !ReadyDuring(env, w.from, if w.until == 0 then 0 else w.until - 1)
    && Apart(w, interval)
    && (Prompt(env, w.from, w.until) ==> w.end < w.start + 2.7 && NeverIdle(w, interval))
  }

  /** The phase ends with a readiness signal, or after 2.5 s. */
  ghost predicate WaitedInTime(w: Waiting, ready: bool, env: Environment, interval: real) {
    WaitingInTime(w, ready, env, interval) && (ready || ReadyDuring(env, w.from, w.until) || w.end >= w.start + 2.5)
  }

  lemma BeginsInTime(w: Waiting, ready: bool, env: Environment, interval: real)
    requires w.from == w.until && w.start == w.end && w.pingedAt == []
    ensures WaitingInTime(w, ready, env, interval) && !ReadyDuring(env, w.from, w.until) && LastPing(w) == w.activity
    ensures Pings([]) == 0
  {
  }

  lemma PingInTime(w: Waiting, ready: bool, env: Environment, interval: real)
    requires WaitingInTime(w, ready, env, interval) && !ready
    requires w.end - LastPing(w) >= interval
    ensures var v := w.(pingedAt := w.pingedAt + [w.end]);
            WaitingInTime(v, ready, env, interval) && LastPing(v) == w.end
  {
    hide ReadyDuring, Prompt;
    var v := w.(pingedAt := w.pingedAt + [w.end]);
    forall k | -1 <= k <= |w.pingedAt|
      ensures PingAt(v, k) == PingAt(w, k)
    {
    }
  }

  /** A suspension of the phase that lasts for `delay`. */
  lemma SuspendsInTime(w: Waiting, delay: real, ready: bool, env: Environment, interval: real)
    requires WaitingInTime(w, ready, env, interval) && !ready && !ReadyDuring(env, w.from, w.until)
    requires Prompt(env, w.from, w.until) ==>
               Served(w.end - LastPing(w) + 0.1, interval) && w.end < w.start + 2.6
    requires delay >= 0.0 && (env(w.until).elapsed <= 0.1 ==> delay <= 0.1)
    ensures var v := w.(end := w.end + delay, until := w.until + 1);
            && WaitingInTime(v, ready, env, interval) && LastPing(v) == LastPing(w)
            && (ReadyDuring(env, v.from, v.until) <==> env(w.until).ready)
            && (Prompt(env, v.from, v.until) ==> Prompt(env, w.from, w.until) && env(w.until).elapsed <= 0.1)
  {
    var v := w.(end := w.end + delay, until := w.until + 1);
    forall k | -1 <= k < |w.pingedAt|
      ensures PingAt(v, k) == PingAt(w, k)
    {
    }
  }

  lemma BufferedEarlier(waiting: Option<Waiting>, switchedAt: Option<int>, pings: nat, e: Entry, env: Environment,
                        active: seq<TokenChunk>, consumed: nat, cutoff: Option<int>, until: nat, interval: real)
    requires consumed <= |active|
    requires Buffered(waiting, switchedAt, pings, e, env, active, consumed, cutoff, until, interval)
    ensures Buffered(waiting, switchedAt, pings, e, env, active, consumed, cutoff, until + 1, interval)
  {
    hide WaitedInTime, PhaseOneEnd, ClockAt, LastWrite, ReadyUntil;
  }

  /** The buffering phase begins where phase 1 ends, with the last chunk passed on there as last activity. */
  ghost predicate Buffered(waiting: Option<Waiting>, switchedAt: Option<int>, pings: nat, e: Entry, env: Environment,
                           active: seq<TokenChunk>, consumed: nat, cutoff: Option<int>, until: nat, interval: real)
    requires consumed <= |active|
  {
    match waiting
    case None => switchedAt.None? && pings == 0
    case Some(w) =>
      && switchedAt.Some? && |w.pingedAt| == pings
      && w.from == PhaseOneEnd(e, active, consumed, cutoff) && w.until <= until
      && w.start == ClockAt(e, env, w.from) && w.activity == ClockAt(e, env, LastWrite(e, active[..consumed]))
      && WaitedInTime(w, ReadyUntil(e, env, w.from), env, interval)
  }

  datatype Ending = Completed | GapRaised

  class StreamMultiplexer {
    const keepaliveInterval: real
    var sessions: map<string, Session>
    var marks: Marks          // the deduplicator's state, as Buffer.TokenDeduplicator specifies it
    var clock: real           // time.monotonic()
    var turn: nat             // suspensions so far

    constructor (keepaliveInterval: real)
      ensures this.keepaliveInterval == keepaliveInterval && sessions == map[] && marks == map[]
    {
      this.keepaliveInterval := keepaliveInterval;
      sessions := map[];
      marks := map[];
      clock := 0.0;
      turn := 0;
    }

    method TriggerPreemption(id: string, cutoff: int)
      modifies this`sessions
      ensures sessions.Keys == old(sessions).Keys
      ensures forall x :: x in sessions && x != id ==> sessions[x] == old(sessions)[x]
      ensures id in sessions ==> sessions[id] == Session(true, old(sessions)[id].handoverReady, cutoff)
    {
      if id in sessions {
        sessions := sessions[id := Signaled(sessions[id], cutoff)];
      }
    }

    method TriggerHandoverReady(id: string)
      modifies this`sessions
      ensures sessions.Keys == old(sessions).Keys
      ensures forall x :: x in sessions && x != id ==> sessions[x] == old(sessions)[x]
      ensures id in sessions ==>
                sessions[id] == Session(old(sessions)[id].preemptionSignaled, true, old(sessions)[id].cutoff)
    {
      if id in sessions {
        sessions := sessions[id := MadeReady(sessions[id])];
      }
    }

    /** A suspending await. Of the other requests nothing is promised: their coroutines may run. */
    method Suspend(id: string, env: Environment)
      requires id in sessions
      modifies this`sessions, this`marks, this`clock, this`turn
      ensures turn == old(turn) + 1 && clock == old(clock) + Lasting(env(old(turn)))
      ensures id in sessions && sessions[id] == Observed(old(sessions)[id], env(old(turn)))
      ensures LastFlushed(marks, id) == LastFlushed(old(marks), id)
    {
      var t := env(turn);
      sessions := sessions[id := Observed(sessions[id], t)];
      clock := if t.elapsed > 0.0 then clock + t.elapsed else clock;
      turn := turn + 1;
    }

    /** asyncio.wait_for(handover_ready.wait(), timeout=0.100): no suspension if the event is set already, and a
        timeout takes at least its 100 ms. */
    method WaitForReady(id: string, env: Environment)
      requires id in sessions
      modifies this`sessions, this`marks, this`clock, this`turn
      ensures id in sessions && LastFlushed(marks, id) == LastFlushed(old(marks), id)
      ensures old(sessions)[id].handoverReady ==>
                turn == old(turn) && clock == old(clock) && sessions == old(sessions)
      ensures !old(sessions)[id].handoverReady ==>
                && turn == old(turn) + 1 && sessions[id] == Observed(old(sessions)[id], env(old(turn)))
                && clock == old(clock) + Waits(env(old(turn)))
    {
      if sessions[id].handoverReady {
        return;
      }
      var before := clock;
      Suspend(id, env);
      if !sessions[id].handoverReady && clock < before + 0.1 {
        clock := before + 0.1;
      }
    }

    /** What the request brings along. */
    ghost function At(id: string): Entry
      reads this
    {
      Entry(CutoffBefore(sessions, id), ReadyBefore(sessions, id), LastFlushed(marks, id), clock, turn)
    }

    /** Phase 1: consumes the active stream up to the cutoff, a gap or its end. */
    method StreamActive(id: string, active: seq<TokenChunk>, env: Environment)
      returns (out: seq<ClientEvent>, consumed: nat, gap: bool, cutoff: Option<int>, lastActivity: real)
      requires id in sessions
      modifies this`sessions, this`marks, this`clock, this`turn
      ensures id in sessions && consumed <= |active|
      ensures forall k :: 0 <= k < |out| ==> out[k].Data?
      ensures var p := Passed(old(At(id)), active, consumed);
              DataOf(out) == p.accepted && LastFlushed(marks, id) == p.last && gap == p.gap
      ensures LeftOnTime(consumed, cutoff, old(At(id)), env, active)
      ensures cutoff.Some? ==> LastFlushed(marks, id) >= cutoff.value
      ensures turn == PhaseOneEnd(old(At(id)), active, consumed, cutoff)
      ensures clock == ClockAt(old(At(id)), env, turn)
      ensures lastActivity == ClockAt(old(At(id)), env, LastWrite(old(At(id)), active[..consumed]))
      ensures sessions[id].preemptionSignaled <==> SignaledUntil(old(At(id)), env, turn)
      ensures sessions[id].handoverReady <==> ReadyUntil(old(At(id)), env, turn)
    {
      hide SignaledUntil, ReadyUntil, LatestCutoff, ClockAt, PassThrough, DataOf, Filtered, LastFlushed, LastWrite,
           StaysUntil, Due;
      ghost var e := At(id);
      NothingPassed(e.mark);
      NothingObserved(e, sessions[id], env);
      NothingLeft(e, env, active);
      out, consumed, gap, cutoff, lastActivity := [], 0, false, None, clock;
      while true
        invariant id in sessions && consumed <= |active|
        invariant forall k :: 0 <= k < |out| ==> out[k].Data?
        invariant Passed(e, active, consumed) == Passage(DataOf(out), LastFlushed(marks, id), false)
        invariant !gap && cutoff.None?
        invariant turn == e.turn + consumed + |DataOf(out)|
        invariant Knows(sessions[id], clock, e, env, turn)
        invariant lastActivity == ClockAt(e, env, LastWrite(e, active[..consumed]))
        invariant StaysUntil(consumed, e, env, active) && (consumed > 0 ==> !Passed(e, active, consumed - 1).gap)
        decreases |active| - consumed
      {
        KnowsOneMore(sessions[id], clock, e, env, turn);
        Suspend(id, env);
        if consumed == |active| {
          StaysAtLast(consumed, e, env, active);
          break;
        }
        var chunk := active[consumed];
        PassesOneMore(e.mark, active, consumed);
        WritesOneMore(e, active, consumed);
        MarkAfter(marks, id, chunk.sequenceId);
        var verdict := Judge(LastFlushed(marks, id), chunk.sequenceId);
        marks := Filtered(marks, id, chunk.sequenceId);
        consumed := consumed + 1;
        if verdict == Gap {
          gap := true;
          return;
        }
        if verdict == Accept {
          AddData(out, chunk);
          out := out + [Data(chunk)];
          KnowsOneMore(sessions[id], clock, e, env, turn);
          Suspend(id, env);
          lastActivity := clock;
        }
        StaysOneMore(consumed, e, env, active, sessions[id], clock);
        if ReachedCutoff(sessions[id], chunk.sequenceId) {
          cutoff := Some(sessions[id].cutoff);
          return;
        }
      }
    }

    /** Phase 2: waits for readiness, at most 2.5 s, with keep-alive comments in between. */
    method BufferUntilReady(id: string, env: Environment, activity: real)
      returns (out: seq<ClientEvent>, rounds: nat, ghost waiting: Waiting)
      requires id in sessions
      modifies this`sessions, this`marks, this`clock, this`turn
      ensures id in sessions && sessions[id].handoverReady
      ensures LastFlushed(marks, id) == LastFlushed(old(marks), id)
      ensures forall k :: 0 <= k < |out| ==> out[k] == KeepAlive
      ensures rounds <= 26 && PingsBounded(Pings(out), keepaliveInterval)
      ensures waiting.activity == activity && waiting.start == old(clock) && waiting.end == clock
      ensures waiting.from == old(turn) <= waiting.until == turn && |waiting.pingedAt| == Pings(out)
      ensures WaitedInTime(waiting, old(sessions)[id].handoverReady, env, keepaliveInterval)
    {
      hide PingSpan, Pings, WaitingInTime, ReadyDuring, Prompt, PingAt;
      ghost var ready, from := sessions[id].handoverReady, turn;
      out, rounds := [], 0;
      var lastActivity := activity;
      var bufferingStart := clock;
      waiting := Waiting(activity, bufferingStart, clock, turn, turn, []);
      BeginsInTime(waiting, ready, env, keepaliveInterval);
      while !sessions[id].handoverReady
        invariant id in sessions && LastFlushed(marks, id) == LastFlushed(old(marks), id)
        invariant forall k :: 0 <= k < |out| ==> out[k] == KeepAlive
        invariant rounds <= 25 && turn >= from && |waiting.pingedAt| == Pings(out)
        invariant waiting == Waiting(activity, bufferingStart, clock, from, turn, waiting.pingedAt)
        invariant lastActivity == LastPing(waiting)
        invariant sessions[id].handoverReady <==> ready || ReadyDuring(env, from, turn)
        invariant WaitingInTime(waiting, ready, env, keepaliveInterval)
        invariant !sessions[id].handoverReady ==> clock >= bufferingStart + 0.1 * rounds as real
        invariant Pings(out) >= 1 ==>
                    && lastActivity >= bufferingStart + Spread(Pings(out), keepaliveInterval)
                    && lastActivity < bufferingStart + 2.5
        decreases 26 - rounds
      {
        var now := clock;
        if now - bufferingStart >= 2.5 {
          sessions := sessions[id := MadeReady(sessions[id])];
          rounds := rounds + 1;
          break;
        }
        if now - lastActivity >= keepaliveInterval {
          OnePing(out);
          out := out + [KeepAlive];
          PingInTime(waiting, ready, env, keepaliveInterval);
          waiting := waiting.(pingedAt := waiting.pingedAt + [now]);
          SuspendsInTime(waiting, Lasting(env(turn)), ready, env, keepaliveInterval);
          Suspend(id, env);
          lastActivity := now;
          waiting := waiting.(end := clock, until := turn);
        }
        if !sessions[id].handoverReady {
          SuspendsInTime(waiting, Waits(env(turn)), ready, env, keepaliveInterval);
        }
        WaitForReady(id, env);
        rounds := rounds + 1;
        waiting := waiting.(end := clock, until := turn);
      }
      if Pings(out) >= 1 {
        ghost var p := Pings(out);
        SpreadIsProduct(p, keepaliveInterval);
        if keepaliveInterval == 0.8 {
          DefaultPings(p);
        }
      }
    }

    /** Phase 3: passes the standby stream on. */
    method StreamStandby(id: string, standby: seq<TokenChunk>, env: Environment)
      returns (out: seq<ClientEvent>, gap: bool)
      requires id in sessions
      modifies this`sessions, this`marks, this`clock, this`turn
      ensures id in sessions && turn >= old(turn) && clock >= old(clock)
      ensures forall k :: 0 <= k < |out| ==> out[k].Data?
      ensures PassesPartOf(DataOf(out), LastFlushed(old(marks), id), standby, gap)
    {
      hide PassThrough, DataOf, Filtered, LastFlushed;
      out, gap := [], false;
      ghost var start := LastFlushed(marks, id);
      NothingPassed(start);
      var n := 0;
      while n < |standby|
        invariant id in sessions && n <= |standby| && turn >= old(turn) && clock >= old(clock)
        invariant forall k :: 0 <= k < |out| ==> out[k].Data?
        invariant PassThrough(start, standby[..n]) == Passage(DataOf(out), LastFlushed(marks, id), false)
      {
        Suspend(id, env);
        var chunk := standby[n];
        PassesOneMore(start, standby, n);
        MarkAfter(marks, id, chunk.sequenceId);
        var verdict := Judge(LastFlushed(marks, id), chunk.sequenceId);
        marks := Filtered(marks, id, chunk.sequenceId);
        n := n + 1;
        if verdict == Gap {
          gap := true;
          return;
        }
        if verdict == Accept {
          AddData(out, chunk);
          out := out + [Data(chunk)];
          Suspend(id, env);
        }
      }
      assert standby[..n] == standby;
    }

    /** Phases 2 and 3. */
    method SwitchToStandby(id: string, standbyFactory: int -> seq<TokenChunk>, env: Environment, activity: real)
      returns (out: seq<ClientEvent>, resumeAt: int, gap: bool, rounds: nat, ghost waiting: Waiting)
      requires id in sessions
      modifies this`sessions, this`marks, this`clock, this`turn
      ensures id in sessions && resumeAt == LastFlushed(old(marks), id) + 1
      ensures DoneMarker !in out
      ensures PassesPartOf(DataOf(out), resumeAt - 1, standbyFactory(resumeAt), gap)
      ensures rounds <= 26 && PingsBounded(Pings(out), keepaliveInterval)
      ensures waiting.activity == activity && waiting.start == old(clock) && waiting.end <= clock
      ensures waiting.from == old(turn) <= waiting.until <= turn && |waiting.pingedAt| == Pings(out)
      ensures WaitedInTime(waiting, old(sessions)[id].handoverReady, env, keepaliveInterval)
    {
      hide PingSpan, WaitingInTime;
      var pings;
      pings, rounds, waiting := BufferUntilReady(id, env, activity);
      resumeAt := LastFlushed(marks, id) + 1;
      var standby := standbyFactory(resumeAt);
      var rest;
      rest, gap := StreamStandby(id, standby, env);
      out := pings + rest;
      KeepAlivesOnly(pings);
      DataOnly(rest);
      DataOfConcat(pings, rest);
      PingsConcat(pings, rest);
      assert [] + DataOf(rest) == DataOf(rest);
    }

    /** The three phases of a request with a session. `switchedAt` is the id the standby was asked for, `cutoff` the
        cutoff at which the active stream was left. */
    method Relay(id: string, active: seq<TokenChunk>, standbyFactory: int -> seq<TokenChunk>, env: Environment)
      returns (out: seq<ClientEvent>, gap: bool, consumed: nat, cutoff: Option<int>, switchedAt: Option<int>,
               rounds: nat, ghost waiting: Option<Waiting>)
      requires id in sessions
      modifies this`sessions, this`marks, this`clock, this`turn
      ensures id in sessions && DoneMarker !in out && consumed <= |active|
      ensures NumberedFrom(DataOf(out), LastFlushed(old(marks), id) + 1)
      ensures Relayed(out, gap, Passed(old(At(id)), active, consumed), consumed == |active|, switchedAt, standbyFactory)
      ensures LeftOnTime(consumed, cutoff, old(At(id)), env, active)
      ensures cutoff.Some? ==> switchedAt.Some? && switchedAt.value > cutoff.value
      ensures rounds <= 26 && PingsBounded(Pings(out), keepaliveInterval)
      ensures SwitchDecided(switchedAt, gap, old(At(id)), env, PhaseOneEnd(old(At(id)), active, consumed, cutoff), turn)
      ensures Buffered(waiting, switchedAt, Pings(out), old(At(id)), env, active, consumed, cutoff, turn,
                       keepaliveInterval)
    {
      hide PingSpan, SignaledUntil, ReadyUntil, PassThrough, PassesPartOf, Relayed, NumberedFrom, DataOf, Pings,
           LeftOnTime, ClockAt, LastWrite, WaitedInTime;
      switchedAt, rounds, waiting := None, 0, None;
      ghost var e := At(id);
      var lastActivity;
      out, consumed, gap, cutoff, lastActivity := StreamActive(id, active, env);
      LeavesSignaled(consumed, cutoff, e, env, active);
      ghost var p := Passed(e, active, consumed);
      PassageIsNumbered(e.mark, active[..consumed]);
      DataOnly(out);
      ActiveOnly(out, p, consumed == |active|, standbyFactory);
      if !gap && sessions[id].preemptionSignaled {
        var rest, resumeAt;
        ghost var w;
        rest, resumeAt, gap, rounds, w := SwitchToStandby(id, standbyFactory, env, lastActivity);
        switchedAt, waiting := Some(resumeAt), Some(w);
        PartIsNumbered(DataOf(rest), resumeAt - 1, standbyFactory(resumeAt), gap);
        DataOfConcat(out, rest);
        PingsConcat(out, rest);
        NumberedOn(DataOf(out), DataOf(rest), e.mark + 1);
        out := out + rest;
        AndStandby(out, gap, p, DataOf(rest), consumed == |active|, standbyFactory);
      }
    }

    /** One request from the first upstream to [DONE] or a raised gap. */
    method StreamWithHandover(id: string, active: seq<TokenChunk>, standbyFactory: int -> seq<TokenChunk>,
                              env: Environment)
      returns (out: seq<ClientEvent>, ending: Ending, consumed: nat, cutoff: Option<int>, switchedAt: Option<int>,
               rounds: nat, ghost waiting: Option<Waiting>)
      modifies this`sessions, this`marks, this`clock, this`turn
      ensures id !in sessions && id !in marks
      ensures NumberedFrom(DataOf(out), LastFlushed(old(marks), id) + 1)
      ensures match ending
              case Completed => |out| > 0 && out[|out| - 1] == DoneMarker && DoneMarker !in out[..|out| - 1]
              case GapRaised => DoneMarker !in out
      ensures consumed <= |active|
      ensures Relayed(out, ending == GapRaised, Passed(old(At(id)), active, consumed), consumed == |active|, switchedAt,
                      standbyFactory)
      ensures LeftOnTime(consumed, cutoff, old(At(id)), env, active)
      ensures cutoff.Some? ==> switchedAt.Some? && switchedAt.value > cutoff.value
      ensures rounds <= 26 && PingsBounded(Pings(out), keepaliveInterval)
      ensures SwitchDecided(switchedAt, ending == GapRaised, old(At(id)), env,
                            PhaseOneEnd(old(At(id)), active, consumed, cutoff),
                            if ending == Completed then turn - 1 else turn)
      ensures Buffered(waiting, switchedAt, Pings(out), old(At(id)), env, active, consumed, cutoff, turn,
                       keepaliveInterval)
    {
      hide PingsBounded, PassThrough, SwitchDecided, LeftOnTime, Buffered, Relayed, NumberedFrom, DataOf, Pings,
           PhaseOneEnd, LastFlushed, Observed;
      ghost var e := At(id);
      if id !in sessions {
        sessions := sessions[id := NEW_SESSION];
      }
      assert At(id) == e;
      var gap;
      out, gap, consumed, cutoff, switchedAt, rounds, waiting := Relay(id, active, standbyFactory, env);
      ending := GapRaised;
      if !gap {
        AddDone(out);
        SameData(out, out + [DoneMarker], gap, Passed(e, active, consumed), consumed == |active|, switchedAt,
                 standbyFactory);
        BufferedEarlier(waiting, switchedAt, Pings(out), e, env, active, consumed, cutoff, turn, keepaliveInterval);
        out := out + [DoneMarker];
        Suspend(id, env);
        ending := Completed;
      }
      CleanUp(id);
    }

    /** The finally block. */
    method CleanUp(id: string)
      modifies this`sessions, this`marks
      ensures sessions == old(sessions) - {id} && marks == Forgotten(old(marks), id)
    {
      sessions := sessions - {id};
      marks := marks - {id};
    }
  }

  /** The switch is made if and only if preemption was signaled by the end of the active stream, at `phase1`; without it
      the output ends there. */
  ghost predicate SwitchDecided(switchedAt: Option<int>, gap: bool, e: Entry, env: Environment, phase1: nat, until: int)
  {
    && (switchedAt.Some? || !gap ==> (switchedAt.Some? <==> SignaledUntil(e, env, phase1)))
    && phase1 <= until && (switchedAt.None? ==> phase1 == until)
  }

  /** What a request's output consists of: what passed of the consumed part of the active stream, all of it unless a
      switch follows; behind a switch, asked for the next id, what passes of the standby stream. */
  ghost predicate Relayed(out: seq<ClientEvent>, gap: bool, p: Passage, atEnd: bool, switchedAt: Option<int>,
                          standbyFactory: int -> seq<TokenChunk>)
  {
    match switchedAt
    case None => DataOf(out) == p.accepted && gap == p.gap && (!p.gap ==> atEnd)
    case Some(start) => !p.gap && start == p.last + 1 && Continues(out, p, standbyFactory(start), gap)
  }

  lemma ActiveOnly(out: seq<ClientEvent>, p: Passage, atEnd: bool, standbyFactory: int -> seq<TokenChunk>)
    ensures DataOf(out) == p.accepted && (!p.gap ==> atEnd) ==> Relayed(out, p.gap, p, atEnd, None, standbyFactory)
  {
  }

  lemma SameData(out: seq<ClientEvent>, more: seq<ClientEvent>, gap: bool, p: Passage, atEnd: bool,
                 switchedAt: Option<int>, standbyFactory: int -> seq<TokenChunk>)
    requires Relayed(out, gap, p, atEnd, switchedAt, standbyFactory) && DataOf(more) == DataOf(out)
    ensures Relayed(more, gap, p, atEnd, switchedAt, standbyFactory)
  {
    hide PassesPartOf, DataOf;
  }

  lemma AndStandby(out: seq<ClientEvent>, gap: bool, p: Passage, rest: seq<TokenChunk>, atEnd: bool,
                   standbyFactory: int -> seq<TokenChunk>)
    requires !p.gap && DataOf(out) == p.accepted + rest && PassesPartOf(rest, p.last, standbyFactory(p.last + 1), gap)
    ensures Relayed(out, gap, p, atEnd, Some(p.last + 1), standbyFactory)
  {
    hide PassesPartOf;
  }

  /** What passes of the standby stream: of all of it, or of the part up to the gap. */
  ghost predicate PassesPartOf(data: seq<TokenChunk>, last: int, standby: seq<TokenChunk>, gap: bool) {
    exists n :: 0 <= n <= |standby| && (!gap ==> n == |standby|)
      && PassThrough(last, standby[..n]).gap == gap && PassThrough(last, standby[..n]).accepted == data
  }

  /** The output goes on, behind what phase 1 passed, with what passes of the standby stream. */
  ghost predicate Continues(out: seq<ClientEvent>, p: Passage, standby: seq<TokenChunk>, gap: bool) {
    exists rest :: PassesPartOf(rest, p.last, standby, gap) && DataOf(out) == p.accepted + rest
  }

  ghost predicate PingsBounded(p: nat, interval: real) {
    && (p >= 1 ==> PingSpan(p, interval) < 2.5)
    && (interval == 0.8 ==> p <= 4)
  }

  lemma NumberedOn(a: seq<TokenChunk>, b: seq<TokenChunk>, first: int)
    requires NumberedFrom(a, first) && NumberedFrom(b, first + |a|)
    ensures NumberedFrom(a + b, first)
  {
  }

  lemma PartIsNumbered(data: seq<TokenChunk>, last: int, standby: seq<TokenChunk>, gap: bool)
    requires PassesPartOf(data, last, standby, gap)
    ensures NumberedFrom(data, last + 1)
  {
    hide PassThrough;
    var n :| 0 <= n <= |standby| && PassThrough(last, standby[..n]).accepted == data;
    PassageIsNumbered(last, standby[..n]);
  }

  lemma OnePing(out: seq<ClientEvent>)
    ensures Pings(out + [KeepAlive]) == Pings(out) + 1
  {
    PingsConcat(out, [KeepAlive]);
    assert [KeepAlive][1..] == [];
  }

  lemma AddData(out: seq<ClientEvent>, chunk: TokenChunk)
    ensures DataOf(out + [Data(chunk)]) == DataOf(out) + [chunk]
  {
    DataOfConcat(out, [Data(chunk)]);
    assert [Data(chunk)][1..] == [];
  }

  lemma MarkAfter(marks: Marks, id: string, sequenceId: int)
    ensures LastFlushed(Filtered(marks, id, sequenceId), id)
         == LastFlushed(marks, id) + if Judge(LastFlushed(marks, id), sequenceId) == Accept then 1 else 0
  {
  }

  lemma NothingPassed(last: int)
    ensures PassThrough(last, []) == Passage([], last, false) && DataOf([]) == []
  {
  }

  /** One more chunk of a stream that has passed without a gap. */
  lemma PassesOneMore(last: int, chunks: seq<TokenChunk>, n: nat)
    requires n < |chunks|
    ensures var p := PassThrough(last, chunks[..n]);
            !p.gap ==>
              PassThrough(last, chunks[..n + 1])
              == match Judge(p.last, chunks[n].sequenceId)
                 case Drop => p
                 case Gap => Passage(p.accepted, p.last, true)
                 case Accept => Passage(p.accepted + [chunks[n]], p.last + 1, false)
  {
    PassThroughConcat(last, chunks[..n], [chunks[n]]);
    assert chunks[..n] + [chunks[n]] == chunks[..n + 1];
    assert [chunks[n]][1..] == [];
  }

  lemma AddDone(out: seq<ClientEvent>)
    ensures DataOf(out + [DoneMarker]) == DataOf(out) && Pings(out + [DoneMarker]) == Pings(out)
    ensures (out + [DoneMarker])[..|out|] == out
  {
    DataOfConcat(out, [DoneMarker]);
    PingsConcat(out, [DoneMarker]);
    assert [DoneMarker][1..] == [];
    assert DataOf(out) + [] == DataOf(out);
  }

  lemma {:induction false} DataOnly(out: seq<ClientEvent>)
    requires forall k :: 0 <= k < |out| ==> out[k].Data?
    ensures Pings(out) == 0 && DoneMarker !in out
  {
    if out != [] {
      DataOnly(out[1..]);
      assert out == [out[0]] + out[1..];
    }
  }

  lemma {:induction false} KeepAlivesOnly(out: seq<ClientEvent>)
    requires forall k :: 0 <= k < |out| ==> out[k] == KeepAlive
    ensures DataOf(out) == [] && DoneMarker !in out
  {
    if out != [] {
      KeepAlivesOnly(out[1..]);
      assert out == [out[0]] + out[1..];
    }
  }
}
