/** Token-exact handover of live streams: proxy (proxy/ingress.py, proxy/upstream.py, proxy/buffer.py) and
    engines (simulator/mock_engine.py) as a step system. One step is the code a coroutine runs between two
    suspending awaits; the steps of all streams, engines and control messages interleave freely. */
module Handover {
  import opened Buffer
  import opened Numbers
  import opened StreamSession

  // ---------------------------------------------------------------------
  // Engines
  // ---------------------------------------------------------------------

  datatype Node = ActiveNode | StandbyNode

  /** One completion request at an engine and the connection that carries its chunks. The engine emits
      the ids next..stop-1; `wire` holds what was written but not yet read. */
  datatype Connection = Connection(node: Node, next: nat, stop: nat, wire: seq<TokenChunk>, closed: bool)

  type Corpus = seq<string>

  /** Where corpus[start : start + max_tokens] ends. */
  function StopAfter(corpus: Corpus, start: nat, maxTokens: nat): (stop: nat)
    ensures start <= stop
  {
    if start < |corpus| then Min(start + maxTokens, |corpus|) else start
  }

  function Open(corpus: Corpus, node: Node, start: nat, maxTokens: nat): Connection {
    Connection(node, start, StopAfter(corpus, start, maxTokens), [], false)
  }

  function ChunkAt(corpus: Corpus, id: string, k: nat): TokenChunk {
    TokenChunk(id, k, if k < |corpus| then corpus[k] else "", false)
  }

  /** One turn of the emit loop, or its end. */
  function Emit(corpus: Corpus, id: string, c: Connection, paused: bool): Connection {
    if c.closed then c
    else if c.next == c.stop || paused then c.(closed := true)
    else c.(next := c.next + 1, wire := c.wire + [ChunkAt(corpus, id, c.next)])
  }

  /** The connection breaks: of what is still on the wire only the first `kept` chunks arrive, whether the engine has
      finished or not. */
  function Break(c: Connection, kept: nat): Connection {
    if kept > |c.wire| || |c.wire| > c.next then c
    else c.(closed := true, wire := c.wire[..kept], next := c.next - (|c.wire| - kept))
  }

  // ---------------------------------------------------------------------
  // The proxy
  // ---------------------------------------------------------------------

  /** Where the coroutine that serves a request is suspended. */
  datatype Phase =
    | Preparing                                        // before the upstream is chosen
    | Reading(upstream: Connection)                    // phase 1, waiting for a chunk
    | Writing(upstream: Connection, sequenceId: int)   // phase 1, writing a chunk to the client
    | Buffering                                        // phase 2, waiting for handover_ready
    | Resuming(upstream: Connection)                   // phase 3, waiting for a chunk
    | ResumeWriting(upstream: Connection)              // phase 3, writing a chunk to the client
    | Finishing                                        // writing [DONE]

  /** `resumedAt` and `cutShort` are history: the first id asked of the standby (0 without a switch), and
      whether phase 1 ended unsignaled before the engine had sent everything. */
  datatype Stream = Stream(maxTokens: nat, phase: Phase, delivered: seq<TokenChunk>, resumedAt: nat, cutShort: bool)

  datatype Finished = Finished(id: string, stream: Stream, done: bool)

  datatype System = System(
    preemptionActive: bool,
    enginePaused: bool,
    streams: map<string, Stream>,     // in_flight_requests with the coroutine of each
    sessions: map<string, Session>,   // multiplexer.active_sessions
    marks: Marks,                     // deduplicator
    finished: seq<Finished>)

  const INITIAL := System(false, false, map[], map[], map[], [])

  datatype Action =
    | Arrive(id: string, maxTokens: nat)
    | Begin(id: string)
    | EngineTurn(id: string)
    | Read(id: string)
    | Written(id: string)
    | Tick(id: string, timedOut: bool)
    | Alert(cutoff: int)
    | Ready(id: string)
    | Pause
    | Resume
    | Drop(id: string, kept: nat)

  function SessionOf(s: System, id: string): Session {
    if id in s.sessions then s.sessions[id] else NEW_SESSION
  }

  function With(s: System, id: string, st: Stream): System {
    s.(streams := s.streams[id := st])
  }

  /** The finally blocks of multiplexer and handler. */
  function Finish(s: System, id: string, st: Stream, done: bool): System {
    s.(streams := s.streams - {id}, sessions := s.sessions - {id}, marks := Forgotten(s.marks, id),
       finished := s.finished + [Finished(id, st, done)])
  }

  /** The end of phase 1: buffer if preemption was signaled, else send [DONE]. */
  function EndActive(s: System, id: string, st: Stream, c: Connection): System {
    if SessionOf(s, id).preemptionSignaled then With(s, id, st.(phase := Buffering))
    else With(s, id, st.(phase := Finishing, cutShort := c.next < c.stop))
  }

  /** After a chunk of phase 1 was dealt with: stop at the cutoff or wait for the next chunk. */
  function AfterChunk(s: System, id: string, st: Stream, c: Connection, sequenceId: int): System {
    if ReachedCutoff(SessionOf(s, id), sequenceId) then EndActive(s, id, st, c)
    else With(s, id, st.(phase := Reading(c)))
  }

  function ReadActive(s: System, id: string, st: Stream, c: Connection): System {
    if c.wire != [] then
      var chunk := c.wire[0];
      var rest := c.(wire := c.wire[1..]);
      match Judge(LastFlushed(s.marks, id), chunk.sequenceId)
      case Drop => AfterChunk(s, id, st, rest, chunk.sequenceId)
      case Gap => Finish(s, id, st, false)
      case Accept =>
        With(s.(marks := Filtered(s.marks, id, chunk.sequenceId)), id,
             st.(delivered := st.delivered + [chunk], phase := Writing(rest, chunk.sequenceId)))
    else if c.closed then EndActive(s, id, st, c)
    else s
  }

  function ReadStandby(s: System, id: string, st: Stream, c: Connection): System {
    if c.wire != [] then
      var chunk := c.wire[0];
      var rest := c.(wire := c.wire[1..]);
      match Judge(LastFlushed(s.marks, id), chunk.sequenceId)
      case Drop => With(s, id, st.(phase := Resuming(rest)))
      case Gap => Finish(s, id, st, false)
      case Accept =>
        With(s.(marks := Filtered(s.marks, id, chunk.sequenceId)), id,
             st.(delivered := st.delivered + [chunk], phase := ResumeWriting(rest)))
    else if c.closed then With(s, id, st.(phase := Finishing))
    else s
  }

  /** standby_factory: resume behind the last flushed id, with the original max_tokens. */
  function Connect(corpus: Corpus, s: System, id: string, st: Stream): System {
    var start := LastFlushed(s.marks, id) + 1;
    if start < 0 then s
    else With(s, id, st.(phase := Resuming(Open(corpus, StandbyNode, start, st.maxTokens)), resumedAt := start))
  }

  function TurnOf(corpus: Corpus, s: System, id: string, c: Connection): Connection {
    Emit(corpus, id, c, c.node == ActiveNode && s.enginePaused)
  }

  function EngineStep(corpus: Corpus, s: System, id: string, st: Stream): System {
    match st.phase
    case Reading(c) => With(s, id, st.(phase := Reading(TurnOf(corpus, s, id, c))))
    case Writing(c, q) => With(s, id, st.(phase := Writing(TurnOf(corpus, s, id, c), q)))
    case Resuming(c) => With(s, id, st.(phase := Resuming(TurnOf(corpus, s, id, c))))
    case ResumeWriting(c) => With(s, id, st.(phase := ResumeWriting(TurnOf(corpus, s, id, c))))
    case _ => s
  }

  /** Only the active node is preempted: a connection to the standby does not break. */
  function DropStep(s: System, id: string, st: Stream, kept: nat): System {
    match st.phase
    case Reading(c) => if c.node == ActiveNode then With(s, id, st.(phase := Reading(Break(c, kept)))) else s
    case Writing(c, q) => if c.node == ActiveNode then With(s, id, st.(phase := Writing(Break(c, kept), q))) else s
    case _ => s
  }

  /** trigger_preemption for every request in flight; a request without a session is passed over. */
  function AlertStep(s: System, cutoff: int): System {
    s.(preemptionActive := true,
       sessions := map id | id in s.sessions ::
         if id in s.streams then Signaled(s.sessions[id], cutoff) else s.sessions[id])
  }

  function StreamStep(corpus: Corpus, s: System, a: Action, id: string, st: Stream): System {
    match a
    case Begin(_) =>
      if st.phase != Preparing then s
      else
        var node := if s.preemptionActive then StandbyNode else ActiveNode;
        var session := SessionOf(s, id);
        With(s.(sessions := s.sessions[id := session]), id,
             st.(phase := Reading(Open(corpus, node, 0, st.maxTokens))))
    case EngineTurn(_) => EngineStep(corpus, s, id, st)
    case Read(_) => (
      match st.phase
      case Reading(c) => ReadActive(s, id, st, c)
      case Resuming(c) => ReadStandby(s, id, st, c)
      case _ => s)
    case Written(_) => (
      match st.phase
      case Writing(c, q) => AfterChunk(s, id, st, c, q)
      case ResumeWriting(c) => With(s, id, st.(phase := Resuming(c)))
      case Finishing => Finish(s, id, st, true)
      case _ => s)
    case Tick(_, timedOut) =>
      if st.phase == Buffering && (SessionOf(s, id).handoverReady || timedOut) then Connect(corpus, s, id, st) else s
    case Drop(_, kept) => DropStep(s, id, st, kept)
    case _ => s
  }

  /** One step; an action that is not enabled changes nothing. */
  function Step(corpus: Corpus, s: System, a: Action): System {
    match a
    case Arrive(id, maxTokens) =>
      if id in s.streams then s else With(s, id, Stream(maxTokens, Preparing, [], 0, false))
    case Alert(cutoff) => AlertStep(s, cutoff)
    case Ready(id) =>
      if id in s.sessions then s.(sessions := s.sessions[id := MadeReady(s.sessions[id])]) else s
    case Pause => s.(enginePaused := true)
    case Resume => s.(enginePaused := false)
    case _ => if a.id in s.streams then StreamStep(corpus, s, a, a.id, s.streams[a.id]) else s
  }

  function Run(corpus: Corpus, s: System, actions: seq<Action>): System
    decreases |actions|
  {
    if actions == [] then s else Run(corpus, Step(corpus, s, actions[0]), actions[1..])
  }

  // ---------------------------------------------------------------------
  // The invariant
  // ---------------------------------------------------------------------

  /** The chunks numbered a to b-1 of the answer. */
  function Chunks(corpus: Corpus, id: string, a: nat, b: nat): (r: seq<TokenChunk>)
    requires a <= b
    ensures |r| == b - a
  {
    seq(b - a, k requires 0 <= k < b - a => ChunkAt(corpus, id, a + k))
  }

  /** The wire carries, in order, exactly what the client still misses of what the engine emitted. */
  ghost predicate Carries(corpus: Corpus, id: string, c: Connection, delivered: nat, start: nat, maxTokens: nat) {
    && c.stop == StopAfter(corpus, start, maxTokens)
    && delivered <= c.next <= c.stop
    && c.wire == Chunks(corpus, id, delivered, c.next)
    && (c.closed && c.node == StandbyNode ==> c.next == c.stop)
  }

  ghost predicate PhaseOk(corpus: Corpus, id: string, st: Stream, session: Session) {
    var n := |st.delivered|;
    match st.phase
    case Preparing => n == 0 && st.resumedAt == 0 && !st.cutShort
    case Reading(c) => Carries(corpus, id, c, n, 0, st.maxTokens) && st.resumedAt == 0 && !st.cutShort
    case Writing(c, q) =>
      Carries(corpus, id, c, n, 0, st.maxTokens) && st.resumedAt == 0 && !st.cutShort && q == n - 1
    case Buffering =>
      && session.preemptionSignaled && st.resumedAt == 0 && !st.cutShort
      && n <= StopAfter(corpus, 0, st.maxTokens)
    case Resuming(c) => Carries(corpus, id, c, n, st.resumedAt, st.maxTokens) && ResumeOk(corpus, st, c)
    case ResumeWriting(c) => Carries(corpus, id, c, n, st.resumedAt, st.maxTokens) && ResumeOk(corpus, st, c)
    case Finishing => Complete(corpus, st)
  }

  ghost predicate ResumeOk(corpus: Corpus, st: Stream, c: Connection) {
    && c.node == StandbyNode && !st.cutShort
    && st.resumedAt <= |st.delivered|
    && st.resumedAt <= StopAfter(corpus, 0, st.maxTokens)
  }

  /** Everything was delivered, unless phase 1 was cut short. */
  ghost predicate Complete(corpus: Corpus, st: Stream) {
    var n := |st.delivered|;
    && st.resumedAt <= StopAfter(corpus, 0, st.maxTokens)
    && n <= StopAfter(corpus, st.resumedAt, st.maxTokens)
    && (st.cutShort ==> st.resumedAt == 0)
    && (st.cutShort <==> n < StopAfter(corpus, st.resumedAt, st.maxTokens))
  }

  ghost predicate StreamOk(corpus: Corpus, id: string, st: Stream, session: Session, last: int) {
    && st.delivered == Chunks(corpus, id, 0, |st.delivered|)
    && last == |st.delivered| - 1
    && PhaseOk(corpus, id, st, session)
  }

  ghost predicate FinishedOk(corpus: Corpus, f: Finished) {
    && f.done
    && f.stream.delivered == Chunks(corpus, f.id, 0, |f.stream.delivered|)
    && Complete(corpus, f.stream)
  }

  ghost predicate Inv(corpus: Corpus, s: System) {
    && (forall id :: id in s.streams ==>
          StreamOk(corpus, id, s.streams[id], SessionOf(s, id), LastFlushed(s.marks, id)))
    && (forall id :: id in s.sessions <==> id in s.streams && s.streams[id].phase != Preparing)
    && (forall id :: id !in s.streams ==> LastFlushed(s.marks, id) == -1)
    && (forall k :: 0 <= k < |s.finished| ==> FinishedOk(corpus, s.finished[k]))
  }

  // ---------------------------------------------------------------------
  // Every step keeps the invariant
  // ---------------------------------------------------------------------

  /** A step that touches one request only, and leaves it in order. */
  ghost predicate Local(s: System, t: System, id: string) {
    && t.streams.Keys + {id} == s.streams.Keys + {id}
    && t.sessions.Keys + {id} == s.sessions.Keys + {id}
    && (forall x :: x in s.streams && x != id ==> t.streams[x] == s.streams[x])
    && (forall x :: x in s.sessions && x != id ==> t.sessions[x] == s.sessions[x])
    && (forall x :: x != id ==> LastFlushed(t.marks, x) == LastFlushed(s.marks, x))
  }

  lemma LocalKeepsInv(corpus: Corpus, s: System, t: System, id: string)
    requires Inv(corpus, s)
    requires Local(s, t, id)
    requires t.finished == s.finished
    requires id in t.streams && (id in t.sessions <==> t.streams[id].phase != Preparing)
    requires StreamOk(corpus, id, t.streams[id], SessionOf(t, id), LastFlushed(t.marks, id))
    ensures Inv(corpus, t)
  {
    hide StreamOk, FinishedOk, LastFlushed;
    forall x | x in t.streams
      ensures StreamOk(corpus, x, t.streams[x], SessionOf(t, x), LastFlushed(t.marks, x))
    {
      if x != id {
        assert x in s.streams.Keys + {id} && x in s.streams;
        assert x in t.sessions.Keys + {id} <==> x in s.sessions.Keys + {id};
        assert StreamOk(corpus, x, s.streams[x], SessionOf(s, x), LastFlushed(s.marks, x));
      }
    }
    forall x
      ensures x in t.sessions <==> x in t.streams && t.streams[x].phase != Preparing
      ensures x !in t.streams ==> LastFlushed(t.marks, x) == -1
    {
      if x != id {
        assert x in t.sessions.Keys + {id} <==> x in s.sessions.Keys + {id};
        assert x in t.streams.Keys + {id} <==> x in s.streams.Keys + {id};
      }
    }
  }

  lemma InOrder(corpus: Corpus, s: System, id: string)
    requires Inv(corpus, s) && id in s.streams
    ensures StreamOk(corpus, id, s.streams[id], SessionOf(s, id), LastFlushed(s.marks, id))
    ensures id in s.sessions <==> s.streams[id].phase != Preparing
  {
    hide StreamOk, FinishedOk, LastFlushed;
  }

  /** The usual case of a local step: the request keeps its session. */
  lemma UpdateKeepsInv(corpus: Corpus, s: System, t: System, id: string, st: Stream)
    requires Inv(corpus, s) && id in s.streams && id in s.sessions
    requires t.streams == s.streams[id := st] && t.sessions == s.sessions && t.finished == s.finished
    requires forall x :: x != id ==> LastFlushed(t.marks, x) == LastFlushed(s.marks, x)
    requires st.phase != Preparing
    requires StreamOk(corpus, id, st, SessionOf(s, id), LastFlushed(t.marks, id))
    ensures Inv(corpus, t)
  {
    hide StreamOk, FinishedOk, LastFlushed, Inv;
    LocalKeepsInv(corpus, s, t, id);
  }

  lemma FinishKeepsInv(corpus: Corpus, s: System, id: string, st: Stream)
    requires Inv(corpus, s) && id in s.streams
    requires st.delivered == Chunks(corpus, id, 0, |st.delivered|) && Complete(corpus, st)
    ensures Inv(corpus, Finish(s, id, st, true))
  {
    hide StreamOk, Complete, Chunks;
    var t := Finish(s, id, st, true);
    forall x | x in t.streams
      ensures StreamOk(corpus, x, t.streams[x], SessionOf(t, x), LastFlushed(t.marks, x))
    {
      assert StreamOk(corpus, x, s.streams[x], SessionOf(s, x), LastFlushed(s.marks, x));
    }
  }

  lemma ChunksGrow(corpus: Corpus, id: string, a: nat, b: nat)
    requires a <= b
    ensures Chunks(corpus, id, a, b + 1) == Chunks(corpus, id, a, b) + [ChunkAt(corpus, id, b)]
  {
  }

  lemma ChunksShrink(corpus: Corpus, id: string, a: nat, b: nat)
    requires a < b
    ensures Chunks(corpus, id, a, b)[0] == ChunkAt(corpus, id, a)
    ensures Chunks(corpus, id, a, b)[1..] == Chunks(corpus, id, a + 1, b)
  {
  }

  lemma EmitCarries(corpus: Corpus, id: string, c: Connection, paused: bool, n: nat, start: nat, maxTokens: nat)
    requires Carries(corpus, id, c, n, start, maxTokens)
    requires paused ==> c.node == ActiveNode
    ensures Carries(corpus, id, Emit(corpus, id, c, paused), n, start, maxTokens)
  {
    if !c.closed && c.next < c.stop && !paused {
      ChunksGrow(corpus, id, n, c.next);
    }
  }

  lemma BreakCarries(corpus: Corpus, id: string, c: Connection, kept: nat, n: nat, start: nat, maxTokens: nat)
    requires Carries(corpus, id, c, n, start, maxTokens)
    requires c.node == ActiveNode
    ensures Carries(corpus, id, Break(c, kept), n, start, maxTokens)
  {
    if kept <= |c.wire| {
      assert Chunks(corpus, id, n, c.next)[..kept] == Chunks(corpus, id, n, n + kept);
    }
  }

  /** Reading the next chunk off a wire in order: it is the one the deduplicator expects. */
  lemma NextIsExpected(corpus: Corpus, id: string, c: Connection, st: Stream, marks: Marks, start: nat)
    requires st.delivered == Chunks(corpus, id, 0, |st.delivered|)
    requires LastFlushed(marks, id) == |st.delivered| - 1
    requires Carries(corpus, id, c, |st.delivered|, start, st.maxTokens)
    requires c.wire != []
    ensures Judge(LastFlushed(marks, id), c.wire[0].sequenceId) == Accept
    ensures c.wire[0].sequenceId == |st.delivered|
    ensures var n := |st.delivered|;
            && st.delivered + [c.wire[0]] == Chunks(corpus, id, 0, n + 1)
            && Carries(corpus, id, c.(wire := c.wire[1..]), n + 1, start, st.maxTokens)
            && LastFlushed(Filtered(marks, id, n), id) == n
            && forall x :: x != id ==> LastFlushed(Filtered(marks, id, n), x) == LastFlushed(marks, x)
  {
    ChunksShrink(corpus, id, |st.delivered|, c.next);
    ChunksGrow(corpus, id, 0, |st.delivered|);
  }

  /** The end of phase 1 from a state in which the stream is in order with upstream c. */
  lemma EndActiveKeepsInv(corpus: Corpus, s: System, t: System, id: string, st: Stream, c: Connection)
    requires Inv(corpus, s) && id in s.streams && id in s.sessions && t == EndActive(s, id, st, c)
    requires StreamOk(corpus, id, st.(phase := Reading(c)), SessionOf(s, id), LastFlushed(s.marks, id))
    requires SessionOf(s, id).preemptionSignaled || c.wire == []
    ensures Inv(corpus, t)
  {
    hide Inv, LastFlushed, SessionOf, StopAfter;
    UpdateKeepsInv(corpus, s, t, id, t.streams[id]);
  }

  lemma AfterChunkKeepsInv(corpus: Corpus, s: System, id: string, st: Stream, c: Connection, q: int)
    requires Inv(corpus, s) && id in s.streams && id in s.sessions
    requires StreamOk(corpus, id, st.(phase := Reading(c)), SessionOf(s, id), LastFlushed(s.marks, id))
    ensures Inv(corpus, AfterChunk(s, id, st, c, q))
  {
    hide Inv, LastFlushed, SessionOf, StreamOk;
    var t := AfterChunk(s, id, st, c, q);
    if ReachedCutoff(SessionOf(s, id), q) {
      EndActiveKeepsInv(corpus, s, t, id, st, c);
    } else {
      UpdateKeepsInv(corpus, s, t, id, t.streams[id]);
    }
  }

  lemma BeginKeepsInv(corpus: Corpus, s: System, id: string)
    requires Inv(corpus, s) && id in s.streams
    ensures Inv(corpus, StreamStep(corpus, s, Begin(id), id, s.streams[id]))
  {
    hide Inv, LastFlushed, StopAfter;
    var t := StreamStep(corpus, s, Begin(id), id, s.streams[id]);
    InOrder(corpus, s, id);
    if s.streams[id].phase == Preparing {
      LocalKeepsInv(corpus, s, t, id);
    }
  }

  lemma EngineKeepsInv(corpus: Corpus, s: System, id: string)
    requires Inv(corpus, s) && id in s.streams
    ensures Inv(corpus, EngineStep(corpus, s, id, s.streams[id]))
  {
    hide Inv, Emit, Carries, Chunks, LastFlushed, SessionOf, Complete, StopAfter;
    var st := s.streams[id];
    InOrder(corpus, s, id);
    var t := EngineStep(corpus, s, id, st);
    var n := |st.delivered|;
    match st.phase {
      case Reading(c) =>
        EmitCarries(corpus, id, c, c.node == ActiveNode && s.enginePaused, n, 0, st.maxTokens);
        UpdateKeepsInv(corpus, s, t, id, t.streams[id]);
      case Writing(c, q) =>
        EmitCarries(corpus, id, c, c.node == ActiveNode && s.enginePaused, n, 0, st.maxTokens);
        UpdateKeepsInv(corpus, s, t, id, t.streams[id]);
      case Resuming(c) =>
        EmitKeepsNode(corpus, id, c, false);
        EmitCarries(corpus, id, c, false, n, st.resumedAt, st.maxTokens);
        UpdateKeepsInv(corpus, s, t, id, t.streams[id]);
      case ResumeWriting(c) =>
        EmitKeepsNode(corpus, id, c, false);
        EmitCarries(corpus, id, c, false, n, st.resumedAt, st.maxTokens);
        UpdateKeepsInv(corpus, s, t, id, t.streams[id]);
      case _ =>
    }
  }

  lemma EmitKeepsNode(corpus: Corpus, id: string, c: Connection, paused: bool)
    ensures Emit(corpus, id, c, paused).node == c.node
  {
  }

  lemma DropKeepsInv(corpus: Corpus, s: System, id: string, kept: nat)
    requires Inv(corpus, s) && id in s.streams
    ensures Inv(corpus, DropStep(s, id, s.streams[id], kept))
  {
    hide Inv, Break, Carries, Chunks, LastFlushed, SessionOf, StopAfter;
    var st := s.streams[id];
    InOrder(corpus, s, id);
    var t := DropStep(s, id, st, kept);
    match st.phase {
      case Reading(c) =>
        if c.node == ActiveNode {
          BreakCarries(corpus, id, c, kept, |st.delivered|, 0, st.maxTokens);
          UpdateKeepsInv(corpus, s, t, id, t.streams[id]);
        }
      case Writing(c, q) =>
        if c.node == ActiveNode {
          BreakCarries(corpus, id, c, kept, |st.delivered|, 0, st.maxTokens);
          UpdateKeepsInv(corpus, s, t, id, t.streams[id]);
        }
      case _ =>
    }
  }

  lemma ReadActiveKeepsInv(corpus: Corpus, s: System, id: string, c: Connection)
    requires Inv(corpus, s) && id in s.streams && s.streams[id].phase == Reading(c)
    ensures Inv(corpus, ReadActive(s, id, s.streams[id], c))
  {
    hide Inv, Chunks, Filtered, Judge, LastFlushed, SessionOf, StopAfter, Carries, EndActive;
    var st := s.streams[id];
    InOrder(corpus, s, id);
    var t := ReadActive(s, id, st, c);
    if c.wire != [] {
      NextIsExpected(corpus, id, c, st, s.marks, 0);
      UpdateKeepsInv(corpus, s, t, id, t.streams[id]);
    } else if c.closed {
      EndActiveKeepsInv(corpus, s, t, id, st, c);
    }
  }

  lemma ReadStandbyKeepsInv(corpus: Corpus, s: System, id: string, c: Connection)
    requires Inv(corpus, s) && id in s.streams && s.streams[id].phase == Resuming(c)
    ensures Inv(corpus, ReadStandby(s, id, s.streams[id], c))
  {
    hide Inv, Chunks, Filtered, Judge, LastFlushed, SessionOf, StopAfter;
    var st := s.streams[id];
    InOrder(corpus, s, id);
    var t := ReadStandby(s, id, st, c);
    if c.wire != [] {
      NextIsExpected(corpus, id, c, st, s.marks, st.resumedAt);
      UpdateKeepsInv(corpus, s, t, id, t.streams[id]);
    } else if c.closed {
      UpdateKeepsInv(corpus, s, t, id, t.streams[id]);
    }
  }

  lemma WrittenKeepsInv(corpus: Corpus, s: System, id: string)
    requires Inv(corpus, s) && id in s.streams
    ensures Inv(corpus, StreamStep(corpus, s, Written(id), id, s.streams[id]))
  {
    hide Inv, Chunks, Carries, LastFlushed, SessionOf, StopAfter, Complete, AfterChunk, Finish;
    var st := s.streams[id];
    InOrder(corpus, s, id);
    var t := StreamStep(corpus, s, Written(id), id, st);
    match st.phase {
      case Writing(c, q) => AfterChunkKeepsInv(corpus, s, id, st, c, q);
      case ResumeWriting(c) => UpdateKeepsInv(corpus, s, t, id, t.streams[id]);
      case Finishing => FinishKeepsInv(corpus, s, id, st);
      case _ =>
    }
  }

  lemma TickKeepsInv(corpus: Corpus, s: System, id: string, timedOut: bool)
    requires Inv(corpus, s) && id in s.streams
    ensures Inv(corpus, StreamStep(corpus, s, Tick(id, timedOut), id, s.streams[id]))
  {
    hide Inv, LastFlushed, StopAfter;
    var st := s.streams[id];
    InOrder(corpus, s, id);
    var t := StreamStep(corpus, s, Tick(id, timedOut), id, st);
    if st.phase == Buffering && (SessionOf(s, id).handoverReady || timedOut) {
      UpdateKeepsInv(corpus, s, t, id, t.streams[id]);
    }
  }

  lemma AlertKeepsInv(corpus: Corpus, s: System, cutoff: int)
    requires Inv(corpus, s)
    ensures Inv(corpus, AlertStep(s, cutoff))
  {
    var t := AlertStep(s, cutoff);
    forall x | x in t.streams
      ensures StreamOk(corpus, x, t.streams[x], SessionOf(t, x), LastFlushed(t.marks, x))
    {
      assert StreamOk(corpus, x, s.streams[x], SessionOf(s, x), LastFlushed(s.marks, x));
      assert SessionOf(s, x).preemptionSignaled ==> SessionOf(t, x).preemptionSignaled;
    }
  }

  lemma StepKeepsInv(corpus: Corpus, s: System, a: Action)
    requires Inv(corpus, s)
    ensures Inv(corpus, Step(corpus, s, a))
  {
    hide StreamOk, FinishedOk, StreamStep, AlertStep, LastFlushed;
    match a {
      case Arrive(id, maxTokens) => ArriveKeepsInv(corpus, s, id, maxTokens);
      case Alert(cutoff) => AlertKeepsInv(corpus, s, cutoff);
      case Ready(id) => ReadyKeepsInv(corpus, s, id);
      case Pause =>
      case Resume =>
      case _ =>
        if a.id in s.streams {
          StreamStepKeepsInv(corpus, s, a, a.id);
        }
    }
  }

  lemma ArriveKeepsInv(corpus: Corpus, s: System, id: string, maxTokens: nat)
    requires Inv(corpus, s)
    ensures Inv(corpus, Step(corpus, s, Arrive(id, maxTokens)))
  {
    hide LastFlushed, StreamStep, AlertStep, Carries, Complete;
    if id !in s.streams {
      assert LastFlushed(s.marks, id) == -1 && id !in s.sessions;
      hide Inv;
      LocalKeepsInv(corpus, s, Step(corpus, s, Arrive(id, maxTokens)), id);
    }
  }

  lemma ReadyKeepsInv(corpus: Corpus, s: System, id: string)
    requires Inv(corpus, s)
    ensures Inv(corpus, Step(corpus, s, Ready(id)))
  {
    hide StreamOk, LastFlushed, StreamStep, AlertStep;
    if id in s.sessions {
      InOrder(corpus, s, id);
      ReadyIsInOrder(corpus, id, s.streams[id], s.sessions[id], LastFlushed(s.marks, id));
      hide Inv;
      LocalKeepsInv(corpus, s, Step(corpus, s, Ready(id)), id);
    }
  }

  lemma ReadyIsInOrder(corpus: Corpus, id: string, st: Stream, session: Session, last: int)
    requires StreamOk(corpus, id, st, session, last)
    ensures StreamOk(corpus, id, st, MadeReady(session), last)
  {
    hide Carries, Complete, Chunks;
  }

  lemma StreamStepKeepsInv(corpus: Corpus, s: System, a: Action, id: string)
    requires Inv(corpus, s) && id in s.streams
    ensures Inv(corpus, StreamStep(corpus, s, a, id, s.streams[id]))
  {
    hide StreamOk, FinishedOk, LastFlushed, EngineStep, ReadActive, ReadStandby, DropStep;
    match a {
      case Begin(_) =>
        assert StreamStep(corpus, s, a, id, s.streams[id]) == StreamStep(corpus, s, Begin(id), id, s.streams[id]);
        BeginKeepsInv(corpus, s, id);
      case EngineTurn(_) => EngineKeepsInv(corpus, s, id);
      case Read(_) =>
        match s.streams[id].phase {
          case Reading(c) => ReadActiveKeepsInv(corpus, s, id, c);
          case Resuming(c) => ReadStandbyKeepsInv(corpus, s, id, c);
          case _ =>
        }
      case Written(_) =>
        assert StreamStep(corpus, s, a, id, s.streams[id]) == StreamStep(corpus, s, Written(id), id, s.streams[id]);
        WrittenKeepsInv(corpus, s, id);
      case Tick(_, timedOut) =>
        assert StreamStep(corpus, s, a, id, s.streams[id])
            == StreamStep(corpus, s, Tick(id, timedOut), id, s.streams[id]);
        TickKeepsInv(corpus, s, id, timedOut);
      case Drop(_, kept) => DropKeepsInv(corpus, s, id, kept);
      case _ =>
    }
  }

  lemma {:induction false} RunKeepsInv(corpus: Corpus, s: System, actions: seq<Action>)
    requires Inv(corpus, s)
    ensures Inv(corpus, Run(corpus, s, actions))
    decreases |actions|
  {
    hide Inv, Step;
    if actions != [] {
      StepKeepsInv(corpus, s, actions[0]);
      RunKeepsInv(corpus, Step(corpus, s, actions[0]), actions[1..]);
    }
  }

  // ---------------------------------------------------------------------
  // No missed preemption
  // ---------------------------------------------------------------------

  /** The request is still served by its first upstream, and that is the active engine. */
  predicate OnActive(st: Stream) {
    match st.phase
    case Reading(c) => c.node == ActiveNode
    case Writing(c, _) => c.node == ActiveNode
    case _ => false
  }

  /** Phase 1 of the request has lost part of the answer. */
  predicate Shortened(st: Stream) {
    match st.phase
    case Reading(c) => c.closed && c.next < c.stop
    case Writing(c, _) => c.closed && c.next < c.stop
    case _ => false
  }

  /** What a step of one request can change: it never returns to the active engine; its upstream is shortened
      only by a pause or a broken connection; and it ends phase 1 short only without a signal. */
  ghost predicate OwnChange(s: System, id: string, st: Stream, st': Stream, broken: bool) {
    && (OnActive(st') ==> OnActive(st) || (st.phase == Preparing && !s.preemptionActive))
    && (Shortened(st') ==> Shortened(st) || s.enginePaused || broken)
    && (st'.cutShort ==> st.cutShort || (Shortened(st) && !SessionOf(s, id).preemptionSignaled))
  }

  ghost predicate OwnStep(s: System, t: System, id: string, broken: bool)
    requires id in s.streams
  {
    && t.preemptionActive == s.preemptionActive && t.enginePaused == s.enginePaused
    && (forall x :: x in t.streams && x != id ==> x in s.streams && t.streams[x] == s.streams[x])
    && (forall x :: x in s.sessions && x != id ==> x in t.sessions && t.sessions[x] == s.sessions[x])
    && (t.finished == s.finished || exists done :: t.finished == s.finished + [Finished(id, s.streams[id], done)])
    && (id in t.streams ==> OwnChange(s, id, s.streams[id], t.streams[id], broken))
    && (id in t.streams && id in s.sessions ==> id in t.sessions && t.sessions[id] == s.sessions[id])
  }

  lemma MovesOn(s: System, t: System, id: string, st': Stream, broken: bool)
    requires id in s.streams && t.streams == s.streams[id := st'] && t.finished == s.finished
    requires t.sessions == s.sessions || t.sessions == s.sessions[id := SessionOf(s, id)]
    requires t.preemptionActive == s.preemptionActive && t.enginePaused == s.enginePaused
    requires OwnChange(s, id, s.streams[id], st', broken)
    ensures OwnStep(s, t, id, broken)
  {
    hide OwnChange;
  }

  lemma Ends(s: System, id: string, done: bool, broken: bool)
    requires id in s.streams
    ensures OwnStep(s, Finish(s, id, s.streams[id], done), id, broken)
  {
    hide Forgotten;
  }

  lemma EmitShortens(corpus: Corpus, id: string, c: Connection, paused: bool)
    ensures var c' := Emit(corpus, id, c, paused);
            && c'.node == c.node
            && (c'.closed && c'.next < c'.stop && c.next <= c.stop ==> (c.closed && c.next < c.stop) || paused)
  {
  }

  /** What the invariant says about the engine's position and the history of a live request. */
  predicate UpstreamInRange(st: Stream) {
    match st.phase
    case Reading(c) => c.next <= c.stop
    case Writing(c, _) => c.next <= c.stop
    case _ => true
  }

  lemma EngineOwn(corpus: Corpus, s: System, id: string)
    requires id in s.streams && UpstreamInRange(s.streams[id])
    ensures OwnStep(s, EngineStep(corpus, s, id, s.streams[id]), id, false)
  {
    hide Emit, OwnStep;
    var st := s.streams[id];
    var t := EngineStep(corpus, s, id, st);
    match st.phase {
      case Reading(c) => EmitShortens(corpus, id, c, c.node == ActiveNode && s.enginePaused);
      case Writing(c, q) => EmitShortens(corpus, id, c, c.node == ActiveNode && s.enginePaused);
      case _ =>
    }
    assert s.streams == s.streams[id := st];
    MovesOn(s, t, id, t.streams[id], false);
  }

  lemma EndActiveOwn(s: System, id: string, c: Connection)
    requires id in s.streams
    requires c.closed && c.next < c.stop ==> Shortened(s.streams[id])
    requires SessionOf(s, id).preemptionSignaled || c.closed
    ensures OwnStep(s, EndActive(s, id, s.streams[id], c), id, false)
  {
    hide SessionOf, OwnStep;
    var t := EndActive(s, id, s.streams[id], c);
    MovesOn(s, t, id, t.streams[id], false);
  }

  lemma AfterChunkOwn(s: System, id: string, c: Connection, q: int)
    requires id in s.streams
    requires c.closed && c.next < c.stop ==> Shortened(s.streams[id])
    requires c.node == ActiveNode ==> OnActive(s.streams[id])
    ensures OwnStep(s, AfterChunk(s, id, s.streams[id], c, q), id, false)
  {
    hide EndActive, SessionOf, OwnStep;
    if ReachedCutoff(SessionOf(s, id), q) {
      EndActiveOwn(s, id, c);
    } else {
      var t := AfterChunk(s, id, s.streams[id], c, q);
      MovesOn(s, t, id, t.streams[id], false);
    }
  }

  lemma ReadActiveOwn(s: System, id: string, c: Connection)
    requires id in s.streams && s.streams[id].phase == Reading(c)
    ensures OwnStep(s, ReadActive(s, id, s.streams[id], c), id, false)
  {
    hide EndActive, AfterChunk, Judge, Filtered, LastFlushed, OwnStep, SessionOf, Finish;
    var st := s.streams[id];
    var t := ReadActive(s, id, st, c);
    if c.wire != [] {
      var q := c.wire[0].sequenceId;
      match Judge(LastFlushed(s.marks, id), q) {
        case Drop => AfterChunkOwn(s, id, c.(wire := c.wire[1..]), q);
        case Gap => Ends(s, id, false, false);
        case Accept => MovesOn(s, t, id, t.streams[id], false);
      }
    } else if c.closed {
      EndActiveOwn(s, id, c);
    } else {
      assert s.streams == s.streams[id := st];
      MovesOn(s, t, id, st, false);
    }
  }

  lemma ReadStandbyOwn(s: System, id: string, c: Connection)
    requires id in s.streams && s.streams[id].phase == Resuming(c)
    ensures OwnStep(s, ReadStandby(s, id, s.streams[id], c), id, false)
  {
    hide Judge, Filtered, LastFlushed, OwnStep, SessionOf, Finish;
    var st := s.streams[id];
    var t := ReadStandby(s, id, st, c);
    if c.wire != [] && Judge(LastFlushed(s.marks, id), c.wire[0].sequenceId) == Gap {
      Ends(s, id, false, false);
    } else {
      assert s.streams == s.streams[id := st];
      MovesOn(s, t, id, t.streams[id], false);
    }
  }

  lemma DropOwn(s: System, id: string, kept: nat)
    requires id in s.streams
    ensures OwnStep(s, DropStep(s, id, s.streams[id], kept), id, true)
  {
    hide Break, OwnStep, SessionOf;
    var st := s.streams[id];
    var t := DropStep(s, id, st, kept);
    match st.phase {
      case Reading(c) => BreakKeepsNode(c, kept);
      case Writing(c, q) => BreakKeepsNode(c, kept);
      case _ =>
    }
    assert s.streams == s.streams[id := st];
    MovesOn(s, t, id, t.streams[id], true);
  }

  lemma BreakKeepsNode(c: Connection, kept: nat)
    ensures Break(c, kept).node == c.node
  {
  }

  lemma OtherOwn(corpus: Corpus, s: System, a: Action, id: string)
    requires id in s.streams && (a.Begin? || a.Tick?)
    ensures OwnStep(s, StreamStep(corpus, s, a, id, s.streams[id]), id, false)
  {
    hide LastFlushed, StopAfter, EngineStep, DropStep, ReadActive, ReadStandby, AfterChunk, OwnStep, SessionOf;
    var st := s.streams[id];
    var t := StreamStep(corpus, s, a, id, st);
    assert s.streams == s.streams[id := st];
    MovesOn(s, t, id, t.streams[id], false);
  }

  lemma WrittenOwn(corpus: Corpus, s: System, a: Action, id: string)
    requires id in s.streams && a.Written?
    ensures OwnStep(s, StreamStep(corpus, s, a, id, s.streams[id]), id, false)
  {
    hide AfterChunk, EngineStep, DropStep, ReadActive, ReadStandby, OwnStep, SessionOf, Finish;
    var st := s.streams[id];
    var t := StreamStep(corpus, s, a, id, st);
    match st.phase {
      case Writing(c, q) => AfterChunkOwn(s, id, c, q);
      case Finishing => Ends(s, id, true, false);
      case _ =>
        assert s.streams == s.streams[id := st];
        MovesOn(s, t, id, t.streams[id], false);
    }
  }

  lemma StreamStepOwn(corpus: Corpus, s: System, a: Action, id: string)
    requires id in s.streams && UpstreamInRange(s.streams[id])
    ensures OwnStep(s, StreamStep(corpus, s, a, id, s.streams[id]), id, a.Drop?)
  {
    hide EngineStep, DropStep, ReadActive, ReadStandby, AfterChunk, Finish, Connect, Open;
    var st := s.streams[id];
    match a {
      case EngineTurn(_) => EngineOwn(corpus, s, id);
      case Read(_) =>
        match st.phase {
          case Reading(c) => ReadActiveOwn(s, id, c);
          case Resuming(c) => ReadStandbyOwn(s, id, c);
          case _ =>
        }
      case Drop(_, kept) => DropOwn(s, id, kept);
      case Begin(_) => OtherOwn(corpus, s, a, id);
      case Written(_) => WrittenOwn(corpus, s, a, id);
      case Tick(_, _) => OtherOwn(corpus, s, a, id);
      case _ =>
    }
  }

  lemma InRange(corpus: Corpus, s: System, id: string)
    requires Inv(corpus, s) && id in s.streams
    ensures UpstreamInRange(s.streams[id])
  {
    hide Inv, Chunks, LastFlushed, SessionOf, StopAfter;
    InOrder(corpus, s, id);
  }

  predicate IsControl(a: Action) {
    a.Arrive? || a.Alert? || a.Ready? || a.Pause? || a.Resume?
  }

  lemma StepOfStream(corpus: Corpus, s: System, a: Action)
    requires !IsControl(a)
    ensures Step(corpus, s, a) == if a.id in s.streams then StreamStep(corpus, s, a, a.id, s.streams[a.id]) else s
  {
    hide StreamStep;
  }

  ghost predicate NoMissed(s: System) {
    s.preemptionActive ==>
      forall id :: id in s.streams && OnActive(s.streams[id]) ==>
        id in s.sessions && s.sessions[id].preemptionSignaled
  }

  lemma ControlKeepsNoMissed(corpus: Corpus, s: System, a: Action)
    requires Inv(corpus, s) && NoMissed(s) && IsControl(a)
    ensures NoMissed(Step(corpus, s, a))
    ensures s.preemptionActive || a.Alert? <==> Step(corpus, s, a).preemptionActive
  {
    hide StreamOk, FinishedOk, StreamStep, LastFlushed;
  }

  lemma StepKeepsNoMissed(corpus: Corpus, s: System, a: Action)
    requires Inv(corpus, s) && NoMissed(s)
    ensures NoMissed(Step(corpus, s, a))
    ensures s.preemptionActive || a.Alert? <==> Step(corpus, s, a).preemptionActive
  {
    hide StreamOk, FinishedOk, StreamStep, LastFlushed, Step;
    if IsControl(a) {
      ControlKeepsNoMissed(corpus, s, a);
    } else {
      StepOfStream(corpus, s, a);
      if a.id in s.streams {
        InRange(corpus, s, a.id);
        StreamStepOwn(corpus, s, a, a.id);
      }
    }
  }

  /** In every run: as soon as an alert was handled, each request still served by the active engine has been
      told, and every request that chooses its upstream afterwards chooses the standby. */
  lemma {:induction false} NoMissedPreemption(corpus: Corpus, s: System, actions: seq<Action>)
    requires Inv(corpus, s) && NoMissed(s)
    ensures var t := Run(corpus, s, actions);
            && NoMissed(t)
            && (t.preemptionActive <==> s.preemptionActive || exists k :: 0 <= k < |actions| && actions[k].Alert?)
    decreases |actions|
  {
    hide Inv, NoMissed, Step;
    if actions != [] {
      var next := Step(corpus, s, actions[0]);
      StepKeepsInv(corpus, s, actions[0]);
      StepKeepsNoMissed(corpus, s, actions[0]);
      NoMissedPreemption(corpus, next, actions[1..]);
      var t := Run(corpus, next, actions[1..]);
      if k :| 0 <= k < |actions| && actions[k].Alert? {
        if k > 0 {
          assert actions[1..][k - 1].Alert?;
        }
      }
      if j :| 0 <= j < |actions[1..]| && actions[1..][j].Alert? {
        assert actions[j + 1].Alert?;
      }
    }
  }

  // ---------------------------------------------------------------------
  // Cuts that were announced
  // ---------------------------------------------------------------------

  /** The active engine stops sending: it is paused, or a connection to it breaks. */
  predicate IsCut(a: Action) {
    a.Pause? || a.Drop?
  }

  /** The alert is handled by the proxy before the active engine stops sending. */
  ghost predicate AlertFirst(active: bool, actions: seq<Action>) {
    forall k :: 0 <= k < |actions| && IsCut(actions[k]) ==> active || AlertedBefore(actions, k)
  }

  ghost predicate AlertedBefore(actions: seq<Action>, k: nat) {
    exists j :: 0 <= j < k && j < |actions| && actions[j].Alert?
  }

  ghost predicate CutsAnnounced(s: System) {
    && (s.enginePaused ==> s.preemptionActive)
    && (forall id :: id in s.streams ==> !s.streams[id].cutShort)
    && (forall id :: id in s.streams && Shortened(s.streams[id]) ==> s.preemptionActive)
    && (forall k :: 0 <= k < |s.finished| ==> !s.finished[k].stream.cutShort)
  }

  lemma ControlKeepsCutsAnnounced(corpus: Corpus, s: System, a: Action)
    requires IsControl(a) && CutsAnnounced(s) && (a.Pause? ==> s.preemptionActive)
    ensures CutsAnnounced(Step(corpus, s, a))
  {
    hide StreamStep;
  }

  /** A request whose upstream was shortened is on the active engine: the standby sends everything. */
  lemma ShortenedIsOnActive(corpus: Corpus, s: System, id: string)
    requires Inv(corpus, s) && id in s.streams
    ensures Shortened(s.streams[id]) ==> OnActive(s.streams[id])
  {
    hide Inv, Chunks, LastFlushed, SessionOf, StopAfter;
    InOrder(corpus, s, id);
  }

  lemma StepKeepsCutsAnnounced(corpus: Corpus, s: System, a: Action)
    requires Inv(corpus, s) && NoMissed(s) && CutsAnnounced(s)
    requires IsCut(a) ==> s.preemptionActive
    ensures CutsAnnounced(Step(corpus, s, a))
  {
    hide Inv, StreamStep, LastFlushed, Step, OnActive, Shortened;
    if IsControl(a) {
      ControlKeepsCutsAnnounced(corpus, s, a);
    } else {
      StepOfStream(corpus, s, a);
      if a.id in s.streams {
        InRange(corpus, s, a.id);
        StreamStepOwn(corpus, s, a, a.id);
        ShortenedIsOnActive(corpus, s, a.id);
      }
    }
  }

  lemma {:induction false} RunKeepsCutsAnnounced(corpus: Corpus, s: System, actions: seq<Action>)
    requires Inv(corpus, s) && NoMissed(s) && CutsAnnounced(s)
    requires AlertFirst(s.preemptionActive, actions)
    ensures CutsAnnounced(Run(corpus, s, actions))
    decreases |actions|
  {
    hide Inv, NoMissed, CutsAnnounced, Step;
    if actions != [] {
      var a := actions[0];
      var next := Step(corpus, s, a);
      StepKeepsInv(corpus, s, a);
      StepKeepsNoMissed(corpus, s, a);
      StepKeepsCutsAnnounced(corpus, s, a);
      forall k | 0 <= k < |actions[1..]| && IsCut(actions[1..][k])
        ensures next.preemptionActive || AlertedBefore(actions[1..], k)
      {
        assert IsCut(actions[k + 1]);
        if !next.preemptionActive {
          var j :| 0 <= j < k + 1 && actions[j].Alert?;
          assert actions[1..][j - 1].Alert?;
        }
      }
      RunKeepsCutsAnnounced(corpus, next, actions[1..]);
    }
  }

  // ---------------------------------------------------------------------
  // Exactly once
  // ---------------------------------------------------------------------

  lemma InitialInv(corpus: Corpus)
    ensures Inv(corpus, INITIAL) && NoMissed(INITIAL) && CutsAnnounced(INITIAL)
  {
  }

  /** What an uninterrupted run delivers. */
  function Uninterrupted(corpus: Corpus, id: string, maxTokens: nat): seq<TokenChunk> {
    Chunks(corpus, id, 0, StopAfter(corpus, 0, maxTokens))
  }

  /** In every interleaving of any number of streams with alerts, readiness signals, pauses and broken
      connections: no request ever fails, and what a request that ended in [DONE] delivered is a contiguous
      beginning of the answer, each token once and in order. It is complete unless phase 1 ended short with no
      preemption signaled, the guard before [DONE]. */
  lemma EveryRun(corpus: Corpus, actions: seq<Action>, k: nat)
    requires k < |Run(corpus, INITIAL, actions).finished|
    ensures var f := Run(corpus, INITIAL, actions).finished[k]; var st := f.stream;
            && f.done
            && st.delivered == Chunks(corpus, f.id, 0, |st.delivered|)
            && (|st.delivered| == StopAfter(corpus, st.resumedAt, st.maxTokens) <==> !st.cutShort)
  {
    hide Step, StreamOk, Inv, NoMissed, CutsAnnounced;
    InitialInv(corpus);
    RunKeepsInv(corpus, INITIAL, actions);
    FinishedInOrder(corpus, Run(corpus, INITIAL, actions), k);
  }

  lemma FinishedInOrder(corpus: Corpus, s: System, k: nat)
    requires Inv(corpus, s) && k < |s.finished|
    ensures FinishedOk(corpus, s.finished[k])
  {
    hide StreamOk, FinishedOk;
  }

  /** Exactly-once delivery: when the alert reaches the proxy before the active engine stops sending, every
      request that ended delivered its answer completely and once, whichever way the switch was triggered. */
  lemma ExactlyOnce(corpus: Corpus, actions: seq<Action>, k: nat)
    requires AlertFirst(false, actions)
    requires k < |Run(corpus, INITIAL, actions).finished|
    ensures var f := Run(corpus, INITIAL, actions).finished[k]; var st := f.stream;
            && f.done
            && st.delivered == Chunks(corpus, f.id, 0, StopAfter(corpus, st.resumedAt, st.maxTokens))
            && (st.maxTokens >= |corpus| ==> st.delivered == Chunks(corpus, f.id, 0, |corpus|))
            && (st.delivered == Uninterrupted(corpus, f.id, st.maxTokens)
                <==> st.resumedAt == 0 || st.maxTokens >= |corpus|)
  {
    hide Step, StreamOk, Inv, NoMissed, Chunks;
    InitialInv(corpus);
    RunKeepsInv(corpus, INITIAL, actions);
    RunKeepsCutsAnnounced(corpus, INITIAL, actions);
    var s := Run(corpus, INITIAL, actions);
    FinishedInOrder(corpus, s, k);
    assert !s.finished[k].stream.cutShort;
  }

  /** So every request with a sufficient budget that ended, under whatever interleaving, has given its client each token
      of the corpus exactly once: chunk n carries id n and token n, for all of them and nothing else. */
  lemma DeliversCorpus(corpus: Corpus, actions: seq<Action>, k: nat)
    requires AlertFirst(false, actions)
    requires k < |Run(corpus, INITIAL, actions).finished|
    requires Run(corpus, INITIAL, actions).finished[k].stream.maxTokens >= |corpus|
    ensures var delivered := Run(corpus, INITIAL, actions).finished[k].stream.delivered;
            && |delivered| == |corpus|
            && forall n :: 0 <= n < |corpus| ==> delivered[n].sequenceId == n && delivered[n].token == corpus[n]
  {
    hide Run, AlertFirst;
    ExactlyOnce(corpus, actions, k);
  }

  // ---------------------------------------------------------------------
  // Completion, and the two ways to miss the answer
  // ---------------------------------------------------------------------

  lemma {:induction false} RunConcat(corpus: Corpus, s: System, a: seq<Action>, b: seq<Action>)
    ensures Run(corpus, s, a + b) == Run(corpus, Run(corpus, s, a), b)
    decreases |a|
  {
    hide Step;
    if a == [] {
      assert a + b == b;
    } else {
      assert (a + b)[1..] == a[1..] + b;
      RunConcat(corpus, Step(corpus, s, a[0]), a[1..], b);
    }
  }

  lemma RunThree(corpus: Corpus, s: System, a: Action, b: Action, c: Action)
    ensures Run(corpus, s, [a, b, c]) == Step(corpus, Step(corpus, Step(corpus, s, a), b), c)
  {
    hide Step;
    assert [a, b, c][1..] == [b, c] && [b, c][1..] == [c] && [c][1..] == [];
    RunFirst(corpus, s, [a, b, c]);
    RunFirst(corpus, Step(corpus, s, a), [b, c]);
    RunFirst(corpus, Step(corpus, Step(corpus, s, a), b), [c]);
  }

  /** The step by which a request itself gets on: the wait for the standby by its timeout. */
  function NextTurn(id: string, st: Stream): Action {
    match st.phase
    case Preparing => Begin(id)
    case Reading(c) => if c.wire != [] || c.closed then Read(id) else EngineTurn(id)
    case Writing(_, _) => Written(id)
    case Buffering => Tick(id, true)
    case Resuming(c) => if c.wire != [] || c.closed then Read(id) else EngineTurn(id)
    case ResumeWriting(_) => Written(id)
    case Finishing => Written(id)
  }

  predicate OwnTurn(a: Action, id: string) {
    (a.Begin? || a.EngineTurn? || a.Read? || a.Written? || a.Tick?) && a.id == id
  }

  /** What an upstream still has to do, at most: emit and close unless it is closed, have its chunks read and
      written. */
  function WorkOf(c: Connection, writing: bool): nat {
    (if c.closed then 0 else 1 + if c.next < c.stop then 3 * (c.stop - c.next) else 0)
    + 2 * |c.wire| + (if writing then 1 else 0)
  }

  /** How many own steps a request needs at most, whatever happens to it meanwhile. */
  function StepsLeft(corpus: Corpus, phase: Phase): (n: nat)
    ensures n > 0
  {
    match phase
    case Preparing => 7 + 6 * |corpus|
    case Reading(c) => 5 + 3 * |corpus| + WorkOf(c, false)
    case Writing(c, _) => 5 + 3 * |corpus| + WorkOf(c, true)
    case Buffering => 4 + 3 * |corpus|
    case Resuming(c) => 2 + WorkOf(c, false)
    case ResumeWriting(c) => 2 + WorkOf(c, true)
    case Finishing => 1
  }

  predicate PastSwitch(st: Stream) {
    st.phase.Resuming? || st.phase.ResumeWriting? || st.phase.Finishing?
  }

  /** What the own steps of a request do not change any more. */
  predicate Keeps(st: Stream, st': Stream) {
    && st'.maxTokens == st.maxTokens
    && (PastSwitch(st) ==> PastSwitch(st') && st'.resumedAt == st.resumedAt && st'.cutShort == st.cutShort)
  }

  predicate Fewer(corpus: Corpus, st: Stream, st': Stream, strictly: bool) {
    && StepsLeft(corpus, st'.phase) <= StepsLeft(corpus, st.phase)
    && (strictly ==> StepsLeft(corpus, st'.phase) < StepsLeft(corpus, st.phase))
  }

  /** One request moved, not backwards, nothing ended, and no other request was touched. */
  ghost predicate Moved(corpus: Corpus, s: System, t: System, id: string, strictly: bool)
    requires id in s.streams
  {
    && id in t.streams && t.streams == s.streams[id := t.streams[id]] && t.finished == s.finished
    && Keeps(s.streams[id], t.streams[id]) && Fewer(corpus, s.streams[id], t.streams[id], strictly)
  }

  lemma Unmoved(corpus: Corpus, s: System, id: string)
    requires id in s.streams
    ensures Moved(corpus, s, s, id, false)
  {
    hide StepsLeft;
    assert s.streams == s.streams[id := s.streams[id]];
  }

  lemma EmitWork(corpus: Corpus, id: string, c: Connection, paused: bool, writing: bool)
    requires c.next <= c.stop
    ensures WorkOf(Emit(corpus, id, c, paused), writing) <= WorkOf(c, writing)
    ensures !c.closed ==> WorkOf(Emit(corpus, id, c, paused), writing) < WorkOf(c, writing)
  {
  }

  lemma OpenWork(corpus: Corpus, node: Node, start: nat, maxTokens: nat)
    ensures WorkOf(Open(corpus, node, start, maxTokens), false) <= 3 * |corpus| + 1
  {
  }

  lemma BreakWork(c: Connection, kept: nat, writing: bool)
    ensures WorkOf(Break(c, kept), writing) <= WorkOf(c, writing)
  {
  }

  lemma ReadWork(c: Connection)
    requires c.wire != []
    ensures WorkOf(c.(wire := c.wire[1..]), true) < WorkOf(c, false)
  {
  }

  lemma WriteWork(c: Connection)
    ensures WorkOf(c, false) < WorkOf(c, true)
  {
  }

  predicate AtOpenUpstream(phase: Phase) {
    match phase
    case Reading(c) => !c.closed
    case Writing(c, _) => !c.closed
    case Resuming(c) => !c.closed
    case ResumeWriting(c) => !c.closed
    case _ => false
  }

  lemma EngineMoves(corpus: Corpus, s: System, id: string)
    requires Inv(corpus, s) && id in s.streams
    ensures Moved(corpus, s, EngineStep(corpus, s, id, s.streams[id]), id, AtOpenUpstream(s.streams[id].phase))
  {
    hide Inv, Emit, Chunks, LastFlushed, SessionOf, StopAfter, WorkOf;
    InOrder(corpus, s, id);
    match s.streams[id].phase {
      case Reading(c) => EmitWork(corpus, id, c, c.node == ActiveNode && s.enginePaused, false);
      case Writing(c, _) => EmitWork(corpus, id, c, c.node == ActiveNode && s.enginePaused, true);
      case Resuming(c) => EmitWork(corpus, id, c, c.node == ActiveNode && s.enginePaused, false);
      case ResumeWriting(c) => EmitWork(corpus, id, c, c.node == ActiveNode && s.enginePaused, true);
      case _ => Unmoved(corpus, s, id);
    }
  }

  lemma ReadActiveMoves(corpus: Corpus, s: System, id: string, c: Connection)
    requires Inv(corpus, s) && id in s.streams && s.streams[id].phase == Reading(c)
    ensures Moved(corpus, s, ReadActive(s, id, s.streams[id], c), id, c.wire != [] || c.closed)
  {
    hide Inv, Chunks, Filtered, Judge, LastFlushed, SessionOf, StopAfter, Carries, WorkOf;
    var st := s.streams[id];
    InOrder(corpus, s, id);
    Unmoved(corpus, s, id);
    if c.wire != [] {
      NextIsExpected(corpus, id, c, st, s.marks, 0);
      ReadWork(c);
    }
  }

  lemma ReadStandbyMoves(corpus: Corpus, s: System, id: string, c: Connection)
    requires Inv(corpus, s) && id in s.streams && s.streams[id].phase == Resuming(c)
    ensures Moved(corpus, s, ReadStandby(s, id, s.streams[id], c), id, c.wire != [] || c.closed)
  {
    hide Inv, Chunks, Filtered, Judge, LastFlushed, SessionOf, StopAfter, Carries, WorkOf;
    var st := s.streams[id];
    InOrder(corpus, s, id);
    Unmoved(corpus, s, id);
    if c.wire != [] {
      NextIsExpected(corpus, id, c, st, s.marks, st.resumedAt);
      ReadWork(c);
    }
  }

  lemma WrittenMoves(corpus: Corpus, s: System, id: string, a: Action)
    requires id in s.streams && a.Written? && s.streams[id].phase != Finishing
    ensures var phase := s.streams[id].phase;
            Moved(corpus, s, StreamStep(corpus, s, a, id, s.streams[id]), id, phase.Writing? || phase.ResumeWriting?)
  {
    hide SessionOf, WorkOf, EngineStep, DropStep, ReadActive, ReadStandby;
    match s.streams[id].phase {
      case Writing(c, _) => WriteWork(c);
      case ResumeWriting(c) => WriteWork(c);
      case _ => Unmoved(corpus, s, id);
    }
  }

  lemma BeginMoves(corpus: Corpus, s: System, id: string, a: Action)
    requires id in s.streams && a.Begin?
    ensures Moved(corpus, s, StreamStep(corpus, s, a, id, s.streams[id]), id, s.streams[id].phase == Preparing)
  {
    hide SessionOf, WorkOf, EngineStep, DropStep, ReadActive, ReadStandby, AfterChunk;
    var st := s.streams[id];
    Unmoved(corpus, s, id);
    OpenWork(corpus, if s.preemptionActive then StandbyNode else ActiveNode, 0, st.maxTokens);
  }

  lemma TickMoves(corpus: Corpus, s: System, id: string, a: Action)
    requires Inv(corpus, s) && id in s.streams && a.Tick?
    ensures Moved(corpus, s, StreamStep(corpus, s, a, id, s.streams[id]), id,
                  s.streams[id].phase == Buffering && a.timedOut)
  {
    hide Inv, SessionOf, LastFlushed, WorkOf, EngineStep, DropStep, ReadActive, ReadStandby, AfterChunk, StopAfter,
         Open;
    var st := s.streams[id];
    InOrder(corpus, s, id);
    Unmoved(corpus, s, id);
    OpenWork(corpus, StandbyNode, |st.delivered|, st.maxTokens);
  }

  lemma DropMoves(corpus: Corpus, s: System, id: string, kept: nat)
    requires id in s.streams
    ensures Moved(corpus, s, DropStep(s, id, s.streams[id], kept), id, false)
  {
    hide Break, WorkOf;
    Unmoved(corpus, s, id);
    match s.streams[id].phase {
      case Reading(c) => BreakWork(c, kept, false);
      case Writing(c, _) => BreakWork(c, kept, true);
      case _ =>
    }
  }

  /** No own step moves a request backwards, and its next turn moves it on. */
  lemma OwnStepMoves(corpus: Corpus, s: System, id: string, a: Action)
    requires Inv(corpus, s) && id in s.streams && !IsControl(a) && a.id == id
    requires !(s.streams[id].phase == Finishing && a.Written?)
    ensures Moved(corpus, s, Step(corpus, s, a), id, a == NextTurn(id, s.streams[id]))
  {
    hide Inv, Moved, EngineStep, ReadActive, ReadStandby, DropStep, AfterChunk, Connect, Open;
    var st := s.streams[id];
    StepOfStream(corpus, s, a);
    Unmoved(corpus, s, id);
    WeakerMove(corpus, s, Step(corpus, s, a), id);
    match a {
      case Begin(_) => BeginMoves(corpus, s, id, a);
      case EngineTurn(_) => EngineMoves(corpus, s, id);
      case Read(_) =>
        match st.phase {
          case Reading(c) => ReadActiveMoves(corpus, s, id, c);
          case Resuming(c) => ReadStandbyMoves(corpus, s, id, c);
          case _ =>
        }
      case Written(_) => WrittenMoves(corpus, s, id, a);
      case Tick(_, _) => TickMoves(corpus, s, id, a);
      case Drop(_, kept) => DropMoves(corpus, s, id, kept);
    }
  }

  lemma WeakerMove(corpus: Corpus, s: System, t: System, id: string)
    requires id in s.streams
    ensures Moved(corpus, s, t, id, true) ==> Moved(corpus, s, t, id, false)
  {
    hide StepsLeft, Keeps;
  }

  lemma FinishingEnds(corpus: Corpus, s: System, id: string)
    requires id in s.streams && s.streams[id].phase == Finishing
    ensures var t := Step(corpus, s, Written(id));
            && t.streams == s.streams - {id} && t.finished == s.finished + [Finished(id, s.streams[id], true)]
  {
    hide Forgotten;
  }

  /** The request has ended, with its budget, as the only change to streams and endings. */
  ghost predicate Ended(s: System, t: System, id: string)
    requires id in s.streams
  {
    && t.streams == s.streams - {id}
    && |t.finished| == |s.finished| + 1 && t.finished[..|s.finished|] == s.finished
    && var f := t.finished[|s.finished|]; f.id == id && f.done && Keeps(s.streams[id], f.stream)
  }

  lemma EndedLater(corpus: Corpus, s: System, s': System, t: System, id: string)
    requires id in s.streams && Moved(corpus, s, s', id, true) && Ended(s', t, id)
    ensures Ended(s, t, id)
  {
    hide StepsLeft;
    assert s.streams - {id} == s'.streams - {id};
  }

  /** From every reachable state every live request can be brought to its [DONE] by steps of its own, whatever the rest
      of the system is doing: with the active engine paused or not, the standby announced or not. */
  lemma {:induction false} EveryRequestCanEnd(corpus: Corpus, s: System, id: string) returns (turns: seq<Action>)
    requires Inv(corpus, s) && id in s.streams
    ensures forall a :: a in turns ==> OwnTurn(a, id)
    ensures |turns| <= StepsLeft(corpus, s.streams[id].phase)
    ensures Ended(s, Run(corpus, s, turns), id)
    decreases StepsLeft(corpus, s.streams[id].phase)
  {
    hide Inv, Step, Run, StepsLeft, Ended, Moved, Keeps;
    var st := s.streams[id];
    var a := NextTurn(id, st);
    var next := Step(corpus, s, a);
    assert OwnTurn(a, id);
    if st.phase == Finishing {
      turns := [a];
      assert turns[1..] == [];
      RunFirst(corpus, s, turns);
      RunNone(corpus, next);
      FinishingEnds(corpus, s, id);
      JustEnded(s, next, id);
    } else {
      OwnStepMoves(corpus, s, id, a);
      MovedMeans(corpus, s, next, id);
      StepKeepsInv(corpus, s, a);
      var rest := EveryRequestCanEnd(corpus, next, id);
      turns := [a] + rest;
      assert turns[1..] == rest;
      assert forall x :: x in turns ==> x == a || x in rest;
      RunFirst(corpus, s, turns);
      EndedLater(corpus, s, next, Run(corpus, next, rest), id);
    }
  }

  lemma MovedMeans(corpus: Corpus, s: System, t: System, id: string)
    requires id in s.streams && Moved(corpus, s, t, id, true)
    ensures id in t.streams && StepsLeft(corpus, t.streams[id].phase) < StepsLeft(corpus, s.streams[id].phase)
  {
    hide StepsLeft, Keeps;
  }

  /** In a run with the alert in time, every request that is still live can be brought to its end, and then has its
      answer complete. */
  lemma EveryRequestCanComplete(corpus: Corpus, actions: seq<Action>, id: string) returns (turns: seq<Action>)
    requires AlertFirst(false, actions) && id in Run(corpus, INITIAL, actions).streams
    ensures forall a :: a in turns ==> OwnTurn(a, id)
    ensures var s, t := Run(corpus, INITIAL, actions), Run(corpus, INITIAL, actions + turns);
            && Ended(s, t, id)
            && var st := t.finished[|s.finished|].stream;
               st.delivered == Chunks(corpus, id, 0, StopAfter(corpus, st.resumedAt, st.maxTokens))
  {
    hide Inv, Run, Chunks, NoMissed, CutsAnnounced;
    var s := Run(corpus, INITIAL, actions);
    InitialInv(corpus);
    RunKeepsInv(corpus, INITIAL, actions);
    turns := EveryRequestCanEnd(corpus, s, id);
    RunConcat(corpus, INITIAL, actions, turns);
    TurnsKeepAlertFirst(actions, turns, id);
    hide AlertFirst;
    ExactlyOnce(corpus, actions + turns, |s.finished|);
  }

  lemma TurnsKeepAlertFirst(actions: seq<Action>, turns: seq<Action>, id: string)
    requires AlertFirst(false, actions) && forall a :: a in turns ==> OwnTurn(a, id)
    ensures AlertFirst(false, actions + turns)
  {
    var all := actions + turns;
    forall k | |actions| <= k < |all|
      ensures !IsCut(all[k])
    {
      assert all[k] == turns[k - |actions|] && all[k] in turns;
    }
    forall k | 0 <= k < |actions| && IsCut(all[k])
      ensures AlertedBefore(all, k)
    {
      assert IsCut(actions[k]);
      var j :| 0 <= j < k && j < |actions| && actions[j].Alert?;
      assert all[j].Alert?;
    }
  }

  lemma RunNone(corpus: Corpus, s: System)
    ensures Run(corpus, s, []) == s
  {
  }

  lemma JustEnded(s: System, t: System, id: string)
    requires id in s.streams && t.streams == s.streams - {id}
    requires t.finished == s.finished + [Finished(id, s.streams[id], true)]
    ensures Ended(s, t, id)
  {
  }

  // ---------------------------------------------------------------------
  // Every fair run ends every request
  // ---------------------------------------------------------------------

  /** The request has left, finished by [DONE]. */
  ghost predicate HasEnded(s: System, t: System, id: string) {
    && id !in t.streams
    && exists stream :: t.finished == s.finished + [Finished(id, stream, true)]
  }

  /** Whatever one step is: the request gets no further from its end; its own next turn brings it nearer; and it only
      leaves by its [DONE]. */
  lemma AnyStepMoves(corpus: Corpus, s: System, id: string, a: Action)
    requires Inv(corpus, s) && id in s.streams
    ensures var t := Step(corpus, s, a);
            if id in t.streams then
              Fewer(corpus, s.streams[id], t.streams[id], a == NextTurn(id, s.streams[id]))
            else HasEnded(s, t, id)
  {
    hide Inv, Step, StepsLeft, NextTurn, StreamStep, AlertStep;
    var t := Step(corpus, s, a);
    NextTurnIsOwn(id, s.streams[id]);
    if IsControl(a) {
      ControlLeavesStreams(corpus, s, a);
    } else if a.id in s.streams {
      if s.streams[a.id].phase == Finishing && a.Written? {
        FinishingEnds(corpus, s, a.id);
        assert a == Written(a.id);
      } else {
        OwnStepMoves(corpus, s, a.id, a);
      }
    } else {
      StepOfStream(corpus, s, a);
    }
  }

  lemma NextTurnIsOwn(id: string, st: Stream)
    ensures OwnTurn(NextTurn(id, st), id) && !IsControl(NextTurn(id, st))
  {
  }

  lemma ControlLeavesStreams(corpus: Corpus, s: System, a: Action)
    requires IsControl(a)
    ensures forall id :: id in s.streams ==>
              id in Step(corpus, s, a).streams && Step(corpus, s, a).streams[id] == s.streams[id]
  {
    hide StreamStep;
  }

  /** How often a run lets the request take its next turn before it ends. */
  function TurnsTaken(corpus: Corpus, s: System, id: string, actions: seq<Action>): nat
    decreases |actions|
  {
    if actions == [] || id !in s.streams then 0
    else
      (if actions[0] == NextTurn(id, s.streams[id]) then 1 else 0)
      + TurnsTaken(corpus, Step(corpus, s, actions[0]), id, actions[1..])
  }

  /** A request never has more turns before its end than StepsLeft. And every finite run falls into one of two cases: at
      some step k the request, live until then, ended by [DONE]; or it is live throughout and has had fewer turns. */
  lemma {:induction false} TurnsBounded(corpus: Corpus, s: System, id: string, actions: seq<Action>) returns (k: nat)
    requires Inv(corpus, s) && id in s.streams
    ensures k <= |actions| && forall j :: 0 <= j <= k ==> id in Run(corpus, s, actions[..j]).streams
    ensures if k < |actions| then HasEnded(Run(corpus, s, actions[..k]), Run(corpus, s, actions[..k + 1]), id)
            else TurnsTaken(corpus, s, id, actions) < StepsLeft(corpus, s.streams[id].phase)
    ensures TurnsTaken(corpus, s, id, actions) <= StepsLeft(corpus, s.streams[id].phase)
    decreases |actions|
  {
    hide Inv, Step, Run, StepsLeft, NextTurn, HasEnded;
    assert actions[..0] == [];
    RunNone(corpus, s);
    if actions == [] {
      k := 0;
    } else {
      var a := actions[0];
      var next := Step(corpus, s, a);
      AnyStepMoves(corpus, s, id, a);
      StepKeepsInv(corpus, s, a);
      assert actions[1..][..0] == [];
      RunNone(corpus, next);
      RunBehind(corpus, s, actions, 0);
      if id in next.streams {
        var later := TurnsBounded(corpus, next, id, actions[1..]);
        k := later + 1;
        if later < |actions[1..]| {
          RunBehind(corpus, s, actions, later);
          RunBehind(corpus, s, actions, later + 1);
        }
        forall j | 0 <= j <= k
          ensures id in Run(corpus, s, actions[..j]).streams
        {
          if j > 0 {
            RunBehind(corpus, s, actions, j - 1);
          }
        }
      } else {
        k := 0;
        NoMoreTurns(corpus, next, id, actions[1..]);
      }
    }
  }

  lemma NoMoreTurns(corpus: Corpus, s: System, id: string, actions: seq<Action>)
    requires id !in s.streams
    ensures TurnsTaken(corpus, s, id, actions) == 0
  {
  }

  lemma RunBehind(corpus: Corpus, s: System, actions: seq<Action>, j: nat)
    requires j < |actions|
    ensures Run(corpus, s, actions[..j + 1]) == Run(corpus, Step(corpus, s, actions[0]), actions[1..][..j])
  {
    hide Step;
    assert actions[..j + 1][1..] == actions[1..][..j];
    RunFirst(corpus, s, actions[..j + 1]);
  }

  /** A run without end: the action of every step. */
  type Schedule = nat -> Action

  function StateAt(corpus: Corpus, s: System, schedule: Schedule, n: nat): System {
    if n == 0 then s else Step(corpus, StateAt(corpus, s, schedule, n - 1), schedule(n - 1))
  }

  ghost predicate TakesTurn(corpus: Corpus, s: System, id: string, schedule: Schedule, n: nat) {
    var t := StateAt(corpus, s, schedule, n);
    id in t.streams ==> schedule(n) == NextTurn(id, t.streams[id])
  }

  ghost predicate TurnAfter(corpus: Corpus, s: System, id: string, schedule: Schedule, n: nat) {
    exists m: nat :: n <= m && TakesTurn(corpus, s, id, schedule, m)
  }

  /** At every time the request will still get a turn, sooner or later, unless it has left by then. */
  ghost predicate Fair(corpus: Corpus, s: System, id: string, schedule: Schedule) {
    forall n: nat :: TurnAfter(corpus, s, id, schedule, n)
  }

  ghost predicate LiveUntil(corpus: Corpus, s: System, id: string, schedule: Schedule, n: nat) {
    forall j: nat :: j <= n ==> id in StateAt(corpus, s, schedule, j).streams
  }

  lemma {:induction false} StateKeepsInv(corpus: Corpus, s: System, schedule: Schedule, n: nat)
    requires Inv(corpus, s)
    ensures Inv(corpus, StateAt(corpus, s, schedule, n))
  {
    hide Inv, Step;
    if n > 0 {
      StateKeepsInv(corpus, s, schedule, n - 1);
      StepKeepsInv(corpus, StateAt(corpus, s, schedule, n - 1), schedule(n - 1));
    }
  }

  /** What one step of a schedule does to a live request. */
  lemma ScheduledStep(corpus: Corpus, s: System, id: string, schedule: Schedule, n: nat)
    requires Inv(corpus, s) && LiveUntil(corpus, s, id, schedule, n)
    ensures id in StateAt(corpus, s, schedule, n).streams
    ensures var t, next := StateAt(corpus, s, schedule, n), StateAt(corpus, s, schedule, n + 1);
            if id in next.streams then
              && LiveUntil(corpus, s, id, schedule, n + 1)
              && Fewer(corpus, t.streams[id], next.streams[id], TakesTurn(corpus, s, id, schedule, n))
            else HasEnded(t, next, id)
  {
    hide Inv, Step, StepsLeft, NextTurn, HasEnded;
    StateKeepsInv(corpus, s, schedule, n);
    AnyStepMoves(corpus, StateAt(corpus, s, schedule, n), id, schedule(n));
  }

  ghost predicate Nearer(corpus: Corpus, s: System, t: System, id: string) {
    id in s.streams && id in t.streams && Fewer(corpus, s.streams[id], t.streams[id], false)
  }

  /** Between two times a live request either ends, or has no more steps left than before. */
  lemma {:induction false} EndsOrLives(corpus: Corpus, s: System, id: string, schedule: Schedule, n: nat, m: nat)
    returns (k: nat)
    requires Inv(corpus, s) && LiveUntil(corpus, s, id, schedule, n) && n <= m
    ensures k <= m && LiveUntil(corpus, s, id, schedule, k)
    ensures k < m ==> HasEnded(StateAt(corpus, s, schedule, k), StateAt(corpus, s, schedule, k + 1), id)
    ensures id in StateAt(corpus, s, schedule, n).streams
    ensures k == m ==> Nearer(corpus, StateAt(corpus, s, schedule, n), StateAt(corpus, s, schedule, m), id)
    decreases m - n
  {
    hide Inv, Step, StepsLeft, HasEnded, StateAt, TakesTurn;
    k := m;
    if n < m {
      ScheduledStep(corpus, s, id, schedule, n);
      if id in StateAt(corpus, s, schedule, n + 1).streams {
        k := EndsOrLives(corpus, s, id, schedule, n + 1, m);
      } else {
        k := n;
      }
    }
  }

  /** Every fair run ends every live request by [DONE], whatever the other requests, the engines, breaking connections
      and control messages do in between. */
  lemma EveryFairRunEnds(corpus: Corpus, s: System, id: string, schedule: Schedule) returns (k: nat)
    requires Inv(corpus, s) && id in s.streams && Fair(corpus, s, id, schedule)
    ensures LiveUntil(corpus, s, id, schedule, k)
    ensures HasEnded(StateAt(corpus, s, schedule, k), StateAt(corpus, s, schedule, k + 1), id)
  {
    hide Inv, Step, HasEnded, Fair;
    k := FairRunEndsFrom(corpus, s, id, schedule, 0);
  }

  lemma {:induction false} FairRunEndsFrom(corpus: Corpus, s: System, id: string, schedule: Schedule, n: nat)
    returns (k: nat)
    requires Inv(corpus, s) && Fair(corpus, s, id, schedule)
    requires LiveUntil(corpus, s, id, schedule, n) && id in StateAt(corpus, s, schedule, n).streams
    ensures LiveUntil(corpus, s, id, schedule, k)
    ensures HasEnded(StateAt(corpus, s, schedule, k), StateAt(corpus, s, schedule, k + 1), id)
    decreases StepsLeft(corpus, StateAt(corpus, s, schedule, n).streams[id].phase)
  {
    hide Inv, Step, StepsLeft, HasEnded, StateAt, TakesTurn, LiveUntil;
    assert TurnAfter(corpus, s, id, schedule, n);
    var m: nat :| n <= m && TakesTurn(corpus, s, id, schedule, m);
    k := EndsOrLives(corpus, s, id, schedule, n, m);
    if k == m {
      ScheduledStep(corpus, s, id, schedule, m);
      if id in StateAt(corpus, s, schedule, m + 1).streams {
        k := FairRunEndsFrom(corpus, s, id, schedule, m + 1);
      }
    }
  }

  /** Take these turns, then nothing that matters. */
  function ThenIdle(turns: seq<Action>): Schedule {
    n => if 0 <= n < |turns| then turns[n] else Resume
  }

  lemma {:induction false} StateIsRun(corpus: Corpus, s: System, schedule: Schedule, turns: seq<Action>, n: nat)
    requires n <= |turns| && forall j: nat :: j < |turns| ==> schedule(j) == turns[j]
    ensures StateAt(corpus, s, schedule, n) == Run(corpus, s, turns[..n])
  {
    hide Step;
    if n == 0 {
      assert turns[..0] == [];
    } else {
      StateIsRun(corpus, s, schedule, turns, n - 1);
      assert turns[..n] == turns[..n - 1] + [turns[n - 1]];
      RunConcat(corpus, s, turns[..n - 1], [turns[n - 1]]);
      RunFirst(corpus, Run(corpus, s, turns[..n - 1]), [turns[n - 1]]);
      assert [turns[n - 1]][1..] == [];
    }
  }

  lemma {:induction false} IdleKeepsAway(corpus: Corpus, s: System, id: string, schedule: Schedule, start: nat, n: nat)
    requires start <= n && id !in StateAt(corpus, s, schedule, start).streams
    requires forall j: nat :: j >= start ==> schedule(j) == Resume
    ensures id !in StateAt(corpus, s, schedule, n).streams
    decreases n - start
  {
    hide StreamStep, AlertStep;
    if n > start {
      IdleKeepsAway(corpus, s, id, schedule, start, n - 1);
    }
  }

  /** There are fair runs for every live request in every reachable state. */
  lemma FairRunsExist(corpus: Corpus, s: System, id: string) returns (schedule: Schedule)
    requires Inv(corpus, s) && id in s.streams
    ensures Fair(corpus, s, id, schedule)
  {
    hide Inv, Step, Run, StateAt, NextTurn, Keeps;
    var turns := EveryRequestCanEnd(corpus, s, id);
    schedule := ThenIdle(turns);
    StateIsRun(corpus, s, schedule, turns, |turns|);
    assert turns[..|turns|] == turns;
    forall n: nat
      ensures TurnAfter(corpus, s, id, schedule, n)
    {
      var m := Later(n, |turns|);
      IdleKeepsAway(corpus, s, id, schedule, |turns|, m);
      assert TakesTurn(corpus, s, id, schedule, m);
    }
  }

  function Later(a: nat, b: nat): (m: nat)
    ensures m >= a && m >= b
  {
    a + b
  }

  /** One chunk delivered, then the alert with cutoff 0 and the switch. */
  function SwitchAfterOne(id: string, maxTokens: nat): seq<Action> {
    [Arrive(id, maxTokens), Begin(id), EngineTurn(id)] + [Read(id), Alert(0), Written(id)] + [Tick(id, true)]
  }

  function Alone(id: string, preempted: bool, session: Session, marks: Marks, st: Stream): System {
    System(preempted, false, map[id := st], map[id := session], marks, [])
  }

  function OneOnWire(corpus: Corpus, id: string, maxTokens: nat): Connection {
    Connection(ActiveNode, 1, StopAfter(corpus, 0, maxTokens), [ChunkAt(corpus, id, 0)], false)
  }

  lemma OneEmitted(corpus: Corpus, id: string, maxTokens: nat)
    requires 0 < maxTokens < |corpus|
    ensures Run(corpus, INITIAL, [Arrive(id, maxTokens), Begin(id), EngineTurn(id)])
         == Alone(id, false, Session(false, false, -1), map[],
                  Stream(maxTokens, Reading(OneOnWire(corpus, id, maxTokens)), [], 0, false))
  {
    RunThree(corpus, INITIAL, Arrive(id, maxTokens), Begin(id), EngineTurn(id));
    var s1 := Step(corpus, INITIAL, Arrive(id, maxTokens));
    assert s1.streams == map[id := Stream(maxTokens, Preparing, [], 0, false)];
    var c := Open(corpus, ActiveNode, 0, maxTokens);
    var s2 := Step(corpus, s1, Begin(id));
    assert s2 == Alone(id, false, Session(false, false, -1), map[], Stream(maxTokens, Reading(c), [], 0, false));
    assert [] + [ChunkAt(corpus, id, 0)] == [ChunkAt(corpus, id, 0)];
    var s3 := Step(corpus, s2, EngineTurn(id));
    assert s3.streams == map[id := Stream(maxTokens, Reading(OneOnWire(corpus, id, maxTokens)), [], 0, false)];
  }

  lemma OneDelivered(corpus: Corpus, id: string, maxTokens: nat)
    requires 0 < maxTokens < |corpus|
    ensures Run(corpus, INITIAL, [Arrive(id, maxTokens), Begin(id), EngineTurn(id)] + [Read(id), Alert(0), Written(id)])
         == Alone(id, true, Session(true, false, 0), map[id := 0],
                  Stream(maxTokens, Buffering, [ChunkAt(corpus, id, 0)], 0, false))
  {
    OneEmitted(corpus, id, maxTokens);
    RunConcat(corpus, INITIAL, [Arrive(id, maxTokens), Begin(id), EngineTurn(id)], [Read(id), Alert(0), Written(id)]);
    var s3 := Run(corpus, INITIAL, [Arrive(id, maxTokens), Begin(id), EngineTurn(id)]);
    hide Run, Step, ChunkAt, OneOnWire;
    RunThree(corpus, s3, Read(id), Alert(0), Written(id));
    var chunk := ChunkAt(corpus, id, 0);
    var c := OneOnWire(corpus, id, maxTokens);
    OneOnWireIs(corpus, id, maxTokens);
    ReadAlone(corpus, id, c, chunk, maxTokens);
    var reading := Stream(maxTokens, Writing(c.(wire := []), 0), [chunk], 0, false);
    AlertAlone(corpus, id, map[id := 0], reading);
    WrittenAlone(corpus, id, map[id := 0], reading, c.(wire := []));
  }

  lemma OneOnWireIs(corpus: Corpus, id: string, maxTokens: nat)
    ensures OneOnWire(corpus, id, maxTokens).wire == [ChunkAt(corpus, id, 0)] && ChunkAt(corpus, id, 0).sequenceId == 0
  {
  }

  lemma ReadAlone(corpus: Corpus, id: string, c: Connection, chunk: TokenChunk, maxTokens: nat)
    requires c.wire == [chunk] && chunk.sequenceId == 0
    ensures Step(corpus,
                 Alone(id, false, Session(false, false, -1), map[], Stream(maxTokens, Reading(c), [], 0, false)),
                 Read(id))
         == Alone(id, false, Session(false, false, -1), map[id := 0],
                  Stream(maxTokens, Writing(c.(wire := []), 0), [chunk], 0, false))
  {
    assert c.wire[1..] == [] && [] + [chunk] == [chunk];
  }

  lemma AlertAlone(corpus: Corpus, id: string, marks: Marks, st: Stream)
    ensures Step(corpus, Alone(id, false, Session(false, false, -1), marks, st), Alert(0))
         == Alone(id, true, Session(true, false, 0), marks, st)
  {
    assert Step(corpus, Alone(id, false, Session(false, false, -1), marks, st), Alert(0)).sessions
        == map[id := Session(true, false, 0)];
  }

  lemma WrittenAlone(corpus: Corpus, id: string, marks: Marks, st: Stream, c: Connection)
    requires st.phase == Writing(c, 0)
    ensures Step(corpus, Alone(id, true, Session(true, false, 0), marks, st), Written(id))
         == Alone(id, true, Session(true, false, 0), marks, st.(phase := Buffering))
  {
  }

  lemma SwitchedAfterOne(corpus: Corpus, id: string, maxTokens: nat)
    requires 0 < maxTokens < |corpus|
    ensures var s := Run(corpus, INITIAL, SwitchAfterOne(id, maxTokens));
            && id in s.streams && PastSwitch(s.streams[id]) && !s.streams[id].cutShort
            && s.finished == [] && s.streams[id].maxTokens == maxTokens && s.streams[id].resumedAt == 1
  {
    OneDelivered(corpus, id, maxTokens);
    var first := [Arrive(id, maxTokens), Begin(id), EngineTurn(id)] + [Read(id), Alert(0), Written(id)];
    RunConcat(corpus, INITIAL, first, [Tick(id, true)]);
    RunFirst(corpus, Run(corpus, INITIAL, first), [Tick(id, true)]);
  }

  lemma RunFirst(corpus: Corpus, s: System, actions: seq<Action>)
    requires actions != []
    ensures Run(corpus, s, actions) == Run(corpus, Step(corpus, s, actions[0]), actions[1..])
  {
    hide Step;
  }

  /** The request ended, alone, with this id and budget. */
  ghost predicate EndsAlone(corpus: Corpus, actions: seq<Action>, id: string, maxTokens: nat) {
    var finished := Run(corpus, INITIAL, actions).finished;
    |finished| == 1 && finished[0].id == id && finished[0].stream.maxTokens == maxTokens
  }

  /** The standby is asked with the original max_tokens. So for every request with a budget below the length of the
      answer there is a run, with the alert in time, in which it gets one token more than uninterrupted. */
  lemma SwitchExtendsBudget(corpus: Corpus, id: string, maxTokens: nat)
    requires 0 < maxTokens < |corpus|
    ensures exists actions :: AlertFirst(false, actions) && EndsAlone(corpus, actions, id, maxTokens)
              && Run(corpus, INITIAL, actions).finished[0].stream.delivered
                 == Uninterrupted(corpus, id, maxTokens) + [ChunkAt(corpus, id, maxTokens)]
  {
    hide Run, Step, Inv, Keeps, ChunkAt, Chunks, SwitchAfterOne, StreamOk;
    var switch := SwitchAfterOne(id, maxTokens);
    var s := Run(corpus, INITIAL, switch);
    SwitchedAfterOne(corpus, id, maxTokens);
    InitialInv(corpus);
    RunKeepsInv(corpus, INITIAL, switch);
    var turns := EveryRequestCanEnd(corpus, s, id);
    var actions := switch + turns;
    RunConcat(corpus, INITIAL, switch, turns);
    var st := Run(corpus, INITIAL, actions).finished[0].stream;
    KeptPastSwitch(s.streams[id], st);
    EveryRun(corpus, actions, 0);
    ChunksGrow(corpus, id, 0, maxTokens);
    SwitchHasNoCut(id, maxTokens);
    TurnsKeepAlertFirst(switch, turns, id);
    hide AlertFirst;
    assert AlertFirst(false, actions) && EndsAlone(corpus, actions, id, maxTokens);
  }

  lemma SwitchHasNoCut(id: string, maxTokens: nat)
    ensures AlertFirst(false, SwitchAfterOne(id, maxTokens))
  {
  }

  lemma KeptPastSwitch(st: Stream, st': Stream)
    requires PastSwitch(st) && Keeps(st, st')
    ensures st'.maxTokens == st.maxTokens && st'.resumedAt == st.resumedAt && st'.cutShort == st.cutShort
  {
  }

  /** Every request with this budget that ends, in every run with the alert in time, gets what it would have got
      uninterrupted. */
  ghost predicate BudgetKept(corpus: Corpus, maxTokens: nat) {
    forall actions, k :: AlertFirst(false, actions) && HasBudget(corpus, actions, k, maxTokens) ==>
      var f := Run(corpus, INITIAL, actions).finished[k];
      f.stream.delivered == Uninterrupted(corpus, f.id, maxTokens)
  }

  ghost predicate HasBudget(corpus: Corpus, actions: seq<Action>, k: int, maxTokens: nat) {
    var finished := Run(corpus, INITIAL, actions).finished;
    0 <= k < |finished| && finished[k].stream.maxTokens == maxTokens
  }

  /** A handover never changes what is delivered exactly for budgets that cover the answer, and for the empty one. */
  lemma BudgetDecides(corpus: Corpus, maxTokens: nat)
    ensures BudgetKept(corpus, maxTokens) <==> maxTokens == 0 || maxTokens >= |corpus|
  {
    hide Run, AlertFirst, Chunks;
    if maxTokens == 0 || maxTokens >= |corpus| {
      forall actions, k | AlertFirst(false, actions) && HasBudget(corpus, actions, k, maxTokens)
        ensures var f := Run(corpus, INITIAL, actions).finished[k];
                f.stream.delivered == Uninterrupted(corpus, f.id, maxTokens)
      {
        ExactlyOnce(corpus, actions, k);
        if maxTokens == 0 {
          NothingWithoutBudget(corpus, actions, k);
        }
      }
    } else {
      SwitchExtendsBudget(corpus, "", maxTokens);
      var actions :| AlertFirst(false, actions) && EndsAlone(corpus, actions, "", maxTokens)
        && Run(corpus, INITIAL, actions).finished[0].stream.delivered
           == Uninterrupted(corpus, "", maxTokens) + [ChunkAt(corpus, "", maxTokens)];
      assert HasBudget(corpus, actions, 0, maxTokens);
      assert |Run(corpus, INITIAL, actions).finished[0].stream.delivered| > |Uninterrupted(corpus, "", maxTokens)|;
    }
  }

  /** Without budget there is nothing to resume behind. */
  lemma NothingWithoutBudget(corpus: Corpus, actions: seq<Action>, k: nat)
    requires k < |Run(corpus, INITIAL, actions).finished|
    requires Run(corpus, INITIAL, actions).finished[k].stream.maxTokens == 0
    ensures Run(corpus, INITIAL, actions).finished[k].stream.resumedAt == 0
  {
    hide Run, Chunks, StreamOk, Inv;
    InitialInv(corpus);
    RunKeepsInv(corpus, INITIAL, actions);
    FinishedInOrder(corpus, Run(corpus, INITIAL, actions), k);
  }

  /** An engine that is paused before the proxy hears of it: the request ends in [DONE] with nothing delivered. */
  lemma UnannouncedPauseTruncates(corpus: Corpus, id: string, maxTokens: nat)
    requires corpus != [] && maxTokens > 0
    ensures var actions := [Arrive(id, maxTokens), Begin(id), Pause, EngineTurn(id), Read(id), Written(id)];
            var t := Run(corpus, INITIAL, actions);
            && |t.finished| == 1 && t.finished[0].done && t.finished[0].stream.delivered == []
            && t.finished[0].stream.maxTokens == maxTokens && t.finished[0].stream.resumedAt == 0
  {
    var acts := [Arrive(id, maxTokens), Begin(id), Pause, EngineTurn(id), Read(id), Written(id)];
    var s1 := Step(corpus, INITIAL, acts[0]);
    assert s1.streams[id].phase == Preparing;
    var s2 := Step(corpus, s1, acts[1]);
    var c := Open(corpus, ActiveNode, 0, maxTokens);
    assert s2.streams[id].phase == Reading(c);
    var s3 := Step(corpus, s2, acts[2]);
    var s4 := Step(corpus, s3, acts[3]);
    assert s4.streams[id].phase == Reading(c.(closed := true));
    var s5 := Step(corpus, s4, acts[4]);
    assert s5.streams[id].phase == Finishing && s5.streams[id].delivered == [];
    var s6 := Step(corpus, s5, acts[5]);
    assert acts[1..][1..] == acts[2..] && acts[2..][1..] == acts[3..] && acts[3..][1..] == acts[4..];
    assert acts[4..][1..] == acts[5..] && acts[5..][1..] == [];
    RunFirst(corpus, INITIAL, acts);
    RunFirst(corpus, s1, acts[1..]);
    RunFirst(corpus, s2, acts[2..]);
    RunFirst(corpus, s3, acts[3..]);
    RunFirst(corpus, s4, acts[4..]);
    RunFirst(corpus, s5, acts[5..]);
  }

  /** A connection that breaks before the proxy hears of it: the request ends in [DONE] without the token that was on
      the wire. */
  lemma UnannouncedBreakTruncates(corpus: Corpus, id: string, maxTokens: nat)
    requires 0 < maxTokens < |corpus|
    ensures var sent := Run(corpus, INITIAL, [Arrive(id, maxTokens), Begin(id), EngineTurn(id)]);
            var t := Run(corpus, sent, [Action.Drop(id, 0), Read(id), Written(id)]);
            && id in sent.streams && sent.streams[id].phase.Reading?
            && sent.streams[id].phase.upstream.wire == [ChunkAt(corpus, id, 0)]
            && |t.finished| == 1 && t.finished[0].done && t.finished[0].stream.delivered == []
            && t.finished[0].stream.cutShort
  {
    OneEmitted(corpus, id, maxTokens);
    var sent := Run(corpus, INITIAL, [Arrive(id, maxTokens), Begin(id), EngineTurn(id)]);
    hide Run;
    RunThree(corpus, sent, Action.Drop(id, 0), Read(id), Written(id));
    var broken := Step(corpus, sent, Action.Drop(id, 0));
    assert broken.streams[id].phase == Reading(Connection(ActiveNode, 0, StopAfter(corpus, 0, maxTokens), [], true));
    var ended := Step(corpus, broken, Read(id));
    assert ended.streams[id].phase == Finishing && ended.streams[id].cutShort && ended.finished == [];
  }
}
