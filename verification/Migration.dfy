/** The parts together: what the daemon's states and effects mean for the standby and for the clients. */
module Migration {
  import opened Models
  import opened Framing
  import opened Sequences
  import opened Texts
  import opened Wrappers
  import B = Buffer
  import opened Transfer
  import D = NodeDaemon
  import R = Resumption
  import H = Handover
  import U = Upstream

  // ---------------------------------------------------------------------
  // The daemon and the transfer
  // ---------------------------------------------------------------------

  /** One transfer: the way out, the turns before the server is stopped, the way back. */
  datatype Transmission = Transmission(out: Channel, rounds: nat, back: Channel)

  function EventsOf(server: Server, nodeId: string, snapshot: seq<InferenceSession>, t: Transmission): seq<Event> {
    TransferEvents(server, nodeId, snapshot, false, t.out, t.rounds)
  }

  ghost predicate Yields(server: Server, nodeId: string, snapshot: seq<InferenceSession>, t: Transmission,
                         outcome: Outcome)
  {
    var replies := Replies(EventsOf(server, nodeId, snapshot, t));
    && Sends(server, nodeId, snapshot, false, t.out)
    && Carried(server.z, replies, t.back)
    && outcome == Await(server.z, server.codec, Arriving(server.z, replies, t.back))
  }

  /** Every accepted transfer in the log took place between this daemon and the server. */
  ghost predicate Genuine(server: Server, nodeId: string, log: seq<D.Effect>) {
    forall k :: 0 < k < |log| && log[k - 1].TransferStarted? && log[k].TransferEnded? && log[k].outcome.Accepted? ==>
      Realised(server, nodeId, log[k - 1].sessions, log[k].outcome)
  }

  ghost predicate Realised(server: Server, nodeId: string, snapshot: seq<InferenceSession>, outcome: Outcome) {
    exists t :: Yields(server, nodeId, snapshot, t, outcome)
  }

  /** The server acknowledged last, and before that it held every session of the snapshot, the standby had adopted it,
      and its resumption behind the last flushed id had been announced. */
  ghost predicate TakenOver(server: Server, snapshot: seq<InferenceSession>, events: seq<Event>) {
    && events != [] && events[|events| - 1] == Reply(AckMessage(server, snapshot))
    && var before := events[..|events| - 1];
       forall h, s :: s in snapshot ==> HeldAndAnnounced(h, s, before)
  }

  ghost predicate HeldAndAnnounced(h: Holdings, s: InferenceSession, events: seq<Event>) {
    && Has(Take(h, events).received, s) && Has(Take(h, events).adopted, s)
    && Announced(s.requestId, s.lastFlushed + 1) in events
  }

  lemma AcceptedIsTakenOver(server: Server, nodeId: string, snapshot: seq<InferenceSession>, t: Transmission,
                            outcome: Outcome)
    requires server.z.Lossless() && server.codec.Lossless() && server.callbackRegistered
    requires DistinctIds(snapshot)
    requires Yields(server, nodeId, snapshot, t, outcome) && outcome.Accepted?
    ensures outcome.ids == Ids(snapshot)
    ensures TakenOver(server, snapshot, EventsOf(server, nodeId, snapshot, t))
  {
    hide Sends, Carried, Replies, TransferEvents, Await, Arriving, AllIntact, StoredAll, CallbackEvents, Take,
         AckMessage, DistinctIds, FrameOf, Wire, Ids, Script;
    AckSoundness(server, nodeId, snapshot, false, t.out, t.rounds, t.back);
    var events := EventsOf(server, nodeId, snapshot, t);
    var before := StoredAll(snapshot) + CallbackEvents(snapshot);
    assert events == before + [Reply(AckMessage(server, snapshot))];
    assert events[..|events| - 1] == before;
    forall h, s | s in snapshot
      ensures HeldAndAnnounced(h, s, before)
    {
      StandbyHolds(h, snapshot, s);
    }
  }

  /** If the daemon reaches HANDOVER_COMPLETE, then, whatever noticeable damage and breaks there were on the way, the
      standby holds every session of the snapshot and has tried to announce each before the ACK was sent. */
  lemma HandoverSoundness(server: Server, nodeId: string, hasProxy: bool, actions: seq<D.Action>)
    requires server.z.Lossless() && server.codec.Lossless() && server.callbackRegistered
    requires Genuine(server, nodeId, D.Run(hasProxy, D.INITIAL, actions).log)
    ensures var d := D.Run(hasProxy, D.INITIAL, actions);
            d.state == D.HandoverComplete || d.state == D.Terminated ==>
              exists k, t :: CompletedBy(server, nodeId, d.log, k, t)
  {
    hide D.Run, TakenOver, DistinctIds, Yields, D.Orderly;
    var d := D.Run(hasProxy, D.INITIAL, actions);
    D.TransferDecides(hasProxy, actions);
    D.EveryRun(hasProxy, actions);
    if d.state == D.HandoverComplete || d.state == D.Terminated {
      var k :| 0 <= k < |d.log| && d.log[k].TransferEnded? && d.log[k].outcome.Accepted?;
      ResultFollowsStart(d.log, k);
      assert Realised(server, nodeId, d.log[k - 1].sessions, d.log[k].outcome);
      var t :| Yields(server, nodeId, d.log[k - 1].sessions, t, d.log[k].outcome);
      AcceptedIsTakenOver(server, nodeId, d.log[k - 1].sessions, t, d.log[k].outcome);
      assert CompletedBy(server, nodeId, d.log, k, t);
    }
  }

  ghost predicate CompletedBy(server: Server, nodeId: string, log: seq<D.Effect>, k: nat, t: Transmission) {
    && 0 < k < |log| && log[k - 1].TransferStarted? && log[k].TransferEnded?
    && log[k].outcome == Accepted(Ids(log[k - 1].sessions))
    && Yields(server, nodeId, log[k - 1].sessions, t, log[k].outcome)
    && TakenOver(server, log[k - 1].sessions, EventsOf(server, nodeId, log[k - 1].sessions, t))
  }

  lemma ResultFollowsStart(log: seq<D.Effect>, k: nat)
    requires D.Orderly(log) && k < |log| && log[k].TransferEnded?
    ensures k > 0 && log[k - 1].TransferStarted?
  {
  }

  /** A session that the daemon only knows from the proxy is resumed exactly as long as nothing was flushed; an engine
      would continue its bare prompt, for 512 tokens, whatever the request had asked for and received. */
  lemma SyncedResumption(hook: R.Hook, r: D.ActiveRequest)
    ensures var s := D.FromProxy(r);
            && (R.Resumable(hook, s.maxTokens, |s.generatedText|, s.lastFlushed, s.totalTokensGenerated)
                <==> r.lastFlushed < 0)
            && R.TaskOf(hook, s, s.lastFlushed) == R.Task(r.prompt, D.DEFAULT_MAX_TOKENS, 0)
  {
    hide R.TaskOf;
    var s := D.FromProxy(r);
    R.TaskIs(hook, s, s.lastFlushed);
    assert Join(s.generatedText) == "" && r.prompt + "" == r.prompt;
  }

  // ---------------------------------------------------------------------
  // The daemon and the streams
  // ---------------------------------------------------------------------

  /** What of the daemon's effects reaches the proxy and the active engine; an abort pauses the engine like a pause. */
  function Control(e: D.Effect): seq<H.Action> {
    match e
    case AlertSent(cutoff, _, delivered) => if delivered then [H.Alert(cutoff)] else []
    case AbortSent(_, delivered) => if delivered then [H.Pause] else []
    case PauseSent(delivered) => if delivered then [H.Pause] else []
    case _ => []
  }

  function Controls(log: seq<D.Effect>): seq<H.Action> {
    if log == [] then [] else Control(log[0]) + Controls(log[1..])
  }

  function ControlsIn(actions: seq<H.Action>): seq<H.Action> {
    if actions == [] then []
    else ControlOf(actions[0]) + ControlsIn(actions[1..])
  }

  function ControlOf(a: H.Action): seq<H.Action> {
    if a.Alert? || a.Pause? then [a] else []
  }

  /** An interleaving of the streams in which the alerts and pauses are those of the daemon, in its order, and the
      connections of the node break only after the proxy was told. */
  ghost predicate DrivenBy(log: seq<D.Effect>, actions: seq<H.Action>) {
    && ControlsIn(actions) == Controls(log)
    && forall j :: 0 <= j < |actions| && actions[j].Drop? ==> H.AlertedBefore(actions, j)
  }

  lemma {:induction false} FirstControl(actions: seq<H.Action>, k: nat)
    requires k < |actions| && actions[k].Pause? && ControlsIn(actions) != [] && ControlsIn(actions)[0].Alert?
    ensures H.AlertedBefore(actions, k)
  {
    if actions[0].Alert? {
      assert H.AlertedBefore(actions, k);
    } else {
      assert !actions[0].Pause?;
      assert actions[1..][k - 1] == actions[k];
      FirstControl(actions[1..], k - 1);
      var j :| 0 <= j < k - 1 && j < |actions[1..]| && actions[1..][j].Alert?;
      assert actions[j + 1].Alert?;
    }
  }

  lemma {:induction false} NoControl(actions: seq<H.Action>, k: nat)
    requires k < |actions| && ControlsIn(actions) == []
    ensures !actions[k].Pause?
  {
    if k > 0 {
      NoControl(actions[1..], k - 1);
    }
  }

  lemma DeliveredAlertIsFirst(log: seq<D.Effect>)
    requires D.Orderly(log) && log != [] && log[0].delivered
    ensures Controls(log) != [] && Controls(log)[0].Alert?
  {
  }

  lemma AlertComesFirst(log: seq<D.Effect>, actions: seq<H.Action>)
    requires D.Orderly(log) && (log != [] ==> log[0].delivered) && DrivenBy(log, actions)
    ensures H.AlertFirst(false, actions)
  {
    hide D.Orderly, H.AlertedBefore;
    if log != [] {
      OrderlyStart(log);
      DeliveredAlertIsFirst(log);
    }
    forall k | 0 <= k < |actions| && H.IsCut(actions[k])
      ensures H.AlertedBefore(actions, k)
    {
      if actions[k].Pause? {
        if log == [] {
          NoControl(actions, k);
        } else {
          FirstControl(actions, k);
        }
      }
    }
  }

  lemma OrderlyStart(log: seq<D.Effect>)
    requires D.Orderly(log) && log != []
    ensures log[0].AlertSent? && forall k :: 0 < k < |log| ==> !log[k].AlertSent?
  {
    forall k | 0 < k < |log|
      ensures D.Stage(log[0]) < D.Stage(log[k])
    {
      assert log[0].AlertSent?;
    }
  }

  ghost predicate Complete(corpus: H.Corpus, f: H.Finished) {
    var st := f.stream;
    f.done && st.delivered == H.Chunks(corpus, f.id, 0, H.StopAfter(corpus, st.resumedAt, st.maxTokens))
  }

  /** Every request that ends, in every interleaving driven by the daemon, has delivered its answer. */
  ghost predicate Safe(corpus: H.Corpus, log: seq<D.Effect>) {
    forall actions, k :: DrivenBy(log, actions) && EndsIn(corpus, actions, k) ==>
      Complete(corpus, H.Run(corpus, H.INITIAL, actions).finished[k])
  }

  ghost predicate EndsIn(corpus: H.Corpus, actions: seq<H.Action>, k: int) {
    0 <= k < |H.Run(corpus, H.INITIAL, actions).finished|
  }

  predicate StopsEngine(log: seq<D.Effect>) {
    exists k :: 0 <= k < |log| && (log[k].AbortSent? || log[k].PauseSent?) && log[k].delivered
  }

  lemma DeliveredAlertIsSafe(corpus: H.Corpus, log: seq<D.Effect>)
    requires D.Orderly(log) && (log != [] ==> log[0].delivered)
    ensures Safe(corpus, log)
  {
    hide D.Orderly, DrivenBy, H.Run, H.AlertFirst, H.Chunks;
    forall actions, k | DrivenBy(log, actions) && EndsIn(corpus, actions, k)
      ensures Complete(corpus, H.Run(corpus, H.INITIAL, actions).finished[k])
    {
      AlertComesFirst(log, actions);
      H.ExactlyOnce(corpus, actions, k);
    }
  }

  lemma {:induction false} OnlyPauses(log: seq<D.Effect>)
    requires forall k :: 0 <= k < |log| ==> log[k].AlertSent? ==> !log[k].delivered
    ensures forall a :: a in Controls(log) ==> a.Pause?
    ensures StopsEngine(log) ==> Controls(log) != []
  {
    if log != [] {
      OnlyPauses(log[1..]);
      assert StopsEngine(log) ==> Control(log[0]) != [] || StopsEngine(log[1..]) by {
        if StopsEngine(log) && Control(log[0]) == [] {
          var k :| 0 <= k < |log| && (log[k].AbortSent? || log[k].PauseSent?) && log[k].delivered;
          assert log[1..][k - 1] == log[k];
        }
      }
    }
  }

  lemma {:induction false} PausesFinishNothing(corpus: H.Corpus, s: H.System, actions: seq<H.Action>)
    requires forall a :: a in actions ==> a.Pause?
    ensures H.Run(corpus, s, actions).finished == s.finished
    decreases |actions|
  {
    if actions != [] {
      assert actions[0] in actions && forall a :: a in actions[1..] ==> a in actions;
      PausesFinishNothing(corpus, H.Step(corpus, s, actions[0]), actions[1..]);
    }
  }

  lemma {:induction false} ControlsInConcat(a: seq<H.Action>, b: seq<H.Action>)
    ensures ControlsIn(a + b) == ControlsIn(a) + ControlsIn(b)
  {
    hide ControlOf;
    if a == [] {
      assert a + b == b;
    } else {
      ControlsInConcat(a[1..], b);
      assert (a + b)[1..] == a[1..] + b;
      Associative(ControlOf(a[0]), ControlsIn(a[1..]), ControlsIn(b));
    }
  }

  /** One request that is cut off by a pause: begun, paused, read to its end. */
  function CutOff(id: string): seq<H.Action> {
    [H.Arrive(id, 1), H.Begin(id), H.Pause, H.EngineTurn(id), H.Read(id), H.Written(id)]
  }

  lemma CutOffControls(id: string)
    ensures ControlsIn(CutOff(id)) == [H.Pause]
  {
    ControlsOfTwo(H.Arrive(id, 1), H.Begin(id));
    ControlsOfTwo(H.Pause, H.EngineTurn(id));
    ControlsOfTwo(H.Read(id), H.Written(id));
    var first, middle, last := [H.Arrive(id, 1), H.Begin(id)], [H.Pause, H.EngineTurn(id)], [H.Read(id), H.Written(id)];
    assert CutOff(id) == (first + middle) + last;
    ControlsInConcat(first + middle, last);
    ControlsInConcat(first, middle);
  }

  lemma ControlsOfTwo(a: H.Action, b: H.Action)
    ensures ControlsIn([a, b]) == ControlOf(a) + ControlOf(b)
  {
    assert [a, b][1..] == [b] && [b][1..] == [];
    assert ControlsIn([b]) == ControlOf(b) + [];
  }

  lemma LostAlertIsUnsafe(corpus: H.Corpus, log: seq<D.Effect>)
    requires corpus != [] && D.Orderly(log) && log != [] && !log[0].delivered && StopsEngine(log)
    ensures !Safe(corpus, log)
  {
    hide D.Orderly, H.Run, H.Step, Controls, ControlsIn, StopsEngine, H.Chunks, DrivenBy;
    OrderlyStart(log);
    OnlyPauses(log);
    var controls := Controls(log);
    var id := "";
    var actions := CutOff(id) + controls[1..];
    var cut := H.Run(corpus, H.INITIAL, CutOff(id));
    H.UnannouncedPauseTruncates(corpus, id, 1);
    H.RunConcat(corpus, H.INITIAL, CutOff(id), controls[1..]);
    assert controls[0] in controls && forall a :: a in controls[1..] ==> a in controls;
    PausesFinishNothing(corpus, cut, controls[1..]);
    CutOffIsDriven(log, id);
    assert EndsIn(corpus, actions, 0);
    assert !Complete(corpus, H.Run(corpus, H.INITIAL, actions).finished[0]);
  }

  /** The cut-off request and the remaining pauses make up a run of a daemon that sends nothing but pauses. */
  lemma CutOffIsDriven(log: seq<D.Effect>, id: string)
    requires Controls(log) != [] && forall a :: a in Controls(log) ==> a.Pause?
    ensures DrivenBy(log, CutOff(id) + Controls(log)[1..])
  {
    hide Controls, ControlsIn;
    var controls := Controls(log);
    var actions := CutOff(id) + controls[1..];
    assert controls[0] in controls && forall a :: a in controls[1..] ==> a in controls;
    PausesAreControls(controls[1..]);
    ControlsInConcat(CutOff(id), controls[1..]);
    CutOffControls(id);
    assert controls == [H.Pause] + controls[1..];
    forall j | 0 <= j < |actions|
      ensures !actions[j].Drop?
    {
      NoDropInCutOff(id);
      assert actions[j] in CutOff(id) || actions[j] in controls[1..];
    }
  }

  lemma NoDropInCutOff(id: string)
    ensures forall a :: a in CutOff(id) ==> !a.Drop?
  {
  }

  lemma {:induction false} PausesAreControls(actions: seq<H.Action>)
    requires forall a :: a in actions ==> a.Pause?
    ensures ControlsIn(actions) == actions
  {
    if actions != [] {
      assert actions[0] in actions && forall a :: a in actions[1..] ==> a in actions;
      PausesAreControls(actions[1..]);
      assert actions == [actions[0]] + actions[1..];
    }
  }

  /** For every reachable daemon that stopped its engine: the clients are safe, in every interleaving, if and only if
      the alert was delivered. A lost alert is swallowed by the daemon, which stops the engine all the same. */
  lemma AlertDecides(corpus: H.Corpus, hasProxy: bool, actions: seq<D.Action>)
    requires corpus != []
    requires StopsEngine(D.Run(hasProxy, D.INITIAL, actions).log)
    ensures var log := D.Run(hasProxy, D.INITIAL, actions).log;
            && log != [] && log[0].AlertSent?
            && (Safe(corpus, log) <==> log[0].delivered)
  {
    hide D.Run, Safe, D.Orderly;
    var log := D.Run(hasProxy, D.INITIAL, actions).log;
    D.EveryRun(hasProxy, actions);
    OrderlyStart(log);
    if log[0].delivered {
      DeliveredAlertIsSafe(corpus, log);
    } else {
      LostAlertIsUnsafe(corpus, log);
    }
  }

  // ---------------------------------------------------------------------
  // The step system and the multiplexer
  // ---------------------------------------------------------------------

  function AsEvents(chunks: seq<B.TokenChunk>): (out: seq<U.ClientEvent>) {
    seq(|chunks|, i requires 0 <= i < |chunks| => U.Data(chunks[i]))
  }

  lemma {:induction false} DataOfEvents(chunks: seq<B.TokenChunk>)
    ensures U.DataOf(AsEvents(chunks)) == chunks
  {
    if chunks != [] {
      assert AsEvents(chunks)[1..] == AsEvents(chunks[1..]);
      DataOfEvents(chunks[1..]);
    }
  }

  /** What a standby engine streams when it is asked for the ids from `start` on. */
  function StandbyStream(corpus: H.Corpus, id: string, maxTokens: nat): int -> seq<B.TokenChunk> {
    (start: int) => if start < 0 then [] else H.Chunks(corpus, id, start, H.StopAfter(corpus, start, maxTokens))
  }

  /** The first n chunks of the answer pass a fresh deduplicator as they are. */
  lemma BeginningPasses(corpus: H.Corpus, id: string, n: nat)
    ensures B.PassThrough(-1, H.Chunks(corpus, id, 0, n)) == B.Passage(H.Chunks(corpus, id, 0, n), n - 1, false)
  {
    hide B.PassThrough;
    B.ReplayTolerance(-1, H.Chunks(corpus, id, 0, n), 0);
  }

  /** What the multiplexer's contract says of a request that read `arrived` from the active engine and ended. */
  ghost predicate MultiplexerAllows(corpus: H.Corpus, f: H.Finished, arrived: seq<B.TokenChunk>,
                                    switchedAt: Option<int>)
  {
    && arrived <= H.Chunks(corpus, f.id, 0, H.StopAfter(corpus, 0, f.stream.maxTokens))
    && U.Relayed(AsEvents(f.stream.delivered), false, B.PassThrough(-1, arrived), true, switchedAt,
                 StandbyStream(corpus, f.id, f.stream.maxTokens))
  }

  lemma ChunksSplit(corpus: H.Corpus, id: string, a: nat, b: nat)
    requires a <= b
    ensures H.Chunks(corpus, id, 0, b) == H.Chunks(corpus, id, 0, a) + H.Chunks(corpus, id, a, b)
    ensures H.Chunks(corpus, id, 0, a) <= H.Chunks(corpus, id, 0, b)
  {
    var whole, first, rest := H.Chunks(corpus, id, 0, b), H.Chunks(corpus, id, 0, a), H.Chunks(corpus, id, a, b);
    forall k | 0 <= k < b
      ensures whole[k] == (first + rest)[k]
    {
    }
  }

  /** The rest of the answer passes a deduplicator that holds the id before it. */
  lemma RestPasses(corpus: H.Corpus, id: string, start: nat, stop: nat)
    requires start <= stop
    ensures var rest := H.Chunks(corpus, id, start, stop); U.PassesPartOf(rest, start - 1, rest, false)
  {
    hide B.PassThrough;
    var rest := H.Chunks(corpus, id, start, stop);
    forall k | 0 <= k < |rest|
      ensures rest[k].sequenceId == start + k
    {
      assert rest[k] == H.ChunkAt(corpus, id, start + k);
    }
    B.ReplayTolerance(start - 1, rest, start);
    assert rest[..|rest|] == rest && rest[0..] == rest;
  }

  lemma StandbyAnswers(corpus: H.Corpus, id: string, maxTokens: nat, start: nat)
    ensures StandbyStream(corpus, id, maxTokens)(start)
         == H.Chunks(corpus, id, start, H.StopAfter(corpus, start, maxTokens))
  {
    hide H.Chunks, H.StopAfter;
  }

  lemma OnlyActive(corpus: H.Corpus, f: H.Finished, n: nat)
    requires f.stream.delivered == H.Chunks(corpus, f.id, 0, n) && n <= H.StopAfter(corpus, 0, f.stream.maxTokens)
    ensures MultiplexerAllows(corpus, f, f.stream.delivered, None)
  {
    hide H.StopAfter, H.Chunks, B.PassThrough, U.DataOf, AsEvents, StandbyStream;
    BeginningPasses(corpus, f.id, n);
    DataOfEvents(f.stream.delivered);
    ChunksSplit(corpus, f.id, n, H.StopAfter(corpus, 0, f.stream.maxTokens));
  }

  lemma WithStandby(corpus: H.Corpus, f: H.Finished, start: nat)
    requires start <= H.StopAfter(corpus, 0, f.stream.maxTokens)
    requires f.stream.delivered == H.Chunks(corpus, f.id, 0, H.StopAfter(corpus, start, f.stream.maxTokens))
    ensures MultiplexerAllows(corpus, f, H.Chunks(corpus, f.id, 0, start), Some(start))
  {
    hide H.StopAfter, H.Chunks, B.PassThrough, U.DataOf, U.PassesPartOf, AsEvents, StandbyStream;
    var maxTokens := f.stream.maxTokens;
    var stop := H.StopAfter(corpus, start, maxTokens);
    StandbyAnswers(corpus, f.id, maxTokens, start);
    BeginningPasses(corpus, f.id, start);
    RestPasses(corpus, f.id, start, stop);
    DataOfEvents(f.stream.delivered);
    ChunksSplit(corpus, f.id, start, stop);
    ChunksSplit(corpus, f.id, start, H.StopAfter(corpus, 0, maxTokens));
  }

  /** The two models of the multiplexer fit: in every run of the step system, what an ended request delivered is an
      output that the contract of `stream_with_handover` allows, for an active stream that brought a beginning of the
      answer, and for the engine's own answer to the standby request. */
  lemma StepSystemFollowsMultiplexer(corpus: H.Corpus, actions: seq<H.Action>, k: nat)
    requires k < |H.Run(corpus, H.INITIAL, actions).finished|
    ensures exists arrived, switchedAt ::
              MultiplexerAllows(corpus, H.Run(corpus, H.INITIAL, actions).finished[k], arrived, switchedAt)
  {
    hide H.Run, MultiplexerAllows, H.Chunks, H.StreamOk, H.Inv;
    var s := H.Run(corpus, H.INITIAL, actions);
    var f := s.finished[k];
    H.EveryRun(corpus, actions, k);
    H.InitialInv(corpus);
    H.RunKeepsInv(corpus, H.INITIAL, actions);
    H.FinishedInOrder(corpus, s, k);
    if f.stream.resumedAt == 0 {
      OnlyActive(corpus, f, |f.stream.delivered|);
    } else {
      WithStandby(corpus, f, f.stream.resumedAt);
    }
  }

  // ---------------------------------------------------------------------
  // From the daemon to the switch
  // ---------------------------------------------------------------------

  /** The announcements of the standby, as the proxy gets to see them when they arrive. */
  function Readies(events: seq<Event>): seq<H.Action> {
    if events == [] then []
    else (if events[0].Announced? then [H.Ready(events[0].requestId)] else []) + Readies(events[1..])
  }

  lemma {:induction false} AnnouncedIsReady(events: seq<Event>, id: string, start: int)
    requires Announced(id, start) in events
    ensures H.Ready(id) in Readies(events)
  {
    if events[0] != Announced(id, start) {
      AnnouncedIsReady(events[1..], id, start);
    }
  }

  /** Every readiness signal of the transfer arrives at the proxy during the run. */
  ghost predicate ReadiesArrive(events: seq<Event>, actions: seq<H.Action>) {
    forall a :: a in Readies(events) ==> a in actions
  }

  /** In any reachable state: when the signal for a request arrives and it is buffering, its next look at the signal
      switches it to the standby, without the timeout, behind exactly what was delivered. */
  lemma ReadySwitches(corpus: H.Corpus, s: H.System, id: string)
    requires H.Inv(corpus, s) && id in s.streams && s.streams[id].phase == H.Buffering
    ensures var t := H.Step(corpus, H.Step(corpus, s, H.Ready(id)), H.Tick(id, false));
            && id in t.streams && t.streams[id].phase.Resuming?
            && t.streams[id].phase.upstream.node == H.StandbyNode
            && t.streams[id].phase.upstream.next == t.streams[id].resumedAt == |s.streams[id].delivered|
            && t.streams[id].delivered == s.streams[id].delivered
  {
    hide H.Inv, B.LastFlushed, H.StopAfter;
    H.InOrder(corpus, s, id);
  }

  predicate AlertDelivered(log: seq<D.Effect>) {
    log != [] && log[0].AlertSent? && log[0].delivered
  }

  /** A whole migration: the daemon reaches HANDOVER_COMPLETE, its alert was delivered, and alert, pauses and readiness
      signals arrive at the proxy in whatever interleaving with the streams. Then every request of the transferred
      snapshot is told to be ready during the run, and every request that ends has its answer complete. */
  lemma WholeMigration(corpus: H.Corpus, server: Server, nodeId: string, hasProxy: bool, steps: seq<D.Action>,
                       actions: seq<H.Action>)
    returns (k: nat, t: Transmission)
    requires server.z.Lossless() && server.codec.Lossless() && server.callbackRegistered
    requires var d := D.Run(hasProxy, D.INITIAL, steps);
             && (d.state == D.HandoverComplete || d.state == D.Terminated)
             && Genuine(server, nodeId, d.log) && AlertDelivered(d.log) && DrivenBy(d.log, actions)
    ensures var log := D.Run(hasProxy, D.INITIAL, steps).log;
            && CompletedBy(server, nodeId, log, k, t)
            && (ReadiesArrive(EventsOf(server, nodeId, log[k - 1].sessions, t), actions) ==>
                  forall s :: s in log[k - 1].sessions ==> H.Ready(s.requestId) in actions)
            && forall j :: EndsIn(corpus, actions, j) ==>
                 Complete(corpus, H.Run(corpus, H.INITIAL, actions).finished[j])
  {
    hide D.Run, H.Run, D.Orderly, CompletedBy, DrivenBy, Genuine, EndsIn, Complete, EventsOf;
    var log := D.Run(hasProxy, D.INITIAL, steps).log;
    HandoverSoundness(server, nodeId, hasProxy, steps);
    k, t :| CompletedBy(server, nodeId, log, k, t);
    D.EveryRun(hasProxy, steps);
    DeliveredAlertIsSafe(corpus, log);
    CompletedAnnounces(server, nodeId, log, k, t);
  }

  lemma CompletedAnnounces(server: Server, nodeId: string, log: seq<D.Effect>, k: nat, t: Transmission)
    requires CompletedBy(server, nodeId, log, k, t)
    ensures 0 < k < |log| && log[k - 1].TransferStarted?
    ensures forall s :: s in log[k - 1].sessions ==>
              H.Ready(s.requestId) in Readies(EventsOf(server, nodeId, log[k - 1].sessions, t))
  {
    hide Yields, EventsOf, Take, Readies, AckMessage;
    var snapshot := log[k - 1].sessions;
    var events := EventsOf(server, nodeId, snapshot, t);
    forall s | s in snapshot
      ensures H.Ready(s.requestId) in Readies(events)
    {
      var none: Sessions := map[];
      assert HeldAndAnnounced(Holdings(none, none), s, events[..|events| - 1]);
      assert Announced(s.requestId, s.lastFlushed + 1) in events;
      AnnouncedIsReady(events, s.requestId, s.lastFlushed + 1);
    }
  }
}
