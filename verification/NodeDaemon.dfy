/** The supervisor of a spot node (daemon/core/node_daemon.py): any number of on_preemption calls, interleaved with
    changes of the session registry. One step is the code a coroutine runs between two suspending awaits. */
module NodeDaemon {
  import opened Wrappers
  import opened Crc32
  import opened Framing
  import opened Models
  import opened Transfer

  datatype NodeState =
    | Healthy | PreemptionDetected | BufferingIngress | StateStreaming | HandoverComplete | Terminated

  const LIFECYCLE: seq<NodeState> :=
    [Healthy, PreemptionDetected, BufferingIngress, StateStreaming, HandoverComplete, Terminated]

  function Rank(state: NodeState): (r: nat)
    ensures r < |LIFECYCLE| && LIFECYCLE[r] == state
  {
    match state
    case Healthy => 0
    case PreemptionDetected => 1
    case BufferingIngress => 2
    case StateStreaming => 3
    case HandoverComplete => 4
    case Terminated => 5
  }

  // ---------------------------------------------------------------------
  // The session registry
  // ---------------------------------------------------------------------

  /** A dictionary in insertion order: an assignment to a known key keeps its place. */
  type Registry = seq<InferenceSession>

  function Put(sessions: Registry, s: InferenceSession): Registry {
    if sessions == [] then [s]
    else if sessions[0].requestId == s.requestId then [s] + sessions[1..]
    else [sessions[0]] + Put(sessions[1..], s)
  }

  function Removed(sessions: Registry, id: string): Registry {
    if sessions == [] then []
    else if sessions[0].requestId == id then sessions[1..]
    else [sessions[0]] + Removed(sessions[1..], id)
  }

  function WithToken(s: InferenceSession, token: string, sequenceId: int): InferenceSession {
    s.(generatedText := s.generatedText + [token], totalTokensGenerated := s.totalTokensGenerated + 1,
       lastFlushed := sequenceId)
  }

  function Updated(sessions: Registry, id: string, token: string, sequenceId: int): Registry {
    if sessions == [] then []
    else if sessions[0].requestId == id then [WithToken(sessions[0], token, sequenceId)] + sessions[1..]
    else [sessions[0]] + Updated(sessions[1..], id, token, sequenceId)
  }

  lemma ConsMembers(s: InferenceSession, rest: Registry)
    ensures forall x :: x in [s] + rest <==> x == s || x in rest
  {
  }

  lemma TailDistinct(s: InferenceSession, rest: Registry)
    requires DistinctIds([s] + rest)
    ensures DistinctIds(rest)
    ensures forall x :: x in rest ==> x.requestId != s.requestId
  {
    var all := [s] + rest;
    forall i, j | 0 <= i < j < |rest|
      ensures rest[i].requestId != rest[j].requestId
    {
      assert all[i + 1] == rest[i] && all[j + 1] == rest[j];
    }
    forall x | x in rest
      ensures x.requestId != s.requestId
    {
      var i :| 0 <= i < |rest| && rest[i] == x;
      assert all[0] == s && all[i + 1] == x;
    }
  }

  lemma WholeDistinct(s: InferenceSession, rest: Registry)
    requires DistinctIds(rest) && forall x :: x in rest ==> x.requestId != s.requestId
    ensures DistinctIds([s] + rest)
  {
    var all := [s] + rest;
    forall i, j | 0 <= i < j < |all|
      ensures all[i].requestId != all[j].requestId
    {
      assert all[j] == rest[j - 1] && rest[j - 1] in rest;
      assert i > 0 ==> all[i] == rest[i - 1];
    }
  }

  lemma ConsDistinct(s: InferenceSession, rest: Registry)
    ensures DistinctIds([s] + rest) <==> DistinctIds(rest) && forall x :: x in rest ==> x.requestId != s.requestId
    ensures forall x :: x in [s] + rest <==> x == s || x in rest
  {
    hide DistinctIds;
    ConsMembers(s, rest);
    if DistinctIds([s] + rest) {
      TailDistinct(s, rest);
    }
    if DistinctIds(rest) && forall x :: x in rest ==> x.requestId != s.requestId {
      WholeDistinct(s, rest);
    }
  }

  lemma {:induction false} PutIds(sessions: Registry, s: InferenceSession)
    requires DistinctIds(sessions)
    ensures DistinctIds(Put(sessions, s)) && Put(sessions, s) != []
    ensures forall x :: x in Put(sessions, s) <==> x == s || (x in sessions && x.requestId != s.requestId)
  {
    hide DistinctIds;
    ConsDistinct(s, []);
    if sessions == [] {
      assert [s] + [] == [s];
    } else {
      var rest := sessions[1..];
      assert sessions == [sessions[0]] + rest;
      ConsDistinct(sessions[0], rest);
      ConsDistinct(s, rest);
      PutIds(rest, s);
      ConsDistinct(sessions[0], Put(rest, s));
    }
  }

  /** A dictionary keeps its order: a known id keeps its place, a new one comes last. */
  ghost predicate Placed(before: Registry, s: InferenceSession, after: Registry) {
    || (after == before + [s] && forall x :: x in before ==> x.requestId != s.requestId)
    || exists i :: 0 <= i < |before| && before[i].requestId == s.requestId && after == before[i := s]
  }

  lemma {:induction false} PutPlaces(sessions: Registry, s: InferenceSession)
    ensures Placed(sessions, s, Put(sessions, s))
  {
    if sessions == [] {
      assert [] + [s] == [s];
    } else if sessions[0].requestId == s.requestId {
      assert [s] + sessions[1..] == sessions[0 := s];
    } else {
      var head, rest := sessions[0], sessions[1..];
      PutPlaces(rest, s);
      assert sessions == [head] + rest;
      PlacedBehind(head, rest, s, Put(rest, s));
    }
  }

  lemma PlacedBehind(head: InferenceSession, rest: Registry, s: InferenceSession, after: Registry)
    requires Placed(rest, s, after) && head.requestId != s.requestId
    ensures Placed([head] + rest, s, [head] + after)
  {
    var all := [head] + rest;
    if after == rest + [s] && forall x :: x in rest ==> x.requestId != s.requestId {
      assert [head] + after == all + [s];
    } else {
      var i :| 0 <= i < |rest| && rest[i].requestId == s.requestId && after == rest[i := s];
      assert all[i + 1] == rest[i] && [head] + after == all[i + 1 := s];
    }
  }

  lemma {:induction false} RemovedIds(sessions: Registry, id: string)
    requires DistinctIds(sessions)
    ensures DistinctIds(Removed(sessions, id))
    ensures forall x :: x in Removed(sessions, id) <==> x in sessions && x.requestId != id
  {
    hide DistinctIds;
    if sessions != [] {
      var rest := sessions[1..];
      assert sessions == [sessions[0]] + rest;
      ConsDistinct(sessions[0], rest);
      RemovedIds(rest, id);
      ConsDistinct(sessions[0], Removed(rest, id));
    }
  }

  lemma {:induction false} UpdatedIds(sessions: Registry, id: string, token: string, sequenceId: int)
    ensures |Updated(sessions, id, token, sequenceId)| == |sessions|
    ensures forall i :: 0 <= i < |sessions| ==>
              Updated(sessions, id, token, sequenceId)[i].requestId == sessions[i].requestId
  {
    if sessions != [] {
      UpdatedIds(sessions[1..], id, token, sequenceId);
    }
  }

  /** The greatest last flushed id, -1 at least. */
  function Cutoff(sessions: Registry): int {
    if sessions == [] then -1
    else
      var before := Cutoff(sessions[..|sessions| - 1]);
      var last := sessions[|sessions| - 1].lastFlushed;
      if last > before then last else before
  }

  lemma {:induction false} CutoffIsMaximum(sessions: Registry)
    ensures Cutoff(sessions) >= -1
    ensures forall s :: s in sessions ==> s.lastFlushed <= Cutoff(sessions)
    ensures Cutoff(sessions) == -1 || exists s :: s in sessions && s.lastFlushed == Cutoff(sessions)
  {
    if sessions != [] {
      var before := sessions[..|sessions| - 1];
      var last := sessions[|sessions| - 1];
      CutoffIsMaximum(before);
      assert forall s :: s in sessions <==> s == last || s in before;
    }
  }

  // ---------------------------------------------------------------------
  // The step system
  // ---------------------------------------------------------------------

  /** What leaves the node, in order, and whether it was handled at its destination before the call went on. */
  datatype Effect =
    | AlertSent(cutoff: int, requestIds: seq<string>, delivered: bool)
    | AbortSent(requestId: string, delivered: bool)
    | PauseSent(delivered: bool)
    | TransferStarted(sessions: Registry)
    | TransferEnded(outcome: Outcome)
    | FailureSent

  /** Where an on_preemption call is suspended, or how it ended. */
  datatype Phase =
    | Ignored
    | Syncing                                              // GET /internal/active-requests
    | Alerting(cutoff: int, requestIds: seq<string>)       // POST /internal/preemption-alert
    | Aborting(pending: seq<string>)                       // engine_hook.abort_request(pending[0])
    | Pausing                                              // POST /pause
    | Streaming(snapshot: Registry)                        // p2p_client.send_sessions
    | Failing                                              // POST /internal/handover-failed
    | TearingDown
    | Returned
    | Raised

  datatype ActiveRequest = ActiveRequest(requestId: string, prompt: string, lastFlushed: int)

  datatype Answer = Synced(requests: seq<ActiveRequest>) | Delivered(ok: bool) | Transferred(outcome: Outcome) | Done

  datatype Daemon = Daemon(
    state: NodeState,
    trace: seq<NodeState>,     // every state so far
    sessions: Registry,
    tasks: seq<Phase>,         // the on_preemption calls, in the order of their start
    log: seq<Effect>)

  const INITIAL := Daemon(Healthy, [Healthy], [], [], [])

  datatype Action =
    | Register(session: InferenceSession)
    | UpdateToken(requestId: string, token: string, sequenceId: int)
    | Complete(requestId: string)
    | Preempt                                 // on_preemption is called
    | Proceed(task: nat, answer: Answer)      // a suspended call goes on

  function SetState(d: Daemon, state: NodeState): Daemon {
    if d.state == state then d else d.(state := state, trace := d.trace + [state])
  }

  function At(d: Daemon, task: nat, phase: Phase): Daemon
    requires task < |d.tasks|
  {
    d.(tasks := d.tasks[task := phase])
  }

  const DEFAULT_MAX_TOKENS: pos := 512

  /** What the proxy tells about a request: no generated text, and not the request's own max_tokens. */
  function FromProxy(r: ActiveRequest): InferenceSession {
    InferenceSession(r.requestId, r.prompt, DEFAULT_MAX_TOKENS, [], r.lastFlushed, 0)
  }

  function PutAll(sessions: Registry, requests: seq<ActiveRequest>): Registry
    decreases |requests|
  {
    if requests == [] then sessions else PutAll(Put(sessions, FromProxy(requests[0])), requests[1..])
  }

  function StartAlert(d: Daemon, task: nat): Daemon
    requires task < |d.tasks|
  {
    At(d, task, Alerting(Cutoff(d.sessions), Ids(d.sessions)))
  }

  function StartPause(d: Daemon, task: nat, pending: seq<string>): Daemon
    requires task < |d.tasks|
  {
    At(d, task, if pending == [] then Pausing else Aborting(pending))
  }

  function Logged(d: Daemon, effect: Effect): Daemon {
    d.(log := d.log + [effect])
  }

  function Called(hasProxy: bool, d: Daemon): Daemon {
    var task := |d.tasks|;
    if d.state != Healthy then d.(tasks := d.tasks + [Ignored])
    else
      var started := SetState(d.(tasks := d.tasks + [Syncing]), PreemptionDetected);
      if d.sessions == [] && hasProxy then started else StartAlert(started, task)
  }

  function GoOn(d: Daemon, task: nat, answer: Answer): Daemon
    requires task < |d.tasks|
  {
    match (d.tasks[task], answer)
    case (Syncing, Synced(requests)) => StartAlert(d.(sessions := PutAll(d.sessions, requests)), task)
    case (Alerting(cutoff, ids), Delivered(ok)) =>
      StartPause(SetState(Logged(d, AlertSent(cutoff, ids, ok)), BufferingIngress), task, Ids(d.sessions))
    case (Aborting(pending), Delivered(ok)) =>
      if pending == [] then d else StartPause(Logged(d, AbortSent(pending[0], ok)), task, pending[1..])
    case (Pausing, Delivered(ok)) =>
      At(Logged(SetState(Logged(d, PauseSent(ok)), StateStreaming), TransferStarted(d.sessions)), task,
         Streaming(d.sessions))
    case (Streaming(_), Transferred(outcome)) =>
      var ended := Logged(d, TransferEnded(outcome));
      if outcome.Accepted? then At(SetState(SetState(ended, HandoverComplete), Terminated), task, TearingDown)
      else At(ended, task, Failing)
    case (Failing, Done) => At(Logged(d, FailureSent), task, Raised)
    case (TearingDown, Done) => At(d, task, Returned)
    case _ => d
  }

  function Step(hasProxy: bool, d: Daemon, a: Action): Daemon {
    match a
    case Register(s) => d.(sessions := Put(d.sessions, s))
    case UpdateToken(id, token, sequenceId) => d.(sessions := Updated(d.sessions, id, token, sequenceId))
    case Complete(id) => d.(sessions := Removed(d.sessions, id))
    case Preempt => Called(hasProxy, d)
    case Proceed(task, answer) => if task < |d.tasks| then GoOn(d, task, answer) else d
  }

  function Run(hasProxy: bool, d: Daemon, actions: seq<Action>): Daemon {
    if actions == [] then d
    else Step(hasProxy, Run(hasProxy, d, actions[..|actions| - 1]), actions[|actions| - 1])
  }

  // ---------------------------------------------------------------------
  // The invariant
  // ---------------------------------------------------------------------

  /** The alert, then aborts. */
  ghost predicate Announced(log: seq<Effect>) {
    log != [] && log[0].AlertSent? && forall i :: 1 <= i < |log| ==> log[i].AbortSent?
  }

  /** The alert, aborts, the pause, then the transfer of this snapshot begins. */
  ghost predicate Transferring(log: seq<Effect>, snapshot: Registry) {
    var n := |log|;
    && n >= 3 && Announced(log[..n - 2]) && log[n - 2].PauseSent? && log[n - 1] == TransferStarted(snapshot)
    && DistinctIds(snapshot)
  }

  ghost predicate TransferDone(log: seq<Effect>, accepted: bool) {
    var n := |log|;
    && n >= 4 && log[n - 2].TransferStarted? && Transferring(log[..n - 1], log[n - 2].sessions)
    && log[n - 1].TransferEnded? && log[n - 1].outcome.Accepted? == accepted
  }

  ghost predicate PhaseOk(d: Daemon, phase: Phase) {
    match phase
    case Ignored => false
    case Syncing => d.state == PreemptionDetected && d.log == []
    case Alerting(cutoff, _) => d.state == PreemptionDetected && d.log == [] && cutoff >= -1
    case Aborting(pending) => d.state == BufferingIngress && Announced(d.log) && pending != []
    case Pausing => d.state == BufferingIngress && Announced(d.log)
    case Streaming(snapshot) => d.state == StateStreaming && Transferring(d.log, snapshot)
    case Failing => d.state == StateStreaming && TransferDone(d.log, false)
    case Raised =>
      && d.state == StateStreaming && d.log != [] && d.log[|d.log| - 1] == FailureSent
      && TransferDone(d.log[..|d.log| - 1], false)
    case TearingDown => d.state == Terminated && TransferDone(d.log, true)
    case Returned => d.state == Terminated && TransferDone(d.log, true)
  }

  /** One call does everything; all others were ignored. */
  ghost predicate Migrating(d: Daemon, task: nat) {
    && task < |d.tasks|
    && (forall i :: 0 <= i < |d.tasks| && i != task ==> d.tasks[i] == Ignored)
    && PhaseOk(d, d.tasks[task])
  }

  ghost predicate Inv(d: Daemon) {
    && d.trace == LIFECYCLE[..Rank(d.state) + 1]
    && DistinctIds(d.sessions)
    && if d.state == Healthy then d.log == [] && d.tasks == [] else exists task: nat :: Migrating(d, task)
  }

  lemma {:induction false} PutAllIds(sessions: Registry, requests: seq<ActiveRequest>)
    requires DistinctIds(sessions)
    ensures DistinctIds(PutAll(sessions, requests))
    decreases |requests|
  {
    if requests != [] {
      PutIds(sessions, FromProxy(requests[0]));
      PutAllIds(Put(sessions, FromProxy(requests[0])), requests[1..]);
    }
  }

  lemma NextState(d: Daemon, state: NodeState)
    requires d.trace == LIFECYCLE[..Rank(d.state) + 1] && Rank(state) == Rank(d.state) + 1
    ensures SetState(d, state).trace == LIFECYCLE[..Rank(state) + 1]
  {
  }

  lemma CalledKeepsInv(hasProxy: bool, d: Daemon)
    requires Inv(d)
    ensures Inv(Called(hasProxy, d))
  {
    hide Ids, Cutoff;
    var t := Called(hasProxy, d);
    if d.state == Healthy {
      NextState(d, PreemptionDetected);
      CutoffIsMaximum(d.sessions);
      assert Migrating(t, 0);
    } else {
      var task: nat :| Migrating(d, task);
      assert PhaseOk(t, d.tasks[task]) by {
        SamePhase(d, t, d.tasks[task]);
      }
      assert Migrating(t, task);
    }
  }

  lemma SamePhase(d: Daemon, t: Daemon, phase: Phase)
    requires PhaseOk(d, phase) && t.state == d.state && t.log == d.log
    ensures PhaseOk(t, phase)
  {
    hide Announced, Transferring, TransferDone;
  }

  lemma RegistryKeepsInv(d: Daemon, t: Daemon)
    requires Inv(d) && t == d.(sessions := t.sessions) && DistinctIds(t.sessions)
    ensures Inv(t)
  {
    if d.state != Healthy {
      var task: nat :| Migrating(d, task);
      SamePhase(d, t, d.tasks[task]);
      assert Migrating(t, task);
    }
  }

  /** A call that goes on is the one that migrates; its state, log and phase move together. */
  lemma GoOnKeepsInv(d: Daemon, task: nat, answer: Answer)
    requires Inv(d) && task < |d.tasks|
    ensures Inv(GoOn(d, task, answer))
  {
    hide DistinctIds, PhaseOk;
    var t := GoOn(d, task, answer);
    var m: nat :| Migrating(d, m);
    if m != task {
      assert d.tasks[task] == Ignored;
      assert t == d;
    } else {
      GoOnPhase(d, task, answer);
      assert Migrating(t, task);
    }
  }

  ghost predicate MovedOn(d: Daemon, t: Daemon, task: nat)
    requires task < |d.tasks|
  {
    && |t.tasks| == |d.tasks| && PhaseOk(t, t.tasks[task]) && t.state != Healthy
    && (forall i :: 0 <= i < |d.tasks| && i != task ==> t.tasks[i] == d.tasks[i])
    && t.trace == LIFECYCLE[..Rank(t.state) + 1] && DistinctIds(t.sessions)
  }

  lemma GoOnPhase(d: Daemon, task: nat, answer: Answer)
    requires task < |d.tasks| && PhaseOk(d, d.tasks[task])
    requires d.trace == LIFECYCLE[..Rank(d.state) + 1] && DistinctIds(d.sessions)
    ensures MovedOn(d, GoOn(d, task, answer), task)
  {
    hide MovedOn, PhaseOk, StartAlert, StartPause, SetState, Logged, DistinctIds;
    match (d.tasks[task], answer) {
      case (Syncing, Synced(requests)) => SyncPhase(d, task, requests);
      case (Alerting(_, _), Delivered(ok)) => AlertPhase(d, task, ok);
      case (Aborting(_), Delivered(ok)) => AbortPhase(d, task, ok);
      case (Pausing, Delivered(ok)) => PausePhase(d, task, ok);
      case (Streaming(_), Transferred(outcome)) => TransferPhase(d, task, outcome);
      case (Failing, Done) => LastPhase(d, task);
      case (TearingDown, Done) => LastPhase(d, task);
      case _ =>
        SamePhaseMoves(d, task);
        assert GoOn(d, task, answer) == d;
    }
  }

  lemma SamePhaseMoves(d: Daemon, task: nat)
    requires task < |d.tasks| && PhaseOk(d, d.tasks[task])
    requires d.trace == LIFECYCLE[..Rank(d.state) + 1] && DistinctIds(d.sessions)
    ensures MovedOn(d, d, task)
  {
    hide DistinctIds, Announced, Transferring, TransferDone;
  }

  /** Any change of one call's phase, together with state, trace, log and registry. */
  lemma MovesOn(d: Daemon, t: Daemon, task: nat)
    requires task < |d.tasks| == |t.tasks| && t.tasks == d.tasks[task := t.tasks[task]]
    requires PhaseOk(t, t.tasks[task]) && t.state != Healthy
    requires t.trace == LIFECYCLE[..Rank(t.state) + 1] && DistinctIds(t.sessions)
    ensures MovedOn(d, t, task)
  {
    hide PhaseOk, DistinctIds;
  }

  lemma SyncPhase(d: Daemon, task: nat, requests: seq<ActiveRequest>)
    requires task < |d.tasks| && d.tasks[task] == Syncing && PhaseOk(d, Syncing)
    requires d.trace == LIFECYCLE[..Rank(d.state) + 1] && DistinctIds(d.sessions)
    ensures MovedOn(d, GoOn(d, task, Synced(requests)), task)
  {
    hide DistinctIds, Ids, Cutoff, PutAll, MovedOn;
    PutAllIds(d.sessions, requests);
    CutoffIsMaximum(PutAll(d.sessions, requests));
    MovesOn(d, GoOn(d, task, Synced(requests)), task);
  }

  lemma AlertPhase(d: Daemon, task: nat, ok: bool)
    requires task < |d.tasks| && d.tasks[task].Alerting? && PhaseOk(d, d.tasks[task])
    requires d.trace == LIFECYCLE[..Rank(d.state) + 1] && DistinctIds(d.sessions)
    ensures MovedOn(d, GoOn(d, task, Delivered(ok)), task)
  {
    hide DistinctIds, Ids, MovedOn;
    NextState(d, BufferingIngress);
    MovesOn(d, GoOn(d, task, Delivered(ok)), task);
  }

  lemma AbortPhase(d: Daemon, task: nat, ok: bool)
    requires task < |d.tasks| && d.tasks[task].Aborting? && PhaseOk(d, d.tasks[task])
    requires d.trace == LIFECYCLE[..Rank(d.state) + 1] && DistinctIds(d.sessions)
    ensures MovedOn(d, GoOn(d, task, Delivered(ok)), task)
  {
    hide DistinctIds, MovedOn;
    MovesOn(d, GoOn(d, task, Delivered(ok)), task);
  }

  lemma PausePhase(d: Daemon, task: nat, ok: bool)
    requires task < |d.tasks| && d.tasks[task] == Pausing && PhaseOk(d, Pausing)
    requires d.trace == LIFECYCLE[..Rank(d.state) + 1] && DistinctIds(d.sessions)
    ensures MovedOn(d, GoOn(d, task, Delivered(ok)), task)
  {
    hide DistinctIds, MovedOn;
    var t := GoOn(d, task, Delivered(ok));
    NextState(d, StateStreaming);
    assert t.log[..|t.log| - 2] == d.log;
    MovesOn(d, t, task);
  }

  lemma TransferPhase(d: Daemon, task: nat, outcome: Outcome)
    requires task < |d.tasks| && d.tasks[task].Streaming? && PhaseOk(d, d.tasks[task])
    requires d.trace == LIFECYCLE[..Rank(d.state) + 1] && DistinctIds(d.sessions)
    ensures MovedOn(d, GoOn(d, task, Transferred(outcome)), task)
  {
    hide DistinctIds, MovedOn, Transferring;
    var t := GoOn(d, task, Transferred(outcome));
    ResultLogged(d.log, d.tasks[task].snapshot, outcome);
    NextState(d, HandoverComplete);
    NextState(SetState(d, HandoverComplete), Terminated);
    MovesOn(d, t, task);
  }

  lemma ResultLogged(log: seq<Effect>, snapshot: Registry, outcome: Outcome)
    requires Transferring(log, snapshot)
    ensures TransferDone(log + [TransferEnded(outcome)], outcome.Accepted?)
  {
    hide DistinctIds, Announced;
    assert (log + [TransferEnded(outcome)])[..|log|] == log;
  }

  lemma LastPhase(d: Daemon, task: nat)
    requires task < |d.tasks| && PhaseOk(d, d.tasks[task])
    requires d.trace == LIFECYCLE[..Rank(d.state) + 1] && DistinctIds(d.sessions)
    requires d.tasks[task] == Failing || d.tasks[task] == TearingDown
    ensures MovedOn(d, GoOn(d, task, Done), task)
  {
    hide DistinctIds, MovedOn, TransferDone;
    var t := GoOn(d, task, Done);
    assert d.tasks[task] == Failing ==> t.log[..|t.log| - 1] == d.log;
    MovesOn(d, t, task);
  }

  lemma StepKeepsInv(hasProxy: bool, d: Daemon, a: Action)
    requires Inv(d)
    ensures Inv(Step(hasProxy, d, a))
  {
    hide Inv, Called, GoOn, DistinctIds;
    assert Inv(d) ==> DistinctIds(d.sessions) by {
      RegistryOf(d);
    }
    match a {
      case Register(s) =>
        PutIds(d.sessions, s);
        RegistryKeepsInv(d, Step(hasProxy, d, a));
      case UpdateToken(id, token, sequenceId) =>
        UpdatedDistinct(d.sessions, id, token, sequenceId);
        RegistryKeepsInv(d, Step(hasProxy, d, a));
      case Complete(id) =>
        RemovedIds(d.sessions, id);
        RegistryKeepsInv(d, Step(hasProxy, d, a));
      case Preempt => CalledKeepsInv(hasProxy, d);
      case Proceed(task, answer) =>
        if task < |d.tasks| {
          GoOnKeepsInv(d, task, answer);
        }
    }
  }

  lemma RegistryOf(d: Daemon)
    requires Inv(d)
    ensures DistinctIds(d.sessions)
  {
  }

  lemma UpdatedDistinct(sessions: Registry, id: string, token: string, sequenceId: int)
    requires DistinctIds(sessions)
    ensures DistinctIds(Updated(sessions, id, token, sequenceId))
  {
    UpdatedIds(sessions, id, token, sequenceId);
  }

  lemma {:induction false} RunKeepsInv(hasProxy: bool, actions: seq<Action>)
    ensures Inv(Run(hasProxy, INITIAL, actions))
    decreases |actions|
  {
    hide Step;
    if actions != [] {
      RunKeepsInv(hasProxy, actions[..|actions| - 1]);
      StepKeepsInv(hasProxy, Run(hasProxy, INITIAL, actions[..|actions| - 1]), actions[|actions| - 1]);
    }
  }

  // ---------------------------------------------------------------------
  // Every run
  // ---------------------------------------------------------------------

  function Stage(e: Effect): nat {
    match e
    case AlertSent(_, _, _) => 0
    case AbortSent(_, _) => 1
    case PauseSent(_) => 2
    case TransferStarted(_) => 3
    case TransferEnded(_) => 4
    case FailureSent => 5
  }

  /** Alert before aborts before pause before transfer before its result before the report of failure; each happens
      once, but for the aborts; and none but the aborts and the report is left out. */
  ghost predicate Orderly(log: seq<Effect>) {
    && (forall i, j :: 0 <= i < j < |log| ==>
          Stage(log[i]) < Stage(log[j]) || (log[i].AbortSent? && log[j].AbortSent?))
    && (log != [] ==> log[0].AlertSent?)
    && (forall j :: 0 < j < |log| && log[j].TransferStarted? ==> log[j - 1].PauseSent?)
    && (forall j :: 0 < j < |log| && log[j].TransferEnded? ==> log[j - 1].TransferStarted?)
    && (forall j :: 0 < j < |log| && log[j] == FailureSent ==>
          log[j - 1].TransferEnded? && !log[j - 1].outcome.Accepted?)
  }

  /** The effects that may come right behind another. */
  predicate Follows(last: Effect, e: Effect) {
    match e
    case AlertSent(_, _, _) => false
    case AbortSent(_, _) => last.AlertSent? || last.AbortSent?
    case PauseSent(_) => last.AlertSent? || last.AbortSent?
    case TransferStarted(_) => last.PauseSent?
    case TransferEnded(_) => last.TransferStarted?
    case FailureSent => last.TransferEnded? && !last.outcome.Accepted?
  }

  lemma LaterStage(before: Effect, last: Effect, e: Effect)
    requires Follows(last, e)
    requires before == last || Stage(before) < Stage(last) || (before.AbortSent? && last.AbortSent?)
    ensures Stage(before) < Stage(e) || (before.AbortSent? && e.AbortSent?)
  {
  }

  lemma OrderlyExtended(log: seq<Effect>, e: Effect)
    requires Orderly(log) && log != [] && Follows(log[|log| - 1], e)
    ensures Orderly(log + [e])
  {
    hide Follows, Stage;
    var last := log[|log| - 1];
    forall i | 0 <= i < |log|
      ensures Stage(log[i]) < Stage(e) || (log[i].AbortSent? && e.AbortSent?)
    {
      LaterStage(log[i], last, e);
    }
    FollowsDirectly(last, e);
  }

  lemma FollowsDirectly(last: Effect, e: Effect)
    requires Follows(last, e)
    ensures e.TransferStarted? ==> last.PauseSent?
    ensures e.TransferEnded? ==> last.TransferStarted?
    ensures e == FailureSent ==> last.TransferEnded? && !last.outcome.Accepted?
  {
  }

  lemma {:induction false} AnnouncedIsOrderly(log: seq<Effect>)
    requires Announced(log)
    ensures Orderly(log)
    decreases |log|
  {
    if |log| > 1 {
      var before := log[..|log| - 1];
      AnnouncedIsOrderly(before);
      assert log == before + [log[|log| - 1]];
      OrderlyExtended(before, log[|log| - 1]);
    }
  }

  lemma TransferringIsOrderly(log: seq<Effect>, snapshot: Registry)
    requires Transferring(log, snapshot)
    ensures Orderly(log)
  {
    hide DistinctIds;
    var n := |log|;
    AnnouncedIsOrderly(log[..n - 2]);
    OrderlyExtended(log[..n - 2], log[n - 2]);
    assert log[..n - 2] + [log[n - 2]] == log[..n - 1];
    OrderlyExtended(log[..n - 1], log[n - 1]);
    assert log[..n - 1] + [log[n - 1]] == log;
  }

  lemma DoneIsOrderly(log: seq<Effect>, accepted: bool)
    requires TransferDone(log, accepted)
    ensures Orderly(log)
  {
    hide Orderly;
    var n := |log|;
    TransferringIsOrderly(log[..n - 1], log[n - 2].sessions);
    OrderlyExtended(log[..n - 1], log[n - 1]);
    assert log[..n - 1] + [log[n - 1]] == log;
  }

  lemma FailedIsOrderly(log: seq<Effect>)
    requires log != [] && log[|log| - 1] == FailureSent && TransferDone(log[..|log| - 1], false)
    ensures Orderly(log)
  {
    hide Orderly;
    var n := |log|;
    DoneIsOrderly(log[..n - 1], false);
    OrderlyExtended(log[..n - 1], log[n - 1]);
    assert log[..n - 1] + [log[n - 1]] == log;
  }

  /** In every interleaving of any number of on_preemption calls with changes of the registry: the states passed so far
      are a beginning of the life cycle, at most one call was not ignored, and the effects are in order. */
  lemma EveryRun(hasProxy: bool, actions: seq<Action>)
    ensures var d := Run(hasProxy, INITIAL, actions);
            && d.trace == LIFECYCLE[..Rank(d.state) + 1]
            && DistinctIds(d.sessions)
            && (forall i, j ::
                  0 <= i < |d.tasks| && 0 <= j < |d.tasks| && d.tasks[i] != Ignored && d.tasks[j] != Ignored ==> i == j)
            && Orderly(d.log)
  {
    hide Run, Orderly, DistinctIds, Announced, Transferring, TransferDone;
    RunKeepsInv(hasProxy, actions);
    var d := Run(hasProxy, INITIAL, actions);
    if d.state == Healthy {
      NoEffects();
    } else {
      var task: nat :| Migrating(d, task);
      PhaseIsOrderly(d, d.tasks[task]);
    }
  }

  lemma NoEffects()
    ensures Orderly([])
  {
  }

  lemma PhaseIsOrderly(d: Daemon, phase: Phase)
    requires PhaseOk(d, phase)
    ensures Orderly(d.log)
  {
    hide Orderly, Announced, Transferring, TransferDone;
    NoEffects();
    match phase {
      case Aborting(_) => AnnouncedIsOrderly(d.log);
      case Pausing => AnnouncedIsOrderly(d.log);
      case Streaming(snapshot) => TransferringIsOrderly(d.log, snapshot);
      case Failing => DoneIsOrderly(d.log, false);
      case Raised => FailedIsOrderly(d.log);
      case TearingDown => DoneIsOrderly(d.log, true);
      case Returned => DoneIsOrderly(d.log, true);
      case _ =>
    }
  }

  /** How a transfer ended decides the state, now and in every later state of the run: the node is past StateStreaming
      if and only if a transfer was accepted, and after one that was not it stays in StateStreaming. */
  lemma TransferDecides(hasProxy: bool, actions: seq<Action>)
    ensures var d := Run(hasProxy, INITIAL, actions);
            && (d.state == HandoverComplete || d.state == Terminated <==>
                exists k :: 0 <= k < |d.log| && d.log[k].TransferEnded? && d.log[k].outcome.Accepted?)
            && ((exists k :: 0 <= k < |d.log| && d.log[k].TransferEnded? && !d.log[k].outcome.Accepted?) ==>
                d.state == StateStreaming)
            && (forall k :: 0 <= k < |d.log| && d.log[k].TransferStarted? ==> DistinctIds(d.log[k].sessions))
  {
    hide Run, DistinctIds, Orderly;
    RunKeepsInv(hasProxy, actions);
    EveryRun(hasProxy, actions);
    var d := Run(hasProxy, INITIAL, actions);
    if d.state != Healthy {
      var task: nat :| Migrating(d, task);
      PhaseDecides(d, d.tasks[task]);
    }
  }

  /** The only place for a transfer's start and result in an orderly log whose end is known. */
  lemma PhaseDecides(d: Daemon, phase: Phase)
    requires PhaseOk(d, phase) && Orderly(d.log)
    ensures d.state == HandoverComplete || d.state == Terminated <==>
            exists k :: 0 <= k < |d.log| && d.log[k].TransferEnded? && d.log[k].outcome.Accepted?
    ensures (exists k :: 0 <= k < |d.log| && d.log[k].TransferEnded? && !d.log[k].outcome.Accepted?) ==>
              d.state == StateStreaming
    ensures forall k :: 0 <= k < |d.log| && d.log[k].TransferStarted? ==> DistinctIds(d.log[k].sessions)
  {
    hide DistinctIds;
    var n := |d.log|;
    OnlyOne(d.log);
    match phase {
      case Aborting(_) => AnnouncedEnds(d.log);
      case Pausing => AnnouncedEnds(d.log);
      case Streaming(_) =>
      case Failing => assert d.log[n - 1].TransferEnded?;
      case Raised => assert d.log[n - 2].TransferEnded? && d.log[n - 3].TransferStarted?;
      case TearingDown => assert d.log[n - 1].TransferEnded?;
      case Returned => assert d.log[n - 1].TransferEnded?;
      case _ =>
    }
  }

  lemma AnnouncedEnds(log: seq<Effect>)
    requires Announced(log)
    ensures forall k :: 0 <= k < |log| ==> !log[k].TransferStarted? && !log[k].TransferEnded?
  {
  }

  lemma OnlyOne(log: seq<Effect>)
    requires Orderly(log)
    ensures forall i, j ::
              0 <= i < |log| && 0 <= j < |log| && Stage(log[i]) == Stage(log[j]) && !log[i].AbortSent? ==> i == j
    ensures forall i, j :: 0 <= i < |log| && 0 <= j < |log| && Stage(log[i]) > Stage(log[j]) ==> i > j
  {
  }

  /** Effects are never taken back, and states never revisited. */
  lemma {:induction false} RunsExtend(hasProxy: bool, actions: seq<Action>, more: seq<Action>)
    ensures Run(hasProxy, INITIAL, actions).log <= Run(hasProxy, INITIAL, actions + more).log
    ensures Run(hasProxy, INITIAL, actions).trace <= Run(hasProxy, INITIAL, actions + more).trace
    decreases |more|
  {
    hide Step;
    if more == [] {
      assert actions + more == actions;
    } else {
      var all := actions + more;
      assert all[..|all| - 1] == actions + more[..|more| - 1];
      RunsExtend(hasProxy, actions, more[..|more| - 1]);
      StepExtends(hasProxy, Run(hasProxy, INITIAL, all[..|all| - 1]), all[|all| - 1]);
    }
  }

  lemma StepExtends(hasProxy: bool, d: Daemon, a: Action)
    ensures d.log <= Step(hasProxy, d, a).log && d.trace <= Step(hasProxy, d, a).trace
  {
    hide Put, Updated, Removed, PutAll, Cutoff, Ids;
  }

  /** The failed transfer: in every continuation of the run the state is still StateStreaming. */
  lemma FailureIsFinal(hasProxy: bool, actions: seq<Action>, more: seq<Action>, k: nat)
    requires k < |Run(hasProxy, INITIAL, actions).log|
    requires Run(hasProxy, INITIAL, actions).log[k].TransferEnded?
    requires !Run(hasProxy, INITIAL, actions).log[k].outcome.Accepted?
    ensures Run(hasProxy, INITIAL, actions + more).state == StateStreaming
  {
    hide Run;
    RunsExtend(hasProxy, actions, more);
    TransferDecides(hasProxy, actions + more);
    assert Run(hasProxy, INITIAL, actions + more).log[k] == Run(hasProxy, INITIAL, actions).log[k];
  }

  // ---------------------------------------------------------------------
  // What an alert is about
  // ---------------------------------------------------------------------

  /** No later entry of the answer has the same id. */
  ghost predicate LastOfItsId(requests: seq<ActiveRequest>, i: nat)
    requires i < |requests|
  {
    forall j :: i < j < |requests| ==> requests[j].requestId != requests[i].requestId
  }

  ghost predicate Named(requests: seq<ActiveRequest>, id: string) {
    exists i :: 0 <= i < |requests| && requests[i].requestId == id
  }

  /** A session that is known from the proxy only. */
  ghost predicate KnownFrom(s: InferenceSession, r: ActiveRequest) {
    && s.requestId == r.requestId && s.prompt == r.prompt && s.lastFlushed == r.lastFlushed
    && s.maxTokens == 512 && s.generatedText == [] && s.totalTokensGenerated == 0
  }

  /** Each request of the answer has a session, that of its last entry. */
  ghost predicate Covered(requests: seq<ActiveRequest>, sessions: Registry) {
    forall i: nat :: i < |requests| && LastOfItsId(requests, i) ==>
      exists s :: s in sessions && KnownFrom(s, requests[i])
  }

  /** Nothing else is new, and nothing else is gone. */
  ghost predicate OthersKept(before: Registry, requests: seq<ActiveRequest>, sessions: Registry) {
    && (forall s :: s in before && !Named(requests, s.requestId) ==> s in sessions)
    && (forall s :: s in sessions && !Named(requests, s.requestId) ==> s in before)
  }

  ghost predicate Synchronized(before: Registry, requests: seq<ActiveRequest>, sessions: Registry) {
    DistinctIds(sessions) && Covered(requests, sessions) && OthersKept(before, requests, sessions)
  }

  lemma NamedFirst(r: ActiveRequest, rest: seq<ActiveRequest>, id: string)
    ensures Named([r] + rest, id) <==> r.requestId == id || Named(rest, id)
  {
    var all := [r] + rest;
    if r.requestId == id {
      assert all[0] == r;
    } else if Named(rest, id) {
      var i :| 0 <= i < |rest| && rest[i].requestId == id;
      assert all[i + 1] == rest[i];
    }
  }

  lemma LastBehindFirst(r: ActiveRequest, rest: seq<ActiveRequest>)
    ensures LastOfItsId([r] + rest, 0) <==> !Named(rest, r.requestId)
    ensures forall i: nat :: i < |rest| ==> (LastOfItsId([r] + rest, i + 1) <==> LastOfItsId(rest, i))
  {
    var all := [r] + rest;
    assert forall j :: 0 < j < |all| ==> all[j] == rest[j - 1];
    assert forall j :: 0 <= j < |rest| ==> rest[j] == all[j + 1];
  }

  lemma CoveredFirst(r: ActiveRequest, rest: seq<ActiveRequest>, sessions: Registry)
    requires Covered(rest, sessions)
    requires !Named(rest, r.requestId) ==> FromProxy(r) in sessions
    ensures Covered([r] + rest, sessions)
  {
    hide LastOfItsId, Named;
    var all := [r] + rest;
    LastBehindFirst(r, rest);
    forall i: nat | i < |all| && LastOfItsId(all, i)
      ensures exists s :: s in sessions && KnownFrom(s, all[i])
    {
      if i == 0 {
        assert KnownFrom(FromProxy(r), r);
      } else {
        assert LastOfItsId(all, (i - 1) + 1);
        assert all[i] == rest[i - 1];
      }
    }
  }

  lemma KeptFirst(before: Registry, r: ActiveRequest, rest: seq<ActiveRequest>, sessions: Registry)
    requires DistinctIds(before) && OthersKept(Put(before, FromProxy(r)), rest, sessions)
    ensures OthersKept(before, [r] + rest, sessions)
  {
    hide Named, DistinctIds, Put;
    PutIds(before, FromProxy(r));
    forall s: InferenceSession
      ensures Named([r] + rest, s.requestId) <==> r.requestId == s.requestId || Named(rest, s.requestId)
    {
      NamedFirst(r, rest, s.requestId);
    }
  }

  lemma {:induction false} PutAllSynchronizes(before: Registry, requests: seq<ActiveRequest>)
    requires DistinctIds(before)
    ensures Synchronized(before, requests, PutAll(before, requests))
    decreases |requests|
  {
    hide Named, LastOfItsId, DistinctIds, Put, Covered, OthersKept;
    if requests == [] {
      NothingNamed(before);
    } else {
      var r, rest := requests[0], requests[1..];
      assert requests == [r] + rest;
      PutIds(before, FromProxy(r));
      PutAllSynchronizes(Put(before, FromProxy(r)), rest);
      StillThere(Put(before, FromProxy(r)), rest, PutAll(before, requests), FromProxy(r));
      CoveredFirst(r, rest, PutAll(before, requests));
      KeptFirst(before, r, rest, PutAll(before, requests));
    }
  }

  lemma NothingNamed(before: Registry)
    ensures Covered([], before) && OthersKept(before, [], before)
  {
  }

  lemma StillThere(before: Registry, requests: seq<ActiveRequest>, sessions: Registry, s: InferenceSession)
    requires OthersKept(before, requests, sessions) && s in before
    ensures !Named(requests, s.requestId) ==> s in sessions
  {
    hide Named;
  }

  /** The call at position k migrates. */
  ghost predicate Entered(hasProxy: bool, actions: seq<Action>, k: nat) {
    k < |actions| && actions[k] == Preempt && Run(hasProxy, INITIAL, actions[..k]).state == Healthy
  }

  /** At position j the proxy's answer was registered, before any effect; the alert is about the registry then. */
  ghost predicate AskedFirst(hasProxy: bool, actions: seq<Action>, j: nat, cutoff: int, requestIds: seq<string>) {
    && j < |actions| && actions[j].Proceed? && actions[j].answer.Synced?
    && Run(hasProxy, INITIAL, actions[..j]).log == []
    && var sessions := Run(hasProxy, INITIAL, actions[..j + 1]).sessions;
       && Synchronized(Run(hasProxy, INITIAL, actions[..j]).sessions, actions[j].answer.requests, sessions)
       && cutoff == Cutoff(sessions) && requestIds == Ids(sessions)
  }

  /** With an empty registry and a proxy the proxy was asked first; otherwise the alert is about the registry that the
      call found. */
  ghost predicate GroundedAt(hasProxy: bool, actions: seq<Action>, k: nat, cutoff: int, requestIds: seq<string>) {
    && Entered(hasProxy, actions, k)
    && var found := Run(hasProxy, INITIAL, actions[..k]).sessions;
       if found == [] && hasProxy then exists j: nat :: k < j && AskedFirst(hasProxy, actions, j, cutoff, requestIds)
       else cutoff == Cutoff(found) && requestIds == Ids(found)
  }

  ghost predicate Grounded(hasProxy: bool, actions: seq<Action>, cutoff: int, requestIds: seq<string>) {
    exists k: nat :: GroundedAt(hasProxy, actions, k, cutoff, requestIds)
  }

  /** A call that found no sessions, and has a proxy to ask, is under way. */
  ghost predicate Asking(hasProxy: bool, actions: seq<Action>) {
    hasProxy && exists k: nat :: Entered(hasProxy, actions, k) && Run(hasProxy, INITIAL, actions[..k]).sessions == []
  }

  /** How far the migrating call has come. */
  ghost predicate AlertBasis(hasProxy: bool, actions: seq<Action>, d: Daemon) {
    && (forall i :: 0 <= i < |d.tasks| && d.tasks[i] == Syncing ==> d.log == [] && Asking(hasProxy, actions))
    && (forall i :: 0 <= i < |d.tasks| && d.tasks[i].Alerting? ==>
          Grounded(hasProxy, actions, d.tasks[i].cutoff, d.tasks[i].requestIds))
    && (d.log != [] ==> d.log[0].AlertSent? && Grounded(hasProxy, actions, d.log[0].cutoff, d.log[0].requestIds))
  }

  lemma PrefixOfPrefix(actions: seq<Action>, a: Action, k: nat)
    requires k <= |actions|
    ensures (actions + [a])[..k] == actions[..k]
  {
  }

  lemma AskedFirstLater(hasProxy: bool, actions: seq<Action>, a: Action, j: nat, cutoff: int, requestIds: seq<string>)
    requires AskedFirst(hasProxy, actions, j, cutoff, requestIds)
    ensures AskedFirst(hasProxy, actions + [a], j, cutoff, requestIds)
  {
    hide Run, Synchronized, Cutoff, Ids;
    PrefixOfPrefix(actions, a, j);
    PrefixOfPrefix(actions, a, j + 1);
  }

  lemma GroundedLater(hasProxy: bool, actions: seq<Action>, a: Action, cutoff: int, requestIds: seq<string>)
    requires Grounded(hasProxy, actions, cutoff, requestIds)
    ensures Grounded(hasProxy, actions + [a], cutoff, requestIds)
  {
    hide Run, AskedFirst, Cutoff, Ids;
    var k: nat :| GroundedAt(hasProxy, actions, k, cutoff, requestIds);
    PrefixOfPrefix(actions, a, k);
    var found := Run(hasProxy, INITIAL, actions[..k]).sessions;
    if found == [] && hasProxy {
      var j: nat :| k < j && AskedFirst(hasProxy, actions, j, cutoff, requestIds);
      AskedFirstLater(hasProxy, actions, a, j, cutoff, requestIds);
    }
    assert GroundedAt(hasProxy, actions + [a], k, cutoff, requestIds);
  }

  lemma AskingLater(hasProxy: bool, actions: seq<Action>, a: Action)
    requires Asking(hasProxy, actions)
    ensures Asking(hasProxy, actions + [a])
  {
    hide Run;
    var k: nat :| Entered(hasProxy, actions, k) && Run(hasProxy, INITIAL, actions[..k]).sessions == [];
    PrefixOfPrefix(actions, a, k);
    assert Entered(hasProxy, actions + [a], k);
  }

  /** The answer has arrived. */
  lemma AnswerGrounds(hasProxy: bool, actions: seq<Action>, task: nat, requests: seq<ActiveRequest>)
    requires Asking(hasProxy, actions)
    requires var d := Run(hasProxy, INITIAL, actions);
             DistinctIds(d.sessions) && d.log == [] && task < |d.tasks| && d.tasks[task] == Syncing
    ensures var sessions := PutAll(Run(hasProxy, INITIAL, actions).sessions, requests);
            Grounded(hasProxy, actions + [Proceed(task, Synced(requests))], Cutoff(sessions), Ids(sessions))
  {
    hide Run, PutAll, Cutoff, Ids, DistinctIds, Synchronized;
    var a := Proceed(task, Synced(requests));
    var d, j := Run(hasProxy, INITIAL, actions), |actions|;
    var k: nat :| Entered(hasProxy, actions, k) && Run(hasProxy, INITIAL, actions[..k]).sessions == [];
    PutAllSynchronizes(d.sessions, requests);
    RunSnoc(hasProxy, actions, a);
    PrefixOfPrefix(actions, a, k);
    assert (actions + [a])[..j] == actions && (actions + [a])[..j + 1] == actions + [a];
    var sessions := PutAll(d.sessions, requests);
    assert AskedFirst(hasProxy, actions + [a], j, Cutoff(sessions), Ids(sessions));
    assert GroundedAt(hasProxy, actions + [a], k, Cutoff(sessions), Ids(sessions));
  }

  /** The call has just begun. */
  lemma CallGrounds(hasProxy: bool, actions: seq<Action>)
    requires Run(hasProxy, INITIAL, actions).state == Healthy
    ensures var found := Run(hasProxy, INITIAL, actions).sessions;
            if found == [] && hasProxy then Asking(hasProxy, actions + [Preempt])
            else Grounded(hasProxy, actions + [Preempt], Cutoff(found), Ids(found))
  {
    hide Run, Cutoff, Ids;
    var k := |actions|;
    assert (actions + [Preempt])[..k] == actions;
    assert Entered(hasProxy, actions + [Preempt], k);
    var found := Run(hasProxy, INITIAL, actions).sessions;
    assert !(found == [] && hasProxy) ==>
        GroundedAt(hasProxy, actions + [Preempt], k, Cutoff(found), Ids(found));
  }

  /** One action later: calls that ask or alert do so as before, or the alert's ground is new, and the first effect
      stays, or is grounded. */
  lemma BasisLater(hasProxy: bool, actions: seq<Action>, a: Action, d: Daemon, t: Daemon)
    requires AlertBasis(hasProxy, actions, d)
    requires forall i :: 0 <= i < |t.tasks| && t.tasks[i] == Syncing ==>
               t.log == [] && (Asking(hasProxy, actions + [a]) || (i < |d.tasks| && d.tasks[i] == Syncing))
    requires forall i :: 0 <= i < |t.tasks| && t.tasks[i].Alerting? ==>
               || (i < |d.tasks| && d.tasks[i] == t.tasks[i])
               || Grounded(hasProxy, actions + [a], t.tasks[i].cutoff, t.tasks[i].requestIds)
    requires t.log != [] ==>
               || (d.log != [] && d.log[0] == t.log[0])
               || (t.log[0].AlertSent? && Grounded(hasProxy, actions + [a], t.log[0].cutoff, t.log[0].requestIds))
    ensures AlertBasis(hasProxy, actions + [a], t)
  {
    hide Grounded, Asking;
    forall i | 0 <= i < |t.tasks| && t.tasks[i] == Syncing
      ensures Asking(hasProxy, actions + [a])
    {
      if !Asking(hasProxy, actions + [a]) {
        AskingLater(hasProxy, actions, a);
      }
    }
    forall i | 0 <= i < |t.tasks| && t.tasks[i].Alerting?
      ensures Grounded(hasProxy, actions + [a], t.tasks[i].cutoff, t.tasks[i].requestIds)
    {
      if i < |d.tasks| && d.tasks[i] == t.tasks[i] {
        GroundedLater(hasProxy, actions, a, t.tasks[i].cutoff, t.tasks[i].requestIds);
      }
    }
    if t.log != [] && d.log != [] && d.log[0] == t.log[0] {
      GroundedLater(hasProxy, actions, a, t.log[0].cutoff, t.log[0].requestIds);
    }
  }

  lemma CallBasis(hasProxy: bool, actions: seq<Action>)
    requires var d := Run(hasProxy, INITIAL, actions); Inv(d) && AlertBasis(hasProxy, actions, d)
    ensures AlertBasis(hasProxy, actions + [Preempt], Called(hasProxy, Run(hasProxy, INITIAL, actions)))
  {
    hide Run, Grounded, Asking, Cutoff, Ids, DistinctIds, Migrating;
    var d := Run(hasProxy, INITIAL, actions);
    if d.state == Healthy {
      CallGrounds(hasProxy, actions);
    }
    BasisLater(hasProxy, actions, Preempt, d, Called(hasProxy, d));
  }

  /** Where the migrating call is suspended tells whether there have been effects. */
  lemma LogOfPhase(d: Daemon, task: nat)
    requires Inv(d) && task < |d.tasks| && d.tasks[task] != Ignored
    ensures d.log == [] <==> d.tasks[task] == Syncing || d.tasks[task].Alerting?
    ensures forall i :: 0 <= i < |d.tasks| && i != task ==> d.tasks[i] == Ignored
    ensures DistinctIds(d.sessions)
  {
    hide DistinctIds;
    var m: nat :| Migrating(d, m);
  }

  lemma ProceedBasis(hasProxy: bool, actions: seq<Action>, task: nat, answer: Answer)
    requires var d := Run(hasProxy, INITIAL, actions);
             Inv(d) && AlertBasis(hasProxy, actions, d) && task < |d.tasks| && d.tasks[task] != Ignored
    ensures AlertBasis(hasProxy, actions + [Proceed(task, answer)],
                       GoOn(Run(hasProxy, INITIAL, actions), task, answer))
  {
    hide Run, Grounded, Asking, Cutoff, Ids, DistinctIds, PutAll, Inv;
    var a := Proceed(task, answer);
    var d := Run(hasProxy, INITIAL, actions);
    LogOfPhase(d, task);
    if d.tasks[task] == Syncing && answer.Synced? {
      AnswerGrounds(hasProxy, actions, task, answer.requests);
    } else if d.tasks[task].Alerting? && answer.Delivered? {
      GroundedLater(hasProxy, actions, a, d.tasks[task].cutoff, d.tasks[task].requestIds);
    }
    BasisLater(hasProxy, actions, a, d, GoOn(d, task, answer));
  }

  lemma StepBasis(hasProxy: bool, actions: seq<Action>, a: Action)
    requires var d := Run(hasProxy, INITIAL, actions); Inv(d) && AlertBasis(hasProxy, actions, d)
    ensures AlertBasis(hasProxy, actions + [a], Step(hasProxy, Run(hasProxy, INITIAL, actions), a))
  {
    hide Run, Inv, AlertBasis, Called, GoOn;
    var d := Run(hasProxy, INITIAL, actions);
    match a {
      case Preempt => CallBasis(hasProxy, actions);
      case Proceed(task, answer) =>
        if task < |d.tasks| && d.tasks[task] != Ignored {
          ProceedBasis(hasProxy, actions, task, answer);
        } else {
          IgnoredStays(d, a);
          KeptBasis(hasProxy, actions, a, d, Step(hasProxy, d, a));
        }
      case _ => KeptBasis(hasProxy, actions, a, d, Step(hasProxy, d, a));
    }
  }

  lemma IgnoredStays(d: Daemon, a: Action)
    requires a.Proceed? && (a.task < |d.tasks| ==> d.tasks[a.task] == Ignored)
    ensures Step(true, d, a) == d == Step(false, d, a)
  {
  }

  lemma KeptBasis(hasProxy: bool, actions: seq<Action>, a: Action, d: Daemon, t: Daemon)
    requires AlertBasis(hasProxy, actions, d) && t.tasks == d.tasks && t.log == d.log
    ensures AlertBasis(hasProxy, actions + [a], t)
  {
    hide Grounded, Asking;
    BasisLater(hasProxy, actions, a, d, t);
  }

  lemma {:induction false} RunBasis(hasProxy: bool, actions: seq<Action>)
    ensures AlertBasis(hasProxy, actions, Run(hasProxy, INITIAL, actions))
    decreases |actions|
  {
    hide Step, AlertBasis, Inv;
    if actions == [] {
      NoBasis(hasProxy);
    } else {
      var before, a := actions[..|actions| - 1], actions[|actions| - 1];
      assert actions == before + [a];
      RunBasis(hasProxy, before);
      RunKeepsInv(hasProxy, before);
      StepBasis(hasProxy, before, a);
    }
  }

  lemma NoBasis(hasProxy: bool)
    ensures AlertBasis(hasProxy, [], INITIAL)
  {
  }

  /** In every run the alert is the first effect. It is about the registry that the migrating call found, or,
      if that was empty and there is a proxy, about the registry once the proxy's answer was taken over. */
  lemma AlertIsGrounded(hasProxy: bool, actions: seq<Action>)
    ensures var log := Run(hasProxy, INITIAL, actions).log;
            log != [] ==> log[0].AlertSent? && Grounded(hasProxy, actions, log[0].cutoff, log[0].requestIds)
  {
    hide Run, Grounded, Asking;
    RunBasis(hasProxy, actions);
  }

  // ---------------------------------------------------------------------
  // The program
  // ---------------------------------------------------------------------

  /** What happens while a call is suspended: other tasks use the daemon, and the answer to the request arrives. */
  datatype Turn = Turn(others: seq<Action>, ok: bool, requests: seq<ActiveRequest>)

  type Environment = nat -> Turn

  lemma RunSnoc(hasProxy: bool, actions: seq<Action>, a: Action)
    ensures Run(hasProxy, INITIAL, actions + [a]) == Step(hasProxy, Run(hasProxy, INITIAL, actions), a)
  {
    hide Step;
    assert (actions + [a])[..|actions|] == actions;
  }

  class NodeDaemon {
    const hasProxy: bool
    const client: P2PClient
    var state: NodeState
    var activeSessions: Registry
    var effects: seq<Effect>
    var turn: nat
    ghost var history: seq<Action>

    ghost function View(): Daemon
      reads this
    {
      Run(hasProxy, INITIAL, history)
    }

    /** The fields are those of the step system after the run so far. */
    ghost predicate Valid()
      reads this
    {
      View().state == state && View().sessions == activeSessions && View().log == effects
    }

    constructor (hasProxy: bool, client: P2PClient)
      ensures Valid() && history == [] && state == Healthy && activeSessions == []
      ensures this.hasProxy == hasProxy && this.client == client
    {
      this.hasProxy, this.client := hasProxy, client;
      state, activeSessions, effects, turn, history := Healthy, [], [], 0, [];
    }

    ghost method Note(a: Action)
      modifies this`history
      ensures history == old(history) + [a]
      ensures View() == Step(hasProxy, old(View()), a)
    {
      RunSnoc(hasProxy, history, a);
      history := history + [a];
    }

    /** set_state: it never suspends, so a check of the state and the transition behind it are one step. */
    method SetState(newState: NodeState)
      modifies this`state
      ensures state == newState
    {
      if state == newState {
        return;
      }
      state := newState;
    }

    method RegisterSession(s: InferenceSession)
      requires Valid()
      modifies this`activeSessions, this`history
      ensures Valid() && history == old(history) + [Register(s)]
      ensures forall x :: x in activeSessions <==> x == s || (x in old(activeSessions) && x.requestId != s.requestId)
      ensures Placed(old(activeSessions), s, activeSessions)
    {
      hide Placed;
      RunKeepsInv(hasProxy, history);
      PutIds(activeSessions, s);
      PutPlaces(activeSessions, s);
      Note(Register(s));
      activeSessions := Put(activeSessions, s);
    }

    method UpdateSessionToken(id: string, token: string, sequenceId: int)
      requires Valid()
      modifies this`activeSessions, this`history
      ensures Valid() && history == old(history) + [UpdateToken(id, token, sequenceId)]
      ensures |activeSessions| == |old(activeSessions)|
      ensures forall i :: 0 <= i < |activeSessions| ==>
                if old(activeSessions)[i].requestId != id then activeSessions[i] == old(activeSessions)[i]
                else TokenAdded(old(activeSessions)[i], token, sequenceId, activeSessions[i])
    {
      hide Updated, DistinctIds;
      RunKeepsInv(hasProxy, history);
      RegistryOf(View());
      UpdatesOne(activeSessions, id, token, sequenceId);
      Note(UpdateToken(id, token, sequenceId));
      activeSessions := Updated(activeSessions, id, token, sequenceId);
    }

    method CompleteSession(id: string)
      requires Valid()
      modifies this`activeSessions, this`history
      ensures Valid() && history == old(history) + [Complete(id)]
      ensures forall x :: x in activeSessions <==> x in old(activeSessions) && x.requestId != id
    {
      RunKeepsInv(hasProxy, history);
      RemovedIds(activeSessions, id);
      Note(Complete(id));
      activeSessions := Removed(activeSessions, id);
    }

    /** A suspending await of a migrating call. Of the other on_preemption calls each was ignored and has ended. */
    method Suspend(others: seq<Action>, ghost me: nat)
      requires Valid() && state != Healthy && me < |View().tasks|
      modifies this`activeSessions, this`history
      ensures Valid() && old(history) <= history
      ensures me < |View().tasks| && View().tasks[me] == old(View()).tasks[me]
    {
      for n := 0 to |others|
        invariant Valid() && old(history) <= history
        invariant me < |View().tasks| && View().tasks[me] == old(View()).tasks[me]
      {
        match others[n] {
          case Register(s) => RegisterSession(s);
          case UpdateToken(id, token, sequenceId) => UpdateSessionToken(id, token, sequenceId);
          case Complete(id) => CompleteSession(id);
          case Preempt => Note(Preempt);
          case Proceed(_, _) =>
        }
      }
    }

    method ComputeCutoff() returns (cutoff: int)
      ensures cutoff == Cutoff(activeSessions)
      ensures cutoff >= -1 && forall s :: s in activeSessions ==> s.lastFlushed <= cutoff
      ensures cutoff == -1 || exists s :: s in activeSessions && s.lastFlushed == cutoff
    {
      CutoffIsMaximum(activeSessions);
      cutoff := -1;
      for n := 0 to |activeSessions|
        invariant cutoff == Cutoff(activeSessions[..n])
      {
        assert activeSessions[..n + 1][..n] == activeSessions[..n];
        if activeSessions[n].lastFlushed > cutoff {
          cutoff := activeSessions[n].lastFlushed;
        }
      }
      assert activeSessions[..|activeSessions|] == activeSessions;
    }

    /** What a suspended request of call `me` comes back with. */
    method Receive(env: Environment, ghost me: nat) returns (t: Turn)
      requires Valid() && state != Healthy && me < |View().tasks|
      modifies this`activeSessions, this`history, this`turn
      ensures Valid() && old(history) <= history && t == env(old(turn)) && turn == old(turn) + 1
      ensures me < |View().tasks| && View().tasks[me] == old(View()).tasks[me]
    {
      t := env(turn);
      turn := turn + 1;
      Suspend(t.others, me);
    }

    /** The proxy is asked for its requests only if the registry is empty. */
    method Synchronize(env: Environment, ghost me: nat)
      requires Valid() && state == PreemptionDetected && me < |View().tasks| && View().tasks[me] == Syncing
      modifies this`activeSessions, this`history, this`turn
      ensures Valid() && old(history) <= history && me < |View().tasks|
      ensures View().tasks[me] == Alerting(Cutoff(activeSessions), Ids(activeSessions))
      ensures turn == old(turn) + 1
      ensures exists before :: Synchronized(before, env(old(turn)).requests, activeSessions)
    {
      hide Put, Cutoff, Ids, Synchronized, DistinctIds;
      var t := Receive(env, me);
      ghost var before := activeSessions;
      RunKeepsInv(hasProxy, history);
      RegistryOf(View());
      PutAllSynchronizes(before, t.requests);
      Note(Proceed(me, Synced(t.requests)));
      label Noted:
      for n := 0 to |t.requests|
        invariant PutAll(activeSessions, t.requests[n..]) == PutAll(before, t.requests)
        invariant history == old@Noted(history) && turn == old(turn) + 1
      {
        assert t.requests[n..][1..] == t.requests[n + 1..];
        activeSessions := Put(activeSessions, FromProxy(t.requests[n]));
      }
      assert Synchronized(before, t.requests, activeSessions);
    }

    /** _notify_proxy_preemption, then BUFFERING_INGRESS: a failed alert is swallowed. */
    method AlertProxy(cutoff: int, env: Environment, ghost me: nat) returns (pending: seq<string>)
      requires Valid() && state == PreemptionDetected && me < |View().tasks|
      requires View().tasks[me] == Alerting(cutoff, Ids(activeSessions))
      modifies this`state, this`activeSessions, this`effects, this`history, this`turn
      ensures Valid() && old(history) <= history && me < |View().tasks| && state == BufferingIngress
      ensures pending == Ids(activeSessions)
      ensures View().tasks[me] == if pending == [] then Pausing else Aborting(pending)
      ensures |effects| == |old(effects)| + 1 && effects[..|old(effects)|] == old(effects)
      ensures exists ok :: effects[|old(effects)|] == AlertSent(cutoff, Ids(old(activeSessions)), ok)
    {
      hide Ids;
      var ids := Ids(activeSessions);
      var t := Receive(env, me);
      Note(Proceed(me, Delivered(t.ok)));
      effects := effects + [AlertSent(cutoff, ids, t.ok)];
      SetState(BufferingIngress);
      pending := Ids(activeSessions);
    }

    /** engine_hook.abort_request for one request after the other: failures are swallowed. */
    method AbortRequests(requestIds: seq<string>, env: Environment, ghost me: nat)
      requires Valid() && state == BufferingIngress && me < |View().tasks|
      requires View().tasks[me] == if requestIds == [] then Pausing else Aborting(requestIds)
      modifies this`activeSessions, this`effects, this`history, this`turn
      ensures Valid() && old(history) <= history && me < |View().tasks|
      ensures View().tasks[me] == Pausing
      ensures Aborted(requestIds, old(effects), effects)
    {
      hide Run, Aborted;
      var n := 0;
      NoneAborted(requestIds, effects);
      while n < |requestIds|
        invariant n <= |requestIds|
        invariant Aborted(requestIds[..n], old(effects), effects)
        invariant Valid() && old(history) <= history && me < |View().tasks|
        invariant View().tasks[me] == if requestIds[n..] == [] then Pausing else Aborting(requestIds[n..])
      {
        var t := Receive(env, me);
        Note(Proceed(me, Delivered(t.ok)));
        assert requestIds[n..][0] == requestIds[n] && requestIds[n..][1..] == requestIds[n + 1..];
        AbortedOneMore(requestIds, n, old(effects), effects, t.ok);
        effects := effects + [AbortSent(requestIds[n], t.ok)];
        n := n + 1;
      }
    }

    /** _pause_local_engine, then STATE_STREAMING and the list of sessions: failures are swallowed. */
    method PauseLocalEngine(requestIds: seq<string>, env: Environment, ghost me: nat) returns (snapshot: Registry)
      requires Valid() && state == BufferingIngress && me < |View().tasks|
      requires View().tasks[me] == if requestIds == [] then Pausing else Aborting(requestIds)
      modifies this`state, this`activeSessions, this`effects, this`history, this`turn
      ensures Valid() && old(history) <= history && me < |View().tasks| && state == StateStreaming
      ensures View().tasks[me] == Streaming(snapshot) && snapshot == activeSessions
      ensures var n := |effects|;
              && n >= 2 && Aborted(requestIds, old(effects), effects[..n - 2])
              && effects[n - 2].PauseSent? && effects[n - 1] == TransferStarted(snapshot)
    {
      hide Run, Aborted;
      AbortRequests(requestIds, env, me);
      ghost var aborted := effects;
      var t := Receive(env, me);
      Note(Proceed(me, Delivered(t.ok)));
      effects := effects + [PauseSent(t.ok)];
      SetState(StateStreaming);
      snapshot := activeSessions;
      effects := effects + [TransferStarted(snapshot)];
      assert effects[..|effects| - 2] == aborted;
    }

    /** HANDOVER_COMPLETE, TERMINATED and the teardown. */
    method Conclude(outcome: Outcome, env: Environment, ghost me: nat)
      requires Valid() && state == StateStreaming && me < |View().tasks|
      requires View().tasks[me].Streaming? && outcome.Accepted?
      modifies this`state, this`activeSessions, this`effects, this`history, this`turn
      ensures Valid() && old(history) <= history
      ensures state == Terminated && effects == old(effects) + [TransferEnded(outcome)]
    {
      hide Run;
      Note(Proceed(me, Transferred(outcome)));
      effects := effects + [TransferEnded(outcome)];
      SetState(HandoverComplete);
      SetState(Terminated);
      var _ := Receive(env, me);
      Note(Proceed(me, Done));
    }

    /** The report of a failed transfer, before the exception is raised again. */
    method ReportFailure(outcome: Outcome, env: Environment, ghost me: nat)
      requires Valid() && state == StateStreaming && me < |View().tasks|
      requires View().tasks[me].Streaming? && !outcome.Accepted?
      modifies this`state, this`activeSessions, this`effects, this`history, this`turn
      ensures Valid() && old(history) <= history
      ensures state == StateStreaming && effects == old(effects) + [TransferEnded(outcome), FailureSent]
    {
      hide Run;
      Note(Proceed(me, Transferred(outcome)));
      effects := effects + [TransferEnded(outcome)];
      var _ := Receive(env, me);
      Note(Proceed(me, Done));
      effects := effects + [FailureSent];
    }

    /** The transfer and what follows it: HANDOVER_COMPLETE and TERMINATED, or the report of the failure, raised. */
    method Migrate(snapshot: Registry, writer: StreamWriter, reader: StreamReader, link: Link,
                   env: Environment, ghost me: nat)
      returns (outcome: Outcome)
      requires Valid() && state == StateStreaming && me < |View().tasks|
      requires View().tasks[me] == Streaming(snapshot)
      modifies this`state, this`activeSessions, this`effects, this`history, this`turn, writer, reader
      ensures Valid() && old(history) <= history
      ensures if outcome.Accepted? then state == Terminated && effects == old(effects) + [TransferEnded(outcome)]
              else state == StateStreaming && effects == old(effects) + [TransferEnded(outcome), FailureSent]
      ensures SnapshotSent(client, snapshot, link, old(writer.sent), writer.sent, old(reader.unread), outcome)
    {
      hide Script, Attempted, Run, Step;
      outcome := client.SendSessions(snapshot, false, link, writer, reader);
      var _ := Receive(env, me);
      if outcome.Accepted? {
        Conclude(outcome, env, me);
      } else {
        ReportFailure(outcome, env, me);
      }
    }

    /** The guard and PREEMPTION_DETECTED: with no await between them, only one call can pass. Then the registry is
        synchronized, if it is empty. */
    method Detect(env: Environment) returns (migrates: bool, ghost me: nat)
      requires Valid()
      modifies this`state, this`activeSessions, this`history, this`turn
      ensures Valid() && old(history) <= history && migrates == (old(state) == Healthy)
      ensures !migrates ==>
                history == old(history) + [Preempt] && state == old(state) && activeSessions == old(activeSessions)
      ensures migrates ==>
                && state == PreemptionDetected && me < |View().tasks|
                && View().tasks[me] == Alerting(Cutoff(activeSessions), Ids(activeSessions))
      ensures migrates && (old(activeSessions) != [] || !hasProxy) ==>
                turn == old(turn) && activeSessions == old(activeSessions)
      ensures migrates && old(activeSessions) == [] && hasProxy ==>
                && turn == old(turn) + 1
                && exists before :: Synchronized(before, env(old(turn)).requests, activeSessions)
    {
      hide Cutoff, Ids, Run, DistinctIds, Migrating, Synchronized;
      RunKeepsInv(hasProxy, history);
      migrates, me := state == Healthy, |View().tasks|;
      Note(Preempt);
      if migrates {
        SetState(PreemptionDetected);
        if activeSessions == [] && hasProxy {
          Synchronize(env, me);
        }
      }
    }

    /** on_preemption: ignored unless the node is healthy; otherwise the whole migration. It raises exactly when the
        transfer was not accepted. */
    method OnPreemption(env: Environment, link: Link, writer: StreamWriter, reader: StreamReader)
      returns (migrated: bool, outcome: Outcome, snapshot: Registry)
      requires Valid()
      modifies this`state, this`activeSessions, this`effects, this`history, this`turn, writer, reader
      ensures Valid() && old(history) <= history && migrated == (old(state) == Healthy)
      ensures !migrated ==>
                && history == old(history) + [Preempt] && state == old(state) && effects == old(effects)
                && activeSessions == old(activeSessions) && writer.sent == old(writer.sent)
      ensures migrated ==>
                && state == (if outcome.Accepted? then Terminated else StateStreaming)
                && TransferStarted(snapshot) in effects && TransferEnded(outcome) in effects
                && SnapshotSent(client, snapshot, link, old(writer.sent), writer.sent, old(reader.unread), outcome)
    {
      hide SnapshotSent, Cutoff, Ids, Run, Step;
      outcome, snapshot := Failed, [];
      ghost var me;
      migrated, me := Detect(env);
      if !migrated {
        return;
      }
      var cutoff := ComputeCutoff();
      var requestIds := AlertProxy(cutoff, env, me);
      snapshot := PauseLocalEngine(requestIds, env, me);
      assert TransferStarted(snapshot) in effects;
      ghost var before := effects;
      outcome := Migrate(snapshot, writer, reader, link, env, me);
      assert effects[|before|] == TransferEnded(outcome) && effects[|before| - 1] == TransferStarted(snapshot);
    }
  }

  /** The snapshot's transfer, uncompressed, as send_sessions promises it. */
  ghost predicate SnapshotSent(client: P2PClient, snapshot: Registry, link: Link, before: seq<byte>, after: seq<byte>,
                       incoming: seq<byte>, outcome: Outcome)
  {
    Attempted(client.z, Script(client.codec, client.nodeId, snapshot, false), link, client.codec, before, after,
              incoming, outcome)
  }

  ghost predicate AreAborts(effects: seq<Effect>, requestIds: seq<string>) {
    && |effects| == |requestIds|
    && forall i :: 0 <= i < |effects| ==> effects[i].AbortSent? && effects[i].requestId == requestIds[i]
  }

  /** One abort for each id, in order, delivered or not, was added. */
  ghost predicate Aborted(requestIds: seq<string>, before: seq<Effect>, after: seq<Effect>) {
    before <= after && AreAborts(after[|before|..], requestIds)
  }

  lemma NoneAborted(requestIds: seq<string>, effects: seq<Effect>)
    ensures Aborted(requestIds[..0], effects, effects)
    ensures requestIds[..|requestIds|] == requestIds
  {
  }

  lemma AbortedOneMore(requestIds: seq<string>, n: nat, before: seq<Effect>, after: seq<Effect>, ok: bool)
    requires n < |requestIds| && Aborted(requestIds[..n], before, after)
    ensures Aborted(requestIds[..n + 1], before, after + [AbortSent(requestIds[n], ok)])
  {
    var e := AbortSent(requestIds[n], ok);
    assert (after + [e])[|before|..] == after[|before|..] + [e];
    assert requestIds[..n + 1] == requestIds[..n] + [requestIds[n]];
  }

  /** Spelled out: one token more, flushed up to this id, and everything else as before. */
  predicate TokenAdded(before: InferenceSession, token: string, sequenceId: int, after: InferenceSession) {
    && after.generatedText == before.generatedText + [token]
    && after.totalTokensGenerated == before.totalTokensGenerated + 1 && after.lastFlushed == sequenceId
    && after.requestId == before.requestId && after.prompt == before.prompt && after.maxTokens == before.maxTokens
  }

  lemma {:induction false} UpdatesOne(sessions: Registry, id: string, token: string, sequenceId: int)
    requires DistinctIds(sessions)
    ensures |Updated(sessions, id, token, sequenceId)| == |sessions|
    ensures forall i :: 0 <= i < |sessions| ==>
              Updated(sessions, id, token, sequenceId)[i]
              == if sessions[i].requestId == id then WithToken(sessions[i], token, sequenceId) else sessions[i]
  {
    if sessions != [] {
      var rest := sessions[1..];
      assert sessions == [sessions[0]] + rest;
      ConsDistinct(sessions[0], rest);
      UpdatesOne(rest, id, token, sequenceId);
    }
  }
}
