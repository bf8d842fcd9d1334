/** When a request changes its upstream (proxy/upstream.py), in every run of the step system: not without a reason, and
    not later than the cutoff demands; and when a pause of the engine goes unnoticed (simulator/mock_engine.py). */
module Switchover {
  import opened Buffer
  import opened Numbers
  import opened StreamSession
  import opened Handover

  // ---------------------------------------------------------------------
  // Not without a reason
  // ---------------------------------------------------------------------

  /** The standby was asked to go on. */
  predicate Switched(st: Stream) {
    st.phase.Resuming? || st.phase.ResumeWriting? || st.resumedAt > 0
  }

  /** Readiness was announced, or a wait for it timed out. */
  ghost predicate Reason(id: string, past: seq<Action>) {
    Ready(id) in past || Tick(id, true) in past
  }

  ghost predicate Backed(s: System, past: seq<Action>) {
    && (forall id :: id in s.sessions && s.sessions[id].handoverReady ==> Ready(id) in past)
    && (forall id :: id in s.streams && Switched(s.streams[id]) ==> Reason(id, past))
    && (forall k :: 0 <= k < |s.finished| && Switched(s.finished[k].stream) ==> Reason(s.finished[k].id, past))
  }

  lemma ReasonStays(id: string, past: seq<Action>, a: Action)
    ensures Ready(id) in past ==> Ready(id) in past + [a]
    ensures Reason(id, past) ==> Reason(id, past + [a])
    ensures a == Ready(id) || a == Tick(id, true) ==> Reason(id, past + [a])
  {
    assert a == (past + [a])[|past|];
  }

  /** What a step of a request does to its own session and upstream. */
  ghost predicate SwitchesFor(s: System, t: System, a: Action, id: string)
    requires id in s.streams
  {
    && (id in t.sessions ==> t.sessions[id] == SessionOf(s, id))
    && (id in t.streams && Switched(t.streams[id]) ==>
          Switched(s.streams[id]) || (a.Tick? && (a.timedOut || SessionOf(s, id).handoverReady)))
  }

  lemma StaysOn(s: System, t: System, a: Action, id: string, st: Stream)
    requires id in s.streams && t.streams == s.streams[id := st] && t.sessions == s.sessions
    requires Switched(st) ==> Switched(s.streams[id])
    ensures SwitchesFor(s, t, a, id)
  {
  }

  lemma ReadSwitches(s: System, a: Action, id: string, c: Connection)
    requires id in s.streams
    requires s.streams[id].phase == Reading(c) || s.streams[id].phase == Resuming(c)
    ensures var st := s.streams[id];
            SwitchesFor(s, if st.phase.Reading? then ReadActive(s, id, st, c) else ReadStandby(s, id, st, c), a, id)
  {
    hide Judge, Filtered, LastFlushed, ReachedCutoff;
  }

  lemma OwnSwitch(corpus: Corpus, s: System, a: Action, id: string)
    requires id in s.streams
    ensures SwitchesFor(s, StreamStep(corpus, s, a, id, s.streams[id]), a, id)
  {
    hide ReadActive, ReadStandby, SwitchesFor, LastFlushed, Forgotten, StopAfter, Emit, Break, TurnOf, Judge;
    var st := s.streams[id];
    var t := StreamStep(corpus, s, a, id, st);
    assert s.streams == s.streams[id := st];
    if a.Read? && (st.phase.Reading? || st.phase.Resuming?) {
      ReadSwitches(s, a, id, st.phase.upstream);
    } else if a.Begin? || a.Tick? || a.Written? {
      OtherSwitch(corpus, s, a, id);
    } else {
      StaysOn(s, t, a, id, t.streams[id]);
    }
  }

  lemma OtherSwitch(corpus: Corpus, s: System, a: Action, id: string)
    requires id in s.streams && (a.Begin? || a.Tick? || a.Written?)
    ensures SwitchesFor(s, StreamStep(corpus, s, a, id, s.streams[id]), a, id)
  {
    hide LastFlushed, Forgotten, StopAfter, ReadActive, ReadStandby, EngineStep, DropStep, ReachedCutoff;
  }

  lemma ControlBacked(corpus: Corpus, s: System, past: seq<Action>, a: Action)
    requires Backed(s, past) && IsControl(a)
    ensures Backed(Step(corpus, s, a), past + [a])
  {
    hide StreamStep, Reason;
    var t := Step(corpus, s, a);
    forall id
      ensures Ready(id) in past ==> Ready(id) in past + [a]
      ensures Reason(id, past) ==> Reason(id, past + [a])
      ensures a == Ready(id) ==> Ready(id) in past + [a]
    {
      ReasonStays(id, past, a);
      assert a == (past + [a])[|past|];
    }
  }

  lemma StreamBacked(corpus: Corpus, s: System, past: seq<Action>, a: Action)
    requires Inv(corpus, s) && Backed(s, past) && !IsControl(a) && a.id in s.streams
    ensures Backed(Step(corpus, s, a), past + [a])
  {
    hide Inv, StreamStep, Reason, Switched, OwnChange;
    InRange(corpus, s, a.id);
    StepOfStream(corpus, s, a);
    StreamStepOwn(corpus, s, a, a.id);
    OwnSwitch(corpus, s, a, a.id);
    NoNewSessions(corpus, s, a);
    forall id
      ensures Ready(id) in past ==> Ready(id) in past + [a]
      ensures Reason(id, past) ==> Reason(id, past + [a])
      ensures a == Tick(id, true) ==> Reason(id, past + [a])
      ensures Ready(id) in past ==> Reason(id, past + [a])
    {
      ReasonStays(id, past, a);
      ReadyIsReason(id, past + [a]);
    }
  }

  lemma NoNewSessions(corpus: Corpus, s: System, a: Action)
    requires Inv(corpus, s) && !IsControl(a) && a.id in s.streams
    ensures forall x :: x in Step(corpus, s, a).sessions && x != a.id ==> x in s.sessions
  {
    hide Inv, Step, StreamStep, OwnChange, StreamOk, LastFlushed;
    var t := Step(corpus, s, a);
    InRange(corpus, s, a.id);
    StepOfStream(corpus, s, a);
    StreamStepOwn(corpus, s, a, a.id);
    StepKeepsInv(corpus, s, a);
    forall x | x in t.sessions && x != a.id
      ensures x in s.sessions
    {
      SessionHasStream(corpus, t, x);
      InOrder(corpus, t, x);
      InOrder(corpus, s, x);
    }
  }

  lemma SessionHasStream(corpus: Corpus, s: System, id: string)
    requires Inv(corpus, s) && id in s.sessions
    ensures id in s.streams
  {
    hide StreamOk, FinishedOk, LastFlushed;
  }

  lemma ReadyIsReason(id: string, past: seq<Action>)
    ensures Ready(id) in past ==> Reason(id, past)
  {
  }

  lemma StepBacked(corpus: Corpus, s: System, past: seq<Action>, a: Action)
    requires Inv(corpus, s) && Backed(s, past)
    ensures Backed(Step(corpus, s, a), past + [a])
  {
    hide Inv, Step, Backed;
    if IsControl(a) {
      ControlBacked(corpus, s, past, a);
    } else if a.id in s.streams {
      StreamBacked(corpus, s, past, a);
    } else {
      StepOfStream(corpus, s, a);
      BackedLater(s, past, a);
    }
  }

  lemma BackedLater(s: System, past: seq<Action>, a: Action)
    requires Backed(s, past)
    ensures Backed(s, past + [a])
  {
    hide Switched;
  }

  lemma {:induction false} RunBacked(corpus: Corpus, s: System, past: seq<Action>, actions: seq<Action>)
    requires Inv(corpus, s) && Backed(s, past)
    ensures Backed(Run(corpus, s, actions), past + actions)
    decreases |actions|
  {
    hide Inv, Step, Backed;
    if actions == [] {
      assert past + actions == past;
    } else {
      StepKeepsInv(corpus, s, actions[0]);
      StepBacked(corpus, s, past, actions[0]);
      RunBacked(corpus, Step(corpus, s, actions[0]), past + [actions[0]], actions[1..]);
      assert past + [actions[0]] + actions[1..] == past + actions;
    }
  }

  /** In every run a request goes on at the standby only after its readiness was announced or its wait timed out. */
  lemma SwitchHasReason(corpus: Corpus, actions: seq<Action>)
    ensures var t := Run(corpus, INITIAL, actions);
            && (forall id :: id in t.streams && Switched(t.streams[id]) ==>
                  Ready(id) in actions || Tick(id, true) in actions)
            && (forall k :: 0 <= k < |t.finished| && Switched(t.finished[k].stream) ==>
                  Ready(t.finished[k].id) in actions || Tick(t.finished[k].id, true) in actions)
  {
    hide Inv, Run, Switched;
    InitialInv(corpus);
    RunBacked(corpus, INITIAL, [], actions);
    assert [] + actions == actions;
  }

  // ---------------------------------------------------------------------
  // Not later than the cutoff demands
  // ---------------------------------------------------------------------

  /** The request was told the cutoff. Of the first upstream it takes at most one chunk beyond `bound`. */
  ghost predicate Heeds(st: Stream, session: Session, cutoff: nat, bound: nat) {
    && session.preemptionSignaled && session.cutoff == cutoff
    && match st.phase
       case Preparing => false
       case Reading(_) => |st.delivered| <= bound
       case Writing(_, _) => |st.delivered| <= bound + 1
       case Buffering => |st.delivered| <= bound + 1
       case _ => st.resumedAt <= bound + 1
  }

  /** So it is while the request is live, and so it was if it has ended since. */
  ghost predicate Heeded(t: System, id: string, cutoff: nat, bound: nat, ended: nat) {
    && ended <= |t.finished|
    && (id in t.streams ==> id in t.sessions && Heeds(t.streams[id], t.sessions[id], cutoff, bound))
    && (forall k :: ended <= k < |t.finished| && t.finished[k].id == id ==> t.finished[k].stream.resumedAt <= bound + 1)
  }

  lemma AfterChunkHeeds(s: System, id: string, st: Stream, c: Connection, q: int, cutoff: nat, bound: nat)
    requires id in s.sessions && s.sessions[id].preemptionSignaled && s.sessions[id].cutoff == cutoff <= bound
    requires |st.delivered| <= bound || (|st.delivered| <= bound + 1 && q == |st.delivered| - 1)
    ensures var t := AfterChunk(s, id, st, c, q);
            id in t.streams && t.sessions == s.sessions && Heeds(t.streams[id], t.sessions[id], cutoff, bound)
  {
  }

  lemma ReadHeeds(corpus: Corpus, s: System, id: string, c: Connection, cutoff: nat, bound: nat)
    requires id in s.streams && id in s.sessions && s.streams[id].phase == Reading(c)
    requires Heeds(s.streams[id], s.sessions[id], cutoff, bound) && cutoff <= bound
    ensures var t := ReadActive(s, id, s.streams[id], c);
            id in t.streams ==> id in t.sessions && Heeds(t.streams[id], t.sessions[id], cutoff, bound)
  {
    hide Judge, LastFlushed, Filtered, AfterChunk, Forgotten;
    if c.wire != [] {
      AfterChunkHeeds(s, id, s.streams[id], c.(wire := c.wire[1..]), c.wire[0].sequenceId, cutoff, bound);
    }
  }

  lemma OwnHeeds(corpus: Corpus, s: System, a: Action, id: string, cutoff: nat, bound: nat)
    requires Inv(corpus, s) && id in s.streams && id in s.sessions && !IsControl(a)
    requires Heeds(s.streams[id], s.sessions[id], cutoff, bound) && cutoff <= bound
    ensures var t := StreamStep(corpus, s, a, id, s.streams[id]);
            id in t.streams ==> id in t.sessions && Heeds(t.streams[id], t.sessions[id], cutoff, bound)
  {
    hide Inv, Chunks, ReadActive, AfterChunk, LastFlushed, Judge, Filtered, Forgotten, StopAfter, Emit, Break, TurnOf;
    var st := s.streams[id];
    InOrder(corpus, s, id);
    match a {
      case Read(_) =>
        if st.phase.Reading? {
          ReadHeeds(corpus, s, id, st.phase.upstream, cutoff, bound);
        }
      case Written(_) =>
        if st.phase.Writing? {
          AfterChunkHeeds(s, id, st, st.phase.upstream, st.phase.sequenceId, cutoff, bound);
        }
      case _ =>
    }
  }

  /** A request that leaves has never changed its stream in the step it leaves by. */
  lemma StreamHeeded(corpus: Corpus, s: System, a: Action, id: string, cutoff: nat, bound: nat, ended: nat)
    requires Inv(corpus, s) && Heeded(s, id, cutoff, bound, ended) && cutoff <= bound
    requires !IsControl(a) && a.id in s.streams
    ensures Heeded(Step(corpus, s, a), id, cutoff, bound, ended)
  {
    hide Inv, StreamStep, Heeds, OwnChange, LastFlushed;
    InRange(corpus, s, a.id);
    InOrder(corpus, s, a.id);
    StepOfStream(corpus, s, a);
    StreamStepOwn(corpus, s, a, a.id);
    var t := Step(corpus, s, a);
    if a.id == id {
      OwnHeeds(corpus, s, a, id, cutoff, bound);
      HeedsResumes(corpus, s, id, cutoff, bound);
    }
    forall k | ended <= k < |t.finished| && t.finished[k].id == id
      ensures t.finished[k].stream.resumedAt <= bound + 1
    {
      if k < |s.finished| {
        assert t.finished[k] == s.finished[k];
      }
    }
  }

  lemma HeedsResumes(corpus: Corpus, s: System, id: string, cutoff: nat, bound: nat)
    requires Inv(corpus, s) && id in s.streams && id in s.sessions
    requires Heeds(s.streams[id], s.sessions[id], cutoff, bound)
    ensures s.streams[id].resumedAt <= bound + 1
  {
    hide Inv, Chunks, StopAfter, Carries, LastFlushed;
    InOrder(corpus, s, id);
  }

  lemma ControlHeeded(corpus: Corpus, s: System, a: Action, id: string, cutoff: nat, bound: nat, ended: nat)
    requires Heeded(s, id, cutoff, bound, ended)
    requires IsControl(a) && !a.Alert? && (a.Arrive? ==> a.id != id)
    ensures Heeded(Step(corpus, s, a), id, cutoff, bound, ended)
  {
    hide StreamStep;
  }

  lemma StepHeeded(corpus: Corpus, s: System, a: Action, id: string, cutoff: nat, bound: nat, ended: nat)
    requires Inv(corpus, s) && Heeded(s, id, cutoff, bound, ended) && cutoff <= bound
    requires !a.Alert? && (a.Arrive? ==> a.id != id)
    ensures Heeded(Step(corpus, s, a), id, cutoff, bound, ended)
  {
    hide Inv, Step, Heeded;
    if IsControl(a) {
      ControlHeeded(corpus, s, a, id, cutoff, bound, ended);
    } else if a.id in s.streams {
      StreamHeeded(corpus, s, a, id, cutoff, bound, ended);
    } else {
      StepOfStream(corpus, s, a);
    }
  }

  /** No further alert, and no new request of this id. */
  predicate Undisturbed(actions: seq<Action>, id: string) {
    forall a :: a in actions ==> !a.Alert? && (a.Arrive? ==> a.id != id)
  }

  lemma {:induction false} RunHeeded(corpus: Corpus, s: System, actions: seq<Action>, id: string, cutoff: nat,
                                     bound: nat, ended: nat)
    requires Inv(corpus, s) && Heeded(s, id, cutoff, bound, ended) && cutoff <= bound
    requires Undisturbed(actions, id)
    ensures Heeded(Run(corpus, s, actions), id, cutoff, bound, ended)
    decreases |actions|
  {
    hide Inv, Step, Heeded;
    if actions != [] {
      assert actions[0] in actions && forall a :: a in actions[1..] ==> a in actions;
      StepKeepsInv(corpus, s, actions[0]);
      StepHeeded(corpus, s, actions[0], id, cutoff, bound, ended);
      RunHeeded(corpus, Step(corpus, s, actions[0]), actions[1..], id, cutoff, bound, ended);
    }
  }

  lemma AlertHeeded(corpus: Corpus, s: System, id: string, cutoff: nat)
    requires Inv(corpus, s) && id in s.streams
    requires s.streams[id].phase.Reading? || s.streams[id].phase.Writing?
    ensures Heeded(Step(corpus, s, Alert(cutoff)), id, cutoff, Max(|s.streams[id].delivered|, cutoff), |s.finished|)
  {
    hide Inv, StreamStep;
    InOrder(corpus, s, id);
  }

  /** From every reachable state, an alert whose cutoff is an id: whatever comes behind it but another alert, a request
      that was reading its first upstream takes, beyond what it had and beyond the chunks up to the cutoff, at most one
      chunk more from there, and asks the standby for no later id. */
  lemma CutoffHolds(corpus: Corpus, s: System, id: string, cutoff: nat, actions: seq<Action>)
    requires Inv(corpus, s) && id in s.streams && Undisturbed(actions, id)
    requires s.streams[id].phase.Reading? || s.streams[id].phase.Writing?
    ensures var t := Run(corpus, Step(corpus, s, Alert(cutoff)), actions);
            var most := Max(|s.streams[id].delivered|, cutoff) + 1;
            && (id in t.streams ==>
                  var st := t.streams[id];
                  && st.resumedAt <= most
                  && (st.phase.Reading? || st.phase.Writing? || st.phase.Buffering? ==> |st.delivered| <= most))
            && (forall k :: |s.finished| <= k < |t.finished| && t.finished[k].id == id ==>
                  t.finished[k].stream.resumedAt <= most)
  {
    hide Inv, Step, Run, Undisturbed;
    var next := Step(corpus, s, Alert(cutoff));
    var bound: nat := Max(|s.streams[id].delivered|, cutoff);
    StepKeepsInv(corpus, s, Alert(cutoff));
    AlertHeeded(corpus, s, id, cutoff);
    RunHeeded(corpus, next, actions, id, cutoff, bound, |s.finished|);
    RunKeepsInv(corpus, next, actions);
    var t := Run(corpus, next, actions);
    if id in t.streams {
      HeedsResumes(corpus, t, id, cutoff, bound);
    }
  }

  // ---------------------------------------------------------------------
  // Pauses that go unnoticed
  // ---------------------------------------------------------------------

  function Halted(s: System, paused: bool): System {
    s.(enginePaused := paused)
  }

  /** Only an engine's turn looks at the flag. */
  predicate Indifferent(a: Action) {
    !a.EngineTurn? && !a.Pause? && !a.Resume?
  }

  lemma WithIndifferent(s: System, id: string, st: Stream, paused: bool)
    ensures With(Halted(s, paused), id, st) == Halted(With(s, id, st), paused)
    ensures SessionOf(Halted(s, paused), id) == SessionOf(s, id)
  {
  }

  lemma FinishIndifferent(s: System, id: string, st: Stream, done: bool, paused: bool)
    ensures Finish(Halted(s, paused), id, st, done) == Halted(Finish(s, id, st, done), paused)
  {
    hide Forgotten;
  }

  lemma AfterChunkIndifferent(s: System, id: string, st: Stream, c: Connection, q: int, paused: bool)
    ensures AfterChunk(Halted(s, paused), id, st, c, q) == Halted(AfterChunk(s, id, st, c, q), paused)
    ensures EndActive(Halted(s, paused), id, st, c) == Halted(EndActive(s, id, st, c), paused)
  {
    hide With, SessionOf, ReachedCutoff;
    WithIndifferent(s, id, st.(phase := Buffering), paused);
    WithIndifferent(s, id, st.(phase := Finishing, cutShort := c.next < c.stop), paused);
    WithIndifferent(s, id, st.(phase := Reading(c)), paused);
  }

  /** A chunk is passed on. */
  lemma PassIndifferent(s: System, id: string, st: Stream, sequenceId: int, paused: bool)
    ensures With(Halted(s, paused).(marks := Filtered(s.marks, id, sequenceId)), id, st)
         == Halted(With(s.(marks := Filtered(s.marks, id, sequenceId)), id, st), paused)
  {
    hide Filtered;
  }

  lemma ReadActiveIndifferent(s: System, id: string, st: Stream, c: Connection, paused: bool)
    ensures ReadActive(Halted(s, paused), id, st, c) == Halted(ReadActive(s, id, st, c), paused)
  {
    hide Judge, Filtered, LastFlushed, Finish, AfterChunk, EndActive, With;
    AfterChunkIndifferent(s, id, st, c, 0, paused);
    FinishIndifferent(s, id, st, false, paused);
    if c.wire != [] {
      var chunk, rest := c.wire[0], c.(wire := c.wire[1..]);
      AfterChunkIndifferent(s, id, st, rest, chunk.sequenceId, paused);
      PassIndifferent(s, id, st.(delivered := st.delivered + [chunk], phase := Writing(rest, chunk.sequenceId)),
                      chunk.sequenceId, paused);
    }
  }

  lemma ReadStandbyIndifferent(s: System, id: string, st: Stream, c: Connection, paused: bool)
    ensures ReadStandby(Halted(s, paused), id, st, c) == Halted(ReadStandby(s, id, st, c), paused)
  {
    hide Judge, Filtered, LastFlushed, Finish, With;
    FinishIndifferent(s, id, st, false, paused);
    WithIndifferent(s, id, st.(phase := Finishing), paused);
    if c.wire != [] {
      var chunk, rest := c.wire[0], c.(wire := c.wire[1..]);
      WithIndifferent(s, id, st.(phase := Resuming(rest)), paused);
      PassIndifferent(s, id, st.(delivered := st.delivered + [chunk], phase := ResumeWriting(rest)), chunk.sequenceId,
                      paused);
    }
  }

  lemma WrittenIndifferent(corpus: Corpus, s: System, id: string, st: Stream, paused: bool)
    ensures StreamStep(corpus, Halted(s, paused), Written(id), id, st)
         == Halted(StreamStep(corpus, s, Written(id), id, st), paused)
  {
    hide AfterChunk, Finish, With;
    match st.phase {
      case Writing(c, q) => AfterChunkIndifferent(s, id, st, c, q, paused);
      case ResumeWriting(c) => WithIndifferent(s, id, st.(phase := Resuming(c)), paused);
      case Finishing => FinishIndifferent(s, id, st, true, paused);
      case _ =>
    }
  }

  lemma StreamIndifferent(corpus: Corpus, s: System, a: Action, id: string, st: Stream, paused: bool)
    requires Indifferent(a)
    ensures StreamStep(corpus, Halted(s, paused), a, id, st) == Halted(StreamStep(corpus, s, a, id, st), paused)
  {
    hide ReadActive, ReadStandby, AfterChunk, Finish, EngineStep, LastFlushed, StopAfter, Break, Open;
    if a.Read? {
      match st.phase {
        case Reading(c) => ReadActiveIndifferent(s, id, st, c, paused);
        case Resuming(c) => ReadStandbyIndifferent(s, id, st, c, paused);
        case _ =>
      }
    } else if a.Written? {
      hide StreamStep;
      WrittenIndifferent(corpus, s, id, st, paused);
      assert a == Written(a.id);
      SameWritten(corpus, Halted(s, paused), a, id, st);
      SameWritten(corpus, s, a, id, st);
    }
  }

  lemma SameWritten(corpus: Corpus, s: System, a: Action, id: string, st: Stream)
    requires a.Written?
    ensures StreamStep(corpus, s, a, id, st) == StreamStep(corpus, s, Written(id), id, st)
  {
    hide AfterChunk, Finish, With;
  }

  lemma StepIndifferent(corpus: Corpus, s: System, a: Action, paused: bool)
    requires Indifferent(a)
    ensures Step(corpus, Halted(s, paused), a) == Halted(Step(corpus, s, a), paused)
  {
    hide StreamStep;
    if !IsControl(a) && a.id in s.streams {
      StreamIndifferent(corpus, s, a, a.id, s.streams[a.id], paused);
    }
  }

  lemma {:induction false} RunIndifferent(corpus: Corpus, s: System, actions: seq<Action>, paused: bool)
    requires forall a :: a in actions ==> Indifferent(a)
    ensures Run(corpus, Halted(s, paused), actions) == Halted(Run(corpus, s, actions), paused)
    decreases |actions|
  {
    hide Step, Halted, Indifferent;
    if actions != [] {
      assert actions[0] in actions && forall a :: a in actions[1..] ==> a in actions;
      StepIndifferent(corpus, s, actions[0], paused);
      RunIndifferent(corpus, Step(corpus, s, actions[0]), actions[1..], paused);
    }
  }

  /** An engine that is resumed before its next turn has not been paused, whatever else happens in between and after. */
  lemma ResumedInTime(corpus: Corpus, s: System, between: seq<Action>, rest: seq<Action>)
    requires !s.enginePaused && forall a :: a in between ==> Indifferent(a)
    ensures Run(corpus, s, [Pause] + between + [Resume] + rest) == Run(corpus, s, between + rest)
  {
    hide Indifferent;
    var t := Run(corpus, s, between);
    RunIndifferent(corpus, s, between, true);
    RunIndifferent(corpus, s, between, false);
    assert Halted(s, false) == s && Step(corpus, s, Pause) == Halted(s, true);
    assert Step(corpus, Halted(t, true), Resume) == Halted(t, false) == t;
    hide Step;
    assert [Pause] + between + [Resume] + rest == [Pause] + (between + ([Resume] + rest));
    RunConcat(corpus, s, [Pause], between + ([Resume] + rest));
    RunConcat(corpus, Halted(s, true), between, [Resume] + rest);
    RunConcat(corpus, Halted(t, true), [Resume], rest);
    RunConcat(corpus, s, between, rest);
    RunSingle(corpus, s, Pause);
    RunSingle(corpus, Halted(t, true), Resume);
  }

  lemma RunSingle(corpus: Corpus, s: System, a: Action)
    ensures Run(corpus, s, [a]) == Step(corpus, s, a)
  {
    hide Step;
    assert [a][1..] == [];
  }
}
