/** The state of a streaming request that control messages may change (proxy/upstream.py). */
module StreamSession {

  datatype Session = Session(preemptionSignaled: bool, handoverReady: bool, cutoff: int)

  const NEW_SESSION := Session(false, false, -1)

  function Signaled(session: Session, cutoff: int): Session {
    session.(preemptionSignaled := true, cutoff := cutoff)
  }

  function MadeReady(session: Session): Session {
    session.(handoverReady := true)
  }

  predicate ReachedCutoff(session: Session, sequenceId: int) {
    session.preemptionSignaled && session.cutoff >= 0 && sequenceId >= session.cutoff
  }
}
