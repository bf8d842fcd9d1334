/** The state transfer: INIT, one REQUEST_STATE for each session and FIN on the way out, NACK and ACK on the
    way back (daemon/transport/p2p_client.py, p2p_server.py), and the standby's callback
    (daemon/core/node_daemon.py), over channels that may corrupt payloads and may break. */
module Transfer {
  import opened Wrappers
  import opened Crc32
  import opened Framing
  import opened Models
  import opened Numbers
  import opened Sequences

  const HANDOVER_INIT := 0x01
  const REQUEST_STATE := 0x02
  const HANDOVER_FIN := 0x05
  const HANDOVER_ACK := 0x06
  const HANDOVER_NACK := 0x07
  const HEARTBEAT := 0x08

  const NONE := 0x0000
  const IS_LAST_CHUNK := 0x0002

  /** {"status":"DONE"} */
  const FIN_PAYLOAD: seq<byte> :=
    [0x7B, 0x22, 0x73, 0x74, 0x61, 0x74, 0x75, 0x73, 0x22, 0x3A, 0x22, 0x44, 0x4F, 0x4E, 0x45, 0x22, 0x7D]

  /** PONG */
  const PONG_PAYLOAD: seq<byte> := [0x50, 0x4F, 0x4E, 0x47]

  datatype HandoverInit = HandoverInit(sourceNodeId: string, activeRequestCount: nat)

  datatype HandoverAck = HandoverAck(sourceNodeId: string, acceptedRequestIds: seq<string>)

  datatype HandoverNack = HandoverNack(sourceNodeId: string, errorCode: int)

  /** The JSON form of the payloads, as pydantic writes and validates it. */
  datatype Codec = Codec(
    encodeInit: HandoverInit -> seq<byte>, decodeInit: seq<byte> -> Option<HandoverInit>,
    encodeSession: InferenceSession -> seq<byte>, decodeSession: seq<byte> -> Option<InferenceSession>,
    encodeAck: HandoverAck -> seq<byte>, decodeAck: seq<byte> -> Option<HandoverAck>,
    encodeNack: HandoverNack -> seq<byte>, decodeNack: seq<byte> -> Option<HandoverNack>)
  {
    ghost predicate Lossless() {
      && (forall x :: decodeInit(encodeInit(x)) == Some(x))
      && (forall x :: decodeSession(encodeSession(x)) == Some(x))
      && (forall x :: decodeAck(encodeAck(x)) == Some(x))
      && (forall x :: decodeNack(encodeNack(x)) == Some(x))
    }
  }

  // ---------------------------------------------------------------------
  // Channels
  // ---------------------------------------------------------------------

  /** What a connection delivers: the payloads of the frames that arrive whole, and a beginning of the next one. */
  datatype Channel = Channel(payloads: seq<seq<byte>>, partial: seq<byte>)

  function Wire(z: Zlib, m: Outgoing): seq<byte> {
    WirePayload(z, m.payload, m.compress)
  }

  /** A payload arrives as it was sent, or damaged in any way that its checksum notices. */
  predicate Noticeable(z: Zlib, sent: seq<byte>, received: seq<byte>) {
    |received| == |sent| && (received == sent || z.crc32(received) != z.crc32(sent))
  }

  /** Damage within 32 consecutive bits always is. */
  lemma BurstIsNoticeable(z: Zlib, sent: seq<byte>, received: seq<byte>)
    requires z.ChecksIntegrity() && WithinBurst(sent, received)
    ensures Noticeable(z, sent, received)
  {
    hide WithinBurst;
    BurstKeepsLength(sent, received);
    ChecksumDetects(z, sent, received);
  }

  /** Any number of payloads may be damaged noticeably; then the connection may break anywhere. */
  ghost predicate Carried(z: Zlib, ms: seq<Outgoing>, ch: Channel) {
    var n := |ch.payloads|;
    && n <= |ms|
    && (forall i :: 0 <= i < n ==> Noticeable(z, Wire(z, ms[i]), ch.payloads[i]))
    && (if n == |ms| then ch.partial == [] else BeginsFrame(z, ms[n], ch.partial))
  }

  ghost predicate BeginsFrame(z: Zlib, m: Outgoing, partial: seq<byte>) {
    exists payload :: |payload| == |Wire(z, m)| && partial < Damaged(z, m, payload)
  }

  /** So every channel whose payloads suffer bursts of at most 32 bits is one of these. */
  lemma BurstsAreCarried(z: Zlib, ms: seq<Outgoing>, ch: Channel)
    requires z.ChecksIntegrity() && |ch.payloads| <= |ms|
    requires forall i :: 0 <= i < |ch.payloads| ==> WithinBurst(Wire(z, ms[i]), ch.payloads[i])
    requires if |ch.payloads| == |ms| then ch.partial == [] else BeginsFrame(z, ms[|ch.payloads|], ch.partial)
    ensures Carried(z, ms, ch)
  {
    hide WithinBurst, BeginsFrame, Noticeable, Wire;
    forall i | 0 <= i < |ch.payloads|
      ensures Noticeable(z, Wire(z, ms[i]), ch.payloads[i])
    {
      BurstIsNoticeable(z, Wire(z, ms[i]), ch.payloads[i]);
    }
  }

  /** The frame with its payload replaced; a message that cannot be packed is not sent. */
  function Damaged(z: Zlib, m: Outgoing, payload: seq<byte>): seq<byte> {
    match FrameOf(z, m)
    case Ok(frame) =>
      PackedLength(z, m.msgType, m.payload, m.flags, PROTOCOL_VERSION, m.compress);
      Tampered(frame, payload)
    case Err(_) => []
  }

  function Arriving(z: Zlib, ms: seq<Outgoing>, ch: Channel): seq<byte>
    decreases |ch.payloads|
  {
    if ch.payloads == [] || ms == [] then ch.partial
    else
      Damaged(z, ms[0], ch.payloads[0]) + Arriving(z, ms[1..], Channel(ch.payloads[1..], ch.partial))
  }

  /** What reading the i-th frame yields: the message, or the CRC error if its payload was changed. */
  function OutcomeOf(z: Zlib, m: Outgoing, payload: seq<byte>): Result<Message, FrameError> {
    if payload == Wire(z, m) then Received(z, m.msgType, m.payload, m.flags, m.compress) else Err(CrcMismatch)
  }

  function Outcomes(z: Zlib, ms: seq<Outgoing>, ch: Channel): (r: seq<Result<Message, FrameError>>)
    requires |ch.payloads| <= |ms|
    ensures |r| == |ch.payloads|
  {
    seq(|ch.payloads|, i requires 0 <= i < |ch.payloads| => OutcomeOf(z, ms[i], ch.payloads[i]))
  }

  lemma DamagedRead(z: Zlib, m: Outgoing, payload: seq<byte>, rest: seq<byte>)
    requires z.Lossless()
    requires FrameOf(z, m).Ok? && Noticeable(z, Wire(z, m), payload)
    ensures ReadFrame(z, Damaged(z, m, payload) + rest) == (OutcomeOf(z, m, payload), rest)
  {
    hide PackFrame, ReadFrame, UnpackFrame, Received;
    PackedLength(z, m.msgType, m.payload, m.flags, PROTOCOL_VERSION, m.compress);
    if payload == Wire(z, m) {
      var frame := FrameOf(z, m).value;
      assert frame == frame[..HEADER_SIZE] + frame[HEADER_SIZE..];
      FrameRoundTrip(z, m.msgType, m.payload, m.flags, PROTOCOL_VERSION, m.compress, rest);
    } else {
      TamperedRead(z, m.msgType, m.payload, m.flags, PROTOCOL_VERSION, m.compress, payload, rest);
    }
  }

  lemma PartialRead(z: Zlib, m: Outgoing, partial: seq<byte>)
    requires FrameOf(z, m).Ok? && BeginsFrame(z, m, partial)
    ensures ReadFrame(z, partial) == (Err(IncompleteRead), [])
  {
    hide PackHeader, UnpackFrameHeader;
    PackedLength(z, m.msgType, m.payload, m.flags, PROTOCOL_VERSION, m.compress);
    var payload :| |payload| == |Wire(z, m)| && partial < Damaged(z, m, payload);
    var h := HeaderFor(z, PROTOCOL_VERSION, m.msgType, WireFlags(z, m.payload, m.flags, m.compress), Wire(z, m));
    if |partial| >= HEADER_SIZE {
      assert partial[..HEADER_SIZE] == Damaged(z, m, payload)[..HEADER_SIZE] == PackHeader(h);
      HeaderRoundTrip(h);
    }
  }

  // ---------------------------------------------------------------------
  // The server
  // ---------------------------------------------------------------------

  /** What the server does that others can see, in order. */
  datatype Event =
    | Stored(session: InferenceSession)               // into the server's _received_sessions
    | Adopted(session: InferenceSession)              // into the standby daemon's active_sessions
    | Announced(requestId: string, startSeqId: int)   // handover-ready attempted at the proxy
    | Reply(message: Outgoing)

  datatype Server = Server(z: Zlib, codec: Codec, nodeId: string, callbackRegistered: bool)

  function NackMessage(server: Server): Outgoing {
    Outgoing(HANDOVER_NACK, server.codec.encodeNack(HandoverNack(server.nodeId, 1)), NONE, false)
  }

  function Ids(sessions: seq<InferenceSession>): seq<string> {
    seq(|sessions|, i requires 0 <= i < |sessions| => sessions[i].requestId)
  }

  function AckMessage(server: Server, sessions: seq<InferenceSession>): Outgoing {
    Outgoing(HANDOVER_ACK, server.codec.encodeAck(HandoverAck(server.nodeId, Ids(sessions))), NONE, false)
  }

  const PONG := Outgoing(HEARTBEAT, PONG_PAYLOAD, NONE, false)

  /** A frame that cannot be packed is not written; the exception ends the connection. */
  function Writing(z: Zlib, m: Outgoing): seq<Event> {
    if FrameOf(z, m).Ok? then [Reply(m)] else []
  }

  function CallbackEvents(sessions: seq<InferenceSession>): seq<Event> {
    if sessions == [] then [] else SessionEvents(sessions[0]) + CallbackEvents(sessions[1..])
  }

  function SessionEvents(s: InferenceSession): (events: seq<Event>)
    ensures |events| == 2
  {
    [Adopted(s), Announced(s.requestId, s.lastFlushed + 1)]
  }

  /** One turn of the receive loop: its events, the sessions in flight after it, whether the loop goes on. */
  datatype Reaction = Reaction(events: seq<Event>, sessions: seq<InferenceSession>, goesOn: bool)

  function React(server: Server, r: Result<Message, FrameError>, sessions: seq<InferenceSession>): Reaction {
    match r
    case Err(CrcMismatch) =>
      var events := Writing(server.z, NackMessage(server));
      Reaction(events, sessions, events != [])
    case Err(_) => Reaction([], sessions, false)
    case Ok(m) =>
      if m.msgType == HANDOVER_INIT then Reaction([], sessions, server.codec.decodeInit(m.payload).Some?)
      else if m.msgType == REQUEST_STATE then
        match server.codec.decodeSession(m.payload)
        case None => Reaction([], sessions, false)
        case Some(s) => Reaction([Stored(s)], sessions + [s], true)
      else if m.msgType == HANDOVER_FIN then
        Reaction((if server.callbackRegistered then CallbackEvents(sessions) else [])
                 + Writing(server.z, AckMessage(server, sessions)), sessions, false)
      else if m.msgType == HEARTBEAT then
        var events := Writing(server.z, PONG);
        Reaction(events, sessions, events != [])
      else Reaction([], sessions, true)
  }

  /** The receive loop over what the connection delivers; `rounds` turns pass before the server is stopped. */
  function Serve(server: Server, stream: seq<byte>, sessions: seq<InferenceSession>, rounds: nat): seq<Event>
    decreases rounds
  {
    if rounds == 0 then []
    else
      var (r, rest) := ReadFrame(server.z, stream);
      var x := React(server, r, sessions);
      x.events + if x.goesOn then Serve(server, rest, x.sessions, rounds - 1) else []
  }

  /** The same loop, told the outcome of each read; it ends when the connection does. */
  function ServeOutcomes(server: Server, outcomes: seq<Result<Message, FrameError>>, sessions: seq<InferenceSession>,
                         rounds: nat): seq<Event>
    decreases |outcomes|
  {
    if rounds == 0 || outcomes == [] then []
    else
      var x := React(server, outcomes[0], sessions);
      x.events + if x.goesOn then ServeOutcomes(server, outcomes[1..], x.sessions, rounds - 1) else []
  }

  /** Whatever noticeable damage payloads suffer, the reader stays in step with the frames: the loop over the bytes is
      the loop over one outcome for each frame. */
  lemma {:induction false} FramesInStep(server: Server, ms: seq<Outgoing>, ch: Channel, sessions: seq<InferenceSession>,
                                        rounds: nat)
    requires server.z.Lossless()
    requires Packable(server.z, ms) && Carried(server.z, ms, ch)
    ensures Serve(server, Arriving(server.z, ms, ch), sessions, rounds)
         == ServeOutcomes(server, Outcomes(server.z, ms, ch), sessions, rounds)
    decreases rounds
  {
    hide PackFrame, ReadFrame, Received, Noticeable, React, BeginsFrame, Damaged, Wire;
    var stream := Arriving(server.z, ms, ch);
    if rounds == 0 {
    } else if ch.payloads == [] {
      EndOfStream(server, ms, ch, sessions, rounds);
    } else {
      assert ms[0] in ms;
      var later := Channel(ch.payloads[1..], ch.partial);
      assert forall i :: 0 <= i < |later.payloads| ==> ms[1..][i] == ms[i + 1];
      DamagedRead(server.z, ms[0], ch.payloads[0], Arriving(server.z, ms[1..], later));
      var r := OutcomeOf(server.z, ms[0], ch.payloads[0]);
      var x := React(server, r, sessions);
      assert Outcomes(server.z, ms, ch)[0] == r;
      assert Outcomes(server.z, ms, ch)[1..] == Outcomes(server.z, ms[1..], later);
      FramesInStep(server, ms[1..], later, x.sessions, rounds - 1);
    }
  }

  lemma EndOfStream(server: Server, ms: seq<Outgoing>, ch: Channel, sessions: seq<InferenceSession>, rounds: nat)
    requires Packable(server.z, ms) && Carried(server.z, ms, ch) && ch.payloads == []
    ensures Serve(server, Arriving(server.z, ms, ch), sessions, rounds) == []
  {
    hide PackFrame, BeginsFrame, UnpackFrameHeader;
    if ms != [] {
      assert ms[0] in ms;
      PartialRead(server.z, ms[0], ch.partial);
    }
  }

  // ---------------------------------------------------------------------
  // The client's script
  // ---------------------------------------------------------------------

  function InitMessage(codec: Codec, nodeId: string, n: nat): Outgoing {
    Outgoing(HANDOVER_INIT, codec.encodeInit(HandoverInit(nodeId, n)), NONE, false)
  }

  function StateMessage(codec: Codec, sessions: seq<InferenceSession>, i: nat, compress: bool): Outgoing
    requires i < |sessions|
  {
    Outgoing(REQUEST_STATE, codec.encodeSession(sessions[i]), if i == |sessions| - 1 then IS_LAST_CHUNK else NONE,
             compress)
  }

  const FIN_MESSAGE := Outgoing(HANDOVER_FIN, FIN_PAYLOAD, NONE, false)

  /** Everything send_sessions writes, in order. */
  function ScriptAt(codec: Codec, nodeId: string, sessions: seq<InferenceSession>, compress: bool, i: nat): Outgoing
    requires i < |sessions| + 2
  {
    if i == 0 then InitMessage(codec, nodeId, |sessions|)
    else if i <= |sessions| then StateMessage(codec, sessions, i - 1, compress)
    else FIN_MESSAGE
  }

  function Script(codec: Codec, nodeId: string, sessions: seq<InferenceSession>, compress: bool): (ms: seq<Outgoing>)
    ensures |ms| == |sessions| + 2
  {
    seq(|sessions| + 2, i requires 0 <= i < |sessions| + 2 => ScriptAt(codec, nodeId, sessions, compress, i))
  }

  function StoredAll(sessions: seq<InferenceSession>): (events: seq<Event>)
    ensures |events| == |sessions|
  {
    seq(|sessions|, i requires 0 <= i < |sessions| => Stored(sessions[i]))
  }

  /** The sessions that have arrived after the first n frames of the script. */
  function Held(sessions: seq<InferenceSession>, n: nat): seq<InferenceSession>
    requires n <= |sessions| + 1
  {
    if n == 0 then [] else sessions[..n - 1]
  }

  ghost predicate IntactUpTo(z: Zlib, ms: seq<Outgoing>, ch: Channel, n: nat) {
    n <= |ch.payloads| <= |ms| && forall i :: 0 <= i < n ==> ch.payloads[i] == Wire(z, ms[i])
  }

  /** The callback's events and the ACK. */
  function FinEvents(server: Server, sessions: seq<InferenceSession>): seq<Event> {
    (if server.callbackRegistered then CallbackEvents(sessions) else [])
    + Writing(server.z, AckMessage(server, sessions))
  }

  lemma IntactOutcome(z: Zlib, m: Outgoing)
    requires !IsCompressed(m.flags)
    ensures OutcomeOf(z, m, Wire(z, m))
         == Ok(Message(m.msgType, WireFlags(z, m.payload, m.flags, m.compress), m.payload))
  {
  }

  /** The server's turn for an intact frame of the script, whatever it holds so far. */
  lemma IntactFrame(server: Server, nodeId: string, sessions: seq<InferenceSession>, compress: bool, i: nat,
                    inFlight: seq<InferenceSession>)
    requires server.codec.Lossless() && i < |sessions| + 2
    ensures var m := ScriptAt(server.codec, nodeId, sessions, compress, i);
            React(server, OutcomeOf(server.z, m, Wire(server.z, m)), inFlight)
            == if i == 0 then Reaction([], inFlight, true)
               else if i <= |sessions| then Reaction([Stored(sessions[i - 1])], inFlight + [sessions[i - 1]], true)
               else Reaction(FinEvents(server, inFlight), inFlight, false)
  {
    hide FinEvents, OutcomeOf, Wire, React, WireFlags;
    var m := ScriptAt(server.codec, nodeId, sessions, compress, i);
    IntactOutcome(server.z, m);
    var flags := WireFlags(server.z, m.payload, m.flags, m.compress);
    if i == 0 {
      InitReaction(server, flags, nodeId, |sessions|, inFlight);
    } else if i <= |sessions| {
      StateReaction(server, flags, sessions[i - 1], inFlight);
    } else {
      FinReaction(server, flags, inFlight);
    }
  }

  lemma InitReaction(server: Server, flags: int, nodeId: string, n: nat, inFlight: seq<InferenceSession>)
    requires server.codec.Lossless()
    ensures React(server, Ok(Message(HANDOVER_INIT, flags, InitMessage(server.codec, nodeId, n).payload)), inFlight)
         == Reaction([], inFlight, true)
  {
  }

  lemma StateReaction(server: Server, flags: int, s: InferenceSession, sessions: seq<InferenceSession>)
    requires server.codec.Lossless()
    ensures React(server, Ok(Message(REQUEST_STATE, flags, server.codec.encodeSession(s))), sessions)
         == Reaction([Stored(s)], sessions + [s], true)
  {
    hide CallbackEvents, Writing;
  }

  lemma FinReaction(server: Server, flags: int, sessions: seq<InferenceSession>)
    ensures React(server, Ok(Message(HANDOVER_FIN, flags, FIN_PAYLOAD)), sessions)
         == Reaction(FinEvents(server, sessions), sessions, false)
  {
    hide CallbackEvents, Writing;
  }

  /** One turn of the loop, at the n-th frame. */
  lemma Turn(server: Server, os: seq<Result<Message, FrameError>>, sessions: seq<InferenceSession>, rounds: nat, n: nat)
    requires n < |os| && rounds > 0
    ensures var x := React(server, os[n], sessions);
            ServeOutcomes(server, os[n..], sessions, rounds)
            == x.events + if x.goesOn then ServeOutcomes(server, os[n + 1..], x.sessions, rounds - 1) else []
  {
    hide React;
    assert os[n..][0] == os[n] && os[n..][1..] == os[n + 1..];
  }

  // ---------------------------------------------------------------------
  // The server's loop over a script with any damage
  // ---------------------------------------------------------------------

  /** The sessions whose frames, among the first n of the script, arrived as they were sent. */
  function Survivors(z: Zlib, ms: seq<Outgoing>, ch: Channel, sessions: seq<InferenceSession>, n: nat)
    : seq<InferenceSession>
    requires n <= |sessions| + 1 && n <= |ch.payloads| <= |ms|
  {
    if n <= 1 then []
    else
      Survivors(z, ms, ch, sessions, n - 1)
      + if ch.payloads[n - 1] == Wire(z, ms[n - 1]) then [sessions[n - 2]] else []
  }

  /** What the server does while it reads the first n frames: a NACK for each damaged one, a session stored for each
      other one behind INIT. */
  function Story(server: Server, ms: seq<Outgoing>, ch: Channel, sessions: seq<InferenceSession>, n: nat): seq<Event>
    requires n <= |sessions| + 1 && n <= |ch.payloads| <= |ms|
  {
    if n == 0 then []
    else
      Story(server, ms, ch, sessions, n - 1) + OwnPart(server, ms, ch, sessions, n)
  }

  /** The n-th frame's part in it. */
  function OwnPart(server: Server, ms: seq<Outgoing>, ch: Channel, sessions: seq<InferenceSession>, n: nat): seq<Event>
    requires 0 < n <= |sessions| + 1 && n <= |ch.payloads| <= |ms|
  {
    if ch.payloads[n - 1] != Wire(server.z, ms[n - 1]) then [Reply(NackMessage(server))]
    else if n == 1 then [] else [Stored(sessions[n - 2])]
  }

  /** The server reads the first n frames: they arrive, it is not stopped, and it can answer what is damaged. */
  ghost predicate GetsTo(server: Server, ms: seq<Outgoing>, ch: Channel, rounds: nat, n: nat) {
    && n <= |ch.payloads| <= |ms| && n <= rounds
    && (FrameOf(server.z, NackMessage(server)).Ok? || IntactUpTo(server.z, ms, ch, n))
  }

  lemma {:induction false} ReadsOn(server: Server, nodeId: string, sessions: seq<InferenceSession>, compress: bool,
                                   ch: Channel, rounds: nat, n: nat)
    requires server.codec.Lossless() && n <= |sessions| + 1
    requires GetsTo(server, Script(server.codec, nodeId, sessions, compress), ch, rounds, n)
    ensures var ms := Script(server.codec, nodeId, sessions, compress);
            var os := Outcomes(server.z, ms, ch);
            ServeOutcomes(server, os, [], rounds)
            == Story(server, ms, ch, sessions, n)
               + ServeOutcomes(server, os[n..], Survivors(server.z, ms, ch, sessions, n), rounds - n)
    decreases n
  {
    hide Script, Wire, ServeOutcomes, Outcomes, FrameOf, NackMessage;
    var ms := Script(server.codec, nodeId, sessions, compress);
    var os := Outcomes(server.z, ms, ch);
    if n == 0 {
      assert os[0..] == os;
      assert [] + ServeOutcomes(server, os, [], rounds) == ServeOutcomes(server, os, [], rounds);
    } else {
      ReadsOn(server, nodeId, sessions, compress, ch, rounds, n - 1);
      ReadsOneMore(server, nodeId, sessions, compress, ch, rounds, n);
      var later := ServeOutcomes(server, os[n..], Survivors(server.z, ms, ch, sessions, n), rounds - n);
      Associative(Story(server, ms, ch, sessions, n - 1), OwnPart(server, ms, ch, sessions, n), later);
    }
  }

  lemma ReadsOneMore(server: Server, nodeId: string, sessions: seq<InferenceSession>, compress: bool, ch: Channel,
                     rounds: nat, n: nat)
    requires server.codec.Lossless() && 0 < n <= |sessions| + 1
    requires GetsTo(server, Script(server.codec, nodeId, sessions, compress), ch, rounds, n)
    ensures var ms := Script(server.codec, nodeId, sessions, compress);
            var os := Outcomes(server.z, ms, ch);
            ServeOutcomes(server, os[n - 1..], Survivors(server.z, ms, ch, sessions, n - 1), rounds - n + 1)
            == OwnPart(server, ms, ch, sessions, n)
               + ServeOutcomes(server, os[n..], Survivors(server.z, ms, ch, sessions, n), rounds - n)
  {
    hide ScriptAt, Wire, ServeOutcomes, React, OutcomeOf, FrameOf, NackMessage;
    var ms := Script(server.codec, nodeId, sessions, compress);
    var inFlight := Survivors(server.z, ms, ch, sessions, n - 1);
    Turn(server, Outcomes(server.z, ms, ch), inFlight, rounds - n + 1, n - 1);
    if ch.payloads[n - 1] == Wire(server.z, ms[n - 1]) {
      IntactFrame(server, nodeId, sessions, compress, n - 1, inFlight);
      assert n == 1 ==> inFlight == [] && Survivors(server.z, ms, ch, sessions, n) == [];
    } else {
      OutcomeOfDamaged(server.z, ms[n - 1], ch.payloads[n - 1]);
      DamageReaction(server, inFlight);
      assert inFlight + [] == inFlight;
    }
  }

  lemma DamageReaction(server: Server, inFlight: seq<InferenceSession>)
    ensures var events := Writing(server.z, NackMessage(server));
            React(server, Err(CrcMismatch), inFlight) == Reaction(events, inFlight, events != [])
    ensures Writing(server.z, NackMessage(server))
         == if FrameOf(server.z, NackMessage(server)).Ok? then [Reply(NackMessage(server))] else []
  {
    hide FrameOf;
  }

  /** FIN arrives intact and is read. */
  ghost predicate FinRead(server: Server, ms: seq<Outgoing>, ch: Channel, rounds: nat)
    requires |ms| >= 1
  {
    var fin := |ms| - 1;
    && GetsTo(server, ms, ch, rounds, fin) && rounds > fin
    && |ch.payloads| == |ms| && ch.payloads[fin] == Wire(server.z, ms[fin])
  }

  lemma ReadsFin(server: Server, nodeId: string, sessions: seq<InferenceSession>, compress: bool, ch: Channel,
                 rounds: nat)
    requires server.codec.Lossless()
    requires FinRead(server, Script(server.codec, nodeId, sessions, compress), ch, rounds)
    ensures var ms := Script(server.codec, nodeId, sessions, compress);
            ServeOutcomes(server, Outcomes(server.z, ms, ch), [], rounds)
            == Story(server, ms, ch, sessions, |sessions| + 1)
               + FinEvents(server, Survivors(server.z, ms, ch, sessions, |sessions| + 1))
  {
    hide ScriptAt, Wire, ServeOutcomes, React, OutcomeOf, FinEvents, Survivors, Story;
    var ms := Script(server.codec, nodeId, sessions, compress);
    var fin := |sessions| + 1;
    var inFlight := Survivors(server.z, ms, ch, sessions, fin);
    ReadsOn(server, nodeId, sessions, compress, ch, rounds, fin);
    Turn(server, Outcomes(server.z, ms, ch), inFlight, rounds - fin, fin);
    IntactFrame(server, nodeId, sessions, compress, fin, inFlight);
    assert FinEvents(server, inFlight) + [] == FinEvents(server, inFlight);
  }

  /** Without damage every session read so far is stored, and held. */
  lemma {:induction false} UndamagedStory(server: Server, ms: seq<Outgoing>, ch: Channel,
                                          sessions: seq<InferenceSession>, n: nat)
    requires n <= |sessions| + 1 && IntactUpTo(server.z, ms, ch, n)
    ensures Story(server, ms, ch, sessions, n) == StoredAll(Held(sessions, n))
    ensures Survivors(server.z, ms, ch, sessions, n) == Held(sessions, n)
  {
    hide Wire, NackMessage;
    if n > 0 {
      UndamagedStory(server, ms, ch, sessions, n - 1);
      assert n > 1 ==> Held(sessions, n) == Held(sessions, n - 1) + [sessions[n - 2]];
    }
  }

  /** While the frames of the script arrive intact, the server stores session after session and replies nothing. */
  lemma StoresWhileIntact(server: Server, nodeId: string, sessions: seq<InferenceSession>, compress: bool, ch: Channel,
                          rounds: nat, n: nat)
    requires server.codec.Lossless()
    requires n <= |sessions| + 1 && n <= rounds
    requires IntactUpTo(server.z, Script(server.codec, nodeId, sessions, compress), ch, n)
    ensures var os := Outcomes(server.z, Script(server.codec, nodeId, sessions, compress), ch);
            ServeOutcomes(server, os, [], rounds)
            == StoredAll(Held(sessions, n)) + ServeOutcomes(server, os[n..], Held(sessions, n), rounds - n)
  {
    hide Script, Wire, ServeOutcomes, Outcomes, FrameOf, Story, Survivors, StoredAll, Held;
    ReadsOn(server, nodeId, sessions, compress, ch, rounds, n);
    UndamagedStory(server, Script(server.codec, nodeId, sessions, compress), ch, sessions, n);
  }

  // ---------------------------------------------------------------------
  // What the server does in a transfer
  // ---------------------------------------------------------------------

  /** Everything arrives intact and the server is not stopped: all sessions are stored, then adopted and announced by
      the standby, and only then acknowledged, with their ids in order. */
  lemma ServesIntact(server: Server, nodeId: string, sessions: seq<InferenceSession>, compress: bool, ch: Channel,
                     rounds: nat)
    requires server.codec.Lossless() && rounds >= |sessions| + 2
    requires IntactUpTo(server.z, Script(server.codec, nodeId, sessions, compress), ch, |sessions| + 2)
    ensures ServeOutcomes(server, Outcomes(server.z, Script(server.codec, nodeId, sessions, compress), ch), [], rounds)
         == StoredAll(sessions) + FinEvents(server, sessions)
  {
    hide Script, Wire, ServeOutcomes, Outcomes, FrameOf, Story, Survivors, StoredAll, FinEvents;
    var ms := Script(server.codec, nodeId, sessions, compress);
    ReadsFin(server, nodeId, sessions, compress, ch, rounds);
    UndamagedStory(server, ms, ch, sessions, |sessions| + 1);
    assert Held(sessions, |sessions| + 1) == sessions;
  }

  /** The first corrupted frame is answered with a NACK, and nothing was replied before. */
  lemma ServesDamaged(server: Server, nodeId: string, sessions: seq<InferenceSession>, compress: bool, ch: Channel,
                      rounds: nat, n: nat)
    requires server.codec.Lossless() && n < |sessions| + 2 && n < rounds && n < |ch.payloads|
    requires IntactUpTo(server.z, Script(server.codec, nodeId, sessions, compress), ch, n)
    requires ch.payloads[n] != Wire(server.z, Script(server.codec, nodeId, sessions, compress)[n])
    ensures var os := Outcomes(server.z, Script(server.codec, nodeId, sessions, compress), ch);
            var nack := Writing(server.z, NackMessage(server));
            ServeOutcomes(server, os, [], rounds)
            == StoredAll(Held(sessions, n)) + (nack + Afterwards(server, os, nack, Held(sessions, n), rounds, n))
  {
    hide ScriptAt, Wire, Writing, Received, ServeOutcomes, StoredAll, CallbackEvents;
    var os := Outcomes(server.z, Script(server.codec, nodeId, sessions, compress), ch);
    StoresWhileIntact(server, nodeId, sessions, compress, ch, rounds, n);
    assert os[n] == Err(CrcMismatch);
    Turn(server, os, Held(sessions, n), rounds - n, n);
  }

  /** The server goes on behind a NACK it could write. */
  function Afterwards(server: Server, os: seq<Result<Message, FrameError>>, nack: seq<Event>,
                      sessions: seq<InferenceSession>, rounds: nat, n: nat): seq<Event>
    requires n < |os| && n < rounds
  {
    if nack == [] then [] else ServeOutcomes(server, os[n + 1..], sessions, rounds - n - 1)
  }

  /** The connection breaks or the server stops before FIN: nothing is replied at all. */
  lemma ServesBroken(server: Server, nodeId: string, sessions: seq<InferenceSession>, compress: bool, ch: Channel,
                     rounds: nat, n: nat)
    requires server.codec.Lossless() && n < |sessions| + 2 && n == Min(rounds, |ch.payloads|)
    requires IntactUpTo(server.z, Script(server.codec, nodeId, sessions, compress), ch, n)
    ensures var os := Outcomes(server.z, Script(server.codec, nodeId, sessions, compress), ch);
            ServeOutcomes(server, os, [], rounds) == StoredAll(Held(sessions, n))
  {
    hide ScriptAt, Wire, OutcomeOf, React, StoredAll;
    var os := Outcomes(server.z, Script(server.codec, nodeId, sessions, compress), ch);
    StoresWhileIntact(server, nodeId, sessions, compress, ch, rounds, n);
    assert StoredAll(Held(sessions, n)) + [] == StoredAll(Held(sessions, n));
  }

  // ---------------------------------------------------------------------
  // The client's verdict
  // ---------------------------------------------------------------------

  /** How send_sessions ends: it returns the ACK, or it raises, on a NACK or otherwise. */
  datatype Outcome = Accepted(ids: seq<string>) | Rejected | Failed

  function Verdict(codec: Codec, r: Result<Message, FrameError>): Outcome {
    match r
    case Err(_) => Failed
    case Ok(m) =>
      if m.msgType == HANDOVER_ACK then
        (match codec.decodeAck(m.payload) case Some(ack) => Accepted(ack.acceptedRequestIds) case None => Failed)
      else if m.msgType == HANDOVER_NACK then
        (if codec.decodeNack(m.payload).Some? then Rejected else Failed)
      else Failed
  }

  /** Only the first reply is read; a timeout is a connection that delivers no more. */
  function Await(z: Zlib, codec: Codec, stream: seq<byte>): Outcome {
    Verdict(codec, ReadFrame(z, stream).0)
  }

  function Replies(events: seq<Event>): seq<Outgoing> {
    if events == [] then [] else ReplyIn(events[0]) + Replies(events[1..])
  }

  function ReplyIn(e: Event): seq<Outgoing> {
    if e.Reply? then [e.message] else []
  }

  lemma {:induction false} RepliesConcat(a: seq<Event>, b: seq<Event>)
    ensures Replies(a + b) == Replies(a) + Replies(b)
  {
    hide ReplyIn;
    if a == [] {
      assert a + b == b;
    } else {
      RepliesConcat(a[1..], b);
      assert (a + b)[1..] == a[1..] + b && (a + b)[0] == a[0];
      Associative(ReplyIn(a[0]), Replies(a[1..]), Replies(b));
    }
  }

  lemma {:induction false} SilentEvents(events: seq<Event>)
    requires forall e :: e in events ==> !e.Reply?
    ensures Replies(events) == []
  {
    if events != [] {
      SilentEvents(events[1..]);
    }
  }

  lemma {:induction false} CallbackIsSilent(sessions: seq<InferenceSession>)
    ensures forall e :: e in CallbackEvents(sessions) ==> !e.Reply?
  {
    if sessions != [] {
      CallbackIsSilent(sessions[1..]);
      assert forall e :: e in SessionEvents(sessions[0]) ==> !e.Reply?;
    }
  }

  lemma WrittenReply(z: Zlib, m: Outgoing)
    ensures Replies(Writing(z, m)) == if FrameOf(z, m).Ok? then [m] else []
  {
    hide FrameOf;
    assert [Reply(m)][1..] == [];
    assert [m] + [] == [m];
  }

  lemma ReactionReplies(server: Server, r: Result<Message, FrameError>, sessions: seq<InferenceSession>)
    ensures forall e :: e in React(server, r, sessions).events && e.Reply? ==> FrameOf(server.z, e.message).Ok?
  {
    hide PackFrame, Ids;
    CallbackIsSilent(sessions);
  }

  lemma {:induction false} ServedReplies(server: Server, stream: seq<byte>, sessions: seq<InferenceSession>,
                                         rounds: nat)
    ensures forall e :: e in Serve(server, stream, sessions, rounds) && e.Reply? ==> FrameOf(server.z, e.message).Ok?
    decreases rounds
  {
    hide PackFrame, ReadFrame, React;
    if rounds > 0 {
      var (r, rest) := ReadFrame(server.z, stream);
      var x := React(server, r, sessions);
      ReactionReplies(server, r, sessions);
      ServedReplies(server, rest, x.sessions, rounds - 1);
    }
  }

  lemma {:induction false} RepliesAreEvents(events: seq<Event>)
    ensures forall m :: m in Replies(events) ==> Reply(m) in events
  {
    if events != [] {
      RepliesAreEvents(events[1..]);
    }
  }

  /** What the server writes in a transfer. */
  function TransferEvents(server: Server, nodeId: string, sessions: seq<InferenceSession>, compress: bool, ch: Channel,
                          rounds: nat): seq<Event>
  {
    Serve(server, Arriving(server.z, Script(server.codec, nodeId, sessions, compress), ch), [], rounds)
  }

  lemma RepliesPackable(server: Server, nodeId: string, sessions: seq<InferenceSession>, compress: bool, ch: Channel,
                        rounds: nat)
    ensures Packable(server.z, Replies(TransferEvents(server, nodeId, sessions, compress, ch, rounds)))
  {
    hide Serve, PackFrame, Script;
    ServedReplies(server, Arriving(server.z, Script(server.codec, nodeId, sessions, compress), ch), [], rounds);
    RepliesAreEvents(TransferEvents(server, nodeId, sessions, compress, ch, rounds));
  }

  /** The client's verdict depends on the first reply alone, and on whether it arrives whole and intact. */
  lemma FirstReplyDecides(z: Zlib, codec: Codec, replies: seq<Outgoing>, back: Channel)
    requires z.Lossless()
    requires Packable(z, replies) && Carried(z, replies, back)
    ensures Await(z, codec, Arriving(z, replies, back))
         == if back.payloads == [] then Failed else Verdict(codec, OutcomeOf(z, replies[0], back.payloads[0]))
  {
    hide PackFrame, OutcomeOf, Noticeable, BeginsFrame, Damaged, Wire, UnpackFrameHeader;
    if replies != [] {
      assert replies[0] in replies;
      if back.payloads == [] {
        PartialRead(z, replies[0], back.partial);
      } else {
        var later := Channel(back.payloads[1..], back.partial);
        DamagedRead(z, replies[0], back.payloads[0], Arriving(z, replies[1..], later));
      }
    }
  }

  lemma AckVerdict(server: Server, sessions: seq<InferenceSession>, payload: seq<byte>)
    requires server.codec.Lossless()
    ensures var m := AckMessage(server, sessions);
            Verdict(server.codec, OutcomeOf(server.z, m, payload))
            == if payload == Wire(server.z, m) then Accepted(Ids(sessions)) else Failed
  {
    hide Wire, OutcomeOf, Received, WireFlags, Ids;
    IntactOutcome(server.z, AckMessage(server, sessions));
    OutcomeOfDamaged(server.z, AckMessage(server, sessions), payload);
  }

  lemma NackVerdict(server: Server, payload: seq<byte>)
    requires server.codec.Lossless()
    ensures var m := NackMessage(server);
            Verdict(server.codec, OutcomeOf(server.z, m, payload))
            == if payload == Wire(server.z, m) then Rejected else Failed
  {
    hide Wire, OutcomeOf, Received, WireFlags, Ids;
    IntactOutcome(server.z, NackMessage(server));
    OutcomeOfDamaged(server.z, NackMessage(server), payload);
  }

  lemma OutcomeOfDamaged(z: Zlib, m: Outgoing, payload: seq<byte>)
    ensures payload != Wire(z, m) ==> OutcomeOf(z, m, payload) == Err(CrcMismatch)
  {
    hide Received;
  }

  // ---------------------------------------------------------------------
  // Soundness of the acknowledgement
  // ---------------------------------------------------------------------

  lemma {:induction false} LeadingIntact(z: Zlib, ms: seq<Outgoing>, ch: Channel, n: nat) returns (k: nat)
    requires IntactUpTo(z, ms, ch, n)
    ensures IntactUpTo(z, ms, ch, k)
    ensures k < |ch.payloads| ==> ch.payloads[k] != Wire(z, ms[k])
    decreases |ch.payloads| - n
  {
    hide Wire;
    if n < |ch.payloads| && ch.payloads[n] == Wire(z, ms[n]) {
      k := LeadingIntact(z, ms, ch, n + 1);
    } else {
      k := n;
    }
  }

  /** Every frame of the script arrived, and as it was sent. */
  ghost predicate AllIntact(z: Zlib, ms: seq<Outgoing>, ch: Channel) {
    IntactUpTo(z, ms, ch, |ms|)
  }

  /** The events of a transfer, read off the outcomes of the frames. */
  lemma EventsByFrame(server: Server, nodeId: string, sessions: seq<InferenceSession>, compress: bool, ch: Channel,
                      rounds: nat)
    requires server.z.Lossless()
    requires Sends(server, nodeId, sessions, compress, ch)
    ensures |ch.payloads| <= |sessions| + 2
    ensures TransferEvents(server, nodeId, sessions, compress, ch, rounds)
         == ServeOutcomes(server, Outcomes(server.z, Script(server.codec, nodeId, sessions, compress), ch), [], rounds)
  {
    hide ServeOutcomes, Serve, Script, Carried, Arriving, Outcomes, Packable;
    var script := Script(server.codec, nodeId, sessions, compress);
    CarriedAtMost(server.z, script, ch);
    FramesInStep(server, script, ch, [], rounds);
  }

  /** The whole script could be packed, and the channel carries it. */
  ghost predicate Sends(server: Server, nodeId: string, sessions: seq<InferenceSession>, compress: bool, ch: Channel) {
    var script := Script(server.codec, nodeId, sessions, compress);
    Packable(server.z, script) && Carried(server.z, script, ch)
  }

  lemma RepliesComplete(server: Server, nodeId: string, sessions: seq<InferenceSession>, compress: bool, ch: Channel,
                        rounds: nat)
    requires server.z.Lossless() && server.codec.Lossless()
    requires Sends(server, nodeId, sessions, compress, ch)
    requires AllIntact(server.z, Script(server.codec, nodeId, sessions, compress), ch) && rounds >= |sessions| + 2
    ensures var events := TransferEvents(server, nodeId, sessions, compress, ch, rounds);
            var ack := AckMessage(server, sessions);
            && events == StoredAll(sessions) + FinEvents(server, sessions)
            && Replies(events) == if FrameOf(server.z, ack).Ok? then [ack] else []
  {
    hide ServeOutcomes, TransferEvents, Script, FrameOf, StoredAll, FinEvents, Replies, Sends, AckMessage, Outcomes;
    EventsByFrame(server, nodeId, sessions, compress, ch, rounds);
    ServesIntact(server, nodeId, sessions, compress, ch, rounds);
    RepliesWhenStored(sessions, FinEvents(server, sessions));
    FinReplies(server, sessions);
  }

  lemma RepliesDamaged(server: Server, nodeId: string, sessions: seq<InferenceSession>, compress: bool, ch: Channel,
                       rounds: nat, f: nat)
    requires server.z.Lossless() && server.codec.Lossless()
    requires Sends(server, nodeId, sessions, compress, ch)
    requires FirstDamage(server.z, Script(server.codec, nodeId, sessions, compress), ch, f) && f < rounds
    ensures var replies := Replies(TransferEvents(server, nodeId, sessions, compress, ch, rounds));
            if FrameOf(server.z, NackMessage(server)).Ok? then replies != [] && replies[0] == NackMessage(server)
            else replies == []
  {
    hide ServeOutcomes, TransferEvents, Script, FrameOf, StoredAll, Replies, Sends, NackMessage, Outcomes, Writing,
         Held, Afterwards, Wire;
    EventsByFrame(server, nodeId, sessions, compress, ch, rounds);
    ServesDamaged(server, nodeId, sessions, compress, ch, rounds, f);
    var os := Outcomes(server.z, Script(server.codec, nodeId, sessions, compress), ch);
    var nack := Writing(server.z, NackMessage(server));
    var later := Afterwards(server, os, nack, Held(sessions, f), rounds, f);
    RepliesWhenStored(Held(sessions, f), nack + later);
    RepliesConcat(nack, later);
    WrittenReply(server.z, NackMessage(server));
    UnwrittenNack(server, os, nack, Held(sessions, f), rounds, f);
  }

  lemma RepliesBroken(server: Server, nodeId: string, sessions: seq<InferenceSession>, compress: bool, ch: Channel,
                      rounds: nat)
    requires server.z.Lossless() && server.codec.Lossless()
    requires Sends(server, nodeId, sessions, compress, ch)
    requires Min(rounds, |ch.payloads|) < |sessions| + 2
    requires IntactUpTo(server.z, Script(server.codec, nodeId, sessions, compress), ch, Min(rounds, |ch.payloads|))
    ensures Replies(TransferEvents(server, nodeId, sessions, compress, ch, rounds)) == []
  {
    hide ServeOutcomes, TransferEvents, Script, StoredAll, Sends, Outcomes, Held, IntactUpTo;
    EventsByFrame(server, nodeId, sessions, compress, ch, rounds);
    var m := Min(rounds, |ch.payloads|);
    ServesBroken(server, nodeId, sessions, compress, ch, rounds, m);
    RepliesWhenStored(Held(sessions, m), []);
    assert StoredAll(Held(sessions, m)) + [] == StoredAll(Held(sessions, m));
  }

  /** Unless everything arrives intact, the first reply is a NACK, or there is none. */
  lemma RepliesOtherwise(server: Server, nodeId: string, sessions: seq<InferenceSession>, compress: bool, ch: Channel,
                         rounds: nat)
    requires server.z.Lossless() && server.codec.Lossless()
    requires Sends(server, nodeId, sessions, compress, ch)
    requires !(AllIntact(server.z, Script(server.codec, nodeId, sessions, compress), ch) && rounds >= |sessions| + 2)
    ensures var replies := Replies(TransferEvents(server, nodeId, sessions, compress, ch, rounds));
            replies == [] || replies[0] == NackMessage(server)
  {
    hide TransferEvents, Script, FrameOf, Replies, Sends, NackMessage, Wire;
    EventsByFrame(server, nodeId, sessions, compress, ch, rounds);
    var n := LeadingIntact(server.z, Script(server.codec, nodeId, sessions, compress), ch, 0);
    if n < rounds && n < |ch.payloads| {
      RepliesDamaged(server, nodeId, sessions, compress, ch, rounds, n);
    } else {
      RepliesBroken(server, nodeId, sessions, compress, ch, rounds);
    }
  }

  ghost predicate FirstDamage(z: Zlib, ms: seq<Outgoing>, ch: Channel, f: nat) {
    IntactUpTo(z, ms, ch, f) && f < |ch.payloads| && ch.payloads[f] != Wire(z, ms[f])
  }

  lemma CarriedAtMost(z: Zlib, ms: seq<Outgoing>, ch: Channel)
    requires Carried(z, ms, ch)
    ensures |ch.payloads| <= |ms|
  {
  }

  lemma UnwrittenNack(server: Server, os: seq<Result<Message, FrameError>>, nack: seq<Event>,
                      sessions: seq<InferenceSession>, rounds: nat, n: nat)
    requires n < |os| && n < rounds
    ensures nack == [] ==> Replies(nack + Afterwards(server, os, nack, sessions, rounds, n)) == []
    ensures FrameOf(server.z, NackMessage(server)).Ok? <==> Writing(server.z, NackMessage(server)) != []
  {
    hide FrameOf;
  }

  lemma RepliesWhenStored(sessions: seq<InferenceSession>, later: seq<Event>)
    ensures Replies(StoredAll(sessions) + later) == Replies(later)
  {
    SilentEvents(StoredAll(sessions));
    RepliesConcat(StoredAll(sessions), later);
    assert [] + Replies(later) == Replies(later);
  }

  lemma FinReplies(server: Server, sessions: seq<InferenceSession>)
    ensures Replies(FinEvents(server, sessions))
         == if FrameOf(server.z, AckMessage(server, sessions)).Ok? then [AckMessage(server, sessions)] else []
  {
    hide FrameOf, AckMessage, CallbackEvents, Writing, Replies;
    var called: seq<Event> := if server.callbackRegistered then CallbackEvents(sessions) else [];
    CallbackIsSilent(sessions);
    SilentEvents(called);
    RepliesConcat(called, Writing(server.z, AckMessage(server, sessions)));
    WrittenReply(server.z, AckMessage(server, sessions));
  }

  /** send_sessions returns if and only if every frame arrived whole and intact, the server was not stopped, and its
      ACK came back intact. Then the accepted ids are the sent ids in order, and before the ACK the server had
      stored every session as it was sent and the standby had adopted and announced each. */
  lemma AckSoundness(server: Server, nodeId: string, sessions: seq<InferenceSession>, compress: bool, ch: Channel,
                     rounds: nat, back: Channel)
    requires server.z.Lossless() && server.codec.Lossless()
    requires Sends(server, nodeId, sessions, compress, ch)
    requires Carried(server.z, Replies(TransferEvents(server, nodeId, sessions, compress, ch, rounds)), back)
    ensures var script := Script(server.codec, nodeId, sessions, compress);
            var events := TransferEvents(server, nodeId, sessions, compress, ch, rounds);
            var outcome := Await(server.z, server.codec, Arriving(server.z, Replies(events), back));
            var ack := AckMessage(server, sessions);
            && (outcome.Accepted? <==>
                && AllIntact(server.z, script, ch) && rounds >= |script|
                && FrameOf(server.z, ack).Ok? && back.payloads == [Wire(server.z, ack)])
            && (outcome.Accepted? ==>
                && outcome.ids == Ids(sessions)
                && events == StoredAll(sessions)
                             + (if server.callbackRegistered then CallbackEvents(sessions) else []) + [Reply(ack)])
  {
    hide Script, FrameOf, Wire, StoredAll, CallbackEvents, Replies, Carried, NackMessage, AckMessage, Await, Arriving,
         TransferEvents, Packable, OutcomeOf, Verdict, AllIntact, Ids, Sends;
    var events := TransferEvents(server, nodeId, sessions, compress, ch, rounds);
    RepliesPackable(server, nodeId, sessions, compress, ch, rounds);
    FirstReplyDecides(server.z, server.codec, Replies(events), back);
    CarriedAtMost(server.z, Replies(events), back);
    if back.payloads != [] {
      AckVerdict(server, sessions, back.payloads[0]);
      NackVerdict(server, back.payloads[0]);
    }
    if AllIntact(server.z, Script(server.codec, nodeId, sessions, compress), ch) && rounds >= |sessions| + 2 {
      RepliesComplete(server, nodeId, sessions, compress, ch, rounds);
      var called: seq<Event> := if server.callbackRegistered then CallbackEvents(sessions) else [];
      assert StoredAll(sessions) + (called + Writing(server.z, AckMessage(server, sessions)))
          == StoredAll(sessions) + called + Writing(server.z, AckMessage(server, sessions));
    } else {
      RepliesOtherwise(server, nodeId, sessions, compress, ch, rounds);
    }
  }

  /** A corrupted frame makes the client raise, and by the NACK if that arrives intact. This holds although the server
      goes on and may acknowledge later. */
  lemma CorruptionRejected(server: Server, nodeId: string, sessions: seq<InferenceSession>, compress: bool, ch: Channel,
                           rounds: nat, back: Channel, f: nat)
    requires server.z.Lossless() && server.codec.Lossless()
    requires Sends(server, nodeId, sessions, compress, ch)
    requires Carried(server.z, Replies(TransferEvents(server, nodeId, sessions, compress, ch, rounds)), back)
    requires FirstDamage(server.z, Script(server.codec, nodeId, sessions, compress), ch, f) && f < rounds
    requires FrameOf(server.z, NackMessage(server)).Ok?
    ensures var replies := Replies(TransferEvents(server, nodeId, sessions, compress, ch, rounds));
            && replies != [] && replies[0] == NackMessage(server)
            && Await(server.z, server.codec, Arriving(server.z, replies, back))
               == if back.payloads != [] && back.payloads[0] == Wire(server.z, NackMessage(server)) then Rejected
                  else Failed
  {
    hide Script, FrameOf, Wire, StoredAll, CallbackEvents, Replies, Carried, NackMessage, AckMessage, Await, Arriving,
         TransferEvents, Packable, OutcomeOf, Verdict, AllIntact, Ids, FirstDamage, Sends;
    RepliesPackable(server, nodeId, sessions, compress, ch, rounds);
    RepliesDamaged(server, nodeId, sessions, compress, ch, rounds, f);
    FirstReplyDecides(server.z, server.codec, Replies(TransferEvents(server, nodeId, sessions, compress, ch, rounds)),
                      back);
    if back.payloads != [] {
      NackVerdict(server, back.payloads[0]);
    }
  }

  // ---------------------------------------------------------------------
  // Who has the sessions after a failure
  // ---------------------------------------------------------------------

  /** The sessions the standby takes over, in order. */
  function AdoptedIn(events: seq<Event>): seq<InferenceSession> {
    if events == [] then []
    else (if events[0].Adopted? then [events[0].session] else []) + AdoptedIn(events[1..])
  }

  lemma {:induction false} AdoptedConcat(a: seq<Event>, b: seq<Event>)
    ensures AdoptedIn(a + b) == AdoptedIn(a) + AdoptedIn(b)
  {
    if a == [] {
      assert a + b == b;
    } else {
      AdoptedConcat(a[1..], b);
      assert (a + b)[1..] == a[1..] + b && (a + b)[0] == a[0];
      Associative(if a[0].Adopted? then [a[0].session] else [], AdoptedIn(a[1..]), AdoptedIn(b));
    }
  }

  lemma {:induction false} NoneAdopted(events: seq<Event>)
    requires forall e :: e in events ==> !e.Adopted?
    ensures AdoptedIn(events) == []
  {
    if events != [] {
      NoneAdopted(events[1..]);
    }
  }

  lemma {:induction false} StoryAdoptsNone(server: Server, ms: seq<Outgoing>, ch: Channel,
                                           sessions: seq<InferenceSession>, n: nat)
    requires n <= |sessions| + 1 && n <= |ch.payloads| <= |ms|
    ensures forall e :: e in Story(server, ms, ch, sessions, n) ==> !e.Adopted?
  {
    hide Wire;
    if n > 0 {
      StoryAdoptsNone(server, ms, ch, sessions, n - 1);
    }
  }

  lemma {:induction false} CallbackAdopts(sessions: seq<InferenceSession>)
    ensures AdoptedIn(CallbackEvents(sessions)) == sessions
  {
    if sessions != [] {
      var own := SessionEvents(sessions[0]);
      AdoptedConcat(own, CallbackEvents(sessions[1..]));
      CallbackAdopts(sessions[1..]);
      assert own[1..] == [own[1]] && own[1..][1..] == [];
    }
  }

  lemma FinAdopts(server: Server, inFlight: seq<InferenceSession>)
    ensures AdoptedIn(FinEvents(server, inFlight)) == if server.callbackRegistered then inFlight else []
  {
    hide FrameOf, CallbackEvents, AdoptedIn;
    var called: seq<Event> := if server.callbackRegistered then CallbackEvents(inFlight) else [];
    var ack := Writing(server.z, AckMessage(server, inFlight));
    AdoptedConcat(called, ack);
    CallbackAdopts(inFlight);
    NoneAdopted([]);
    NoneAdopted(ack);
    assert inFlight + [] == inFlight;
  }

  /** Whatever is noticeably damaged: if FIN is read, the callback runs for exactly the sessions whose frames arrived
      intact, in order, and the server acknowledges just these; otherwise nothing is taken over. */
  lemma TakenOverWhenDamaged(server: Server, nodeId: string, sessions: seq<InferenceSession>, compress: bool,
                             ch: Channel, rounds: nat)
    requires server.z.Lossless() && server.codec.Lossless()
    requires Sends(server, nodeId, sessions, compress, ch)
    ensures |ch.payloads| <= |sessions| + 2
    ensures var ms := Script(server.codec, nodeId, sessions, compress);
            var events := TransferEvents(server, nodeId, sessions, compress, ch, rounds);
            if FinRead(server, ms, ch, rounds) then
              var survivors := Survivors(server.z, ms, ch, sessions, |sessions| + 1);
              && events == Story(server, ms, ch, sessions, |sessions| + 1) + FinEvents(server, survivors)
              && AdoptedIn(events) == if server.callbackRegistered then survivors else []
            else AdoptedIn(events) == []
  {
    hide ServeOutcomes, TransferEvents, Script, FrameOf, FinEvents, Sends, NackMessage, Wire, Survivors, Story,
         AdoptedIn, Outcomes, StoredAll, GetsTo, Writing;
    var ms := Script(server.codec, nodeId, sessions, compress);
    EventsByFrame(server, nodeId, sessions, compress, ch, rounds);
    var fin := |sessions| + 1;
    if FinRead(server, ms, ch, rounds) {
      ReadsFin(server, nodeId, sessions, compress, ch, rounds);
      var survivors := Survivors(server.z, ms, ch, sessions, fin);
      StoryAdoptsNone(server, ms, ch, sessions, fin);
      NoneAdopted(Story(server, ms, ch, sessions, fin));
      AdoptedConcat(Story(server, ms, ch, sessions, fin), FinEvents(server, survivors));
      FinAdopts(server, survivors);
      assert [] + survivors == survivors;
    } else if FrameOf(server.z, NackMessage(server)).Ok? {
      NothingTakenOver(server, nodeId, sessions, compress, ch, rounds);
    } else {
      StopsAtDamage(server, nodeId, sessions, compress, ch, rounds);
    }
  }

  /** FIN is damaged, or does not arrive, or the server stops before it. */
  lemma NothingTakenOver(server: Server, nodeId: string, sessions: seq<InferenceSession>, compress: bool, ch: Channel,
                         rounds: nat)
    requires server.codec.Lossless() && FrameOf(server.z, NackMessage(server)).Ok? && |ch.payloads| <= |sessions| + 2
    requires !FinRead(server, Script(server.codec, nodeId, sessions, compress), ch, rounds)
    ensures var ms := Script(server.codec, nodeId, sessions, compress);
            AdoptedIn(ServeOutcomes(server, Outcomes(server.z, ms, ch), [], rounds)) == []
  {
    hide ScriptAt, Wire, React, OutcomeOf, Survivors, Story, AdoptedIn, FrameOf, NackMessage, ServeOutcomes, Writing;
    var ms := Script(server.codec, nodeId, sessions, compress);
    var os := Outcomes(server.z, ms, ch);
    var fin := |sessions| + 1;
    var n := Min(fin, Min(rounds, |ch.payloads|));
    ReadsOn(server, nodeId, sessions, compress, ch, rounds, n);
    StoryAdoptsNone(server, ms, ch, sessions, n);
    var inFlight := Survivors(server.z, ms, ch, sessions, n);
    var rest := ServeOutcomes(server, os[n..], inFlight, rounds - n);
    if n < |os| && n < rounds {
      Turn(server, os, inFlight, rounds - n, n);
      OutcomeOfDamaged(server.z, ms[n], ch.payloads[n]);
      DamageReaction(server, inFlight);
      EndsThere(server, os[n + 1..], inFlight, rounds - n - 1);
    } else {
      EndsThere(server, os[n..], inFlight, rounds - n);
    }
    assert forall e :: e in rest ==> !e.Adopted?;
    NoneAdopted(Story(server, ms, ch, sessions, n) + rest);
  }

  lemma EndsThere(server: Server, os: seq<Result<Message, FrameError>>, sessions: seq<InferenceSession>, rounds: nat)
    requires os == [] || rounds == 0
    ensures ServeOutcomes(server, os, sessions, rounds) == []
  {
  }

  /** A server that cannot pack its NACK ends at the first damaged frame. */
  lemma StopsAtDamage(server: Server, nodeId: string, sessions: seq<InferenceSession>, compress: bool, ch: Channel,
                      rounds: nat)
    requires server.codec.Lossless() && FrameOf(server.z, NackMessage(server)).Err? && |ch.payloads| <= |sessions| + 2
    requires !FinRead(server, Script(server.codec, nodeId, sessions, compress), ch, rounds)
    ensures var ms := Script(server.codec, nodeId, sessions, compress);
            AdoptedIn(ServeOutcomes(server, Outcomes(server.z, ms, ch), [], rounds)) == []
  {
    hide ScriptAt, Wire, AdoptedIn, FrameOf, NackMessage, ServeOutcomes, StoredAll, Outcomes;
    var ms := Script(server.codec, nodeId, sessions, compress);
    var n := LeadingIntact(server.z, ms, ch, 0);
    if n < rounds && n < |ch.payloads| {
      ServesDamaged(server, nodeId, sessions, compress, ch, rounds, n);
      StoredOnly(Held(sessions, n));
    } else {
      var m := Min(rounds, |ch.payloads|);
      ServesBroken(server, nodeId, sessions, compress, ch, rounds, m);
      StoredOnly(Held(sessions, m));
    }
  }

  lemma StoredOnly(sessions: seq<InferenceSession>)
    ensures AdoptedIn(StoredAll(sessions)) == []
    ensures StoredAll(sessions) + ([] + []) == StoredAll(sessions)
  {
    NoneAdopted(StoredAll(sessions));
  }

  ghost predicate SomeSessionArrives(z: Zlib, ms: seq<Outgoing>, ch: Channel, n: nat) {
    exists i :: 1 <= i < n && i < |ch.payloads| && i < |ms| && ch.payloads[i] == Wire(z, ms[i])
  }

  lemma {:induction false} SurvivorsExist(z: Zlib, ms: seq<Outgoing>, ch: Channel, sessions: seq<InferenceSession>,
                                          n: nat)
    requires n <= |sessions| + 1 && n <= |ch.payloads| <= |ms|
    ensures Survivors(z, ms, ch, sessions, n) != [] <==> SomeSessionArrives(z, ms, ch, n)
  {
    hide Wire;
    if n > 1 {
      SurvivorsExist(z, ms, ch, sessions, n - 1);
    }
  }

  /** A transfer that fails for the client need not have left the sessions with it. It fails although the standby took
      over some session if and only if a callback is registered, FIN is read, some session's frame arrived intact, and
      either a frame was damaged or the ACK does not come back intact. */
  lemma RejectedYetAdopted(server: Server, nodeId: string, sessions: seq<InferenceSession>, compress: bool, ch: Channel,
                           rounds: nat, back: Channel)
    requires server.z.Lossless() && server.codec.Lossless()
    requires Sends(server, nodeId, sessions, compress, ch)
    requires Carried(server.z, Replies(TransferEvents(server, nodeId, sessions, compress, ch, rounds)), back)
    ensures var ms := Script(server.codec, nodeId, sessions, compress);
            var events := TransferEvents(server, nodeId, sessions, compress, ch, rounds);
            var outcome := Await(server.z, server.codec, Arriving(server.z, Replies(events), back));
            var ack := AckMessage(server, sessions);
            !outcome.Accepted? && AdoptedIn(events) != []
            <==>
            && server.callbackRegistered && FinRead(server, ms, ch, rounds)
            && SomeSessionArrives(server.z, ms, ch, |sessions| + 1)
            && (|| !AllIntact(server.z, ms, ch)
                || !(FrameOf(server.z, ack).Ok? && back.payloads == [Wire(server.z, ack)]))
  {
    hide TransferEvents, Script, FrameOf, FinEvents, Sends, NackMessage, AckMessage, Wire, Survivors, Story, AdoptedIn,
         Carried, Await, Arriving, Replies, StoredAll, CallbackEvents, AllIntact, SomeSessionArrives;
    var ms := Script(server.codec, nodeId, sessions, compress);
    AckSoundness(server, nodeId, sessions, compress, ch, rounds, back);
    TakenOverWhenDamaged(server, nodeId, sessions, compress, ch, rounds);
    if FinRead(server, ms, ch, rounds) {
      SurvivorsExist(server.z, ms, ch, sessions, |sessions| + 1);
    }
  }

  // ---------------------------------------------------------------------
  // What the standby holds
  // ---------------------------------------------------------------------

  type Sessions = map<string, InferenceSession>

  datatype Holdings = Holdings(received: Sessions, adopted: Sessions)

  function TakeOne(h: Holdings, e: Event): Holdings {
    match e
    case Stored(s) => h.(received := h.received[s.requestId := s])
    case Adopted(s) => h.(adopted := h.adopted[s.requestId := s])
    case _ => h
  }

  function Take(h: Holdings, events: seq<Event>): Holdings
    decreases |events|
  {
    if events == [] then h else Take(TakeOne(h, events[0]), events[1..])
  }

  lemma {:induction false} TakeConcat(h: Holdings, a: seq<Event>, b: seq<Event>)
    ensures Take(h, a + b) == Take(Take(h, a), b)
    decreases |a|
  {
    if a == [] {
      assert a + b == b;
    } else {
      assert (a + b)[1..] == a[1..] + b;
      TakeConcat(TakeOne(h, a[0]), a[1..], b);
    }
  }

  predicate Has(m: Sessions, s: InferenceSession) {
    s.requestId in m && m[s.requestId] == s
  }

  /** A session stays unless another one with its id comes. */
  lemma {:induction false} Kept(h: Holdings, events: seq<Event>, s: InferenceSession)
    requires forall e :: e in events ==>
               && (e.Stored? && e.session.requestId == s.requestId ==> e.session == s)
               && (e.Adopted? && e.session.requestId == s.requestId ==> e.session == s)
    ensures Has(h.received, s) || Stored(s) in events ==> Has(Take(h, events).received, s)
    ensures Has(h.adopted, s) || Adopted(s) in events ==> Has(Take(h, events).adopted, s)
    decreases |events|
  {
    if events != [] {
      assert forall e :: e in events[1..] ==> e in events;
      assert forall e :: e in events ==> e == events[0] || e in events[1..];
      Kept(TakeOne(h, events[0]), events[1..], s);
    }
  }

  ghost predicate DistinctIds(sessions: seq<InferenceSession>) {
    forall i, j :: 0 <= i < j < |sessions| ==> sessions[i].requestId != sessions[j].requestId
  }

  lemma {:induction false} CallbackCovers(sessions: seq<InferenceSession>)
    ensures forall s :: s in sessions ==>
              && Adopted(s) in CallbackEvents(sessions)
              && Announced(s.requestId, s.lastFlushed + 1) in CallbackEvents(sessions)
    ensures forall e :: e in CallbackEvents(sessions) ==> !e.Stored? && (e.Adopted? ==> e.session in sessions)
  {
    if sessions != [] {
      var first, rest := sessions[0], sessions[1..];
      CallbackCovers(rest);
      hide CallbackEvents;
      SessionEventsAre(first);
      EventsSplit(sessions);
      assert forall s :: s in sessions <==> s == first || s in rest;
    }
  }

  lemma SessionEventsAre(s: InferenceSession)
    ensures forall e :: e in SessionEvents(s) <==> e == Adopted(s) || e == Announced(s.requestId, s.lastFlushed + 1)
  {
    var events := SessionEvents(s);
    assert events[0] in events && events[1] in events;
  }

  lemma EventsSplit(sessions: seq<InferenceSession>)
    requires sessions != []
    ensures forall e ::
              e in CallbackEvents(sessions) <==> e in SessionEvents(sessions[0]) || e in CallbackEvents(sessions[1..])
  {
    hide SessionEvents;
  }

  /** After the events that come before the ACK, for sessions with distinct ids, the standby holds each of them as it
      was sent and has attempted to announce each behind its last flushed id. */
  lemma StandbyHolds(h: Holdings, sessions: seq<InferenceSession>, s: InferenceSession)
    requires DistinctIds(sessions) && s in sessions
    ensures var events := StoredAll(sessions) + CallbackEvents(sessions);
            && Has(Take(h, events).received, s) && Has(Take(h, events).adopted, s)
            && Announced(s.requestId, s.lastFlushed + 1) in events
  {
    hide CallbackEvents, Take;
    var events := StoredAll(sessions) + CallbackEvents(sessions);
    CallbackCovers(sessions);
    forall e | e in events && (e.Stored? || e.Adopted?)
      ensures e.session in sessions
    {
    }
    var i :| 0 <= i < |sessions| && sessions[i] == s;
    assert StoredAll(sessions)[i] == Stored(s);
    assert Stored(s) in events && Adopted(s) in events;
    Kept(h, events, s);
  }

  // ---------------------------------------------------------------------
  // The programs
  // ---------------------------------------------------------------------

  /** The standby's node daemon, as far as the server's callback reaches it. */
  class StandbyDaemon {
    var activeSessions: Sessions

    constructor ()
      ensures activeSessions == map[]
    {
      activeSessions := map[];
    }

    /** _on_standby_sessions_received: an announcement that fails is swallowed. */
    method OnStandbySessionsReceived(sessions: seq<InferenceSession>) returns (events: seq<Event>)
      modifies this
      ensures events == CallbackEvents(sessions)
      ensures Adopts(old(activeSessions), events, activeSessions)
    {
      hide Adopts;
      events := [];
      NothingAdopted(activeSessions);
      for n := 0 to |sessions|
        invariant events + CallbackEvents(sessions[n..]) == CallbackEvents(sessions)
        invariant Adopts(old(activeSessions), events, activeSessions)
      {
        var s := sessions[n];
        OneAdopted(old(activeSessions), events, activeSessions, s);
        CallbackSplits(events, sessions, n);
        activeSessions := activeSessions[s.requestId := s];
        events := events + SessionEvents(s);
      }
    }
  }

  /** The events turn these adopted sessions into those, and store nothing. */
  ghost predicate Adopts(before: Sessions, events: seq<Event>, after: Sessions) {
    forall received :: Take(Holdings(received, before), events) == Holdings(received, after)
  }

  lemma NothingAdopted(sessions: Sessions)
    ensures Adopts(sessions, [], sessions)
  {
  }

  lemma OneAdopted(before: Sessions, events: seq<Event>, between: Sessions, s: InferenceSession)
    requires Adopts(before, events, between)
    ensures Adopts(before, events + SessionEvents(s), between[s.requestId := s])
  {
    hide Take;
    forall received
      ensures Take(Holdings(received, before), events + SessionEvents(s))
           == Holdings(received, between[s.requestId := s])
    {
      TakeConcat(Holdings(received, before), events, SessionEvents(s));
      TakeTwo(Holdings(received, between), SessionEvents(s)[0], SessionEvents(s)[1]);
    }
  }

  lemma CallbackSplits(events: seq<Event>, sessions: seq<InferenceSession>, n: nat)
    requires n < |sessions|
    ensures events + CallbackEvents(sessions[n..])
         == (events + SessionEvents(sessions[n])) + CallbackEvents(sessions[n + 1..])
  {
    hide SessionEvents;
    assert sessions[n..][0] == sessions[n] && sessions[n..][1..] == sessions[n + 1..];
  }

  class P2PServer {
    const server: Server
    const standby: StandbyDaemon
    var receivedSessions: Sessions

    constructor (server: Server, standby: StandbyDaemon)
      ensures this.server == server && this.standby == standby && receivedSessions == map[]
    {
      this.server := server;
      this.standby := standby;
      receivedSessions := map[];
    }

    function Held(): Holdings
      reads this, standby
    {
      Holdings(receivedSessions, standby.activeSessions)
    }

    /** Writes one frame; an exception is answered with no event. */
    method Answer(writer: StreamWriter, m: Outgoing) returns (events: seq<Event>)
      modifies writer
      ensures events == Writing(server.z, m)
      ensures writer.sent == old(writer.sent) + Sent(server.z, events)
    {
      hide PackFrame;
      var r := writer.WriteFrameAsync(server.z, m);
      events := if r.Ok? then [Reply(m)] else [];
      SentOne(server.z, m);
    }

    /** One turn of the receive loop. */
    method HandleFrame(r: Result<Message, FrameError>, inFlight: seq<InferenceSession>, writer: StreamWriter)
      returns (events: seq<Event>, sessions: seq<InferenceSession>, goesOn: bool)
      modifies this`receivedSessions, standby, writer
      ensures Reaction(events, sessions, goesOn) == React(server, r, inFlight)
      ensures Held() == Take(old(Held()), events)
      ensures writer.sent == old(writer.sent) + Sent(server.z, events)
    {
      hide FrameOf, CallbackEvents, Writing, Sent, Replies;
      events, sessions, goesOn := [], inFlight, true;
      EmptyRecord(server.z, Held());
      if r == Err(CrcMismatch) {
        events := Answer(writer, NackMessage(server));
        WrittenOnly(server.z, NackMessage(server), old(Held()));
        goesOn := events != [];
      } else if r.Err? {
        goesOn := false;
      } else if r.value.msgType == HANDOVER_INIT {
        goesOn := server.codec.decodeInit(r.value.payload).Some?;
      } else if r.value.msgType == REQUEST_STATE {
        var decoded := server.codec.decodeSession(r.value.payload);
        if decoded == None {
          goesOn := false;
          return;
        }
        sessions := sessions + [decoded.value];
        receivedSessions := receivedSessions[decoded.value.requestId := decoded.value];
        events := [Stored(decoded.value)];
        assert events[1..] == [];
        SilentEvents(events);
        NoneSent(server.z, events);
      } else if r.value.msgType == HANDOVER_FIN {
        EmptyRecord(server.z, Held());
        if server.callbackRegistered && sessions != [] {
          events := standby.OnStandbySessionsReceived(sessions);
        }
        NoCallback();
        CallbackIsSilent(inFlight);
        SilentEvents(events);
        assert Held() == Take(old(Held()), events);
        var ack := Answer(writer, AckMessage(server, sessions));
        WrittenOnly(server.z, AckMessage(server, sessions), Held());
        TakeConcat(old(Held()), events, ack);
        RepliesConcat(events, ack);
        assert [] + Replies(ack) == Replies(ack);
        SameReplies(server.z, ack, events + ack);
        events := events + ack;
        goesOn := false;
      } else if r.value.msgType == HEARTBEAT {
        events := Answer(writer, PONG);
        WrittenOnly(server.z, PONG, old(Held()));
        goesOn := events != [];
      }
    }

    /** _handle_client: the loop does what Serve says, the server's and the standby's maps hold what the events say, and
        exactly the replies are written. */
    method HandleClient(reader: StreamReader, writer: StreamWriter, rounds: nat) returns (events: seq<Event>)
      modifies this`receivedSessions, standby, reader, writer
      ensures events == Serve(server, old(reader.unread), [], rounds)
      ensures Held() == Take(old(Held()), events)
      ensures writer.sent == old(writer.sent) + Sent(server.z, events)
    {
      hide React, ReadFrame, Take, Sent, Serve;
      events := [];
      var sessions: seq<InferenceSession> := [];
      var turns := rounds;
      EmptyRecord(server.z, Held());
      NothingBefore(Serve(server, reader.unread, [], rounds));
      while turns > 0
        invariant events + Serve(server, reader.unread, sessions, turns)
               == Serve(server, old(reader.unread), [], rounds)
        invariant Held() == Take(old(Held()), events)
        invariant writer.sent == old(writer.sent) + Sent(server.z, events)
      {
        ServeTurn(server, reader.unread, sessions, turns);
        var frame := reader.ReadFrameAsync(server.z);
        var own, goesOn;
        own, sessions, goesOn := HandleFrame(frame, sessions, writer);
        turns := turns - 1;
        Extended(server.z, old(Held()), events, own);
        Associative(events, own, if goesOn then Serve(server, reader.unread, sessions, turns) else []);
        events := events + own;
        if !goesOn {
          NothingBehind(events);
          return;
        }
      }
      ServeEnds(server, reader.unread, sessions);
      NothingBehind(events);
    }
  }

  lemma NothingBefore(events: seq<Event>)
    ensures [] + events == events
  {
  }

  lemma NothingBehind(events: seq<Event>)
    ensures events + [] == events
  {
  }

  lemma ServeTurn(server: Server, stream: seq<byte>, sessions: seq<InferenceSession>, rounds: nat)
    requires rounds > 0
    ensures var (r, rest) := ReadFrame(server.z, stream);
            var x := React(server, r, sessions);
            Serve(server, stream, sessions, rounds)
            == x.events + if x.goesOn then Serve(server, rest, x.sessions, rounds - 1) else []
  {
    hide React, ReadFrame;
  }

  lemma ServeEnds(server: Server, stream: seq<byte>, sessions: seq<InferenceSession>)
    ensures Serve(server, stream, sessions, 0) == []
  {
  }

  /** The bytes of the replies. */
  function Sent(z: Zlib, events: seq<Event>): seq<byte> {
    Frames(z, Replies(events))
  }

  /** Messages that cannot be packed leave no bytes. */
  function Frames(z: Zlib, ms: seq<Outgoing>): seq<byte> {
    if ms == [] then []
    else BytesOf(z, ms[0]) + Frames(z, ms[1..])
  }

  function BytesOf(z: Zlib, m: Outgoing): seq<byte> {
    match FrameOf(z, m)
    case Ok(frame) => frame
    case Err(_) => []
  }

  lemma {:induction false} FramesConcat(z: Zlib, a: seq<Outgoing>, b: seq<Outgoing>)
    ensures Frames(z, a + b) == Frames(z, a) + Frames(z, b)
  {
    hide BytesOf;
    if a == [] {
      assert a + b == b;
    } else {
      FramesConcat(z, a[1..], b);
      assert (a + b)[1..] == a[1..] + b && (a + b)[0] == a[0];
      Associative(BytesOf(z, a[0]), Frames(z, a[1..]), Frames(z, b));
    }
  }

  lemma EmptyRecord(z: Zlib, h: Holdings)
    ensures Take(h, []) == h && Sent(z, []) == []
    ensures forall sent: seq<byte> :: sent + Sent(z, []) == sent
  {
  }

  lemma SentOne(z: Zlib, m: Outgoing)
    ensures Sent(z, Writing(z, m)) == match FrameOf(z, m) case Ok(frame) => frame case Err(_) => []
    ensures FrameOf(z, m).Err? ==> forall sent: seq<byte> :: sent + Sent(z, Writing(z, m)) == sent
  {
    hide FrameOf;
    WrittenReply(z, m);
    if FrameOf(z, m).Ok? {
      assert [m][1..] == [];
      assert FrameOf(z, m).value + [] == FrameOf(z, m).value;
      assert Frames(z, [m]) == FrameOf(z, m).value + Frames(z, [m][1..]);
    }
  }

  lemma NoneSent(z: Zlib, events: seq<Event>)
    requires Replies(events) == []
    ensures forall sent: seq<byte> :: sent + Sent(z, events) == sent
  {
  }

  lemma SameReplies(z: Zlib, a: seq<Event>, b: seq<Event>)
    requires Replies(a) == Replies(b)
    ensures Sent(z, a) == Sent(z, b)
  {
  }

  lemma TakeTwo(h: Holdings, a: Event, b: Event)
    ensures Take(h, [a, b]) == TakeOne(TakeOne(h, a), b)
  {
    assert [a, b][1..] == [b] && [b][1..] == [];
    assert Take(h, [a, b]) == Take(TakeOne(h, a), [b]) == Take(TakeOne(TakeOne(h, a), b), []);
  }

  lemma Extended(z: Zlib, h: Holdings, events: seq<Event>, own: seq<Event>)
    ensures Take(h, events + own) == Take(Take(h, events), own)
    ensures forall sent: seq<byte> :: (sent + Sent(z, events)) + Sent(z, own) == sent + Sent(z, events + own)
  {
    hide Take, Frames, Replies;
    TakeConcat(h, events, own);
    RepliesConcat(events, own);
    FramesConcat(z, Replies(events), Replies(own));
    forall sent: seq<byte>
      ensures (sent + Sent(z, events)) + Sent(z, own) == sent + Sent(z, events + own)
    {
      Associative(sent, Sent(z, events), Sent(z, own));
    }
  }

  lemma WrittenOnly(z: Zlib, m: Outgoing, h: Holdings)
    ensures Take(h, Writing(z, m)) == h
  {
    hide FrameOf;
    assert [Reply(m)][1..] == [];
  }

  lemma NoCallback()
    ensures CallbackEvents([]) == []
  {
  }

  const MAX_RETRIES := 2

  class P2PClient {
    const z: Zlib
    const codec: Codec
    const nodeId: string

    constructor (z: Zlib, codec: Codec, nodeId: string)
      ensures this.z == z && this.codec == codec && this.nodeId == nodeId
    {
      this.z, this.codec, this.nodeId := z, codec, nodeId;
    }

    /** The retry loop: it leaves after the first attempt, and no frame is ever sent twice. A write on a broken
        connection raises. */
    method Transmit(writer: StreamWriter, m: Outgoing, broken: bool) returns (r: Result<(), FrameError>)
      modifies writer
      ensures r.Ok? <==> FrameOf(z, m).Ok? && !broken
      ensures writer.sent == old(writer.sent) + if r.Ok? then Frames(z, [m]) else []
    {
      hide PackFrame;
      var success := false;
      r := Err(CrcMismatch);
      OneFrame(z, m);
      if broken {
        return;
      }
      for attempt := 0 to MAX_RETRIES + 1
        invariant attempt == 0 && !success && writer.sent == old(writer.sent)
      {
        r := writer.WriteFrameAsync(z, m);
        if r.Err? {
          return;
        }
        success := true;
        break;
      }
      if !success {
        r := Err(CrcMismatch);
      }
    }

    /** send_sessions. A refused connection fails the call before anything is written. Otherwise either the whole script
        is written, once, and the first reply decides; or a message cannot be packed or written, the frames before it
        are written, and the call fails. */
    method SendSessions(sessions: seq<InferenceSession>, compress: bool, link: Link, writer: StreamWriter,
                        reader: StreamReader)
      returns (outcome: Outcome)
      modifies writer, reader
      ensures Attempted(z, Script(codec, nodeId, sessions, compress), link, codec, old(writer.sent), writer.sent,
                        old(reader.unread), outcome)
    {
      hide PackFrame, ReadFrame, Verdict, ScriptAt, Frames;
      ghost var script := Script(codec, nodeId, sessions, compress);
      NoFrames(z, script);
      if link.Refused? {
        return Failed;
      }
      ScriptMessages(codec, nodeId, sessions, compress);
      var r := Transmit(writer, InitMessage(codec, nodeId, |sessions|), link.writes == 0);
      assert old(writer.sent) + Frames(z, script[..0]) == old(writer.sent);
      Progress(z, script, 0);
      if r.Err? {
        StoppedAt(z, script, link, 0);
        return Failed;
      }
      for idx := 0 to |sessions|
        invariant writer.sent == old(writer.sent) + Frames(z, script[..idx + 1])
        invariant Packable(z, script[..idx + 1]) && idx < link.writes
        invariant reader.unread == old(reader.unread)
      {
        r := Transmit(writer, StateMessage(codec, sessions, idx, compress), link.writes == idx + 1);
        Progress(z, script, idx + 1);
        if r.Err? {
          StoppedAt(z, script, link, idx + 1);
          return Failed;
        }
      }
      r := Transmit(writer, FIN_MESSAGE, link.writes == |sessions| + 1);
      Progress(z, script, |sessions| + 1);
      if r.Err? {
        StoppedAt(z, script, link, |sessions| + 1);
        return Failed;
      }
      assert script[..|sessions| + 2] == script;
      var reply := reader.ReadFrameAsync(z);
      outcome := Verdict(codec, reply);
    }
  }

  /** The client's connection: refused, or broken after so many frames were written. */
  datatype Link = Refused | Open(writes: nat)

  /** How far a script gets: to its end, or to the first message that cannot be packed or written. */
  ghost predicate StopsAt(z: Zlib, script: seq<Outgoing>, link: Link, k: nat) {
    && link.Open? && k <= |script| && k <= link.writes && Packable(z, script[..k])
    && (k == |script| || k == link.writes || FrameOf(z, script[k]).Err?)
  }

  /** What one call of send_sessions writes and how it ends. */
  ghost predicate Attempted(z: Zlib, script: seq<Outgoing>, link: Link, codec: Codec, before: seq<byte>,
                            after: seq<byte>, incoming: seq<byte>, outcome: Outcome)
  {
    match link
    case Refused => outcome == Failed && after == before
    case Open(writes) =>
      exists k: nat :: StopsAt(z, script, link, k) && after == before + Frames(z, script[..k])
        && outcome == if k == |script| then Await(z, codec, incoming) else Failed
  }

  lemma NoFrames(z: Zlib, script: seq<Outgoing>)
    ensures script[..0] == [] && Packable(z, script[..0])
    ensures forall sent: seq<byte> :: sent + Frames(z, script[..0]) == sent && sent + [] == sent
  {
    assert script[..0] == [];
  }

  /** The attempt at message k fails. */
  lemma StoppedAt(z: Zlib, script: seq<Outgoing>, link: Link, k: nat)
    requires link.Open? && k < |script| && k <= link.writes && Packable(z, script[..k])
    requires k == link.writes || FrameOf(z, script[k]).Err?
    ensures StopsAt(z, script, link, k)
  {
    hide FrameOf;
  }

  lemma OneFrame(z: Zlib, m: Outgoing)
    ensures Frames(z, [m]) == match FrameOf(z, m) case Ok(frame) => frame case Err(_) => []
    ensures FrameOf(z, m).Err? ==> forall sent: seq<byte> :: sent + Frames(z, [m]) == sent
  {
    hide FrameOf;
    assert [m][1..] == [];
    assert Frames(z, []) == [];
  }

  lemma ScriptMessages(codec: Codec, nodeId: string, sessions: seq<InferenceSession>, compress: bool)
    ensures var script := Script(codec, nodeId, sessions, compress);
            && script[0] == InitMessage(codec, nodeId, |sessions|)
            && (forall i :: 0 <= i < |sessions| ==> script[i + 1] == StateMessage(codec, sessions, i, compress))
            && script[|sessions| + 1] == FIN_MESSAGE
  {
  }

  /** Writing message k after the first k. */
  lemma Progress(z: Zlib, script: seq<Outgoing>, k: nat)
    requires k < |script|
    ensures forall sent: seq<byte> ::
              (sent + Frames(z, script[..k])) + Frames(z, [script[k]]) == sent + Frames(z, script[..k + 1])
    ensures Packable(z, script[..k]) && FrameOf(z, script[k]).Ok? ==> Packable(z, script[..k + 1])
  {
    hide FrameOf, Packable;
    FramesConcat(z, script[..k], [script[k]]);
    assert script[..k + 1] == script[..k] + [script[k]];
    if Packable(z, script[..k]) && FrameOf(z, script[k]).Ok? {
      PackableGrows(z, script[..k], script[k]);
    }
    hide Frames;
    forall sent: seq<byte>
      ensures (sent + Frames(z, script[..k])) + Frames(z, [script[k]]) == sent + Frames(z, script[..k + 1])
    {
      Associative(sent, Frames(z, script[..k]), Frames(z, [script[k]]));
    }
  }

  lemma PackableGrows(z: Zlib, ms: seq<Outgoing>, m: Outgoing)
    requires Packable(z, ms) && FrameOf(z, m).Ok?
    ensures Packable(z, ms + [m])
  {
    hide FrameOf;
  }

  /** A channel without faults delivers exactly what was written. */
  lemma {:induction false} FaultlessChannel(z: Zlib, ms: seq<Outgoing>)
    requires Packable(z, ms)
    ensures Arriving(z, ms, Channel(seq(|ms|, i requires 0 <= i < |ms| => Wire(z, ms[i])), [])) == Frames(z, ms)
    ensures Frames(z, ms) == Concatenated(z, ms)
  {
    hide PackFrame, Wire;
    if ms != [] {
      assert ms[0] in ms;
      FaultlessChannel(z, ms[1..]);
      var payloads := seq(|ms|, i requires 0 <= i < |ms| => Wire(z, ms[i]));
      assert payloads[1..] == seq(|ms| - 1, i requires 0 <= i < |ms| - 1 => Wire(z, ms[1..][i]));
      var frame := FrameOf(z, ms[0]).value;
      IntactFrameBytes(z, ms[0]);
    }
  }

  lemma IntactFrameBytes(z: Zlib, m: Outgoing)
    requires FrameOf(z, m).Ok?
    ensures Damaged(z, m, Wire(z, m)) == FrameOf(z, m).value
  {
    hide PackFrame;
    PackedLength(z, m.msgType, m.payload, m.flags, PROTOCOL_VERSION, m.compress);
    var frame := FrameOf(z, m).value;
    assert frame == frame[..HEADER_SIZE] + frame[HEADER_SIZE..];
  }
}
