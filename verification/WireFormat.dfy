/** Frames and messages of the state transfer as section 3 of specs/02-preemption-and-migration-protocol.md lays them
    down, byte by byte and number by number. */
module WireFormat {
  import opened Wrappers
  import opened Crc32
  import opened Framing
  import opened Models
  import opened Transfer

  // ---------------------------------------------------------------------
  // Frames
  // ---------------------------------------------------------------------

  function CodeOf(c: char): byte
    requires c <= '~'
  {
    c as int
  }

  function Ascii(text: string): (bytes: seq<byte>)
    requires forall i :: 0 <= i < |text| ==> text[i] <= '~'
    ensures |bytes| == |text|
  {
    seq(|text|, i requires 0 <= i < |text| => CodeOf(text[i]))
  }

  /** Network byte order. */
  function TwoBytes(b: seq<byte>, i: nat): nat
    requires i + 2 <= |b|
  {
    0x100 * (b[i] as int) + b[i + 1]
  }

  function FourBytes(b: seq<byte>, i: nat): nat
    requires i + 4 <= |b|
  {
    0x100_0000 * (b[i] as int) + 0x1_0000 * (b[i + 1] as int) + 0x100 * (b[i + 2] as int) + b[i + 3]
  }

  /** Magic bytes, version, message type, flags, payload length, checksum, payload. */
  ghost predicate IsFrame(frame: seq<byte>, version: int, msgType: int, flags: int, payload: seq<byte>, checksum: int) {
    && |frame| == 16 + |payload|
    && frame[..4] == Ascii("SGM1") && frame[4] == version && frame[5] == msgType
    && TwoBytes(frame, 6) == flags && FourBytes(frame, 8) == |payload| && FourBytes(frame, 12) == checksum
    && frame[16..] == payload
  }

  lemma OneByteField(b: byte)
    ensures FromBigEndian([b]) == b
  {
    assert [b][..0] == [];
  }

  lemma TwoByteField(bytes: seq<byte>)
    requires |bytes| == 2
    ensures FromBigEndian(bytes) == TwoBytes(bytes, 0)
  {
    assert bytes[..1] == [bytes[0]];
    OneByteField(bytes[0]);
  }

  lemma FourByteField(bytes: seq<byte>)
    requires |bytes| == 4
    ensures FromBigEndian(bytes) == FourBytes(bytes, 0)
  {
    hide FromBigEndian;
    BigEndianStep(bytes);
    BigEndianStep(bytes[..3]);
    assert bytes[..3][..2] == bytes[..2];
    TwoByteField(bytes[..2]);
  }

  lemma BigEndianStep(bytes: seq<byte>)
    requires bytes != []
    ensures FromBigEndian(bytes) == 0x100 * FromBigEndian(bytes[..|bytes| - 1]) + bytes[|bytes| - 1]
  {
  }

  lemma MagicText()
    ensures MAGIC_BYTES == Ascii("SGM1")
  {
  }

  /** The header as the readers take it apart. */
  lemma HeaderFields(bytes: seq<byte>)
    requires |bytes| == 16 && bytes[..4] == Ascii("SGM1")
    ensures UnpackFrameHeader(bytes)
         == if FourBytes(bytes, 8) > 16777216 then Err(PayloadTooLarge)
            else Ok(Header(bytes[4], bytes[5], TwoBytes(bytes, 6), FourBytes(bytes, 8), FourBytes(bytes, 12)))
  {
    hide FromBigEndian;
    MagicText();
    assert bytes[4..5] == [bytes[4]] && bytes[5..6] == [bytes[5]];
    OneByteField(bytes[4]);
    OneByteField(bytes[5]);
    TwoByteField(bytes[6..8]);
    FourByteField(bytes[8..12]);
    FourByteField(bytes[12..16]);
  }

  /** Whoever writes a frame of this form is understood: a wrong checksum is reported, a compressed payload is
      decompressed, any other is delivered as it is. */
  lemma FrameRead(z: Zlib, frame: seq<byte>, version: int, msgType: int, flags: int, payload: seq<byte>, checksum: int,
                  rest: seq<byte>)
    requires IsFrame(frame, version, msgType, flags, payload, checksum) && |payload| <= 16777216
    ensures ReadFrame(z, frame + rest).1 == rest
    ensures ReadFrame(z, frame + rest).0
         == if z.crc32(payload) != checksum then Err(CrcMismatch)
            else if flags % 2 == 0 then Ok(Message(msgType, flags, payload))
            else match z.decompress(payload)
                 case Some(data) => Ok(Message(msgType, flags, data))
                 case None => Err(BadCompression)
  {
    hide UnpackFrameHeader, CheckPayload;
    var stream := frame + rest;
    assert stream[..16] == frame[..16] && frame[..16][..4] == frame[..4];
    HeaderFields(frame[..16]);
    assert stream[16..16 + |payload|] == payload && stream[16 + |payload|..] == rest;
    PayloadChecked(z, Header(version, msgType, flags, |payload|, checksum), payload);
  }

  lemma PayloadChecked(z: Zlib, h: Header, payload: seq<byte>)
    ensures CheckPayload(z, h, payload)
         == if z.crc32(payload) != h.checksum then Err(CrcMismatch)
            else if h.flags % 2 == 0 then Ok(Message(h.msgType, h.flags, payload))
            else match z.decompress(payload)
                 case Some(data) => Ok(Message(h.msgType, h.flags, data))
                 case None => Err(BadCompression)
  {
  }

  lemma HeaderBytes(h: Header)
    requires ValidHeader(h)
    ensures var b := PackHeader(h);
            && b[..4] == Ascii("SGM1") && b[4] == h.version && b[5] == h.msgType
            && TwoBytes(b, 6) == h.flags && FourBytes(b, 8) == h.length && FourBytes(b, 12) == h.checksum
  {
    hide PackHeader, BigEndian, FromBigEndian, UnpackFrameHeader;
    MagicText();
    StartsWithMagic(h);
    HeaderRoundTrip(h);
    HeaderFields(PackHeader(h));
  }

  lemma StartsWithMagic(h: Header)
    requires FieldsInRange(h)
    ensures PackHeader(h)[..4] == MAGIC_BYTES
  {
    hide BigEndian;
  }

  /** The payload is compressed only on demand, beyond 64 bytes, and if that makes it shorter. */
  predicate TravelsCompressed(z: Zlib, payload: seq<byte>, compress: bool) {
    compress && |payload| >= 65 && |z.compress(payload)| < |payload|
  }

  /** Every frame that is packed has this form, with bit 0 of the flags set if it is compressed. Packing is refused
      exactly for a payload beyond 16 MiB on the wire, or for a field that does not fit. */
  lemma FrameLayout(z: Zlib, msgType: int, payload: seq<byte>, flags: int, version: int, compress: bool)
    ensures var compressed := TravelsCompressed(z, payload, compress);
            var wire := if compressed then z.compress(payload) else payload;
            var wireFlags := if compressed && flags % 2 == 0 then flags + 1 else flags;
            match PackFrame(z, msgType, payload, flags, version, compress)
            case Ok(frame) =>
              |wire| <= 16777216 && IsFrame(frame, version, msgType, wireFlags, wire, z.crc32(wire))
            case Err(e) =>
              if |wire| > 16777216 then e == PayloadTooLarge
              else e == FieldOutOfRange
                   && !(0 <= version <= 255 && 0 <= msgType <= 255 && 0 <= wireFlags <= 65535)
  {
    hide PackHeader;
    var wire := WirePayload(z, payload, compress);
    var h := HeaderFor(z, version, msgType, WireFlags(z, payload, flags, compress), wire);
    if PackFrame(z, msgType, payload, flags, version, compress).Ok? {
      HeaderBytes(h);
      var frame := PackHeader(h) + wire;
      assert frame[..4] == PackHeader(h)[..4] && frame[16..] == wire;
    }
  }

  /** The parties send version 1. */
  lemma FramesOfVersionOne(z: Zlib, m: Outgoing)
    ensures FrameOf(z, m).Ok? ==> |FrameOf(z, m).value| >= 16 && FrameOf(z, m).value[4] == 1
  {
    hide PackFrame;
    FrameLayout(z, m.msgType, m.payload, m.flags, PROTOCOL_VERSION, m.compress);
  }

  // ---------------------------------------------------------------------
  // The messages of the exchange
  // ---------------------------------------------------------------------

  /** What the active node sends: type 1 with its name and the number of requests, type 2 with one session each, in
      order, bit 1 of the flags set on the last one only, and type 5. */
  lemma ScriptOnTheWire(codec: Codec, nodeId: string, sessions: seq<InferenceSession>, compress: bool)
    requires codec.Lossless()
    ensures var ms := Script(codec, nodeId, sessions, compress); var n := |sessions|;
            && |ms| == n + 2
            && ms[0].msgType == 1 && ms[0].flags == 0 && !ms[0].compress
            && codec.decodeInit(ms[0].payload) == Some(HandoverInit(nodeId, n))
            && (forall i :: 0 < i <= n ==>
                  && ms[i].msgType == 2 && ms[i].flags == (if i == n then 2 else 0) && ms[i].compress == compress
                  && codec.decodeSession(ms[i].payload) == Some(sessions[i - 1]))
            && ms[n + 1] == Outgoing(5, Ascii("{\"status\":\"DONE\"}"), 0, false)
  {
    FinText();
  }

  lemma FinText()
    ensures FIN_PAYLOAD == Ascii("{\"status\":\"DONE\"}")
  {
  }

  lemma PongText()
    ensures PONG_PAYLOAD == Ascii("PONG")
  {
  }

  ghost predicate NamesAll(ids: seq<string>, sessions: seq<InferenceSession>) {
    |ids| == |sessions| && forall i :: 0 <= i < |sessions| ==> ids[i] == sessions[i].requestId
  }

  /** A message of type 7 with error code 1. */
  ghost predicate IsNack(server: Server, m: Outgoing) {
    m.msgType == 7 && m.flags == 0 && server.codec.decodeNack(m.payload) == Some(HandoverNack(server.nodeId, 1))
  }

  /** A message of type 6 that names the sessions. */
  ghost predicate IsAck(server: Server, m: Outgoing, sessions: seq<InferenceSession>) {
    && m.msgType == 6 && m.flags == 0
    && exists ids ::
         NamesAll(ids, sessions) && server.codec.decodeAck(m.payload) == Some(HandoverAck(server.nodeId, ids))
  }

  /** Nothing but this reply, unless it cannot be packed. */
  ghost predicate Answers(server: Server, events: seq<Event>, m: Outgoing) {
    events == if FrameOf(server.z, m).Ok? then [Reply(m)] else []
  }

  /** The callback's events: each session is adopted, then announced with the id behind its last flushed one. */
  ghost predicate CallsBack(events: seq<Event>, sessions: seq<InferenceSession>) {
    && |events| == 2 * |sessions|
    && forall i :: 0 <= i < |sessions| ==>
         && events[2 * i] == Adopted(sessions[i])
         && events[2 * i + 1] == Announced(sessions[i].requestId, sessions[i].lastFlushed + 1)
  }

  lemma {:induction false} CallbackCallsBack(sessions: seq<InferenceSession>)
    ensures CallsBack(CallbackEvents(sessions), sessions)
  {
    if sessions != [] {
      CallbackCallsBack(sessions[1..]);
      var events, later := CallbackEvents(sessions), CallbackEvents(sessions[1..]);
      assert events == SessionEvents(sessions[0]) + later;
      forall i | 0 <= i < |sessions|
        ensures events[2 * i] == Adopted(sessions[i])
        ensures events[2 * i + 1] == Announced(sessions[i].requestId, sessions[i].lastFlushed + 1)
      {
        if i > 0 {
          assert events[2 * i] == later[2 * (i - 1)] && events[2 * i + 1] == later[2 * (i - 1) + 1];
        }
      }
    }
  }

  /** A damaged frame is answered with a NACK, and the server goes on with what it holds. */
  lemma DamageIsRefused(server: Server, sessions: seq<InferenceSession>)
    requires server.codec.Lossless()
    ensures var x := React(server, Err(CrcMismatch), sessions);
            && x.sessions == sessions && x.goesOn == (x.events != [])
            && exists nack :: IsNack(server, nack) && Answers(server, x.events, nack)
  {
    hide FrameOf;
    var nack := NackMessage(server);
    assert IsNack(server, nack);
    assert Answers(server, React(server, Err(CrcMismatch), sessions).events, nack);
  }

  /** Type 5: the callback, if one is registered, for all sessions so far, then the ACK with their ids; the connection
      ends. */
  lemma FinIsAcknowledged(server: Server, flags: int, payload: seq<byte>, sessions: seq<InferenceSession>)
    requires server.codec.Lossless()
    ensures var x := React(server, Ok(Message(5, flags, payload)), sessions);
            && !x.goesOn && x.sessions == sessions
            && exists called, ack, reply ::
                 && x.events == called + reply && IsAck(server, ack, sessions) && Answers(server, reply, ack)
                 && (if server.callbackRegistered then CallsBack(called, sessions) else called == [])
  {
    hide FrameOf, CallbackEvents, CallsBack;
    CallbackCallsBack(sessions);
    var ack := AckMessage(server, sessions);
    var called: seq<Event> := if server.callbackRegistered then CallbackEvents(sessions) else [];
    assert NamesAll(Ids(sessions), sessions);
    assert IsAck(server, ack, sessions);
    assert Answers(server, Writing(server.z, ack), ack);
    var x := React(server, Ok(Message(5, flags, payload)), sessions);
    assert x.events == called + Writing(server.z, ack);
  }

  /** Type 1 and 2 are taken in if they can be decoded, and end the connection without a word if not; type 8 is answered
      with PONG; all other types are passed over. */
  lemma OthersAreTakenIn(server: Server, msgType: int, flags: int, payload: seq<byte>, sessions: seq<InferenceSession>)
    requires msgType != 5
    ensures var x := React(server, Ok(Message(msgType, flags, payload)), sessions);
            && (msgType == 1 ==>
                  x.events == [] && x.sessions == sessions && x.goesOn == server.codec.decodeInit(payload).Some?)
            && (msgType == 2 ==>
                  match server.codec.decodeSession(payload)
                  case Some(s) => x.events == [Stored(s)] && x.sessions == sessions + [s] && x.goesOn
                  case None => x.events == [] && !x.goesOn)
            && (msgType == 8 ==>
                  && Answers(server, x.events, Outgoing(8, Ascii("PONG"), 0, false))
                  && x.sessions == sessions && x.goesOn == (x.events != []))
            && (msgType != 1 && msgType != 2 && msgType != 8 ==> x == Reaction([], sessions, true))
  {
    hide FrameOf;
    PongText();
  }

  /** The active node's verdict: it returns the ids of a message of type 6 that can be decoded; everything else
      raises. */
  lemma VerdictOnTheWire(codec: Codec, r: Result<Message, FrameError>)
    ensures Verdict(codec, r).Accepted? <==>
              r.Ok? && r.value.msgType == 6 && codec.decodeAck(r.value.payload).Some?
    ensures Verdict(codec, r).Accepted? ==>
              Some(HandoverAck(codec.decodeAck(r.value.payload).value.sourceNodeId, Verdict(codec, r).ids))
              == codec.decodeAck(r.value.payload)
    ensures Verdict(codec, r) == Rejected <==>
              r.Ok? && r.value.msgType == 7 && codec.decodeNack(r.value.payload).Some?
  {
  }
}
