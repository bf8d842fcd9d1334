/** The SGM-P2P wire format: a 16-byte big-endian header with a CRC-32 of the payload. */
module Framing {
  import opened Wrappers
  import opened Crc32

  const MAGIC_BYTES: seq<byte> := [0x53, 0x47, 0x4D, 0x31]
  const PROTOCOL_VERSION := 1
  const HEADER_SIZE := 16
  const MAX_PAYLOAD_SIZE := 16 * 1024 * 1024

  datatype FrameError =
    | WrongHeaderSize
    | BadMagic
    | PayloadTooLarge
    | FieldOutOfRange   // struct.error
    | TruncatedFrame
    | IncompleteRead    // the peer closed the stream
    | CrcMismatch
    | BadCompression    // zlib.error

  type uint32 = n: int | 0 <= n < 0x1_0000_0000

  /** What framing takes from zlib. */
  datatype Zlib = Zlib(compress: seq<byte> -> seq<byte>,
                       decompress: seq<byte> -> Option<seq<byte>>,
                       crc32: seq<byte> -> uint32)
  {
    ghost predicate Lossless() {
      forall data :: decompress(compress(data)) == Some(data)
    }

    /** crc32 is the checksum of RFC 1952. */
    ghost predicate ChecksIntegrity() {
      forall data :: crc32(data) == Crc(data) as int
    }
  }

  datatype Header = Header(version: int, msgType: int, flags: int, length: nat, checksum: nat)

  datatype Message = Message(msgType: int, flags: int, payload: seq<byte>)

  // ---------------------------------------------------------------------
  // Big-endian fields
  // ---------------------------------------------------------------------

  function BigEndian(n: int, width: nat): (bytes: seq<byte>)
    requires n >= 0
    ensures |bytes| == width
    decreases width
  {
    if width == 0 then [] else BigEndian(n / 0x100, width - 1) + [n % 0x100]
  }

  function FromBigEndian(bytes: seq<byte>): (n: nat)
  {
    if bytes == [] then 0 else 0x100 * FromBigEndian(bytes[..|bytes| - 1]) + bytes[|bytes| - 1]
  }

  function Bound(width: nat): (n: int)
    ensures n > 0
  {
    if width == 0 then 1 else 0x100 * Bound(width - 1)
  }

  lemma {:induction false} EncodedField(n: int, width: nat)
    requires 0 <= n < Bound(width)
    ensures FromBigEndian(BigEndian(n, width)) == n
  {
    if width > 0 {
      EncodedField(n / 0x100, width - 1);
      var bytes := BigEndian(n, width);
      assert bytes[..width - 1] == BigEndian(n / 0x100, width - 1);
    }
  }

  lemma DigitsOf(q: nat, r: nat)
    requires r < 0x100
    ensures (0x100 * q + r) / 0x100 == q && (0x100 * q + r) % 0x100 == r
  {
  }

  lemma {:induction false} DecodedField(bytes: seq<byte>)
    ensures FromBigEndian(bytes) < Bound(|bytes|)
    ensures BigEndian(FromBigEndian(bytes), |bytes|) == bytes
  {
    if bytes != [] {
      var last := |bytes| - 1;
      DecodedField(bytes[..last]);
      DigitsOf(FromBigEndian(bytes[..last]), bytes[last]);
      assert bytes == bytes[..last] + [bytes[last]];
    }
  }

  lemma Bounds()
    ensures Bound(1) == 0x100 && Bound(2) == 0x1_0000 && Bound(4) == 0x1_0000_0000
  {
    assert Bound(3) == 0x100_0000;
  }

  // ---------------------------------------------------------------------
  // Headers
  // ---------------------------------------------------------------------

  predicate FieldsInRange(h: Header) {
    && 0 <= h.version < 0x100
    && 0 <= h.msgType < 0x100
    && 0 <= h.flags < 0x1_0000
    && h.length < 0x1_0000_0000
    && h.checksum < 0x1_0000_0000
  }

  predicate ValidHeader(h: Header) {
    FieldsInRange(h) && h.length <= MAX_PAYLOAD_SIZE
  }

  /** struct.pack("!4sBBHII", ...) */
  function PackHeader(h: Header): (bytes: seq<byte>)
    requires FieldsInRange(h)
    ensures |bytes| == HEADER_SIZE
  {
    MAGIC_BYTES + BigEndian(h.version, 1) + BigEndian(h.msgType, 1) + BigEndian(h.flags, 2)
    + BigEndian(h.length, 4) + BigEndian(h.checksum, 4)
  }

  function UnpackFrameHeader(bytes: seq<byte>): (r: Result<Header, FrameError>)
    ensures r.Err? ==> r.error == WrongHeaderSize || r.error == BadMagic || r.error == PayloadTooLarge
  {
    if |bytes| != HEADER_SIZE then Err(WrongHeaderSize)
    else if bytes[..4] != MAGIC_BYTES then Err(BadMagic)
    else
      var h := Header(FromBigEndian(bytes[4..5]), FromBigEndian(bytes[5..6]), FromBigEndian(bytes[6..8]),
                      FromBigEndian(bytes[8..12]), FromBigEndian(bytes[12..16]));
      if h.length > MAX_PAYLOAD_SIZE then Err(PayloadTooLarge) else Ok(h)
  }

  /** Decoding undoes encoding; an encoded header is refused only for its declared length. */
  lemma HeaderRoundTrip(h: Header)
    requires FieldsInRange(h)
    ensures UnpackFrameHeader(PackHeader(h)) == if ValidHeader(h) then Ok(h) else Err(PayloadTooLarge)
  {
    hide BigEndian, FromBigEndian, Bound;
    var b := PackHeader(h);
    assert b[..4] == MAGIC_BYTES;
    assert b[4..5] == BigEndian(h.version, 1);
    assert b[5..6] == BigEndian(h.msgType, 1);
    assert b[6..8] == BigEndian(h.flags, 2);
    assert b[8..12] == BigEndian(h.length, 4);
    assert b[12..16] == BigEndian(h.checksum, 4);
    Bounds();
    EncodedField(h.version, 1);
    EncodedField(h.msgType, 1);
    EncodedField(h.flags, 2);
    EncodedField(h.length, 4);
    EncodedField(h.checksum, 4);
  }

  /** Encoding undoes decoding: no two byte strings decode to the same header. */
  lemma HeaderCanonical(bytes: seq<byte>)
    requires UnpackFrameHeader(bytes).Ok?
    ensures ValidHeader(UnpackFrameHeader(bytes).value)
    ensures PackHeader(UnpackFrameHeader(bytes).value) == bytes
  {
    hide BigEndian, FromBigEndian, Bound;
    Bounds();
    DecodedField(bytes[4..5]);
    DecodedField(bytes[5..6]);
    DecodedField(bytes[6..8]);
    DecodedField(bytes[8..12]);
    DecodedField(bytes[12..16]);
    assert bytes == bytes[..4] + bytes[4..5] + bytes[5..6] + bytes[6..8] + bytes[8..12] + bytes[12..16];
  }

  // ---------------------------------------------------------------------
  // Frames
  // ---------------------------------------------------------------------

  lemma ChecksumDetects(z: Zlib, sent: seq<byte>, received: seq<byte>)
    requires z.ChecksIntegrity()
    requires WithinBurst(sent, received)
    ensures z.crc32(sent) == z.crc32(received) <==> sent == received
  {
    hide Crc, WithinBurst;
    BurstDetected(sent, received);
    assert (Crc(sent) as int) as bv32 == Crc(sent);
    assert (Crc(received) as int) as bv32 == Crc(received);
  }

  predicate IsCompressed(flags: int) {
    flags % 2 == 1
  }

  function SetCompressed(flags: int): int {
    if IsCompressed(flags) then flags else flags + 1
  }

  /** Whether pack_frame puts the compressed form on the wire. */
  predicate Shrinks(z: Zlib, payload: seq<byte>, compress: bool) {
    compress && |payload| > 64 && |z.compress(payload)| < |payload|
  }

  function WirePayload(z: Zlib, payload: seq<byte>, compress: bool): seq<byte> {
    if Shrinks(z, payload, compress) then z.compress(payload) else payload
  }

  function WireFlags(z: Zlib, payload: seq<byte>, flags: int, compress: bool): int {
    if Shrinks(z, payload, compress) then SetCompressed(flags) else flags
  }

  function HeaderFor(z: Zlib, version: int, msgType: int, flags: int, wire: seq<byte>): Header {
    Header(version, msgType, flags, |wire|, z.crc32(wire))
  }

  function PackFrame(z: Zlib, msgType: int, payload: seq<byte>, flags: int, version: int, compress: bool)
    : (r: Result<seq<byte>, FrameError>)
  {
    var wire := WirePayload(z, payload, compress);
    var h := HeaderFor(z, version, msgType, WireFlags(z, payload, flags, compress), wire);
    if |wire| > MAX_PAYLOAD_SIZE then Err(PayloadTooLarge)
    else if !FieldsInRange(h) then Err(FieldOutOfRange)
    else Ok(PackHeader(h) + wire)
  }

  /** The part of unpacking that looks at the payload: checksum first, then decompression. */
  function CheckPayload(z: Zlib, h: Header, payload: seq<byte>): (r: Result<Message, FrameError>)
    ensures r.Err? ==> r.error == CrcMismatch || r.error == BadCompression
  {
    if z.crc32(payload) != h.checksum then Err(CrcMismatch)
    else if IsCompressed(h.flags) then
      match z.decompress(payload)
      case Some(data) => Ok(Message(h.msgType, h.flags, data))
      case None => Err(BadCompression)
    else Ok(Message(h.msgType, h.flags, payload))
  }

  function UnpackFrame(z: Zlib, raw: seq<byte>): (r: Result<Message, FrameError>) {
    if |raw| < HEADER_SIZE then Err(TruncatedFrame)
    else
      match UnpackFrameHeader(raw[..HEADER_SIZE])
      case Err(e) => Err(e)
      case Ok(h) =>
        var total := HEADER_SIZE + h.length;
        if |raw| < total then Err(TruncatedFrame)
        else CheckPayload(z, h, raw[HEADER_SIZE..total])
  }

  /** Reading one frame off a stream: the outcome and the bytes left unread. A stream that ends
      inside the frame is used up, as StreamReader.readexactly leaves it. */
  function ReadFrame(z: Zlib, stream: seq<byte>): (r: (Result<Message, FrameError>, seq<byte>))
    ensures |r.1| <= |stream|
    ensures r.0 != Err(IncompleteRead) ==> |r.1| < |stream|
  {
    if |stream| < HEADER_SIZE then (Err(IncompleteRead), [])
    else
      match UnpackFrameHeader(stream[..HEADER_SIZE])
      case Err(e) => (Err(e), stream[HEADER_SIZE..])
      case Ok(h) =>
        var total := HEADER_SIZE + h.length;
        if |stream| < total then (Err(IncompleteRead), [])
        else (CheckPayload(z, h, stream[HEADER_SIZE..total]), stream[total..])
  }

  /** What a receiver makes of a frame that was packed with these arguments. */
  function Received(z: Zlib, msgType: int, payload: seq<byte>, flags: int, compress: bool)
    : Result<Message, FrameError>
  {
    var wireFlags := WireFlags(z, payload, flags, compress);
    if Shrinks(z, payload, compress) || !IsCompressed(flags) then Ok(Message(msgType, wireFlags, payload))
    else
      match z.decompress(payload)
      case Some(data) => Ok(Message(msgType, wireFlags, data))
      case None => Err(BadCompression)
  }

  lemma FrameParts(h: Header, wire: seq<byte>, rest: seq<byte>)
    requires ValidHeader(h) && h.length == |wire|
    ensures var raw := PackHeader(h) + wire + rest;
            && |raw| >= HEADER_SIZE + h.length
            && UnpackFrameHeader(raw[..HEADER_SIZE]) == Ok(h)
            && raw[HEADER_SIZE..HEADER_SIZE + h.length] == wire
            && raw[HEADER_SIZE + h.length..] == rest
  {
    hide PackHeader, UnpackFrameHeader;
    var raw := PackHeader(h) + wire + rest;
    assert raw[..HEADER_SIZE] == PackHeader(h);
    HeaderRoundTrip(h);
  }

  /** Both readers agree with what was packed, whatever bytes follow; the stream reader stops exactly
      behind the frame. Losslessness of zlib is used only for frames that were really compressed. */
  lemma FrameRoundTrip(z: Zlib, msgType: int, payload: seq<byte>, flags: int, version: int, compress: bool,
                       rest: seq<byte>)
    requires z.Lossless()
    requires PackFrame(z, msgType, payload, flags, version, compress).Ok?
    ensures var frame := PackFrame(z, msgType, payload, flags, version, compress).value;
            && UnpackFrame(z, frame + rest) == Received(z, msgType, payload, flags, compress)
            && ReadFrame(z, frame + rest) == (Received(z, msgType, payload, flags, compress), rest)
  {
    hide PackHeader, UnpackFrameHeader;
    var wire := WirePayload(z, payload, compress);
    var h := HeaderFor(z, version, msgType, WireFlags(z, payload, flags, compress), wire);
    FrameParts(h, wire, rest);
    assert z.decompress(z.compress(payload)) == Some(payload);
  }

  /** No proper prefix of a frame decodes. */
  lemma NoPrefixDecodes(z: Zlib, msgType: int, payload: seq<byte>, flags: int, version: int, compress: bool, k: nat)
    requires PackFrame(z, msgType, payload, flags, version, compress).Ok?
    requires k < |PackFrame(z, msgType, payload, flags, version, compress).value|
    ensures var prefix := PackFrame(z, msgType, payload, flags, version, compress).value[..k];
            && UnpackFrame(z, prefix) == Err(TruncatedFrame)
            && ReadFrame(z, prefix) == (Err(IncompleteRead), [])
  {
    hide PackHeader, UnpackFrameHeader;
    var wire := WirePayload(z, payload, compress);
    var h := HeaderFor(z, version, msgType, WireFlags(z, payload, flags, compress), wire);
    var prefix := (PackHeader(h) + wire)[..k];
    if k >= HEADER_SIZE {
      assert prefix[..HEADER_SIZE] == PackHeader(h);
      HeaderRoundTrip(h);
    }
  }

  /** The one-shot decoder and the stream reader accept the same frames with the same outcome. */
  lemma ReadersAgree(z: Zlib, raw: seq<byte>)
    ensures var u := UnpackFrame(z, raw); var s := ReadFrame(z, raw).0;
            if u == Err(TruncatedFrame) then s == Err(IncompleteRead) else s == u
  {
    hide CheckPayload, FromBigEndian;
  }

  // ---------------------------------------------------------------------
  // Corruption of the payload
  // ---------------------------------------------------------------------

  /** A frame whose payload was replaced on the way; the header arrived as sent. */
  function Tampered(frame: seq<byte>, payload: seq<byte>): seq<byte>
    requires |frame| >= HEADER_SIZE
  {
    frame[..HEADER_SIZE] + payload
  }

  lemma PackedLength(z: Zlib, msgType: int, payload: seq<byte>, flags: int, version: int, compress: bool)
    requires PackFrame(z, msgType, payload, flags, version, compress).Ok?
    ensures var frame := PackFrame(z, msgType, payload, flags, version, compress).value;
            && |frame| >= HEADER_SIZE
            && frame[HEADER_SIZE..] == WirePayload(z, payload, compress)
            && forall p :: Tampered(frame, p)
                        == PackHeader(HeaderFor(z, version, msgType, WireFlags(z, payload, flags, compress),
                                                WirePayload(z, payload, compress))) + p
  {
    hide PackHeader;
  }

  /** A payload of the same length with another checksum makes both readers raise the CRC error, and the
      stream reader stays in step: the next frame starts where this one ends. */
  lemma TamperedRead(z: Zlib, msgType: int, payload: seq<byte>, flags: int, version: int, compress: bool,
                     received: seq<byte>, rest: seq<byte>)
    requires PackFrame(z, msgType, payload, flags, version, compress).Ok?
    requires |received| == |WirePayload(z, payload, compress)|
    requires z.crc32(received) != z.crc32(WirePayload(z, payload, compress))
    ensures |PackFrame(z, msgType, payload, flags, version, compress).value| >= HEADER_SIZE
    ensures var frame := PackFrame(z, msgType, payload, flags, version, compress).value;
            && UnpackFrame(z, Tampered(frame, received) + rest) == Err(CrcMismatch)
            && ReadFrame(z, Tampered(frame, received) + rest) == (Err(CrcMismatch), rest)
  {
    hide PackHeader, UnpackFrameHeader;
    PackedLength(z, msgType, payload, flags, version, compress);
    var wire := WirePayload(z, payload, compress);
    var h := HeaderFor(z, version, msgType, WireFlags(z, payload, flags, compress), wire);
    FrameParts(h, received, rest);
  }

  /** Every error burst of at most 32 bits in the payload is such a change. */
  lemma CorruptionDetected(z: Zlib, msgType: int, payload: seq<byte>, flags: int, version: int, compress: bool,
                           received: seq<byte>, rest: seq<byte>)
    requires z.ChecksIntegrity()
    requires PackFrame(z, msgType, payload, flags, version, compress).Ok?
    requires WithinBurst(WirePayload(z, payload, compress), received)
    requires received != WirePayload(z, payload, compress)
    ensures |PackFrame(z, msgType, payload, flags, version, compress).value| >= HEADER_SIZE
    ensures var frame := PackFrame(z, msgType, payload, flags, version, compress).value;
            && UnpackFrame(z, Tampered(frame, received) + rest) == Err(CrcMismatch)
            && ReadFrame(z, Tampered(frame, received) + rest) == (Err(CrcMismatch), rest)
  {
    hide PackFrame, UnpackFrame, ReadFrame, WithinBurst;
    BurstKeepsLength(WirePayload(z, payload, compress), received);
    ChecksumDetects(z, WirePayload(z, payload, compress), received);
    TamperedRead(z, msgType, payload, flags, version, compress, received, rest);
  }

  // ---------------------------------------------------------------------
  // Streams of frames
  // ---------------------------------------------------------------------

  /** One call of write_frame_async. */
  datatype Outgoing = Outgoing(msgType: int, payload: seq<byte>, flags: int, compress: bool)

  function FrameOf(z: Zlib, m: Outgoing): Result<seq<byte>, FrameError> {
    PackFrame(z, m.msgType, m.payload, m.flags, PROTOCOL_VERSION, m.compress)
  }

  predicate Packable(z: Zlib, ms: seq<Outgoing>) {
    forall m :: m in ms ==> FrameOf(z, m).Ok?
  }

  function Concatenated(z: Zlib, ms: seq<Outgoing>): seq<byte>
    requires Packable(z, ms)
  {
    if ms == [] then [] else FrameOf(z, ms[0]).value + Concatenated(z, ms[1..])
  }

  function ReceivedAll(z: Zlib, ms: seq<Outgoing>): seq<Result<Message, FrameError>> {
    seq(|ms|, i requires 0 <= i < |ms| => Received(z, ms[i].msgType, ms[i].payload, ms[i].flags, ms[i].compress))
  }

  /** The outcomes of n successive reads and the bytes left unread. */
  function ReadFrames(z: Zlib, stream: seq<byte>, n: nat): (seq<Result<Message, FrameError>>, seq<byte>)
    decreases n
  {
    if n == 0 then ([], stream)
    else
      var (first, rest) := ReadFrame(z, stream);
      var (others, unread) := ReadFrames(z, rest, n - 1);
      ([first] + others, unread)
  }

  /** The frame stream delimits itself: reading any concatenation of frames yields those messages in order
      and leaves exactly the bytes behind the last frame. */
  lemma {:induction false} StreamRoundTrip(z: Zlib, ms: seq<Outgoing>, rest: seq<byte>)
    requires z.Lossless()
    requires Packable(z, ms)
    ensures ReadFrames(z, Concatenated(z, ms) + rest, |ms|) == (ReceivedAll(z, ms), rest)
    decreases |ms|
  {
    hide PackFrame, ReadFrame, Received, UnpackFrame;
    if ms == [] {
      assert Concatenated(z, ms) + rest == rest;
    } else {
      var m := ms[0];
      var behind := Concatenated(z, ms[1..]) + rest;
      assert Concatenated(z, ms) + rest == FrameOf(z, m).value + behind;
      FrameRoundTrip(z, m.msgType, m.payload, m.flags, PROTOCOL_VERSION, m.compress, behind);
      StreamRoundTrip(z, ms[1..], rest);
      assert ReceivedAll(z, ms) == [ReceivedAll(z, ms)[0]] + ReceivedAll(z, ms[1..]);
    }
  }

  /** asyncio.StreamReader over a connection: `unread` is what the peer still delivers before it closes. */
  class StreamReader {
    var unread: seq<byte>

    constructor (bytes: seq<byte>)
      ensures unread == bytes
    {
      unread := bytes;
    }

    method ReadExactly(n: nat) returns (r: Result<seq<byte>, FrameError>)
      modifies this
      ensures if n <= old(|unread|) then r == Ok(old(unread)[..n]) && unread == old(unread)[n..]
              else r == Err(IncompleteRead) && unread == []
    {
      if n <= |unread| {
        r := Ok(unread[..n]);
        unread := unread[n..];
      } else {
        r := Err(IncompleteRead);
        unread := [];
      }
    }

    /** read_frame_async */
    method ReadFrameAsync(z: Zlib) returns (r: Result<Message, FrameError>)
      modifies this
      ensures (r, unread) == ReadFrame(z, old(unread))
    {
      hide UnpackFrameHeader, CheckPayload;
      var headerBytes := ReadExactly(HEADER_SIZE);
      if headerBytes.Err? {
        return Err(headerBytes.error);
      }
      var header := UnpackFrameHeader(headerBytes.value);
      if header.Err? {
        return Err(header.error);
      }
      var payload: seq<byte> := [];
      if header.value.length > 0 {
        var read := ReadExactly(header.value.length);
        if read.Err? {
          return Err(read.error);
        }
        payload := read.value;
      }
      r := CheckPayload(z, header.value, payload);
      assert payload == old(unread)[HEADER_SIZE..HEADER_SIZE + header.value.length];
    }
  }

  class StreamWriter {
    var sent: seq<byte>

    constructor ()
      ensures sent == []
    {
      sent := [];
    }

    /** write_frame_async: nothing reaches the stream when packing fails. */
    method WriteFrameAsync(z: Zlib, m: Outgoing) returns (r: Result<(), FrameError>)
      modifies this
      ensures match FrameOf(z, m)
              case Ok(frame) => r == Ok(()) && sent == old(sent) + frame
              case Err(e) => r == Err(e) && sent == old(sent)
    {
      hide PackFrame;
      var frame := PackFrame(z, m.msgType, m.payload, m.flags, PROTOCOL_VERSION, m.compress);
      if frame.Err? {
        return Err(frame.error);
      }
      sent := sent + frame.value;
      r := Ok(());
    }
  }
}
