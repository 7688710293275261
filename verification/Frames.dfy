/** Frames: flags, frame types, headers and their 14-byte big-endian wire form
    (foctet-core/src/frame.rs). */
module Frames {
  import opened Seqs

  type byte = x: int | 0 <= x < 256
  type u32 = x: int | 0 <= x < 0x1_0000_0000

  const TWO32: int := 0x1_0000_0000
  const FRAME_HEADER_LEN: nat := 14

  datatype Option<+T> = None | Some(value: T)

  // ---------------------------------------------------------------- flags

  /** The seven known flag bits, bit 0 (REQUEST) to bit 6 (CLOSE). Bit 7 is unknown and
      is dropped whenever a byte is read. */
  datatype FrameFlags = FrameFlags(
    request: bool, response: bool, fragmented: bool, fin: bool,
    open: bool, reset: bool, close: bool)
  {
    /** `FrameFlags::bits`: REQUEST weighs 1, CLOSE weighs 64. */
    function Bits(): byte {
      Bit(request) + 2 * Bit(response) + 4 * Bit(fragmented) + 8 * Bit(fin)
      + 16 * Bit(open) + 32 * Bit(reset) + 64 * Bit(close)
    }

    /** `set_flag` / the `|` operator. */
    function Union(other: FrameFlags): FrameFlags {
      FrameFlags(request || other.request, response || other.response,
                 fragmented || other.fragmented, fin || other.fin,
                 open || other.open, reset || other.reset, close || other.close)
    }

    predicate IsOpenRequest() { this == REQUEST.Union(OPEN) }
    predicate IsOpenResponse() { this == RESPONSE.Union(OPEN) }
    predicate IsOpenReset() { this == RESPONSE.Union(OPEN).Union(RESET) }
    predicate IsCloseRequest() { this == REQUEST.Union(CLOSE) }
    predicate IsCloseResponse() { this == RESPONSE.Union(CLOSE) }
  }

  function Bit(b: bool): nat { if b then 1 else 0 }

  lemma Half(b: bool, k: nat)
    ensures (Bit(b) + 2 * k) / 2 == k && ((Bit(b) + 2 * k) % 2 == 1 <==> b)
  {
  }

  lemma BitOfHalf(x: nat)
    ensures Bit(x % 2 == 1) == x - 2 * (x / 2)
  {
  }

  const EMPTY := FrameFlags(false, false, false, false, false, false, false)
  const REQUEST := EMPTY.(request := true)
  const RESPONSE := EMPTY.(response := true)
  const OPEN := EMPTY.(open := true)
  const RESET := EMPTY.(reset := true)
  const CLOSE := EMPTY.(close := true)

  function OpenRequestFlags(): FrameFlags { EMPTY.Union(REQUEST).Union(OPEN) }
  function OpenResponseFlags(): FrameFlags { EMPTY.Union(RESPONSE).Union(OPEN) }
  function CloseRequestFlags(): FrameFlags { EMPTY.Union(REQUEST).Union(CLOSE) }

  /** `from_bits_truncate`: bit 7 is ignored. */
  function FlagsFromByte(b: byte): FrameFlags {
    var b1: int := b / 2;
    var b2 := b1 / 2;
    var b3 := b2 / 2;
    var b4 := b3 / 2;
    var b5 := b4 / 2;
    var b6 := b5 / 2;
    FrameFlags(b % 2 == 1, b1 % 2 == 1, b2 % 2 == 1, b3 % 2 == 1, b4 % 2 == 1, b5 % 2 == 1, b6 % 2 == 1)
  }

  lemma ReadBits(f: FrameFlags, b: byte, k1: int, k2: int, k3: int, k4: int, k5: int, k6: int)
    requires b / 2 == k1 && k1 / 2 == k2 && k2 / 2 == k3 && k3 / 2 == k4 && k4 / 2 == k5 && k5 / 2 == k6
    requires (b % 2 == 1 <==> f.request) && (k1 % 2 == 1 <==> f.response)
    requires (k2 % 2 == 1 <==> f.fragmented) && (k3 % 2 == 1 <==> f.fin)
    requires (k4 % 2 == 1 <==> f.open) && (k5 % 2 == 1 <==> f.reset) && (k6 % 2 == 1 <==> f.close)
    ensures FlagsFromByte(b) == f
  {
  }

  lemma FlagsRoundTrip(f: FrameFlags)
    ensures FlagsFromByte(f.Bits()) == f
  {
    var k6 := Bit(f.close);
    var k5 := Bit(f.reset) + 2 * k6;
    var k4 := Bit(f.open) + 2 * k5;
    var k3 := Bit(f.fin) + 2 * k4;
    var k2 := Bit(f.fragmented) + 2 * k3;
    var k1 := Bit(f.response) + 2 * k2;
    assert f.Bits() == Bit(f.request) + 2 * k1;
    Half(f.request, k1);
    Half(f.response, k2);
    Half(f.fragmented, k3);
    Half(f.fin, k4);
    Half(f.open, k5);
    Half(f.reset, k6);
    Half(f.close, 0);
    ReadBits(f, f.Bits(), k1, k2, k3, k4, k5, k6);
  }

  lemma SumOfBits(f: FrameFlags, b: int, b1: int, b2: int, b3: int, b4: int, b5: int, b6: int, b7: int)
    requires Bit(f.request) == b - 2 * b1 && Bit(f.response) == b1 - 2 * b2
    requires Bit(f.fragmented) == b2 - 2 * b3 && Bit(f.fin) == b3 - 2 * b4
    requires Bit(f.open) == b4 - 2 * b5 && Bit(f.reset) == b5 - 2 * b6
    requires Bit(f.close) == b6 - 2 * b7
    ensures f.Bits() == b % 128
  {
    assert f.Bits() == b - 128 * b7;
    assert 0 <= f.Bits() < 128;
  }

  /** Reading a flags byte and writing it back clears bit 7 and nothing else. */
  lemma TruncationClearsBit7(b: byte)
    ensures FlagsFromByte(b).Bits() == b % 128
  {
    var b1: int := b / 2;
    var b2 := b1 / 2;
    var b3 := b2 / 2;
    var b4 := b3 / 2;
    var b5 := b4 / 2;
    var b6 := b5 / 2;
    BitOfHalf(b);
    BitOfHalf(b1);
    BitOfHalf(b2);
    BitOfHalf(b3);
    BitOfHalf(b4);
    BitOfHalf(b5);
    BitOfHalf(b6);
    SumOfBits(FlagsFromByte(b), b, b1, b2, b3, b4, b5, b6, b6 / 2);
  }

  // ---------------------------------------------------------------- frame types

  datatype FrameType =
    Control | Data | Meta | FileMeta | FileData | ContentRequest | Reserved(code: byte)

  function TypeFromByte(b: byte): FrameType {
    match b
    case 0 => Control
    case 1 => Data
    case 2 => Meta
    case 3 => FileMeta
    case 4 => FileData
    case 5 => ContentRequest
    case _ => Reserved(b)
  }

  function TypeToByte(t: FrameType): byte {
    match t
    case Control => 0
    case Data => 1
    case Meta => 2
    case FileMeta => 3
    case FileData => 4
    case ContentRequest => 5
    case Reserved(code) => code
  }

  /** `Reserved(0..5)` shares its byte with a named type. */
  predicate CanonicalType(t: FrameType) { t.Reserved? ==> t.code > 5 }

  lemma TypeRoundTrip(t: FrameType)
    ensures TypeFromByte(TypeToByte(t)) == t <==> CanonicalType(t)
  {
  }

  lemma TypeByteRoundTrip(b: byte)
    ensures TypeToByte(TypeFromByte(b)) == b && CanonicalType(TypeFromByte(b))
  {
  }

  // ---------------------------------------------------------------- frames

  datatype FrameHeader = FrameHeader(
    streamId: u32, operationId: u32, flags: FrameFlags, frameType: FrameType, payloadLen: u32)

  datatype Frame = Frame(header: FrameHeader, payload: seq<byte>)

  /** `FrameHeader::empty`: what every `FrameBuilder` starts from. The builder never sets
      `payload_len`. */
  const EmptyHeader := FrameHeader(0, 0, EMPTY, Data, 0)

  function ControlFrame(id: u32, flags: FrameFlags): Frame {
    Frame(EmptyHeader.(streamId := id, flags := flags), [])
  }

  function DataFrame(id: u32, payload: seq<byte>): Frame {
    Frame(EmptyHeader.(streamId := id, frameType := Data), payload)
  }

  /** Frames whose encoding declares their true length and their true type. */
  predicate Encodable(f: Frame) {
    |f.payload| < TWO32 && CanonicalType(f.header.frameType)
  }

  /** The frame a receiver sees: as sent, with `payload_len` filled in from the wire. */
  function Received(f: Frame): Frame {
    f.(header := f.header.(payloadLen := |f.payload| % TWO32))
  }

  function ReceivedAll(fs: seq<Frame>): (r: seq<Frame>)
    ensures |r| == |fs|
    ensures forall k :: 0 <= k < |fs| ==> r[k] == Received(fs[k])
  {
    seq(|fs|, k requires 0 <= k < |fs| => Received(fs[k]))
  }

  // ---------------------------------------------------------------- wire form

  function PutU32(x: u32): (r: seq<byte>)
    ensures |r| == 4
  {
    [x / 0x100_0000, x / 0x1_0000 % 256, x / 256 % 256, x % 256]
  }

  function GetU32(s: seq<byte>): u32
    requires |s| == 4
  {
    var a: int, b: int, c: int, d: int := s[0], s[1], s[2], s[3];
    a * 0x100_0000 + b * 0x1_0000 + c * 256 + d
  }

  lemma U32RoundTrip(x: u32)
    ensures GetU32(PutU32(x)) == x
  {
    Shifts(x);
  }

  lemma BytesRoundTrip(s: seq<byte>)
    requires |s| == 4
    ensures PutU32(GetU32(s)) == s
  {
    var a: int, b: int, c: int, d: int := s[0], s[1], s[2], s[3];
    Digit(a * 0x1_0000 + b * 256 + c, d);
    Digit(a * 256 + b, c);
    Digit(a, b);
    Shifts(GetU32(s));
  }

  lemma Digit(q: int, d: int)
    requires 0 <= q && 0 <= d < 256
    ensures (q * 256 + d) / 256 == q && (q * 256 + d) % 256 == d
  {
  }

  lemma Shifts(x: int)
    requires 0 <= x
    ensures x / 0x1_0000 == x / 256 / 256 && x / 0x100_0000 == x / 256 / 256 / 256
  {
  }

  function PutHeader(h: FrameHeader, payloadLen: u32): (r: seq<byte>)
    ensures |r| == FRAME_HEADER_LEN
    ensures r[8] == h.flags.Bits()
  {
    PutU32(h.streamId) + PutU32(h.operationId) + [h.flags.Bits(), TypeToByte(h.frameType)]
    + PutU32(payloadLen)
  }

  function GetHeader(s: seq<byte>): FrameHeader
    requires |s| == FRAME_HEADER_LEN
  {
    FrameHeader(GetU32(s[0..4]), GetU32(s[4..8]), FlagsFromByte(s[8]), TypeFromByte(s[9]),
                GetU32(s[10..14]))
  }

  /** Both `Frame::to_bytes` and `FrameCodec::encode` write this; the length field is
      truncated to 32 bits. */
  function Encode(f: Frame): (r: seq<byte>)
    ensures |r| == FRAME_HEADER_LEN + |f.payload|
  {
    PutHeader(f.header, |f.payload| % TWO32) + f.payload
  }

  function EncodeAll(fs: seq<Frame>): seq<byte> {
    if fs == [] then [] else Encode(fs[0]) + EncodeAll(fs[1..])
  }

  /** The header that comes back is the header that went in, with the written length and
      with the type's canonical name. */
  lemma HeaderRoundTrip(h: FrameHeader, n: u32)
    ensures GetHeader(PutHeader(h, n))
         == h.(frameType := TypeFromByte(TypeToByte(h.frameType)), payloadLen := n)
  {
    var s := PutHeader(h, n);
    assert s[0..4] == PutU32(h.streamId);
    assert s[4..8] == PutU32(h.operationId);
    assert s[10..14] == PutU32(n);
    U32RoundTrip(h.streamId);
    U32RoundTrip(h.operationId);
    U32RoundTrip(n);
    FlagsRoundTrip(h.flags);
  }

  /** Re-encoding a parsed header changes bit 7 of byte 8 at most. */
  lemma HeaderBytesRoundTrip(s: seq<byte>)
    requires |s| == FRAME_HEADER_LEN
    ensures PutHeader(GetHeader(s), GetHeader(s).payloadLen) == s[8 := s[8] % 128]
    ensures CanonicalType(GetHeader(s).frameType)
  {
    BytesRoundTrip(s[0..4]);
    BytesRoundTrip(s[4..8]);
    BytesRoundTrip(s[10..14]);
    TruncationClearsBit7(s[8]);
    TypeByteRoundTrip(s[9]);
  }

  lemma {:induction false} EncodeAllAppend(fs: seq<Frame>, gs: seq<Frame>)
    ensures EncodeAll(fs + gs) == EncodeAll(fs) + EncodeAll(gs)
  {
    if fs == [] {
      AppendEmpty(gs);
      AppendEmpty(EncodeAll(gs));
    } else {
      Uncons(fs, gs);
      calc {
        EncodeAll(fs + gs);
        Encode(fs[0]) + EncodeAll(fs[1..] + gs);
        { EncodeAllAppend(fs[1..], gs); }
        Encode(fs[0]) + (EncodeAll(fs[1..]) + EncodeAll(gs));
        { Assoc(Encode(fs[0]), EncodeAll(fs[1..]), EncodeAll(gs)); }
        EncodeAll(fs) + EncodeAll(gs);
      }
    }
  }

  lemma ReceivedAllAppend(fs: seq<Frame>, gs: seq<Frame>)
    ensures ReceivedAll(fs + gs) == ReceivedAll(fs) + ReceivedAll(gs)
  {
  }

  // ---------------------------------------------------------------- the layout, byte by byte

  /** Four bytes hold `x`, the most significant first. */
  predicate BigEndian(b0: byte, b1: byte, b2: byte, b3: byte, x: int) {
    0x100_0000 * b0 + 0x1_0000 * b1 + 0x100 * b2 + b3 == x
  }

  lemma U32IsBigEndian(x: u32)
    ensures var s := PutU32(x); BigEndian(s[0], s[1], s[2], s[3], x)
  {
    U32RoundTrip(x);
  }

  /** Where each field of a frame is on the wire. */
  lemma WireLayout(f: Frame)
    ensures var (e, h) := (Encode(f), f.header);
            && |e| == 14 + |f.payload| && e[14..] == f.payload
            && BigEndian(e[0], e[1], e[2], e[3], h.streamId)
            && BigEndian(e[4], e[5], e[6], e[7], h.operationId)
            && BigEndian(e[10], e[11], e[12], e[13], |f.payload| % 0x1_0000_0000)
            && e[8] == h.flags.Bits() && e[9] == TypeToByte(h.frameType)
  {
    U32IsBigEndian(f.header.streamId);
    U32IsBigEndian(f.header.operationId);
    U32IsBigEndian(|f.payload| % TWO32);
  }

  /** And where a reader finds them. */
  lemma HeaderLayout(s: seq<byte>)
    requires |s| == 14
    ensures var h := GetHeader(s);
            && BigEndian(s[0], s[1], s[2], s[3], h.streamId)
            && BigEndian(s[4], s[5], s[6], s[7], h.operationId)
            && BigEndian(s[10], s[11], s[12], s[13], h.payloadLen)
            && h.flags == FlagsFromByte(s[8]) && h.frameType == TypeFromByte(s[9])
  {
  }

  /** Flag number `k` is bit `k` of the flags byte. */
  lemma FlagPositions(f: FrameFlags)
    ensures var b: int := f.Bits();
            && b < 128
            && (b % 2 == 1 <==> f.request) && (b / 2 % 2 == 1 <==> f.response)
            && (b / 4 % 2 == 1 <==> f.fragmented) && (b / 8 % 2 == 1 <==> f.fin)
            && (b / 16 % 2 == 1 <==> f.open) && (b / 32 % 2 == 1 <==> f.reset) && (b / 64 % 2 == 1 <==> f.close)
  {
    FlagsRoundTrip(f);
    Halvings(f.Bits());
  }

  lemma Halvings(b: int)
    requires 0 <= b < 256
    ensures b / 4 == b / 2 / 2 && b / 8 == b / 2 / 2 / 2 && b / 16 == b / 2 / 2 / 2 / 2
    ensures b / 32 == b / 2 / 2 / 2 / 2 / 2 && b / 64 == b / 2 / 2 / 2 / 2 / 2 / 2
  {
  }

  lemma SameBits(f: FrameFlags, g: FrameFlags)
    ensures f.Bits() == g.Bits() <==> f == g
  {
    FlagsRoundTrip(f);
    FlagsRoundTrip(g);
  }

  /** The bytes by which the five control frames are told apart. */
  lemma ControlBytes(f: FrameFlags)
    ensures f.IsOpenRequest() <==> f.Bits() == 0x11
    ensures f.IsOpenResponse() <==> f.Bits() == 0x12
    ensures f.IsOpenReset() <==> f.Bits() == 0x32
    ensures f.IsCloseRequest() <==> f.Bits() == 0x41
    ensures f.IsCloseResponse() <==> f.Bits() == 0x42
  {
    SameBits(f, REQUEST.Union(OPEN));
    SameBits(f, RESPONSE.Union(OPEN));
    SameBits(f, RESPONSE.Union(OPEN).Union(RESET));
    SameBits(f, REQUEST.Union(CLOSE));
    SameBits(f, RESPONSE.Union(CLOSE));
  }

  /** The type byte: the six named types are numbered from 0, any other byte stands for itself. */
  lemma TypeBytes(t: FrameType)
    ensures TypeToByte(t)
         == if t.Reserved? then t.code
            else if t == Control then 0 else if t == Data then 1 else if t == Meta then 2
            else if t == FileMeta then 3 else if t == FileData then 4 else 5
    ensures TypeFromByte(0) == Control && TypeFromByte(1) == Data && TypeFromByte(2) == Meta
    ensures TypeFromByte(3) == FileMeta && TypeFromByte(4) == FileData && TypeFromByte(5) == ContentRequest
  {
  }

  /** The session's own frames on the wire: the id, then ten more header bytes, of which only the
      flags and the type `Data` are not 0. */
  lemma SessionFrameBytes(id: u32, payload: seq<byte>)
    ensures var e := Encode(ControlFrame(id, OpenRequestFlags()));
            BigEndian(e[0], e[1], e[2], e[3], id) && e[4..] == [0, 0, 0, 0, 0x11, 1, 0, 0, 0, 0]
    ensures var e := Encode(ControlFrame(id, OpenResponseFlags()));
            BigEndian(e[0], e[1], e[2], e[3], id) && e[4..] == [0, 0, 0, 0, 0x12, 1, 0, 0, 0, 0]
    ensures var e := Encode(ControlFrame(id, CloseRequestFlags()));
            BigEndian(e[0], e[1], e[2], e[3], id) && e[4..] == [0, 0, 0, 0, 0x41, 1, 0, 0, 0, 0]
    ensures var e := Encode(DataFrame(id, payload));
            BigEndian(e[0], e[1], e[2], e[3], id) && e[4..10] == [0, 0, 0, 0, 0, 1] && e[14..] == payload
  {
    U32IsBigEndian(id);
    assert PutU32(0) == [0, 0, 0, 0];
    ControlFrameTail(id, OpenRequestFlags());
    ControlFrameTail(id, OpenResponseFlags());
    ControlFrameTail(id, CloseRequestFlags());
  }

  lemma ControlFrameTail(id: u32, flags: FrameFlags)
    ensures Encode(ControlFrame(id, flags))[..4] == PutU32(id)
    ensures Encode(ControlFrame(id, flags))[4..] == [0, 0, 0, 0, flags.Bits(), 1, 0, 0, 0, 0]
  {
    assert PutU32(0) == [0, 0, 0, 0];
  }
}
