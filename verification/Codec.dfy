/** The incremental frame codec (foctet-core/src/codec.rs) and the one-shot parser
    (foctet-core/src/frame.rs). */
module Codec {
  import opened Frames
  import opened Seqs

  datatype DecodeState =
    | ReadingHeader
    | ReadingPayload(header: FrameHeader, remaining: nat)

  /** What one call of `decode` returns, and what it leaves behind. */
  datatype Decoded = Decoded(frame: Option<Frame>, state: DecodeState, rest: seq<byte>)

  /** What calling `decode` until it returns nothing yields. */
  datatype Drained = Drained(frames: seq<Frame>, state: DecodeState, rest: seq<byte>)

  // ---------------------------------------------------------------- specification

  function TakePayload(h: FrameHeader, n: nat, src: seq<byte>): Decoded {
    if |src| < n then Decoded(None, ReadingPayload(h, n), src)
    else Decoded(Some(Frame(h, src[..n])), ReadingHeader, src[n..])
  }

  function TakeHeader(src: seq<byte>): FrameHeader
    requires |src| >= FRAME_HEADER_LEN
  {
    GetHeader(src[..FRAME_HEADER_LEN])
  }

  function DecodeOne(st: DecodeState, src: seq<byte>): Decoded {
    match st
    case ReadingPayload(h, n) => TakePayload(h, n, src)
    case ReadingHeader =>
      if |src| < FRAME_HEADER_LEN then Decoded(None, ReadingHeader, src)
      else TakePayload(TakeHeader(src), TakeHeader(src).payloadLen, src[FRAME_HEADER_LEN..])
  }

  function Drain(st: DecodeState, src: seq<byte>): Drained
    decreases |src|, if st.ReadingPayload? then 1 else 0
  {
    var one := DecodeOne(st, src);
    match one.frame
    case None => Drained([], one.state, one.rest)
    case Some(f) =>
      var more := Drain(one.state, one.rest);
      Drained([f] + more.frames, more.state, more.rest)
  }

  function Then(x: Drained, y: Drained): Drained {
    Drained(x.frames + y.frames, y.state, y.rest)
  }

  /** Reading a byte string that arrives in pieces. */
  function Feed(st: DecodeState, buffer: seq<byte>, cuts: seq<seq<byte>>): Drained
    decreases |cuts|
  {
    if cuts == [] then Drained([], st, buffer)
    else
      var x := Drain(st, buffer + cuts[0]);
      Then(x, Feed(x.state, x.rest, cuts[1..]))
  }

  function Flatten(pieces: seq<seq<byte>>): seq<byte> {
    if pieces == [] then [] else pieces[0] + Flatten(pieces[1..])
  }

  /** `Frame::from_bytes`: everything after the header is payload, whatever length the
      header declares. */
  function ParseWhole(bytes: seq<byte>): Option<Frame> {
    if |bytes| < FRAME_HEADER_LEN then None
    else Some(Frame(TakeHeader(bytes), bytes[FRAME_HEADER_LEN..]))
  }

  /** Where a fresh decoder and the one-shot parser find the fields of a frame. */
  lemma DecodedLayout(src: seq<byte>)
    requires |src| >= 14
    ensures ParseWhole(src).Some?
    ensures var f := ParseWhole(src).value;
            && BigEndian(src[0], src[1], src[2], src[3], f.header.streamId)
            && BigEndian(src[4], src[5], src[6], src[7], f.header.operationId)
            && BigEndian(src[10], src[11], src[12], src[13], f.header.payloadLen)
            && f.header.flags.Bits() == src[8] % 128 && TypeToByte(f.header.frameType) == src[9]
            && f.payload == src[14..]
    ensures var (d, h) := (DecodeOne(ReadingHeader, src), ParseWhole(src).value.header);
            if 14 + h.payloadLen <= |src|
            then d == Decoded(Some(Frame(h, src[14..14 + h.payloadLen])), ReadingHeader, src[14 + h.payloadLen..])
            else d == Decoded(None, ReadingPayload(h, h.payloadLen), src[14..])
  {
    HeaderLayout(src[..14]);
    TruncationClearsBit7(src[8]);
    TypeByteRoundTrip(src[9]);
    var n := TakeHeader(src).payloadLen;
    if 14 + n <= |src| {
      DropDrop(src, 14, n);
      assert src[14..][..n] == src[14..14 + n];
    }
  }

  // ---------------------------------------------------------------- read boundaries

  /** More bytes do not change a frame that was already complete. */
  lemma DecodeMore(st: DecodeState, a: seq<byte>, b: seq<byte>)
    requires DecodeOne(st, a).frame.Some?
    ensures DecodeOne(st, a + b) == DecodeOne(st, a).(rest := DecodeOne(st, a).rest + b)
  {
    if st.ReadingHeader? {
      assert (a + b)[..FRAME_HEADER_LEN] == a[..FRAME_HEADER_LEN];
      var n := TakeHeader(a).payloadLen;
      var p, q := a[FRAME_HEADER_LEN..], (a + b)[FRAME_HEADER_LEN..];
      assert q == p + b;
      assert q[..n] == p[..n] && q[n..] == p[n..] + b;
    } else {
      var n := st.remaining;
      assert (a + b)[..n] == a[..n] && (a + b)[n..] == a[n..] + b;
    }
  }

  /** A call that returns nothing can be forgotten: the next call resumes from where it
      stopped, even inside a header or a payload. */
  lemma DecodeResumes(st: DecodeState, a: seq<byte>, b: seq<byte>)
    requires DecodeOne(st, a).frame.None?
    ensures DecodeOne(st, a + b) == DecodeOne(DecodeOne(st, a).state, DecodeOne(st, a).rest + b)
  {
    if st.ReadingHeader? && |a| >= FRAME_HEADER_LEN {
      assert (a + b)[..FRAME_HEADER_LEN] == a[..FRAME_HEADER_LEN];
      assert (a + b)[FRAME_HEADER_LEN..] == a[FRAME_HEADER_LEN..] + b;
    }
  }

  lemma {:induction false} DrainSplit(st: DecodeState, a: seq<byte>, b: seq<byte>)
    ensures Drain(st, a + b) == Then(Drain(st, a), Drain(Drain(st, a).state, Drain(st, a).rest + b))
    decreases |a|, if st.ReadingPayload? then 1 else 0
  {
    var one := DecodeOne(st, a);
    if one.frame.None? {
      DecodeResumes(st, a, b);
      AppendEmpty(Drain(st, a + b).frames);
    } else {
      DecodeMore(st, a, b);
      DrainSplit(one.state, one.rest, b);
      var x := Drain(one.state, one.rest);
      Assoc([one.frame.value], x.frames, Drain(x.state, x.rest + b).frames);
    }
  }

  /** Nothing complete is waiting: what a reader looks like between reads. */
  predicate Quiescent(st: DecodeState, buffer: seq<byte>) {
    Drain(st, buffer) == Drained([], st, buffer)
  }

  lemma {:induction false} DrainLeavesQuiescent(st: DecodeState, src: seq<byte>)
    ensures Quiescent(Drain(st, src).state, Drain(st, src).rest)
    decreases |src|, if st.ReadingPayload? then 1 else 0
  {
    var one := DecodeOne(st, src);
    if one.frame.Some? {
      DrainLeavesQuiescent(one.state, one.rest);
    }
  }

  /** However the bytes are cut into reads, the reader ends with the frames, the decode
      state and the leftover bytes of reading them all at once. */
  lemma {:induction false} ChunkingIndependence(st: DecodeState, buffer: seq<byte>, cuts: seq<seq<byte>>)
    requires Quiescent(st, buffer)
    ensures Feed(st, buffer, cuts) == Drain(st, buffer + Flatten(cuts))
    decreases |cuts|
  {
    if cuts == [] {
      AppendEmpty(buffer);
    } else {
      var head, tail := buffer + cuts[0], Flatten(cuts[1..]);
      var x := Drain(st, head);
      DrainLeavesQuiescent(st, head);
      ChunkingIndependence(x.state, x.rest, cuts[1..]);
      DrainSplit(st, head, tail);
      Assoc(buffer, cuts[0], tail);
    }
  }

  /** Two ways of cutting the same bytes cannot be told apart. */
  lemma SameBytesSameFrames(cuts: seq<seq<byte>>, otherCuts: seq<seq<byte>>)
    requires Flatten(cuts) == Flatten(otherCuts)
    ensures Feed(ReadingHeader, [], cuts) == Feed(ReadingHeader, [], otherCuts)
  {
    ChunkingIndependence(ReadingHeader, [], cuts);
    ChunkingIndependence(ReadingHeader, [], otherCuts);
  }

  // ---------------------------------------------------------------- round trips

  /** The frame that the written type byte and length field describe. */
  function AsDeclared(f: Frame): Frame {
    var n := |f.payload| % TWO32;
    Frame(f.header.(frameType := TypeFromByte(TypeToByte(f.header.frameType)), payloadLen := n), f.payload[..n])
  }

  /** What a decoder makes of one encoded frame: the length field holds only 32 bits, so
      the payload is cut there and the remainder is read as the next frame. */
  lemma DecodeEncoded(f: Frame, tail: seq<byte>)
    ensures DecodeOne(ReadingHeader, Encode(f) + tail)
         == Decoded(Some(AsDeclared(f)), ReadingHeader, f.payload[|f.payload| % TWO32..] + tail)
  {
    var n := |f.payload| % TWO32;
    var head := PutHeader(f.header, n);
    HeaderRoundTrip(f.header, n);
    var src := Encode(f) + tail;
    Assoc(head, f.payload, tail);
    Concat(head, f.payload + tail);
    assert src[..FRAME_HEADER_LEN] == head;
    assert src[FRAME_HEADER_LEN..] == f.payload + tail;
    assert (f.payload + tail)[..n] == f.payload[..n];
    assert (f.payload + tail)[n..] == f.payload[n..] + tail;
  }

  lemma DecodeEncodable(f: Frame, tail: seq<byte>)
    requires Encodable(f)
    ensures DecodeOne(ReadingHeader, Encode(f) + tail) == Decoded(Some(Received(f)), ReadingHeader, tail)
  {
    DecodeEncoded(f, tail);
    TypeRoundTrip(f.header.frameType);
    assert f.payload[..|f.payload|] == f.payload;
    assert f.payload[|f.payload|..] + tail == tail;
  }

  lemma {:induction false} DecodeSequence(fs: seq<Frame>, tail: seq<byte>)
    requires forall f :: f in fs ==> Encodable(f)
    ensures Drain(ReadingHeader, EncodeAll(fs) + tail)
         == Then(Drained(ReceivedAll(fs), ReadingHeader, []), Drain(ReadingHeader, tail))
  {
    var last := Drain(ReadingHeader, tail);
    if fs == [] {
      AppendEmpty(tail);
      AppendEmpty(last.frames);
    } else {
      var rest := EncodeAll(fs[1..]) + tail;
      Assoc(Encode(fs[0]), EncodeAll(fs[1..]), tail);
      DecodeEncodable(fs[0], rest);
      DecodeSequence(fs[1..], tail);
      Assoc([Received(fs[0])], ReceivedAll(fs[1..]), last.frames);
      assert ReceivedAll(fs) == [Received(fs[0])] + ReceivedAll(fs[1..]);
    }
  }

  ghost predicate RoundTrips(fs: seq<Frame>) {
    Drain(ReadingHeader, EncodeAll(fs)) == Drained(ReceivedAll(fs), ReadingHeader, [])
  }

  lemma SequenceRoundTrip(fs: seq<Frame>)
    requires forall f :: f in fs ==> Encodable(f)
    ensures RoundTrips(fs)
  {
    DecodeSequence(fs, []);
    AppendEmpty(EncodeAll(fs));
    AppendEmpty(ReceivedAll(fs));
  }

  /** The first frame that declares the wrong length or the wrong type spoils the list. */
  lemma {:induction false} OnlyEncodableRoundTrips(fs: seq<Frame>)
    requires RoundTrips(fs)
    ensures forall f :: f in fs ==> Encodable(f)
  {
    if fs != [] {
      var f, rest := fs[0], EncodeAll(fs[1..]);
      DecodeEncoded(f, rest);
      TypeRoundTrip(f.header.frameType);
      var one := DecodeOne(ReadingHeader, EncodeAll(fs));
      assert ReceivedAll(fs)[0] == Received(f);
      assert one.frame == Some(Received(f));
      assert |one.frame.value.payload| == |f.payload| % TWO32;
      assert Encodable(f);
      DecodeEncodable(f, rest);
      var more := Drain(ReadingHeader, rest);
      assert [Received(f)] + more.frames == ReceivedAll(fs);
      assert more.frames == ReceivedAll(fs)[1..];
      assert ReceivedAll(fs)[1..] == ReceivedAll(fs[1..]);
      OnlyEncodableRoundTrips(fs[1..]);
    }
  }

  /** A frame list survives the wire if and only if every payload is shorter than 2^32
      bytes and no frame has one of the type codes that shadow a named type. */
  lemma RoundTripExactly(fs: seq<Frame>)
    ensures RoundTrips(fs) <==> forall f :: f in fs ==> Encodable(f)
  {
    if RoundTrips(fs) {
      OnlyEncodableRoundTrips(fs);
    } else if forall f :: f in fs ==> Encodable(f) {
      SequenceRoundTrip(fs);
    }
  }

  /** Every reserved code below 6 reads back as a named type. */
  lemma ReservedTypeIsLost(id: u32, code: byte)
    requires code <= 5
    ensures !RoundTrips([Frame(EmptyHeader.(streamId := id, frameType := Reserved(code)), [])])
  {
    var f := Frame(EmptyHeader.(streamId := id, frameType := Reserved(code)), []);
    assert f in [f] && !Encodable(f);
    RoundTripExactly([f]);
  }

  lemma UniquelyDecodable(fs: seq<Frame>, gs: seq<Frame>)
    requires forall f :: f in fs ==> Encodable(f)
    requires forall g :: g in gs ==> Encodable(g)
    requires EncodeAll(fs) == EncodeAll(gs)
    ensures ReceivedAll(fs) == ReceivedAll(gs)
  {
    SequenceRoundTrip(fs);
    SequenceRoundTrip(gs);
  }

  // ---------------------------------------------------------------- canonical form

  function WireLength(f: Frame): nat { FRAME_HEADER_LEN + |f.payload| }

  /** `bytes`, cut into frames of the given sizes, with bit 7 of every flags byte cleared;
      `None` when the bytes run out. */
  function ClearBit7(bytes: seq<byte>, fs: seq<Frame>): Option<seq<byte>> {
    if fs == [] then Some([])
    else if |bytes| < WireLength(fs[0]) then None
    else
      match ClearBit7(bytes[WireLength(fs[0])..], fs[1..])
      case None => None
      case Some(more) => Some(bytes[..WireLength(fs[0])][8 := bytes[8] % 128] + more)
  }

  lemma DecodedFrameIsCanonical(src: seq<byte>)
    requires DecodeOne(ReadingHeader, src).frame.Some?
    ensures var one := DecodeOne(ReadingHeader, src);
            var f := one.frame.value;
            && |src| >= WireLength(f) && one.state == ReadingHeader && one.rest == src[WireLength(f)..]
            && Encodable(f) && Received(f) == f
            && Encode(f) == src[..WireLength(f)][8 := src[8] % 128]
  {
    var f := DecodeOne(ReadingHeader, src).frame.value;
    var head, body := src[..FRAME_HEADER_LEN], src[FRAME_HEADER_LEN..];
    var n := f.header.payloadLen;
    DropDrop(src, FRAME_HEADER_LEN, n);
    assert f.payload == body[..n] && |f.payload| == n;
    HeaderBytesRoundTrip(head);
    EncodeWith(f, head[8 := head[8] % 128]);
    UpdateLeft(head, f.payload, 8, head[8] % 128);
  }

  lemma EncodeWith(f: Frame, head: seq<byte>)
    requires |f.payload| == f.header.payloadLen && PutHeader(f.header, f.header.payloadLen) == head
    ensures Encode(f) == head + f.payload
  {
    assert |f.payload| % TWO32 == f.header.payloadLen;
  }

  /** For every byte string: the decoded frames carry their true length, re-encoding them
      gives the consumed bytes back with only bit 7 of each flags byte cleared, and what
      is left over is what a fresh decoder would keep of the unconsumed bytes. */
  lemma {:induction false} CanonicalForm(src: seq<byte>)
    ensures var x := Drain(ReadingHeader, src);
            && (forall f :: f in x.frames ==> Encodable(f) && Received(f) == f)
            && ClearBit7(src, x.frames) == Some(EncodeAll(x.frames))
            && |EncodeAll(x.frames)| <= |src|
            && DecodeOne(ReadingHeader, src[|EncodeAll(x.frames)|..]) == Decoded(None, x.state, x.rest)
    decreases |src|
  {
    var one := DecodeOne(ReadingHeader, src);
    if one.frame.None? {
      assert src[0..] == src;
    } else {
      DecodedFrameIsCanonical(src);
      var f := one.frame.value;
      CanonicalForm(one.rest);
      var x, y := Drain(ReadingHeader, src), Drain(ReadingHeader, one.rest);
      assert x.frames == [f] + y.frames;
      assert x.frames[1..] == y.frames;
      assert forall g :: g in x.frames ==> g == f || g in y.frames;
      assert src[WireLength(f)..][|EncodeAll(y.frames)|..] == src[|EncodeAll(x.frames)|..];
    }
  }

  /** Decoding, encoding and decoding again is decoding. */
  lemma DecodeEncodeIdempotent(src: seq<byte>)
    ensures var fs := Drain(ReadingHeader, src).frames;
            Drain(ReadingHeader, EncodeAll(fs)) == Drained(fs, ReadingHeader, [])
  {
    CanonicalForm(src);
    var fs := Drain(ReadingHeader, src).frames;
    SequenceRoundTrip(fs);
    assert ReceivedAll(fs) == fs;
  }

  /** The one-shot parser and a fresh streaming decoder agree on a buffer, and the decoder
      empties it, exactly when the declared length is the length that is there. */
  lemma OneShotAgreesExactly(bytes: seq<byte>)
    requires |bytes| >= FRAME_HEADER_LEN
    ensures DecodeOne(ReadingHeader, bytes) == Decoded(ParseWhole(bytes), ReadingHeader, [])
       <==> TakeHeader(bytes).payloadLen == |bytes| - FRAME_HEADER_LEN
  {
    var body := bytes[FRAME_HEADER_LEN..];
    if TakeHeader(bytes).payloadLen == |body| {
      assert body[..|body|] == body && body[|body|..] == [];
    }
  }

  lemma OneShotRoundTrip(f: Frame)
    ensures ParseWhole(Encode(f)) == Some(Received(f)) <==> CanonicalType(f.header.frameType)
  {
    var n := |f.payload| % TWO32;
    Concat(PutHeader(f.header, n), f.payload);
    HeaderRoundTrip(f.header, n);
    TypeRoundTrip(f.header.frameType);
  }

  // ---------------------------------------------------------------- the code

  /** `BytesMut`: bytes are appended at the end and split off the front. */
  class ByteBuffer {
    var data: seq<byte>

    constructor (initial: seq<byte>)
      ensures data == initial
    {
      data := initial;
    }

    method SplitTo(n: nat) returns (front: seq<byte>)
      requires n <= |data|
      modifies this
      ensures front == old(data)[..n] && data == old(data)[n..]
    {
      front := data[..n];
      data := data[n..];
    }

    method GetByte() returns (b: byte)
      requires |data| >= 1
      modifies this
      ensures b == old(data)[0] && data == old(data)[1..]
    {
      b := data[0];
      data := data[1..];
    }

    method TakeU32() returns (x: u32)
      requires |data| >= 4
      modifies this
      ensures x == GetU32(old(data)[..4]) && data == old(data)[4..]
    {
      x := GetU32(data[..4]);
      data := data[4..];
    }

    method Put(bytes: seq<byte>)
      modifies this
      ensures data == old(data) + bytes
    {
      data := data + bytes;
    }
  }

  method ReadHeader(src: ByteBuffer) returns (h: FrameHeader)
    requires |src.data| >= FRAME_HEADER_LEN
    modifies src
    ensures h == TakeHeader(old(src.data)) && src.data == old(src.data)[FRAME_HEADER_LEN..]
  {
    ghost var all := src.data;
    var streamId := src.TakeU32();
    var operationId := src.TakeU32();
    assert src.data == all[8..];
    var flags := src.GetByte();
    var frameType := src.GetByte();
    assert src.data == all[10..];
    var payloadLen := src.TakeU32();
    h := FrameHeader(streamId, operationId, FlagsFromByte(flags), TypeFromByte(frameType), payloadLen);
    ghost var head := all[..FRAME_HEADER_LEN];
    assert head[0..4] == all[..4] && head[4..8] == all[4..][..4] && head[10..14] == all[10..][..4];
  }

  method WriteFrame(frame: Frame, dst: ByteBuffer)
    modifies dst
    ensures dst.data == old(dst.data) + Encode(frame)
  {
    ghost var before := dst.data;
    dst.Put(PutU32(frame.header.streamId));
    dst.Put(PutU32(frame.header.operationId));
    dst.Put([frame.header.flags.Bits()]);
    dst.Put([TypeToByte(frame.header.frameType)]);
    dst.Put(PutU32(|frame.payload| % TWO32));
    assert dst.data == before + PutHeader(frame.header, |frame.payload| % TWO32);
    dst.Put(frame.payload);
    Assoc(before, PutHeader(frame.header, |frame.payload| % TWO32), frame.payload);
  }

  method ToBytes(frame: Frame) returns (bytes: seq<byte>)
    ensures bytes == Encode(frame)
  {
    var buf := new ByteBuffer([]);
    buf.Put(PutU32(frame.header.streamId));
    buf.Put(PutU32(frame.header.operationId));
    buf.Put([frame.header.flags.Bits()]);
    buf.Put([TypeToByte(frame.header.frameType)]);
    buf.Put(PutU32(|frame.payload| % TWO32));
    assert buf.data == PutHeader(frame.header, |frame.payload| % TWO32);
    buf.Put(frame.payload);
    bytes := buf.data;
  }

  method FromBytes(bytes: seq<byte>) returns (r: Option<Frame>)
    ensures r == ParseWhole(bytes)
  {
    if |bytes| < FRAME_HEADER_LEN {
      return None;
    }
    var cursor := new ByteBuffer(bytes);
    var header := ReadHeader(cursor);
    r := Some(Frame(header, cursor.data));
  }

  class FrameCodec {
    var state: DecodeState

    constructor ()
      ensures state == ReadingHeader
    {
      state := ReadingHeader;
    }

    method Decode(src: ByteBuffer) returns (r: Option<Frame>)
      modifies this, src
      ensures Decoded(r, state, src.data) == DecodeOne(old(state), old(src.data))
    {
      while true
        invariant DecodeOne(state, src.data) == DecodeOne(old(state), old(src.data))
        decreases if state.ReadingHeader? then 1 else 0
      {
        match state {
          case ReadingHeader =>
            if |src.data| < FRAME_HEADER_LEN {
              return None;
            }
            var header := ReadHeader(src);
            state := ReadingPayload(header, header.payloadLen);
          case ReadingPayload(header, remaining) =>
            if |src.data| < remaining {
              return None;
            }
            var payload := src.SplitTo(remaining);
            state := ReadingHeader;
            return Some(Frame(header, payload));
        }
      }
    }

    method Encode(frame: Frame, dst: ByteBuffer)
      modifies dst
      ensures dst.data == old(dst.data) + Frames.Encode(frame)
      ensures state == old(state)
    {
      WriteFrame(frame, dst);
    }
  }

  /** The reading end of a pipe: a codec and the buffer it reads into. */
  class FramedReader {
    const codec: FrameCodec
    const buffer: ByteBuffer

    constructor ()
      ensures fresh(codec) && fresh(buffer)
      ensures codec.state == ReadingHeader && buffer.data == []
    {
      codec := new FrameCodec();
      buffer := new ByteBuffer([]);
    }

    /** One read from the pipe, then `decode` until it returns nothing. */
    method OnRead(bytes: seq<byte>) returns (frames: seq<Frame>)
      modifies codec, buffer
      ensures Drained(frames, codec.state, buffer.data) == Drain(old(codec.state), old(buffer.data) + bytes)
    {
      buffer.Put(bytes);
      ghost var goal := Drain(codec.state, buffer.data);
      frames := [];
      while true
        invariant Then(Drained(frames, ReadingHeader, []), Drain(codec.state, buffer.data)) == goal
        decreases |buffer.data|, if codec.state.ReadingPayload? then 1 else 0
      {
        ghost var rest := Drain(codec.state, buffer.data).frames;
        var next := codec.Decode(buffer);
        if next.None? {
          AppendEmpty(frames);
          return;
        }
        assert rest == [next.value] + Drain(codec.state, buffer.data).frames;
        Assoc(frames, [next.value], Drain(codec.state, buffer.data).frames);
        frames := frames + [next.value];
      }
    }
  }
}
