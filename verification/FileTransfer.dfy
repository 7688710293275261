/** Sending and receiving files over a logical stream
    (foctet-net/src/transport/tcp/stream.rs:274-310). */
module FileTransfer {
  import opened Frames
  import opened Codec
  import opened LogicalStreams
  import opened TwoPeers
  import opened SessionRuns
  import opened BytePipes
  import opened Seqs

  // ---------------------------------------------------------------- sending

  /** The frames that `send_file` builds from the pieces it reads. */
  function FileFrames(id: u32, chunks: seq<seq<byte>>): (r: seq<Frame>)
    ensures |r| == |chunks|
    ensures forall k :: 0 <= k < |r| ==> r[k] == DataFrame(id, chunks[k])
  {
    seq(|chunks|, k requires 0 <= k < |chunks| => DataFrame(id, chunks[k]))
  }

  function FrameEvents(fs: seq<Frame>): (r: seq<StreamEvent>)
    ensures |r| == |fs|
    ensures forall k :: 0 <= k < |r| ==> r[k] == FrameEvent(fs[k])
  {
    seq(|fs|, k requires 0 <= k < |fs| => FrameEvent(fs[k]))
  }

  lemma {:induction false} FlattenAppend(pieces: seq<seq<byte>>, piece: seq<byte>)
    ensures Flatten(pieces + [piece]) == Flatten(pieces) + piece
  {
    if pieces == [] {
      assert ([] + [piece])[1..] == [];
      AppendEmpty(piece);
    } else {
      Uncons(pieces, [piece]);
      FlattenAppend(pieces[1..], piece);
      Assoc(pieces[0], Flatten(pieces[1..]), piece);
    }
  }

  /** The frames of a file are frames that the stream's application may send, and carry the
      file's pieces in order; so the theorems about sessions apply to them. */
  lemma FileFramesAreSendable(id: u32, chunks: seq<seq<byte>>, k: nat)
    requires k < |chunks| && |chunks[k]| < TWO32
    ensures AppFrame(FileFrames(id, chunks)[k], id)
    ensures Received(FileFrames(id, chunks)[k]).payload == chunks[k]
    ensures Received(FileFrames(id, chunks)[k]).header.payloadLen == |chunks[k]|
  {
  }

  // ---------------------------------------------------------------- receiving

  /** `receive_file` has its `len` bytes, or has used up the frames there are. */
  datatype Receipt = Complete(written: seq<byte>, consumed: nat) | Starved(written: seq<byte>)

  function Receiving(frames: seq<Frame>, len: nat, written: seq<byte>, consumed: nat): Receipt
    decreases |frames|
  {
    if frames == [] then Starved(written)
    else
      var w := written + frames[0].payload;
      if |w| == len then Complete(w, consumed + 1) else Receiving(frames[1..], len, w, consumed + 1)
  }

  function ReceiptOf(frames: seq<Frame>, len: nat): Receipt { Receiving(frames, len, [], 0) }

  function Payloads(frames: seq<Frame>): seq<byte> {
    if frames == [] then [] else frames[0].payload + Payloads(frames[1..])
  }

  /** On top of `base` bytes, the first `k` frames make `len` bytes. */
  predicate Makes(frames: seq<Frame>, base: nat, len: nat, k: nat) {
    1 <= k <= |frames| && base + |Payloads(frames[..k])| == len
  }

  /** `k` is the first number of frames that does. */
  predicate StopsAt(frames: seq<Frame>, base: nat, len: nat, k: nat) {
    Makes(frames, base, len, k) && forall j: nat :: j < k ==> !Makes(frames, base, len, j)
  }

  lemma MakesOne(frames: seq<Frame>, base: nat, len: nat)
    requires frames != []
    ensures Payloads(frames[..1]) == frames[0].payload
    ensures Makes(frames, base, len, 1) <==> base + |frames[0].payload| == len
  {
    assert frames[..1][1..] == [];
    AppendEmpty(frames[0].payload);
  }

  lemma MakesMore(frames: seq<Frame>, base: nat, len: nat, k: nat)
    requires frames != [] && 1 < k
    ensures k <= |frames| ==> Payloads(frames[..k]) == frames[0].payload + Payloads(frames[1..][..k - 1])
    ensures Makes(frames, base, len, k) <==> Makes(frames[1..], base + |frames[0].payload|, len, k - 1)
  {
    if k <= |frames| {
      assert frames[..k][1..] == frames[1..][..k - 1];
    }
  }

  /** Skipping a frame that does not complete the file. */
  lemma StopsLater(frames: seq<Frame>, base: nat, len: nat, k: nat)
    requires frames != [] && base + |frames[0].payload| != len
    ensures StopsAt(frames, base, len, k) <==>
              k > 0 && StopsAt(frames[1..], base + |frames[0].payload|, len, k - 1)
  {
    MakesOne(frames, base, len);
    var rest, more := frames[1..], base + |frames[0].payload|;
    forall j: nat ensures Makes(frames, base, len, j) <==> j > 0 && Makes(rest, more, len, j - 1) {
      if j > 1 {
        MakesMore(frames, base, len, j);
      }
    }
    if k > 0 && StopsAt(frames, base, len, k) {
      forall j: nat | j < k - 1 ensures !Makes(rest, more, len, j) {
        assert !Makes(frames, base, len, j + 1);
      }
    }
  }

  /** From any point of the loop: it stops on the frame number `k` from here if and only if
      that is the first frame at which the bytes number exactly `len`. */
  lemma {:induction false} ReceivingStopsExactly(frames: seq<Frame>, len: nat, written: seq<byte>, consumed: nat, k: nat)
    ensures var r := Receiving(frames, len, written, consumed);
            r.Complete? && r.consumed == consumed + k <==> StopsAt(frames, |written|, len, k)
    decreases |frames|
  {
    if frames != [] {
      var w := written + frames[0].payload;
      MakesOne(frames, |written|, len);
      if |w| == len {
        assert StopsAt(frames, |written|, len, 1);
      } else {
        StopsLater(frames, |written|, len, k);
        if k > 0 {
          ReceivingStopsExactly(frames[1..], len, w, consumed + 1, k - 1);
        } else {
          ReceivingAdvances(frames[1..], len, w, consumed + 1);
        }
      }
    }
  }

  lemma {:induction false} ReceivingAdvances(frames: seq<Frame>, len: nat, written: seq<byte>, consumed: nat)
    ensures var r := Receiving(frames, len, written, consumed);
            && (r.Complete? ==> consumed < r.consumed <= consumed + |frames|)
            && r.written == written + Payloads(if r.Complete? then frames[..r.consumed - consumed] else frames)
    decreases |frames|
  {
    if frames == [] {
      AppendEmpty(written);
    } else {
      var w := written + frames[0].payload;
      MakesOne(frames, |written|, len);
      if |w| != len {
        ReceivingAdvances(frames[1..], len, w, consumed + 1);
        var r := Receiving(frames[1..], len, w, consumed + 1);
        if r.Complete? {
          MakesMore(frames, |written|, len, r.consumed - consumed);
          Assoc(written, frames[0].payload, Payloads(frames[1..][..r.consumed - consumed - 1]));
        } else {
          Assoc(written, frames[0].payload, Payloads(frames[1..]));
        }
      }
    }
  }

  /** `receive_file` stops on the first frame at which the bytes received so far number
      exactly `len`, and never when there is no such frame; it has written the payloads it
      has read. */
  lemma ReceiveFileStopsExactly(frames: seq<Frame>, len: nat, k: nat)
    ensures var r := ReceiptOf(frames, len);
            && (r.Complete? && r.consumed == k <==> StopsAt(frames, 0, len, k))
            && (r.Complete? ==> r.consumed <= |frames|)
            && r.written == Payloads(if r.Complete? then frames[..r.consumed] else frames)
  {
    ReceivingStopsExactly(frames, len, [], 0, k);
    ReceivingAdvances(frames, len, [], 0);
    var r := ReceiptOf(frames, len);
    AppendEmpty(Payloads(if r.Complete? then frames[..r.consumed] else frames));
  }

  // ---------------------------------------------------------------- one transfer

  /** What the reader finds in the frames of a file, as far as they have arrived. */
  ghost predicate Carries(got: seq<Frame>, chunks: seq<seq<byte>>) {
    forall k :: 0 <= k < |got| && k < |chunks| ==> got[k].payload == chunks[k]
  }

  lemma {:induction false} ReceivingChunks(got: seq<Frame>, chunks: seq<seq<byte>>, len: nat, written: seq<byte>, consumed: nat)
    requires chunks != [] && (forall c :: c in chunks ==> c != []) && Carries(got, chunks)
    requires len == |written| + |Flatten(chunks)|
    ensures Receiving(got, len, written, consumed)
         == if |got| < |chunks| then Starved(written + Flatten(chunks[..|got|]))
            else Complete(written + Flatten(chunks), consumed + |chunks|)
    decreases |chunks|
  {
    if got == [] {
      AppendEmpty(written);
    } else {
      var (first, rest) := (chunks[0], chunks[1..]);
      var w := written + first;
      assert got[0].payload == first;
      Assoc(written, first, Flatten(rest));
      if rest == [] {
        AppendEmpty(first);
      } else {
        assert forall x :: x in rest ==> x in chunks;
        assert rest[0] in rest;
        assert |w| < len;
        forall k | 0 <= k < |got[1..]| && k < |rest| ensures got[1..][k].payload == rest[k] {
          assert got[k + 1].payload == chunks[k + 1];
        }
        ReceivingChunks(got[1..], rest, len, w, consumed + 1);
        if |got| < |chunks| {
          assert chunks[..|got|][1..] == rest[..|got| - 1];
          Assoc(written, first, Flatten(rest[..|got| - 1]));
        }
      }
    }
  }

  /** A file of at least one byte arrives whole, and the receiver stops on its last frame. */
  lemma FileArrivesWhole(got: seq<Frame>, chunks: seq<seq<byte>>)
    requires chunks != [] && (forall c :: c in chunks ==> c != []) && Carries(got, chunks)
    ensures ReceiptOf(got, |Flatten(chunks)|)
         == if |got| < |chunks| then Starved(Flatten(chunks[..|got|])) else Complete(Flatten(chunks), |chunks|)
  {
    ReceivingChunks(got, chunks, |Flatten(chunks)|, [], 0);
    AppendEmpty(Flatten(chunks));
    if |got| < |chunks| {
      AppendEmpty(Flatten(chunks[..|got|]));
    }
  }

  /** On a stream that carries a file and nothing after it, `receive_file` returns exactly
      when the file is not empty: of an empty file nothing is sent, and the receiver waits. */
  lemma TransferCompletesExactly(id: u32, chunks: seq<seq<byte>>)
    requires forall c :: c in chunks ==> c != []
    ensures ReceiptOf(ReceivedAll(FileFrames(id, chunks)), |Flatten(chunks)|).Complete? <==> Flatten(chunks) != []
  {
    if chunks != [] {
      assert chunks[0] in chunks;
      FileArrivesWhole(ReceivedAll(FileFrames(id, chunks)), chunks);
    }
  }

  // ---------------------------------------------------------------- end to end

  /** In every run over byte pipes that issues no id twice, with any interleaving, any
      other streams and any read boundaries, and in every state of it: if the writer of a
      stream has sent `prior`, then a non-empty file, then `later`, and the reader at the
      other end calls `receive_file` with the file's length after reading `prior`, then the
      bytes written so far are the file's first bytes, and the call returns with the file,
      byte for byte, exactly when the last chunk frame has been read. */
  lemma EndToEnd(acts: seq<ByteAction>, s: ByteSystem, side: Side, c: nat, d: nat,
                 prior: seq<Frame>, chunks: seq<seq<byte>>, later: seq<Frame>)
    requires ByteRuns(ByteStart(), acts, s) && IdsApart(Abstract(s))
    requires c < |PeerAt(Abstract(s), side).cells| && d < |PeerAt(Abstract(s), Other(side)).cells|
    requires PeerAt(Abstract(s), side).cells[c].id == PeerAt(Abstract(s), Other(side)).cells[d].id
    requires PeerAt(Abstract(s), side).cells[c].sent
          == prior + FileFrames(PeerAt(Abstract(s), side).cells[c].id, chunks) + later
    requires Flatten(chunks) != [] && forall x :: x in chunks ==> x != []
    requires |prior| <= |PeerAt(Abstract(s), Other(side)).cells[d].received|
    ensures var read := PeerAt(Abstract(s), Other(side)).cells[d].received;
            var got := read[|prior|..];
            && read[..|prior|] == ReceivedAll(prior)
            && ReceiptOf(got, |Flatten(chunks)|)
               == if |got| < |chunks| then Starved(Flatten(chunks[..|got|])) else Complete(Flatten(chunks), |chunks|)
  {
    BytesReachOnlyReachable(acts, s);
    ReadersSeeAPrefix(Trace(acts), Abstract(s), side, c, d);
    var (q, p) := (PeerAt(Abstract(s), side).cells[c], PeerAt(Abstract(s), Other(side)).cells[d]);
    var sent := ReceivedAll(q.sent);
    assert p.received <= sent;
    var got := p.received[|prior|..];
    forall k | 0 <= k < |got| && k < |chunks| ensures got[k].payload == chunks[k] {
      assert got[k] == sent[|prior| + k] == Received(q.sent[|prior| + k]);
      assert q.sent[|prior| + k] == FileFrames(q.id, chunks)[k];
    }
    forall k | 0 <= k < |prior| ensures p.received[k] == ReceivedAll(prior)[k] {
      assert p.received[k] == sent[k] == Received(q.sent[k]);
      assert q.sent[k] == prior[k];
    }
    FileArrivesWhole(got, chunks);
  }

  /** The same for a run in which it happens: up to the state `m` the writer has sent what it
      has sent; from there to `n` its application hands `send_frame` the frames of a non-empty
      file; from `n` on it sends, closes or drops whatever it likes. Everything else in the
      session goes on all the time. Then in every later state, a reader that read the earlier
      frames and calls `receive_file` with the file's length gets the file. */
  lemma SendFileArrives(acts: seq<ByteAction>, m: ByteSystem, sending: seq<ByteAction>, n: ByteSystem,
                        after: seq<ByteAction>, s: ByteSystem, side: Side, c: nat, d: nat, chunks: seq<seq<byte>>)
    requires ByteRuns(ByteStart(), acts, m) && ByteRuns(m, sending, n) && ByteRuns(n, after, s) && IdsApart(Abstract(s))
    requires c < |PeerAt(Abstract(m), side).cells| && c < |PeerAt(Abstract(s), side).cells|
    requires d < |PeerAt(Abstract(s), Other(side)).cells|
    requires PeerAt(Abstract(s), side).cells[c].id == PeerAt(Abstract(s), Other(side)).cells[d].id
    requires Handed(Trace(sending), side, c) == FileFrames(PeerAt(Abstract(s), side).cells[c].id, chunks)
    requires KeepsOpen(Trace(sending), side, c)
    requires Flatten(chunks) != [] && forall x :: x in chunks ==> x != []
    requires |PeerAt(Abstract(m), side).cells[c].sent| <= |PeerAt(Abstract(s), Other(side)).cells[d].received|
    ensures var got := PeerAt(Abstract(s), Other(side)).cells[d].received[|PeerAt(Abstract(m), side).cells[c].sent|..];
            ReceiptOf(got, |Flatten(chunks)|)
            == if |got| < |chunks| then Starved(Flatten(chunks[..|got|])) else Complete(Flatten(chunks), |chunks|)
  {
    var prior := PeerAt(Abstract(m), side).cells[c].sent;
    ByteRunIdsGrow(n, after, s);
    ByteRunsThen(ByteStart(), acts, m, sending, n);
    var file := SendsAreRecorded(acts, m, sending, n, side, c);
    var later := SendsAreRecorded(acts + sending, n, after, s, side, c);
    ByteRunsThen(ByteStart(), acts + sending, n, after, s);
    EndToEnd(acts + sending + after, s, side, c, d, prior, chunks, later);
  }

  lemma SendsAreRecorded(acts: seq<ByteAction>, m: ByteSystem, more: seq<ByteAction>, s: ByteSystem, side: Side, c: nat)
    returns (frames: seq<Frame>)
    requires ByteRuns(ByteStart(), acts, m) && ByteRuns(m, more, s) && IdsApart(Abstract(s))
    requires c < |PeerAt(Abstract(m), side).cells|
    ensures c < |PeerAt(Abstract(s), side).cells|
    ensures PeerAt(Abstract(s), side).cells[c].sent == PeerAt(Abstract(m), side).cells[c].sent + frames
    ensures KeepsOpen(Trace(more), side, c) ==> frames == Handed(Trace(more), side, c)
  {
    ByteRunIdsGrow(m, more, s);
    BytesReachOnlyReachable(acts, m);
    ReachableIsSound(Trace(acts), Abstract(m));
    ByteRunRefines(m, more, s);
    frames := RunRecordsSends(Abstract(m), Trace(more), Abstract(s), side, c);
  }

  lemma {:induction false} ByteRunsThen(s: ByteSystem, acts: seq<ByteAction>, m: ByteSystem, more: seq<ByteAction>, t: ByteSystem)
    requires ByteRuns(s, acts, m) && ByteRuns(m, more, t)
    ensures ByteRuns(s, acts + more, t)
    decreases |acts|
  {
    if acts == [] {
      AppendEmpty(more);
    } else {
      var n :| ByteStep(s, acts[0], n) && ByteRuns(n, acts[1..], m);
      Uncons(acts, more);
      ByteRunsThen(n, acts[1..], m, more, t);
    }
  }

  // ---------------------------------------------------------------- the code

  /** An open file. A read returns at most as many bytes as asked for, possibly fewer, and
      none only at the end of the file or when none are asked for. */
  class FileHandle {
    const data: seq<byte>
    var pos: nat

    constructor (data: seq<byte>)
      ensures this.data == data && pos == 0
    {
      this.data := data;
      pos := 0;
    }

    method Read(size: nat) returns (chunk: seq<byte>)
      requires pos <= |data|
      modifies this
      ensures old(pos) <= pos <= |data| && |chunk| <= size && chunk == data[old(pos)..pos]
      ensures chunk == [] <==> size == 0 || old(pos) == |data|
    {
      if size == 0 || pos == |data| {
        return [];
      }
      var n :| 1 <= n <= size && pos + n <= |data|;
      chunk := data[pos..pos + n];
      pos := pos + n;
    }
  }

  /** The state of a stream after its reader half has read `frames`. */
  function AfterReading(s: StreamState, frames: seq<Frame>): StreamState
    decreases |frames|
  {
    if frames == [] then s else AfterReading(SplitAfter(s, frames[0].header.flags), frames[1..])
  }

  lemma {:induction false} AfterReadingMore(s: StreamState, frames: seq<Frame>, f: Frame)
    ensures AfterReading(s, frames + [f]) == SplitAfter(AfterReading(s, frames), f.header.flags)
    decreases |frames|
  {
    if frames == [] {
      assert ([] + [f])[1..] == [];
    } else {
      Uncons(frames, [f]);
      AfterReadingMore(SplitAfter(s, frames[0].header.flags), frames[1..], f);
    }
  }

  class LogicalTcpStream {
    const id: u32
    const writer: LogicalStreamWriter
    const reader: LogicalStreamReader
    var writeBufferSize: nat

    constructor (id: u32, writer: LogicalStreamWriter, reader: LogicalStreamReader, writeBufferSize: nat)
      ensures this.id == id && this.writer == writer && this.reader == reader
      ensures this.writeBufferSize == writeBufferSize
    {
      this.id := id;
      this.writer := writer;
      this.reader := reader;
      this.writeBufferSize := writeBufferSize;
    }

    /** The pieces sent are non-empty, no longer than the write buffer, and together the rest
        of the file; a write buffer of size 0 sends nothing. */
    method SendFile(file: FileHandle) returns (ok: bool, ghost chunks: seq<seq<byte>>)
      requires file.pos <= |file.data|
      modifies file, writer.events
      ensures writer.events.open == old(writer.events.open)
      ensures forall k :: 0 <= k < |chunks| ==> 0 < |chunks[k]| <= writeBufferSize
      ensures writer.events.queue == old(writer.events.queue) + FrameEvents(FileFrames(id, chunks))
      ensures ok && writeBufferSize > 0 ==> Flatten(chunks) == file.data[old(file.pos)..]
      ensures ok <==> old(writer.events.open) || writeBufferSize == 0 || old(file.pos) == |file.data|
    {
      chunks := [];
      ghost var start := file.pos;
      AppendEmpty(writer.events.queue);
      while true
        invariant start <= file.pos <= |file.data|
        invariant writer.events.open == old(writer.events.open)
        invariant !writer.events.open ==> chunks == [] && file.pos == start
        invariant writer.events.queue == old(writer.events.queue) + FrameEvents(FileFrames(id, chunks))
        invariant Flatten(chunks) == file.data[start..file.pos]
        invariant forall k :: 0 <= k < |chunks| ==> 0 < |chunks[k]| <= writeBufferSize
        decreases |file.data| - file.pos
      {
        ghost var at := file.pos;
        var chunk := file.Read(writeBufferSize);
        if chunk == [] {
          return true, chunks;
        }
        var frame := DataFrame(id, chunk);
        ok := writer.SendFrame(frame);
        if !ok {
          return false, chunks;
        }
        FlattenAppend(chunks, chunk);
        assert file.data[start..at] + chunk == file.data[start..file.pos];
        assert FrameEvents(FileFrames(id, chunks + [chunk])) == FrameEvents(FileFrames(id, chunks)) + [FrameEvent(frame)];
        Assoc(old(writer.events.queue), FrameEvents(FileFrames(id, chunks)), [FrameEvent(frame)]);
        chunks := chunks + [chunk];
      }
    }

    /** `receive_file` where it does not have to wait: the frames it needs are in the channel,
        or all the frames that will ever come are. Running out of these is the error return. */
    method ReceiveFile(len: nat) returns (r: Receipt)
      requires !reader.connected || ReceiptOf(reader.incoming, len).Complete?
      modifies reader`incoming, reader.shared
      ensures r == ReceiptOf(old(reader.incoming), len)
      ensures var n := if r.Complete? then r.consumed else |old(reader.incoming)|;
              && n <= |old(reader.incoming)| && reader.incoming == old(reader.incoming)[n..]
              && reader.shared.state == AfterReading(old(reader.shared.state), old(reader.incoming)[..n])
    {
      ghost var all, state := reader.incoming, reader.shared.state;
      var written, consumed := [], 0;
      while true
        invariant consumed <= |all| && reader.incoming == all[consumed..]
        invariant Receiving(reader.incoming, len, written, consumed) == ReceiptOf(all, len)
        invariant reader.shared.state == AfterReading(state, all[..consumed])
        decreases |reader.incoming|
      {
        var next := reader.RecvFrame();
        if next.None? {
          assert all[..|all|] == all;
          return Starved(written);
        }
        var frame := next.value;
        AfterReadingMore(state, all[..consumed], frame);
        assert all[..consumed + 1] == all[..consumed] + [frame];
        written := written + frame.payload;
        consumed := consumed + 1;
        if |written| == len {
          return Complete(written, consumed);
        }
      }
    }
  }
}
