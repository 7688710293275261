/** The chunk loops of the QUIC streams (foctet-net/src/transport/quic/stream.rs:278-290, 331-350). */
module QuicChunks {
  import opened Frames
  import opened Codec
  import opened FileTransfer
  import opened Seqs

  /** How much one pass of the loop of `send` adds to `totalSent`. */
  function ChunkSize(writeBufferSize: nat, len: nat, totalSent: nat): nat
    requires totalSent <= len
  {
    if writeBufferSize <= len - totalSent then writeBufferSize else len - totalSent
  }

  /** While something is left to send, a pass changes nothing exactly when the write buffer has
      size 0; then the loop does not end. */
  lemma SendIsStuckExactly(writeBufferSize: nat, len: nat, totalSent: nat)
    requires totalSent < len
    ensures totalSent + ChunkSize(writeBufferSize, len, totalSent) == totalSent <==> writeBufferSize == 0
  {
  }

  /** `send`, where it returns: see `SendIsStuckExactly`. */
  method Send(data: seq<byte>, writeBufferSize: nat) returns (sent: seq<seq<byte>>)
    requires writeBufferSize > 0 || data == []
    ensures Flatten(sent) == data
    ensures forall k :: 0 <= k < |sent| ==> 0 < |sent[k]| <= writeBufferSize
    ensures forall k :: 0 <= k < |sent| - 1 ==> |sent[k]| == writeBufferSize
    ensures (|sent| - 1) * writeBufferSize < |data| <= |sent| * writeBufferSize || (data == [] && sent == [])
  {
    var totalSent := 0;
    sent := [];
    while totalSent < |data|
      invariant 0 <= totalSent <= |data| && Flatten(sent) == data[..totalSent]
      invariant forall k :: 0 <= k < |sent| ==> 0 < |sent[k]| <= writeBufferSize
      invariant totalSent < |data| ==> totalSent == |sent| * writeBufferSize
      invariant totalSent < |data| ==> forall k :: 0 <= k < |sent| ==> |sent[k]| == writeBufferSize
      invariant forall k :: 0 <= k < |sent| - 1 ==> |sent[k]| == writeBufferSize
      invariant sent == [] ==> totalSent == 0
      invariant sent != [] ==> (|sent| - 1) * writeBufferSize < totalSent <= |sent| * writeBufferSize
    {
      var chunkSize := ChunkSize(writeBufferSize, |data|, totalSent);
      var chunk := data[totalSent..totalSent + chunkSize];
      FlattenAppend(sent, chunk);
      assert data[..totalSent] + chunk == data[..totalSent + chunkSize];
      Distribute(|sent|, writeBufferSize);
      sent := sent + [chunk];
      totalSent := totalSent + chunkSize;
    }
    assert data[..totalSent] == data;
  }

  lemma Distribute(n: nat, m: nat)
    ensures (n + 1) * m == n * m + m
  {
  }

  /** The loop of `receive_file` ends with the chunk number `k` (counting from 1): it is
      empty, or the chunks so far make `len` bytes. */
  ghost predicate Halts(chunks: seq<seq<byte>>, len: nat, k: nat)
    requires 1 <= k <= |chunks|
  {
    chunks[k - 1] == [] || |Flatten(chunks[..k])| == len
  }

  /** The chunks that come before the first read error. */
  function BeforeError(items: seq<Option<seq<byte>>>): seq<seq<byte>> {
    if items == [] || items[0].None? then [] else [items[0].value] + BeforeError(items[1..])
  }

  lemma {:induction false} BeforeErrorAt(items: seq<Option<seq<byte>>>, k: nat)
    requires k <= |BeforeError(items)|
    ensures |BeforeError(items)| <= |items|
    ensures k < |BeforeError(items)| ==> items[k] == Some(BeforeError(items)[k])
    ensures k == |BeforeError(items)| && k < |items| ==> items[k] == None
  {
    if items != [] && items[0].Some? && k > 0 {
      BeforeErrorAt(items[1..], k - 1);
    } else if items != [] && items[0].Some? {
      BeforeErrorAt(items[1..], 0);
    }
  }

  /** `receive_file`, over what the framed reader yields (`None` is a read error): it takes the
      chunks up to the first that halts the loop. If none does, it takes all there are, and
      fails exactly when an error follows them. */
  method ReceiveFile(items: seq<Option<seq<byte>>>, len: nat)
    returns (written: seq<byte>, total: Option<nat>, taken: nat)
    ensures var chunks := BeforeError(items);
            && taken <= |chunks| && written == Flatten(chunks[..taken])
            && (forall k :: 1 <= k < taken ==> !Halts(chunks, len, k))
            && (taken < |chunks| ==> taken >= 1 && Halts(chunks, len, taken))
            && (total == None <==> taken == |chunks| < |items| && (taken == 0 || !Halts(chunks, len, taken)))
            && (total.Some? ==> total.value == |written|)
  {
    written, taken := [], 0;
    var totalBytes := 0;
    ghost var chunks := BeforeError(items);
    BeforeErrorAt(items, 0);
    while taken < |items|
      invariant taken <= |chunks| <= |items| && written == Flatten(chunks[..taken]) && totalBytes == |written|
      invariant forall k :: 1 <= k <= taken ==> !Halts(chunks, len, k)
    {
      BeforeErrorAt(items, taken);
      if items[taken].None? {
        return written, None, taken;
      }
      var data := items[taken].value;
      FlattenAppend(chunks[..taken], data);
      assert chunks[..taken + 1] == chunks[..taken] + [data];
      taken := taken + 1;
      if data == [] {
        AppendEmpty(written);
        return written, Some(totalBytes), taken;
      }
      written := written + data;
      totalBytes := totalBytes + |data|;
      if totalBytes == len {
        return written, Some(totalBytes), taken;
      }
    }
    total := Some(totalBytes);
  }

  lemma {:induction false} FlattenConcat(a: seq<seq<byte>>, b: seq<seq<byte>>)
    ensures Flatten(a + b) == Flatten(a) + Flatten(b)
  {
    if a == [] {
      AppendEmpty(b);
      AppendEmpty(Flatten(b));
    } else {
      Uncons(a, b);
      FlattenConcat(a[1..], b);
      Assoc(a[0], Flatten(a[1..]), Flatten(b));
    }
  }

  /** Over any list of non-empty chunks, receiving their total length halts on the last
      chunk and on no other: whatever `send` produced arrives whole. */
  lemma WholeTransferHaltsAtTheEnd(chunks: seq<seq<byte>>, k: nat)
    requires 1 <= k <= |chunks| && forall c :: c in chunks ==> c != []
    ensures Halts(chunks, |Flatten(chunks)|, k) <==> k == |chunks|
  {
    assert chunks[k - 1] in chunks;
    assert chunks == chunks[..k] + chunks[k..];
    FlattenConcat(chunks[..k], chunks[k..]);
    if k < |chunks| {
      assert chunks[k] in chunks && chunks[k..][0] == chunks[k];
    } else {
      assert chunks[..k] == chunks;
    }
  }

  /** A length that falls inside a chunk is passed over: from there on only an empty chunk or
      the end of the stream stops the receiver. */
  lemma PassedLengthNeverHalts(chunks: seq<seq<byte>>, len: nat, j: nat, k: nat)
    requires 1 <= j <= k <= |chunks| && |Flatten(chunks[..j])| > len
    ensures Halts(chunks, len, k) <==> chunks[k - 1] == []
  {
    assert chunks[..k] == chunks[..j] + chunks[j..k];
    FlattenConcat(chunks[..j], chunks[j..k]);
  }
}
