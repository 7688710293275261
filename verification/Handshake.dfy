/** The open handshake of the streams that one side opens: what the two pipes carry, and when
    (foctet-mux/src/session.rs:140-190, 201-227). */
module Handshake {
  import opened Frames
  import opened StreamIds
  import opened Session
  import opened Seqs

  // ---------------------------------------------------------------- what a pipe carries

  /** How many frames of stream `i` on the pipe have exactly these flags. */
  function Tally(w: seq<Frame>, flags: FrameFlags, i: u32): nat {
    if w == [] then 0
    else Bit(w[0].header.flags == flags && w[0].header.streamId == i) + Tally(w[1..], flags, i)
  }

  function Asks(w: seq<Frame>, i: u32): nat { Tally(w, OpenRequestFlags(), i) }
  function Replies(w: seq<Frame>, i: u32): nat { Tally(w, OpenResponseFlags(), i) }

  lemma {:induction false} TallyAppend(w: seq<Frame>, f: Frame, flags: FrameFlags, i: u32)
    ensures Tally(w + [f], flags, i)
         == Tally(w, flags, i) + Bit(f.header.flags == flags && f.header.streamId == i)
  {
    if w == [] {
      assert ([] + [f])[1..] == [];
    } else {
      Uncons(w, [f]);
      TallyAppend(w[1..], f, flags, i);
    }
  }

  /** Data and close frames: everything but the open handshake. */
  predicate StreamFrame(f: Frame) {
    var flags := f.header.flags;
    !flags.IsOpenRequest() && !flags.IsOpenResponse() && !flags.IsOpenReset() && Encodable(f)
  }

  /** Scanning the pipe towards an opener for the streams it opened (`own`): a stream's frames
      come after its open response unless the opener knows the stream already. */
  ghost predicate Ordered(w: seq<Frame>, own: set<u32>, known: set<u32>)
    decreases |w|
  {
    w == []
    || (if w[0].header.streamId !in own then Ordered(w[1..], own, known)
        else if w[0].header.flags.IsOpenResponse() then Ordered(w[1..], own, known + {w[0].header.streamId})
        else StreamFrame(w[0]) && w[0].header.streamId in known && Ordered(w[1..], own, known))
  }

  lemma {:induction false} OrderedAppend(w: seq<Frame>, own: set<u32>, known: set<u32>, f: Frame)
    requires Ordered(w, own, known)
    requires f.header.streamId !in own || f.header.flags.IsOpenResponse()
          || (StreamFrame(f) && (f.header.streamId in known || Replies(w, f.header.streamId) > 0))
    ensures Ordered(w + [f], own, known)
    decreases |w|
  {
    if w == [] {
      assert ([] + [f])[1..] == [];
    } else {
      Uncons(w, [f]);
      if w[0].header.streamId in own && w[0].header.flags.IsOpenResponse() {
        OrderedAppend(w[1..], own, known + {w[0].header.streamId}, f);
      } else {
        OrderedAppend(w[1..], own, known, f);
      }
    }
  }

  lemma {:induction false} OrderedGrows(w: seq<Frame>, own: set<u32>, known: set<u32>, more: set<u32>)
    requires Ordered(w, own, known) && known <= more
    ensures Ordered(w, own, more)
    decreases |w|
  {
    if w != [] {
      if w[0].header.streamId in own && w[0].header.flags.IsOpenResponse() {
        OrderedGrows(w[1..], own, known + {w[0].header.streamId}, more + {w[0].header.streamId});
      } else {
        OrderedGrows(w[1..], own, known, more);
      }
    }
  }

  /** No frame of stream `i` is on the pipe. */
  predicate Silent(w: seq<Frame>, i: u32) {
    forall k :: 0 <= k < |w| ==> w[k].header.streamId != i
  }

  lemma {:induction false} OrderedOwnsMore(w: seq<Frame>, own: set<u32>, known: set<u32>, j: u32)
    requires Ordered(w, own, known) && Silent(w, j)
    ensures Ordered(w, own + {j}, known)
    decreases |w|
  {
    if w != [] {
      assert w[0].header.streamId != j;
      if w[0].header.streamId in own && w[0].header.flags.IsOpenResponse() {
        OrderedOwnsMore(w[1..], own, known + {w[0].header.streamId}, j);
      } else {
        OrderedOwnsMore(w[1..], own, known, j);
      }
    }
  }

  /** Of its own streams, an opener's pipe carries open requests, and frames of streams that
      it has. */
  ghost predicate FromOpener(w: seq<Frame>, own: set<u32>, known: set<u32>) {
    forall k :: 0 <= k < |w| && w[k].header.streamId in own ==>
      w[k].header.flags.IsOpenRequest() || (StreamFrame(w[k]) && w[k].header.streamId in known)
  }

  // ---------------------------------------------------------------- the token

  function InAccept(phase: Phase): Option<u32> {
    match phase
    case Registered(i, _) => Some(i)
    case Published(i) => Some(i)
    case _ => None
  }

  /** The open handshake of `i` in flight: a request, an accept half done, or a response. */
  function Tokens(i: u32, mid: Option<u32>, w1: seq<Frame>, w2: seq<Frame>): nat {
    Asks(w1, i) + Bit(mid == Some(i)) + Replies(w2, i)
  }

  /** All that the handshake of one side's opens depends on: the ids it has issued and those
      it still waits for, the ids of both sides' streams, the other side's accept in
      progress, and the pipes there (`w1`) and back (`w2`). */
  datatype View = View(
    ids: seq<u32>, nextId: u32, waiting: set<u32>, idsO: set<u32>, idsA: set<u32>, mid: Option<u32>,
    endedO: bool, endedA: bool, w1: seq<Frame>, w2: seq<Frame>)

  /** There is at most one token. There is one exactly while an issued id is not established
      at the opener, unless one of the sides has gone. The acceptor has a stream for every
      issued id whose request has arrived. */
  ghost predicate TokenRule(i: u32, v: View) {
    var n := Tokens(i, v.mid, v.w1, v.w2);
    && n <= 1
    && (n == 1 ==> i in v.ids && i !in v.idsO && (v.endedO || i in v.waiting))
    && (!v.endedA && !v.endedO && i in v.ids && i !in v.idsO ==> n == 1)
    && (i in v.ids && i in v.idsA ==> Asks(v.w1, i) == 0)
    && (i in v.ids && !v.endedA && Asks(v.w1, i) == 0 ==> i in v.idsA)
    && (i in v.ids && (i in v.idsO || v.mid == Some(i) || Replies(v.w2, i) > 0) ==> i in v.idsA)
  }

  ghost predicate Allocated(first: u32, ids: seq<u32>, nextId: u32) {
    && nextId == IdAt(first, |ids|)
    && forall k :: 0 <= k < |ids| ==> ids[k] == IdAt(first, k)
  }

  ghost function ToSet(ids: seq<u32>): set<u32> { set i | i in ids }

  ghost predicate Shake(first: u32, v: View) {
    && Allocated(first, v.ids, v.nextId)
    && (forall i :: TokenRule(i, v))
    && (!v.endedO ==> v.waiting <= ToSet(v.ids) - v.idsO)
    && FromOpener(v.w1, ToSet(v.ids), v.idsO)
    && (!v.endedO ==> Ordered(v.w2, ToSet(v.ids), v.idsO))
    && (v.endedA ==> v.mid == None)
  }

  lemma NextIdIsFresh(first: u32, ids: seq<u32>, nextId: u32)
    requires Allocated(first, ids, nextId) && |ids| < TWO32
    ensures nextId !in ids
  {
    forall k | 0 <= k < |ids| ensures ids[k] != nextId {
      IdsRepeatExactly(first, k, |ids|);
    }
  }

  function RequestFrame(i: u32): Frame { ControlFrame(i, OpenRequestFlags()) }
  function ResponseFrame(i: u32): Frame { ControlFrame(i, OpenResponseFlags()) }

  // ---------------------------------------------------------------- what moves the handshake

  /** Nobody has heard of stream `j`. */
  ghost predicate Unheard(v: View, j: u32) {
    j !in v.ids && j !in v.idsO && j !in v.idsA && Silent(v.w1, j) && Silent(v.w2, j)
  }

  lemma ShakeOpen(first: u32, v: View)
    requires Shake(first, v) && !v.endedO && Unheard(v, v.nextId)
    ensures Shake(first, v.(ids := v.ids + [v.nextId], nextId := Advance(v.nextId, 1),
                            waiting := v.waiting + {v.nextId}, w1 := v.w1 + [RequestFrame(v.nextId)]))
  {
    var j, f := v.nextId, RequestFrame(v.nextId);
    var u := v.(ids := v.ids + [j], nextId := Advance(j, 1), waiting := v.waiting + {j}, w1 := v.w1 + [f]);
    assert TokenRule(j, v);
    forall i ensures TokenRule(i, u) {
      assert TokenRule(i, v);
      TallyAppend(v.w1, f, OpenRequestFlags(), i);
      assert i in u.ids <==> i in v.ids || i == j;
    }
    assert ToSet(u.ids) == ToSet(v.ids) + {j};
    OrderedOwnsMore(v.w2, ToSet(v.ids), v.idsO, j);
    assert FromOpener(u.w1, ToSet(u.ids), u.idsO) by {
      forall k | 0 <= k < |u.w1| && u.w1[k].header.streamId in ToSet(u.ids)
        ensures u.w1[k].header.flags.IsOpenRequest() || (StreamFrame(u.w1[k]) && u.w1[k].header.streamId in u.idsO)
      {
        if k < |v.w1| {
          assert u.w1[k] == v.w1[k];
        }
      }
    }
  }

  lemma ShakeAccept(first: u32, v: View)
    requires Shake(first, v) && v.mid == None && !v.endedA
    requires v.w1 != [] && v.w1[0].header.flags.IsOpenRequest() && v.w1[0].header.streamId in v.ids
    ensures var j := v.w1[0].header.streamId;
            && j !in v.idsA
            && Shake(first, v.(idsA := v.idsA + {j}, mid := Some(j), w1 := v.w1[1..]))
  {
    var j := v.w1[0].header.streamId;
    assert TokenRule(j, v);
    forall i ensures TokenRule(i, v.(idsA := v.idsA + {j}, mid := Some(j), w1 := v.w1[1..])) {
      assert TokenRule(i, v);
    }
  }

  lemma ShakeRespond(first: u32, v: View, j: u32)
    requires Shake(first, v) && v.mid == Some(j)
    ensures Shake(first, v.(mid := None, w2 := v.w2 + [ResponseFrame(j)]))
  {
    var f := ResponseFrame(j);
    forall i ensures TokenRule(i, v.(mid := None, w2 := v.w2 + [f])) {
      assert TokenRule(i, v);
      TallyAppend(v.w2, f, OpenResponseFlags(), i);
    }
    if !v.endedO {
      OrderedAppend(v.w2, ToSet(v.ids), v.idsO, f);
    }
  }

  /** The request could not be written, because the acceptor has gone. */
  lemma ShakeOpenFails(first: u32, v: View)
    requires Shake(first, v) && !v.endedO && v.endedA && Unheard(v, v.nextId)
    ensures Shake(first, v.(ids := v.ids + [v.nextId], nextId := Advance(v.nextId, 1)))
  {
    var j, u := v.nextId, v.(ids := v.ids + [v.nextId], nextId := Advance(v.nextId, 1));
    assert TokenRule(j, v);
    forall i ensures TokenRule(i, u) {
      assert TokenRule(i, v);
      assert i in u.ids <==> i in v.ids || i == j;
    }
    assert ToSet(u.ids) == ToSet(v.ids) + {j};
    OrderedOwnsMore(v.w2, ToSet(v.ids), v.idsO, j);
  }

  /** The response could not be written, because the opener has gone. */
  lemma ShakeRespondFails(first: u32, v: View)
    requires Shake(first, v) && v.endedO
    ensures Shake(first, v.(mid := None))
  {
    forall i ensures TokenRule(i, v.(mid := None)) {
      assert TokenRule(i, v);
    }
  }

  lemma ShakeEstablish(first: u32, v: View)
    requires Shake(first, v) && !v.endedO
    requires v.w2 != [] && v.w2[0].header.flags.IsOpenResponse() && v.w2[0].header.streamId in v.ids
    ensures var j := v.w2[0].header.streamId;
            && j in v.waiting && j !in v.idsO && j in v.idsA
            && Shake(first, v.(waiting := v.waiting - {j}, idsO := v.idsO + {j}, w2 := v.w2[1..]))
  {
    var j := v.w2[0].header.streamId;
    assert TokenRule(j, v);
    forall i ensures TokenRule(i, v.(waiting := v.waiting - {j}, idsO := v.idsO + {j}, w2 := v.w2[1..])) {
      assert TokenRule(i, v);
    }
  }

  lemma ShakeOpenerSends(first: u32, v: View, f: Frame)
    requires Shake(first, v) && StreamFrame(f) && f.header.streamId in v.idsO
    ensures Shake(first, v.(w1 := v.w1 + [f]))
  {
    forall i ensures TokenRule(i, v.(w1 := v.w1 + [f])) {
      assert TokenRule(i, v);
      TallyAppend(v.w1, f, OpenRequestFlags(), i);
    }
  }

  /** The acceptor writes a stream's frames only between accepts, so the stream's open
      response is on the pipe already or has arrived. */
  lemma ShakeAcceptorSends(first: u32, v: View, f: Frame)
    requires Shake(first, v) && v.mid == None && !v.endedA
    requires StreamFrame(f) && f.header.streamId in v.idsA && f.header.streamId in v.ids
    ensures Shake(first, v.(w2 := v.w2 + [f]))
  {
    assert TokenRule(f.header.streamId, v);
    if !v.endedO {
      OrderedAppend(v.w2, ToSet(v.ids), v.idsO, f);
    }
    forall i ensures TokenRule(i, v.(w2 := v.w2 + [f])) {
      assert TokenRule(i, v);
      TallyAppend(v.w2, f, OpenResponseFlags(), i);
    }
  }

  lemma ShakeAcceptorReads(first: u32, v: View)
    requires Shake(first, v)
    requires v.w1 != [] && v.w1[0].header.streamId in v.ids && !v.w1[0].header.flags.IsOpenRequest()
    ensures StreamFrame(v.w1[0]) && v.w1[0].header.streamId in v.idsA
    ensures Shake(first, v.(w1 := v.w1[1..]))
  {
    assert TokenRule(v.w1[0].header.streamId, v);
    forall i ensures TokenRule(i, v.(w1 := v.w1[1..])) {
      assert TokenRule(i, v);
    }
  }

  lemma ShakeOpenerReads(first: u32, v: View)
    requires Shake(first, v) && !v.endedO
    requires v.w2 != [] && v.w2[0].header.streamId in v.ids && !v.w2[0].header.flags.IsOpenResponse()
    ensures StreamFrame(v.w2[0]) && v.w2[0].header.streamId in v.idsO
    ensures Shake(first, v.(w2 := v.w2[1..]))
  {
    forall i ensures TokenRule(i, v.(w2 := v.w2[1..])) {
      assert TokenRule(i, v);
    }
  }

  lemma ShakeOpenerEnds(first: u32, v: View)
    requires Shake(first, v)
    ensures Shake(first, v.(waiting := {}, endedO := true))
  {
    forall i ensures TokenRule(i, v.(waiting := {}, endedO := true)) {
      assert TokenRule(i, v);
    }
  }

  lemma ShakeAcceptorEnds(first: u32, v: View)
    requires Shake(first, v)
    ensures Shake(first, v.(mid := None, endedA := true))
  {
    forall i ensures TokenRule(i, v.(mid := None, endedA := true)) {
      assert TokenRule(i, v);
    }
  }

  // ---------------------------------------------------------------- what does not concern it

  /** Streams that the other side opened. */
  lemma ShakeForeignStream(first: u32, v: View, j: u32)
    requires Shake(first, v) && j !in v.ids
    ensures Shake(first, v.(idsO := v.idsO + {j}))
    ensures Shake(first, v.(idsA := v.idsA + {j}))
  {
    forall i ensures TokenRule(i, v.(idsO := v.idsO + {j})) && TokenRule(i, v.(idsA := v.idsA + {j})) {
      assert TokenRule(i, v);
    }
    if !v.endedO {
      OrderedGrows(v.w2, ToSet(v.ids), v.idsO, v.idsO + {j});
    }
  }

  lemma ShakeForeignSent(first: u32, v: View, f: Frame)
    requires Shake(first, v) && f.header.streamId !in v.ids
    ensures !f.header.flags.IsOpenRequest() ==> Shake(first, v.(w1 := v.w1 + [f]))
    ensures !f.header.flags.IsOpenResponse() ==> Shake(first, v.(w2 := v.w2 + [f]))
  {
    if !f.header.flags.IsOpenRequest() {
      forall i ensures TokenRule(i, v.(w1 := v.w1 + [f])) {
        assert TokenRule(i, v);
        TallyAppend(v.w1, f, OpenRequestFlags(), i);
      }
    }
    if !f.header.flags.IsOpenResponse() {
      forall i ensures TokenRule(i, v.(w2 := v.w2 + [f])) {
        assert TokenRule(i, v);
        TallyAppend(v.w2, f, OpenResponseFlags(), i);
      }
      if !v.endedO {
        OrderedAppend(v.w2, ToSet(v.ids), v.idsO, f);
      }
    }
  }

  lemma ShakeForeignRead(first: u32, v: View)
    requires Shake(first, v)
    ensures v.w1 != [] && v.w1[0].header.streamId !in v.ids ==>
              !v.w1[0].header.flags.IsOpenRequest() && Shake(first, v.(w1 := v.w1[1..]))
    ensures v.w2 != [] && v.w2[0].header.streamId !in v.ids ==>
              !v.w2[0].header.flags.IsOpenResponse() && Shake(first, v.(w2 := v.w2[1..]))
  {
    if v.w1 != [] && v.w1[0].header.streamId !in v.ids {
      assert TokenRule(v.w1[0].header.streamId, v);
      forall i ensures TokenRule(i, v.(w1 := v.w1[1..])) {
        assert TokenRule(i, v);
      }
    }
    if v.w2 != [] && v.w2[0].header.streamId !in v.ids {
      assert TokenRule(v.w2[0].header.streamId, v);
      forall i ensures TokenRule(i, v.(w2 := v.w2[1..])) {
        assert TokenRule(i, v);
      }
    }
  }
}
