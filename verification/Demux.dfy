/** The demultiplexer: what reaches a stream's channel, for any frames from any peer
    (foctet-mux/src/session.rs:130-209, 264-268). */
module Demux {
  import opened Frames
  import opened Session
  import opened Seqs

  /** The frames of a run that carry the id `i`, in order: a filter that knows nothing of
      the actor. */
  function Addressed(acts: seq<Action>, i: u32): seq<Frame> {
    if acts == [] then []
    else
      (if acts[0].Incoming? && acts[0].frame.header.streamId == i then [acts[0].frame] else [])
      + Addressed(acts[1..], i)
  }

  /** Channels are only ever appended to the table, and keep their id. */
  lemma CellsPersist(p: Peer, a: Action)
    requires Valid(p) && Enabled(p, a)
    ensures |p.cells| <= |Next(p, a).cells| <= |p.cells| + 1
    ensures forall c :: 0 <= c < |p.cells| ==> Next(p, a).cells[c].id == p.cells[c].id
  {
    if OnCell(a) {
      CellActionShape(p, a);
    }
  }

  lemma RecvKeepsLog(cell: Cell)
    requires cell.queue != []
    ensures Log(OnRecv(cell)) == Log(cell)
  {
    HeadTail(cell.queue);
    Assoc(cell.received, [cell.queue[0]], cell.queue[1..]);
  }

  /** The application never changes what has reached a channel, nor who is registered. */
  lemma CellActionKeepsLogs(p: Peer, a: Action, c: nat)
    requires Valid(p) && Enabled(p, a) && OnCell(a) && c < |p.cells|
    ensures |Next(p, a).cells| == |p.cells| && Next(p, a).streams == p.streams
    ensures Log(Next(p, a).cells[c]) == Log(p.cells[c])
  {
    CellActionShape(p, a);
    if a.AppRecv? {
      RecvKeepsLog(p.cells[a.c]);
    }
  }

  /** One action, seen from channel `c`. */
  lemma OneStep(p: Peer, a: Action, c: nat)
    requires Valid(p) && Enabled(p, a) && c < |p.cells|
    ensures c < |Next(p, a).cells|
    ensures !IsRegistered(p, c) ==> !IsRegistered(Next(p, a), c) && Log(Next(p, a).cells[c]) == Log(p.cells[c])
    ensures IsRegistered(p, c) && !IsRegistered(Next(p, a), c) ==> Log(Next(p, a).cells[c]) == Log(p.cells[c])
    ensures IsRegistered(p, c) && IsRegistered(Next(p, a), c) ==>
              && Log(Next(p, a).cells[c]) == Log(p.cells[c]) + Addressed([a], p.cells[c].id)
              && (|Next(p, a).cells| > |p.cells| ==> Next(p, a).cells[|p.cells|].id != p.cells[c].id)
  {
    CellsPersist(p, a);
    var q, i := Next(p, a), p.cells[c].id;
    AppendEmpty(Log(p.cells[c]));
    assert Addressed([a][1..], i) == [];
    if OnCell(a) {
      CellActionKeepsLogs(p, a, c);
    } else if a.Incoming? {
      IncomingStep(p, a.frame, c);
      assert Addressed([a], i) == if a.frame.header.streamId == i then [a.frame] else [];
    } else {
      assert Addressed([a], i) == [];
    }
  }

  lemma IncomingStep(p: Peer, f: Frame, c: nat)
    requires Valid(p) && c < |p.cells|
    ensures c < |OnFrame(p, f).cells| <= |p.cells| + 1 && OnFrame(p, f).cells[c].id == p.cells[c].id
    ensures !IsRegistered(p, c) ==> !IsRegistered(OnFrame(p, f), c) && Log(OnFrame(p, f).cells[c]) == Log(p.cells[c])
    ensures IsRegistered(p, c) && !IsRegistered(OnFrame(p, f), c) ==> Log(OnFrame(p, f).cells[c]) == Log(p.cells[c])
    ensures IsRegistered(p, c) && IsRegistered(OnFrame(p, f), c) ==>
              && Log(OnFrame(p, f).cells[c])
                 == Log(p.cells[c]) + (if f.header.streamId == p.cells[c].id then [f] else [])
              && (|OnFrame(p, f).cells| > |p.cells| ==> OnFrame(p, f).cells[|p.cells|].id != p.cells[c].id)
  {
    AppendEmpty(Log(p.cells[c]));
    if RouteOf(p, f) == Deliver && p.streams[f.header.streamId] == c {
      Assoc(p.cells[c].received, p.cells[c].queue, [f]);
    }
  }

  lemma {:induction false} AddressedSplit(acts: seq<Action>, i: u32)
    requires acts != []
    ensures Addressed(acts, i) == Addressed([acts[0]], i) + Addressed(acts[1..], i)
  {
    assert [acts[0]][1..] == [];
    AppendEmpty(if acts[0].Incoming? && acts[0].frame.header.streamId == i then [acts[0].frame] else []);
  }

  /** Once a channel has been removed nothing reaches it any more, in any run. */
  lemma {:induction false} RemovalIsFinal(p: Peer, acts: seq<Action>, q: Peer, c: nat)
    requires Reaches(p, acts, q) && Valid(p) && c < |p.cells| && !IsRegistered(p, c)
    ensures c < |q.cells| && !IsRegistered(q, c) && Log(q.cells[c]) == Log(p.cells[c])
    decreases |acts|
  {
    if acts != [] {
      OneStep(p, acts[0], c);
      NextIsValid(p, acts[0]);
      RemovalIsFinal(Next(p, acts[0]), acts[1..], q, c);
    }
  }

  /** A channel that is registered before and after a run was registered all the time. */
  lemma StillRegistered(p: Peer, acts: seq<Action>, q: Peer, c: nat)
    requires Reaches(p, acts, q) && Valid(p) && c < |p.cells| <= |q.cells| && acts != []
    requires IsRegistered(p, c) && IsRegistered(q, c)
    ensures Valid(Next(p, acts[0])) && c < |Next(p, acts[0]).cells| && IsRegistered(Next(p, acts[0]), c)
  {
    var n := Next(p, acts[0]);
    NextIsValid(p, acts[0]);
    CellsPersist(p, acts[0]);
    if !IsRegistered(n, c) {
      RemovalIsFinal(n, acts[1..], q, c);
    }
  }

  /** The action removes channel `c`. */
  ghost predicate Removes(p: Peer, a: Action, c: nat) {
    && Valid(p) && c < |p.cells| && IsRegistered(p, c) && Enabled(p, a)
    && c < |Next(p, a).cells| && !IsRegistered(Next(p, a), c)
  }

  /** Channel `c` stays registered for the first `k` actions, which lead to `last`. */
  ghost predicate StaysFor(p: Peer, acts: seq<Action>, c: nat, k: nat, last: Peer)
    requires k <= |acts|
  {
    Reaches(p, acts[..k], last) && c < |last.cells| && IsRegistered(last, c) && (k < |acts| ==> Removes(last, acts[k], c))
  }

  lemma StaysOneMore(p: Peer, acts: seq<Action>, c: nat, k: nat, last: Peer)
    requires acts != [] && k < |acts| && Valid(p) && Enabled(p, acts[0]) && StaysFor(Next(p, acts[0]), acts[1..], c, k, last)
    ensures StaysFor(p, acts, c, k + 1, last)
  {
    assert acts[..k + 1][0] == acts[0] && acts[..k + 1][1..] == acts[1..][..k];
  }

  /** The whole epoch of a channel: it ends with the action number `k` of the run, which
      removes the channel, or lasts to the end of the run. Exactly the frames that carry its
      id and arrive in the epoch reach it, all of them and in order. */
  lemma {:induction false} EpochReceivesItsFrames(p: Peer, acts: seq<Action>, q: Peer, c: nat)
    returns (k: nat, last: Peer)
    requires Reaches(p, acts, q) && Valid(p) && c < |p.cells| && IsRegistered(p, c)
    ensures c < |q.cells| && k <= |acts| && (k < |acts| <==> !IsRegistered(q, c))
    ensures Log(q.cells[c]) == Log(p.cells[c]) + Addressed(acts[..k], p.cells[c].id)
    ensures StaysFor(p, acts, c, k, last)
    decreases |acts|
  {
    AppendEmpty(Log(p.cells[c]));
    if acts == [] {
      k, last := 0, p;
    } else {
      var n, i := Next(p, acts[0]), p.cells[c].id;
      OneStep(p, acts[0], c);
      NextIsValid(p, acts[0]);
      CellsPersist(p, acts[0]);
      if IsRegistered(n, c) {
        var j;
        j, last := EpochReceivesItsFrames(n, acts[1..], q, c);
        k := j + 1;
        StaysOneMore(p, acts, c, j, last);
        assert acts[..k][0] == acts[0] && acts[..k][1..] == acts[1..][..j];
        AddressedSplit(acts[..k], i);
        Assoc(Log(p.cells[c]), Addressed([acts[0]], i), Addressed(acts[1..][..j], i));
      } else {
        k, last := 0, p;
        RemovalIsFinal(n, acts[1..], q, c);
      }
    }
  }

  /** Meanwhile no second stream is registered under the id: a repeated open request is
      delivered like any other frame. */
  lemma {:induction false} EpochIsUnique(p: Peer, acts: seq<Action>, q: Peer, c: nat)
    requires Reaches(p, acts, q) && Valid(p) && c < |p.cells| <= |q.cells|
    requires IsRegistered(p, c) && IsRegistered(q, c)
    ensures forall d :: |p.cells| <= d < |q.cells| ==> q.cells[d].id != p.cells[c].id
    decreases |acts|
  {
    if acts != [] {
      var n := Next(p, acts[0]);
      StillRegistered(p, acts, q, c);
      OneStep(p, acts[0], c);
      CellsPersist(p, acts[0]);
      RunCellsPersist(n, acts[1..], q);
      EpochIsUnique(n, acts[1..], q, c);
      forall d | |p.cells| <= d < |q.cells| ensures q.cells[d].id != p.cells[c].id {
        if d < |n.cells| {
          assert d == |p.cells| && q.cells[d].id == n.cells[d].id;
        }
      }
    }
  }

  lemma {:induction false} RunCellsPersist(p: Peer, acts: seq<Action>, q: Peer)
    requires Reaches(p, acts, q) && Valid(p)
    ensures |p.cells| <= |q.cells| && forall c :: 0 <= c < |p.cells| ==> q.cells[c].id == p.cells[c].id
    decreases |acts|
  {
    if acts != [] {
      NextIsValid(p, acts[0]);
      CellsPersist(p, acts[0]);
      RunCellsPersist(Next(p, acts[0]), acts[1..], q);
    }
  }
}
