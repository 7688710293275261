/** Closing a split stream, with the reader half running between any two steps of the
    writer's `close` (foctet-mux/src/stream.rs:127-158, 257-287). */
module Closing {
  import opened Frames
  import opened LogicalStreams
  import opened Session
  import opened TwoPeers
  import opened Handshake
  import opened Invariants
  import opened Seqs

  /** The close requests among the frames sent on a stream. */
  function CloseRequests(sent: seq<Frame>): nat {
    if sent == [] then 0
    else CloseRequests(sent[..|sent| - 1]) + Bit(sent[|sent| - 1].header.flags.IsCloseRequest())
  }

  lemma CloseRequestsAppend(sent: seq<Frame>, f: Frame)
    ensures CloseRequests(sent + [f]) == CloseRequests(sent) + Bit(f.header.flags.IsCloseRequest())
  {
    assert (sent + [f])[..|sent|] == sent;
  }

  predicate ReachableState(s: StreamState) { s.Established? || s.LocalClosing? || s.Closed? }

  /** A stream that is still Established has not asked to close; one that is about to ask
      has not asked before; one that has asked is no longer Established and has not seen
      Established in the close it is executing. */
  predicate CloseOnce(cell: Cell) {
    var n := CloseRequests(cell.sent);
    && ReachableState(cell.state) && n <= 1
    && (cell.state.Established? ==> n == 0)
    && match cell.pc
       case Resting => true
       case CloseCaptured(seen) =>
         && ReachableState(seen)
         && (if seen.Established? then n == 0 else !cell.state.Established?)
       case CloseSending(tell) => n == 0 && !tell && !cell.state.Established?
       case CloseTelling => !cell.state.Established?
  }

  predicate AllCloseOnce(cells: seq<Cell>) {
    forall c :: 0 <= c < |cells| ==> CloseOnce(cells[c])
  }

  /** No open-flagged frame is read, so reading does not change the state. */
  lemma RecvKeepsState(cell: Cell)
    requires QueueOwned(cell) && cell.queue != []
    ensures OnRecv(cell).state == cell.state
  {
    assert StreamFrame(cell.queue[0]);
  }

  lemma SetClosesOnce(cell: Cell)
    requires CloseOnce(cell) && cell.pc.CloseCaptured?
    ensures CloseOnce(OnCloseSet(cell)) && !OnCloseSet(cell).state.Established?
  {
  }

  lemma DataClosesOnce(cell: Cell, f: Frame)
    requires CloseOnce(cell) && cell.pc.Resting? && !f.header.flags.IsCloseRequest()
    ensures CloseOnce(cell.(sent := cell.sent + [f], pc := Resting))
  {
    CloseRequestsAppend(cell.sent, f);
  }

  lemma RequestClosesOnce(cell: Cell)
    requires CloseOnce(cell) && cell.pc.CloseSending?
    ensures !cell.pc.thenTell && CloseOnce(cell.(sent := cell.sent + [CloseFrame(cell.id)], pc := Resting))
    ensures CloseOnce(cell.(pc := Resting))
  {
    CloseRequestsAppend(cell.sent, CloseFrame(cell.id));
  }

  lemma CellNextClosesOnce(cell: Cell, a: Action, ended: bool)
    requires CellReady(cell, a) && QueueOwned(cell) && CloseOnce(cell)
    requires a.AppSend? ==> !a.frame.header.flags.IsCloseRequest()
    ensures CloseOnce(CellNext(cell, a, ended))
    ensures !cell.state.Established? ==> !CellNext(cell, a, ended).state.Established?
  {
    match a
    case AppSend(c, f) => DataClosesOnce(cell, f);
    case AppRecv(c) => RecvKeepsState(cell);
    case AppCloseSet(c) => SetClosesOnce(cell);
    case AppCloseRequest(c) => RequestClosesOnce(cell);
    case _ =>
  }

  /** Replacing one stream by a version of itself that keeps its account. */
  lemma SetCellClosesOnce(cells: seq<Cell>, c: nat, cell: Cell)
    requires AllCloseOnce(cells) && c < |cells| && CloseOnce(cell)
    requires !cells[c].state.Established? ==> !cell.state.Established?
    ensures AllCloseOnce(cells[c := cell])
    ensures forall d :: 0 <= d < |cells| && !cells[d].state.Established? ==> !cells[c := cell][d].state.Established?
  {
  }

  lemma UseClosesOnce(p: Peer, a: Action, farEnded: bool)
    requires PeerOk(p) && Enabled(p, a) && Disciplined(p, a, farEnded) && AllCloseOnce(p.cells) && OnCell(a)
    ensures AllCloseOnce(Next(p, a).cells) && |p.cells| == |Next(p, a).cells|
    ensures forall c :: 0 <= c < |p.cells| && !p.cells[c].state.Established? ==>
              !Next(p, a).cells[c].state.Established?
  {
    CellActionShape(p, a);
    assert QueueOwned(p.cells[a.c]) && CloseOnce(p.cells[a.c]);
    CellNextClosesOnce(p.cells[a.c], a, p.ended);
    SetCellClosesOnce(p.cells, a.c, CellNext(p.cells[a.c], a, p.ended));
  }

  /** Every action of a peer keeps every stream's account and never re-establishes one. */
  lemma NextClosesOnce(p: Peer, a: Action, farEnded: bool)
    requires PeerOk(p) && Enabled(p, a) && Disciplined(p, a, farEnded) && AllCloseOnce(p.cells)
    ensures AllCloseOnce(Next(p, a).cells) && |p.cells| <= |Next(p, a).cells|
    ensures forall c :: 0 <= c < |p.cells| && !p.cells[c].state.Established? ==>
              !Next(p, a).cells[c].state.Established?
  {
    if OnCell(a) {
      UseClosesOnce(p, a, farEnded);
    } else if a.Incoming? {
      FrameClosesOnce(p, a.frame);
    } else if a == Publish(false) {
      var c := p.phase.cell;
      assert CloseOnce(p.cells[c]);
      SetCellClosesOnce(p.cells, c, p.cells[c].(live := false));
    }
  }

  lemma FrameClosesOnce(p: Peer, f: Frame)
    requires PeerOk(p) && AllCloseOnce(p.cells)
    ensures AllCloseOnce(OnFrame(p, f).cells) && |p.cells| <= |OnFrame(p, f).cells|
    ensures forall c :: 0 <= c < |p.cells| ==> OnFrame(p, f).cells[c].state == p.cells[c].state
  {
    var i := f.header.streamId;
    assert CloseOnce(NewCell(i));
    if RouteOf(p, f) == Deliver {
      var c := p.streams[i];
      assert CloseOnce(p.cells[c].(queue := p.cells[c].queue + [f]));
    }
  }

  /** A `close` that is dropped while it waits has changed the state as the method does, has sent
      nothing, and leaves the writer free. */
  lemma AbandonedClose(cell: Cell, c: nat)
    requires cell.pc.Resting?
    ensures var changed := CellNext(CellNext(cell, AppCloseRead(c), false), AppCloseSet(c), false);
            && CellReady(changed, AppCloseAbandon(c))
            && CellNext(changed, AppCloseAbandon(c), false) == cell.(state := AfterClose(cell.state))
            && Emits(changed, AppCloseAbandon(c), false) == None
  {
  }

  /** Run without interruption, the steps of a split stream's `close` are the method: the same
      state, the same events, and the writer at rest again. */
  lemma UninterruptedClose(cell: Cell, c: nat, log: seq<StreamEvent>)
    requires cell.pc.Resting?
    ensures var changed := CellNext(CellNext(cell, AppCloseRead(c), false), AppCloseSet(c), false);
            var asked := if changed.pc.CloseSending? then CellNext(changed, AppCloseRequest(c), false) else changed;
            var told := if asked.pc.CloseTelling? then CellNext(asked, AppCloseTell(c), false) else asked;
            var log1 := if changed.pc.CloseSending? then Push(log, Emits(changed, AppCloseRequest(c), false)) else log;
            var log2 := if asked.pc.CloseTelling? then Push(log1, Emits(asked, AppCloseTell(c), false)) else log1;
            told.pc.Resting? && Machine(told.state, log2) == DoClose(Machine(cell.state, log), cell.id)
  {
    var s := cell.state;
    if SendsRequest(s) && SendsClosed(s) {
      Assoc(log, [FrameEvent(CloseFrame(cell.id))], [ClosedEvent(cell.id)]);
    }
  }
}
