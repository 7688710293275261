/** How streams end: what removes one, that closing and dropping do, and that the end of the
    session ends them all (foctet-mux/src/session.rs:133-138, 159-162, 264-267, 280-293;
    foctet-mux/src/stream.rs:127-158, 238-249, 269-287). */
module Endings {
  import opened Frames
  import opened LogicalStreams
  import opened Session
  import opened Demux
  import opened Seqs

  // ---------------------------------------------------------------- what removes a stream

  /** A Closed event of the stream is taken, a frame for it finds its reader gone, it cannot be
      handed over, or the actor ends. */
  predicate EndsEpoch(p: Peer, a: Action, c: nat)
    requires c < |p.cells|
  {
    var i := p.cells[c].id;
    || (a.TakeEvent? && p.events != [] && p.events[0] == ClosedEvent(i))
    || (a.Incoming? && a.frame.header.streamId == i && !p.cells[c].live)
    || (a == Publish(false) && p.phase.Registered? && p.phase.id == i)
    || a.End?
  }

  lemma FrameRemovesExactly(p: Peer, f: Frame, c: nat)
    requires Valid(p) && c < |p.cells| && IsRegistered(p, c)
    ensures c < |OnFrame(p, f).cells|
    ensures !IsRegistered(OnFrame(p, f), c) <==> f.header.streamId == p.cells[c].id && !p.cells[c].live
  {
  }

  lemma PublishRemovesExactly(p: Peer, ok: bool, c: nat)
    requires Valid(p) && p.phase.Registered? && c < |p.cells| && IsRegistered(p, c)
    ensures c < |OnPublish(p, ok).cells|
    ensures !IsRegistered(OnPublish(p, ok), c) <==> !ok && p.phase.id == p.cells[c].id
  {
  }

  lemma RemovesExactly(p: Peer, a: Action, c: nat)
    requires Valid(p) && Enabled(p, a) && c < |p.cells| && IsRegistered(p, c)
    ensures c < |Next(p, a).cells|
    ensures !IsRegistered(Next(p, a), c) <==> EndsEpoch(p, a, c)
  {
    if OnCell(a) {
      CellsPersist(p, a);
      CellActionKeepsLogs(p, a, c);
    } else if a.Incoming? {
      FrameRemovesExactly(p, a.frame, c);
    } else if a.Publish? {
      PublishRemovesExactly(p, a.ok, c);
    }
  }

  /** So the epochs of `EpochReceivesItsFrames` end by exactly these actions. */
  lemma EpochEndsExactly(p: Peer, a: Action, c: nat)
    ensures Removes(p, a, c) <==> Valid(p) && c < |p.cells| && IsRegistered(p, c) && Enabled(p, a) && EndsEpoch(p, a, c)
  {
    if Valid(p) && c < |p.cells| && IsRegistered(p, c) && Enabled(p, a) {
      RemovesExactly(p, a, c);
    }
  }

  // ---------------------------------------------------------------- the event channel

  /** How many events the actor takes in a run. */
  function Takes(acts: seq<Action>): nat {
    if acts == [] then 0 else Bit(acts[0].TakeEvent?) + Takes(acts[1..])
  }

  /** Events are taken from the front and added at the back. */
  lemma EventsMove(p: Peer, a: Action)
    requires Valid(p) && Enabled(p, a) && !a.End?
    ensures if a.TakeEvent? then p.events != [] && Next(p, a).events == p.events[1..] else p.events <= Next(p, a).events
  {
    if OnCell(a) {
      CellActionShape(p, a);
    }
  }

  /** Once the Closed event that stands at place `n` of the channel has been taken, the stream
      is not registered, whatever else happens. */
  lemma {:induction false} ToldStreamsAreRemoved(p: Peer, acts: seq<Action>, q: Peer, c: nat, n: nat)
    requires Reaches(p, acts, q) && Valid(p) && c < |p.cells|
    requires n < |p.events| && p.events[n] == ClosedEvent(p.cells[c].id) && Takes(acts) > n
    ensures c < |q.cells| && !IsRegistered(q, c)
    decreases |acts|
  {
    var (a, r) := (acts[0], Next(p, acts[0]));
    NextIsValid(p, a);
    CellsPersist(p, a);
    if IsRegistered(p, c) {
      RemovesExactly(p, a, c);
    } else {
      OneStep(p, a, c);
    }
    if !IsRegistered(r, c) {
      RemovalIsFinal(r, acts[1..], q, c);
    } else {
      EventsMove(p, a);
      ToldStreamsAreRemoved(r, acts[1..], q, c, if a.TakeEvent? then n - 1 else n);
    }
  }

  // ---------------------------------------------------------------- closing

  lemma UseReaches(p: Peer, a: Action)
    requires Valid(p) && Enabled(p, a) && OnCell(a)
    ensures a.c < |p.cells| && CellReady(p.cells[a.c], a) && Valid(OnStream(p, a)) && Reaches(p, [a], OnStream(p, a))
  {
    CellActionShape(p, a);
    NextIsValid(p, a);
    ReachesOne(p, a);
  }

  /** The peer after its stream `c` became `cell` and sent `sent` to the session. */
  function With(p: Peer, c: nat, cell: Cell, sent: seq<StreamEvent>): Peer
    requires c < |p.cells|
  {
    p.(cells := p.cells[c := cell], events := p.events + sent)
  }

  lemma ClosingBegins(p: Peer, c: nat)
    requires Valid(p) && Uses(p, c) && p.cells[c].pc.Resting?
    ensures var cell := p.cells[c];
            && Valid(With(p, c, OnCloseSet(cell.(pc := CloseCaptured(cell.state))), []))
            && Reaches(p, [AppCloseRead(c)] + [AppCloseSet(c)], With(p, c, OnCloseSet(cell.(pc := CloseCaptured(cell.state))), []))
  {
    var cell := p.cells[c];
    var p1 := With(p, c, cell.(pc := CloseCaptured(cell.state)), []);
    AppendEmpty(p.events);
    UseReaches(p, AppCloseRead(c));
    assert OnStream(p, AppCloseRead(c)) == p1;
    UseReaches(p1, AppCloseSet(c));
    assert OnStream(p1, AppCloseSet(c)) == With(p, c, OnCloseSet(cell.(pc := CloseCaptured(cell.state))), []);
    ReachesThen(p, [AppCloseRead(c)], p1, [AppCloseSet(c)], OnStream(p1, AppCloseSet(c)));
  }

  /** A `close` of an Established stream sends the close request and leaves it LocalClosing. */
  lemma FirstClose(p: Peer, c: nat) returns (acts: seq<Action>)
    requires Valid(p) && Uses(p, c) && !p.ended && p.cells[c].pc.Resting? && p.cells[c].state.Established?
    ensures var cell := p.cells[c].(state := LocalClosing, sent := p.cells[c].sent + [CloseFrame(p.cells[c].id)]);
            && Takes(acts) == 0 && Valid(With(p, c, cell, [FrameEvent(CloseFrame(cell.id))]))
            && Reaches(p, acts, With(p, c, cell, [FrameEvent(CloseFrame(cell.id))]))
  {
    var was := p.cells[c];
    var cell := was.(state := LocalClosing, sent := was.sent + [CloseFrame(was.id)]);
    var p1 := With(p, c, was.(state := LocalClosing, pc := CloseSending(false)), []);
    ClosingBegins(p, c);
    AppendEmpty(p.events);
    UseReaches(p1, AppCloseRequest(c));
    assert OnStream(p1, AppCloseRequest(c)) == With(p, c, cell, [FrameEvent(CloseFrame(cell.id))]);
    acts := [AppCloseRead(c)] + [AppCloseSet(c)] + [AppCloseRequest(c)];
    ReachesThen(p, [AppCloseRead(c)] + [AppCloseSet(c)], p1, [AppCloseRequest(c)], OnStream(p1, AppCloseRequest(c)));
    NoTakes(AppCloseRead(c), AppCloseSet(c), AppCloseRequest(c));
  }

  /** A `close` of a LocalClosing stream tells the session and leaves it Closed. */
  lemma SecondClose(p: Peer, c: nat) returns (acts: seq<Action>)
    requires Valid(p) && Uses(p, c) && !p.ended && p.cells[c].pc.Resting? && p.cells[c].state.LocalClosing?
    ensures var cell := p.cells[c].(state := Closed);
            && Takes(acts) == 0 && Valid(With(p, c, cell, [ClosedEvent(cell.id)]))
            && Reaches(p, acts, With(p, c, cell, [ClosedEvent(cell.id)]))
  {
    var cell := p.cells[c].(state := Closed);
    var p1 := With(p, c, cell.(pc := CloseTelling), []);
    ClosingBegins(p, c);
    AppendEmpty(p.events);
    UseReaches(p1, AppCloseTell(c));
    assert OnStream(p1, AppCloseTell(c)) == With(p, c, cell, [ClosedEvent(cell.id)]);
    acts := [AppCloseRead(c)] + [AppCloseSet(c)] + [AppCloseTell(c)];
    ReachesThen(p, [AppCloseRead(c)] + [AppCloseSet(c)], p1, [AppCloseTell(c)], OnStream(p1, AppCloseTell(c)));
    NoTakes(AppCloseRead(c), AppCloseSet(c), AppCloseTell(c));
  }

  lemma NoTakes(a: Action, b: Action, d: Action)
    requires !a.TakeEvent? && !b.TakeEvent? && !d.TakeEvent?
    ensures Takes([a] + [b] + [d]) == 0
  {
    TakesThen([a] + [b], [d]);
    TakesThen([a], [b]);
    assert [a][1..] == [] && [b][1..] == [] && [d][1..] == [];
  }

  /** Two closes of an Established stream, one after the other, send a close request and then
      tell the session; and once the session has taken what it was told, the stream is not
      registered any more, whatever else happens. */
  lemma TwoClosesRemoveTheStream(p: Peer, c: nat) returns (acts: seq<Action>, r: Peer)
    requires Valid(p) && Uses(p, c) && !p.ended && p.cells[c].pc.Resting? && p.cells[c].state.Established?
    ensures Reaches(p, acts, r) && Takes(acts) == 0 && c < |r.cells| && r.cells[c].state.Closed?
    ensures r.events == p.events + [FrameEvent(CloseFrame(p.cells[c].id)), ClosedEvent(p.cells[c].id)]
    ensures forall more, q: Peer :: Reaches(r, more, q) && Takes(more) >= |r.events| ==>
              c < |q.cells| && !IsRegistered(q, c)
  {
    var cell := p.cells[c].(state := LocalClosing, sent := p.cells[c].sent + [CloseFrame(p.cells[c].id)]);
    var m := With(p, c, cell, [FrameEvent(CloseFrame(cell.id))]);
    var first := FirstClose(p, c);
    var second := SecondClose(m, c);
    r := With(m, c, cell.(state := Closed), [ClosedEvent(cell.id)]);
    acts := first + second;
    ReachesThen(p, first, m, second, r);
    TakesThen(first, second);
    assert r.events[|r.events| - 1] == ClosedEvent(cell.id);
    forall more, q: Peer | Reaches(r, more, q) && Takes(more) >= |r.events| ensures c < |q.cells| && !IsRegistered(q, c) {
      ToldStreamsAreRemoved(r, more, q, c, |r.events| - 1);
    }
  }

  lemma {:induction false} TakesThen(acts: seq<Action>, more: seq<Action>)
    ensures Takes(acts + more) == Takes(acts) + Takes(more)
  {
    if acts == [] {
      AppendEmpty(more);
    } else {
      Uncons(acts, more);
      TakesThen(acts[1..], more);
    }
  }

  // ---------------------------------------------------------------- dropping the reader

  /** A frame for the stream arrives in the run. */
  predicate Arrives(acts: seq<Action>, i: u32) {
    exists k :: 0 <= k < |acts| && acts[k].Incoming? && acts[k].frame.header.streamId == i
  }

  lemma {:induction false} DeadStreamsAreRemoved(p: Peer, acts: seq<Action>, q: Peer, c: nat)
    requires Reaches(p, acts, q) && Valid(p) && c < |p.cells| && !p.cells[c].live && Arrives(acts, p.cells[c].id)
    ensures c < |q.cells| && !IsRegistered(q, c)
    decreases |acts|
  {
    var (a, r) := (acts[0], Next(p, acts[0]));
    NextIsValid(p, a);
    CellsPersist(p, a);
    DeadStaysDead(p, a, c);
    if IsRegistered(p, c) {
      RemovesExactly(p, a, c);
    } else {
      OneStep(p, a, c);
    }
    if !IsRegistered(r, c) {
      RemovalIsFinal(r, acts[1..], q, c);
    } else {
      var k :| 0 <= k < |acts| && acts[k].Incoming? && acts[k].frame.header.streamId == p.cells[c].id;
      assert acts[1..][k - 1] == acts[k];
      DeadStreamsAreRemoved(r, acts[1..], q, c);
    }
  }

  lemma DeadStaysDead(p: Peer, a: Action, c: nat)
    requires Valid(p) && Enabled(p, a) && c < |p.cells| && !p.cells[c].live
    ensures c < |Next(p, a).cells| && !Next(p, a).cells[c].live
  {
    CellsPersist(p, a);
    if OnCell(a) {
      CellActionShape(p, a);
    }
  }

  /** The first frame that arrives after the application has dropped its reader removes the
      stream. */
  lemma DroppedReadersAreRemoved(p: Peer, c: nat, acts: seq<Action>, q: Peer)
    requires Valid(p) && Enabled(p, AppDropReader(c)) && c < |p.cells|
    requires Reaches(Next(p, AppDropReader(c)), acts, q) && Arrives(acts, p.cells[c].id)
    ensures c < |q.cells| && !IsRegistered(q, c)
  {
    NextIsValid(p, AppDropReader(c));
    CellActionShape(p, AppDropReader(c));
    DeadStreamsAreRemoved(Next(p, AppDropReader(c)), acts, q, c);
  }

  // ---------------------------------------------------------------- failures

  /** A failed read, or a failed write other than that of an open response, leaves the actor
      nothing to do but to end. */
  lemma FailureEndsTheActor(p: Peer, a: Action, b: Action)
    requires Valid(p) && Enabled(p, a)
    requires a.ReadError? || a == TakeCommand(false) || (a == TakeEvent(false) && p.events[0].FrameEvent?)
    requires Enabled(Next(p, a), b)
    ensures b.End? || b.AppOpen? || b.AppAccept? || OnCell(b)
  {
  }

  // ---------------------------------------------------------------- the end of the session

  /** An actor that has ended feeds no stream. */
  predicate EndedIsEmpty(p: Peer) { p.ended ==> p.streams == map[] }

  lemma {:induction false} RunEndsEmpty(p: Peer, acts: seq<Action>, q: Peer)
    requires EndedIsEmpty(p) && Valid(p) && Reaches(p, acts, q)
    ensures EndedIsEmpty(q) && Valid(q)
    decreases |acts|
  {
    if acts != [] {
      NextIsValid(p, acts[0]);
      if OnCell(acts[0]) {
        CellActionShape(p, acts[0]);
      }
      RunEndsEmpty(Next(p, acts[0]), acts[1..], q);
    }
  }

  /** In every run, once the actor has ended: no stream is registered, and every reader can
      read what it still has and then sees the end. */
  lemma EndedSessionsEndTheirStreams(first: u32, acts: seq<Action>, p: Peer, c: nat)
    requires Reaches(NewPeer(first), acts, p) && p.ended && c < |p.cells|
    ensures Valid(p) && !IsRegistered(p, c)
    ensures c in p.held && p.cells[c].live ==>
              if p.cells[c].queue != [] then Enabled(p, AppRecv(c)) && !Enabled(p, AppSeeEof(c))
              else Enabled(p, AppSeeEof(c)) && !Enabled(p, AppRecv(c))
  {
    RunEndsEmpty(NewPeer(first), acts, p);
  }

  /** A reader at the end of its queue sees the end of the stream exactly when the session does
      not feed it any more; what it sees is what `poll_read` does. */
  lemma ReadersPoll(p: Peer, c: nat)
    requires Valid(p) && Uses(p, c) && p.cells[c].live
    ensures var (cell, connected) := (p.cells[c], IsRegistered(p, c));
            && (Enabled(p, AppRecv(c)) <==> cell.queue != [])
            && (Enabled(p, AppSeeEof(c)) <==> cell.queue == [] && !connected)
            && (cell.queue != [] ==>
                  var next := CellNext(cell, AppRecv(c), p.ended);
                  (next.state, next.queue) == AfterPoll(cell.state, cell.queue, connected))
            && (cell.queue == [] && !connected ==>
                  var next := CellNext(cell, AppSeeEof(c), p.ended);
                  (next.state, next.queue) == AfterPoll(cell.state, cell.queue, connected))
            && (cell.queue == [] && connected ==> AfterPoll(cell.state, cell.queue, connected) == (cell.state, cell.queue))
  {
  }
}
