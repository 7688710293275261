/** Conservation: the frames a stream's writer has sent are those its reader has read, those
    waiting for the reader, those on the pipe and those waiting to be written, in this
    order (foctet-mux/src/session.rs:133-138, 258-262; foctet-mux/src/stream.rs:85-105, 232-236). */
module Flow {
  import opened Frames
  import opened LogicalStreams
  import opened Session
  import opened TwoPeers
  import opened Handshake
  import opened Invariants
  import opened Demux
  import opened Seqs

  // ---------------------------------------------------------------- where frames are

  /** The stream registered for `i`, or -1. */
  ghost function CellOf(cells: seq<Cell>, i: u32): (c: int)
    ensures -1 <= c < |cells|
    ensures c == -1 <==> i !in Ids(cells)
    ensures c >= 0 ==> cells[c].id == i
  {
    if c :| 0 <= c < |cells| && cells[c].id == i then c else -1
  }

  lemma CellOfUnique(cells: seq<Cell>, c: nat)
    requires UniqueIds(cells) && c < |cells|
    ensures CellOf(cells, cells[c].id) == c
  {
    assert cells[c].id in Ids(cells);
  }

  /** What the application has sent on stream `i`. */
  ghost function SentOn(cells: seq<Cell>, i: u32): seq<Frame> {
    if i in Ids(cells) then cells[CellOf(cells, i)].sent else []
  }

  /** What has reached stream `i`'s channel: read, or waiting to be read. */
  ghost function LogOn(cells: seq<Cell>, i: u32): seq<Frame> {
    if i in Ids(cells) then Log(cells[CellOf(cells, i)]) else []
  }

  /** The data and close frames of stream `i` on a pipe. */
  function OnPipe(w: seq<Frame>, i: u32): seq<Frame> {
    if w == [] then []
    else (if StreamFrame(w[0]) && w[0].header.streamId == i then [w[0]] else []) + OnPipe(w[1..], i)
  }

  /** The frames of stream `i` in the event channel, as they will appear on the pipe. */
  function InChannel(events: seq<StreamEvent>, i: u32): seq<Frame> {
    if events == [] then []
    else
      (if events[0].FrameEvent? && events[0].frame.header.streamId == i then [Received(events[0].frame)] else [])
      + InChannel(events[1..], i)
  }

  lemma {:induction false} OnPipeAppend(w: seq<Frame>, f: Frame, i: u32)
    ensures OnPipe(w + [f], i)
         == OnPipe(w, i) + (if StreamFrame(f) && f.header.streamId == i then [f] else [])
  {
    if w == [] {
      assert ([] + [f])[1..] == [];
    } else {
      Uncons(w, [f]);
      OnPipeAppend(w[1..], f, i);
      Assoc(if StreamFrame(w[0]) && w[0].header.streamId == i then [w[0]] else [], OnPipe(w[1..], i),
            if StreamFrame(f) && f.header.streamId == i then [f] else []);
    }
  }

  lemma {:induction false} InChannelAppend(events: seq<StreamEvent>, e: StreamEvent, i: u32)
    ensures InChannel(events + [e], i)
         == InChannel(events, i)
            + (if e.FrameEvent? && e.frame.header.streamId == i then [Received(e.frame)] else [])
  {
    if events == [] {
      assert ([] + [e])[1..] == [];
    } else {
      Uncons(events, [e]);
      InChannelAppend(events[1..], e, i);
      Assoc(if events[0].FrameEvent? && events[0].frame.header.streamId == i then [Received(events[0].frame)] else [],
            InChannel(events[1..], i),
            if e.FrameEvent? && e.frame.header.streamId == i then [Received(e.frame)] else []);
    }
  }

  // ---------------------------------------------------------------- the law

  /** One stream in one direction. `sent` is what the writer has sent, as it appears on the
      wire; `log` what reached the reader's channel; `pipe` and `channel` what is on the
      way; `flowing` says that the reader's side still takes the stream's frames and `up`
      that the writer's side still writes them. */
  ghost predicate Conserved(sent: seq<Frame>, log: seq<Frame>, pipe: seq<Frame>, channel: seq<Frame>,
                            flowing: bool, up: bool)
  {
    && log <= sent
    && (flowing ==> log + pipe <= sent)
    && (flowing && up ==> log + pipe + channel == sent)
  }

  /** The reader's side takes frames of `i`: it is registered there, or not yet known. */
  ghost predicate Flowing(p: Peer, i: u32) { i in p.streams || i !in Ids(p.cells) }

  /** The writer's side still writes everything that its streams send. */
  predicate Up(q: Peer) { !q.ended && !q.phase.Broken? }

  /** Stream `i` from `q`'s writer to `p`'s reader. */
  ghost predicate FlowOf(i: u32, q: Peer, p: Peer, w: seq<Frame>) {
    Conserved(ReceivedAll(SentOn(q.cells, i)), LogOn(p.cells, i), OnPipe(w, i), InChannel(q.events, i),
              Flowing(p, i), Up(q))
  }

  ghost predicate Flows(q: Peer, p: Peer, w: seq<Frame>) {
    forall i :: FlowOf(i, q, p, w)
  }

  // ---------------------------------------------------------------- the law is kept

  lemma ConservedSend(sent: seq<Frame>, log: seq<Frame>, pipe: seq<Frame>, channel: seq<Frame>,
                      flowing: bool, up: bool, f: Frame)
    requires Conserved(sent, log, pipe, channel, flowing, up)
    ensures Conserved(sent + [f], log, pipe, channel + [f], flowing, up)
  {
    Assoc(log + pipe, channel, [f]);
  }

  lemma ConservedWrite(sent: seq<Frame>, log: seq<Frame>, pipe: seq<Frame>, channel: seq<Frame>,
                       flowing: bool, f: Frame)
    requires Conserved(sent, log, pipe, [f] + channel, flowing, true)
    ensures Conserved(sent, log, pipe + [f], channel, flowing, true)
  {
    Assoc(log + pipe, [f], channel);
    Assoc(log, pipe, [f]);
    if flowing {
      assert log + (pipe + [f]) + channel == sent;
    }
  }

  lemma ConservedDeliver(sent: seq<Frame>, log: seq<Frame>, pipe: seq<Frame>, channel: seq<Frame>,
                         up: bool, f: Frame)
    requires Conserved(sent, log, [f] + pipe, channel, true, up)
    ensures Conserved(sent, log + [f], pipe, channel, true, up)
  {
    Assoc(log, [f], pipe);
    assert log + [f] <= (log + [f]) + pipe;
  }

  lemma ConservedStops(sent: seq<Frame>, log: seq<Frame>, pipe: seq<Frame>, pipe': seq<Frame>, channel: seq<Frame>,
                       flowing: bool, up: bool)
    requires Conserved(sent, log, pipe, channel, flowing, up)
    ensures Conserved(sent, log, pipe', channel, false, up)
  {
  }

  lemma ConservedLost(sent: seq<Frame>, log: seq<Frame>, pipe: seq<Frame>, channel: seq<Frame>, channel': seq<Frame>,
                      flowing: bool, up: bool)
    requires Conserved(sent, log, pipe, channel, flowing, up)
    ensures Conserved(sent, log, pipe, channel', flowing, false)
  {
  }

  /** Replacing one stream by a version of itself changes what belongs to it alone. */
  lemma CellOfAfterSet(cells: seq<Cell>, c: nat, cell: Cell, i: u32)
    requires UniqueIds(cells) && c < |cells| && cell.id == cells[c].id
    ensures SentOn(cells[c := cell], i) == if i == cell.id then cell.sent else SentOn(cells, i)
    ensures LogOn(cells[c := cell], i) == if i == cell.id then Log(cell) else LogOn(cells, i)
    ensures SentOn(cells, cell.id) == cells[c].sent && LogOn(cells, cell.id) == Log(cells[c])
  {
    var after := cells[c := cell];
    IdsAfterSet(cells, c, cell);
    assert cells[c].id in Ids(cells);
    CellOfUnique(cells, c);
    CellOfUnique(after, c);
    if i in Ids(cells) {
      var d := CellOf(cells, i);
      CellOfUnique(cells, d);
      assert after[d].id == i;
      CellOfUnique(after, d);
    }
  }

  lemma CellOfAfterRegister(cells: seq<Cell>, j: u32, i: u32)
    requires UniqueIds(cells) && QueuesOwned(cells) && j !in Ids(cells)
    ensures SentOn(cells + [NewCell(j)], i) == SentOn(cells, i)
    ensures LogOn(cells + [NewCell(j)], i) == LogOn(cells, i)
  {
    var after := cells + [NewCell(j)];
    IdsAfterRegister(cells, j);
    if i in Ids(cells) {
      var d := CellOf(cells, i);
      assert after[d] == cells[d];
      CellOfUnique(after, d);
    } else if i == j {
      CellOfUnique(after, |cells|);
    }
  }

  // ---------------------------------------------------------------- the writer's side moves

  /** A frame that arrives is for a stream that is known here, or opens one that is not. */
  ghost predicate Expected(p: Peer, f: Frame) {
    if StreamFrame(f) then f.header.streamId in Ids(p.cells)
    else RouteOf(p, f) in {Accept, Establish} && f.header.streamId !in Ids(p.cells)
  }

  lemma EmissionFlows(q: Peer, n: Peer, c: nat, cell: Cell, e: Option<StreamEvent>, p: Peer, w: seq<Frame>, i: u32)
    requires UniqueIds(q.cells) && c < |q.cells| && cell.id == q.cells[c].id && FlowOf(i, q, p, w)
    requires n == q.(cells := q.cells[c := cell], events := Push(q.events, e))
    requires if e.Some? && e.value.FrameEvent?
             then cell.sent == q.cells[c].sent + [e.value.frame] && e.value.frame.header.streamId == cell.id
             else cell.sent == q.cells[c].sent
    ensures FlowOf(i, n, p, w)
  {
    CellOfAfterSet(q.cells, c, cell, i);
    if e.Some? {
      InChannelAppend(q.events, e.value, i);
      AppendEmpty(InChannel(q.events, i));
      if e.value.FrameEvent? && i == cell.id {
        ReceivedAllAppend(q.cells[c].sent, [e.value.frame]);
        ConservedSend(ReceivedAll(SentOn(q.cells, i)), LogOn(p.cells, i), OnPipe(w, i), InChannel(q.events, i),
                      Flowing(p, i), Up(q), Received(e.value.frame));
      }
    }
  }

  lemma WriterSends(q: Peer, a: Action, p: Peer, w: seq<Frame>, i: u32, farEnded: bool)
    requires PeerOk(q) && Enabled(q, a) && Disciplined(q, a, farEnded) && OnCell(a) && FlowOf(i, q, p, w)
    ensures FlowOf(i, Next(q, a), p, w)
  {
    CellActionShape(q, a);
    var cell := q.cells[a.c];
    EmissionFlows(q, Next(q, a), a.c, CellNext(cell, a, q.ended), Emits(cell, a, q.ended), p, w, i);
  }

  lemma WriterWrites(q: Peer, p: Peer, w: seq<Frame>, i: u32)
    requires q.events != [] && Up(q) && EventsOwned(q.events, Ids(q.cells)) && FlowOf(i, q, p, w)
    ensures FlowOf(i, OnEvent(q, true), p, w + ReceivedAll(if q.events[0].FrameEvent? then [q.events[0].frame] else []))
  {
    var e, rest := q.events[0], q.events[1..];
    AppendEmpty(InChannel(rest, i));
    if e.FrameEvent? {
      ReceivedStreamFrame(e.frame);
      OnPipeAppend(w, Received(e.frame), i);
      if e.frame.header.streamId == i {
        ConservedWrite(ReceivedAll(SentOn(q.cells, i)), LogOn(p.cells, i), OnPipe(w, i), InChannel(rest, i),
                       Flowing(p, i), Received(e.frame));
      } else {
        AppendEmpty(OnPipe(w, i));
      }
    } else {
      AppendEmpty(w);
    }
  }

  lemma WriterShakes(w: seq<Frame>, j: u32, flags: FrameFlags, i: u32)
    requires flags.IsOpenRequest() || flags.IsOpenResponse()
    ensures OnPipe(w + ReceivedAll([ControlFrame(j, flags)]), i) == OnPipe(w, i)
  {
    ReceivedControl(j, flags);
    OnPipeAppend(w, ControlFrame(j, flags), i);
    AppendEmpty(OnPipe(w, i));
  }

  lemma WriterReceives(q: Peer, f: Frame, p: Peer, w: seq<Frame>, i: u32)
    requires PeerOk(q) && q.phase.Idle? && Expected(q, f) && FlowOf(i, q, p, w)
    ensures FlowOf(i, OnFrame(q, f), p, w)
  {
    var j := f.header.streamId;
    match RouteOf(q, f)
    case Deliver =>
      var c := q.streams[j];
      CellOfAfterSet(q.cells, c, q.cells[c].(queue := q.cells[c].queue + [f]), i);
    case Accept => CellOfAfterRegister(q.cells, j, i);
    case Establish => CellOfAfterRegister(q.cells, j, i);
    case _ =>
  }

  /** Once the writer's side stops writing, what is left in its channel does not matter. */
  lemma WriterStops(q: Peer, q': Peer, p: Peer, w: seq<Frame>, i: u32)
    requires FlowOf(i, q, p, w) && q'.cells == q.cells && (Up(q') ==> Up(q) && q'.events == q.events)
    ensures FlowOf(i, q', p, w)
  {
    if !Up(q') {
      ConservedLost(ReceivedAll(SentOn(q.cells, i)), LogOn(p.cells, i), OnPipe(w, i), InChannel(q.events, i),
                    InChannel(q'.events, i), Flowing(p, i), Up(q));
    }
  }

  lemma WriterPublishes(q: Peer, a: Action, p: Peer, w: seq<Frame>, i: u32)
    requires PeerOk(q) && Enabled(q, a) && a.Publish? && FlowOf(i, q, p, w)
    ensures FlowOf(i, Next(q, a), p, w)
  {
    var c := q.phase.cell;
    CellOfAfterSet(q.cells, c, q.cells[c].(live := false), i);
  }

  /** The actions that write something. */
  lemma WriterOutputs(q: Peer, a: Action, p: Peer, w: seq<Frame>, i: u32)
    requires PeerOk(q) && Enabled(q, a) && FlowOf(i, q, p, w)
    requires a == Respond(true) || a == TakeCommand(true) || (a.TakeEvent? && (a.ok || !q.events[0].FrameEvent?))
    ensures FlowOf(i, Next(q, a), p, w + ReceivedAll(Output(q, a)))
  {
    if a.Respond? {
      WriterShakes(w, q.phase.id, OpenResponseFlags(), i);
    } else if a.TakeCommand? {
      WriterShakes(w, q.nextId, OpenRequestFlags(), i);
    } else {
      WriterWrites(q, p, w, i);
    }
  }

  /** The others. */
  lemma WriterWorks(q: Peer, a: Action, p: Peer, w: seq<Frame>, i: u32)
    requires PeerOk(q) && Enabled(q, a) && FlowOf(i, q, p, w) && !OnCell(a) && !a.Incoming?
    requires a != Respond(true) && a != TakeCommand(true) && !(a.TakeEvent? && (a.ok || !q.events[0].FrameEvent?))
    ensures FlowOf(i, Next(q, a), p, w) && Output(q, a) == []
  {
    if a.Publish? {
      WriterPublishes(q, a, p, w, i);
    } else {
      WriterStops(q, Next(q, a), p, w, i);
    }
  }

  lemma WriterMoves(q: Peer, a: Action, p: Peer, w: seq<Frame>, i: u32, farEnded: bool)
    requires PeerOk(q) && Enabled(q, a) && Disciplined(q, a, farEnded) && FlowOf(i, q, p, w)
    requires a.Incoming? ==> Expected(q, a.frame)
    ensures FlowOf(i, Next(q, a), p, w + ReceivedAll(Output(q, a)))
  {
    AppendEmpty(w);
    if OnCell(a) {
      WriterSends(q, a, p, w, i, farEnded);
    } else if a.Incoming? {
      WriterReceives(q, a.frame, p, w, i);
    } else if a == Respond(true) || a == TakeCommand(true) || (a.TakeEvent? && (a.ok || !q.events[0].FrameEvent?)) {
      WriterOutputs(q, a, p, w, i);
    } else {
      WriterWorks(q, a, p, w, i);
    }
  }

  // ---------------------------------------------------------------- the reader's side moves

  lemma ConservedWeaken(sent: seq<Frame>, log: seq<Frame>, pipe: seq<Frame>, channel: seq<Frame>,
                        flowing: bool, still: bool, up: bool)
    requires Conserved(sent, log, pipe, channel, flowing, up) && (still ==> flowing)
    ensures Conserved(sent, log, pipe, channel, still, up)
  {
  }

  lemma ReaderUses(q: Peer, p: Peer, a: Action, w: seq<Frame>, i: u32, farEnded: bool)
    requires PeerOk(p) && Enabled(p, a) && Disciplined(p, a, farEnded) && OnCell(a) && FlowOf(i, q, p, w)
    ensures FlowOf(i, q, Next(p, a), w)
  {
    CellActionShape(p, a);
    var cell := CellNext(p.cells[a.c], a, p.ended);
    CellOfAfterSet(p.cells, a.c, cell, i);
    IdsAfterSet(p.cells, a.c, cell);
    CellActionKeepsLogs(p, a, a.c);
  }

  lemma ReaderDelivers(q: Peer, p: Peer, f: Frame, w: seq<Frame>, i: u32)
    requires PeerOk(p) && StreamFrame(f) && f.header.streamId in Ids(p.cells)
    requires w != [] && w[0] == f && FlowOf(i, q, p, w)
    ensures FlowOf(i, q, OnFrame(p, f), w[1..])
  {
    var j := f.header.streamId;
    var sent, log, pipe := ReceivedAll(SentOn(q.cells, i)), LogOn(p.cells, i), OnPipe(w[1..], i);
    var channel := InChannel(q.events, i);
    AppendEmpty(pipe);
    if j in p.streams && p.cells[p.streams[j]].live {
      var c := p.streams[j];
      var cell := p.cells[c].(queue := p.cells[c].queue + [f]);
      CellOfAfterSet(p.cells, c, cell, i);
      IdsAfterSet(p.cells, c, cell);
      if i == j {
        Assoc(p.cells[c].received, p.cells[c].queue, [f]);
        ConservedDeliver(sent, log, pipe, channel, Up(q), f);
      }
    } else if i == j {
      ConservedStops(sent, log, OnPipe(w, i), pipe, channel, Flowing(p, i), Up(q));
    }
  }

  lemma ReaderShakes(q: Peer, p: Peer, f: Frame, w: seq<Frame>, i: u32)
    requires PeerOk(p) && !StreamFrame(f) && Expected(p, f)
    requires w != [] && w[0] == f && FlowOf(i, q, p, w)
    ensures FlowOf(i, q, OnFrame(p, f), w[1..])
  {
    var j := f.header.streamId;
    AppendEmpty(OnPipe(w[1..], i));
    CellOfAfterRegister(p.cells, j, i);
    IdsAfterRegister(p.cells, j);
  }

  lemma ReaderStops(q: Peer, p: Peer, p': Peer, w: seq<Frame>, i: u32)
    requires FlowOf(i, q, p, w) && LogOn(p'.cells, i) == LogOn(p.cells, i) && (Flowing(p', i) ==> Flowing(p, i))
    ensures FlowOf(i, q, p', w)
  {
    ConservedWeaken(ReceivedAll(SentOn(q.cells, i)), LogOn(p.cells, i), OnPipe(w, i), InChannel(q.events, i),
                    Flowing(p, i), Flowing(p', i), Up(q));
  }

  /** The other actions leave every channel alone; some of them remove streams. */
  lemma QuietReader(p: Peer, a: Action, i: u32)
    requires PeerOk(p) && Enabled(p, a) && !OnCell(a) && !a.Incoming?
    ensures LogOn(Next(p, a).cells, i) == LogOn(p.cells, i) && (Flowing(Next(p, a), i) ==> Flowing(p, i))
  {
    if a.Publish? {
      var c := p.phase.cell;
      CellOfAfterSet(p.cells, c, p.cells[c].(live := false), i);
      IdsAfterSet(p.cells, c, p.cells[c].(live := false));
    }
  }

  lemma ReaderMoves(q: Peer, p: Peer, a: Action, w: seq<Frame>, i: u32, farEnded: bool)
    requires PeerOk(p) && Enabled(p, a) && Disciplined(p, a, farEnded) && FlowOf(i, q, p, w)
    requires a.Incoming? ==> Expected(p, a.frame) && w != [] && a.frame == w[0]
    ensures FlowOf(i, q, Next(p, a), Consume(a, w))
  {
    if OnCell(a) {
      ReaderUses(q, p, a, w, i, farEnded);
    } else if a.Incoming? {
      if StreamFrame(a.frame) {
        ReaderDelivers(q, p, a.frame, w, i);
      } else {
        ReaderShakes(q, p, a.frame, w, i);
      }
    } else {
      QuietReader(p, a, i);
      ReaderStops(q, p, Next(p, a), w, i);
    }
  }

  // ---------------------------------------------------------------- both directions

  ghost predicate Conservation(s: System) {
    Flows(s.client, s.server, s.toServer) && Flows(s.server, s.client, s.toClient)
  }

  lemma StartConserves()
    ensures Conservation(Start())
  {
    var s := Start();
    forall i ensures FlowOf(i, s.client, s.server, []) {
    }
    forall i ensures FlowOf(i, s.server, s.client, []) {
    }
  }

  /** No frame arrives for a stream that the receiver has never had. */
  lemma ArrivalExpected(s: System, d: Side)
    requires Inv(s) && PipeFrom(s, Other(d)) != [] && !PeerAt(s, d).ended && PeerAt(s, d).phase.Idle?
    ensures Expected(PeerAt(s, d), PipeFrom(s, Other(d))[0])
  {
    InvFromEitherSide(s, d);
    WhatArrives(LinkOf(s, d));
    RegisteredIdsAreIds(PeerAt(s, d));
  }

  lemma StepConserves(s: System, d: Side, a: Action, t: System)
    requires Inv(s) && Conservation(s) && Step(s, d, a, t)
    ensures Conservation(t)
  {
    var p, q, out, back := PeerAt(s, d), PeerAt(s, Other(d)), PipeFrom(s, d), PipeFrom(s, Other(d));
    InvFromEitherSide(s, d);
    if a.Incoming? {
      ArrivalExpected(s, d);
    }
    forall i ensures FlowOf(i, PeerAt(t, d), PeerAt(t, Other(d)), PipeFrom(t, d)) {
      assert FlowOf(i, p, q, out);
      WriterMoves(p, a, q, out, i, q.ended);
    }
    forall i ensures FlowOf(i, PeerAt(t, Other(d)), PeerAt(t, d), PipeFrom(t, Other(d))) {
      assert FlowOf(i, q, p, back);
      ReaderMoves(q, p, a, back, i, q.ended);
    }
  }
}
