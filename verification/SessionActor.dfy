/** The session actor as it is written: fields updated one event at a time, while the
    application opens, accepts, uses and closes streams. Every run of the actor is a run of
    the transition system in `Session` (foctet-mux/src/session.rs:50-293). */
module SessionActors {
  import opened Frames
  import opened StreamIds
  import opened LogicalStreams
  import opened Session
  import opened Openers
  import opened Seqs

  /** What can happen next while the loop waits. The first five are the branches of the
      actor's `select!`; while it accepts a stream it waits twice, and the application goes
      on (`publishing`, `responding`). The others happen around the actor. */
  datatype Input =
    | Cancelled
    | FrameArrived(frame: Frame, publishing: seq<Action>, responding: seq<Action>)
    | ReadFailed
    | CommandReady
    | EventReady
    | Applied(action: Action)
    | ShutdownAsked
    | WriterLost
    | SessionLost

  /** What the control channel carries. */
  datatype Command = OpenStream(ticket: nat) | Shutdown

  function OpenTickets(control: seq<Command>): seq<nat> {
    if control == [] then []
    else (if control[0].OpenStream? then [control[0].ticket] else []) + OpenTickets(control[1..])
  }

  lemma {:induction false} OpenTicketsAppend(control: seq<Command>, c: Command)
    ensures OpenTickets(control + [c]) == OpenTickets(control) + (if c.OpenStream? then [c.ticket] else [])
  {
    if control == [] {
      assert ([] + [c])[1..] == [];
      AppendEmpty(OpenTickets([c]));
    } else {
      Uncons(control, [c]);
      OpenTicketsAppend(control[1..], c);
      Assoc(if control[0].OpenStream? then [control[0].ticket] else [], OpenTickets(control[1..]),
            if c.OpenStream? then [c.ticket] else []);
    }
  }

  // ---------------------------------------------------------------- what every state satisfies

  ghost predicate Consistent(p: Peer) { Valid(p) && Openers.Accounted(p) && Settled(p) }

  lemma NextIsConsistent(p: Peer, a: Action)
    requires Consistent(p) && Enabled(p, a)
    ensures Consistent(Next(p, a))
  {
    NextIsValid(p, a);
    NextKeepsAccount(p, a);
    AnswersOnlyGrow(p, a);
  }

  /** The frames that a run writes. */
  ghost function Outputs(p: Peer, acts: seq<Action>): seq<Frame>
    decreases |acts|
  {
    if acts == [] || !Valid(p) || !Enabled(p, acts[0]) then []
    else Output(p, acts[0]) + Outputs(Next(p, acts[0]), acts[1..])
  }

  /** A run from `p` to `q` that writes `out`, and keeps a consistent state consistent. */
  ghost predicate Does(p: Peer, acts: seq<Action>, q: Peer, out: seq<Frame>) {
    Reaches(p, acts, q) && Outputs(p, acts) == out && Consistent(q)
  }

  lemma {:induction false} OutputsThen(p: Peer, acts: seq<Action>, q: Peer, more: seq<Action>)
    requires Reaches(p, acts, q)
    ensures Outputs(p, acts + more) == Outputs(p, acts) + Outputs(q, more)
    decreases |acts|
  {
    if acts == [] {
      AppendEmpty(more);
      AppendEmpty(Outputs(q, more));
    } else {
      Uncons(acts, more);
      OutputsThen(Next(p, acts[0]), acts[1..], q, more);
      Assoc(Output(p, acts[0]), Outputs(Next(p, acts[0]), acts[1..]), Outputs(q, more));
    }
  }

  lemma DoesNothing(p: Peer)
    requires Consistent(p)
    ensures Does(p, [], p, [])
  {
  }

  lemma DoesOne(p: Peer, a: Action)
    requires Consistent(p) && Enabled(p, a)
    ensures Does(p, [a], Next(p, a), Output(p, a))
  {
    ReachesOne(p, a);
    NextIsConsistent(p, a);
    assert [a][1..] == [];
    AppendEmpty(Output(p, a));
  }

  lemma DoesThen(p: Peer, acts: seq<Action>, q: Peer, out: seq<Frame>, more: seq<Action>, r: Peer, later: seq<Frame>)
    requires Does(p, acts, q, out) && Does(q, more, r, later)
    ensures Does(p, acts + more, r, out + later)
  {
    ReachesThen(p, acts, q, more, r);
    OutputsThen(p, acts, q, more);
  }

  lemma CommandDoes(p: Peer, ok: bool)
    requires Consistent(p) && !p.ended && p.phase.Idle? && p.commands != []
    ensures Does(p, [TakeCommand(ok)], OnCommand(p, ok), if ok then [ControlFrame(p.nextId, OpenRequestFlags())] else [])
  {
    DoesOne(p, TakeCommand(ok));
  }

  lemma EventDoes(p: Peer, ok: bool)
    requires Consistent(p) && !p.ended && p.phase.Idle? && p.events != []
    ensures Does(p, [TakeEvent(ok)], OnEvent(p, ok),
                 if ok && p.events[0].FrameEvent? then [p.events[0].frame] else [])
  {
    DoesOne(p, TakeEvent(ok));
  }

  // ---------------------------------------------------------------- the application

  predicate ByApplication(a: Action) { a.AppOpen? || a.AppAccept? || OnCell(a) }

  /** The application tries to do `a`; what is not possible at the moment does not happen. */
  ghost function Tried(p: Peer, a: Action): (q: Peer)
    requires Valid(p)
    ensures Valid(q) && q.phase == p.phase && q.ended == p.ended && |q.cells| == |p.cells|
  {
    if ByApplication(a) && Enabled(p, a) then TriedKeeps(p, a); Next(p, a) else p
  }

  lemma TriedKeeps(p: Peer, a: Action)
    requires Valid(p) && Enabled(p, a) && ByApplication(a)
    ensures Valid(Next(p, a)) && Next(p, a).phase == p.phase && Next(p, a).ended == p.ended
    ensures |Next(p, a).cells| == |p.cells| && Output(p, a) == []
  {
    NextIsValid(p, a);
    if OnCell(a) {
      CellActionShape(p, a);
    }
  }

  /** The application holds the stream and the action is possible now. */
  predicate Usable(held: set<nat>, cells: seq<Cell>, streams: map<u32, nat>, ended: bool, a: Action)
    requires OnCell(a)
  {
    && a.c in held && a.c < |cells| && CellReady(cells[a.c], a) && (a.AppSend? ==> !ended)
    && (a.AppSeeEof? ==> !(cells[a.c].id in streams && streams[cells[a.c].id] == a.c))
  }

  lemma TriedIs(p: Peer, a: Action)
    requires Valid(p)
    ensures a.AppOpen? ==>
              Tried(p, a) == if p.ended then p else p.(commands := p.commands + [p.issued], issued := p.issued + 1)
    ensures a.AppAccept? ==>
              Tried(p, a) == if p.acceptQueue == [] then p
                             else p.(acceptQueue := p.acceptQueue[1..], held := p.held + {p.acceptQueue[0]})
    ensures OnCell(a) ==>
              Tried(p, a) == if Usable(p.held, p.cells, p.streams, p.ended, a) then OnStream(p, a) else p
    ensures !ByApplication(a) ==> Tried(p, a) == p
  {
    if OnCell(a) && Enabled(p, a) {
      CellActionShape(p, a);
    }
  }

  ghost function Done(p: Peer, a: Action): seq<Action> {
    if ByApplication(a) && Enabled(p, a) then [a] else []
  }

  ghost function TriedAll(p: Peer, acts: seq<Action>): (q: Peer)
    requires Valid(p)
    ensures Valid(q) && q.phase == p.phase && q.ended == p.ended && |q.cells| == |p.cells|
    decreases |acts|
  {
    if acts == [] then p else TriedAll(Tried(p, acts[0]), acts[1..])
  }

  ghost function DoneAll(p: Peer, acts: seq<Action>): seq<Action>
    requires Valid(p)
    decreases |acts|
  {
    if acts == [] then [] else Done(p, acts[0]) + DoneAll(Tried(p, acts[0]), acts[1..])
  }

  lemma TriedDoes(p: Peer, a: Action)
    requires Consistent(p)
    ensures Does(p, Done(p, a), Tried(p, a), [])
  {
    if ByApplication(a) && Enabled(p, a) {
      TriedKeeps(p, a);
      DoesOne(p, a);
    } else {
      DoesNothing(p);
    }
  }

  lemma {:induction false} TriedAllDoes(p: Peer, acts: seq<Action>)
    requires Consistent(p)
    ensures Does(p, DoneAll(p, acts), TriedAll(p, acts), [])
    decreases |acts|
  {
    if acts == [] {
      DoesNothing(p);
    } else {
      var q := Tried(p, acts[0]);
      TriedDoes(p, acts[0]);
      TriedAllDoes(q, acts[1..]);
      DoesThen(p, Done(p, acts[0]), q, [], DoneAll(q, acts[1..]), TriedAll(p, acts), []);
    }
  }

  // ---------------------------------------------------------------- the accept branch

  ghost function Publishing(p: Peer, f: Frame, publishing: seq<Action>): (q: Peer)
    requires Valid(p) && RouteOf(p, f) == Accept
    ensures Valid(q) && q.phase == Registered(f.header.streamId, |p.cells|) && q.ended == p.ended
  {
    OnFrameIsValid(p, f);
    TriedAll(OnFrame(p, f), publishing)
  }

  ghost function Responding(p: Peer, published: bool, responding: seq<Action>): (q: Peer)
    requires Valid(p) && p.phase.Registered?
    ensures Valid(q) && q.phase == Published(p.phase.id) && q.ended == p.ended
  {
    OnPublishIsValid(p, published);
    TriedAll(OnPublish(p, published), responding)
  }

  lemma OnPublishIsValid(p: Peer, published: bool)
    requires Valid(p) && p.phase.Registered?
    ensures Valid(OnPublish(p, published))
  {
    var c := p.phase.cell;
    SetCellIsValid(p, c, p.cells[c].(live := false));
  }

  /** Register, let the application work, publish, let it work, respond. */
  ghost function AcceptedMeanwhile(p: Peer, f: Frame, published: bool, publishing: seq<Action>,
                                   responding: seq<Action>): Peer
    requires Valid(p) && RouteOf(p, f) == Accept
  {
    Responding(Publishing(p, f, publishing), published, responding).(phase := Idle)
  }

  ghost function FrameActions(p: Peer, f: Frame, published: bool, responded: bool,
                              publishing: seq<Action>, responding: seq<Action>): seq<Action>
    requires Valid(p)
  {
    if RouteOf(p, f) != Accept then [Incoming(f)]
    else
      OnFrameIsValid(p, f);
      var q := Publishing(p, f, publishing);
      OnPublishIsValid(q, published);
      [Incoming(f)] + DoneAll(OnFrame(p, f), publishing)
      + ([Publish(published)] + DoneAll(OnPublish(q, published), responding) + [Respond(responded)])
  }

  lemma FirstHalfDoes(p: Peer, f: Frame, publishing: seq<Action>)
    requires Consistent(p) && !p.ended && p.phase.Idle? && RouteOf(p, f) == Accept
    ensures Valid(OnFrame(p, f))
    ensures Does(p, [Incoming(f)] + DoneAll(OnFrame(p, f), publishing), Publishing(p, f, publishing), [])
  {
    OnFrameIsValid(p, f);
    DoesOne(p, Incoming(f));
    TriedAllDoes(OnFrame(p, f), publishing);
    DoesThen(p, [Incoming(f)], OnFrame(p, f), [], DoneAll(OnFrame(p, f), publishing), Publishing(p, f, publishing), []);
  }

  lemma SecondHalfDoes(p: Peer, published: bool, responded: bool, responding: seq<Action>)
    requires Consistent(p) && !p.ended && p.phase.Registered?
    ensures Valid(OnPublish(p, published))
    ensures Does(p, [Publish(published)] + DoneAll(OnPublish(p, published), responding) + [Respond(responded)],
                 Responding(p, published, responding).(phase := Idle),
                 if responded then [ControlFrame(p.phase.id, OpenResponseFlags())] else [])
  {
    var q, r := OnPublish(p, published), Responding(p, published, responding);
    OnPublishIsValid(p, published);
    DoesOne(p, Publish(published));
    TriedAllDoes(q, responding);
    DoesThen(p, [Publish(published)], q, [], DoneAll(q, responding), r, []);
    DoesOne(r, Respond(responded));
    DoesThen(p, [Publish(published)] + DoneAll(q, responding), r, [], [Respond(responded)], r.(phase := Idle),
             Output(r, Respond(responded)));
  }

  /** What handling a frame comes to, and what it writes. */
  ghost function Handled(p: Peer, f: Frame, published: bool, publishing: seq<Action>, responding: seq<Action>): Peer
    requires Valid(p)
  {
    if RouteOf(p, f) == Accept then AcceptedMeanwhile(p, f, published, publishing, responding) else OnFrame(p, f)
  }

  function Reply(p: Peer, f: Frame, responded: bool): seq<Frame> {
    if RouteOf(p, f) == Accept && responded then [ControlFrame(f.header.streamId, OpenResponseFlags())] else []
  }

  lemma FrameDoes(p: Peer, f: Frame, published: bool, responded: bool, publishing: seq<Action>, responding: seq<Action>)
    requires Consistent(p) && !p.ended && p.phase.Idle?
    ensures Does(p, FrameActions(p, f, published, responded, publishing, responding),
                 Handled(p, f, published, publishing, responding), Reply(p, f, responded))
    ensures Handled(p, f, published, publishing, responding).phase.Idle?
    ensures !Handled(p, f, published, publishing, responding).ended
  {
    if RouteOf(p, f) == Accept {
      var q := Publishing(p, f, publishing);
      FirstHalfDoes(p, f, publishing);
      SecondHalfDoes(q, published, responded, responding);
      DoesThen(p, [Incoming(f)] + DoneAll(OnFrame(p, f), publishing), q, [],
               [Publish(published)] + DoneAll(OnPublish(q, published), responding) + [Respond(responded)],
               Handled(p, f, published, publishing, responding), Reply(p, f, responded));
    } else {
      DoesOne(p, Incoming(f));
    }
  }

  // ---------------------------------------------------------------- the actor

  class SessionActor {
    const nextStreamId: StreamIdCounter
    var openedIds: seq<u32>
    var pending: map<u32, nat>
    var streams: map<u32, nat>
    var cells: seq<Cell>
    var events: seq<StreamEvent>
    var acceptQueue: seq<nat>
    var held: set<nat>
    var control: seq<Command>
    var issued: nat
    var answers: seq<Answer>
    var phase: Phase             // where the actor is inside its loop body
    var ended: bool
    var localClosed: bool
    var written: seq<Frame>      // what the framed writer has taken
    var writerUp: bool           // whether it takes more
    var sessionUp: bool          // whether anyone can call accept_stream

    ghost function View(): Peer
      reads this, nextStreamId
    {
      Peer(nextStreamId.value, openedIds, pending, streams, cells, events, acceptQueue, held, OpenTickets(control),
           issued, answers, phase, ended)
    }

    constructor (client: bool)
      ensures fresh(nextStreamId) && Consistent(View()) && written == [] && writerUp && sessionUp && !localClosed
      ensures View() == NewPeer(if client then CLIENT_FIRST_ID else SERVER_FIRST_ID)
    {
      nextStreamId := new StreamIdCounter(if client then CLIENT_FIRST_ID else SERVER_FIRST_ID);
      openedIds, pending, streams, cells := [], map[], map[], [];
      events, acceptQueue, held, control, issued, answers := [], [], {}, [], 0, [];
      phase, ended, localClosed, written, writerUp, sessionUp := Idle, false, false, [], true, true;
      new;
      assert pending.Values == {};
    }

    // -------------------------------------------------------------- the application

    /** `Session::open_stream` up to the point where it waits for the reply. */
    method CallOpen()
      modifies this`control, this`issued
      ensures View() == old(View()).(commands := old(View()).commands + [old(issued)], issued := old(issued) + 1)
    {
      OpenTicketsAppend(control, OpenStream(issued));
      control, issued := control + [OpenStream(issued)], issued + 1;
    }

    /** `Session::accept_stream` when a stream is waiting. */
    method CallAccept()
      requires acceptQueue != []
      modifies this`acceptQueue, this`held
      ensures View() == old(View()).(acceptQueue := old(acceptQueue)[1..], held := old(held) + {old(acceptQueue)[0]})
    {
      held, acceptQueue := held + {acceptQueue[0]}, acceptQueue[1..];
    }

    /** A piece of work on one of the application's streams. */
    method UseStream(a: Action)
      requires OnCell(a) && Usable(held, cells, streams, ended, a)
      modifies this`cells, this`events
      ensures View() == OnStream(old(View()), a)
    {
      var cell := cells[a.c];
      cells, events := cells[a.c := CellNext(cell, a, ended)], Push(events, Emits(cell, a, ended));
    }

    method Try(a: Action)
      requires Valid(View())
      modifies this`control, this`issued, this`acceptQueue, this`held, this`cells, this`events
      ensures View() == Tried(old(View()), a)
    {
      TriedIs(View(), a);
      if a.AppOpen? {
        if !ended {
          CallOpen();
        }
      } else if a.AppAccept? {
        if acceptQueue != [] {
          CallAccept();
        }
      } else if OnCell(a) && Usable(held, cells, streams, ended, a) {
        UseStream(a);
      }
    }

    method TryAll(acts: seq<Action>)
      requires Valid(View())
      modifies this`control, this`issued, this`acceptQueue, this`held, this`cells, this`events
      ensures View() == TriedAll(old(View()), acts)
    {
      ghost var goal := TriedAll(View(), acts);
      assert acts[0..] == acts;
      for k := 0 to |acts|
        invariant Valid(View()) && TriedAll(View(), acts[k..]) == goal
        invariant streams == old(streams) && sessionUp == old(sessionUp) && writerUp == old(writerUp)
      {
        assert acts[k..][0] == acts[k] && acts[k..][1..] == acts[k + 1..];
        Try(acts[k]);
      }
    }

    // -------------------------------------------------------------- the handlers

    /** `sender.send(frame)` for a registered stream; a dropped receiver removes the stream. */
    method Forward(frame: Frame)
      requires Valid(View()) && frame.header.streamId in streams
      modifies this`cells, this`streams
      ensures View() == OnFrame(old(View()), frame)
    {
      var i := frame.header.streamId;
      var c := streams[i];
      if cells[c].live {
        cells := cells[c := cells[c].(queue := cells[c].queue + [frame])];
      } else {
        streams := streams - {i};
      }
    }

    /** A new channel and its stream, entered into the map. */
    method NewStream(i: u32) returns (c: nat)
      modifies this`cells, this`streams
      ensures c == |old(cells)| && View() == Register(old(View()), i)
    {
      c := |cells|;
      cells, streams := cells + [NewCell(i)], streams[i := c];
    }

    /** `stream_sender.send`: into the accept queue, or dropped when nobody can accept. */
    method HandOver(i: u32, c: nat)
      requires Valid(View()) && phase == Registered(i, c)
      modifies this`cells, this`streams, this`acceptQueue, this`phase
      ensures View() == OnPublish(old(View()), sessionUp)
    {
      if sessionUp {
        acceptQueue, phase := acceptQueue + [c], Published(i);
      } else {
        streams, cells, phase := streams - {i}, cells[c := cells[c].(live := false)], Published(i);
      }
    }

    /** The accept branch up to the awaited hand-over, during which the application works. */
    method RegisterStream(frame: Frame, publishing: seq<Action>) returns (c: nat)
      requires Valid(View()) && phase.Idle? && RouteOf(View(), frame) == Accept
      modifies this`cells, this`streams, this`phase, this`control, this`issued, this`acceptQueue, this`held, this`events
      ensures View() == Publishing(old(View()), frame, publishing) && c == |old(cells)|
    {
      ghost var p := View();
      OnFrameIsValid(p, frame);
      var i := frame.header.streamId;
      c := NewStream(i);
      phase := Registered(i, c);
      assert View() == OnFrame(p, frame);
      TryAll(publishing);
    }

    /** The hand-over and the awaited response, during which the application works. */
    method PublishStream(i: u32, c: nat, responding: seq<Action>)
      requires Valid(View()) && phase == Registered(i, c)
      modifies this`cells, this`streams, this`phase, this`control, this`issued, this`acceptQueue, this`held, this`events
      ensures View() == Responding(old(View()), sessionUp, responding)
    {
      OnPublishIsValid(View(), sessionUp);
      HandOver(i, c);
      TryAll(responding);
    }

    method SendResponse(i: u32)
      modifies this`phase, this`written
      ensures View() == old(View()).(phase := Idle)
      ensures written == old(written) + if writerUp then [ControlFrame(i, OpenResponseFlags())] else []
    {
      AppendEmpty(written);
      var response := if writerUp then [ControlFrame(i, OpenResponseFlags())] else [];
      written, phase := written + response, Idle;
    }

    /** The accept branch: register, hand over, respond. */
    method AcceptStream(frame: Frame, publishing: seq<Action>, responding: seq<Action>)
      requires Valid(View()) && phase.Idle? && RouteOf(View(), frame) == Accept
      modifies this`cells, this`streams, this`phase, this`control, this`issued, this`acceptQueue, this`held, this`events,
               this`written
      ensures View() == AcceptedMeanwhile(old(View()), frame, sessionUp, publishing, responding)
      ensures written == old(written) + Reply(old(View()), frame, writerUp)
    {
      var i := frame.header.streamId;
      var c := RegisterStream(frame, publishing);
      PublishStream(i, c, responding);
      SendResponse(i);
    }

    /** An open response or reset for an id that may be pending. */
    method AnswerOpener(frame: Frame)
      requires frame.header.flags.IsOpenResponse() || frame.header.flags.IsOpenReset()
      requires Valid(View()) && frame.header.streamId !in streams
      modifies this`cells, this`streams, this`held, this`pending, this`answers
      ensures View() == OnFrame(old(View()), frame)
    {
      var i := frame.header.streamId;
      if i in pending {
        var ticket := pending[i];
        pending := pending - {i};
        if frame.header.flags.IsOpenResponse() {
          var c := NewStream(i);
          held, answers := held + {c}, answers + [Answer(ticket, Opened(c))];
        } else {
          answers := answers + [Answer(ticket, Rejected)];
        }
      }
    }

    method HandleIncomingFrame(frame: Frame, publishing: seq<Action>, responding: seq<Action>)
      requires Valid(View()) && phase.Idle?
      modifies this`cells, this`streams, this`phase, this`control, this`issued, this`acceptQueue, this`held, this`events,
               this`written, this`pending, this`answers
      ensures View() == Handled(old(View()), frame, sessionUp, publishing, responding)
      ensures written == old(written) + Reply(old(View()), frame, writerUp)
    {
      var i, flags := frame.header.streamId, frame.header.flags;
      AppendEmpty(written);
      if i in streams {
        Forward(frame);
      } else if flags.IsOpenRequest() {
        AcceptStream(frame, publishing, responding);
      } else if flags.IsOpenResponse() || flags.IsOpenReset() {
        AnswerOpener(frame);
      }
    }

    /** Takes the next command and enters it into the map under a new id. A waiter that is
        overwritten in the map is dropped. */
    method Book() returns (ticket: nat, i: u32)
      requires control != [] && control[0].OpenStream?
      modifies this`control, this`openedIds, this`pending, this`answers, nextStreamId
      ensures old(View()).commands != [] && View() == Booked(old(View()))
      ensures ticket == old(View()).commands[0] && i == old(nextStreamId.value)
    {
      ticket := control[0].ticket;
      i := nextStreamId.FetchAdd(1);
      var lost := if i in pending then [Answer(pending[i], NoResponse)] else [];
      assert OpenTickets(control)[1..] == OpenTickets(control[1..]);
      control, openedIds, pending, answers := control[1..], openedIds + [i], pending[i := ticket], answers + lost;
    }

    /** An `OpenStream` command; `false` makes the loop break. */
    method HandleOpen() returns (ok: bool)
      requires phase.Idle? && control != [] && control[0].OpenStream?
      modifies this`control, this`openedIds, this`pending, this`answers, this`written, this`phase, nextStreamId
      ensures old(View()).commands != [] && View() == OnCommand(old(View()), writerUp) && ok == writerUp
      ensures written == old(written)
                         + if ok then [ControlFrame(old(nextStreamId.value), OpenRequestFlags())] else []
    {
      var ticket, i := Book();
      ok := writerUp;
      AppendEmpty(written);
      if ok {
        written := written + [ControlFrame(i, OpenRequestFlags())];
      } else {
        // The caller's reply channel is dropped with the failed call, so its waiter is dead.
        pending, answers, phase := pending - {i}, answers + [Answer(ticket, NoResponse)], Broken;
      }
    }

    /** The next command. `Shutdown` only sets a flag and is answered. */
    method HandleControlCommand() returns (ok: bool, shutdownAnswered: bool)
      requires phase.Idle? && control != []
      modifies this`control, this`openedIds, this`pending, this`answers, this`written, this`phase, this`localClosed,
               nextStreamId
      ensures shutdownAnswered <==> old(control)[0].Shutdown?
      ensures shutdownAnswered ==> ok && View() == old(View()) && written == old(written) && localClosed
      ensures !shutdownAnswered ==>
                && old(View()).commands != [] && View() == OnCommand(old(View()), writerUp) && ok == writerUp
                && localClosed == old(localClosed)
                && written == old(written) + if ok then [ControlFrame(old(nextStreamId.value), OpenRequestFlags())] else []
    {
      match control[0] {
        case OpenStream(_) =>
          ok := HandleOpen();
          shutdownAnswered := false;
        case Shutdown =>
          AppendEmpty(OpenTickets(control[1..]));
          control, localClosed := control[1..], true;
          ok, shutdownAnswered := true, true;
      }
    }

    /** The next event of a stream; `false` makes the loop break. */
    method HandleStreamEvent() returns (ok: bool)
      requires phase.Idle? && events != []
      modifies this`events, this`streams, this`written, this`phase
      ensures View() == OnEvent(old(View()), writerUp) && ok == !phase.Broken? && (ok ==> phase.Idle?)
      ensures written == old(written)
                         + if writerUp && old(events)[0].FrameEvent? then [old(events)[0].frame] else []
    {
      ghost var p := View();
      var event := events[0];
      events := events[1..];
      ok := true;
      AppendEmpty(written);
      match event {
        case FrameEvent(frame) =>
          if writerUp {
            written := written + [frame];
          } else {
            phase := Broken;
            ok := false;
          }
        case ClosedEvent(i) =>
          streams := streams - {i};
        case ErrorEvent =>
      }
      assert View() == OnEvent(p, writerUp);
    }

    /** Dropping the map of pending opens, in whatever order it has. */
    method DropPending(ghost p: Peer, commandTickets: seq<nat>) returns (dropped: seq<nat>)
      requires Openers.Accounted(p) && pending == p.pending && commandTickets == p.commands
      modifies this`pending
      ensures pending == map[] && NoDuplicates(dropped)
      ensures forall t :: t in dropped <==> t in p.commands || exists i :: i in p.pending && p.pending[i] == t
    {
      dropped := commandTickets;
      while pending != map[]
        invariant pending.Keys <= p.pending.Keys && forall i :: i in pending ==> pending[i] == p.pending[i]
        invariant NoDuplicates(dropped)
        invariant forall t :: t in dropped <==> DroppedBefore(p, pending, t)
        decreases |pending|
      {
        var i :| i in pending;
        var x := pending[i];
        NotDroppedYet(p, pending, i);
        ghost var before := pending;
        assert (before - {i}).Keys == before.Keys - {i};
        pending := pending - {i};
        forall t ensures t in dropped + [x] <==> DroppedBefore(p, pending, t) {
          MemberOfAppend(dropped, x, t);
          DroppedOneMore(p, before, i, t);
        }
        dropped := dropped + [x];
      }
    }

    /** `shutdown`, and then everything the actor owns is dropped. */
    method Shutdown() returns (dropped: seq<nat>)
      requires Openers.Accounted(View())
      modifies this`pending, this`streams, this`events, this`control, this`phase, this`ended, this`answers
      ensures NoDuplicates(dropped) && (set k | 0 <= k < |dropped| :: dropped[k]) == Unanswered(old(View()))
      ensures View() == OnEnd(old(View()), dropped)
    {
      ghost var p := View();
      dropped := DropPending(p, OpenTickets(control));
      DroppedIsUnanswered(p, dropped);
      streams, events, control, phase, ended := map[], [], [], Idle, true;
      answers := answers + seq(|dropped|, k requires 0 <= k < |dropped| => Answer(dropped[k], NoResponse));
      assert View() == OnEnd(p, dropped);
    }

    // -------------------------------------------------------------- the loop

    method OnFrameArrived(frame: Frame, publishing: seq<Action>, responding: seq<Action>) returns (ghost did: seq<Action>)
      requires Consistent(View()) && !ended && phase.Idle?
      modifies this
      ensures old(written) <= written && Does(old(View()), did, View(), written[|old(written)|..]) && !ended && phase.Idle?
    {
      ghost var p := View();
      did := FrameActions(p, frame, sessionUp, writerUp, publishing, responding);
      FrameDoes(p, frame, sessionUp, writerUp, publishing, responding);
      HandleIncomingFrame(frame, publishing, responding);
    }

    method OnCommandReady() returns (ok: bool, ghost did: seq<Action>)
      requires Consistent(View()) && !ended && phase.Idle?
      modifies this, nextStreamId
      ensures old(written) <= written && Does(old(View()), did, View(), written[|old(written)|..]) && !ended
      ensures ok ==> phase.Idle?
    {
      ghost var p := View();
      ok, did := true, [];
      DoesNothing(p);
      if control != [] {
        var answered;
        if p.commands != [] {
          CommandDoes(p, writerUp);
        }
        ok, answered := HandleControlCommand();
        did := if answered then [] else [TakeCommand(writerUp)];
      }
    }

    method OnEventReady() returns (ok: bool, ghost did: seq<Action>)
      requires Consistent(View()) && !ended && phase.Idle?
      modifies this, nextStreamId
      ensures old(written) <= written && Does(old(View()), did, View(), written[|old(written)|..]) && !ended
      ensures ok ==> phase.Idle?
    {
      ghost var p := View();
      ok, did := true, [];
      DoesNothing(p);
      if events != [] {
        did := [TakeEvent(writerUp)];
        EventDoes(p, writerUp);
        ok := HandleStreamEvent();
      }
    }

    method OnApplied(a: Action) returns (ghost did: seq<Action>)
      requires Consistent(View()) && !ended && phase.Idle?
      modifies this
      ensures old(written) <= written && Does(old(View()), did, View(), written[|old(written)|..]) && !ended && phase.Idle?
      ensures did == Done(old(View()), a)
    {
      ghost var p := View();
      did := Done(p, a);
      TriedDoes(p, a);
      Try(a);
    }

    /** One thing that happens while the loop waits; `false` makes the loop break. */
    method OneInput(input: Input) returns (ok: bool, ghost did: seq<Action>)
      requires Consistent(View()) && !ended && phase.Idle?
      modifies this, nextStreamId
      ensures old(written) <= written && Does(old(View()), did, View(), written[|old(written)|..]) && !ended
      ensures (ok ==> phase.Idle?) && (!ok ==> MayBreak(input))
      ensures input.Applied? ==> did == Done(old(View()), input.action)
    {
      ghost var p := View();
      ok, did := true, [];
      DoesNothing(p);
      match input {
        case Cancelled => ok := false;
        case ReadFailed =>
          DoesOne(p, ReadError);
          phase, ok, did := Broken, false, [ReadError];
        case FrameArrived(frame, publishing, responding) => did := OnFrameArrived(frame, publishing, responding);
        case CommandReady => ok, did := OnCommandReady();
        case EventReady => ok, did := OnEventReady();
        case Applied(action) => did := OnApplied(action);
        case ShutdownAsked =>
          OpenTicketsAppend(control, Command.Shutdown);
          AppendEmpty(OpenTickets(control));
          control := control + [Command.Shutdown];
        case WriterLost => writerUp := false;
        case SessionLost => sessionUp := false;
      }
    }

    /** The loop of `run`: it handles what happens until something makes it break. */
    method Loop(inputs: seq<Input>) returns (handled: nat, ghost acts: seq<Action>)
      requires Consistent(View()) && !ended && phase.Idle?
      modifies this, nextStreamId
      ensures old(written) <= written && Does(old(View()), acts, View(), written[|old(written)|..]) && !ended
      ensures handled <= |inputs| && (handled < |inputs| ==> handled > 0 && MayBreak(inputs[handled - 1]))
      ensures Opens(acts) >= OpensAsked(inputs[..handled])
    {
      ghost var p, before := View(), written;
      acts, handled := [], 0;
      var ok := true;
      DoesNothing(p);
      while handled < |inputs| && ok
        invariant handled <= |inputs| && (!ok ==> handled > 0 && MayBreak(inputs[handled - 1]))
        invariant before <= written && Does(p, acts, View(), written[|before|..]) && !ended && (ok ==> phase.Idle?)
        invariant Opens(acts) >= OpensAsked(inputs[..handled])
        decreases |inputs| - handled
      {
        ghost var q, mid, did := View(), written, [];
        ok, did := OneInput(inputs[handled]);
        assert written[|before|..] == mid[|before|..] + written[|mid|..];
        DoesThen(p, acts, q, mid[|before|..], did, View(), written[|mid|..]);
        OneMoreAsked(inputs, handled, q, acts, did);
        acts := acts + did;
        handled := handled + 1;
      }
    }

    /** `run`, whatever happens and in whatever order: the loop, then the end of the actor. */
    method Run(inputs: seq<Input>) returns (handled: nat, ghost acts: seq<Action>)
      requires Consistent(View()) && !ended && phase.Idle?
      modifies this, nextStreamId
      ensures Reaches(old(View()), acts, View()) && ended
      ensures written == old(written) + Outputs(old(View()), acts)
      ensures handled <= |inputs| && (handled < |inputs| ==> handled > 0 && MayBreak(inputs[handled - 1]))
      ensures issued == old(issued) + Opens(acts) && Opens(acts) >= OpensAsked(inputs[..handled])
      ensures forall t :: 0 <= t < issued ==> AnsweredOnce(View(), t)
    {
      handled, acts := Loop(inputs);
      ghost var q := View();
      var dropped := Shutdown();
      EndDoes(old(View()), acts, q, written[|old(written)|..], dropped);
      OpensThen(acts, [End(dropped)]);
      acts := acts + [End(dropped)];
      OpensAreIssued(old(View()), acts, View());
      EveryoneIsAnswered(View());
    }
  }

  /** What can make the loop break. */
  predicate MayBreak(input: Input) {
    input.Cancelled? || input.ReadFailed? || input.CommandReady? || input.EventReady?
  }

  // ---------------------------------------------------------------- counting opens

  function Opens(acts: seq<Action>): nat {
    if acts == [] then 0 else Opens(acts[..|acts| - 1]) + Bit(acts[|acts| - 1].AppOpen?)
  }

  function OpensAsked(inputs: seq<Input>): nat {
    if inputs == [] then 0 else OpensAsked(inputs[..|inputs| - 1]) + Bit(inputs[|inputs| - 1] == Applied(AppOpen))
  }

  lemma {:induction false} OpensThen(acts: seq<Action>, more: seq<Action>)
    ensures Opens(acts + more) == Opens(acts) + Opens(more)
    decreases |more|
  {
    if more == [] {
      AppendEmpty(acts);
    } else {
      var n := |more| - 1;
      OpensThen(acts, more[..n]);
      assert (acts + more)[..|acts| + n] == acts + more[..n];
    }
  }

  /** Every run issues a ticket for each call of `open_stream`, and no other. */
  lemma {:induction false} OpensAreIssued(p: Peer, acts: seq<Action>, q: Peer)
    requires Reaches(p, acts, q)
    ensures q.issued == p.issued + Opens(acts)
    decreases |acts|
  {
    if acts != [] {
      var a, n := acts[0], Next(p, acts[0]);
      OneActionIssues(p, a);
      OpensAreIssued(n, acts[1..], q);
      HeadTail(acts);
      OpensThen([a], acts[1..]);
      assert [a][..0] == [];
    }
  }

  lemma OneActionIssues(p: Peer, a: Action)
    requires Valid(p) && Enabled(p, a)
    ensures Next(p, a).issued == p.issued + Bit(a.AppOpen?)
  {
    if OnCell(a) {
      CellActionShape(p, a);
    }
  }

  lemma OneMoreAsked(inputs: seq<Input>, k: nat, q: Peer, acts: seq<Action>, did: seq<Action>)
    requires k < |inputs| && !q.ended && Opens(acts) >= OpensAsked(inputs[..k])
    requires inputs[k].Applied? ==> did == Done(q, inputs[k].action)
    ensures Opens(acts + did) >= OpensAsked(inputs[..k + 1])
  {
    OpensThen(acts, did);
    assert inputs[..k + 1][..k] == inputs[..k];
    if inputs[k] == Applied(AppOpen) {
      assert did == [AppOpen] && did[..0] == [];
    }
  }

  // ---------------------------------------------------------------- the end

  lemma EndDoes(p: Peer, acts: seq<Action>, q: Peer, out: seq<Frame>, dropped: seq<nat>)
    requires Does(p, acts, q, out) && Enabled(q, End(dropped))
    ensures Does(p, acts + [End(dropped)], OnEnd(q, dropped), out)
  {
    DoesOne(q, End(dropped));
    DoesThen(p, acts, q, out, [End(dropped)], OnEnd(q, dropped), []);
    AppendEmpty(out);
  }

  lemma EveryoneIsAnswered(p: Peer)
    requires Consistent(p) && p.ended
    ensures forall t :: 0 <= t < p.issued ==> AnsweredOnce(p, t)
  {
    forall t | 0 <= t < p.issued ensures AnsweredOnce(p, t) {
      SettledAnsweredOnce(p, t);
    }
  }

  /** The ticket was a command, or waited under an id that is no longer in the map. */
  ghost predicate DroppedBefore(p: Peer, left: map<u32, nat>, t: nat) {
    t in p.commands || exists i :: i in p.pending && i !in left && p.pending[i] == t
  }

  lemma NotDroppedYet(p: Peer, left: map<u32, nat>, i: u32)
    requires Openers.Accounted(p) && i in p.pending && i in left
    ensures !DroppedBefore(p, left, p.pending[i])
  {
    assert p.pending[i] in p.pending.Values;
  }

  lemma DroppedOneMore(p: Peer, before: map<u32, nat>, i: u32, t: nat)
    requires i in before && i in p.pending
    ensures DroppedBefore(p, before - {i}, t) <==> p.pending[i] == t || DroppedBefore(p, before, t)
  {
    var after := before - {i};
    if p.pending[i] == t {
      assert i in p.pending && i !in after;
    }
    if DroppedBefore(p, before, t) && t !in p.commands {
      var j :| j in p.pending && j !in before && p.pending[j] == t;
      assert j !in after;
    }
  }

  lemma DroppedIsUnanswered(p: Peer, dropped: seq<nat>)
    requires forall t :: t in dropped <==> t in p.commands || exists i :: i in p.pending && p.pending[i] == t
    ensures (set k | 0 <= k < |dropped| :: dropped[k]) == Unanswered(p)
  {
    forall t | t in Unanswered(p) ensures t in dropped {
      if t !in p.commands {
        var i :| i in p.pending && p.pending[i] == t;
      }
    }
    forall k | 0 <= k < |dropped| ensures dropped[k] in Unanswered(p) {
      assert dropped[k] in dropped;
    }
  }
}
