/** A run that exists: the accepting application sends before the open response is written,
    and its data arrives. */
module Scenario {
  import opened Frames
  import opened LogicalStreams
  import opened Session
  import opened TwoPeers
  import opened Handshake
  import opened SessionRuns

  const Asked := NewPeer(1).(commands := [0], issued := 1)
  const Waiting := Asked.(commands := [], nextId := 2, openedIds := [1], pending := map[1 := 0])
  const Accepting := NewPeer(2).(cells := [NewCell(1)], streams := map[1 := 0], phase := Registered(1, 0))
  const Offered := Accepting.(acceptQueue := [0], phase := Published(1))
  const Held := Offered.(acceptQueue := [], held := {0})

  lemma OpenSteps()
    ensures Step(Start(), Client, AppOpen, System(Asked, NewPeer(2), [], []))
    ensures Step(System(Asked, NewPeer(2), [], []), Client, TakeCommand(true),
                 System(Waiting, NewPeer(2), [RequestFrame(1)], []))
  {
    assert ReceivedAll([RequestFrame(1)]) == [RequestFrame(1)];
  }

  lemma RequestStep()
    ensures Step(System(Waiting, NewPeer(2), [RequestFrame(1)], []), Server, Incoming(RequestFrame(1)),
                 System(Waiting, Accepting, [], []))
  {
  }

  lemma PublishStep()
    ensures Step(System(Waiting, Accepting, [], []), Server, Publish(true), System(Waiting, Offered, [], []))
  {
  }

  lemma HandOverStep()
    ensures Step(System(Waiting, Offered, [], []), Server, AppAccept, System(Waiting, Held, [], []))
  {
  }

  /** Up to the point where the acceptor has published the stream and not yet responded. */
  lemma UntilPublished() returns (trace: seq<(Side, Action)>)
    ensures Runs(Start(), trace, System(Waiting, Held, [], []))
  {
    var s0, s1 := Start(), System(Asked, NewPeer(2), [], []);
    var s2, s3 := System(Waiting, NewPeer(2), [RequestFrame(1)], []), System(Waiting, Accepting, [], []);
    var s4, s5 := System(Waiting, Offered, [], []), System(Waiting, Held, [], []);
    OpenSteps();
    RequestStep();
    PublishStep();
    HandOverStep();
    RunsOne(s4, Server, AppAccept, s5);
    trace := [(Server, AppAccept)];
    RunsCons(s3, Server, Publish(true), s4, trace, s5);
    trace := [(Server, Publish(true))] + trace;
    RunsCons(s2, Server, Incoming(RequestFrame(1)), s3, trace, s5);
    trace := [(Server, Incoming(RequestFrame(1)))] + trace;
    RunsCons(s1, Client, TakeCommand(true), s2, trace, s5);
    trace := [(Client, TakeCommand(true))] + trace;
    RunsCons(s0, Client, AppOpen, s1, trace, s5);
    trace := [(Client, AppOpen)] + trace;
  }

  function Sender(f: Frame): Peer { Held.(cells := [NewCell(1).(sent := [f])], events := [FrameEvent(f)]) }
  function Responded(f: Frame): Peer { Sender(f).(phase := Idle) }
  function Wrote(f: Frame): Peer { Responded(f).(events := []) }

  lemma SendStep(f: Frame)
    requires AppFrame(f, 1)
    ensures Step(System(Waiting, Held, [], []), Server, AppSend(0, f), System(Waiting, Sender(f), [], []))
  {
    CellActionShape(Held, AppSend(0, f));
    var cell := NewCell(1);
    assert Held.cells[0] == cell;
    assert cell.sent + [f] == [f];
    assert Held.cells[0 := cell.(sent := [f])] == [cell.(sent := [f])];
    assert Held.events + [FrameEvent(f)] == [FrameEvent(f)];
    assert Next(Held, AppSend(0, f)) == Sender(f);
  }

  lemma RespondStep(f: Frame)
    ensures Step(System(Waiting, Sender(f), [], []), Server, Respond(true),
                 System(Waiting, Responded(f), [], [ResponseFrame(1)]))
  {
    assert ReceivedAll([ResponseFrame(1)]) == [ResponseFrame(1)];
  }

  lemma WriteStep(f: Frame)
    ensures Step(System(Waiting, Responded(f), [], [ResponseFrame(1)]), Server, TakeEvent(true),
                 System(Waiting, Wrote(f), [], [ResponseFrame(1), Received(f)]))
  {
    assert ReceivedAll([f]) == [Received(f)];
  }

  /** The application sends while the actor is still in the accept branch. */
  lemma SendThenRespond(f: Frame) returns (trace: seq<(Side, Action)>)
    requires AppFrame(f, 1)
    ensures Runs(System(Waiting, Held, [], []), trace, System(Waiting, Wrote(f), [], [ResponseFrame(1), Received(f)]))
  {
    var s0, s1 := System(Waiting, Held, [], []), System(Waiting, Sender(f), [], []);
    var s2 := System(Waiting, Responded(f), [], [ResponseFrame(1)]);
    var s3 := System(Waiting, Wrote(f), [], [ResponseFrame(1), Received(f)]);
    SendStep(f);
    RespondStep(f);
    WriteStep(f);
    RunsOne(s2, Server, TakeEvent(true), s3);
    trace := [(Server, TakeEvent(true))];
    RunsCons(s1, Server, Respond(true), s2, trace, s3);
    trace := [(Server, Respond(true))] + trace;
    RunsCons(s0, Server, AppSend(0, f), s1, trace, s3);
    trace := [(Server, AppSend(0, f))] + trace;
  }

  function Opener(cell: Cell): Peer {
    Waiting.(pending := map[], streams := map[1 := 0], cells := [cell], held := {0}, answers := [Answer(0, Opened(0))])
  }

  function Got(f: Frame): Peer { Opener(NewCell(1).(received := [Received(f)])) }

  lemma EstablishStep(p: Peer, g: Frame)
    ensures Step(System(Waiting, p, [], [ResponseFrame(1), g]), Client, Incoming(ResponseFrame(1)),
                 System(Opener(NewCell(1)), p, [], [g]))
  {
    assert Waiting.pending - {1} == map[];
    assert Next(Waiting, Incoming(ResponseFrame(1))) == Opener(NewCell(1));
  }

  lemma DeliverStep(p: Peer, g: Frame)
    requires g.header.streamId == 1
    ensures Step(System(Opener(NewCell(1)), p, [], [g]), Client, Incoming(g),
                 System(Opener(NewCell(1).(queue := [g])), p, [], []))
  {
    var cell := NewCell(1);
    assert cell.queue + [g] == [g];
    assert [cell][0 := cell.(queue := [g])] == [cell.(queue := [g])];
    assert Next(Opener(cell), Incoming(g)) == Opener(cell.(queue := [g]));
  }

  lemma ReadStep(p: Peer, g: Frame)
    requires !IsControl(g.header.flags)
    ensures Step(System(Opener(NewCell(1).(queue := [g])), p, [], []), Client, AppRecv(0),
                 System(Opener(NewCell(1).(received := [g])), p, [], []))
  {
    var cell := NewCell(1).(queue := [g]);
    CellActionShape(Opener(cell), AppRecv(0));
    assert cell.received + [g] == [g] && cell.queue[1..] == [];
    assert [cell][0 := OnRecv(cell)] == [NewCell(1).(received := [g])];
  }

  lemma EstablishThenRead(f: Frame) returns (trace: seq<(Side, Action)>)
    requires AppFrame(f, 1)
    ensures Runs(System(Waiting, Wrote(f), [], [ResponseFrame(1), Received(f)]), trace, System(Got(f), Wrote(f), [], []))
  {
    var g, p := Received(f), Wrote(f);
    var s0 := System(Waiting, p, [], [ResponseFrame(1), g]);
    var s1 := System(Opener(NewCell(1)), p, [], [g]);
    var s2 := System(Opener(NewCell(1).(queue := [g])), p, [], []);
    var s3 := System(Got(f), p, [], []);
    EstablishStep(p, g);
    DeliverStep(p, g);
    ReadStep(p, g);
    RunsOne(s2, Client, AppRecv(0), s3);
    trace := [(Client, AppRecv(0))];
    RunsCons(s1, Client, Incoming(g), s2, trace, s3);
    trace := [(Client, Incoming(g))] + trace;
    RunsCons(s0, Client, Incoming(ResponseFrame(1)), s1, trace, s3);
    trace := [(Client, Incoming(ResponseFrame(1)))] + trace;
  }

  /** For any payload that one frame can carry, some run opens a stream, lets the acceptor
      send the payload before the open response is written, and ends with the opener having
      read exactly that frame. */
  lemma EarlySendArrives(payload: seq<byte>) returns (trace: seq<(Side, Action)>, s: System)
    requires |payload| < TWO32
    ensures Reachable(trace, s)
    ensures |s.client.cells| == 1 && s.client.cells[0].received == [Received(DataFrame(1, payload))]
  {
    var f := DataFrame(1, payload);
    s := System(Got(f), Wrote(f), [], []);
    var t1 := UntilPublished();
    var t2 := SendThenRespond(f);
    var t3 := EstablishThenRead(f);
    RunsThen(System(Waiting, Held, [], []), t2, System(Waiting, Wrote(f), [], [ResponseFrame(1), Received(f)]), t3, s);
    RunsThen(Start(), t1, System(Waiting, Held, [], []), t2 + t3, s);
    trace := t1 + (t2 + t3);
  }
}
