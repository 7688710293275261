/** Logical streams: the close state machine, the whole stream and its two halves
    (foctet-mux/src/stream.rs). */
module LogicalStreams {
  import opened Frames
  import opened Seqs

  datatype StreamState =
    Init | OpenSent | OpenReceived | Established | LocalClosing | RemoteClosing | Closed | Reset

  datatype StreamEvent = FrameEvent(frame: Frame) | ClosedEvent(id: u32) | ErrorEvent

  // ---------------------------------------------------------------- closing

  /** States in which `close` sends a close request. */
  predicate SendsRequest(s: StreamState) {
    s.OpenSent? || s.OpenReceived? || s.Established? || s.Init? || s.RemoteClosing?
  }

  /** States in which `close` tells the session that the stream is gone. */
  predicate SendsClosed(s: StreamState) {
    s.RemoteClosing? || s.Reset? || s.Closed? || s.LocalClosing?
  }

  function AfterClose(s: StreamState): StreamState {
    if SendsClosed(s) then Closed else LocalClosing
  }

  function CloseFrame(id: u32): Frame { ControlFrame(id, CloseRequestFlags()) }

  function CloseEvents(s: StreamState, id: u32): seq<StreamEvent> {
    (if SendsRequest(s) then [FrameEvent(CloseFrame(id))] else [])
    + (if SendsClosed(s) then [ClosedEvent(id)] else [])
  }

  // ---------------------------------------------------------------- receiving

  function WholeAfter(s: StreamState, flags: FrameFlags): StreamState {
    if flags.IsOpenRequest() then OpenReceived
    else if flags.IsOpenResponse() then Established
    else if flags.IsOpenReset() then Reset
    else if flags.IsCloseRequest() then RemoteClosing
    else if flags.IsCloseResponse() then Closed
    else s
  }

  /** The reader half of a split stream does not look at the close flags. */
  function SplitAfter(s: StreamState, flags: FrameFlags): StreamState {
    if flags.IsOpenRequest() then OpenReceived
    else if flags.IsOpenResponse() then Established
    else if flags.IsOpenReset() then Reset
    else s
  }

  /** At most one of the five exact tests holds, so their order cannot matter. */
  lemma ExactTestsExclude(f: FrameFlags)
    ensures Bit(f.IsOpenRequest()) + Bit(f.IsOpenResponse()) + Bit(f.IsOpenReset())
          + Bit(f.IsCloseRequest()) + Bit(f.IsCloseResponse()) <= 1
  {
  }

  /** One frame separates the whole stream from the split one exactly when it is a close
      frame that the whole stream has not already acted on. */
  lemma SplitReceivesAlikeExactly(s: StreamState, f: FrameFlags)
    ensures WholeAfter(s, f) == SplitAfter(s, f)
       <==> (f.IsCloseRequest() ==> s == RemoteClosing) && (f.IsCloseResponse() ==> s == Closed)
  {
  }

  // ---------------------------------------------------------------- runs of one stream

  datatype Op = CloseOp | RecvOp(frame: Frame)

  /** A stream's state and everything it has sent to its session. */
  datatype Machine = Machine(state: StreamState, log: seq<StreamEvent>)

  function DoClose(m: Machine, id: u32): Machine {
    Machine(AfterClose(m.state), m.log + CloseEvents(m.state, id))
  }

  function DoWhole(m: Machine, id: u32, op: Op): Machine {
    match op
    case CloseOp => DoClose(m, id)
    case RecvOp(f) => m.(state := WholeAfter(m.state, f.header.flags))
  }

  function DoSplit(m: Machine, id: u32, op: Op): Machine {
    match op
    case CloseOp => DoClose(m, id)
    case RecvOp(f) => m.(state := SplitAfter(m.state, f.header.flags))
  }

  function RunWhole(m: Machine, id: u32, ops: seq<Op>): Machine
    decreases |ops|
  {
    if ops == [] then m else RunWhole(DoWhole(m, id, ops[0]), id, ops[1..])
  }

  function RunSplit(m: Machine, id: u32, ops: seq<Op>): Machine
    decreases |ops|
  {
    if ops == [] then m else RunSplit(DoSplit(m, id, ops[0]), id, ops[1..])
  }

  predicate TouchesClose(op: Op) {
    op.RecvOp? && (op.frame.header.flags.IsCloseRequest() || op.frame.header.flags.IsCloseResponse())
  }

  /** Without close frames the halves of a split stream do what the whole stream does. */
  lemma {:induction false} SplitSimulatesWhole(m: Machine, id: u32, ops: seq<Op>)
    requires forall op :: op in ops ==> !TouchesClose(op)
    ensures RunSplit(m, id, ops) == RunWhole(m, id, ops)
    decreases |ops|
  {
    if ops != [] {
      assert !TouchesClose(ops[0]);
      SplitSimulatesWhole(DoWhole(m, id, ops[0]), id, ops[1..]);
    }
  }

  /** The state after a frame, by the byte of its flags on the wire. */
  lemma StateAfterFrame(s: StreamState, f: FrameFlags)
    ensures var b := f.Bits();
            && (b == 0x11 ==> WholeAfter(s, f) == SplitAfter(s, f) == OpenReceived)
            && (b == 0x12 ==> WholeAfter(s, f) == SplitAfter(s, f) == Established)
            && (b == 0x32 ==> WholeAfter(s, f) == SplitAfter(s, f) == Reset)
            && (b == 0x41 ==> WholeAfter(s, f) == RemoteClosing && SplitAfter(s, f) == s)
            && (b == 0x42 ==> WholeAfter(s, f) == Closed && SplitAfter(s, f) == s)
            && (b !in {0x11, 0x12, 0x32, 0x41, 0x42} ==> WholeAfter(s, f) == SplitAfter(s, f) == s)
  {
    ControlBytes(f);
  }

  // ---------------------------------------------------------------- one close

  /** What `close` does right after a frame was received, by the bytes of its flags: a stream
      just opened asks to close; one that was asked to close answers and is gone; one that was
      reset, or whose close was answered, is gone without a word to the peer. */
  lemma CloseAfterFrame(m: Machine, id: u32, f: Frame)
    ensures var (b, n) := (f.header.flags.Bits(), DoClose(DoWhole(m, id, RecvOp(f)), id));
            && (b == 0x11 || b == 0x12 ==> n == Machine(LocalClosing, m.log + [FrameEvent(CloseFrame(id))]))
            && (b == 0x41 ==> n == Machine(Closed, m.log + [FrameEvent(CloseFrame(id)), ClosedEvent(id)]))
            && (b == 0x32 || b == 0x42 ==> n == Machine(Closed, m.log + [ClosedEvent(id)]))
            && (b !in {0x11, 0x12, 0x32, 0x41, 0x42} ==> n == DoClose(m, id))
  {
    ControlBytes(f.header.flags);
  }

  /** Whatever the state, two closes end in Closed and tell the session last. One is enough
      unless nobody has closed before; then it only asks the peer. */
  lemma ClosesFinish(m: Machine, id: u32)
    ensures var (one, two) := (DoClose(m, id), DoClose(DoClose(m, id), id));
            && two.state == Closed && two.log != [] && two.log[|two.log| - 1] == ClosedEvent(id)
            && (m.state in {Init, OpenSent, OpenReceived, Established} ==>
                  one == Machine(LocalClosing, m.log + [FrameEvent(CloseFrame(id))]))
            && (m.state == RemoteClosing ==>
                  one == Machine(Closed, m.log + [FrameEvent(CloseFrame(id)), ClosedEvent(id)]))
            && (m.state in {LocalClosing, Closed, Reset} ==> one == Machine(Closed, m.log + [ClosedEvent(id)]))
  {
  }

  // ---------------------------------------------------------------- close accounting

  function Requests(log: seq<StreamEvent>): nat {
    if log == [] then 0
    else Requests(log[..|log| - 1]) + Bit(log[|log| - 1].FrameEvent? && log[|log| - 1].frame.header.flags.IsCloseRequest())
  }

  function ClosedEvents(log: seq<StreamEvent>): nat {
    if log == [] then 0
    else ClosedEvents(log[..|log| - 1]) + Bit(log[|log| - 1].ClosedEvent?)
  }

  lemma CountsAfterClose(m: Machine, id: u32)
    ensures Requests(DoClose(m, id).log) == Requests(m.log) + Bit(SendsRequest(m.state))
    ensures ClosedEvents(DoClose(m, id).log) == ClosedEvents(m.log) + Bit(SendsClosed(m.state))
  {
    var r := FrameEvent(CloseFrame(id));
    var once := m.log + [r];
    assert once[..|once| - 1] == m.log;
    if SendsRequest(m.state) && SendsClosed(m.state) {
      var twice := once + [ClosedEvent(id)];
      assert twice[..|twice| - 1] == once;
      assert DoClose(m, id).log == twice;
    } else if SendsRequest(m.state) {
      assert DoClose(m, id).log == once;
    } else {
      var told := m.log + [ClosedEvent(id)];
      assert told[..|told| - 1] == m.log;
      assert DoClose(m, id).log == told;
    }
  }

  /** Frames that put the stream back into a state whose `close` sends a request. */
  predicate Rearms(op: Op) {
    op.RecvOp? && (op.frame.header.flags.IsOpenRequest() || op.frame.header.flags.IsOpenResponse()
                   || op.frame.header.flags.IsCloseRequest())
  }

  function Rearmings(ops: seq<Op>): nat {
    if ops == [] then 0 else Bit(Rearms(ops[0])) + Rearmings(ops[1..])
  }

  /** How many of the `close` calls leave the stream Closed. */
  function ClosesIntoClosed(m: Machine, id: u32, ops: seq<Op>): nat
    decreases |ops|
  {
    if ops == [] then 0
    else Bit(ops[0].CloseOp? && AfterClose(m.state) == Closed)
         + ClosesIntoClosed(DoWhole(m, id, ops[0]), id, ops[1..])
  }

  /** Being able to send a request is the potential that each request uses up. */
  lemma {:induction false} CloseAccounting(m: Machine, id: u32, ops: seq<Op>)
    ensures var n := RunWhole(m, id, ops);
            && Requests(n.log) + Bit(SendsRequest(n.state))
               <= Requests(m.log) + Bit(SendsRequest(m.state)) + Rearmings(ops)
            && ClosedEvents(n.log) == ClosedEvents(m.log) + ClosesIntoClosed(m, id, ops)
    decreases |ops|
  {
    if ops != [] {
      if ops[0].CloseOp? {
        CountsAfterClose(m, id);
      }
      CloseAccounting(DoWhole(m, id, ops[0]), id, ops[1..]);
    }
  }

  /** A new stream never sends more close requests than one plus the frames that re-armed it. */
  lemma CloseRequestsBounded(id: u32, ops: seq<Op>)
    ensures Requests(RunWhole(Machine(Established, []), id, ops).log) <= 1 + Rearmings(ops)
  {
    CloseAccounting(Machine(Established, []), id, ops);
  }

  function CloseAgain(id: u32, n: nat): seq<Op> {
    if n == 0 then [] else [RecvOp(CloseFrame(id)), CloseOp] + CloseAgain(id, n - 1)
  }

  lemma {:induction false} CloseAgainRequests(m: Machine, id: u32, n: nat)
    ensures Requests(RunWhole(m, id, CloseAgain(id, n)).log) == Requests(m.log) + n
    ensures Rearmings(CloseAgain(id, n)) == n
    decreases n
  {
    if n > 0 {
      var ops, rest := CloseAgain(id, n), CloseAgain(id, n - 1);
      assert ops[1..][1..] == rest;
      var m1 := DoWhole(m, id, ops[0]);
      CountsAfterClose(m1, id);
      CloseAgainRequests(DoWhole(m1, id, ops[1]), id, n - 1);
    }
  }

  /** The bound is attained: answering every close request of the peer sends one each time. */
  lemma CloseBoundAttained(id: u32, n: nat)
    ensures exists ops :: Rearmings(ops) == n
                       && Requests(RunWhole(Machine(Established, []), id, ops).log) == 1 + n
  {
    var m := Machine(Established, []);
    var again := CloseAgain(id, n);
    var ops := [CloseOp] + again;
    assert ops[1..] == again;
    CountsAfterClose(m, id);
    CloseAgainRequests(DoClose(m, id), id, n);
    assert Rearmings(ops) == n;
  }

  // ---------------------------------------------------------------- the code

  /** The event channel that a session's streams share; closed once the session is gone. */
  class EventChannel {
    var queue: seq<StreamEvent>
    var open: bool

    constructor ()
      ensures queue == [] && open
    {
      queue := [];
      open := true;
    }

    method Send(event: StreamEvent) returns (ok: bool)
      modifies this
      ensures ok == old(open) && open == old(open)
      ensures queue == old(queue) + if ok then [event] else []
    {
      ok := open;
      if open {
        queue := queue + [event];
      }
    }
  }

  /** The state behind the mutex that the two halves of a split stream share. */
  class StateCell {
    var state: StreamState

    constructor (s: StreamState)
      ensures state == s
    {
      state := s;
    }
  }

  /** The writer half. */
  class LogicalStreamWriter {
    const id: u32
    const shared: StateCell
    const events: EventChannel

    constructor (id: u32, shared: StateCell, events: EventChannel)
      ensures this.id == id && this.shared == shared && this.events == events
    {
      this.id := id;
      this.shared := shared;
      this.events := events;
    }

    method SendFrame(frame: Frame) returns (ok: bool)
      modifies events
      ensures ok == old(events.open) && events.open == old(events.open)
      ensures events.queue == old(events.queue) + if ok then [FrameEvent(frame)] else []
    {
      ok := events.Send(FrameEvent(frame));
    }

    method SendBytes(bytes: seq<byte>) returns (ok: bool)
      modifies events
      ensures ok == old(events.open) && events.open == old(events.open)
      ensures events.queue == old(events.queue) + if ok then [FrameEvent(DataFrame(id, bytes))] else []
    {
      ok := SendFrame(DataFrame(id, bytes));
    }

    /** When the session is gone the state has changed and nothing was sent. */
    method Close() returns (ok: bool)
      modifies shared, events
      ensures ok == old(events.open) && events.open == old(events.open)
      ensures Machine(shared.state, events.queue)
           == if ok then DoClose(Machine(old(shared.state), old(events.queue)), id)
              else Machine(AfterClose(old(shared.state)), old(events.queue))
    {
      var state := shared.state;
      match state {
        case OpenSent | OpenReceived | Established | Init =>
          shared.state := LocalClosing;
          ok := events.Send(FrameEvent(CloseFrame(id)));
        case RemoteClosing =>
          shared.state := Closed;
          ok := events.Send(FrameEvent(CloseFrame(id)));
          if !ok {
            return;
          }
          ok := events.Send(ClosedEvent(id));
          Assoc(old(events.queue), [FrameEvent(CloseFrame(id))], [ClosedEvent(id)]);
        case Reset | Closed =>
          shared.state := Closed;
          ok := events.Send(ClosedEvent(id));
        case LocalClosing =>
          shared.state := Closed;
          ok := events.Send(ClosedEvent(id));
      }
    }
  }

  /** State and channel of a reader half after `poll_read`. */
  function AfterPoll(s: StreamState, incoming: seq<Frame>, connected: bool): (StreamState, seq<Frame>) {
    if incoming != [] then (SplitAfter(s, incoming[0].header.flags), incoming[1..])
    else (if connected then s else Closed, [])
  }

  /** What a poll for bytes comes to; the buffer panics when a slice does not fit. */
  datatype Polling = NotReady | Ready(bytes: seq<byte>) | Panicked

  /** The reader half. `incoming` is the channel the session fills; `connected` is false
      once the session has dropped its end. */
  class LogicalStreamReader {
    const id: u32
    const shared: StateCell
    var incoming: seq<Frame>
    var connected: bool

    constructor (id: u32, shared: StateCell, incoming: seq<Frame>, connected: bool)
      ensures this.id == id && this.shared == shared
      ensures this.incoming == incoming && this.connected == connected
    {
      this.id := id;
      this.shared := shared;
      this.incoming := incoming;
      this.connected := connected;
    }

    /** `recv_frame` where it returns at once: a frame is waiting or none will ever come. */
    method RecvFrame() returns (r: Option<Frame>)
      requires incoming != [] || !connected
      modifies this`incoming, shared
      ensures old(incoming) == [] ==> r == None && incoming == [] && shared.state == old(shared.state)
      ensures old(incoming) != [] ==>
                && r == Some(old(incoming)[0]) && incoming == old(incoming)[1..]
                && shared.state == SplitAfter(old(shared.state), old(incoming)[0].header.flags)
    {
      if incoming == [] {
        return None;
      }
      var frame := incoming[0];
      incoming := incoming[1..];
      SetStateFromFlags(frame.header.flags);
      r := Some(frame);
    }

    method SetStateFromFlags(flags: FrameFlags)
      modifies shared
      ensures shared.state == SplitAfter(old(shared.state), flags)
    {
      if flags.IsOpenRequest() {
        shared.state := OpenReceived;
      } else if flags.IsOpenResponse() {
        shared.state := Established;
      } else if flags.IsOpenReset() {
        shared.state := Reset;
      }
    }

    /** `poll_read` into a buffer with room for `capacity` bytes: nothing yet, a payload, or end
        of file, which closes the stream. A payload that does not fit is taken off the
        channel before the buffer refuses it. */
    method PollRead(capacity: nat) returns (r: Polling)
      modifies this`incoming, shared
      ensures (shared.state, incoming) == AfterPoll(old(shared.state), old(incoming), connected)
      ensures old(incoming) != [] ==>
                && r == (if |old(incoming)[0].payload| <= capacity then Ready(old(incoming)[0].payload) else Panicked)
                && incoming == old(incoming)[1..]
                && shared.state == SplitAfter(old(shared.state), old(incoming)[0].header.flags)
      ensures old(incoming) == [] ==>
                && r == (if connected then NotReady else Ready([])) && incoming == []
                && shared.state == if connected then old(shared.state) else Closed
    {
      if incoming != [] {
        var frame := incoming[0];
        incoming := incoming[1..];
        SetStateFromFlags(frame.header.flags);
        if |frame.payload| > capacity {
          return Panicked;
        }
        return Ready(frame.payload);
      }
      if !connected {
        shared.state := Closed;
        return Ready([]);
      }
      return NotReady;
    }
  }

  /** The whole stream. */
  class LogicalStream {
    const id: u32
    const events: EventChannel
    var state: StreamState
    var incoming: seq<Frame>
    var connected: bool

    constructor (id: u32, state: StreamState, events: EventChannel, incoming: seq<Frame>)
      ensures this.id == id && this.state == state && this.events == events
      ensures this.incoming == incoming && connected
    {
      this.id := id;
      this.state := state;
      this.events := events;
      this.incoming := incoming;
      this.connected := true;
    }

    method Close() returns (ok: bool)
      modifies this`state, events
      ensures ok == old(events.open) && events.open == old(events.open)
      ensures Machine(state, events.queue)
           == if ok then DoClose(Machine(old(state), old(events.queue)), id)
              else Machine(AfterClose(old(state)), old(events.queue))
    {
      match state {
        case OpenSent | OpenReceived | Established | Init =>
          state := LocalClosing;
          ok := events.Send(FrameEvent(CloseFrame(id)));
        case RemoteClosing =>
          state := Closed;
          ok := events.Send(FrameEvent(CloseFrame(id)));
          if !ok {
            return;
          }
          ok := events.Send(ClosedEvent(id));
          Assoc(old(events.queue), [FrameEvent(CloseFrame(id))], [ClosedEvent(id)]);
        case Reset | Closed =>
          state := Closed;
          ok := events.Send(ClosedEvent(id));
        case LocalClosing =>
          state := Closed;
          ok := events.Send(ClosedEvent(id));
      }
    }

    method RecvFrame() returns (r: Option<Frame>)
      requires incoming != [] || !connected
      modifies this`incoming, this`state
      ensures old(incoming) == [] ==> r == None && incoming == [] && state == old(state)
      ensures old(incoming) != [] ==>
                && r == Some(old(incoming)[0]) && incoming == old(incoming)[1..]
                && state == WholeAfter(old(state), old(incoming)[0].header.flags)
    {
      if incoming == [] {
        return None;
      }
      var frame := incoming[0];
      incoming := incoming[1..];
      var flags := frame.header.flags;
      if flags.IsOpenRequest() {
        state := OpenReceived;
      } else if flags.IsOpenResponse() {
        state := Established;
      } else if flags.IsOpenReset() {
        state := Reset;
      } else if flags.IsCloseRequest() {
        state := RemoteClosing;
      } else if flags.IsCloseResponse() {
        state := Closed;
      }
      r := Some(frame);
    }

    /** The halves start from the stream's state and share it from then on. */
    method Split() returns (writer: LogicalStreamWriter, reader: LogicalStreamReader)
      ensures fresh(writer) && fresh(reader) && fresh(writer.shared)
      ensures writer.shared == reader.shared && writer.shared.state == state
      ensures writer.id == id && reader.id == id && writer.events == events
      ensures reader.incoming == incoming && reader.connected == connected
    {
      var shared := new StateCell(state);
      writer := new LogicalStreamWriter(id, shared, events);
      reader := new LogicalStreamReader(id, shared, incoming, connected);
    }
  }
}
