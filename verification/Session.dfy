/** One side of a session: the actor that multiplexes logical streams over a framed pipe,
    and what its application does with the streams (foctet-mux/src/session.rs).

    A `Peer` is the whole state of one side. An `Action` is one uninterrupted piece of
    work: one branch of the actor's `select!` loop (accepting a stream is three pieces,
    because the actor awaits between them), or one piece of application work. */
module Session {
  import opened Frames
  import opened StreamIds
  import opened LogicalStreams
  import opened Seqs

  // ---------------------------------------------------------------- state

  /** Where a writer half is inside `close`: each constructor is a point at which the
      reader half may run. */
  datatype WriterPc =
    | Resting
    | CloseCaptured(seen: StreamState)
    | CloseSending(thenTell: bool)
    | CloseTelling

  /** A logical stream and the channel that feeds it. `received` and `sent` record what
      its application has read from it and written to it. */
  datatype Cell = Cell(
    id: u32, live: bool, queue: seq<Frame>, received: seq<Frame>, sent: seq<Frame>,
    state: StreamState, pc: WriterPc)

  function NewCell(id: u32): Cell { Cell(id, true, [], [], [], Established, Resting) }

  /** Everything that ever reached the stream's channel. */
  function Log(c: Cell): seq<Frame> { c.received + c.queue }

  /** Where the actor is inside its loop body. */
  datatype Phase = Idle | Registered(id: u32, cell: nat) | Published(id: u32) | Broken

  datatype Outcome = Opened(cell: nat) | Rejected | NoResponse

  /** The answer to one `open_stream` call; calls are numbered as they are issued. */
  datatype Answer = Answer(ticket: nat, outcome: Outcome)

  datatype Peer = Peer(
    nextId: u32,
    openedIds: seq<u32>,            // the ids issued so far
    pending: map<u32, nat>,      // pending_streams: id to ticket
    streams: map<u32, nat>,      // streams: id to cell
    cells: seq<Cell>,            // every stream ever registered
    events: seq<StreamEvent>,    // the event channel
    acceptQueue: seq<nat>,       // streams on their way to accept_stream
    held: set<nat>,              // streams in the application's hands
    commands: seq<nat>,          // OpenStream commands in the control channel
    issued: nat,
    answers: seq<Answer>,
    phase: Phase,
    ended: bool)

  function NewPeer(firstId: u32): Peer {
    Peer(firstId, [], map[], map[], [], [], [], {}, [], 0, [], Idle, false)
  }

  /** Every reference to a stream names a stream. */
  ghost predicate References(streams: map<u32, nat>, cells: seq<Cell>, held: set<nat>, acceptQueue: seq<nat>, phase: Phase) {
    && (forall i :: i in streams ==> streams[i] < |cells| && cells[streams[i]].id == i)
    && (forall c :: c in held ==> c < |cells|)
    && (forall k :: 0 <= k < |acceptQueue| ==> acceptQueue[k] < |cells|)
    && (phase.Registered? ==> phase.cell < |cells|)
  }

  ghost predicate Valid(p: Peer) { References(p.streams, p.cells, p.held, p.acceptQueue, p.phase) }

  predicate IsRegistered(p: Peer, c: nat)
    requires c < |p.cells|
  {
    p.cells[c].id in p.streams && p.streams[p.cells[c].id] == c
  }

  // ---------------------------------------------------------------- actions

  datatype Action =
    // the actor
    | Incoming(frame: Frame)
    | Publish(ok: bool)
    | Respond(ok: bool)
    | TakeCommand(ok: bool)
    | TakeEvent(ok: bool)
    | ReadError
    | End(dropped: seq<nat>)
    // the application
    | AppOpen
    | AppAccept
    | AppSend(c: nat, frame: Frame)
    | AppRecv(c: nat)
    | AppSeeEof(c: nat)
    | AppDropReader(c: nat)
    | AppCloseRead(c: nat)
    | AppCloseSet(c: nat)
    | AppCloseRequest(c: nat)
    | AppCloseTell(c: nat)
    | AppCloseAbandon(c: nat)

  /** The branches of `handle_incoming_frame`. */
  datatype Route = Deliver | Accept | Establish | Refuse | StrayResponse | StrayReset | Unknown

  function RouteOf(p: Peer, f: Frame): Route {
    var i, flags := f.header.streamId, f.header.flags;
    if i in p.streams then Deliver
    else if flags.IsOpenRequest() then Accept
    else if flags.IsOpenResponse() then if i in p.pending then Establish else StrayResponse
    else if flags.IsOpenReset() then if i in p.pending then Refuse else StrayReset
    else Unknown
  }

  /** The tickets that are dropped with the actor: commands not yet taken and opens not
      yet answered. */
  ghost function Unanswered(p: Peer): set<nat> {
    (set k | 0 <= k < |p.commands| :: p.commands[k]) + (set i | i in p.pending :: p.pending[i])
  }

  predicate NoDuplicates(s: seq<nat>) {
    forall j, k :: 0 <= j < k < |s| ==> s[j] != s[k]
  }

  predicate Uses(p: Peer, c: nat) { c in p.held && c < |p.cells| }

  /** Actions of the application on one of its streams. */
  predicate OnCell(a: Action) {
    a.AppSend? || a.AppRecv? || a.AppSeeEof? || a.AppDropReader? || a.AppCloseRead? || a.AppCloseSet?
    || a.AppCloseRequest? || a.AppCloseTell? || a.AppCloseAbandon?
  }

  /** What such an action needs of the stream. */
  predicate CellReady(cell: Cell, a: Action) {
    match a
    case AppSend(_, _) => cell.pc.Resting?
    case AppRecv(_) => cell.live && cell.queue != []
    case AppSeeEof(_) => cell.live && cell.queue == []
    case AppDropReader(_) => true
    case AppCloseRead(_) => cell.pc.Resting?
    case AppCloseSet(_) => cell.pc.CloseCaptured?
    case AppCloseRequest(_) => cell.pc.CloseSending?
    case AppCloseTell(_) => cell.pc.CloseTelling?
    case AppCloseAbandon(_) => cell.pc.CloseSending? || cell.pc.CloseTelling?
    case _ => false
  }

  ghost predicate Enabled(p: Peer, a: Action) {
    match a
    case Incoming(_) => !p.ended && p.phase.Idle?
    case Publish(_) => !p.ended && p.phase.Registered?
    case Respond(_) => !p.ended && p.phase.Published?
    case TakeCommand(_) => !p.ended && p.phase.Idle? && p.commands != []
    case TakeEvent(_) => !p.ended && p.phase.Idle? && p.events != []
    case ReadError => !p.ended && p.phase.Idle?
    case End(dropped) =>
      !p.ended && NoDuplicates(dropped)
      && (set k | 0 <= k < |dropped| :: dropped[k]) == Unanswered(p)
    case AppOpen => !p.ended
    case AppAccept => p.acceptQueue != []
    case AppSend(c, _) => !p.ended && Uses(p, c) && CellReady(p.cells[c], a)
    case AppSeeEof(c) => Uses(p, c) && CellReady(p.cells[c], a) && !IsRegistered(p, c)
    case AppRecv(c) => Uses(p, c) && CellReady(p.cells[c], a)
    case AppDropReader(c) => Uses(p, c)
    case AppCloseRead(c) => Uses(p, c) && CellReady(p.cells[c], a)
    case AppCloseSet(c) => Uses(p, c) && CellReady(p.cells[c], a)
    case AppCloseRequest(c) => Uses(p, c) && CellReady(p.cells[c], a)
    case AppCloseTell(c) => Uses(p, c) && CellReady(p.cells[c], a)
    case AppCloseAbandon(c) => Uses(p, c) && CellReady(p.cells[c], a)
  }

  function Register(p: Peer, i: u32): Peer {
    p.(cells := p.cells + [NewCell(i)], streams := p.streams[i := |p.cells|])
  }

  function OnFrame(p: Peer, f: Frame): Peer
    requires Valid(p)
  {
    var i := f.header.streamId;
    match RouteOf(p, f)
    case Deliver =>
      var c := p.streams[i];
      if p.cells[c].live then p.(cells := p.cells[c := p.cells[c].(queue := p.cells[c].queue + [f])])
      else p.(streams := p.streams - {i})
    case Accept => Register(p, i).(phase := Registered(i, |p.cells|))
    case Establish =>
      Register(p, i).(pending := p.pending - {i}, held := p.held + {|p.cells|},
                      answers := p.answers + [Answer(p.pending[i], Opened(|p.cells|))])
    case Refuse =>
      p.(pending := p.pending - {i}, answers := p.answers + [Answer(p.pending[i], Rejected)])
    case StrayResponse | StrayReset | Unknown => p
  }

  /** A stream that cannot be handed to the application is dropped, and yet the open
      response is sent. */
  function OnPublish(p: Peer, ok: bool): Peer
    requires Valid(p) && p.phase.Registered?
  {
    var (i, c) := (p.phase.id, p.phase.cell);
    if ok then p.(acceptQueue := p.acceptQueue + [c], phase := Published(i))
    else p.(streams := p.streams - {i}, cells := p.cells[c := p.cells[c].(live := false)], phase := Published(i))
  }

  /** The next command gets the next id and waits under it. After 2^32 opens an id comes
      round again, and an opener still waiting under it loses its answer. */
  function Booked(p: Peer): Peer
    requires p.commands != []
  {
    var i := p.nextId;
    var lost := if i in p.pending then [Answer(p.pending[i], NoResponse)] else [];
    p.(commands := p.commands[1..], nextId := Advance(i, 1), openedIds := p.openedIds + [i],
       pending := p.pending[i := p.commands[0]], answers := p.answers + lost)
  }

  /** When the request cannot be written the caller is dropped at once. */
  function OnCommand(p: Peer, ok: bool): Peer
    requires p.commands != []
  {
    var q := Booked(p);
    if ok then q
    else q.(pending := q.pending - {p.nextId}, answers := q.answers + [Answer(p.commands[0], NoResponse)], phase := Broken)
  }

  function OnEvent(p: Peer, ok: bool): Peer
    requires p.events != []
  {
    var q := p.(events := p.events[1..]);
    match p.events[0]
    case FrameEvent(_) => if ok then q else q.(phase := Broken)
    case ClosedEvent(i) => q.(streams := p.streams - {i})
    case ErrorEvent => q
  }

  /** `shutdown`, and then the actor is dropped with all it owns. */
  function OnEnd(p: Peer, dropped: seq<nat>): Peer {
    p.(pending := map[], streams := map[], commands := [], events := [], phase := Idle, ended := true,
       answers := p.answers + seq(|dropped|, k requires 0 <= k < |dropped| => Answer(dropped[k], NoResponse)))
  }

  function OnRecv(cell: Cell): Cell
    requires cell.queue != []
  {
    var f := cell.queue[0];
    cell.(queue := cell.queue[1..], received := cell.received + [f], state := SplitAfter(cell.state, f.header.flags))
  }

  function OnCloseSet(cell: Cell): Cell
    requires cell.pc.CloseCaptured?
  {
    var s := cell.pc.seen;
    cell.(state := AfterClose(s), pc := if SendsRequest(s) then CloseSending(SendsClosed(s)) else CloseTelling)
  }

  /** The stream after an action of its application. Once the session has ended, sends fail
      and a close stops where it is; a close can also be dropped while it waits for room in
      the event channel. */
  function CellNext(cell: Cell, a: Action, ended: bool): Cell
    requires CellReady(cell, a)
  {
    match a
    case AppSend(_, f) => cell.(sent := cell.sent + [f])
    case AppRecv(_) => OnRecv(cell)
    case AppSeeEof(_) => cell.(state := Closed)
    case AppDropReader(_) => cell.(live := false)
    case AppCloseRead(_) => cell.(pc := CloseCaptured(cell.state))
    case AppCloseSet(_) => OnCloseSet(cell)
    case AppCloseRequest(_) =>
      if ended then cell.(pc := Resting)
      else cell.(sent := cell.sent + [CloseFrame(cell.id)], pc := if cell.pc.thenTell then CloseTelling else Resting)
    case AppCloseTell(_) => cell.(pc := Resting)
    case AppCloseAbandon(_) => cell.(pc := Resting)
  }

  /** What the action hands to the session. */
  function Emits(cell: Cell, a: Action, ended: bool): Option<StreamEvent> {
    match a
    case AppSend(_, f) => Some(FrameEvent(f))
    case AppCloseRequest(_) => if ended then None else Some(FrameEvent(CloseFrame(cell.id)))
    case AppCloseTell(_) => if ended then None else Some(ClosedEvent(cell.id))
    case _ => None
  }

  function Push(events: seq<StreamEvent>, e: Option<StreamEvent>): seq<StreamEvent> {
    if e.Some? then events + [e.value] else events
  }

  function OnStream(p: Peer, a: Action): Peer
    requires OnCell(a) && a.c < |p.cells| && CellReady(p.cells[a.c], a)
  {
    var cell := p.cells[a.c];
    p.(cells := p.cells[a.c := CellNext(cell, a, p.ended)], events := Push(p.events, Emits(cell, a, p.ended)))
  }

  ghost function Next(p: Peer, a: Action): Peer
    requires Valid(p) && Enabled(p, a)
  {
    match a
    case Incoming(f) => OnFrame(p, f)
    case Publish(ok) => OnPublish(p, ok)
    case Respond(_) => p.(phase := Idle)
    case TakeCommand(ok) => OnCommand(p, ok)
    case TakeEvent(ok) => OnEvent(p, ok)
    case ReadError => p.(phase := Broken)
    case End(dropped) => OnEnd(p, dropped)
    case AppOpen => p.(commands := p.commands + [p.issued], issued := p.issued + 1)
    case AppAccept => p.(acceptQueue := p.acceptQueue[1..], held := p.held + {p.acceptQueue[0]})
    case _ => OnStream(p, a)
  }

  /** The frames that the action writes to the pipe. */
  ghost function Output(p: Peer, a: Action): seq<Frame>
    requires Enabled(p, a)
  {
    match a
    case Respond(ok) => if ok then [ControlFrame(p.phase.id, OpenResponseFlags())] else []
    case TakeCommand(ok) => if ok then [ControlFrame(p.nextId, OpenRequestFlags())] else []
    case TakeEvent(ok) => if ok && p.events[0].FrameEvent? then [p.events[0].frame] else []
    case _ => []
  }

  /** They change that stream and the event channel, and nothing else. */
  lemma CellActionShape(p: Peer, a: Action)
    requires Valid(p) && Enabled(p, a) && OnCell(a)
    ensures a.c < |p.cells| && CellReady(p.cells[a.c], a) && Next(p, a) == OnStream(p, a)
    ensures CellNext(p.cells[a.c], a, p.ended).id == p.cells[a.c].id
    ensures a.AppSend? ==> !p.ended
  {
  }

  lemma SetCellIsValid(p: Peer, c: nat, cell: Cell)
    requires Valid(p) && c < |p.cells| && cell.id == p.cells[c].id
    ensures Valid(p.(cells := p.cells[c := cell]))
  {
  }

  lemma RegisterIsValid(p: Peer, i: u32)
    requires Valid(p)
    ensures Valid(Register(p, i))
  {
  }

  lemma OnFrameIsValid(p: Peer, f: Frame)
    requires Valid(p)
    ensures Valid(OnFrame(p, f))
  {
    var i := f.header.streamId;
    match RouteOf(p, f)
    case Deliver =>
      var c := p.streams[i];
      SetCellIsValid(p, c, p.cells[c].(queue := p.cells[c].queue + [f]));
    case Accept => RegisterIsValid(p, i);
    case Establish => RegisterIsValid(p, i);
    case _ =>
  }

  lemma NextIsValid(p: Peer, a: Action)
    requires Valid(p) && Enabled(p, a)
    ensures Valid(Next(p, a))
  {
    if OnCell(a) {
      CellActionShape(p, a);
      SetCellIsValid(p, a.c, CellNext(p.cells[a.c], a, p.ended));
    } else if a.Incoming? {
      OnFrameIsValid(p, a.frame);
    } else if a.Publish? {
      var c := p.phase.cell;
      SetCellIsValid(p, c, p.cells[c].(live := false));
    }
  }

  /** `q` is what some sequence of actions makes of `p`. */
  ghost predicate Reaches(p: Peer, acts: seq<Action>, q: Peer)
    decreases |acts|
  {
    if acts == [] then p == q
    else Valid(p) && Enabled(p, acts[0]) && Reaches(Next(p, acts[0]), acts[1..], q)
  }

  lemma ReachesOne(p: Peer, a: Action)
    requires Valid(p) && Enabled(p, a)
    ensures Reaches(p, [a], Next(p, a))
  {
    assert [a][1..] == [];
  }

  lemma {:induction false} ReachesThen(p: Peer, acts: seq<Action>, q: Peer, more: seq<Action>, r: Peer)
    requires Reaches(p, acts, q) && Reaches(q, more, r)
    ensures Reaches(p, acts + more, r)
    decreases |acts|
  {
    if acts == [] {
      AppendEmpty(more);
    } else {
      Uncons(acts, more);
      ReachesThen(Next(p, acts[0]), acts[1..], q, more, r);
    }
  }

  /** The accept branch as a whole, when the application does nothing meanwhile. */
  ghost function Accepted(p: Peer, f: Frame, published: bool): Peer
    requires Valid(p) && RouteOf(p, f) == Accept
  {
    OnFrameIsValid(p, f);
    OnPublish(OnFrame(p, f), published).(phase := Idle)
  }

  lemma AcceptIsThreeActions(p: Peer, f: Frame, published: bool, responded: bool)
    requires Valid(p) && !p.ended && p.phase.Idle? && RouteOf(p, f) == Accept
    ensures Valid(Accepted(p, f, published))
    ensures Reaches(p, [Incoming(f), Publish(published), Respond(responded)], Accepted(p, f, published))
  {
    NextIsValid(p, Incoming(f));
    var p1 := Next(p, Incoming(f));
    NextIsValid(p1, Publish(published));
    var p2 := Next(p1, Publish(published));
    ReachesOne(p2, Respond(responded));
    var acts := [Incoming(f), Publish(published), Respond(responded)];
    assert acts[1..][1..] == [Respond(responded)];
  }
}
