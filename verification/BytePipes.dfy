/** A byte pipe with a codec at each end is a queue of frames, wherever the reads fall; so a
    session over bytes is a session over frames (foctet-core/src/codec.rs under
    foctet-mux/src/session.rs:96-110, 167, 227, 260). */
module BytePipes {
  import opened Frames
  import opened Codec
  import opened Session
  import opened TwoPeers
  import opened Invariants
  import opened Flow
  import opened SessionRuns
  import opened Seqs

  // ---------------------------------------------------------------- one pipe

  /** The reader's decode state and buffer, and the bytes it has not read yet. */
  datatype BytePipe = BytePipe(state: DecodeState, buffer: seq<byte>, inFlight: seq<byte>)

  const EmptyPipe := BytePipe(ReadingHeader, [], [])

  function Write(b: BytePipe, fs: seq<Frame>): BytePipe {
    b.(inFlight := b.inFlight + EncodeAll(fs))
  }

  function Read(b: BytePipe, k: nat): BytePipe
    requires k <= |b.inFlight|
  {
    b.(buffer := b.buffer + b.inFlight[..k], inFlight := b.inFlight[k..])
  }

  function Polled(b: BytePipe): Decoded { DecodeOne(b.state, b.buffer) }

  function Poll(b: BytePipe): BytePipe {
    b.(state := Polled(b).state, buffer := Polled(b).rest)
  }

  function Unread(b: BytePipe): Drained { Drain(b.state, b.buffer + b.inFlight) }

  /** The queue of frames that the pipe holds. */
  function Contents(b: BytePipe): seq<Frame> { Unread(b).frames }

  /** No part of a frame is missing: writers write whole frames. */
  predicate Whole(b: BytePipe) { Unread(b).state == ReadingHeader && Unread(b).rest == [] }

  lemma WriteEnqueues(b: BytePipe, fs: seq<Frame>)
    requires Whole(b) && forall f :: f in fs ==> Encodable(f)
    ensures Whole(Write(b, fs)) && Contents(Write(b, fs)) == Contents(b) + ReceivedAll(fs)
  {
    var bytes := EncodeAll(fs);
    Assoc(b.buffer, b.inFlight, bytes);
    DrainSplit(b.state, b.buffer + b.inFlight, bytes);
    AppendEmpty(bytes);
    SequenceRoundTrip(fs);
  }

  lemma ReadKeepsContents(b: BytePipe, k: nat)
    requires k <= |b.inFlight|
    ensures Unread(Read(b, k)) == Unread(b)
  {
    Assoc(b.buffer, b.inFlight[..k], b.inFlight[k..]);
    assert b.inFlight[..k] + b.inFlight[k..] == b.inFlight;
  }

  /** A poll takes the first frame off the queue, or leaves the queue as it is. */
  lemma PollDequeues(b: BytePipe)
    ensures match Polled(b).frame
            case None => Unread(Poll(b)) == Unread(b)
            case Some(f) =>
              && Contents(b) == [f] + Contents(Poll(b))
              && (Whole(Poll(b)) <==> Whole(b))
  {
    if Polled(b).frame.None? {
      DecodeResumes(b.state, b.buffer, b.inFlight);
    } else {
      DecodeMore(b.state, b.buffer, b.inFlight);
    }
  }

  /** Once everything is read, a poll returns a frame exactly as long as the queue holds one:
      no frame waits for bytes that are still to come. */
  lemma NothingIsHeldBack(b: BytePipe)
    requires b.inFlight == []
    ensures Polled(b).frame == None <==> Contents(b) == []
  {
    AppendEmpty(b.buffer);
    PollDequeues(b);
  }

  // ---------------------------------------------------------------- the session over bytes

  datatype ByteSystem = ByteSystem(
    client: Peer, server: Peer, toServer: BytePipe, toClient: BytePipe)

  datatype ByteAction =
    | PeerActs(side: Side, action: Action)
    | ReadBytes(side: Side, count: nat)
    | PollNothing(side: Side)

  function ByteStart(): ByteSystem {
    ByteSystem(NewPeer(FirstId(Client)), NewPeer(FirstId(Server)), EmptyPipe, EmptyPipe)
  }

  ghost predicate ByteMoves(p: Peer, a: Action, pipeIn: BytePipe, farEnded: bool) {
    && Valid(p) && Enabled(p, a) && Disciplined(p, a, farEnded)
    && (a.Incoming? ==> Polled(pipeIn).frame == Some(a.frame))
  }

  ghost predicate ByteStep(s: ByteSystem, b: ByteAction, t: ByteSystem) {
    match b
    case ReadBytes(Client, k) =>
      k <= |s.toClient.inFlight| && t == s.(toClient := Read(s.toClient, k))
    case ReadBytes(Server, k) =>
      k <= |s.toServer.inFlight| && t == s.(toServer := Read(s.toServer, k))
    case PollNothing(Client) =>
      Polled(s.toClient).frame == None && t == s.(toClient := Poll(s.toClient))
    case PollNothing(Server) =>
      Polled(s.toServer).frame == None && t == s.(toServer := Poll(s.toServer))
    case PeerActs(Client, a) =>
      && ByteMoves(s.client, a, s.toClient, s.server.ended)
      && t == s.(client := Next(s.client, a), toServer := Write(s.toServer, Output(s.client, a)),
                 toClient := if a.Incoming? then Poll(s.toClient) else s.toClient)
    case PeerActs(Server, a) =>
      && ByteMoves(s.server, a, s.toServer, s.client.ended)
      && t == s.(server := Next(s.server, a), toClient := Write(s.toClient, Output(s.server, a)),
                 toServer := if a.Incoming? then Poll(s.toServer) else s.toServer)
  }

  ghost predicate ByteRuns(s: ByteSystem, acts: seq<ByteAction>, t: ByteSystem)
    decreases |acts|
  {
    if acts == [] then s == t
    else exists m :: ByteStep(s, acts[0], m) && ByteRuns(m, acts[1..], t)
  }

  // ---------------------------------------------------------------- it is the session over frames

  function Abstract(s: ByteSystem): System {
    System(s.client, s.server, Contents(s.toServer), Contents(s.toClient))
  }

  predicate Healthy(s: ByteSystem) { Whole(s.toServer) && Whole(s.toClient) }

  /** Actors write only frames that the codec carries faithfully. */
  lemma OutputIsEncodable(p: Peer, a: Action)
    requires PeerOk(p) && Enabled(p, a)
    ensures forall f :: f in Output(p, a) ==> Encodable(f)
  {
  }

  lemma PeerActRefines(p: Peer, a: Action, pipeIn: BytePipe, pipeOut: BytePipe, farEnded: bool)
    requires PeerOk(p) && ByteMoves(p, a, pipeIn, farEnded) && Whole(pipeIn) && Whole(pipeOut)
    ensures Moves(p, a, Contents(pipeIn), farEnded)
    ensures var next := if a.Incoming? then Poll(pipeIn) else pipeIn;
            Whole(next) && Contents(next) == Consume(a, Contents(pipeIn))
    ensures var next := Write(pipeOut, Output(p, a));
            Whole(next) && Contents(next) == Contents(pipeOut) + ReceivedAll(Output(p, a))
  {
    OutputIsEncodable(p, a);
    WriteEnqueues(pipeOut, Output(p, a));
    if a.Incoming? {
      PollDequeues(pipeIn);
    }
  }

  lemma ByteStepRefines(s: ByteSystem, b: ByteAction, t: ByteSystem)
    requires Healthy(s) && PeerOk(s.client) && PeerOk(s.server) && ByteStep(s, b, t)
    ensures Healthy(t)
    ensures if b.PeerActs? then Step(Abstract(s), b.side, b.action, Abstract(t)) else Abstract(t) == Abstract(s)
  {
    match b
    case ReadBytes(Client, k) => ReadKeepsContents(s.toClient, k);
    case ReadBytes(Server, k) => ReadKeepsContents(s.toServer, k);
    case PollNothing(Client) => PollDequeues(s.toClient);
    case PollNothing(Server) => PollDequeues(s.toServer);
    case PeerActs(Client, a) => PeerActRefines(s.client, a, s.toClient, s.toServer, s.server.ended);
    case PeerActs(Server, a) => PeerActRefines(s.server, a, s.toServer, s.toClient, s.client.ended);
  }

  lemma ByteStepIdsGrow(s: ByteSystem, b: ByteAction, t: ByteSystem)
    requires ByteStep(s, b, t)
    ensures s.client.openedIds <= t.client.openedIds && s.server.openedIds <= t.server.openedIds
  {
    match b
    case PeerActs(Client, a) => ActionIssues(s.client, a);
    case PeerActs(Server, a) => ActionIssues(s.server, a);
    case _ =>
  }

  lemma {:induction false} ByteRunIdsGrow(s: ByteSystem, acts: seq<ByteAction>, t: ByteSystem)
    requires ByteRuns(s, acts, t)
    ensures s.client.openedIds <= t.client.openedIds && s.server.openedIds <= t.server.openedIds
    ensures IdsApart(Abstract(t)) ==> IdsApart(Abstract(s))
    decreases |acts|
  {
    if acts != [] {
      var m :| ByteStep(s, acts[0], m) && ByteRuns(m, acts[1..], t);
      ByteStepIdsGrow(s, acts[0], m);
      ByteRunIdsGrow(m, acts[1..], t);
    }
  }

  /** The peer actions of a byte-level run, in order. */
  function Trace(acts: seq<ByteAction>): seq<(Side, Action)> {
    if acts == [] then []
    else (if acts[0].PeerActs? then [(acts[0].side, acts[0].action)] else []) + Trace(acts[1..])
  }

  lemma ByteStepIsSound(s: ByteSystem, b: ByteAction, t: ByteSystem)
    requires ByteStep(s, b, t) && Healthy(s) && Sound(Abstract(s)) && IdsApart(Abstract(t))
    ensures Healthy(t) && Sound(Abstract(t))
    ensures if b.PeerActs? then Step(Abstract(s), b.side, b.action, Abstract(t)) else Abstract(t) == Abstract(s)
  {
    ByteStepRefines(s, b, t);
    if b.PeerActs? {
      StepIsSound(Abstract(s), b.side, b.action, Abstract(t));
    }
  }

  lemma TraceCons(acts: seq<ByteAction>)
    requires acts != []
    ensures Trace(acts)
         == if acts[0].PeerActs? then [(acts[0].side, acts[0].action)] + Trace(acts[1..]) else Trace(acts[1..])
  {
    AppendEmpty(Trace(acts[1..]));
  }

  /** Forgetting the reads turns every run over bytes into a run over frames. */
  lemma {:induction false} ByteRunRefines(s: ByteSystem, acts: seq<ByteAction>, t: ByteSystem)
    requires ByteRuns(s, acts, t) && Healthy(s) && Sound(Abstract(s)) && IdsApart(Abstract(t))
    ensures Healthy(t) && Runs(Abstract(s), Trace(acts), Abstract(t))
    decreases |acts|
  {
    if acts != [] {
      var b := acts[0];
      var m :| ByteStep(s, b, m) && ByteRuns(m, acts[1..], t);
      ByteRunIdsGrow(m, acts[1..], t);
      ByteStepIsSound(s, b, m);
      ByteRunRefines(m, acts[1..], t);
      TraceCons(acts);
      if b.PeerActs? {
        RunsCons(Abstract(s), b.side, b.action, Abstract(m), Trace(acts[1..]), Abstract(t));
      }
    }
  }

  /** So everything proved of sessions over frames holds over bytes. */
  lemma BytesReachOnlyReachable(acts: seq<ByteAction>, s: ByteSystem)
    requires ByteRuns(ByteStart(), acts, s) && IdsApart(Abstract(s))
    ensures Healthy(s) && Reachable(Trace(acts), Abstract(s))
  {
    AppendEmpty<byte>([]);
    assert Abstract(ByteStart()) == Start();
    StartInv();
    StartConserves();
    ByteRunRefines(ByteStart(), acts, s);
  }
}
