/** Two peers joined by a pair of lossless pipes. A pipe carries whole frames here;
    `BytePipes` shows that a byte pipe with arbitrary read boundaries is such a pipe. */
module TwoPeers {
  import opened Frames
  import opened StreamIds
  import opened Session
  import opened Seqs

  datatype Side = Client | Server

  function Other(d: Side): Side { if d == Client then Server else Client }

  datatype System = System(client: Peer, server: Peer, toServer: seq<Frame>, toClient: seq<Frame>)

  function PeerAt(s: System, d: Side): Peer { if d == Client then s.client else s.server }

  /** The pipe that side `d` writes. */
  function PipeFrom(s: System, d: Side): seq<Frame> { if d == Client then s.toServer else s.toClient }

  function FirstId(d: Side): u32 { if d == Client then CLIENT_FIRST_ID else SERVER_FIRST_ID }

  function Start(): System { System(NewPeer(FirstId(Client)), NewPeer(FirstId(Server)), [], []) }

  predicate IsControl(flags: FrameFlags) {
    flags.IsOpenRequest() || flags.IsOpenResponse() || flags.IsOpenReset()
    || flags.IsCloseRequest() || flags.IsCloseResponse()
  }

  /** What an application may hand to `send_frame` of stream `i`: the stream's own id (which
      `send_frame` does not stamp), no control flags, and a frame the codec can carry. */
  predicate AppFrame(f: Frame, i: u32) {
    f.header.streamId == i && !IsControl(f.header.flags) && Encodable(f)
  }

  /** A read or a write fails; an event that is no frame needs no write. */
  predicate Fails(a: Action) {
    a == Respond(false) || a == TakeCommand(false) || a == TakeEvent(false) || a.ReadError?
  }

  /** Reads and writes fail only once the far side has ended, and applications send only their
      own frames. */
  ghost predicate Disciplined(p: Peer, a: Action, farEnded: bool) {
    (Fails(a) ==> farEnded) && (a.AppSend? ==> a.c < |p.cells| && AppFrame(a.frame, p.cells[a.c].id))
  }

  ghost predicate Moves(p: Peer, a: Action, pipeIn: seq<Frame>, farEnded: bool) {
    && Valid(p) && Enabled(p, a) && Disciplined(p, a, farEnded)
    && (a.Incoming? ==> pipeIn != [] && a.frame == pipeIn[0])
  }

  function Consume(a: Action, pipeIn: seq<Frame>): seq<Frame> {
    if a.Incoming? && pipeIn != [] then pipeIn[1..] else pipeIn
  }

  /** Side `d` does `a`. */
  ghost predicate Step(s: System, d: Side, a: Action, t: System) {
    && Moves(PeerAt(s, d), a, PipeFrom(s, Other(d)), PeerAt(s, Other(d)).ended)
    && PeerAt(t, d) == Next(PeerAt(s, d), a)
    && PeerAt(t, Other(d)) == PeerAt(s, Other(d))
    && PipeFrom(t, d) == PipeFrom(s, d) + ReceivedAll(Output(PeerAt(s, d), a))
    && PipeFrom(t, Other(d)) == Consume(a, PipeFrom(s, Other(d)))
  }

  /** `t` is reached from `s` by the given interleaving. */
  ghost predicate Runs(s: System, trace: seq<(Side, Action)>, t: System)
    decreases |trace|
  {
    if trace == [] then s == t
    else exists m :: Step(s, trace[0].0, trace[0].1, m) && Runs(m, trace[1..], t)
  }

  lemma RunsCons(s: System, side: Side, a: Action, m: System, trace: seq<(Side, Action)>, t: System)
    requires Step(s, side, a, m) && Runs(m, trace, t)
    ensures Runs(s, [(side, a)] + trace, t)
  {
    var all := [(side, a)] + trace;
    assert all[0] == (side, a) && all[1..] == trace;
  }

  lemma {:induction false} RunsThen(s: System, trace: seq<(Side, Action)>, m: System, more: seq<(Side, Action)>, t: System)
    requires Runs(s, trace, m) && Runs(m, more, t)
    ensures Runs(s, trace + more, t)
    decreases |trace|
  {
    if trace == [] {
      AppendEmpty(more);
    } else {
      var n :| Step(s, trace[0].0, trace[0].1, n) && Runs(n, trace[1..], m);
      Uncons(trace, more);
      RunsThen(n, trace[1..], m, more, t);
    }
  }

  lemma RunsOne(s: System, side: Side, a: Action, t: System)
    requires Step(s, side, a, t)
    ensures Runs(s, [(side, a)], t)
  {
    assert [(side, a)][1..] == [];
    assert Runs(t, [], t);
  }
}
