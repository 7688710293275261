/** When both sides open: the handshake is safe for exactly those numbers of opens that keep
    the two sides' ids apart (foctet-mux/src/session.rs:133-177, 213-227, 343-346). */
module Crossing {
  import opened Frames
  import opened StreamIds
  import opened Session
  import opened TwoPeers
  import opened Handshake
  import opened Invariants
  import opened SessionRuns
  import opened Seqs

  // ---------------------------------------------------------------- what safety means

  /** A side that waits for the response to an open has no stream under its id yet. Otherwise
      the response, if it arrives while the stream is there, is handed to it as data. */
  ghost predicate OpensAreSafe(p: Peer) { !p.ended ==> p.pending.Keys !! p.streams.Keys }

  /** What waits under an id has its answer, or what leads to it, on the way. */
  ghost predicate OpensHaveTokens(s: System) {
    !s.client.ended && !s.server.ended ==>
      forall d, i ::
        Tokens(i, InAccept(PeerAt(s, Other(d)).phase), PipeFrom(s, d), PipeFrom(s, Other(d)))
        == Bit(i in PeerAt(s, d).pending)
  }

  ghost predicate Safe(s: System) { OpensAreSafe(s.client) && OpensAreSafe(s.server) }

  // ---------------------------------------------------------------- pieces of runs

  /** A side between two branches of its loop, with no command waiting. */
  ghost predicate Ready(p: Peer) { Valid(p) && p.phase.Idle? && !p.ended && p.commands == [] }

  function Place(s: System, d: Side, p: Peer, out: seq<Frame>, back: seq<Frame>): System {
    if d == Client then System(p, s.server, out, back) else System(s.client, p, back, out)
  }

  function Asked(p: Peer): Peer { p.(commands := [p.issued], issued := p.issued + 1) }

  /** One open: the call and the branch that books it. */
  function AfterOpen(s: System, d: Side): System {
    var p := PeerAt(s, d);
    Place(s, d, Booked(Asked(p)), PipeFrom(s, d) + [RequestFrame(p.nextId)], PipeFrom(s, Other(d)))
  }

  lemma AskStep(s: System, d: Side)
    requires Ready(PeerAt(s, d))
    ensures Step(s, d, AppOpen, Place(s, d, Asked(PeerAt(s, d)), PipeFrom(s, d), PipeFrom(s, Other(d))))
  {
    AppendEmpty(PipeFrom(s, d));
  }

  lemma BookStep(s: System, d: Side)
    requires Valid(PeerAt(s, d)) && PeerAt(s, d).phase.Idle? && !PeerAt(s, d).ended && PeerAt(s, d).commands != []
    ensures var p := PeerAt(s, d);
            Step(s, d, TakeCommand(true),
                 Place(s, d, Booked(p), PipeFrom(s, d) + [RequestFrame(p.nextId)], PipeFrom(s, Other(d))))
  {
    ReceivedControl(PeerAt(s, d).nextId, OpenRequestFlags());
  }

  lemma OpenRun(s: System, d: Side) returns (trace: seq<(Side, Action)>)
    requires Ready(PeerAt(s, d))
    ensures Runs(s, trace, AfterOpen(s, d)) && Ready(PeerAt(AfterOpen(s, d), d))
  {
    var asked := Place(s, d, Asked(PeerAt(s, d)), PipeFrom(s, d), PipeFrom(s, Other(d)));
    AskStep(s, d);
    BookStep(asked, d);
    RunsOne(asked, d, TakeCommand(true), AfterOpen(s, d));
    RunsCons(s, d, AppOpen, asked, [(d, TakeCommand(true))], AfterOpen(s, d));
    trace := [(d, AppOpen)] + [(d, TakeCommand(true))];
  }

  function Accepting(p: Peer, i: u32): Peer { Register(p, i).(phase := Registered(i, |p.cells|)) }

  function Offering(p: Peer, i: u32): Peer {
    Register(p, i).(acceptQueue := p.acceptQueue + [|p.cells|], phase := Published(i))
  }

  /** A whole accept: register, publish, respond. */
  function AfterAccept(s: System, d: Side, i: u32): System
    requires PipeFrom(s, Other(d)) != []
  {
    Place(s, d, Offering(PeerAt(s, d), i).(phase := Idle), PipeFrom(s, d) + [ResponseFrame(i)], PipeFrom(s, Other(d))[1..])
  }

  lemma RequestStep(s: System, d: Side, i: u32)
    requires Ready(PeerAt(s, d)) && i !in PeerAt(s, d).streams
    requires PipeFrom(s, Other(d)) != [] && PipeFrom(s, Other(d))[0] == RequestFrame(i)
    ensures Valid(Accepting(PeerAt(s, d), i))
    ensures Step(s, d, Incoming(RequestFrame(i)),
                 Place(s, d, Accepting(PeerAt(s, d), i), PipeFrom(s, d), PipeFrom(s, Other(d))[1..]))
  {
    AppendEmpty(PipeFrom(s, d));
    RegisterIsValid(PeerAt(s, d), i);
  }

  lemma OfferStep(s: System, d: Side, p: Peer, i: u32)
    requires Ready(p) && PeerAt(s, d) == Accepting(p, i) && Valid(PeerAt(s, d))
    ensures Valid(Offering(p, i))
    ensures Step(s, d, Publish(true), Place(s, d, Offering(p, i), PipeFrom(s, d), PipeFrom(s, Other(d))))
  {
    AppendEmpty(PipeFrom(s, d));
    NextIsValid(PeerAt(s, d), Publish(true));
  }

  lemma RespondStep(s: System, d: Side, p: Peer, i: u32)
    requires Ready(p) && PeerAt(s, d) == Offering(p, i) && Valid(PeerAt(s, d))
    ensures Ready(Offering(p, i).(phase := Idle))
    ensures Step(s, d, Respond(true), Place(s, d, Offering(p, i).(phase := Idle),
                                            PipeFrom(s, d) + [ResponseFrame(i)], PipeFrom(s, Other(d))))
  {
    ReceivedControl(i, OpenResponseFlags());
    NextIsValid(PeerAt(s, d), Respond(true));
  }

  lemma AcceptRun(s: System, d: Side, i: u32) returns (trace: seq<(Side, Action)>)
    requires Ready(PeerAt(s, d)) && i !in PeerAt(s, d).streams
    requires PipeFrom(s, Other(d)) != [] && PipeFrom(s, Other(d))[0] == RequestFrame(i)
    ensures Runs(s, trace, AfterAccept(s, d, i)) && Ready(PeerAt(AfterAccept(s, d, i), d))
  {
    var p := PeerAt(s, d);
    var s1 := Place(s, d, Accepting(p, i), PipeFrom(s, d), PipeFrom(s, Other(d))[1..]);
    var s2 := Place(s1, d, Offering(p, i), PipeFrom(s1, d), PipeFrom(s1, Other(d)));
    var t := AfterAccept(s, d, i);
    RequestStep(s, d, i);
    OfferStep(s1, d, p, i);
    RespondStep(s2, d, p, i);
    RunsOne(s2, d, Respond(true), t);
    RunsCons(s1, d, Publish(true), s2, [(d, Respond(true))], t);
    trace := [(d, Publish(true))] + [(d, Respond(true))];
    RunsCons(s, d, Incoming(RequestFrame(i)), s1, trace, t);
    trace := [(d, Incoming(RequestFrame(i)))] + trace;
  }

  // ---------------------------------------------------------------- a run that goes wrong

  /** The client has opened two streams and the server one, and nothing has arrived. */
  ghost predicate Crossed(s: System) {
    && Ready(s.client) && Ready(s.server) && |s.client.openedIds| == 2 && |s.server.openedIds| == 1
    && 2 in s.client.pending && 2 in s.server.pending && s.client.streams == map[] && s.server.streams == map[]
    && s.toServer == [RequestFrame(1), RequestFrame(2)] && s.toClient == [RequestFrame(2)]
  }

  lemma ThreeOpens()
    ensures Crossed(AfterOpen(AfterOpen(AfterOpen(Start(), Client), Client), Server))
  {
    var s1 := AfterOpen(Start(), Client);
    assert s1.client.openedIds == [1] && s1.client.nextId == 2 && s1.toServer == [RequestFrame(1)];
    var s2 := AfterOpen(s1, Client);
    assert |s2.client.openedIds| == 2 && s2.toServer == [RequestFrame(1), RequestFrame(2)] && 2 in s2.client.pending;
    var s3 := AfterOpen(s2, Server);
    assert s3.toClient == [RequestFrame(2)] && 2 in s3.server.pending;
  }

  lemma UntilCrossed() returns (trace: seq<(Side, Action)>, t: System)
    ensures Runs(Start(), trace, t) && Crossed(t)
  {
    var s0 := Start();
    assert Ready(s0.client) && Ready(s0.server);
    ThreeOpens();
    trace, t := ThreeRuns(s0);
  }

  lemma ThreeRuns(s: System) returns (trace: seq<(Side, Action)>, t: System)
    requires Ready(s.client) && Ready(s.server)
    ensures t == AfterOpen(AfterOpen(AfterOpen(s, Client), Client), Server) && Runs(s, trace, t)
  {
    var s1 := AfterOpen(s, Client);
    var s2 := AfterOpen(s1, Client);
    t := AfterOpen(s2, Server);
    var t1 := OpenRun(s, Client);
    var t2 := OpenRun(s1, Client);
    var t3 := OpenRun(s2, Server);
    RunsThen(s, t1, s1, t2, s2);
    RunsThen(s, t1 + t2, s2, t3, t);
    trace := t1 + t2 + t3;
  }

  /** The server waits for the response to its open 2, which lies in the queue of the stream
      that it accepted under this id. */
  ghost predicate Stranded(p: Peer) {
    && 2 in p.pending && 2 in p.streams && p.streams[2] < |p.cells|
    && p.cells[p.streams[2]].queue == [ResponseFrame(2)]
  }

  ghost predicate GoneWrong(s: System) {
    && Ready(s.client) && Ready(s.server) && |s.client.openedIds| == 2 && |s.server.openedIds| == 1
    && 2 in s.client.pending && 2 in s.client.streams && Stranded(s.server)
    && s.toServer == [] && s.toClient == [ResponseFrame(1), ResponseFrame(2)]
  }

  lemma StrayStep(s: System)
    requires Ready(s.server) && 2 in s.server.pending && 2 in s.server.streams && s.toServer == [ResponseFrame(2)]
    requires s.server.cells[s.server.streams[2]] == NewCell(2)
    ensures var t := System(s.client, OnFrame(s.server, ResponseFrame(2)), [], s.toClient);
            && Step(s, Server, Incoming(ResponseFrame(2)), t) && Ready(t.server) && Stranded(t.server)
            && t.server.openedIds == s.server.openedIds
  {
    AppendEmpty(s.toClient);
    OnFrameIsValid(s.server, ResponseFrame(2));
    assert NewCell(2).queue + [ResponseFrame(2)] == [ResponseFrame(2)];
  }

  /** Who waits for the id 2. */
  ghost predicate BothWait(s: System) {
    && Ready(s.client) && Ready(s.server) && |s.client.openedIds| == 2 && |s.server.openedIds| == 1
    && 2 in s.client.pending && 2 in s.server.pending
  }

  lemma AcceptKeepsWaiting(s: System, d: Side, i: u32)
    requires BothWait(s) && i !in PeerAt(s, d).streams
    requires PipeFrom(s, Other(d)) != [] && PipeFrom(s, Other(d))[0] == RequestFrame(i)
    ensures BothWait(AfterAccept(s, d, i))
    ensures var (p, q) := (PeerAt(s, d), PeerAt(AfterAccept(s, d, i), d));
            q.streams == p.streams[i := |p.cells|] && q.cells == p.cells + [NewCell(i)]
  {
    var trace := AcceptRun(s, d, i);
  }

  lemma ClientAccepts(s: System) returns (trace: seq<(Side, Action)>, t: System)
    requires Crossed(s)
    ensures Runs(s, trace, t) && BothWait(t) && 2 in t.client.streams && t.server.streams == map[]
    ensures t.toServer == [RequestFrame(1), RequestFrame(2), ResponseFrame(2)] && t.toClient == []
  {
    trace := AcceptRun(s, Client, 2);
    AcceptKeepsWaiting(s, Client, 2);
    t := AfterAccept(s, Client, 2);
  }

  lemma ServerAcceptsFirst(s: System) returns (trace: seq<(Side, Action)>, t: System)
    requires BothWait(s) && 2 in s.client.streams && s.server.streams == map[]
    requires s.toServer == [RequestFrame(1), RequestFrame(2), ResponseFrame(2)] && s.toClient == []
    ensures Runs(s, trace, t) && BothWait(t) && 2 in t.client.streams && 2 !in t.server.streams
    ensures t.toServer == [RequestFrame(2), ResponseFrame(2)] && t.toClient == [ResponseFrame(1)]
  {
    trace := AcceptRun(s, Server, 1);
    AcceptKeepsWaiting(s, Server, 1);
    t := AfterAccept(s, Server, 1);
  }

  lemma ServerAcceptsSecond(s: System) returns (trace: seq<(Side, Action)>, t: System)
    requires BothWait(s) && 2 in s.client.streams && 2 !in s.server.streams
    requires s.toServer == [RequestFrame(2), ResponseFrame(2)] && s.toClient == [ResponseFrame(1)]
    ensures Runs(s, trace, t) && BothWait(t) && 2 in t.client.streams && 2 in t.server.streams
    ensures t.server.cells[t.server.streams[2]] == NewCell(2)
    ensures t.toServer == [ResponseFrame(2)] && t.toClient == [ResponseFrame(1), ResponseFrame(2)]
  {
    trace := AcceptRun(s, Server, 2);
    AcceptKeepsWaiting(s, Server, 2);
    t := AfterAccept(s, Server, 2);
  }

  /** Each side accepts under the id for which it waits. */
  lemma AcceptsCross(s: System) returns (trace: seq<(Side, Action)>, t: System)
    requires Crossed(s)
    ensures Runs(s, trace, t) && BothWait(t) && 2 in t.client.streams && 2 in t.server.streams
    ensures t.server.cells[t.server.streams[2]] == NewCell(2)
    ensures t.toServer == [ResponseFrame(2)] && t.toClient == [ResponseFrame(1), ResponseFrame(2)]
  {
    var t1, s1 := ClientAccepts(s);
    var t2, s2 := ServerAcceptsFirst(s1);
    var t3, s3 := ServerAcceptsSecond(s2);
    RunsThen(s, t1, s1, t2, s2);
    RunsThen(s, t1 + t2, s2, t3, s3);
    trace, t := t1 + t2 + t3, s3;
  }

  lemma GoesWrong() returns (trace: seq<(Side, Action)>, t: System)
    ensures Runs(Start(), trace, t) && GoneWrong(t)
  {
    var t1, s1 := UntilCrossed();
    var t2, s2 := AcceptsCross(s1);
    t := System(s2.client, OnFrame(s2.server, ResponseFrame(2)), [], s2.toClient);
    StrayStep(s2);
    RunsThen(Start(), t1, s1, t2, s2);
    RunsOne(s2, Server, Incoming(ResponseFrame(2)), t);
    RunsThen(Start(), t1 + t2, s2, [(Server, Incoming(ResponseFrame(2)))], t);
    trace := t1 + t2 + [(Server, Incoming(ResponseFrame(2)))];
  }

  // ---------------------------------------------------------------- with any numbers of opens

  /** Opening more streams forgets nothing and answers nothing. */
  ghost predicate OnlyOpens(s: System, d: Side, t: System) {
    var (p, q) := (PeerAt(s, d), PeerAt(t, d));
    && p.openedIds <= q.openedIds && p.pending.Keys <= q.pending.Keys && q.cells == p.cells && q.streams == p.streams
    && PeerAt(t, Other(d)) == PeerAt(s, Other(d)) && PipeFrom(t, Other(d)) == PipeFrom(s, Other(d))
    && (forall i :: Replies(PipeFrom(t, d), i) == Replies(PipeFrom(s, d), i))
    && (forall i :: i !in q.openedIds[|p.openedIds|..] ==> Asks(PipeFrom(t, d), i) == Asks(PipeFrom(s, d), i))
  }

  lemma OpenOnlyOpens(s: System, d: Side)
    requires Ready(PeerAt(s, d))
    ensures OnlyOpens(s, d, AfterOpen(s, d))
  {
    var f := RequestFrame(PeerAt(s, d).nextId);
    forall i ensures Replies(PipeFrom(s, d) + [f], i) == Replies(PipeFrom(s, d), i) {
      TallyAppend(PipeFrom(s, d), f, OpenResponseFlags(), i);
    }
    var p, q := PeerAt(s, d), PeerAt(AfterOpen(s, d), d);
    assert q.openedIds[|p.openedIds|] == p.nextId;
    forall i | i !in q.openedIds[|p.openedIds|..] ensures Asks(PipeFrom(s, d) + [f], i) == Asks(PipeFrom(s, d), i) {
      TallyAppend(PipeFrom(s, d), f, OpenRequestFlags(), i);
      assert p.nextId in q.openedIds[|p.openedIds|..];
    }
  }

  lemma OnlyOpensThen(s: System, d: Side, m: System, t: System)
    requires OnlyOpens(s, d, m) && OnlyOpens(m, d, t)
    ensures OnlyOpens(s, d, t)
  {
    var (a, b, c) := (PeerAt(s, d).openedIds, PeerAt(m, d).openedIds, PeerAt(t, d).openedIds);
    forall i | i !in c[|a|..] ensures Asks(PipeFrom(t, d), i) == Asks(PipeFrom(s, d), i) {
      assert c[|a|..] == b[|a|..] + c[|b|..];
    }
  }

  lemma {:induction false} OpenMany(s: System, d: Side, k: nat) returns (trace: seq<(Side, Action)>, t: System)
    requires Ready(PeerAt(s, d))
    ensures Runs(s, trace, t) && Ready(PeerAt(t, d)) && OnlyOpens(s, d, t)
    ensures |PeerAt(t, d).openedIds| == |PeerAt(s, d).openedIds| + k
    decreases k
  {
    if k == 0 {
      trace, t := [], s;
    } else {
      var m := AfterOpen(s, d);
      var more := OpenRun(s, d);
      OpenOnlyOpens(s, d);
      trace, t := OpenMany(m, d, k - 1);
      OnlyOpensThen(s, d, m, t);
      RunsThen(s, more, m, trace, t);
      trace := more + trace;
    }
  }

  lemma StrandedStays(s: System, d: Side, t: System)
    requires Stranded(s.server) && 2 in s.client.pending && 2 in s.client.streams && OnlyOpens(s, d, t)
    ensures Stranded(t.server) && 2 in t.client.pending && 2 in t.client.streams
  {
    assert 2 in PeerAt(s, d).pending.Keys;
  }

  lemma MoreOpens(s: System, n: nat, m: nat) returns (trace: seq<(Side, Action)>, t: System)
    requires GoneWrong(s)
    ensures Runs(s, trace, t) && Ready(t.client) && Ready(t.server)
    ensures |t.client.openedIds| == n + 2 && |t.server.openedIds| == m + 1
    ensures Stranded(t.server) && 2 in t.client.pending && 2 in t.client.streams
    ensures Replies(t.toServer, 2) == Replies(s.toServer, 2)
    ensures 2 !in t.server.openedIds[1..] ==> Asks(t.toClient, 2) == Asks(s.toClient, 2)
  {
    var t1, s1 := OpenMany(s, Client, n);
    StrandedStays(s, Client, s1);
    var t2, s2 := OpenMany(s1, Server, m);
    StrandedStays(s1, Server, s2);
    RunsThen(s, t1, s1, t2, s2);
    trace, t := t1 + t2, s2;
  }

  /** Wherever the client opens twice and the server once, some run ends with the server waiting
      for an id under which no token is left, its response read as data. */
  lemma CrossedRun(n: nat, m: nat) returns (trace: seq<(Side, Action)>, t: System)
    requires 2 <= n < TWO32 && 1 <= m < TWO32
    ensures Runs(Start(), trace, t) && |t.client.openedIds| == n && |t.server.openedIds| == m
    ensures Stranded(t.server) && 2 in t.client.pending && 2 in t.client.streams
    ensures !t.client.ended && !t.server.ended && Tokens(2, InAccept(t.client.phase), t.toClient, t.toServer) == 0
  {
    var t1, s1 := GoesWrong();
    var t2, s2 := MoreOpens(s1, n - 2, m - 1);
    RunsThen(Start(), t1, s1, t2, s2);
    trace, t := t1 + t2, s2;
    FirstIdIsNotRepeated(trace, t);
    NoAsks(s1.toClient);
  }

  lemma FirstIdIsNotRepeated(trace: seq<(Side, Action)>, t: System)
    requires Runs(Start(), trace, t) && 1 <= |t.server.openedIds| < TWO32
    ensures SERVER_FIRST_ID !in t.server.openedIds[1..]
  {
    RunAllocates(Start(), trace, t, Server);
    LaterIdsDiffer(t.server.openedIds, t.server.nextId);
  }

  lemma NoAsks(w: seq<Frame>)
    requires w == [ResponseFrame(1), ResponseFrame(2)]
    ensures Asks(w, 2) == 0
  {
    assert w[1..] == [ResponseFrame(2)];
    assert Asks(w[1..][1..], 2) == 0;
    assert Asks(w[1..], 2) == 0;
  }

  lemma LaterIdsDiffer(ids: seq<u32>, next: u32)
    requires Allocated(SERVER_FIRST_ID, ids, next) && 1 <= |ids| < TWO32
    ensures SERVER_FIRST_ID !in ids[1..]
  {
    forall k | 1 <= k < |ids| ensures ids[k] != SERVER_FIRST_ID {
      IdsRepeatExactly(SERVER_FIRST_ID, 0, k);
    }
  }

  // ---------------------------------------------------------------- exactly when

  lemma ApartIsSafe(trace: seq<(Side, Action)>, s: System)
    requires Reachable(trace, s)
    ensures Safe(s) && OpensHaveTokens(s)
  {
    forall i, d ensures !(i in PeerAt(s, d).pending && i in PeerAt(s, d).streams && !PeerAt(s, d).ended) {
      EstablishedAtAcceptorFirst(trace, s, d, i);
    }
    assert PeerAt(s, Client) == s.client && PeerAt(s, Server) == s.server;
    if !s.client.ended && !s.server.ended {
      forall d, i
        ensures Tokens(i, InAccept(PeerAt(s, Other(d)).phase), PipeFrom(s, d), PipeFrom(s, Other(d)))
             == Bit(i in PeerAt(s, d).pending)
      {
        PendingHasOneToken(trace, s, d, i);
      }
    }
  }

  ghost predicate WithOpens(trace: seq<(Side, Action)>, s: System, n: nat, m: nat) {
    Runs(Start(), trace, s) && |s.client.openedIds| == n && |s.server.openedIds| == m
  }

  ghost predicate SafeInEveryRun(n: nat, m: nat) {
    forall trace, s :: WithOpens(trace, s, n, m) ==> Safe(s)
  }

  ghost predicate TokensInEveryRun(n: nat, m: nat) {
    forall trace, s :: WithOpens(trace, s, n, m) ==> OpensHaveTokens(s)
  }

  /** For given numbers of opens: in every run no side waits for a stream it has, if and only if
      the client opens at most one stream or the server none; and under the same condition,
      and no other, every waiting open has its one token in every run. */
  lemma SafeExactly(n: nat, m: nat)
    requires n < TWO32 && m < TWO32
    ensures SafeInEveryRun(n, m) <==> n <= 1 || m == 0
    ensures TokensInEveryRun(n, m) <==> n <= 1 || m == 0
  {
    if n <= 1 || m == 0 {
      forall trace, s | WithOpens(trace, s, n, m) ensures Safe(s) && OpensHaveTokens(s) {
        ApartExactly(trace, s);
        ApartIsSafe(trace, s);
      }
    } else {
      var trace, t := CrossedRun(n, m);
      assert WithOpens(trace, t, n, m);
      assert 2 in t.server.pending.Keys && 2 in t.server.streams.Keys;
      assert !Safe(t);
      assert PeerAt(t, Server) == t.server && PeerAt(t, Other(Server)) == t.client;
      assert PipeFrom(t, Server) == t.toClient && PipeFrom(t, Other(Server)) == t.toServer;
      assert !OpensHaveTokens(t);
    }
  }
}
