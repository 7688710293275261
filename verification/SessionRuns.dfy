/** What holds in every state of every run in which the two sides issue no id twice, whatever
    the interleaving. */
module SessionRuns {
  import opened Frames
  import opened StreamIds
  import opened LogicalStreams
  import opened Session
  import opened TwoPeers
  import opened Handshake
  import opened Invariants
  import opened Flow
  import opened Closing
  import opened Seqs

  ghost predicate Sound(s: System) {
    Inv(s) && Conservation(s) && AllCloseOnce(s.client.cells) && AllCloseOnce(s.server.cells)
  }

  /** No id has been issued twice. */
  ghost predicate IdsApart(s: System) { Apart(s.client.openedIds, s.server.openedIds) }

  lemma StepIsSound(s: System, d: Side, a: Action, t: System)
    requires Sound(s) && Step(s, d, a, t) && IdsApart(t)
    ensures Sound(t)
  {
    StepInv(s, d, a, t);
    StepConserves(s, d, a, t);
    InvFromEitherSide(s, d);
    NextClosesOnce(PeerAt(s, d), a, PeerAt(s, Other(d)).ended);
  }

  lemma ActionIssues(p: Peer, a: Action)
    requires Valid(p) && Enabled(p, a)
    ensures Next(p, a).openedIds == (if a.TakeCommand? then p.openedIds + [p.nextId] else p.openedIds)
    ensures Next(p, a).nextId == (if a.TakeCommand? then Advance(p.nextId, 1) else p.nextId)
  {
    if OnCell(a) {
      CellActionShape(p, a);
    }
  }

  /** Issued ids stay issued, so if none is issued twice in the end, none ever was. */
  lemma {:induction false} RunIdsGrow(s: System, trace: seq<(Side, Action)>, t: System)
    requires Runs(s, trace, t)
    ensures s.client.openedIds <= t.client.openedIds && s.server.openedIds <= t.server.openedIds
    ensures IdsApart(t) ==> IdsApart(s)
    decreases |trace|
  {
    if trace != [] {
      var m :| Step(s, trace[0].0, trace[0].1, m) && Runs(m, trace[1..], t);
      ActionIssues(PeerAt(s, trace[0].0), trace[0].1);
      RunIdsGrow(m, trace[1..], t);
    }
  }

  lemma {:induction false} RunIsSound(s: System, trace: seq<(Side, Action)>, t: System)
    requires Sound(s) && Runs(s, trace, t) && IdsApart(t)
    ensures Sound(t)
    decreases |trace|
  {
    if trace != [] {
      var m :| Step(s, trace[0].0, trace[0].1, m) && Runs(m, trace[1..], t);
      RunIdsGrow(m, trace[1..], t);
      StepIsSound(s, trace[0].0, trace[0].1, m);
      RunIsSound(m, trace[1..], t);
    }
  }

  /** `s` is a state of some run of the session, and no id has been issued twice in it. */
  ghost predicate Reachable(trace: seq<(Side, Action)>, s: System) {
    Runs(Start(), trace, s) && IdsApart(s)
  }

  lemma ReachableIsSound(trace: seq<(Side, Action)>, s: System)
    requires Reachable(trace, s)
    ensures Sound(s)
  {
    StartInv();
    StartConserves();
    RunIsSound(Start(), trace, s);
  }

  // ---------------------------------------------------------------- when ids are apart

  lemma ActionAllocates(p: Peer, a: Action, first: u32)
    requires Valid(p) && Enabled(p, a) && Allocated(first, p.openedIds, p.nextId)
    ensures Allocated(first, Next(p, a).openedIds, Next(p, a).nextId)
  {
    ActionIssues(p, a);
  }

  /** Every run, apart or not, issues the ids of its two counters in order. */
  lemma {:induction false} RunAllocates(s: System, trace: seq<(Side, Action)>, t: System, d: Side)
    requires Runs(s, trace, t) && Allocated(FirstId(d), PeerAt(s, d).openedIds, PeerAt(s, d).nextId)
    ensures Allocated(FirstId(d), PeerAt(t, d).openedIds, PeerAt(t, d).nextId)
    decreases |trace|
  {
    if trace != [] {
      var m :| Step(s, trace[0].0, trace[0].1, m) && Runs(m, trace[1..], t);
      if trace[0].0 == d {
        ActionAllocates(PeerAt(s, d), trace[0].1, FirstId(d));
      }
      RunAllocates(m, trace[1..], t, d);
    }
  }

  /** The client's ids are 1, 2, 3, ... and the server's 2, 3, 4, ..., both modulo 2^32. */
  lemma IssuedIds(trace: seq<(Side, Action)>, s: System, k: nat)
    requires Runs(Start(), trace, s)
    ensures k < |s.client.openedIds| ==> s.client.openedIds[k] == (k + 1) % 0x1_0000_0000
    ensures k < |s.server.openedIds| ==> s.server.openedIds[k] == (k + 2) % 0x1_0000_0000
  {
    RunAllocates(Start(), trace, s, Client);
    RunAllocates(Start(), trace, s, Server);
    AllocatedIds(FirstId(Client), s.client.openedIds, s.client.nextId, k);
    AllocatedIds(FirstId(Server), s.server.openedIds, s.server.nextId, k);
  }

  lemma AllocatedIds(first: u32, ids: seq<u32>, next: u32, k: nat)
    requires Allocated(first, ids, next)
    ensures k < |ids| ==> ids[k] == (first + k) % TWO32
  {
    IdAtIsModular(first, k);
  }

  /** Ids issued from `first` and from `other` are apart exactly when the counters' values are. */
  lemma AllocatedApart(first: u32, ids: seq<u32>, next: u32, other: u32, others: seq<u32>, otherNext: u32)
    requires Allocated(first, ids, next) && Allocated(other, others, otherNext)
    ensures (forall i :: i in ids ==> i !in others)
       <==> SpacesDisjoint(first, |ids|, other, |others|)
  {
    if forall i :: i in ids ==> i !in others {
      forall j: nat, k: nat | j < |ids| && k < |others| ensures IdAt(first, j) != IdAt(other, k) {
        assert ids[j] in ids && others[k] in others;
      }
    } else {
      var i :| i in ids && i in others;
      var j, k :| 0 <= j < |ids| && 0 <= k < |others| && ids[j] == i && others[k] == i;
      assert IdAt(first, j) == IdAt(other, k);
    }
  }

  /** The theorems below apply to a run exactly when the client has opened at most one stream
      or the server none. */
  lemma ApartExactly(trace: seq<(Side, Action)>, s: System)
    requires Runs(Start(), trace, s) && |s.client.openedIds| < TWO32 && |s.server.openedIds| < TWO32
    ensures Reachable(trace, s) <==> |s.client.openedIds| <= 1 || |s.server.openedIds| == 0
  {
    var (c, d) := (s.client, s.server);
    RunAllocates(Start(), trace, s, Client);
    RunAllocates(Start(), trace, s, Server);
    CountersApart(FirstId(Client), c, FirstId(Server), d);
    SpacesDisjointExactly(|c.openedIds|, |d.openedIds|);
  }

  lemma CountersApart(first: u32, c: Peer, other: u32, d: Peer)
    requires Allocated(first, c.openedIds, c.nextId) && Allocated(other, d.openedIds, d.nextId)
    requires |c.openedIds| < TWO32 && |d.openedIds| < TWO32
    ensures Apart(c.openedIds, d.openedIds) <==> SpacesDisjoint(first, |c.openedIds|, other, |d.openedIds|)
  {
    AllocatedApart(first, c.openedIds, c.nextId, other, d.openedIds, d.nextId);
  }

  // ---------------------------------------------------------------- the handshake

  /** While both actors run, an id waits at the side that issued it exactly as long as its
      handshake has its one token: an open request on the pipe, an accept half done at the
      other side, or an open response on the pipe back. */
  lemma PendingHasOneToken(trace: seq<(Side, Action)>, s: System, d: Side, i: u32)
    requires Reachable(trace, s) && !s.client.ended && !s.server.ended
    ensures Tokens(i, InAccept(PeerAt(s, Other(d)).phase), PipeFrom(s, d), PipeFrom(s, Other(d)))
         == Bit(i in PeerAt(s, d).pending)
  {
    ReachableIsSound(trace, s);
    InvFromEitherSide(s, d);
    var v := ViewOf(LinkOf(s, d));
    assert TokenRule(i, v);
    assert i in v.waiting ==> i in ToSet(v.ids) - v.idsO;
  }

  /** A side never waits for a stream it has, has no stream of its own that the other side
      did not have first, and has no stream that neither side opened. */
  lemma EstablishedAtAcceptorFirst(trace: seq<(Side, Action)>, s: System, d: Side, i: u32)
    requires Reachable(trace, s)
    ensures var (p, q) := (PeerAt(s, d), PeerAt(s, Other(d)));
            && (i in p.openedIds && i in Ids(p.cells) ==> i in Ids(q.cells))
            && (i in p.pending && !p.ended ==> i in p.openedIds && i !in Ids(p.cells) && i !in p.streams)
            && (i in Ids(p.cells) ==> i in p.openedIds || i in q.openedIds)
  {
    ReachableIsSound(trace, s);
    InvFromEitherSide(s, d);
    RegisteredIdsAreIds(PeerAt(s, d));
    var v := ViewOf(LinkOf(s, d));
    assert TokenRule(i, v);
    assert IsIssued(LinkOf(s, d), i) <==> i in PeerAt(s, d).openedIds || i in PeerAt(s, Other(d)).openedIds;
    assert i in PeerAt(s, d).pending <==> i in v.waiting;
    assert i in v.waiting && !v.endedO ==> i in ToSet(v.ids) - v.idsO;
  }

  lemma {:induction false} OrderedMeans(w: seq<Frame>, own: set<u32>, known: set<u32>, j: nat)
    requires Ordered(w, own, known) && j < |w| && StreamFrame(w[j])
    requires w[j].header.streamId in own && w[j].header.streamId !in known
    ensures exists k :: 0 <= k < j && w[k].header.flags.IsOpenResponse() && w[k].header.streamId == w[j].header.streamId
    decreases |w|
  {
    if w[0].header.flags.IsOpenResponse() && w[0].header.streamId == w[j].header.streamId {
      assert 0 < j;
    } else {
      var i := w[0].header.streamId;
      var now := if i in own && w[0].header.flags.IsOpenResponse() then known + {i} else known;
      OrderedMeans(w[1..], own, now, j - 1);
      var k :| 0 <= k < j - 1 && w[1..][k].header.flags.IsOpenResponse()
            && w[1..][k].header.streamId == w[j].header.streamId;
      assert w[k + 1] == w[1..][k];
    }
  }

  /** However early the accepting application sends: on the pipe back to an opener that still
      runs, the open response of a stream comes before all of the stream's frames. */
  lemma ResponsePrecedesData(trace: seq<(Side, Action)>, s: System, d: Side, j: nat)
    requires Reachable(trace, s) && j < |PipeFrom(s, Other(d))| && StreamFrame(PipeFrom(s, Other(d))[j])
    requires !PeerAt(s, d).ended
    requires PipeFrom(s, Other(d))[j].header.streamId in PeerAt(s, d).openedIds
    requires PipeFrom(s, Other(d))[j].header.streamId !in Ids(PeerAt(s, d).cells)
    ensures var w := PipeFrom(s, Other(d));
            exists k :: 0 <= k < j && w[k].header.flags.IsOpenResponse() && w[k].header.streamId == w[j].header.streamId
  {
    ReachableIsSound(trace, s);
    InvFromEitherSide(s, d);
    var v := ViewOf(LinkOf(s, d));
    OrderedMeans(v.w2, ToSet(v.ids), v.idsO, j);
  }

  /** The frame that a side handles next goes to its stream, accepts a stream that the other
      side opened, establishes one that this side opened, or belongs to a stream that this
      side had and has removed. The other branches of `handle_incoming_frame` are never
      taken. */
  lemma StraysBelongToRemovedStreams(trace: seq<(Side, Action)>, s: System, d: Side)
    requires Reachable(trace, s) && PipeFrom(s, Other(d)) != [] && !PeerAt(s, d).ended && PeerAt(s, d).phase.Idle?
    ensures var (p, q, f) := (PeerAt(s, d), PeerAt(s, Other(d)), PipeFrom(s, Other(d))[0]);
            match RouteOf(p, f)
            case Deliver => f.header.streamId in p.streams
            case Accept => f.header.streamId in q.openedIds
            case Establish => f.header.streamId in p.openedIds
            case Unknown => StreamFrame(f) && f.header.streamId in Ids(p.cells) && f.header.streamId !in p.streams
            case _ => false
  {
    ReachableIsSound(trace, s);
    InvFromEitherSide(s, d);
    WhatArrives(LinkOf(s, d));
    RegisteredIdsAreIds(PeerAt(s, d));
  }

  // ---------------------------------------------------------------- no orphan data

  /** Actions that neither close nor drop a stream or a session. */
  predicate Gentle(a: Action) {
    !a.AppCloseRead? && !a.AppDropReader? && !a.End? && a != Publish(false)
  }

  predicate SteadyCell(cell: Cell) { cell.live && cell.pc.Resting? }

  /** Every stream is registered and will stay so. */
  ghost predicate Steady(p: Peer) {
    && !p.ended && Ids(p.cells) <= p.streams.Keys
    && (forall c :: 0 <= c < |p.cells| ==> SteadyCell(p.cells[c]))
    && (forall k :: 0 <= k < |p.events| ==> !p.events[k].ClosedEvent?)
  }

  lemma GentleFrame(p: Peer, f: Frame)
    requires PeerOk(p) && Steady(p) && Expected(p, f)
    ensures Steady(OnFrame(p, f))
  {
    var i := f.header.streamId;
    if RouteOf(p, f) == Deliver {
      var c := p.streams[i];
      assert SteadyCell(p.cells[c]);
      IdsAfterSet(p.cells, c, p.cells[c].(queue := p.cells[c].queue + [f]));
    } else if !StreamFrame(f) {
      IdsAfterRegister(p.cells, i);
    }
  }

  lemma GentleUse(p: Peer, a: Action)
    requires PeerOk(p) && Steady(p) && Enabled(p, a) && Gentle(a) && OnCell(a)
    ensures Steady(Next(p, a))
  {
    CellActionShape(p, a);
    assert SteadyCell(p.cells[a.c]);
    IdsAfterSet(p.cells, a.c, CellNext(p.cells[a.c], a, p.ended));
  }

  lemma GentleStep(p: Peer, a: Action)
    requires PeerOk(p) && Steady(p) && Enabled(p, a) && Disciplined(p, a, false) && Gentle(a)
    requires a.Incoming? ==> Expected(p, a.frame)
    ensures Steady(Next(p, a))
  {
    if OnCell(a) {
      GentleUse(p, a);
    } else if a.Incoming? {
      GentleFrame(p, a.frame);
    }
  }

  lemma GentleSystemStep(s: System, d: Side, a: Action, t: System)
    requires Inv(s) && Step(s, d, a, t) && Gentle(a) && Steady(s.client) && Steady(s.server)
    ensures Steady(t.client) && Steady(t.server)
  {
    InvFromEitherSide(s, d);
    if a.Incoming? {
      ArrivalExpected(s, d);
    }
    GentleStep(PeerAt(s, d), a);
  }

  lemma {:induction false} GentleRun(s: System, trace: seq<(Side, Action)>, t: System)
    requires Sound(s) && Runs(s, trace, t) && IdsApart(t)
    requires Steady(s.client) && Steady(s.server) && forall k :: 0 <= k < |trace| ==> Gentle(trace[k].1)
    ensures Steady(t.client) && Steady(t.server)
    decreases |trace|
  {
    if trace != [] {
      var m :| Step(s, trace[0].0, trace[0].1, m) && Runs(m, trace[1..], t);
      RunIdsGrow(m, trace[1..], t);
      StepIsSound(s, trace[0].0, trace[0].1, m);
      GentleSystemStep(s, trace[0].0, trace[0].1, m);
      GentleRun(m, trace[1..], t);
    }
  }

  /** If nobody closes or drops anything, no frame is ever unknown to its receiver: it is
      delivered, or it opens a stream. */
  lemma NoOrphanFrames(trace: seq<(Side, Action)>, s: System, d: Side)
    requires Reachable(trace, s) && forall k :: 0 <= k < |trace| ==> Gentle(trace[k].1)
    requires PipeFrom(s, Other(d)) != [] && PeerAt(s, d).phase.Idle?
    ensures RouteOf(PeerAt(s, d), PipeFrom(s, Other(d))[0]) in {Deliver, Accept, Establish}
  {
    StartInv();
    StartConserves();
    GentleRun(Start(), trace, s);
    StraysBelongToRemovedStreams(trace, s, d);
  }

  // ---------------------------------------------------------------- conservation

  lemma FlowBetween(s: System, side: Side, c: nat, d: nat)
    requires Conservation(s) && PeerOk(PeerAt(s, side)) && PeerOk(PeerAt(s, Other(side)))
    requires c < |PeerAt(s, side).cells| && d < |PeerAt(s, Other(side)).cells|
    requires PeerAt(s, side).cells[c].id == PeerAt(s, Other(side)).cells[d].id
    ensures var (q, p, w) := (PeerAt(s, side), PeerAt(s, Other(side)), PipeFrom(s, side));
            var i := q.cells[c].id;
            Conserved(ReceivedAll(q.cells[c].sent), Log(p.cells[d]), OnPipe(w, i), InChannel(q.events, i),
                      Flowing(p, i), Up(q))
            && (Flowing(p, i) <==> IsRegistered(p, d))
  {
    var (q, p, w) := (PeerAt(s, side), PeerAt(s, Other(side)), PipeFrom(s, side));
    var i := q.cells[c].id;
    CellOfUnique(q.cells, c);
    CellOfUnique(p.cells, d);
    assert FlowOf(i, q, p, w);
    assert i in Ids(p.cells) && i in Ids(q.cells);
    if i in p.streams {
      CellOfUnique(p.cells, p.streams[i]);
    }
  }

  /** In every reachable state, for a stream registered at its reader's end and a writer
      whose session is up: sent = read ++ waiting ++ on the pipe ++ in the event channel. */
  lemma NothingLostOrReordered(trace: seq<(Side, Action)>, s: System, side: Side, c: nat, d: nat)
    requires Reachable(trace, s)
    requires c < |PeerAt(s, side).cells| && d < |PeerAt(s, Other(side)).cells|
    requires PeerAt(s, side).cells[c].id == PeerAt(s, Other(side)).cells[d].id
    requires IsRegistered(PeerAt(s, Other(side)), d) && Up(PeerAt(s, side))
    ensures var (q, p, w) := (PeerAt(s, side), PeerAt(s, Other(side)), PipeFrom(s, side));
            var i := q.cells[c].id;
            ReceivedAll(q.cells[c].sent)
            == p.cells[d].received + p.cells[d].queue + OnPipe(w, i) + InChannel(q.events, i)
  {
    ReachableIsSound(trace, s);
    InvFromEitherSide(s, side);
    FlowBetween(s, side, c, d);
  }

  /** In every reachable state, closed or not, what a reader has read and has waiting is the
      beginning of what the other end's writer has sent. */
  lemma ReadersSeeAPrefix(trace: seq<(Side, Action)>, s: System, side: Side, c: nat, d: nat)
    requires Reachable(trace, s)
    requires c < |PeerAt(s, side).cells| && d < |PeerAt(s, Other(side)).cells|
    requires PeerAt(s, side).cells[c].id == PeerAt(s, Other(side)).cells[d].id
    ensures PeerAt(s, Other(side)).cells[d].received + PeerAt(s, Other(side)).cells[d].queue
         <= ReceivedAll(PeerAt(s, side).cells[c].sent)
  {
    ReachableIsSound(trace, s);
    InvFromEitherSide(s, side);
    FlowBetween(s, side, c, d);
  }

  // ---------------------------------------------------------------- closing

  /** No open-flagged frame reaches a reader, and no stream ever sends a second close request. */
  lemma SplitStreamsCloseOnce(trace: seq<(Side, Action)>, s: System, side: Side, c: nat)
    requires Reachable(trace, s) && c < |PeerAt(s, side).cells|
    ensures CloseRequests(PeerAt(s, side).cells[c].sent) <= 1
    ensures forall f :: f in PeerAt(s, side).cells[c].queue ==> StreamFrame(f)
  {
    ReachableIsSound(trace, s);
    InvFromEitherSide(s, side);
    assert QueueOwned(PeerAt(s, side).cells[c]);
    assert CloseOnce(PeerAt(s, side).cells[c]);
  }

  /** A stream that has left Established never returns to it, in any continuation of the run. */
  lemma {:induction false} NeverReestablished(s: System, trace: seq<(Side, Action)>, t: System, side: Side, c: nat)
    requires Sound(s) && Runs(s, trace, t) && IdsApart(t)
    requires c < |PeerAt(s, side).cells| && !PeerAt(s, side).cells[c].state.Established?
    ensures c < |PeerAt(t, side).cells| && !PeerAt(t, side).cells[c].state.Established?
    decreases |trace|
  {
    if trace != [] {
      var a := trace[0].1;
      var m :| Step(s, trace[0].0, a, m) && Runs(m, trace[1..], t);
      RunIdsGrow(m, trace[1..], t);
      StepIsSound(s, trace[0].0, a, m);
      InvFromEitherSide(s, side);
      if trace[0].0 == side {
        NextClosesOnce(PeerAt(s, side), a, PeerAt(s, Other(side)).ended);
      }
      NeverReestablished(m, trace[1..], t, side, c);
    }
  }

  // ---------------------------------------------------------------- the records are true

  /** The frames that a run hands to `send_frame` of one stream, in order. */
  function Handed(trace: seq<(Side, Action)>, side: Side, c: nat): seq<Frame> {
    if trace == [] then []
    else (if trace[0].0 == side && trace[0].1.AppSend? && trace[0].1.c == c then [trace[0].1.frame] else [])
         + Handed(trace[1..], side, c)
  }

  predicate AsksToClose(step: (Side, Action), side: Side, c: nat) {
    step.0 == side && step.1.AppCloseRequest? && step.1.c == c
  }

  /** The stream's writer does not ask to close. */
  predicate KeepsOpen(trace: seq<(Side, Action)>, side: Side, c: nat) {
    forall k :: 0 <= k < |trace| ==> !AsksToClose(trace[k], side, c)
  }

  lemma KeepsOpenTail(trace: seq<(Side, Action)>, side: Side, c: nat)
    requires trace != [] && KeepsOpen(trace, side, c)
    ensures !AsksToClose(trace[0], side, c) && KeepsOpen(trace[1..], side, c)
  {
  }

  /** The frames that are not close requests. */
  function NotCloses(frames: seq<Frame>): seq<Frame> {
    if frames == [] then []
    else (if frames[0].header.flags.IsCloseRequest() then [] else [frames[0]]) + NotCloses(frames[1..])
  }

  /** What an action adds to the `sent` record of stream `c`. */
  function Records(p: Peer, a: Action, c: nat): seq<Frame>
    requires c < |p.cells|
  {
    if a.AppSend? && a.c == c then [a.frame]
    else if a.AppCloseRequest? && a.c == c && !p.ended then [CloseFrame(p.cells[c].id)]
    else []
  }

  lemma ActionRecordsSends(p: Peer, a: Action, c: nat)
    requires Valid(p) && Enabled(p, a) && c < |p.cells|
    ensures c < |Next(p, a).cells| && Next(p, a).cells[c].sent == p.cells[c].sent + Records(p, a, c)
  {
    AppendEmpty(p.cells[c].sent);
    if OnCell(a) {
      CellActionShape(p, a);
    }
  }

  lemma StepRecordsSends(s: System, d: Side, a: Action, t: System, side: Side, c: nat)
    requires Step(s, d, a, t) && c < |PeerAt(s, side).cells|
    ensures c < |PeerAt(t, side).cells|
    ensures PeerAt(t, side).cells[c].sent
         == PeerAt(s, side).cells[c].sent + if d == side then Records(PeerAt(s, side), a, c) else []
  {
    AppendEmpty(PeerAt(s, side).cells[c].sent);
    if d == side {
      ActionRecordsSends(PeerAt(s, side), a, c);
    }
  }

  lemma RecordsOwnFrames(p: Peer, a: Action, c: nat, farEnded: bool, later: seq<Frame>)
    requires c < |p.cells| && Disciplined(p, a, farEnded)
    ensures NotCloses(Records(p, a, c) + later) == (if a.AppSend? && a.c == c then [a.frame] else []) + NotCloses(later)
  {
    var now := Records(p, a, c);
    if now == [] {
      AppendEmpty(later);
      AppendEmpty(NotCloses(later));
    } else {
      assert (now + later)[0] == now[0] && (now + later)[1..] == later;
    }
  }

  /** In any run, a stream's `sent` record only grows: by what its application hands over, in
      order, and by the close requests of its own. */
  lemma {:induction false} RunRecordsSends(s: System, trace: seq<(Side, Action)>, t: System, side: Side, c: nat)
    returns (more: seq<Frame>)
    requires Runs(s, trace, t) && c < |PeerAt(s, side).cells|
    ensures c < |PeerAt(t, side).cells| && PeerAt(t, side).cells[c].sent == PeerAt(s, side).cells[c].sent + more
    ensures NotCloses(more) == Handed(trace, side, c)
    ensures KeepsOpen(trace, side, c) ==> more == Handed(trace, side, c)
    decreases |trace|
  {
    var before := PeerAt(s, side).cells[c].sent;
    if trace == [] {
      more := [];
      AppendEmpty(before);
    } else {
      var (d, a) := trace[0];
      var m :| Step(s, d, a, m) && Runs(m, trace[1..], t);
      var now := if d == side then Records(PeerAt(s, side), a, c) else [];
      StepRecordsSends(s, d, a, m, side, c);
      var later := RunRecordsSends(m, trace[1..], t, side, c);
      more := now + later;
      Assoc(before, now, later);
      if d == side {
        RecordsOwnFrames(PeerAt(s, side), a, c, PeerAt(s, Other(side)).ended, later);
      } else {
        AppendEmpty(later);
        AppendEmpty(Handed(trace[1..], side, c));
      }
      if KeepsOpen(trace, side, c) {
        KeepsOpenTail(trace, side, c);
      }
    }
  }
}
