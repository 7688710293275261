/** The handshake invariant of every run in which the two sides issue different ids. */
module Invariants {
  import opened Frames
  import opened StreamIds
  import opened LogicalStreams
  import opened Session
  import opened TwoPeers
  import opened Handshake
  import opened Seqs

  // ---------------------------------------------------------------- one peer

  ghost function Ids(cells: seq<Cell>): set<u32> { set c | 0 <= c < |cells| :: cells[c].id }

  ghost predicate UniqueIds(cells: seq<Cell>) {
    forall c, d :: 0 <= c < d < |cells| ==> cells[c].id != cells[d].id
  }

  /** Frames waiting to be written belong to streams of this side. */
  ghost predicate EventsOwned(events: seq<StreamEvent>, ids: set<u32>) {
    forall k :: 0 <= k < |events| && events[k].FrameEvent? ==>
      StreamFrame(events[k].frame) && events[k].frame.header.streamId in ids
  }

  /** Frames waiting to be read carry the reader's id and no open flags. */
  ghost predicate QueueOwned(cell: Cell) {
    forall k :: 0 <= k < |cell.queue| ==> StreamFrame(cell.queue[k]) && cell.queue[k].header.streamId == cell.id
  }

  ghost predicate QueuesOwned(cells: seq<Cell>) {
    forall c :: 0 <= c < |cells| ==> QueueOwned(cells[c])
  }

  ghost predicate PeerOk(p: Peer) {
    && Valid(p) && UniqueIds(p.cells) && EventsOwned(p.events, Ids(p.cells)) && QueuesOwned(p.cells)
  }

  lemma IdsAfterSet(cells: seq<Cell>, c: nat, cell: Cell)
    requires c < |cells| && cell.id == cells[c].id
    ensures Ids(cells[c := cell]) == Ids(cells)
    ensures UniqueIds(cells) ==> UniqueIds(cells[c := cell])
    ensures QueuesOwned(cells) && QueueOwned(cell) ==> QueuesOwned(cells[c := cell])
  {
    var after := cells[c := cell];
    forall i | i in Ids(cells) ensures i in Ids(after) {
      var d :| 0 <= d < |cells| && cells[d].id == i;
      assert after[d].id == i;
    }
    forall i | i in Ids(after) ensures i in Ids(cells) {
      var d :| 0 <= d < |after| && after[d].id == i;
      assert cells[d].id == i;
    }
  }

  lemma IdsAfterRegister(cells: seq<Cell>, i: u32)
    requires UniqueIds(cells) && QueuesOwned(cells) && i !in Ids(cells)
    ensures Ids(cells + [NewCell(i)]) == Ids(cells) + {i}
    ensures UniqueIds(cells + [NewCell(i)]) && QueuesOwned(cells + [NewCell(i)])
  {
    var after := cells + [NewCell(i)];
    forall j | j in Ids(cells) + {i} ensures j in Ids(after) {
      if j in Ids(cells) {
        var d :| 0 <= d < |cells| && cells[d].id == j;
        assert after[d].id == j;
      } else {
        assert after[|cells|].id == j;
      }
    }
    forall j | j in Ids(after) ensures j in Ids(cells) + {i} {
      var d :| 0 <= d < |after| && after[d].id == j;
      if d < |cells| {
        assert cells[d].id == j;
      }
    }
    forall c, d | 0 <= c < d < |after| ensures after[c].id != after[d].id {
      if d == |cells| {
        assert cells[c].id in Ids(cells);
      }
    }
  }

  lemma RegisteredIdsAreIds(p: Peer)
    requires Valid(p)
    ensures p.streams.Keys <= Ids(p.cells)
  {
    forall i | i in p.streams ensures i in Ids(p.cells) {
      assert p.cells[p.streams[i]].id == i;
    }
  }

  lemma EventsOwnedAppend(events: seq<StreamEvent>, ids: set<u32>, e: StreamEvent)
    requires EventsOwned(events, ids)
    requires e.FrameEvent? ==> StreamFrame(e.frame) && e.frame.header.streamId in ids
    ensures EventsOwned(events + [e], ids)
  {
  }

  lemma CellNextOwned(cell: Cell, a: Action, ended: bool)
    requires CellReady(cell, a) && QueueOwned(cell)
    ensures QueueOwned(CellNext(cell, a, ended))
  {
  }

  /** What an application does with a stream concerns that stream alone. */
  lemma CellActionKeepsPeer(p: Peer, a: Action)
    requires PeerOk(p) && Enabled(p, a) && Disciplined(p, a, false) && OnCell(a)
    ensures PeerOk(Next(p, a)) && Ids(Next(p, a).cells) == Ids(p.cells)
  {
    NextIsValid(p, a);
    CellActionShape(p, a);
    var cell, e := p.cells[a.c], Emits(p.cells[a.c], a, p.ended);
    assert QueueOwned(cell) && cell.id in Ids(p.cells);
    CellNextOwned(cell, a, p.ended);
    IdsAfterSet(p.cells, a.c, CellNext(cell, a, p.ended));
    if e.Some? {
      EventsOwnedAppend(p.events, Ids(p.cells), e.value);
    }
  }

  lemma DeliveryKeepsPeer(p: Peer, f: Frame)
    requires PeerOk(p) && StreamFrame(f)
    ensures PeerOk(OnFrame(p, f)) && Ids(OnFrame(p, f).cells) == Ids(p.cells)
    ensures var q := OnFrame(p, f); q == p.(cells := q.cells, streams := q.streams)
  {
    var i := f.header.streamId;
    OnFrameIsValid(p, f);
    if i in p.streams && p.cells[p.streams[i]].live {
      var c := p.streams[i];
      assert QueueOwned(p.cells[c]);
      IdsAfterSet(p.cells, c, p.cells[c].(queue := p.cells[c].queue + [f]));
    }
  }

  lemma RegisterKeepsPeer(p: Peer, i: u32)
    requires PeerOk(p) && i !in Ids(p.cells)
    ensures PeerOk(Register(p, i)) && Ids(Register(p, i).cells) == Ids(p.cells) + {i}
  {
    RegisterIsValid(p, i);
    IdsAfterRegister(p.cells, i);
  }

  // ---------------------------------------------------------------- both peers

  /** The session as one side sees it: this side and the other one, the pipe it writes and
      the pipe it reads. */
  datatype Link = Link(near: Peer, far: Peer, out: seq<Frame>, back: seq<Frame>, first: u32, farFirst: u32)

  function LinkOf(s: System, d: Side): Link {
    Link(PeerAt(s, d), PeerAt(s, Other(d)), PipeFrom(s, d), PipeFrom(s, Other(d)), FirstId(d), FirstId(Other(d)))
  }

  function Flip(l: Link): Link { Link(l.far, l.near, l.back, l.out, l.farFirst, l.first) }

  /** What the handshake of the near side's opens depends on. */
  ghost function ViewOf(l: Link): View {
    View(l.near.openedIds, l.near.nextId, l.near.pending.Keys, Ids(l.near.cells), Ids(l.far.cells),
         InAccept(l.far.phase), l.near.ended, l.far.ended, l.out, l.back)
  }

  ghost predicate IsIssued(l: Link, i: u32) { i in l.near.openedIds || i in l.far.openedIds }

  /** Every stream and every frame belongs to an open of one side or the other, and a side
      accepts only what the other side opened. */
  ghost predicate Accounted(l: Link) {
    && (forall i :: i in Ids(l.near.cells) ==> IsIssued(l, i))
    && (forall k :: 0 <= k < |l.out| ==> IsIssued(l, l.out[k].header.streamId))
    && (InAccept(l.near.phase).Some? ==> InAccept(l.near.phase).value in l.far.openedIds)
  }

  ghost predicate Half(l: Link) {
    PeerOk(l.near) && Accounted(l) && Shake(l.first, ViewOf(l))
  }

  /** The two sides have issued no id twice. */
  ghost predicate Apart(ids: seq<u32>, others: seq<u32>) {
    |ids| <= TWO32 && |others| <= TWO32 && forall i :: i in ids ==> i !in others
  }

  ghost predicate Joint(l: Link) {
    Half(l) && Half(Flip(l)) && Apart(l.near.openedIds, l.far.openedIds)
  }

  ghost function After(l: Link, a: Action): Link
    requires Moves(l.near, a, l.back, l.far.ended)
  {
    l.(near := Next(l.near, a), out := l.out + ReceivedAll(Output(l.near, a)), back := Consume(a, l.back))
  }

  ghost predicate Inv(s: System) { Joint(LinkOf(s, Client)) }

  lemma InvFromEitherSide(s: System, d: Side)
    ensures Inv(s) <==> Joint(LinkOf(s, d))
  {
    assert LinkOf(s, Server) == Flip(LinkOf(s, Client));
    assert Flip(Flip(LinkOf(s, Client))) == LinkOf(s, Client);
  }

  lemma FreshHalf(first: u32, farFirst: u32)
    ensures Half(Link(NewPeer(first), NewPeer(farFirst), [], [], first, farFirst))
  {
    var v := ViewOf(Link(NewPeer(first), NewPeer(farFirst), [], [], first, farFirst));
    assert v.waiting == {} && v.idsO == {} && v.idsA == {};
    forall i ensures TokenRule(i, v) {
    }
  }

  lemma StartInv()
    ensures Inv(Start())
  {
    FreshHalf(FirstId(Client), FirstId(Server));
    FreshHalf(FirstId(Server), FirstId(Client));
  }

  /** A frame on the wire is a stream frame exactly when it was one in the channel. */
  lemma ReceivedStreamFrame(f: Frame)
    requires StreamFrame(f)
    ensures StreamFrame(Received(f)) && Received(f).header.streamId == f.header.streamId
    ensures ReceivedAll([f]) == [Received(f)]
  {
  }

  lemma ReceivedControl(i: u32, flags: FrameFlags)
    ensures ReceivedAll([ControlFrame(i, flags)]) == [ControlFrame(i, flags)]
  {
  }

  // ---------------------------------------------------------------- a frame arrives

  /** `q` is `p` but for its streams, its openers and what it does next. */
  predicate SameIssuer(p: Peer, q: Peer) {
    q.openedIds == p.openedIds && q.nextId == p.nextId && q.ended == p.ended
  }

  lemma StillAccounted(l: Link, m: Link, j: u32)
    requires Accounted(l) && Accounted(Flip(l)) && l.back != [] && m == l.(near := m.near, back := l.back[1..])
    requires m.near.openedIds == l.near.openedIds
    requires Ids(m.near.cells) <= Ids(l.near.cells) + {j} && IsIssued(l, j)
    requires InAccept(m.near.phase).Some? ==> InAccept(m.near.phase).value in l.far.openedIds
    ensures Accounted(m) && Accounted(Flip(m))
  {
    assert forall i :: IsIssued(m, i) == IsIssued(l, i);
    assert forall i :: IsIssued(Flip(m), i) == IsIssued(Flip(l), i);
  }

  /** A response to one of this side's opens. */
  lemma ResponseArrives(l: Link, q: Peer)
    requires Joint(l) && !l.near.ended && l.back != [] && l.back[0].header.flags.IsOpenResponse()
    requires l.back[0].header.streamId in l.near.openedIds
    requires var j := l.back[0].header.streamId;
             && PeerOk(q) && SameIssuer(l.near, q) && q.phase == l.near.phase
             && q.pending == l.near.pending - {j} && Ids(q.cells) == Ids(l.near.cells) + {j}
    ensures Joint(l.(near := q, back := l.back[1..]))
  {
    var j, m, v, u := l.back[0].header.streamId, l.(near := q, back := l.back[1..]), ViewOf(l), ViewOf(Flip(l));
    ShakeEstablish(l.first, v);
    assert ViewOf(m) == v.(waiting := v.waiting - {j}, idsO := v.idsO + {j}, w2 := v.w2[1..]);
    ShakeForeignRead(l.farFirst, u);
    ShakeForeignStream(l.farFirst, u.(w1 := u.w1[1..]), j);
    assert ViewOf(Flip(m)) == u.(idsA := u.idsA + {j}, w1 := u.w1[1..]);
    StillAccounted(l, m, j);
  }

  /** A request for one of the other side's opens. */
  lemma RequestArrives(l: Link, q: Peer)
    requires Joint(l) && !l.near.ended && InAccept(l.near.phase) == None
    requires l.back != [] && l.back[0].header.flags.IsOpenRequest() && l.back[0].header.streamId in l.far.openedIds
    requires var j := l.back[0].header.streamId;
             && PeerOk(q) && SameIssuer(l.near, q) && InAccept(q.phase) == Some(j)
             && q.pending == l.near.pending && Ids(q.cells) == Ids(l.near.cells) + {j}
    ensures Joint(l.(near := q, back := l.back[1..]))
  {
    var j, m, v, u := l.back[0].header.streamId, l.(near := q, back := l.back[1..]), ViewOf(l), ViewOf(Flip(l));
    ShakeAccept(l.farFirst, u);
    assert ViewOf(Flip(m)) == u.(idsA := u.idsA + {j}, mid := Some(j), w1 := u.w1[1..]);
    ShakeForeignRead(l.first, v);
    ShakeForeignStream(l.first, v.(w2 := v.w2[1..]), j);
    assert ViewOf(m) == v.(idsO := v.idsO + {j}, w2 := v.w2[1..]);
    StillAccounted(l, m, j);
  }

  /** Data or a close of a stream of either side. */
  lemma DataArrives(l: Link, q: Peer)
    requires Joint(l) && l.back != [] && !l.near.ended && StreamFrame(l.back[0])
    requires PeerOk(q) && SameIssuer(l.near, q) && q.phase == l.near.phase && q.pending == l.near.pending
    requires Ids(q.cells) == Ids(l.near.cells)
    ensures Joint(l.(near := q, back := l.back[1..]))
  {
    var j, m, v, u := l.back[0].header.streamId, l.(near := q, back := l.back[1..]), ViewOf(l), ViewOf(Flip(l));
    assert ViewOf(m) == v.(w2 := v.w2[1..]);
    assert ViewOf(Flip(m)) == u.(w1 := u.w1[1..]);
    assert IsIssued(Flip(l), Flip(l).out[0].header.streamId);
    ShakeForeignRead(l.first, v);
    ShakeForeignRead(l.farFirst, u);
    if j in l.near.openedIds {
      ShakeOpenerReads(l.first, v);
    } else {
      ShakeAcceptorReads(l.farFirst, u);
    }
    StillAccounted(l, m, j);
  }

  /** What can arrive: a response to an open of this side, a request of the other side, or a
      frame of a stream that this side has registered. */
  lemma WhatArrives(l: Link)
    requires Joint(l) && l.back != [] && !l.near.ended && InAccept(l.near.phase) == None
    ensures var f, j := l.back[0], l.back[0].header.streamId;
            || (StreamFrame(f) && j in Ids(l.near.cells))
            || (f.header.flags.IsOpenResponse() && j in l.near.openedIds && j in l.near.pending && j !in Ids(l.near.cells))
            || (f.header.flags.IsOpenRequest() && j in l.far.openedIds && j !in Ids(l.near.cells))
  {
    var f, v, u := l.back[0], ViewOf(l), ViewOf(Flip(l));
    assert IsIssued(Flip(l), Flip(l).out[0].header.streamId);
    if f.header.streamId in l.near.openedIds {
      if f.header.flags.IsOpenResponse() {
        ShakeEstablish(l.first, v);
      } else {
        ShakeOpenerReads(l.first, v);
      }
    } else if f.header.flags.IsOpenRequest() {
      ShakeAccept(l.farFirst, u);
    } else {
      ShakeAcceptorReads(l.farFirst, u);
    }
  }

  lemma EstablishPeer(p: Peer, f: Frame)
    requires PeerOk(p) && f.header.flags.IsOpenResponse() && f.header.streamId in p.pending
    requires f.header.streamId !in Ids(p.cells)
    ensures var (q, j) := (OnFrame(p, f), f.header.streamId);
            && PeerOk(q) && SameIssuer(p, q) && q.phase == p.phase
            && q.pending == p.pending - {j} && Ids(q.cells) == Ids(p.cells) + {j}
  {
    RegisteredIdsAreIds(p);
    RegisterKeepsPeer(p, f.header.streamId);
  }

  lemma AcceptPeer(p: Peer, f: Frame)
    requires PeerOk(p) && f.header.flags.IsOpenRequest() && f.header.streamId !in Ids(p.cells)
    ensures var (q, j) := (OnFrame(p, f), f.header.streamId);
            && PeerOk(q) && SameIssuer(p, q) && InAccept(q.phase) == Some(j)
            && q.pending == p.pending && Ids(q.cells) == Ids(p.cells) + {j}
  {
    RegisteredIdsAreIds(p);
    RegisterKeepsPeer(p, f.header.streamId);
  }

  lemma FrameArrives(l: Link)
    requires Joint(l) && l.back != [] && !l.near.ended && InAccept(l.near.phase) == None
    ensures Joint(l.(near := OnFrame(l.near, l.back[0]), back := l.back[1..]))
  {
    var f := l.back[0];
    WhatArrives(l);
    if StreamFrame(f) {
      DeliveryKeepsPeer(l.near, f);
      DataArrives(l, OnFrame(l.near, f));
    } else if f.header.flags.IsOpenResponse() {
      EstablishPeer(l.near, f);
      ResponseArrives(l, OnFrame(l.near, f));
    } else {
      AcceptPeer(l.near, f);
      RequestArrives(l, OnFrame(l.near, f));
    }
  }

  // ---------------------------------------------------------------- a side moves by itself

  lemma SideOpens(l: Link)
    requires Joint(l) && !l.near.ended && l.near.commands != []
    requires Apart(l.near.openedIds + [l.near.nextId], l.far.openedIds)
    ensures Joint(l.(near := Booked(l.near), out := l.out + [RequestFrame(l.near.nextId)]))
  {
    var v, u, j := ViewOf(l), ViewOf(Flip(l)), l.near.nextId;
    var m := l.(near := Booked(l.near), out := l.out + [RequestFrame(j)]);
    NextIdIsFresh(l.first, v.ids, j);
    assert j in l.near.openedIds + [j] && !IsIssued(l, j);
    ShakeOpen(l.first, v);
    assert m.near.pending.Keys == v.waiting + {j};
    assert ViewOf(m) == v.(ids := v.ids + [j], nextId := Advance(j, 1),
                           waiting := v.waiting + {j}, w1 := v.w1 + [RequestFrame(j)]);
    ShakeForeignSent(l.farFirst, u, RequestFrame(j));
    assert ViewOf(Flip(m)) == u.(w2 := u.w2 + [RequestFrame(j)]);
  }

  lemma SideResponds(l: Link)
    requires Joint(l) && l.near.phase.Published?
    ensures Joint(l.(near := l.near.(phase := Idle), out := l.out + [ResponseFrame(l.near.phase.id)]))
  {
    var v, u, j := ViewOf(l), ViewOf(Flip(l)), l.near.phase.id;
    var m := l.(near := l.near.(phase := Idle), out := l.out + [ResponseFrame(j)]);
    ShakeRespond(l.farFirst, u, j);
    assert ViewOf(Flip(m)) == u.(mid := None, w2 := u.w2 + [ResponseFrame(j)]);
    ShakeForeignSent(l.first, v, ResponseFrame(j));
    assert ViewOf(m) == v.(w1 := v.w1 + [ResponseFrame(j)]);
  }

  lemma FrameWritten(l: Link, q: Peer, f: Frame)
    requires Joint(l) && !l.near.ended && InAccept(l.near.phase) == None
    requires StreamFrame(f) && f.header.streamId in Ids(l.near.cells)
    requires PeerOk(q) && q == l.near.(events := q.events)
    ensures Joint(l.(near := q, out := l.out + [f]))
  {
    var v, u, m := ViewOf(l), ViewOf(Flip(l)), l.(near := q, out := l.out + [f]);
    assert IsIssued(l, f.header.streamId);
    if f.header.streamId in v.ids {
      ShakeOpenerSends(l.first, v, f);
      ShakeForeignSent(l.farFirst, u, f);
    } else {
      ShakeAcceptorSends(l.farFirst, u, f);
      ShakeForeignSent(l.first, v, f);
    }
    assert ViewOf(m) == v.(w1 := v.w1 + [f]);
    assert ViewOf(Flip(m)) == u.(w2 := u.w2 + [f]);
  }

  lemma SideWrites(l: Link)
    requires Joint(l) && !l.near.ended && l.near.phase.Idle? && l.near.events != [] && l.near.events[0].FrameEvent?
    ensures Joint(l.(near := OnEvent(l.near, true), out := l.out + ReceivedAll([l.near.events[0].frame])))
  {
    ReceivedStreamFrame(l.near.events[0].frame);
    FrameWritten(l, OnEvent(l.near, true), Received(l.near.events[0].frame));
  }

  lemma SideEnds(l: Link, q: Peer)
    requires Joint(l) && PeerOk(q) && q.phase.Idle? && q.ended && q.pending == map[]
    requires q.openedIds == l.near.openedIds && q.nextId == l.near.nextId && q.cells == l.near.cells
    ensures Joint(l.(near := q))
  {
    var m := l.(near := q);
    ShakeOpenerEnds(l.first, ViewOf(l));
    ShakeAcceptorEnds(l.farFirst, ViewOf(Flip(l)));
    assert ViewOf(m) == ViewOf(l).(waiting := {}, endedO := true);
    assert ViewOf(Flip(m)) == ViewOf(Flip(l)).(mid := None, endedA := true);
    assert forall i :: IsIssued(m, i) == IsIssued(l, i);
    assert forall i :: IsIssued(Flip(m), i) == IsIssued(Flip(l), i);
  }

  /** A change of one peer that the handshake does not see. */
  lemma Unseen(l: Link, p: Peer)
    requires Joint(l) && PeerOk(p) && InAccept(p.phase) == InAccept(l.near.phase)
    requires p.openedIds == l.near.openedIds && p.nextId == l.near.nextId && p.pending == l.near.pending
    requires Ids(p.cells) == Ids(l.near.cells) && p.ended == l.near.ended
    ensures Joint(l.(near := p))
  {
    var m := l.(near := p);
    assert ViewOf(m) == ViewOf(l) && ViewOf(Flip(m)) == ViewOf(Flip(l));
    assert forall i :: IsIssued(m, i) == IsIssued(l, i);
  }

  lemma PublishKeepsPeer(p: Peer, a: Action)
    requires PeerOk(p) && Enabled(p, a) && a.Publish?
    ensures PeerOk(Next(p, a)) && Ids(Next(p, a).cells) == Ids(p.cells)
  {
    var c := p.phase.cell;
    NextIsValid(p, a);
    assert QueueOwned(p.cells[c]);
    IdsAfterSet(p.cells, c, p.cells[c].(live := false));
  }

  lemma ApplicationWorks(l: Link, a: Action)
    requires Joint(l) && Enabled(l.near, a) && Disciplined(l.near, a, l.far.ended) && OnCell(a)
    ensures Joint(l.(near := Next(l.near, a)))
  {
    CellActionShape(l.near, a);
    CellActionKeepsPeer(l.near, a);
    Unseen(l, OnStream(l.near, a));
  }

  /** What changes nothing that the handshake depends on. */
  lemma WorksUnseen(l: Link, a: Action)
    requires Joint(l) && Enabled(l.near, a)
    requires a.AppOpen? || a.AppAccept? || (a.TakeEvent? && !l.near.events[0].FrameEvent?)
    ensures Joint(l.(near := Next(l.near, a)))
  {
    NextIsValid(l.near, a);
    Unseen(l, Next(l.near, a));
  }

  lemma SidePublishes(l: Link, a: Action)
    requires Joint(l) && Enabled(l.near, a) && a.Publish?
    ensures Joint(l.(near := Next(l.near, a)))
  {
    PublishKeepsPeer(l.near, a);
    Unseen(l, Next(l.near, a));
  }

  /** The actions that neither write nor read a frame. */
  lemma WorksQuietly(l: Link, a: Action)
    requires Joint(l) && Enabled(l.near, a) && Disciplined(l.near, a, l.far.ended)
    requires !a.Incoming? && !a.Respond? && !a.TakeCommand? && !a.ReadError?
    requires !(a.TakeEvent? && l.near.events[0].FrameEvent?)
    ensures Joint(l.(near := Next(l.near, a))) && Output(l.near, a) == []
  {
    if OnCell(a) {
      ApplicationWorks(l, a);
    } else if a.Publish? {
      SidePublishes(l, a);
    } else if a.End? {
      SideEnds(l, Next(l.near, a));
    } else {
      WorksUnseen(l, a);
    }
  }

  /** An open whose request could not be written: the id is used up and nobody waits for it. */
  lemma OpenFails(l: Link, q: Peer)
    requires Joint(l) && !l.near.ended && l.far.ended && Apart(l.near.openedIds + [l.near.nextId], l.far.openedIds)
    requires PeerOk(q) && InAccept(q.phase) == InAccept(l.near.phase) && q.pending == l.near.pending && !q.ended
    requires q.openedIds == l.near.openedIds + [l.near.nextId] && q.nextId == Advance(l.near.nextId, 1)
    requires Ids(q.cells) == Ids(l.near.cells)
    ensures Joint(l.(near := q))
  {
    var v, u, j, m := ViewOf(l), ViewOf(Flip(l)), l.near.nextId, l.(near := q);
    NextIdIsFresh(l.first, v.ids, j);
    assert j in l.near.openedIds + [j] && !IsIssued(l, j);
    ShakeOpenFails(l.first, v);
    assert ViewOf(m) == v.(ids := v.ids + [j], nextId := Advance(j, 1));
    assert ViewOf(Flip(m)) == u;
  }

  lemma ResponseFails(l: Link, q: Peer)
    requires Joint(l) && l.far.ended && q == l.near.(phase := Idle)
    ensures Joint(l.(near := q))
  {
    var m := l.(near := q);
    ShakeRespondFails(l.farFirst, ViewOf(Flip(l)));
    assert ViewOf(Flip(m)) == ViewOf(Flip(l)).(mid := None);
    assert ViewOf(m) == ViewOf(l);
    assert forall i :: IsIssued(m, i) == IsIssued(l, i);
    assert forall i :: IsIssued(Flip(m), i) == IsIssued(Flip(l), i);
  }

  lemma CommandFailsPeer(l: Link)
    requires Joint(l) && l.near.commands != [] && l.near.phase.Idle? && !l.near.ended
    requires Apart(l.near.openedIds + [l.near.nextId], l.far.openedIds)
    ensures OnCommand(l.near, false).pending == l.near.pending && PeerOk(OnCommand(l.near, false))
  {
    var p := l.near;
    NextIdIsFresh(l.first, p.openedIds, p.nextId);
    assert p.nextId !in p.pending.Keys;
    assert p.pending[p.nextId := p.commands[0]] - {p.nextId} == p.pending;
  }

  lemma BreaksUnseen(l: Link, events: seq<StreamEvent>)
    requires Joint(l) && l.near.phase.Idle? && EventsOwned(events, Ids(l.near.cells))
    ensures Joint(l.(near := l.near.(phase := Broken, events := events)))
  {
    Unseen(l, l.near.(phase := Broken, events := events));
  }

  /** A read or a write fails. */
  lemma SideFails(l: Link, a: Action)
    requires Joint(l) && Enabled(l.near, a) && Fails(a) && l.far.ended
    requires a.TakeEvent? ==> l.near.events[0].FrameEvent?
    requires Apart(Next(l.near, a).openedIds, l.far.openedIds)
    ensures Joint(l.(near := Next(l.near, a))) && Output(l.near, a) == []
  {
    if a.Respond? {
      ResponseFails(l, Next(l.near, a));
    } else if a.TakeCommand? {
      CommandFailsPeer(l);
      OpenFails(l, OnCommand(l.near, false));
    } else {
      BreaksUnseen(l, if a.ReadError? then l.near.events else l.near.events[1..]);
    }
  }

  /** Every action of one side keeps the invariant, as long as no id is issued twice. */
  lemma SideMoves(l: Link, a: Action)
    requires Joint(l) && Moves(l.near, a, l.back, l.far.ended) && Apart(Next(l.near, a).openedIds, l.far.openedIds)
    ensures Joint(After(l, a))
  {
    AppendEmpty(l.out);
    if a.Incoming? {
      FrameArrives(l);
    } else if a.TakeEvent? && !l.near.events[0].FrameEvent? {
      WorksQuietly(l, a);
    } else if Fails(a) {
      SideFails(l, a);
    } else if a.Respond? {
      ReceivedControl(l.near.phase.id, OpenResponseFlags());
      SideResponds(l);
    } else if a.TakeCommand? {
      ReceivedControl(l.near.nextId, OpenRequestFlags());
      SideOpens(l);
    } else if a.TakeEvent? {
      SideWrites(l);
    } else {
      WorksQuietly(l, a);
    }
  }

  lemma StepInv(s: System, d: Side, a: Action, t: System)
    requires Inv(s) && Step(s, d, a, t) && Apart(t.client.openedIds, t.server.openedIds)
    ensures Inv(t)
  {
    InvFromEitherSide(s, d);
    InvFromEitherSide(t, d);
    assert LinkOf(t, d) == After(LinkOf(s, d), a);
    SideMoves(LinkOf(s, d), a);
  }
}
