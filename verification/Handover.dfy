/** Which stream goes to whom: the answers to openers, and the streams for `accept_stream`
    (foctet-mux/src/session.rs:140-200, 211-242, 392-411). */
module Handover {
  import opened Frames
  import opened Session
  import opened Handshake
  import opened Demux
  import opened Seqs

  // ---------------------------------------------------------------- answers

  /** Tickets are taken in the order in which they were issued, so the ticket number `t` got
      the id number `t`. */
  ghost predicate InTurn(p: Peer) {
    && |p.openedIds| <= p.issued
    && (!p.ended ==> |p.commands| == p.issued - |p.openedIds|)
    && (forall k :: 0 <= k < |p.commands| ==> p.commands[k] == |p.openedIds| + k < p.issued)
    && (forall i :: i in p.pending ==> p.pending[i] < |p.openedIds| && p.openedIds[p.pending[i]] == i)
  }

  /** An open response, or an open reset, for the id `i` has arrived. */
  ghost predicate Arrived(seen: seq<Action>, i: u32, reset: bool) {
    exists k :: 0 <= k < |seen| && seen[k].Incoming? && seen[k].frame.header.streamId == i
             && if reset then seen[k].frame.header.flags.IsOpenReset() else seen[k].frame.header.flags.IsOpenResponse()
  }

  /** An opener gets a stream under the id of its own open, which nobody else got, after the
      response to it arrived; it is rejected only by a reset for it; and it gets nothing only
      if the actor has ended or is about to, or the ids have come round. */
  ghost predicate Justified(p: Peer, a: Answer, seen: seq<Action>) {
    match a.outcome
    case Opened(c) =>
      && a.ticket < |p.openedIds| && c < |p.cells| && c in p.held
      && p.cells[c].id == p.openedIds[a.ticket] && Arrived(seen, p.openedIds[a.ticket], false)
    case Rejected =>
      a.ticket < |p.openedIds| && Arrived(seen, p.openedIds[a.ticket], true)
    case NoResponse =>
      a.ticket < p.issued && (p.ended || p.phase.Broken? || |p.openedIds| > TWO32)
  }

  ghost predicate AllJustified(p: Peer, answers: seq<Answer>, seen: seq<Action>) {
    forall k :: 0 <= k < |answers| ==> Justified(p, answers[k], seen)
  }

  ghost predicate DistinctStreams(answers: seq<Answer>) {
    forall j, k :: 0 <= j < k < |answers| && answers[j].outcome.Opened? && answers[k].outcome.Opened? ==>
      answers[j].outcome.cell != answers[k].outcome.cell
  }

  ghost predicate Correct(p: Peer, first: u32, seen: seq<Action>) {
    && Valid(p) && Allocated(first, p.openedIds, p.nextId) && InTurn(p)
    && AllJustified(p, p.answers, seen) && DistinctStreams(p.answers)
  }

  /** Nothing that an answer rests on is ever taken back. */
  ghost predicate Extends(p: Peer, q: Peer) {
    && p.openedIds <= q.openedIds && p.issued <= q.issued && p.held <= q.held && |p.cells| <= |q.cells|
    && (forall c :: 0 <= c < |p.cells| ==> q.cells[c].id == p.cells[c].id)
    && (p.ended || p.phase.Broken? ==> q.ended || q.phase.Broken?)
  }

  lemma NextExtends(p: Peer, a: Action)
    requires Valid(p) && Enabled(p, a)
    ensures Extends(p, Next(p, a))
  {
    CellsPersist(p, a);
    if OnCell(a) {
      CellActionShape(p, a);
    }
  }

  lemma ArrivedStays(seen: seq<Action>, a: Action, i: u32, reset: bool)
    requires Arrived(seen, i, reset)
    ensures Arrived(seen + [a], i, reset)
  {
    var k :| 0 <= k < |seen| && seen[k].Incoming? && seen[k].frame.header.streamId == i
          && if reset then seen[k].frame.header.flags.IsOpenReset() else seen[k].frame.header.flags.IsOpenResponse();
    assert (seen + [a])[k] == seen[k];
  }

  lemma ArrivedNow(seen: seq<Action>, f: Frame, reset: bool)
    requires if reset then f.header.flags.IsOpenReset() else f.header.flags.IsOpenResponse()
    ensures Arrived(seen + [Incoming(f)], f.header.streamId, reset)
  {
    assert (seen + [Incoming(f)])[|seen|] == Incoming(f);
  }

  lemma JustifiedStays(p: Peer, q: Peer, answers: seq<Answer>, seen: seq<Action>, a: Action)
    requires Extends(p, q) && AllJustified(p, answers, seen)
    ensures AllJustified(q, answers, seen + [a])
  {
    forall k | 0 <= k < |answers| ensures Justified(q, answers[k], seen + [a]) {
      assert Justified(p, answers[k], seen);
      var t := answers[k].ticket;
      match answers[k].outcome
      case Opened(_) => ArrivedStays(seen, a, p.openedIds[t], false);
      case Rejected => ArrivedStays(seen, a, p.openedIds[t], true);
      case NoResponse =>
    }
  }

  lemma DistinctAppend(p: Peer, answers: seq<Answer>, seen: seq<Action>, a: Answer)
    requires AllJustified(p, answers, seen) && DistinctStreams(answers)
    requires a.outcome.Opened? ==> a.outcome.cell >= |p.cells|
    ensures DistinctStreams(answers + [a])
  {
    var all := answers + [a];
    forall j, k | 0 <= j < k < |all| && all[j].outcome.Opened? && all[k].outcome.Opened?
      ensures all[j].outcome.cell != all[k].outcome.cell
    {
      if k == |answers| {
        assert Justified(p, answers[j], seen);
      }
    }
  }

  /** Answering the opener that waits under `i`. */
  lemma AnswerIsCorrect(p: Peer, q: Peer, i: u32, outcome: Outcome, first: u32, seen: seq<Action>, a: Action)
    requires Correct(p, first, seen) && Extends(p, q) && Valid(q) && i in p.pending
    requires q.openedIds == p.openedIds && q.nextId == p.nextId && q.commands == p.commands && q.issued == p.issued
    requires q.ended == p.ended && q.pending == p.pending - {i} && q.answers == p.answers + [Answer(p.pending[i], outcome)]
    requires Justified(q, Answer(p.pending[i], outcome), seen + [a])
    requires outcome.Opened? ==> outcome.cell == |p.cells|
    ensures Correct(q, first, seen + [a])
  {
    JustifiedStays(p, q, p.answers, seen, a);
    DistinctAppend(p, p.answers, seen, Answer(p.pending[i], outcome));
  }

  lemma FrameIsCorrect(p: Peer, f: Frame, first: u32, seen: seq<Action>)
    requires Correct(p, first, seen) && Extends(p, OnFrame(p, f))
    ensures Correct(OnFrame(p, f), first, seen + [Incoming(f)])
  {
    var (i, q, a) := (f.header.streamId, OnFrame(p, f), Incoming(f));
    OnFrameIsValid(p, f);
    match RouteOf(p, f)
    case Establish =>
      ArrivedNow(seen, f, false);
      assert q.cells[|p.cells|].id == i;
      AnswerIsCorrect(p, q, i, Opened(|p.cells|), first, seen, a);
    case Refuse =>
      ArrivedNow(seen, f, true);
      AnswerIsCorrect(p, q, i, Rejected, first, seen, a);
    case _ =>
      QuietIsCorrect(p, q, a, first, seen);
  }

  lemma BookedIsInTurn(p: Peer)
    requires InTurn(p) && p.commands != []
    ensures InTurn(Booked(p))
  {
    var q := Booked(p);
    forall k | 0 <= k < |q.commands| ensures q.commands[k] == |q.openedIds| + k < q.issued {
      assert q.commands[k] == p.commands[k + 1];
    }
    assert p.commands[0] == |p.openedIds|;
  }

  /** An id that comes round is one of 2^32 that have been issued. */
  lemma LostMeansWrapped(p: Peer, first: u32)
    requires Allocated(first, p.openedIds, p.nextId) && InTurn(p) && p.nextId in p.pending
    ensures |p.openedIds| >= TWO32
  {
    assert p.openedIds[p.pending[p.nextId]] == p.nextId;
    if |p.openedIds| < TWO32 {
      NextIdIsFresh(first, p.openedIds, p.nextId);
    }
  }

  lemma BookedAnswers(p: Peer, first: u32, seen: seq<Action>, a: Action)
    requires Correct(p, first, seen) && p.commands != [] && Extends(p, Booked(p))
    ensures AllJustified(Booked(p), Booked(p).answers, seen + [a]) && DistinctStreams(Booked(p).answers)
  {
    var q := Booked(p);
    JustifiedStays(p, q, p.answers, seen, a);
    AppendEmpty(p.answers);
    if p.nextId in p.pending {
      LostMeansWrapped(p, first);
      var lost := Answer(p.pending[p.nextId], NoResponse);
      assert Justified(q, lost, seen + [a]);
      DistinctAppend(p, p.answers, seen, lost);
    }
  }

  lemma CommandIsCorrect(p: Peer, ok: bool, first: u32, seen: seq<Action>)
    requires Correct(p, first, seen) && p.commands != [] && !p.ended && p.phase.Idle? && Valid(OnCommand(p, ok))
    ensures Correct(OnCommand(p, ok), first, seen + [TakeCommand(ok)])
  {
    var q, r, a := Booked(p), OnCommand(p, ok), TakeCommand(ok);
    BookedIsInTurn(p);
    BookedAnswers(p, first, seen, a);
    if !ok {
      var dropped := Answer(p.commands[0], NoResponse);
      forall k | 0 <= k < |q.answers| ensures Justified(r, q.answers[k], seen + [a]) {
        assert Justified(q, q.answers[k], seen + [a]);
      }
      assert Justified(r, dropped, seen + [a]);
      DistinctAppend(q, q.answers, seen + [a], dropped);
    }
  }

  lemma EndIsCorrect(p: Peer, dropped: seq<nat>, first: u32, seen: seq<Action>)
    requires Correct(p, first, seen) && Enabled(p, End(dropped)) && Valid(OnEnd(p, dropped))
    ensures Correct(OnEnd(p, dropped), first, seen + [End(dropped)])
  {
    var q, a := OnEnd(p, dropped), End(dropped);
    JustifiedStays(p, q, p.answers, seen, a);
    forall k | 0 <= k < |q.answers| ensures Justified(q, q.answers[k], seen + [a]) {
      if k >= |p.answers| {
        var t := dropped[k - |p.answers|];
        assert t in (set j | 0 <= j < |dropped| :: dropped[j]);
        assert t in Unanswered(p);
      } else {
        assert q.answers[k] == p.answers[k];
      }
    }
  }

  /** What the other actions do to the opens: nothing, or one more call. */
  lemma QuietActions(p: Peer, a: Action)
    requires Valid(p) && Enabled(p, a) && !a.Incoming? && !a.TakeCommand? && !a.End?
    ensures var q := Next(p, a);
            && q.answers == p.answers && q.openedIds == p.openedIds && q.nextId == p.nextId && q.pending == p.pending
            && q.ended == p.ended
            && (if a.AppOpen? then q.commands == p.commands + [p.issued] && q.issued == p.issued + 1
                else q.commands == p.commands && q.issued == p.issued)
  {
    if OnCell(a) {
      CellActionShape(p, a);
    }
  }

  lemma QuietIsCorrect(p: Peer, q: Peer, a: Action, first: u32, seen: seq<Action>)
    requires Correct(p, first, seen) && Valid(q) && Extends(p, q) && (a.AppOpen? ==> !p.ended)
    requires q.answers == p.answers && q.openedIds == p.openedIds && q.nextId == p.nextId && q.pending == p.pending
    requires q.ended == p.ended
    requires if a.AppOpen? then q.commands == p.commands + [p.issued] && q.issued == p.issued + 1
             else q.commands == p.commands && q.issued == p.issued
    ensures Correct(q, first, seen + [a])
  {
    JustifiedStays(p, q, p.answers, seen, a);
  }

  lemma NextIsCorrect(p: Peer, a: Action, first: u32, seen: seq<Action>)
    requires Correct(p, first, seen) && Enabled(p, a)
    ensures Correct(Next(p, a), first, seen + [a])
  {
    NextIsValid(p, a);
    if a.Incoming? {
      NextExtends(p, a);
      FrameIsCorrect(p, a.frame, first, seen);
    } else if a.TakeCommand? {
      CommandIsCorrect(p, a.ok, first, seen);
    } else if a.End? {
      EndIsCorrect(p, a.dropped, first, seen);
    } else {
      NextExtends(p, a);
      QuietActions(p, a);
      QuietIsCorrect(p, Next(p, a), a, first, seen);
    }
  }

  lemma {:induction false} RunIsCorrect(p: Peer, acts: seq<Action>, q: Peer, first: u32, seen: seq<Action>)
    requires Correct(p, first, seen) && Reaches(p, acts, q)
    ensures Correct(q, first, seen + acts)
    decreases |acts|
  {
    if acts == [] {
      AppendEmpty(seen);
    } else {
      NextIsCorrect(p, acts[0], first, seen);
      RunIsCorrect(Next(p, acts[0]), acts[1..], q, first, seen + [acts[0]]);
      HeadTail(acts);
      Assoc(seen, [acts[0]], acts[1..]);
    }
  }

  /** In every run, against any peer: every answer is justified, and no two openers get the
      same stream. */
  lemma OpenersGetTheirStreams(first: u32, acts: seq<Action>, p: Peer, k: nat)
    requires Reaches(NewPeer(first), acts, p) && k < |p.answers|
    ensures Justified(p, p.answers[k], acts)
    ensures forall j :: 0 <= j < k && p.answers[j].outcome.Opened? && p.answers[k].outcome.Opened? ==>
              p.answers[j].outcome.cell != p.answers[k].outcome.cell
  {
    AppendEmpty(acts);
    RunIsCorrect(NewPeer(first), acts, p, first, []);
  }

  // ---------------------------------------------------------------- owners

  ghost predicate Ascending(s: seq<nat>) {
    forall j, k :: 0 <= j < k < |s| ==> s[j] < s[k]
  }

  /** The actor holds the stream and is about to hand it over. */
  predicate InHand(p: Peer, c: nat) { p.phase.Registered? && p.phase.cell == c }

  /** Dropped: nobody can read the stream any more, and no frame reaches it. */
  predicate Discarded(p: Peer, c: nat)
    requires c < |p.cells|
  {
    !IsRegistered(p, c) && (!p.cells[c].live || (p.ended && c == |p.cells| - 1))
  }

  ghost predicate HasOwner(p: Peer, c: nat)
    requires c < |p.cells|
  {
    c in p.held || c in p.acceptQueue || InHand(p, c) || Discarded(p, c)
  }

  /** Every stream is in the application's hands, waits to be accepted, or is being handed
      over, once; or it was dropped. Streams wait in the order of their requests. */
  ghost predicate Owned(p: Peer) {
    && Valid(p) && Ascending(p.acceptQueue)
    && (p.phase.Registered? ==>
          && p.phase.cell == |p.cells| - 1 && p.cells[p.phase.cell].id == p.phase.id
          && p.phase.cell !in p.held && p.phase.cell !in p.acceptQueue)
    && (forall k :: 0 <= k < |p.acceptQueue| ==> p.acceptQueue[k] !in p.held)
    && (forall c :: 0 <= c < |p.cells| ==> HasOwner(p, c))
    && (p.ended ==> p.streams == map[] && !p.phase.Registered?)
  }

  lemma RegisterIsOwned(p: Peer, i: u32, q: Peer)
    requires Owned(p) && p.phase.Idle? && !p.ended && Valid(q) && !q.ended && q.cells == p.cells + [NewCell(i)]
    requires q.streams == p.streams[i := |p.cells|] && q.acceptQueue == p.acceptQueue
    requires || (q.held == p.held && q.phase == Registered(i, |p.cells|))
             || (q.held == p.held + {|p.cells|} && q.phase.Idle?)
    ensures Owned(q)
  {
    forall c | 0 <= c < |q.cells| ensures HasOwner(q, c) {
      if c < |p.cells| {
        assert HasOwner(p, c) && q.cells[c] == p.cells[c];
      }
    }
  }

  lemma DeliveryIsOwned(p: Peer, f: Frame)
    requires Owned(p) && p.phase.Idle? && !p.ended && RouteOf(p, f) == Deliver
    ensures Owned(OnFrame(p, f))
  {
    var q := OnFrame(p, f);
    OnFrameIsValid(p, f);
    forall c | 0 <= c < |q.cells| ensures HasOwner(q, c) {
      assert HasOwner(p, c);
    }
  }

  lemma FrameIsOwned(p: Peer, f: Frame)
    requires Owned(p) && p.phase.Idle? && !p.ended
    ensures Owned(OnFrame(p, f))
  {
    OnFrameIsValid(p, f);
    match RouteOf(p, f)
    case Deliver => DeliveryIsOwned(p, f);
    case Accept => RegisterIsOwned(p, f.header.streamId, OnFrame(p, f));
    case Establish => RegisterIsOwned(p, f.header.streamId, OnFrame(p, f));
    case Refuse => OtherIsOwned(p, OnFrame(p, f));
    case _ =>
  }

  lemma AscendingAppend(s: seq<nat>, x: nat)
    requires Ascending(s) && forall k :: 0 <= k < |s| ==> s[k] < x
    ensures Ascending(s + [x])
  {
  }

  lemma PublishIsOwned(p: Peer, ok: bool)
    requires Owned(p) && p.phase.Registered? && Valid(OnPublish(p, ok))
    ensures Owned(OnPublish(p, ok))
  {
    var (q, c) := (OnPublish(p, ok), p.phase.cell);
    forall k | 0 <= k < |p.acceptQueue| ensures p.acceptQueue[k] < c {
      assert p.acceptQueue[k] in p.acceptQueue;
    }
    AscendingAppend(p.acceptQueue, c);
    forall d | 0 <= d < |q.cells| ensures HasOwner(q, d) {
      assert HasOwner(p, d);
      if ok && d == c {
        assert q.acceptQueue[|p.acceptQueue|] == c;
      } else if ok && d in p.acceptQueue {
        assert d in q.acceptQueue;
      }
    }
  }

  lemma AcceptIsOwned(p: Peer)
    requires Owned(p) && p.acceptQueue != [] && Enabled(p, AppAccept)
    ensures Owned(Next(p, AppAccept))
    ensures forall k :: 0 <= k < |Next(p, AppAccept).acceptQueue| ==> p.acceptQueue[0] < Next(p, AppAccept).acceptQueue[k]
  {
    var q := Next(p, AppAccept);
    NextIsValid(p, AppAccept);
    HeadTail(p.acceptQueue);
    assert p.acceptQueue[0] in p.acceptQueue;
    forall d | 0 <= d < |q.cells| ensures HasOwner(q, d) {
      assert HasOwner(p, d);
    }
    forall k | 0 <= k < |q.acceptQueue| ensures q.acceptQueue[k] !in q.held && p.acceptQueue[0] < q.acceptQueue[k] {
      assert q.acceptQueue[k] == p.acceptQueue[k + 1];
    }
  }

  lemma UseIsOwned(p: Peer, a: Action)
    requires Owned(p) && Enabled(p, a) && OnCell(a)
    ensures Owned(Next(p, a))
  {
    var q := Next(p, a);
    NextIsValid(p, a);
    CellActionShape(p, a);
    forall d | 0 <= d < |q.cells| ensures HasOwner(q, d) {
      assert HasOwner(p, d);
    }
  }

  /** The actions that concern neither queue nor hands; some of them remove streams. */
  lemma OtherIsOwned(p: Peer, q: Peer)
    requires Owned(p) && Valid(q) && q.cells == p.cells && q.held == p.held && q.acceptQueue == p.acceptQueue
    requires forall i :: i in q.streams ==> i in p.streams && q.streams[i] == p.streams[i]
    requires q.ended ==> q.streams == map[] && !q.phase.Registered?
    requires p.ended ==> q.ended
    requires !q.ended ==> (q.phase.Registered? <==> p.phase.Registered?) && (p.phase.Registered? ==> q.phase == p.phase)
    ensures Owned(q)
  {
    forall d | 0 <= d < |q.cells| ensures HasOwner(q, d) {
      assert HasOwner(p, d);
    }
  }

  lemma NextIsOwned(p: Peer, a: Action)
    requires Owned(p) && Enabled(p, a)
    ensures Owned(Next(p, a))
  {
    NextIsValid(p, a);
    if OnCell(a) {
      UseIsOwned(p, a);
    } else if a.Incoming? {
      FrameIsOwned(p, a.frame);
    } else if a.Publish? {
      PublishIsOwned(p, a.ok);
    } else if a.AppAccept? {
      AcceptIsOwned(p);
    } else {
      OtherIsOwned(p, Next(p, a));
    }
  }

  lemma {:induction false} RunIsOwned(p: Peer, acts: seq<Action>, q: Peer)
    requires Owned(p) && Reaches(p, acts, q)
    ensures Owned(q)
    decreases |acts|
  {
    if acts != [] {
      NextIsOwned(p, acts[0]);
      RunIsOwned(Next(p, acts[0]), acts[1..], q);
    }
  }

  /** In every run, against any peer: a stream is in one place, once, or was dropped. */
  lemma EveryStreamHasOneOwner(first: u32, acts: seq<Action>, p: Peer, c: nat)
    requires Reaches(NewPeer(first), acts, p) && c < |p.cells|
    ensures Bit(c in p.held) + Bit(c in p.acceptQueue) + Bit(InHand(p, c)) <= 1
    ensures Bit(c in p.held) + Bit(c in p.acceptQueue) + Bit(InHand(p, c)) == 0 ==> Discarded(p, c)
    ensures Ascending(p.acceptQueue)
  {
    RunIsOwned(NewPeer(first), acts, p);
    assert HasOwner(p, c);
    if c in p.acceptQueue {
      var k :| 0 <= k < |p.acceptQueue| && p.acceptQueue[k] == c;
    }
  }

  /** `accept_stream` returns the stream whose request arrived first of those that wait. */
  lemma AcceptTakesTheOldest(first: u32, acts: seq<Action>, p: Peer)
    requires Reaches(NewPeer(first), acts, p) && Enabled(p, AppAccept)
    ensures Valid(p) && p.acceptQueue != []
    ensures var (c, q) := (p.acceptQueue[0], Next(p, AppAccept));
            c !in p.held && q.held == p.held + {c} && c !in q.acceptQueue
            && forall d :: d in p.acceptQueue ==> d == c || (c < d && d in q.acceptQueue)
  {
    RunIsOwned(NewPeer(first), acts, p);
    AcceptIsOwned(p);
    HeadTail(p.acceptQueue);
  }

  // ---------------------------------------------------------------- new streams

  /** A stream enters the table only when a request or an awaited response for an unregistered
      id arrives; it is registered under this id, empty, alive, Established and at rest. */
  lemma NewStreamsAreEstablished(p: Peer, a: Action)
    requires Valid(p) && Enabled(p, a)
    ensures var q := Next(p, a);
            |q.cells| > |p.cells| <==>
              && a.Incoming? && a.frame.header.streamId !in p.streams
              && (a.frame.header.flags.IsOpenRequest()
                  || (a.frame.header.flags.IsOpenResponse() && a.frame.header.streamId in p.pending))
    ensures var q := Next(p, a);
            |q.cells| > |p.cells| ==>
              && |q.cells| == |p.cells| + 1 && IsRegistered(q, |p.cells|)
              && var cell := q.cells[|p.cells|];
                 && cell.id == a.frame.header.streamId && cell.live && cell.queue == [] && cell.received == []
                 && cell.sent == [] && cell.state.Established? && cell.pc.Resting?
  {
    CellsPersist(p, a);
    if OnCell(a) {
      CellActionShape(p, a);
    }
  }
}
