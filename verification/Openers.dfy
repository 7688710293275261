/** Every `open_stream` call is answered exactly once, whatever the peer sends
    (foctet-mux/src/session.rs:172-200, 211-242, 280-293). */
module Openers {
  import opened Frames
  import opened Session
  import opened Seqs

  function Tickets(answers: seq<Answer>): (r: seq<nat>)
    ensures |r| == |answers|
    ensures forall k :: 0 <= k < |r| ==> r[k] == answers[k].ticket
  {
    seq(|answers|, k requires 0 <= k < |answers| => answers[k].ticket)
  }

  ghost predicate Injective(m: map<u32, nat>) {
    forall i, j :: i in m && j in m && m[i] == m[j] ==> i == j
  }

  /** Each issued ticket is in exactly one place (waiting as a command, waiting for the
      remote, or answered), once; no other ticket is anywhere. */
  ghost predicate Ledger(commands: seq<nat>, pending: map<u32, nat>, done: seq<nat>, issued: nat) {
    && NoDuplicates(commands) && NoDuplicates(done) && Injective(pending)
    && forall t: nat :: Bit(t in commands) + Bit(t in pending.Values) + Bit(t in done) == Bit(t < issued)
  }

  ghost predicate Accounted(p: Peer) {
    Ledger(p.commands, p.pending, Tickets(p.answers), p.issued)
  }

  lemma ValuesWithout(m: map<u32, nat>, i: u32)
    requires i in m && Injective(m)
    ensures (m - {i}).Values == m.Values - {m[i]} && Injective(m - {i})
  {
    var n := m - {i};
    forall t | t in m.Values - {m[i]} ensures t in n.Values {
      var j :| j in m && m[j] == t;
      assert j in n && n[j] == t;
    }
    forall t | t in n.Values ensures t in m.Values - {m[i]} {
      var j :| j in n && n[j] == t;
      assert j in m && m[j] == t;
    }
  }

  lemma ValuesWith(m: map<u32, nat>, i: u32, t: nat)
    requires i !in m && Injective(m) && t !in m.Values
    ensures m[i := t].Values == m.Values + {t} && Injective(m[i := t])
  {
    var n := m[i := t];
    forall u | u in m.Values + {t} ensures u in n.Values {
      if u != t {
        var j :| j in m && m[j] == u;
        assert j in n && n[j] == u;
      } else {
        assert i in n && n[i] == t;
      }
    }
  }

  lemma MemberOfAppend(s: seq<nat>, x: nat, t: nat)
    ensures t in s + [x] <==> t in s || t == x
  {
  }

  /** Answering the opener that waits under `i`. */
  lemma LedgerAnswer(commands: seq<nat>, pending: map<u32, nat>, done: seq<nat>, issued: nat, i: u32)
    requires Ledger(commands, pending, done, issued) && i in pending
    ensures Ledger(commands, pending - {i}, done + [pending[i]], issued)
  {
    var x := pending[i];
    assert x in pending.Values;
    ValuesWithout(pending, i);
    forall t: nat
      ensures Bit(t in commands) + Bit(t in (pending - {i}).Values) + Bit(t in done + [x]) == Bit(t < issued)
    {
      MemberOfAppend(done, x, t);
    }
  }

  /** Dropping the first command with its caller. */
  lemma LedgerDrop(commands: seq<nat>, pending: map<u32, nat>, done: seq<nat>, issued: nat)
    requires Ledger(commands, pending, done, issued) && commands != []
    ensures Ledger(commands[1..], pending, done + [commands[0]], issued)
  {
    var x := commands[0];
    HeadTail(commands);
    forall t: nat
      ensures Bit(t in commands[1..]) + Bit(t in pending.Values) + Bit(t in done + [x]) == Bit(t < issued)
    {
      MemberOfAppend(done, x, t);
      assert t in commands <==> t == x || t in commands[1..];
    }
  }

  /** Taking the first command and waiting for the remote under the free id `i`. */
  lemma LedgerAsk(commands: seq<nat>, pending: map<u32, nat>, done: seq<nat>, issued: nat, i: u32)
    requires Ledger(commands, pending, done, issued) && commands != [] && i !in pending
    ensures Ledger(commands[1..], pending[i := commands[0]], done, issued)
  {
    var x := commands[0];
    HeadTail(commands);
    assert x in commands;
    ValuesWith(pending, i, x);
    forall t: nat
      ensures Bit(t in commands[1..]) + Bit(t in pending[i := x].Values) + Bit(t in done) == Bit(t < issued)
    {
      assert t in commands <==> t == x || t in commands[1..];
    }
  }

  lemma TicketsAppend(answers: seq<Answer>, a: Answer)
    ensures Tickets(answers + [a]) == Tickets(answers) + [a.ticket]
  {
  }

  lemma CommandKeepsAccount(p: Peer, ok: bool)
    requires p.commands != [] && Accounted(p)
    ensures Accounted(OnCommand(p, ok))
  {
    var (t, i) := (p.commands[0], p.nextId);
    var (freed, answers) := (p.pending - {i}, p.answers);
    if i in p.pending {
      LedgerAnswer(p.commands, p.pending, Tickets(p.answers), p.issued, i);
      answers := p.answers + [Answer(p.pending[i], NoResponse)];
      TicketsAppend(p.answers, Answer(p.pending[i], NoResponse));
    } else {
      assert freed == p.pending;
      AppendEmpty(p.answers);
    }
    assert Ledger(p.commands, freed, Tickets(answers), p.issued);
    if ok {
      LedgerAsk(p.commands, freed, Tickets(answers), p.issued, i);
      assert freed[i := t] == p.pending[i := t];
    } else {
      assert p.pending[i := t] - {i} == freed;
      LedgerDrop(p.commands, freed, Tickets(answers), p.issued);
      TicketsAppend(answers, Answer(t, NoResponse));
    }
  }

  lemma FrameKeepsAccount(p: Peer, f: Frame)
    requires Valid(p) && Accounted(p)
    ensures Accounted(OnFrame(p, f))
  {
    var i, route := f.header.streamId, RouteOf(p, f);
    if route == Establish || route == Refuse {
      LedgerAnswer(p.commands, p.pending, Tickets(p.answers), p.issued, i);
      var a := if route == Establish then Answer(p.pending[i], Opened(|p.cells|)) else Answer(p.pending[i], Rejected);
      TicketsAppend(p.answers, a);
    }
  }

  lemma MemberOfConcat(s: seq<nat>, r: seq<nat>, t: nat)
    ensures t in s + r <==> t in s || t in r
  {
  }

  /** When the actor is dropped, so is every sender it still owns. */
  lemma EndAnswersEveryone(p: Peer, dropped: seq<nat>)
    requires Valid(p) && Enabled(p, End(dropped)) && Accounted(p)
    ensures Accounted(OnEnd(p, dropped))
  {
    var done, q := Tickets(p.answers), OnEnd(p, dropped);
    assert Tickets(q.answers) == done + dropped;
    assert q.pending.Values == {};
    forall t: nat
      ensures t in dropped <==> t in p.commands || t in p.pending.Values
    {
      if t in dropped {
        assert t in Unanswered(p);
      }
      if t in p.commands || t in p.pending.Values {
        assert t in Unanswered(p);
      }
    }
    forall t: nat ensures Bit(t in done + dropped) == Bit(t < p.issued) {
      MemberOfConcat(done, dropped, t);
      assert Bit(t in p.commands) + Bit(t in p.pending.Values) + Bit(t in done) == Bit(t < p.issued);
    }
    forall j, k | 0 <= j < k < |done + dropped| ensures (done + dropped)[j] != (done + dropped)[k] {
      if j < |done| <= k {
        assert done[j] in done && dropped[k - |done|] in dropped;
      }
    }
  }

  lemma OpenKeepsAccount(p: Peer)
    requires Valid(p) && Enabled(p, AppOpen) && Accounted(p)
    ensures Accounted(Next(p, AppOpen))
  {
    var q := Next(p, AppOpen);
    assert Bit(p.issued in p.commands) == 0;
    forall t: nat
      ensures Bit(t in q.commands) + Bit(t in q.pending.Values) + Bit(t in Tickets(q.answers)) == Bit(t < q.issued)
    {
      MemberOfAppend(p.commands, p.issued, t);
    }
  }

  lemma NextKeepsAccount(p: Peer, a: Action)
    requires Valid(p) && Enabled(p, a) && Accounted(p)
    ensures Accounted(Next(p, a))
  {
    if OnCell(a) {
      CellActionShape(p, a);
    } else {
      match a
      case Incoming(f) => FrameKeepsAccount(p, f);
      case TakeCommand(ok) => CommandKeepsAccount(p, ok);
      case End(dropped) => EndAnswersEveryone(p, dropped);
      case AppOpen => OpenKeepsAccount(p);
      case _ =>
    }
  }

  /** The end of the actor leaves no command and no pending open behind. */
  predicate Settled(p: Peer) { p.ended ==> p.commands == [] && p.pending == map[] }

  lemma AnswersOnlyGrow(p: Peer, a: Action)
    requires Valid(p) && Enabled(p, a)
    ensures p.answers <= Next(p, a).answers
    ensures Settled(p) ==> Settled(Next(p, a))
  {
    if OnCell(a) {
      CellActionShape(p, a);
    }
  }

  lemma {:induction false} RunKeepsAccount(p: Peer, acts: seq<Action>, q: Peer)
    requires Accounted(p) && Settled(p) && Reaches(p, acts, q)
    ensures Accounted(q) && Settled(q) && p.answers <= q.answers
    decreases |acts|
  {
    if acts != [] {
      NextKeepsAccount(p, acts[0]);
      AnswersOnlyGrow(p, acts[0]);
      RunKeepsAccount(Next(p, acts[0]), acts[1..], q);
    }
  }

  ghost predicate AnsweredOnce(p: Peer, t: nat) {
    exists k :: 0 <= k < |p.answers| && p.answers[k].ticket == t
             && forall j :: 0 <= j < |p.answers| && p.answers[j].ticket == t ==> j == k
  }

  lemma TicketAnsweredOnce(p: Peer, t: nat)
    requires Accounted(p) && t in Tickets(p.answers)
    ensures AnsweredOnce(p, t)
  {
    var k :| 0 <= k < |p.answers| && Tickets(p.answers)[k] == t;
    assert p.answers[k].ticket == t;
    forall j | 0 <= j < |p.answers| && p.answers[j].ticket == t ensures j == k {
      assert Tickets(p.answers)[j] == t;
    }
  }

  lemma SettledAnsweredOnce(p: Peer, t: nat)
    requires Accounted(p) && Settled(p) && p.ended && t < p.issued
    ensures AnsweredOnce(p, t)
  {
    assert p.pending.Values == {};
    assert Bit(t in p.commands) + Bit(t in p.pending.Values) + Bit(t in Tickets(p.answers)) == Bit(t < p.issued);
    TicketAnsweredOnce(p, t);
  }

  /** In every run, against any peer: an answered open is answered once, an unanswered one
      still waits in exactly one place, and when the actor has ended nobody waits. */
  lemma EveryOpenerAnsweredOnce(first: u32, acts: seq<Action>, p: Peer, t: nat)
    requires Reaches(NewPeer(first), acts, p) && t < p.issued
    ensures AnsweredOnce(p, t) || (t !in Tickets(p.answers) && (t in p.commands <==> t !in p.pending.Values))
    ensures p.ended ==> AnsweredOnce(p, t)
  {
    var fresh0 := NewPeer(first);
    assert fresh0.pending.Values == {};
    RunKeepsAccount(fresh0, acts, p);
    assert Bit(t in p.commands) + Bit(t in p.pending.Values) + Bit(t in Tickets(p.answers)) == Bit(t < p.issued);
    if t in Tickets(p.answers) {
      TicketAnsweredOnce(p, t);
    }
    if p.ended {
      SettledAnsweredOnce(p, t);
    }
  }

  /** When both sides open under one id, the request that crosses ours is accepted under it.
      If the accepted stream is published, the response to ours is delivered to that stream
      as if it were data and our opener is left waiting; otherwise it is established. */
  lemma CrossedOpensStrandTheOpener(p: Peer, i: u32, published: bool, responded: bool)
    requires Valid(p) && !p.ended && p.phase.Idle? && i in p.pending && i !in p.streams
    ensures var request, response := ControlFrame(i, OpenRequestFlags()), ControlFrame(i, OpenResponseFlags());
            && RouteOf(p, request) == Accept
            && var q := Accepted(p, request, published);
               && Reaches(p, [Incoming(request), Publish(published), Respond(responded)], q) && Valid(q)
               && RouteOf(q, response) == (if published then Deliver else Establish)
               && (i in OnFrame(q, response).pending <==> published)
               && (published ==> Stranded(p, i, OnFrame(q, response)))
  {
    var request := ControlFrame(i, OpenRequestFlags());
    AcceptIsThreeActions(p, request, published, responded);
    AcceptedUnder(p, i, published);
  }

  /** The opener has got nothing, and the response lies in the queue of the new stream. */
  ghost predicate Stranded(p: Peer, i: u32, r: Peer) {
    && r.answers == p.answers && |r.cells| == |p.cells| + 1
    && r.cells[|p.cells|].queue == [ControlFrame(i, OpenResponseFlags())]
  }

  lemma AcceptedUnder(p: Peer, i: u32, published: bool)
    requires Valid(p) && !p.ended && p.phase.Idle? && i in p.pending && i !in p.streams
    ensures var q := Accepted(p, ControlFrame(i, OpenRequestFlags()), published);
            && q.pending == p.pending && q.answers == p.answers && |q.cells| == |p.cells| + 1
            && (if published then i in q.streams && q.streams[i] == |p.cells| else i !in q.streams)
            && (published ==> q.cells[|p.cells|] == NewCell(i))
  {
    OnFrameIsValid(p, ControlFrame(i, OpenRequestFlags()));
  }
}
