/** The order in which `connect_node` tries a node's addresses
    (foctet-net/src/endpoint.rs:214-233, 342-346, 409-426; foctet-net/src/device.rs:126-171;
    foctet-core/src/addr/node.rs:41-74). */
module Connecting {
  import opened Frames
  import opened Seqs

  datatype TransportKind = Quic | TlsOverTcp

  datatype TransportProtocol = QuicOver | UdpOver | TcpOver | TlsOverTcpOver | OtherOver

  /** `bits` is the address's place in the order of IP addresses. */
  datatype Ip = Ip(loopback: bool, bits: nat)

  /** A stack address; `order` is its place in the order that `BTreeSet` uses, so two
      addresses with the same order are the same address. */
  datatype StackAddr = StackAddr(order: nat, ip: Option<Ip>, transport: Option<TransportProtocol>)

  /** What `rank_ip` asks about an address that is not loopback: is it in a network of the
      interface, and is it global? */
  datatype Surroundings = Surroundings(near: set<Ip>, global: set<Ip>)

  // ---------------------------------------------------------------- specification

  function RankIp(ip: Ip, at: Surroundings): nat {
    if ip.loopback then 3 else if ip in at.near then 2 else if ip in at.global then 1 else 0
  }

  function Rank(a: StackAddr, at: Surroundings): nat {
    if a.ip.Some? then RankIp(a.ip.value, at) else 0
  }

  /** The addresses of a `BTreeSet`, in its order. */
  predicate InOrder(addrs: seq<StackAddr>) {
    forall i, j :: 0 <= i < j < |addrs| ==> addrs[i].order < addrs[j].order
  }

  predicate Serves(kind: TransportKind, t: TransportProtocol) {
    match kind
    case Quic => t.QuicOver? || t.UdpOver?
    case TlsOverTcp => t.TcpOver? || t.TlsOverTcpOver?
  }

  /** The addresses that `get_direct_addrs` keeps. */
  predicate Eligible(kind: TransportKind, allowLoopback: bool, a: StackAddr) {
    && a.ip.Some? && (allowLoopback || !a.ip.value.loopback)
    && a.transport.Some? && Serves(kind, a.transport.value)
  }

  /** `a` is tried before `b` on the same transport: higher rank first, then set order. */
  predicate Before(at: Surroundings, a: StackAddr, b: StackAddr) {
    Rank(a, at) > Rank(b, at) || (Rank(a, at) == Rank(b, at) && a.order < b.order)
  }

  predicate Ranked(at: Surroundings, addrs: seq<StackAddr>) {
    forall i, j :: 0 <= i < j < |addrs| ==> Before(at, addrs[i], addrs[j])
  }

  datatype Connect = Connected | NoneAnswered | NoInterface | TransportMissing

  datatype Attempt = Attempt(kind: TransportKind, addr: StackAddr)

  /** The builder's list never repeats a protocol. */
  predicate Distinct(protocols: seq<TransportKind>) {
    forall i, j :: 0 <= i < j < |protocols| ==> protocols[i] != protocols[j]
  }

  function Priority(protocols: seq<TransportKind>, kind: TransportKind): nat {
    if protocols == [] || protocols[0] == kind then 0 else 1 + Priority(protocols[1..], kind)
  }

  /** The first `n` protocols of the list, at priorities 1 to `n`. */
  ghost predicate Prioritised(m: map<byte, TransportKind>, protocols: seq<TransportKind>, n: nat)
    requires n <= |protocols|
  {
    forall k: byte :: (k in m <==> 1 <= k <= n) && (k in m && 1 <= k <= n ==> m[k] == protocols[k - 1])
  }

  /** The lexicographic order of attempts: protocol priority, rank descending, set order. */
  predicate TriedBefore(protocols: seq<TransportKind>, at: Surroundings, x: Attempt, y: Attempt) {
    Priority(protocols, x.kind) < Priority(protocols, y.kind) || (x.kind == y.kind && Before(at, x.addr, y.addr))
  }

  // ---------------------------------------------------------------- sorting

  /** The stable sort by descending rank. */
  function StableInsert(at: Surroundings, a: StackAddr, sorted: seq<StackAddr>): seq<StackAddr> {
    if sorted == [] || Rank(a, at) >= Rank(sorted[0], at) then [a] + sorted
    else [sorted[0]] + StableInsert(at, a, sorted[1..])
  }

  function SortByRank(at: Surroundings, addrs: seq<StackAddr>): seq<StackAddr> {
    if addrs == [] then [] else StableInsert(at, addrs[0], SortByRank(at, addrs[1..]))
  }

  /** `sort_addrs_by_reachability` also leaves out addresses without an IP address. */
  function WithIp(addrs: seq<StackAddr>): seq<StackAddr> {
    if addrs == [] then [] else (if addrs[0].ip.Some? then [addrs[0]] else []) + WithIp(addrs[1..])
  }

  function SortByReachability(at: Surroundings, addrs: seq<StackAddr>): seq<StackAddr> {
    SortByRank(at, WithIp(addrs))
  }

  lemma {:induction false} WithIpKeepsAll(addrs: seq<StackAddr>)
    requires forall a :: a in addrs ==> a.ip.Some?
    ensures WithIp(addrs) == addrs
  {
    if addrs != [] {
      HeadTail(addrs);
      assert addrs[0] in addrs;
      WithIpKeepsAll(addrs[1..]);
    }
  }

  lemma {:induction false} InsertKeepsRanked(at: Surroundings, a: StackAddr, sorted: seq<StackAddr>)
    requires Ranked(at, sorted) && forall x :: x in sorted ==> a.order < x.order
    ensures Ranked(at, StableInsert(at, a, sorted))
    ensures forall x :: x in StableInsert(at, a, sorted) <==> x == a || x in sorted
  {
    var r := StableInsert(at, a, sorted);
    if sorted == [] || Rank(a, at) >= Rank(sorted[0], at) {
      forall i, j | 0 <= i < j < |r| ensures Before(at, r[i], r[j]) {
        if i == 0 {
          assert r[j] == sorted[j - 1] && sorted[j - 1] in sorted;
          assert j == 1 || Before(at, sorted[0], sorted[j - 1]);
        }
      }
    } else {
      var rest := StableInsert(at, a, sorted[1..]);
      InsertKeepsRanked(at, a, sorted[1..]);
      HeadTail(sorted);
      forall i, j | 0 <= i < j < |r| ensures Before(at, r[i], r[j]) {
        if i == 0 {
          assert r[j] == rest[j - 1] && rest[j - 1] in rest;
          if rest[j - 1] != a {
            var k :| 0 <= k < |sorted[1..]| && sorted[1..][k] == rest[j - 1];
            assert Before(at, sorted[0], sorted[k + 1]);
          }
        }
      }
    }
  }

  /** Sorting keeps the addresses and puts them in order of rank, then set order. */
  lemma {:induction false} SortRanks(at: Surroundings, addrs: seq<StackAddr>)
    requires InOrder(addrs)
    ensures Ranked(at, SortByRank(at, addrs))
    ensures forall x :: x in SortByRank(at, addrs) <==> x in addrs
  {
    if addrs != [] {
      SortRanks(at, addrs[1..]);
      HeadTail(addrs);
      forall x | x in SortByRank(at, addrs[1..]) ensures addrs[0].order < x.order {
        var k :| 0 <= k < |addrs[1..]| && addrs[1..][k] == x;
      }
      InsertKeepsRanked(at, addrs[0], SortByRank(at, addrs[1..]));
    }
  }

  /** "Addresses with the same rank are sorted by their IP address." */
  predicate IpOrdered(at: Surroundings, addrs: seq<StackAddr>)
    requires forall a :: a in addrs ==> a.ip.Some?
  {
    forall i, j :: 0 <= i < j < |addrs| && Rank(addrs[i], at) == Rank(addrs[j], at) ==>
      addrs[i].ip.value.bits <= addrs[j].ip.value.bits
  }

  /** No address of the same rank has a smaller IP address than `a`. */
  predicate IpLeast(at: Surroundings, a: StackAddr, addrs: seq<StackAddr>)
    requires a.ip.Some? && forall x :: x in addrs ==> x.ip.Some?
  {
    forall x :: x in addrs && Rank(x, at) == Rank(a, at) ==> a.ip.value.bits <= x.ip.value.bits
  }

  predicate Descending(at: Surroundings, addrs: seq<StackAddr>) {
    forall i, j :: 0 <= i < j < |addrs| ==> Rank(addrs[i], at) >= Rank(addrs[j], at)
  }

  lemma IpOrderedCons(at: Surroundings, a: StackAddr, addrs: seq<StackAddr>)
    requires a.ip.Some? && forall x :: x in addrs ==> x.ip.Some?
    ensures IpOrdered(at, [a] + addrs) <==> IpLeast(at, a, addrs) && IpOrdered(at, addrs)
  {
    var all := [a] + addrs;
    if IpOrdered(at, all) {
      forall x | x in addrs && Rank(x, at) == Rank(a, at) ensures a.ip.value.bits <= x.ip.value.bits {
        var k :| 0 <= k < |addrs| && addrs[k] == x;
        assert all[0] == a && all[k + 1] == x;
      }
      forall i, j | 0 <= i < j < |addrs| && Rank(addrs[i], at) == Rank(addrs[j], at)
        ensures addrs[i].ip.value.bits <= addrs[j].ip.value.bits
      {
        assert all[i + 1] == addrs[i] && all[j + 1] == addrs[j];
      }
    }
  }

  lemma {:induction false} InsertKeepsDescending(at: Surroundings, a: StackAddr, sorted: seq<StackAddr>)
    requires Descending(at, sorted)
    ensures Descending(at, StableInsert(at, a, sorted))
    ensures forall x :: x in StableInsert(at, a, sorted) <==> x == a || x in sorted
  {
    if sorted != [] && Rank(a, at) < Rank(sorted[0], at) {
      var rest := sorted[1..];
      var r := StableInsert(at, a, rest);
      HeadTail(sorted);
      InsertKeepsDescending(at, a, rest);
      forall j | 0 <= j < |r| ensures Rank(sorted[0], at) >= Rank(r[j], at) {
        assert r[j] in r;
        if r[j] != a {
          var k :| 0 <= k < |rest| && rest[k] == r[j];
          assert sorted[k + 1] == r[j];
        }
      }
    }
  }

  /** Stable insertion puts the new address before every address of its own rank. */
  lemma {:induction false} InsertIpOrdered(at: Surroundings, a: StackAddr, sorted: seq<StackAddr>)
    requires Descending(at, sorted) && a.ip.Some? && forall x :: x in sorted ==> x.ip.Some?
    ensures forall x :: x in StableInsert(at, a, sorted) ==> x.ip.Some?
    ensures IpOrdered(at, StableInsert(at, a, sorted)) <==> IpLeast(at, a, sorted) && IpOrdered(at, sorted)
  {
    InsertKeepsDescending(at, a, sorted);
    if sorted == [] || Rank(a, at) >= Rank(sorted[0], at) {
      IpOrderedCons(at, a, sorted);
    } else {
      var first, rest := sorted[0], sorted[1..];
      var r := StableInsert(at, a, rest);
      HeadTail(sorted);
      assert first in sorted && forall x :: x in rest ==> x in sorted;
      InsertIpOrdered(at, a, rest);
      InsertKeepsDescending(at, a, rest);
      IpOrderedCons(at, first, r);
      IpOrderedCons(at, first, rest);
      IpLeastCons(at, a, first, rest);
      IpLeastInserted(at, first, a, rest, r);
    }
  }

  lemma IpLeastCons(at: Surroundings, a: StackAddr, first: StackAddr, rest: seq<StackAddr>)
    requires a.ip.Some? && first.ip.Some? && (forall x :: x in rest ==> x.ip.Some?) && Rank(a, at) != Rank(first, at)
    ensures IpLeast(at, a, [first] + rest) <==> IpLeast(at, a, rest)
  {
    assert forall x :: x in [first] + rest <==> x == first || x in rest;
  }

  lemma IpLeastInserted(at: Surroundings, first: StackAddr, a: StackAddr, rest: seq<StackAddr>, r: seq<StackAddr>)
    requires a.ip.Some? && first.ip.Some? && (forall x :: x in rest ==> x.ip.Some?) && Rank(a, at) != Rank(first, at)
    requires forall x :: x in r <==> x == a || x in rest
    ensures IpLeast(at, first, r) <==> IpLeast(at, first, rest)
  {
  }

  lemma {:induction false} SortIpOrdered(at: Surroundings, addrs: seq<StackAddr>)
    requires forall x :: x in addrs ==> x.ip.Some?
    ensures var r := SortByRank(at, addrs);
            && Descending(at, r) && (forall x :: x in r <==> x in addrs)
            && (IpOrdered(at, r) <==> IpOrdered(at, addrs))
  {
    if addrs != [] {
      HeadTail(addrs);
      assert addrs[0] in addrs && forall x :: x in addrs[1..] ==> x in addrs;
      SortIpOrdered(at, addrs[1..]);
      InsertKeepsDescending(at, addrs[0], SortByRank(at, addrs[1..]));
      InsertIpOrdered(at, addrs[0], SortByRank(at, addrs[1..]));
      IpOrderedCons(at, addrs[0], addrs[1..]);
    }
  }

  lemma {:induction false} WithIpHaveIp(addrs: seq<StackAddr>)
    ensures forall x :: x in WithIp(addrs) <==> x in addrs && x.ip.Some?
  {
    if addrs != [] {
      HeadTail(addrs);
      WithIpHaveIp(addrs[1..]);
    }
  }

  /** For any list of addresses: those of equal rank come back sorted by IP address if and only
      if they were given in that order. */
  lemma SortedByIpExactly(at: Surroundings, addrs: seq<StackAddr>)
    ensures forall x :: x in WithIp(addrs) || x in SortByReachability(at, addrs) ==> x.ip.Some?
    ensures IpOrdered(at, SortByReachability(at, addrs)) <==> IpOrdered(at, WithIp(addrs))
  {
    WithIpHaveIp(addrs);
    SortIpOrdered(at, WithIp(addrs));
  }

  /** Two global addresses that are given, and come back, in descending order. */
  lemma NotSortedByIp()
    ensures var (x, y) := (Ip(false, 2), Ip(false, 1));
            var addrs := [StackAddr(0, Some(x), Some(QuicOver)), StackAddr(1, Some(y), Some(QuicOver))];
            var at := Surroundings({}, {x, y});
            && SortByReachability(at, addrs) == addrs && InOrder(addrs) && (forall a :: a in addrs ==> a.ip.Some?)
            && !IpOrdered(at, SortByReachability(at, addrs))
  {
    var (x, y) := (Ip(false, 2), Ip(false, 1));
    var (a, b) := (StackAddr(0, Some(x), Some(QuicOver)), StackAddr(1, Some(y), Some(QuicOver)));
    var addrs, at := [a, b], Surroundings({}, {x, y});
    assert addrs[1..] == [b] && [b][1..] == [];
    assert WithIp([b]) == [b];
    assert WithIp(addrs) == [a] + [b];
    assert Rank(a, at) == Rank(b, at) == 1;
    assert SortByRank(at, [b]) == [b];
    assert SortByRank(at, addrs) == addrs;
    assert addrs[0].ip.value.bits == 2 && addrs[1].ip.value.bits == 1;
  }

  // ---------------------------------------------------------------- the plan

  function DirectOf(addrs: seq<StackAddr>, kind: TransportKind, allowLoopback: bool): seq<StackAddr> {
    if addrs == [] then []
    else
      var last := addrs[|addrs| - 1];
      DirectOf(addrs[..|addrs| - 1], kind, allowLoopback) + (if Eligible(kind, allowLoopback, last) then [last] else [])
  }

  function Batch(kind: TransportKind, addrs: seq<StackAddr>): (r: seq<Attempt>)
    ensures |r| == |addrs|
    ensures forall k :: 0 <= k < |r| ==> r[k] == Attempt(kind, addrs[k])
  {
    seq(|addrs|, k requires 0 <= k < |addrs| => Attempt(kind, addrs[k]))
  }

  function BatchOf(kind: TransportKind, at: Surroundings, allowLoopback: bool, addrs: seq<StackAddr>): seq<Attempt> {
    Batch(kind, SortByReachability(at, DirectOf(addrs, kind, allowLoopback)))
  }

  /** Everything `connect_node` tries when nothing answers. */
  function PlanOf(protocols: seq<TransportKind>, at: Surroundings, allowLoopback: bool, addrs: seq<StackAddr>): seq<Attempt> {
    if protocols == [] then []
    else BatchOf(protocols[0], at, allowLoopback, addrs) + PlanOf(protocols[1..], at, allowLoopback, addrs)
  }

  lemma {:induction false} DirectKeepsOrder(addrs: seq<StackAddr>, kind: TransportKind, allowLoopback: bool)
    requires InOrder(addrs)
    ensures InOrder(DirectOf(addrs, kind, allowLoopback))
    ensures forall a :: a in DirectOf(addrs, kind, allowLoopback) <==> a in addrs && Eligible(kind, allowLoopback, a)
  {
    if addrs != [] {
      var n := |addrs| - 1;
      var front, last := addrs[..n], addrs[n];
      assert addrs == front + [last];
      DirectKeepsOrder(front, kind, allowLoopback);
      var r := DirectOf(front, kind, allowLoopback);
      forall x | x in r ensures x.order < last.order {
        var k :| 0 <= k < |front| && front[k] == x;
        assert addrs[k] == x;
      }
    }
  }

  ghost predicate Lexicographic(protocols: seq<TransportKind>, at: Surroundings, plan: seq<Attempt>) {
    forall i, j :: 0 <= i < j < |plan| ==> TriedBefore(protocols, at, plan[i], plan[j])
  }

  ghost predicate Wanted(protocols: seq<TransportKind>, allowLoopback: bool, addrs: seq<StackAddr>, x: Attempt) {
    x.kind in protocols && x.addr in addrs && Eligible(x.kind, allowLoopback, x.addr)
  }

  lemma BatchIsLexicographic(protocols: seq<TransportKind>, at: Surroundings, allowLoopback: bool, addrs: seq<StackAddr>, kind: TransportKind)
    requires InOrder(addrs)
    ensures Lexicographic(protocols, at, BatchOf(kind, at, allowLoopback, addrs))
    ensures forall x :: x in BatchOf(kind, at, allowLoopback, addrs) <==>
              x.kind == kind && x.addr in addrs && Eligible(kind, allowLoopback, x.addr)
  {
    var direct := DirectOf(addrs, kind, allowLoopback);
    DirectKeepsOrder(addrs, kind, allowLoopback);
    SortRanks(at, direct);
    WithIpKeepsAll(direct);
    var sorted, batch := SortByRank(at, direct), BatchOf(kind, at, allowLoopback, addrs);
    forall x: Attempt | x.kind == kind && x.addr in sorted ensures x in batch {
      var k :| 0 <= k < |sorted| && sorted[k] == x.addr;
      assert batch[k] == x;
    }
    forall x | x in batch ensures x.kind == kind && x.addr in sorted {
      var k :| 0 <= k < |batch| && batch[k] == x;
    }
  }

  /** The plan holds exactly the eligible attempts, each once, in strict lexicographic order of
      protocol priority, descending rank and set order. */
  lemma {:induction false} PlanIsLexicographic(protocols: seq<TransportKind>, at: Surroundings, allowLoopback: bool, addrs: seq<StackAddr>)
    requires Distinct(protocols) && InOrder(addrs)
    ensures Lexicographic(protocols, at, PlanOf(protocols, at, allowLoopback, addrs))
    ensures forall x :: x in PlanOf(protocols, at, allowLoopback, addrs) <==> Wanted(protocols, allowLoopback, addrs, x)
  {
    if protocols != [] {
      var (kind, rest) := (protocols[0], protocols[1..]);
      var batch, more := BatchOf(kind, at, allowLoopback, addrs), PlanOf(rest, at, allowLoopback, addrs);
      HeadTail(protocols);
      BatchIsLexicographic(protocols, at, allowLoopback, addrs, kind);
      PlanIsLexicographic(rest, at, allowLoopback, addrs);
      assert kind !in rest;
      LaterBatches(protocols, at, batch, more);
    }
  }

  /** A later protocol's attempts come later, and keep their order. */
  lemma LaterBatches(protocols: seq<TransportKind>, at: Surroundings, batch: seq<Attempt>, more: seq<Attempt>)
    requires protocols != [] && protocols[0] !in protocols[1..]
    requires Lexicographic(protocols, at, batch) && forall x :: x in batch ==> x.kind == protocols[0]
    requires Lexicographic(protocols[1..], at, more) && forall x :: x in more ==> x.kind in protocols[1..]
    ensures Lexicographic(protocols, at, batch + more)
  {
    var plan := batch + more;
    forall i, j | 0 <= i < j < |plan| ensures TriedBefore(protocols, at, plan[i], plan[j]) {
      if i < |batch| <= j {
        assert plan[i] in batch && plan[j] in more;
      } else if |batch| <= i {
        assert plan[i] == more[i - |batch|] && plan[j] == more[j - |batch|];
        assert plan[i] in more && plan[j] in more;
        assert TriedBefore(protocols[1..], at, plan[i], plan[j]);
      }
    }
  }

  /** A strictly lexicographic list repeats nothing. */
  lemma PlanHasNoDuplicates(protocols: seq<TransportKind>, at: Surroundings, plan: seq<Attempt>, i: nat, j: nat)
    requires Lexicographic(protocols, at, plan) && i < j < |plan|
    ensures plan[i] != plan[j]
  {
    assert TriedBefore(protocols, at, plan[i], plan[j]);
  }

  // ---------------------------------------------------------------- the plan, by the addresses

  /** An address with an IP address that may be dialled at all. */
  predicate Diallable(allowLoopback: bool, a: StackAddr) {
    a.ip.Some? && (a.ip.value.loopback ==> allowLoopback)
  }

  /** Exactly the addresses for QUIC or bare UDP are tried over QUIC, and exactly those for TCP or
      TLS over TCP are tried over TLS; so none is tried over both, and others over neither. */
  lemma PlanByTransport(protocols: seq<TransportKind>, at: Surroundings, allowLoopback: bool, addrs: seq<StackAddr>, a: StackAddr)
    requires Distinct(protocols) && InOrder(addrs)
    ensures Attempt(Quic, a) in PlanOf(protocols, at, allowLoopback, addrs) <==>
              && Quic in protocols && a in addrs && Diallable(allowLoopback, a)
              && (a.transport == Some(QuicOver) || a.transport == Some(UdpOver))
    ensures Attempt(TlsOverTcp, a) in PlanOf(protocols, at, allowLoopback, addrs) <==>
              && TlsOverTcp in protocols && a in addrs && Diallable(allowLoopback, a)
              && (a.transport == Some(TcpOver) || a.transport == Some(TlsOverTcpOver))
    ensures !(Attempt(Quic, a) in PlanOf(protocols, at, allowLoopback, addrs)
              && Attempt(TlsOverTcp, a) in PlanOf(protocols, at, allowLoopback, addrs))
  {
    PlanIsLexicographic(protocols, at, allowLoopback, addrs);
  }

  /** Over one kind of transport: loopback addresses first, then those in a network of the
      interface, then global ones, then the rest; among equals in the order of the set. */
  lemma PlanByReachability(protocols: seq<TransportKind>, at: Surroundings, allowLoopback: bool, addrs: seq<StackAddr>,
                           i: nat, j: nat)
    requires Distinct(protocols) && InOrder(addrs)
    requires i < j < |PlanOf(protocols, at, allowLoopback, addrs)|
    requires PlanOf(protocols, at, allowLoopback, addrs)[i].kind == PlanOf(protocols, at, allowLoopback, addrs)[j].kind
    ensures var plan := PlanOf(protocols, at, allowLoopback, addrs);
            && plan[i].addr.ip.Some? && plan[j].addr.ip.Some?
            && var (x, y) := (plan[i].addr.ip.value, plan[j].addr.ip.value);
               && (y.loopback ==> x.loopback)
               && (y in at.near ==> x.loopback || x in at.near)
               && (y in at.global ==> x.loopback || x in at.near || x in at.global)
               && (x == y ==> plan[i].addr.order < plan[j].addr.order)
  {
    var plan := PlanOf(protocols, at, allowLoopback, addrs);
    PlanIsLexicographic(protocols, at, allowLoopback, addrs);
    assert plan[i] in plan && plan[j] in plan;
    assert TriedBefore(protocols, at, plan[i], plan[j]);
  }

  // ---------------------------------------------------------------- the code

  /** `get_direct_addrs`. */
  method GetDirectAddrs(addrs: seq<StackAddr>, kind: TransportKind, allowLoopback: bool) returns (direct: seq<StackAddr>)
    ensures direct == DirectOf(addrs, kind, allowLoopback)
  {
    direct := [];
    for k := 0 to |addrs|
      invariant direct == DirectOf(addrs[..k], kind, allowLoopback)
    {
      var addr := addrs[k];
      assert addrs[..k + 1][..k] == addrs[..k];
      AppendEmpty(direct);
      match addr.ip {
        case Some(ip) =>
          if !allowLoopback && ip.loopback {
            continue;
          }
        case None =>
          continue;
      }
      match kind {
        case Quic =>
          if addr.transport == Some(QuicOver) || addr.transport == Some(UdpOver) {
            direct := direct + [addr];
          }
        case TlsOverTcp =>
          if addr.transport == Some(TcpOver) || addr.transport == Some(TlsOverTcpOver) {
            direct := direct + [addr];
          }
      }
    }
    assert addrs[..|addrs|] == addrs;
  }

  class EndpointBuilder {
    var protocols: seq<TransportKind>
    var loopback: bool

    constructor ()
      ensures protocols == [] && !loopback
    {
      protocols := [];
      loopback := false;
    }

    method PushProtocol(kind: TransportKind)
      requires Distinct(protocols)
      modifies this`protocols
      ensures Distinct(protocols) && old(protocols) <= protocols
      ensures forall k :: k in protocols <==> k in old(protocols) || k == kind
    {
      if kind !in protocols {
        protocols := protocols + [kind];
      }
    }

    /** `build`, for the transports that can be created here: the protocol number `i` gets
        priority `i + 1`. */
    method Build(available: set<TransportKind>) returns (endpoint: Option<Endpoint>)
      requires Distinct(protocols)
      ensures endpoint.Some? <==> forall k :: k in protocols ==> k in available
      ensures endpoint.Some? ==> fresh(endpoint.value) && endpoint.value.Built(protocols)
      ensures endpoint.Some? ==> endpoint.value.allowLoopback == loopback
    {
      DistinctIsShort(protocols);
      var priorityMap: map<byte, TransportKind>, transports := map[], {};
      for i := 0 to |protocols|
        invariant Prioritised(priorityMap, protocols, i)
        invariant forall k :: k in transports <==> k in protocols[..i]
        invariant forall k :: k in protocols[..i] ==> k in available
      {
        var priority: byte := (i + 1) % 256;
        var proto := protocols[i];
        assert protocols[..i + 1] == protocols[..i] + [proto];
        if proto !in available {
          assert proto in protocols;
          return None;
        }
        transports := transports + {proto};
        priorityMap := priorityMap[priority := proto];
      }
      assert protocols[..|protocols|] == protocols;
      var e := new Endpoint(priorityMap, transports, loopback);
      endpoint := Some(e);
    }
  }

  /** There are two protocols, so the cast of a priority to `u8` loses nothing. */
  lemma DistinctIsShort(protocols: seq<TransportKind>)
    ensures Distinct(protocols) ==> |protocols| <= 2
  {
    if |protocols| > 2 && protocols[0] != protocols[1] {
      assert protocols[2] == protocols[0] || protocols[2] == protocols[1];
    }
  }

  /** `BTreeMap::values`: the values in ascending order of the keys. */
  method ValuesByKey(m: map<byte, TransportKind>, ghost protocols: seq<TransportKind>) returns (values: seq<TransportKind>)
    requires |protocols| < 255 && Prioritised(m, protocols, |protocols|)
    ensures values == protocols
  {
    values := [];
    for key := 0 to 256
      invariant values == if key == 0 then [] else if key - 1 <= |protocols| then protocols[..key - 1] else protocols
    {
      if key in m {
        values := values + [m[key]];
      }
    }
  }

  class Endpoint {
    const priorityMap: map<byte, TransportKind>
    const transports: set<TransportKind>
    const allowLoopback: bool

    constructor (priorityMap: map<byte, TransportKind>, transports: set<TransportKind>, allowLoopback: bool)
      ensures this.priorityMap == priorityMap && this.transports == transports && this.allowLoopback == allowLoopback
    {
      this.priorityMap := priorityMap;
      this.transports := transports;
      this.allowLoopback := allowLoopback;
    }

    /** What `build` makes of a protocol list. */
    ghost predicate Built(protocols: seq<TransportKind>) {
      && Distinct(protocols)
      && Prioritised(priorityMap, protocols, |protocols|)
      && forall k :: k in transports <==> k in protocols
    }

    /** `connect_node`, with the outcome of dialling given by `reachable` and the default
        interface by `iface`. Without an interface nothing is tried. Otherwise the attempts
        are the plan, up to and including the first that succeeds. A transport is never
        missing. */
    method ConnectNode(addrs: seq<StackAddr>, iface: Option<Surroundings>, reachable: Attempt -> bool,
                       ghost protocols: seq<TransportKind>)
      returns (attempts: seq<Attempt>, outcome: Connect)
      requires Built(protocols)
      ensures !outcome.TransportMissing? && (outcome.NoInterface? <==> iface == None)
      ensures iface == None ==> attempts == []
      ensures iface.Some? ==> attempts <= PlanOf(protocols, iface.value, allowLoopback, addrs)
      ensures forall k :: 0 <= k < |attempts| ==> (reachable(attempts[k]) <==> outcome.Connected? && k == |attempts| - 1)
      ensures outcome.Connected? ==> attempts != []
      ensures outcome.NoneAnswered? ==> attempts == PlanOf(protocols, iface.value, allowLoopback, addrs)
    {
      if iface.None? {
        return [], NoInterface;
      }
      var at := iface.value;
      DistinctIsShort(protocols);
      var order := ValuesByKey(priorityMap, protocols);
      attempts := [];
      ghost var plan := PlanOf(protocols, at, allowLoopback, addrs);
      AppendEmpty(plan);
      assert order[0..] == order;
      for n := 0 to |order|
        invariant order == protocols
        invariant attempts + PlanOf(order[n..], at, allowLoopback, addrs) == plan
        invariant forall k :: 0 <= k < |attempts| ==> !reachable(attempts[k])
      {
        var proto := order[n];
        assert proto in protocols;
        if proto !in transports {
          return attempts, TransportMissing;
        }
        var direct := GetDirectAddrs(addrs, proto, allowLoopback);
        var sorted := SortByReachability(at, direct);
        var found;
        ghost var later := PlanOf(order[n + 1..], at, allowLoopback, addrs);
        assert order[n..][1..] == order[n + 1..];
        ghost var before := attempts;
        attempts, found := TryAll(attempts, proto, sorted, reachable);
        Assoc(before, Batch(proto, sorted), later);
        if found {
          PrefixOfConcat(attempts, before + Batch(proto, sorted), later);
          return attempts, Connected;
        }
      }
      AppendEmpty(attempts);
      return attempts, NoneAnswered;
    }
  }

  /** The inner loop: dial one address after the other until one answers. */
  method TryAll(before: seq<Attempt>, kind: TransportKind, sorted: seq<StackAddr>, reachable: Attempt -> bool)
    returns (attempts: seq<Attempt>, found: bool)
    requires forall k :: 0 <= k < |before| ==> !reachable(before[k])
    ensures attempts <= before + Batch(kind, sorted)
    ensures forall k :: 0 <= k < |attempts| ==> (reachable(attempts[k]) <==> found && k == |attempts| - 1)
    ensures if found then attempts != [] else attempts == before + Batch(kind, sorted)
  {
    attempts := before;
    for k := 0 to |sorted|
      invariant attempts == before + Batch(kind, sorted)[..k]
      invariant forall j :: 0 <= j < |attempts| ==> !reachable(attempts[j])
    {
      var next := Attempt(kind, sorted[k]);
      assert Batch(kind, sorted)[..k + 1] == Batch(kind, sorted)[..k] + [next];
      Assoc(before, Batch(kind, sorted)[..k], [next]);
      attempts := attempts + [next];
      if reachable(next) {
        return attempts, true;
      }
    }
    assert Batch(kind, sorted)[..|sorted|] == Batch(kind, sorted);
    found := false;
  }
}
