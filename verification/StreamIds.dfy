/** Stream identifiers and their allocation (foctet-core/src/stream.rs). */
module StreamIds {
  import opened Frames

  /** The reserved id stands for the session itself. */
  const RESERVED_STREAM_ID: u32 := 0
  const CLIENT_FIRST_ID: u32 := 1
  const SERVER_FIRST_ID: u32 := 2

  /** `checked_add(n).unwrap_or(0)`: an overflow lands on 0, whatever `n` was. */
  function Advance(id: u32, n: u32): u32 {
    if id + n < TWO32 then id + n else 0
  }

  /** The id issued by the open number `k` (counting from 0) of a side that starts at `start`. */
  function IdAt(start: u32, k: nat): u32 {
    if k == 0 then start else Advance(IdAt(start, k - 1), 1)
  }

  class StreamIdCounter {
    var value: u32

    constructor (first: u32)
      ensures value == first
    {
      value := first;
    }

    method FetchAdd(n: u32) returns (previous: u32)
      modifies this
      ensures previous == old(value) && value == Advance(old(value), n)
    {
      previous := value;
      value := if value + n < TWO32 then value + n else 0;
    }
  }

  /** Advancing is addition modulo 2^32 exactly up to the first overflow to zero. */
  lemma AdvanceIsModularExactly(id: u32, n: u32)
    ensures Advance(id, n) == (id + n) % TWO32 <==> id + n <= TWO32
  {
  }

  lemma NextModular(x: nat)
    ensures Advance(x % TWO32, 1) == (x + 1) % TWO32
  {
  }

  lemma {:induction false} IdAtIsModular(start: u32, k: nat)
    ensures IdAt(start, k) == (start + k) % TWO32
  {
    if k > 0 {
      IdAtIsModular(start, k - 1);
      NextModular(start + k - 1);
    }
  }

  lemma ModularEquality(x: nat, d: nat)
    ensures (x + d) % TWO32 == x % TWO32 <==> d % TWO32 == 0
  {
    var q, r, p, s := x / TWO32, x % TWO32, d / TWO32, d % TWO32;
    assert x + d == TWO32 * (q + p) + (r + s);
  }

  /** Two opens of one side share an id exactly when they are a multiple of 2^32 apart, so
      any 2^32 consecutive ids are distinct. */
  lemma IdsRepeatExactly(start: u32, j: nat, k: nat)
    requires j <= k
    ensures IdAt(start, j) == IdAt(start, k) <==> (k - j) % TWO32 == 0
  {
    IdAtIsModular(start, j);
    IdAtIsModular(start, k);
    ModularEquality(start + j, k - j);
  }

  /** A side that starts above 0 first issues the reserved id at its open number 2^32 - start. */
  lemma ReservedIdFirstIssued(start: u32, k: nat)
    requires start > 0
    ensures k < TWO32 - start ==> IdAt(start, k) != RESERVED_STREAM_ID
    ensures k == TWO32 - start ==> IdAt(start, k) == RESERVED_STREAM_ID
  {
    IdAtIsModular(start, k);
  }

  lemma ServerIdsAreClientIdsShifted(k: nat)
    ensures IdAt(SERVER_FIRST_ID, k) == IdAt(CLIENT_FIRST_ID, k + 1)
  {
    IdAtIsModular(SERVER_FIRST_ID, k);
    IdAtIsModular(CLIENT_FIRST_ID, k + 1);
  }

  /** The first `n` ids counted from `first` and the first `m` counted from `other`. */
  ghost predicate SpacesDisjoint(first: u32, n: nat, other: u32, m: nat) {
    forall j: nat, k: nat :: j < n && k < m ==> IdAt(first, j) != IdAt(other, k)
  }

  /** The two sides' ids overlap as soon as the server opens a stream and the client opens
      two. */
  lemma SpacesDisjointExactly(clientOpens: nat, serverOpens: nat)
    requires clientOpens < TWO32 && serverOpens < TWO32
    ensures SpacesDisjoint(CLIENT_FIRST_ID, clientOpens, SERVER_FIRST_ID, serverOpens)
       <==> clientOpens <= 1 || serverOpens == 0
  {
    if clientOpens >= 2 && serverOpens >= 1 {
      ServerIdsAreClientIdsShifted(0);
      assert IdAt(CLIENT_FIRST_ID, 1) == IdAt(SERVER_FIRST_ID, 0);
      assert !SpacesDisjoint(CLIENT_FIRST_ID, clientOpens, SERVER_FIRST_ID, serverOpens);
    } else {
      forall j: nat, k: nat | j < clientOpens && k < serverOpens
        ensures IdAt(CLIENT_FIRST_ID, j) != IdAt(SERVER_FIRST_ID, k)
      {
        ServerIdsAreClientIdsShifted(k);
        IdsRepeatExactly(CLIENT_FIRST_ID, j, k + 1);
      }
    }
  }
}
