/** Facts about sequences that the solver is slow to find for itself. */
module Seqs {

  lemma Assoc<T>(a: seq<T>, b: seq<T>, c: seq<T>)
    ensures a + (b + c) == (a + b) + c
  {
  }

  lemma AppendEmpty<T>(a: seq<T>)
    ensures a + [] == a && [] + a == a
  {
  }

  /** The head of a concatenation is the head of its non-empty left part. */
  lemma Uncons<T>(a: seq<T>, b: seq<T>)
    requires a != []
    ensures a + b != [] && (a + b)[0] == a[0] && (a + b)[1..] == a[1..] + b
  {
  }

  lemma HeadTail<T>(a: seq<T>)
    requires a != []
    ensures a == [a[0]] + a[1..]
  {
  }

  lemma Concat<T>(a: seq<T>, b: seq<T>)
    ensures (a + b)[..|a|] == a && (a + b)[|a|..] == b
  {
  }

  lemma UpdateLeft<T>(a: seq<T>, b: seq<T>, k: nat, x: T)
    requires k < |a|
    ensures (a + b)[k := x] == a[k := x] + b
  {
  }

  lemma DropDrop<T>(a: seq<T>, i: nat, j: nat)
    requires i + j <= |a|
    ensures a[i..][j..] == a[i + j..] && a[..i] + a[i..][..j] == a[..i + j]
  {
  }

  lemma PrefixOfConcat<T>(a: seq<T>, b: seq<T>, c: seq<T>)
    requires a <= b
    ensures a <= b + c
  {
  }
}
