/**
 What several modules need to know of sequences.
 */
module Sequences {

  predicate NoDup(list: seq<nat>) {
    forall i, j :: 0 <= i < j < |list| ==> list[i] != list[j]
  }

  predicate IsTail(tail: seq<nat>, list: seq<nat>) {
    |tail| <= |list| && list[|list| - |tail|..] == tail
  }

  /** A pointer into a linked list. */
  datatype Link = Null | At(node: nat)

  /** The first node of a list. */
  function First(list: seq<nat>): Link { if list == [] then Null else At(list[0]) }

  /** What the next field of a node holds, while the node is linked in. */
  function Next(list: seq<nat>, n: nat): Link
    requires n in list
  {
    if list[0] == n then First(list[1..]) else Next(list[1..], n)
  }

  /** Behind the first node of a list's end comes the second. */
  lemma {:induction false} NextInTail(tail: seq<nat>, list: seq<nat>)
    requires NoDup(list) && IsTail(tail, list) && tail != []
    ensures tail[0] in list && Next(list, tail[0]) == First(tail[1..])
    decreases |list|
  {
    var d := |list| - |tail|;
    assert list[d] == list[d..][0] == tail[0];
    if d == 0 {
      assert list == tail;
    } else {
      assert list[0] != list[d];
      assert list[1..][d - 1..] == list[d..];
      NextInTail(tail, list[1..]);
    }
  }

  lemma TailOfTail(tail: seq<nat>, list: seq<nat>)
    requires tail != [] && IsTail(tail, list)
    ensures IsTail(tail[1..], list)
  {
    assert list[|list| - |tail|..][1..] == list[|list| - (|tail| - 1)..];
  }

  lemma Assoc<T>(a: seq<T>, b: seq<T>, c: seq<T>)
    ensures a + b + c == a + (b + c)
  {}

  lemma Regroup<T>(a: seq<T>, x: T, b: seq<T>)
    ensures a + ([x] + b) == (a + [x]) + b
  {}

  lemma ConsFront<T>(x: T, a: seq<T>, b: seq<T>)
    ensures ([x] + a + b)[0] == x && ([x] + a + b)[1..] == a + b
  {}
}
