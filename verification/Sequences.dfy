/** What the proofs about sequences share. */
module Sequences {

  function Min(a: int, b: int): (m: int) { if a < b then a else b }

  lemma Regroup<T>(a: seq<T>, b: seq<T>, c: seq<T>)
    ensures a + (b + c) == (a + b) + c
  {
  }
}
