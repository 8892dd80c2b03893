/** Two helpers on sequences, shared by the modules that queue and cut. */
module Sequences {

  /** The first `n`, or all if there are no more. */
  function AtMost<T>(s: seq<T>, n: nat): seq<T> { if n < |s| then s[..n] else s }

  lemma Regroup<T>(a: seq<T>, b: seq<T>, c: seq<T>)
    ensures a + (b + c) == a + b + c
  {
  }
}
