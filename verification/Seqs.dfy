/** Regrouping of sequences, for loops that build one. */
module Seqs {
  lemma SplitAt<T>(a: seq<T>, b: seq<T>)
    requires b != []
    ensures (a + b)[..|a|] == a && (a + b)[|a|] == b[0] && (a + b)[|a| + 1..] == b[1..]
    ensures a + b == a + [b[0]] + b[1..]
  {}

  lemma Regroup<T>(a: seq<T>, b: seq<T>, c: seq<T>)
    ensures a + (b + c) == a + b + c && a + ([] + c) == a + c
  {}
}
