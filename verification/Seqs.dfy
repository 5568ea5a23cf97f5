/** Facts about concatenation, stated once so that the proofs that use them stay quick. */
module Seqs {
  lemma ConcatEmpty<A>(a: seq<A>)
    ensures a + [] == a && [] + a == a
  {
  }

  lemma ConcatAssociates<A>(a: seq<A>, b: seq<A>, c: seq<A>)
    ensures a + (b + c) == (a + b) + c
  {
  }
}
