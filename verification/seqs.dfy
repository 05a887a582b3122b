/** Facts about sequences shared by the modules of this project. */
module Seqs {

  /** Regrouping a concatenation. Inductive proofs call it instead of
      asserting the regrouped sequence: an in-context assertion brings
      sequence-extensionality reasoning into their context, which is costly. */
  lemma Assoc<T>(a: seq<T>, b: seq<T>, c: seq<T>)
    ensures (a + b) + c == a + (b + c)
  {
  }
}
