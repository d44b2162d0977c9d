/** Small facts about sequences shared by the other modules. */
module Seqs {

  /** Concatenation regroups freely; the loops and inductions that append one element at a
      time need this step spelled out. */
  lemma AppendAssoc<T>(a: seq<T>, b: seq<T>, c: seq<T>)
    ensures (a + b) + c == a + (b + c)
  {
  }
}
