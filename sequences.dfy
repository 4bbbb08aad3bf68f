/** Two facts about sequence concatenation that the proofs of the loop and the filter use. */
module Sequences {

  /** Appending nothing leaves a sequence as it is. */
  lemma AppendNil<T>(x: seq<T>)
    ensures x + [] == x
  {
  }

  /** Concatenation is associative. */
  lemma AppendAssoc<T>(x: seq<T>, y: seq<T>, z: seq<T>)
    ensures (x + y) + z == x + (y + z)
  {
  }
}
