/** Regrouping of sequence concatenation, used wherever a writer's output is
    extended one piece at a time. */
module Seqs {

  lemma Assoc<T>(x: seq<T>, y: seq<T>, z: seq<T>)
    ensures x + (y + z) == x + y + z
  {
  }
}
