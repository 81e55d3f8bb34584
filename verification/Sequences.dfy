/** Sequences without repetition. */
module Sequences {
  ghost predicate NoDup<T(!new)>(l: seq<T>) {
    forall i, j :: 0 <= i < j < |l| ==> l[i] != l[j]
  }
}
