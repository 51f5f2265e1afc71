/** Sequences without duplicates. */
module Seqs {
  ghost predicate NoDups<T(!new)>(s: seq<T>) {
    forall i, j :: 0 <= i < j < |s| ==> s[i] != s[j]
  }
}
