// Facts about sequences that several modules use when they peel the last element off a list.
module Seqs {
  /** Some element of a non-empty sequence satisfies p iff one before the last does, or the last does. */
  lemma SomeBeforeOrLast<T>(s: seq<T>, p: T -> bool)
    requires s != []
    ensures (exists i :: 0 <= i < |s| && p(s[i])) <==> (exists i :: 0 <= i < |s| - 1 && p(s[i])) || p(s[|s| - 1])
  {
  }
}
