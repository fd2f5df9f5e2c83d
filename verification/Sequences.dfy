/** Sequences without repetitions. */
module Sequences {
  ghost predicate NoRepeats<T>(s: seq<T>) { forall i, j :: 0 <= i < j < |s| ==> s[i] != s[j] }

  lemma AppendFresh<T>(s: seq<T>, x: T)
    requires NoRepeats(s) && x !in s
    ensures NoRepeats(s + [x])
  {}

  /** A sequence of distinct members of a set is no longer than the set. */
  lemma {:induction false} DistinctFit<T>(s: seq<T>, all: set<T>)
    requires NoRepeats(s) && forall x <- s :: x in all
    ensures |s| <= |all|
    decreases |s|
  {
    if s != [] {
      var last := |s| - 1;
      DistinctFit(s[..last], all - {s[last]});
    }
  }
}
