/** Facts about sequences the solver is better told than left to find. */
module Seqs {
  lemma {:induction false} Assoc<T>(a: seq<T>, b: seq<T>, c: seq<T>)
    ensures (a + b) + c == a + (b + c)
  {
  }

  predicate HasNoRepeats<T(==)>(s: seq<T>) {
    forall i, j :: 0 <= i < j < |s| ==> s[i] != s[j]
  }

  /** The pigeonhole principle. */
  lemma {:induction false} DistinctFit<T>(s: seq<T>, all: set<T>)
    requires HasNoRepeats(s) && forall i :: 0 <= i < |s| ==> s[i] in all
    ensures |s| <= |all|
  {
    if s != [] {
      DistinctFit(s[1..], all - {s[0]});
    }
  }

  lemma {:induction false} Pick<T>(all: set<T>) returns (x: T)
    requires all != {}
    ensures x in all
  {
    x :| x in all;
  }
}
