/** Counting elements of finite sets. */
module FiniteSets {
  lemma {:induction false} SubsetSize<T>(a: set<T>, b: set<T>)
    requires a <= b
    ensures |a| <= |b|
  {
    if a != {} {
      var x :| x in a;
      SubsetSize(a - {x}, b - {x});
    }
  }

  lemma {:induction false} DistinctFit<T>(path: seq<T>, all: set<T>)
    requires forall i | 0 <= i < |path| :: path[i] in all
    requires forall i, j | 0 <= i < j < |path| :: path[i] != path[j]
    ensures |path| <= |all|
    decreases |path|
  {
    if path != [] {
      var last := path[|path| - 1];
      DistinctFit(path[..|path| - 1], all - {last});
    }
  }

  /** The n smallest natural numbers. */
  function Below(n: nat): (s: set<nat>)
    ensures |s| == n && forall j: nat :: j in s <==> j < n
  {
    if n == 0 then {} else Below(n - 1) + {n - 1}
  }
}
