/** Inventing an ID for a player without one: the base, then base1, base2, ... until one is free. */
module FallbackNik {
  import opened Decimal

  function Candidate(base: string, n: nat): string { if n == 0 then base else base + Print(n) }

  lemma CandidatesDiffer(base: string, m: nat, n: nat)
    requires m != n
    ensures Candidate(base, m) != Candidate(base, n)
  {
    ValueOfPrint(m);
    ValueOfPrint(n);
    assert m > 0 ==> Candidate(base, m)[|base|..] == Print(m);
    assert n > 0 ==> Candidate(base, n)[|base|..] == Print(n);
  }

  /** If the first n candidates are all taken, at least n IDs are. */
  lemma {:induction false} TakenCandidates(base: string, n: nat, used: set<string>)
    requires forall k | 0 <= k < n :: Candidate(base, k) in used
    ensures n <= |used|
  {
    if n > 0 {
      var last := Candidate(base, n - 1);
      forall k | 0 <= k < n - 1 ensures Candidate(base, k) in used - {last} { CandidatesDiffer(base, k, n - 1); }
      TakenCandidates(base, n - 1, used - {last});
    }
  }

  /** The first candidate that is neither in the cache nor in the users table, found after at most one
      try more than there are IDs in use. */
  method FreshNik(base: string, cache: set<string>, table: set<string>) returns (nik: string, tries: nat)
    ensures nik !in cache && nik !in table
    ensures 1 <= tries <= |cache + table| + 1
    ensures nik == Candidate(base, tries - 1)
    ensures forall k | 0 <= k < tries - 1 :: Candidate(base, k) in cache + table
  {
    var counter := 0;
    nik := base;
    while nik in cache || nik in table
      invariant nik == Candidate(base, counter)
      invariant forall k | 0 <= k < counter :: Candidate(base, k) in cache + table
      invariant counter <= |cache + table|
      decreases |cache + table| - counter
    {
      counter := counter + 1;
      TakenCandidates(base, counter, cache + table);
      nik := base + Print(counter);
    }
    tries := counter + 1;
  }
}
