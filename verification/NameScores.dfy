/** The name score of the Python importer, on compact names: normalised, letters and digits only. */
module NameScores {
  import opened TeamMatching
  import opened FiniteSets

  function Piece(s: string, i: nat, n: nat): string
    requires i + n <= |s|
  {
    s[i..i + n]
  }

  predicate Occurs(inner: string, outer: string) {
    exists i | 0 <= i <= |outer| - |inner| :: Piece(outer, i, |inner|) == inner
  }

  function Trigrams(s: string): set<string> { set i | 0 <= i <= |s| - 3 :: Piece(s, i, 3) }

  function Max(a: int, b: int): int { if a > b then a else b }

  function Similarity(p: string, t: string): real {
    var a, b := Trigrams(p), Trigrams(t);
    if a == {} || b == {} then 0.0 else |a * b| as real / Max(|a|, |b|) as real * 70.0
  }

  /** best_match's score: 100 for the same name, 80 when one contains the other, else trigrams. */
  function Score(p: string, t: string): real {
    if p == t then 100.0 else if Occurs(p, t) || Occurs(t, p) then 80.0 else Similarity(p, t)
  }

  lemma ScoreRange(p: string, t: string)
    ensures 0.0 <= Score(p, t) <= 100.0 && (Score(p, t) == 100.0 <==> p == t)
  {
    var a, b := Trigrams(p), Trigrams(t);
    if a != {} && b != {} {
      SubsetSize(a * b, a);
      Ratio(|a * b| as real, Max(|a|, |b|) as real);
    }
  }

  lemma Ratio(n: real, m: real)
    requires 0.0 <= n <= m && 0.0 < m
    ensures 0.0 <= n / m * 70.0 <= 70.0
  {
    assert n / m * m == n;
  }

  /** So the matcher may use it. */
  lemma {:induction false} ScoreIsUsable()
    ensures Usable(Score)
  {
    forall p, t ensures 0.0 <= Score(p, t) <= 100.0 && (Score(p, t) == 100.0 <==> p == t) { ScoreRange(p, t); }
  }

  // ---------------------------------------------------------------- what the score means

  /** One name is a stretch of the other. */
  ghost predicate Contains(outer: string, inner: string) {
    exists before, after: string :: outer == before + inner + after
  }

  lemma OccursMeans(inner: string, outer: string)
    ensures Occurs(inner, outer) <==> Contains(outer, inner)
  {
    if Occurs(inner, outer) {
      var i :| 0 <= i <= |outer| - |inner| && Piece(outer, i, |inner|) == inner;
      assert outer == outer[..i] + inner + outer[i + |inner|..];
    }
    if Contains(outer, inner) {
      var before, after: string :| outer == before + inner + after;
      assert Piece(outer, |before|, |inner|) == inner;
    }
  }

  /** The trigrams of a name are the stretches of three characters. */
  lemma TrigramsMean(s: string, x: string)
    ensures x in Trigrams(s) <==> |x| == 3 && Contains(s, x)
  {
    OccursMeans(x, s);
    if x in Trigrams(s) {
      var i :| 0 <= i <= |s| - 3 && Piece(s, i, 3) == x;
      assert Piece(s, i, |x|) == x;
    }
    if |x| == 3 && Occurs(x, s) {
      var i :| 0 <= i <= |s| - |x| && Piece(s, i, |x|) == x;
      assert Piece(s, i, 3) == x;
    }
  }

  lemma Scaled(x: real, m: real, n: real)
    requires 0.0 < m && x * m == n
    ensures x * 70.0 >= 40.0 <==> 7.0 * n >= 4.0 * m
  {
    var d := 7.0 * x - 4.0;
    assert d * m == 7.0 * n - 4.0 * m;
    Sign(d, m);
  }

  lemma Sign(d: real, m: real)
    requires 0.0 < m
    ensures d >= 0.0 <==> d * m >= 0.0
  {}

  lemma RatioAtLeast(n: nat, m: nat)
    requires 0 < m
    ensures n as real / m as real * 70.0 >= 40.0 <==> 7 * n >= 4 * m
  {
    var x := n as real / m as real;
    assert x * m as real == n as real;
    Scaled(x, m as real, n as real);
  }

  /** Different names of which one contains the other are always close enough, and closer than any
      different names of which neither does; those are close enough exactly if both have trigrams and at
      least four sevenths of the larger number are shared. */
  lemma ScoreMeans(p: string, t: string, q: string, u: string)
    requires p != t && q != u && !Contains(q, u) && !Contains(u, q)
    ensures Contains(p, t) || Contains(t, p) ==> 40.0 <= Score(p, t) == 80.0 && Score(q, u) < Score(p, t)
    ensures var a, b := Trigrams(q), Trigrams(u);
            && (Score(q, u) >= 40.0 <==> a != {} && b != {} && 7 * |a * b| >= 4 * |a| && 7 * |a * b| >= 4 * |b|)
            && (a == {} || b == {} ==> Score(q, u) == 0.0)
            && (a != {} && b != {} && |a| >= |b| ==> Score(q, u) * |a| as real == 70.0 * |a * b| as real)
            && (a != {} && b != {} && |b| >= |a| ==> Score(q, u) * |b| as real == 70.0 * |a * b| as real)
  {
    OccursMeans(p, t);
    OccursMeans(t, p);
    OccursMeans(q, u);
    OccursMeans(u, q);
    SimilarityMeans(q, u);
  }

  lemma SimilarityMeans(q: string, u: string)
    ensures Similarity(q, u) <= 70.0
    ensures var a, b := Trigrams(q), Trigrams(u);
            && (Similarity(q, u) >= 40.0 <==> a != {} && b != {} && 7 * |a * b| >= 4 * |a| && 7 * |a * b| >= 4 * |b|)
            && (a == {} || b == {} ==> Similarity(q, u) == 0.0)
            && (a != {} && b != {} ==> Similarity(q, u) * Max(|a|, |b|) as real == 70.0 * |a * b| as real)
  {
    var a, b := Trigrams(q), Trigrams(u);
    if a != {} && b != {} {
      assert |a * b| as real / Max(|a|, |b|) as real * Max(|a|, |b|) as real == |a * b| as real;
      SubsetSize(a * b, a);
      Ratio(|a * b| as real, Max(|a|, |b|) as real);
      RatioAtLeast(|a * b|, Max(|a|, |b|));
    }
  }

  /** The importer's matching with its own score: injective, of maximum size on equal names, and leaving
      no participant unmatched beside an unused team with the same name, a name that contains or is
      contained in the participant's, or four sevenths of the trigrams in common. */
  method MatchByName(names: seq<string>, teams: seq<string>)
    returns (mapping: map<nat, nat>, unmatched: seq<(nat, real)>, exact: map<nat, nat>)
    ensures forall x, y | x in mapping && y in mapping && mapping[x] == mapping[y] :: x == y
    ensures SameNames(names, teams, exact) && |exact| == ExactCapacity(names, teams)
    ensures Paired(Score, names, teams, |names|, exact, mapping, mapping.Values)
    ensures Listed(Score, names, teams, |names|, mapping, mapping.Values, unmatched)
    ensures forall i, j | 0 <= i < |names| && i !in mapping && 0 <= j < |teams| && j !in mapping.Values ::
              && names[i] != teams[j] && !Contains(names[i], teams[j]) && !Contains(teams[j], names[i])
              && var a, b := Trigrams(names[i]), Trigrams(teams[j]);
                 a == {} || b == {} || 7 * |a * b| < 4 * |a| || 7 * |a * b| < 4 * |b|
  {
    ScoreIsUsable();
    mapping, unmatched, exact := TwoPassMatch(names, teams, Score);
    forall i, j | 0 <= i < |names| && i !in mapping && 0 <= j < |teams| && j !in mapping.Values
      ensures
        && names[i] != teams[j] && !Contains(names[i], teams[j]) && !Contains(teams[j], names[i])
        && var a, b := Trigrams(names[i]), Trigrams(teams[j]);
           a == {} || b == {} || 7 * |a * b| < 4 * |a| || 7 * |a * b| < 4 * |b|
    {
      assert Score(names[i], teams[j]) < THRESHOLD;
      FarApart(names[i], teams[j]);
    }
  }

  lemma FarApart(p: string, t: string)
    requires Score(p, t) < THRESHOLD
    ensures p != t && !Contains(p, t) && !Contains(t, p)
    ensures var a, b := Trigrams(p), Trigrams(t); a == {} || b == {} || 7 * |a * b| < 4 * |a| || 7 * |a * b| < 4 * |b|
  {
    OccursMeans(p, t);
    OccursMeans(t, p);
    SimilarityMeans(p, t);
  }
}
