/** Challonge's signed rounds laid out on Porjar's single line of rounds, by the Go handler and by
    the Python importer. */
module RoundMapping {

  datatype Position = Winners | Losers | GrandFinal

  /** What one pass over the matches finds out: whether some round is negative, the largest round
      (never below 0), and the smallest (never above 0). */
  datatype Bounds = Bounds(negative: bool, maxPositive: int, maxNegative: int)

  predicate BoundsOf(rounds: seq<int>, b: Bounds) {
    && (b.negative <==> exists r | r in rounds :: r < 0)
    && b.maxNegative <= 0 <= b.maxPositive
    && (forall r | r in rounds :: b.maxNegative <= r <= b.maxPositive)
    && (b.maxPositive == 0 || b.maxPositive in rounds)
    && (b.maxNegative == 0 || b.maxNegative in rounds)
  }

  lemma BoundsNext(rounds: seq<int>, b: Bounds, r: int)
    requires BoundsOf(rounds, b)
    ensures BoundsOf(rounds + [r], Bounds(b.negative || r < 0, if r > b.maxPositive then r else b.maxPositive,
                                          if r < b.maxNegative then r else b.maxNegative))
  {
    var more := rounds + [r];
    assert more[|rounds|] == r;
    forall q | q in rounds ensures q in more {
      var k :| 0 <= k < |rounds| && rounds[k] == q;
      assert more[k] == q;
    }
    forall q | q in more ensures q in rounds || q == r {}
    if b.negative {
      var q :| q in rounds && q < 0;
      assert q in more;
    }
  }

  lemma NoBounds()
    ensures BoundsOf([], Bounds(false, 0, 0))
  {}

  method FindBounds(rounds: seq<int>) returns (b: Bounds)
    ensures BoundsOf(rounds, b)
  {
    hide BoundsOf;
    var negative, maxPositive, maxNegative := false, 0, 0;
    NoBounds();
    for i := 0 to |rounds|
      invariant BoundsOf(rounds[..i], Bounds(negative, maxPositive, maxNegative))
    {
      var r := rounds[i];
      assert rounds[..i + 1] == rounds[..i] + [r];
      BoundsNext(rounds[..i], Bounds(negative, maxPositive, maxNegative), r);
      if r < 0 {
        negative := true;
        if r < maxNegative { maxNegative := r; }
      }
      if r > maxPositive { maxPositive := r; }
    }
    assert rounds[..|rounds|] == rounds;
    b := Bounds(negative, maxPositive, maxNegative);
  }

  /** Winners' rounds: all positive rounds, short of the last one in a double elimination. */
  function MaxWR(b: Bounds): int { if b.negative then b.maxPositive - 1 else b.maxPositive }

  function LowerRounds(b: Bounds): int { -b.maxNegative }

  function MapRound(b: Bounds, r: int): (int, Position) {
    if !b.negative then (r, Winners)
    else if 0 < r <= MaxWR(b) then (r, Winners)
    else if r < 0 then (MaxWR(b) + (-r), Losers)
    else (MaxWR(b) + LowerRounds(b) + 1, GrandFinal)
  }

  /** How the preview of the same tournament labels a match. */
  function PreviewPosition(b: Bounds, r: int): Position {
    if r < 0 then Losers
    else if b.negative && r == b.maxPositive then GrandFinal
    else Winners
  }

  // ---------------------------------------------------------------- the Python importer

  /** Python's max has no floor at 0, so its largest round is negative when every round is. */
  predicate PyBoundsOf(rounds: seq<int>, b: Bounds) {
    && (b.negative <==> exists r | r in rounds :: r < 0)
    && (if rounds == [] then b.maxPositive == 0
        else b.maxPositive in rounds && forall r | r in rounds :: r <= b.maxPositive)
    && b.maxNegative <= 0 && (forall r | r in rounds :: b.maxNegative <= r)
    && (b.maxNegative == 0 || b.maxNegative in rounds)
  }

  /** Round 0 is Challonge's third-place match; only this version gives it a round of its own. */
  function PyMapRound(b: Bounds, r: int): (int, Position) {
    if r == 0 then (if b.negative then (MaxWR(b) + LowerRounds(b) + 2, Winners) else (b.maxPositive + 1, Winners))
    else MapRound(b, r)
  }

  // ---------------------------------------------------------------- the remapping is a bijection

  /** The nonzero rounds a double elimination can have, and the rounds they should become. */
  predicate SignedRound(b: Bounds, r: int) { r != 0 && b.maxNegative <= r <= b.maxPositive }

  predicate LinearRound(b: Bounds, p: int) { 1 <= p <= MaxWR(b) + LowerRounds(b) + 1 }

  function UnmapRound(b: Bounds, p: int): int {
    if p <= MaxWR(b) then p
    else if p <= MaxWR(b) + LowerRounds(b) then MaxWR(b) - p
    else b.maxPositive
  }

  function PositionAt(b: Bounds, p: int): Position {
    if p <= MaxWR(b) then Winners else if p <= MaxWR(b) + LowerRounds(b) then Losers else GrandFinal
  }

  ghost predicate Bijective(b: Bounds) {
    && (forall r :: SignedRound(b, r) ==> LinearRound(b, MapRound(b, r).0) && UnmapRound(b, MapRound(b, r).0) == r)
    && (forall p :: LinearRound(b, p) ==> SignedRound(b, UnmapRound(b, p)) && MapRound(b, UnmapRound(b, p)).0 == p)
  }

  /** A double elimination's nonzero rounds go one to one onto 1..maxWR+lb+1 exactly when it has a
      positive round at all. */
  lemma RemappingIsABijection(rounds: seq<int>, b: Bounds)
    requires BoundsOf(rounds, b) && b.negative
    ensures Bijective(b) <==> b.maxPositive >= 1
  {
    if b.maxPositive < 1 {
      assert SignedRound(b, -1) && MapRound(b, -1).0 == 0;
    } else {
      forall r | SignedRound(b, r)
        ensures LinearRound(b, MapRound(b, r).0) && UnmapRound(b, MapRound(b, r).0) == r {}
      forall p | LinearRound(b, p)
        ensures SignedRound(b, UnmapRound(b, p)) && MapRound(b, UnmapRound(b, p)).0 == p {}
    }
  }

  /** A single elimination's rounds stay as they are: 1..maxPositive goes one to one onto itself in order,
      all on the winners' side, and third place stays before round 1. */
  lemma SingleEliminationKeepsRounds(rounds: seq<int>, b: Bounds)
    requires BoundsOf(rounds, b) && !b.negative
    ensures forall r | 1 <= r <= b.maxPositive ::
              1 <= MapRound(b, r).0 <= b.maxPositive && MapRound(b, r).1 == Winners
    ensures forall r, q | 1 <= r < q <= b.maxPositive :: MapRound(b, r).0 < MapRound(b, q).0
    ensures forall p | 1 <= p <= b.maxPositive :: MapRound(b, p) == (p, Winners)
    ensures forall r | r in rounds && r != 0 :: 1 <= r <= b.maxPositive
    ensures MapRound(b, 0) == (0, Winners)
  {}

  /** Where each signed round of a double elimination goes: the winners' side keeps its rounds, the
      losers' side follows it from -1 outward, and the grand final comes last, with whatever has round 0. */
  lemma DoubleEliminationRounds(rounds: seq<int>, b: Bounds, r: int)
    requires BoundsOf(rounds, b) && b.negative && r in rounds
    ensures 0 < r < b.maxPositive ==> MapRound(b, r) == (r, Winners)
    ensures r < 0 ==> MapRound(b, r) == (b.maxPositive - 1 - r, Losers)
    ensures r == 0 || r == b.maxPositive ==> MapRound(b, r) == (b.maxPositive - b.maxNegative, GrandFinal)
  {}

  /** The new round number alone tells the bracket position. */
  lemma PositionRecoverable(rounds: seq<int>, b: Bounds, r: int)
    requires BoundsOf(rounds, b) && b.negative && r in rounds && r != 0
    ensures MapRound(b, r).1 == PositionAt(b, MapRound(b, r).0)
  {}

  /** Import and preview agree on every match but a third-place match of a double elimination. */
  lemma PreviewAgrees(rounds: seq<int>, b: Bounds, r: int)
    requires BoundsOf(rounds, b) && r in rounds
    ensures MapRound(b, r).1 == PreviewPosition(b, r) <==> !(b.negative && r == 0 && b.maxPositive > 0)
  {}

  /** The two importers give a match the same round and position exactly when it is not a
      third-place match and the tournament has a round that is not negative. */
  lemma ImportersAgree(rounds: seq<int>, go: Bounds, py: Bounds, r: int)
    requires BoundsOf(rounds, go) && PyBoundsOf(rounds, py) && r in rounds
    ensures MapRound(go, r) == PyMapRound(py, r) <==> r != 0 && exists q | q in rounds :: q >= 0
  {
    if exists q | q in rounds :: q >= 0 {
      assert go.maxPositive == py.maxPositive;
    }
    assert go.maxNegative == py.maxNegative;
  }

  /** The Python importer keeps all rounds apart, third place included, and puts that one last. */
  lemma PyRoundsApart(rounds: seq<int>, b: Bounds, r: int, q: int)
    requires PyBoundsOf(rounds, b) && r in rounds && q in rounds && r != q
    ensures PyMapRound(b, r).0 != PyMapRound(b, q).0
    ensures r == 0 ==> PyMapRound(b, q).0 < PyMapRound(b, r).0
    ensures r == 0 ==> PyMapRound(b, r) == (b.maxPositive + 1 - (if b.negative then b.maxNegative else 0), Winners)
    ensures r != 0 ==> PyMapRound(b, r) == MapRound(b, r)
  {}

  /** The Go importer does not: two different rounds of a tournament get the same Porjar round exactly
      when the tournament is a double elimination and they are its third-place match and grand final. */
  lemma GoRoundsApart(rounds: seq<int>, b: Bounds, r: int, q: int)
    requires BoundsOf(rounds, b) && r in rounds && q in rounds && r != q
    ensures MapRound(b, r).0 == MapRound(b, q).0 <==>
              b.negative && ((r == 0 && q == b.maxPositive) || (q == 0 && r == b.maxPositive))
    ensures MapRound(b, r).0 == MapRound(b, q).0 ==> MapRound(b, r).1 == MapRound(b, q).1 == GrandFinal
  {}
}
