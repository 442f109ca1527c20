/** Matching Challonge participants to registered teams by name: exact names first, then fuzzy.

    Names and their score are parameters.  A participant or team is known by its place in the list
    it comes in; both kinds of ID are distinct. */
module TeamMatching {
  import opened Wrappers
  import opened FiniteSets

  /** A score from 0 to 100 that is 100 for equal names only. */
  ghost predicate Usable<Name(!new)>(score: (Name, Name) -> real) {
    forall p, t :: 0.0 <= score(p, t) <= 100.0 && (score(p, t) == 100.0 <==> p == t)
  }

  /** The first of the best-scoring unused teams; an exact name ends the search at once. */
  method BestMatch<Name(==, !new)>(name: Name, teams: seq<Name>, used: set<nat>, score: (Name, Name) -> real)
    returns (best: Option<nat>, bestScore: real)
    requires Usable(score)
    ensures best.None? ==> bestScore == -1.0 && forall j | 0 <= j < |teams| :: j in used
    ensures best.Some? ==>
              && best.value < |teams| && best.value !in used && bestScore == score(name, teams[best.value])
              && (forall j | 0 <= j < |teams| && j !in used :: score(name, teams[j]) <= bestScore)
              && (forall j | 0 <= j < best.value && j !in used :: score(name, teams[j]) < bestScore)
  {
    best, bestScore := None, -1.0;
    for j := 0 to |teams|
      invariant best.None? ==> bestScore == -1.0 && forall k | 0 <= k < j :: k in used
      invariant best.Some? ==>
                  && best.value < j && best.value !in used && bestScore == score(name, teams[best.value])
                  && (forall k | 0 <= k < j && k !in used :: score(name, teams[k]) <= bestScore)
                  && (forall k | 0 <= k < best.value && k !in used :: score(name, teams[k]) < bestScore)
      invariant forall k | 0 <= k < j && k !in used :: name != teams[k]
    {
      if j !in used {
        if name == teams[j] {
          return Some(j), 100.0;
        }
        var s := score(name, teams[j]);
        if s > bestScore {
          best, bestScore := Some(j), s;
        }
      }
    }
  }

  // ---------------------------------------------------------------- choosing without repetition

  predicate Picks<Name>(s: seq<Name>, places: seq<nat>) {
    && (forall i | 0 <= i < |places| :: places[i] < |s|)
    && (forall i, j | 0 <= i < j < |places| :: places[i] != places[j])
  }

  function Select<Name>(s: seq<Name>, places: seq<nat>): (r: seq<Name>)
    requires Picks(s, places)
    ensures |r| == |places|
  {
    seq(|places|, i requires 0 <= i < |places| => s[places[i]])
  }

  function Holding<Name(==)>(s: seq<Name>, places: seq<nat>, x: Name): set<nat>
    requires Picks(s, places)
  {
    set i | 0 <= i < |places| && s[places[i]] == x :: places[i]
  }

  lemma PicksInit<Name>(s: seq<Name>, places: seq<nat>)
    requires Picks(s, places) && places != []
    ensures Picks(s, places[..|places| - 1])
    ensures Select(s, places) == Select(s, places[..|places| - 1]) + [s[places[|places| - 1]]]
  {}

  lemma {:induction false} CountPlaces<Name>(s: seq<Name>, places: seq<nat>, x: Name)
    requires Picks(s, places)
    ensures multiset(Select(s, places))[x] == |Holding(s, places, x)|
  {
    if places != [] {
      var last, init := places[|places| - 1], places[..|places| - 1];
      PicksInit(s, places);
      CountPlaces(s, init, x);
      HoldingInit(s, places, x);
      if s[last] == x { SizeOfOneMore(Holding(s, init, x), last); }
    }
  }

  lemma SizeOfOneMore<T>(a: set<T>, x: T)
    requires x !in a
    ensures |a + {x}| == |a| + 1
  {}

  lemma HoldingInit<Name>(s: seq<Name>, places: seq<nat>, x: Name)
    requires Picks(s, places) && places != [] && Picks(s, places[..|places| - 1])
    ensures var last, init := places[|places| - 1], places[..|places| - 1];
            && last !in Holding(s, init, x)
            && Holding(s, places, x) == Holding(s, init, x) + if s[last] == x then {last} else {}
  {
    var last, init := places[|places| - 1], places[..|places| - 1];
    forall p | p in Holding(s, places, x) ensures p in Holding(s, init, x) || (p == last && s[last] == x) {
      var i :| 0 <= i < |places| && s[places[i]] == x && places[i] == p;
      if i < |init| { assert init[i] == p; }
    }
    forall p | p in Holding(s, init, x) ensures p in Holding(s, places, x) {
      var i :| 0 <= i < |init| && s[init[i]] == x && init[i] == p;
      assert places[i] == p;
    }
  }

  /** Distinct places hold a name at most as often as the whole list, and as often if they include
      every place that holds it. */
  lemma SelectCounts<Name>(s: seq<Name>, places: seq<nat>, x: Name)
    requires Picks(s, places)
    ensures multiset(Select(s, places))[x] <= multiset(s)[x]
    ensures (forall j | 0 <= j < |s| && s[j] == x :: j in places) ==> multiset(Select(s, places))[x] == multiset(s)[x]
  {
    var all := seq(|s|, i requires 0 <= i < |s| => i);
    assert Select(s, all) == s;
    CountPlaces(s, all, x);
    CountPlaces(s, places, x);
    var some, every := Holding(s, places, x), Holding(s, all, x);
    forall p | p in some ensures p in every { assert all[p] == p; }
    SubsetSize(some, every);
    if forall j | 0 <= j < |s| && s[j] == x :: j in places {
      forall p | p in every ensures p in some { assert p in places; }
      assert some == every;
    }
  }

  // ---------------------------------------------------------------- the exact pass

  /** The size of the largest possible exact matching: per name, the smaller of the numbers of
      participants and of teams that bear it, summed over the names. */
  function ExactCapacity<Name(==)>(names: seq<Name>, teams: seq<Name>): nat { |multiset(names) * multiset(teams)| }

  /** Any way of pairing distinct participants with distinct teams of the same name. */
  predicate ExactMatching<Name(==)>(names: seq<Name>, teams: seq<Name>, ps: seq<nat>, ts: seq<nat>) {
    Picks(names, ps) && Picks(teams, ts) && Select(names, ps) == Select(teams, ts)
  }

  lemma NoExactMatchingIsLarger<Name>(names: seq<Name>, teams: seq<Name>, ps: seq<nat>, ts: seq<nat>)
    requires ExactMatching(names, teams, ps, ts)
    ensures |ps| <= ExactCapacity(names, teams)
  {
    var chosen := multiset(Select(names, ps));
    forall x ensures chosen[x] <= (multiset(names) * multiset(teams))[x] {
      SelectCounts(names, ps, x);
      SelectCounts(teams, ts, x);
    }
    MultisetSize(chosen, multiset(names) * multiset(teams));
  }

  lemma MultisetSize<T>(a: multiset<T>, b: multiset<T>)
    requires a <= b
    ensures |a| <= |b|
  {
    assert b == a + (b - a);
  }

  /** `owner` says, for each used team, which participant has it. */
  predicate Inverse(mapping: map<nat, nat>, owner: map<nat, nat>) {
    && (forall i | i in mapping :: mapping[i] in owner && owner[mapping[i]] == i)
    && (forall j | j in owner :: owner[j] in mapping && mapping[owner[j]] == j)
  }

  predicate SameNames<Name(==)>(names: seq<Name>, teams: seq<Name>, mapping: map<nat, nat>) {
    forall i | i in mapping :: i < |names| && mapping[i] < |teams| && names[i] == teams[mapping[i]]
  }

  /** After the first n participants: same-name pairs only, as many as possible, and nobody left who
      could still have a team of the same name. */
  ghost predicate ExactSoFar<Name>(names: seq<Name>, teams: seq<Name>, n: nat, mapping: map<nat, nat>,
                                   owner: map<nat, nat>, taken: seq<nat>)
  {
    && n <= |names| && Picks(teams, taken) && Inverse(mapping, owner) && SameNames(names, teams, mapping)
    && SameTeams(owner, taken) && |mapping| == |taken|
    && (forall i | i in mapping :: i < n) && NoneLeft(names, teams, n, mapping, owner)
    && AtCapacity(names, teams, n, taken)
  }

  ghost predicate SameTeams(owner: map<nat, nat>, taken: seq<nat>) { forall j :: j in taken <==> j in owner }

  ghost predicate NoneLeft<Name>(names: seq<Name>, teams: seq<Name>, n: nat, mapping: map<nat, nat>,
                                 owner: map<nat, nat>)
    requires n <= |names|
  {
    forall i, j | 0 <= i < n && i !in mapping && 0 <= j < |teams| && j !in owner :: names[i] != teams[j]
  }

  ghost predicate AtCapacity<Name>(names: seq<Name>, teams: seq<Name>, n: nat, taken: seq<nat>)
    requires n <= |names| && Picks(teams, taken)
  {
    multiset(Select(teams, taken)) == multiset(names[..n]) * multiset(teams)
  }

  /** One more pair, or none because none is left, keeps the multiset of matched names at its limit. */
  lemma CapacityStep<Name>(names: seq<Name>, teams: seq<Name>, n: nat, taken: seq<nat>, j: Option<nat>)
    requires n < |names| && Picks(teams, taken)
    requires AtCapacity(names, teams, n, taken)
    requires match j
             case Some(t) => t < |teams| && t !in taken && names[n] == teams[t]
             case None => forall t | 0 <= t < |teams| && t !in taken :: names[n] != teams[t]
    ensures var taken' := if j.Some? then taken + [j.value] else taken;
            Picks(teams, taken') && AtCapacity(names, teams, n + 1, taken')
  {
    var x := names[n];
    assert names[..n + 1] == names[..n] + [x];
    if j.Some? {
      var more := taken + [j.value];
      SelectCounts(teams, more, x);
      assert more[..|taken|] == taken;
      PicksInit(teams, more);
    } else {
      SelectCounts(teams, taken, x);
    }
  }

  lemma ExactStep<Name>(names: seq<Name>, teams: seq<Name>, n: nat, mapping: map<nat, nat>, owner: map<nat, nat>,
                        taken: seq<nat>, j: Option<nat>)
    requires n < |names| && ExactSoFar(names, teams, n, mapping, owner, taken)
    requires match j
             case Some(t) => t < |teams| && t !in owner && names[n] == teams[t]
             case None => forall t | 0 <= t < |teams| && t !in owner :: names[n] != teams[t]
    ensures match j
            case Some(t) => ExactSoFar(names, teams, n + 1, mapping[n := t], owner[t := n], taken + [t])
            case None => ExactSoFar(names, teams, n + 1, mapping, owner, taken)
  {
    hide Inverse, SameNames, NoneLeft, AtCapacity, Picks;
    CapacityStep(names, teams, n, taken, j);
    if j.Some? {
      PairStep(names, teams, n, mapping, owner, taken, j.value);
      assert |mapping[n := j.value]| == |mapping| + 1;
    } else {
      NonePaired(names, teams, n, mapping, owner);
    }
  }

  lemma NonePaired<Name>(names: seq<Name>, teams: seq<Name>, n: nat, mapping: map<nat, nat>, owner: map<nat, nat>)
    requires n < |names| && NoneLeft(names, teams, n, mapping, owner)
    requires forall t | 0 <= t < |teams| && t !in owner :: names[n] != teams[t]
    ensures NoneLeft(names, teams, n + 1, mapping, owner)
  {}

  lemma PairStep<Name>(names: seq<Name>, teams: seq<Name>, n: nat, mapping: map<nat, nat>, owner: map<nat, nat>,
                       taken: seq<nat>, t: nat)
    requires n < |names| && t < |teams| && n !in mapping && t !in owner && names[n] == teams[t]
    requires Inverse(mapping, owner) && SameNames(names, teams, mapping) && SameTeams(owner, taken)
    requires (forall i | i in mapping :: i < n) && NoneLeft(names, teams, n, mapping, owner)
    ensures Inverse(mapping[n := t], owner[t := n]) && SameNames(names, teams, mapping[n := t])
    ensures SameTeams(owner[t := n], taken + [t]) && NoneLeft(names, teams, n + 1, mapping[n := t], owner[t := n])
  {
    InverseStep(mapping, owner, n, t);
  }

  lemma InverseStep(mapping: map<nat, nat>, owner: map<nat, nat>, i: nat, j: nat)
    requires Inverse(mapping, owner) && i !in mapping && j !in owner
    ensures Inverse(mapping[i := j], owner[j := i])
  {}

  method FirstUnused<Name(==)>(name: Name, teams: seq<Name>, used: set<nat>) returns (found: Option<nat>)
    ensures match found
            case Some(t) =>
              && t < |teams| && t !in used && name == teams[t]
              && forall k | 0 <= k < t && k !in used :: name != teams[k]
            case None => forall t | 0 <= t < |teams| && t !in used :: name != teams[t]
  {
    for j := 0 to |teams|
      invariant forall t | 0 <= t < j && t !in used :: name != teams[t]
    {
      if j !in used && name == teams[j] {
        return Some(j);
      }
    }
    return None;
  }

  lemma ExactBegins<Name>(names: seq<Name>, teams: seq<Name>)
    ensures ExactSoFar(names, teams, 0, map[], map[], [])
  {
    assert multiset(Select(teams, [])) == multiset(names[..0]) * multiset(teams);
  }

  lemma ExactEnds<Name>(names: seq<Name>, teams: seq<Name>, mapping: map<nat, nat>, owner: map<nat, nat>,
                        taken: seq<nat>)
    requires ExactSoFar(names, teams, |names|, mapping, owner, taken)
    ensures |mapping| == ExactCapacity(names, teams)
  {
    assert names[..|names|] == names;
    assert |Select(teams, taken)| == |multiset(Select(teams, taken))|;
  }

  /** The exact pass reaches the capacity: no exact matching is larger. */
  method ExactPass<Name(==)>(names: seq<Name>, teams: seq<Name>)
    returns (mapping: map<nat, nat>, ghost owner: map<nat, nat>, used: set<nat>)
    ensures Inverse(mapping, owner) && used == owner.Keys && SameNames(names, teams, mapping)
    ensures forall i, j | 0 <= i < |names| && i !in mapping && 0 <= j < |teams| && j !in used :: names[i] != teams[j]
    ensures |mapping| == ExactCapacity(names, teams)
  {
    ghost var taken: seq<nat> := [];
    mapping, owner, used := map[], map[], {};
    ExactBegins(names, teams);
    hide Select, ExactCapacity;
    for n := 0 to |names|
      invariant ExactSoFar(names, teams, n, mapping, owner, taken) && used == owner.Keys
    {
      var found := FirstUnused(names[n], teams, used);
      ExactStep(names, teams, n, mapping, owner, taken, found);
      if found.Some? {
        mapping, used := mapping[n := found.value], used + {found.value};
        owner, taken := owner[found.value := n], taken + [found.value];
      }
    }
    ExactEnds(names, teams, mapping, owner, taken);
  }

  // ---------------------------------------------------------------- both passes

  const THRESHOLD := 40.0

  /** A pair the fuzzy pass makes: different names, at least the threshold, and no team left over in
      the end that would have suited the participant better. */
  predicate GoodFuzzyPair<Name(==)>(score: (Name, Name) -> real, names: seq<Name>, teams: seq<Name>,
                                    used: set<nat>, i: nat, t: nat)
    requires i < |names| && t < |teams|
  {
    && names[i] != teams[t] && score(names[i], teams[t]) >= THRESHOLD
    && forall j | 0 <= j < |teams| && j !in used :: score(names[i], teams[j]) <= score(names[i], teams[t])
  }

  /** The first n participants have been through the fuzzy pass: pass-1 pairs are kept and all other
      pairs are good fuzzy ones. */
  ghost predicate Paired<Name>(score: (Name, Name) -> real, names: seq<Name>, teams: seq<Name>, n: nat,
                               exact: map<nat, nat>, mapping: map<nat, nat>, used: set<nat>)
  {
    && n <= |names| && exact.Keys <= mapping.Keys && (forall i | i in exact :: mapping[i] == exact[i])
    && (forall i | i in mapping :: i < |names| && mapping[i] < |teams|)
    && (forall i | i in mapping && i !in exact :: i < n && GoodFuzzyPair(score, names, teams, used, i, mapping[i]))
  }

  /** Everybody among the first n is matched or listed, once and in order; a listed score is below
      the threshold and no team left over beats it. */
  ghost predicate Listed<Name>(score: (Name, Name) -> real, names: seq<Name>, teams: seq<Name>, n: nat,
                               mapping: map<nat, nat>, used: set<nat>, unmatched: seq<(nat, real)>)
  {
    && n <= |names|
    && (forall k | 0 <= k < |unmatched| ::
         unmatched[k].0 < n && unmatched[k].0 !in mapping && unmatched[k].1 < THRESHOLD)
    && (forall i | 0 <= i < n && i !in mapping :: exists k | 0 <= k < |unmatched| :: unmatched[k].0 == i)
    && (forall k, l | 0 <= k < l < |unmatched| :: unmatched[k].0 < unmatched[l].0)
    && (forall k, j | 0 <= k < |unmatched| && 0 <= j < |teams| && j !in used ::
         score(names[unmatched[k].0], teams[j]) <= unmatched[k].1)
  }

  lemma ListedStep<Name>(score: (Name, Name) -> real, names: seq<Name>, teams: seq<Name>, n: nat,
                         mapping: map<nat, nat>, used: set<nat>, unmatched: seq<(nat, real)>, s: real)
    requires n < |names| && Listed(score, names, teams, n, mapping, used, unmatched) && n !in mapping && s < THRESHOLD
    requires forall j | 0 <= j < |teams| && j !in used :: score(names[n], teams[j]) <= s
    ensures Listed(score, names, teams, n + 1, mapping, used, unmatched + [(n, s)])
  {
    var longer := unmatched + [(n, s)];
    forall i | 0 <= i < n + 1 && i !in mapping ensures exists k | 0 <= k < |longer| :: longer[k].0 == i {
      if i == n { assert longer[|unmatched|].0 == n; }
      else { var k :| 0 <= k < |unmatched| && unmatched[k].0 == i; assert longer[k].0 == i; }
    }
  }

  lemma PairedStep<Name>(score: (Name, Name) -> real, names: seq<Name>, teams: seq<Name>, n: nat, exact: map<nat, nat>,
                         mapping: map<nat, nat>, used: set<nat>, t: nat)
    requires n < |names| && n !in mapping && t < |teams| && Paired(score, names, teams, n, exact, mapping, used)
    requires GoodFuzzyPair(score, names, teams, used, n, t)
    ensures Paired(score, names, teams, n + 1, exact, mapping[n := t], used + {t})
  {}

  lemma ListedShrinks<Name>(score: (Name, Name) -> real, names: seq<Name>, teams: seq<Name>, n: nat,
                            mapping: map<nat, nat>, used: set<nat>, unmatched: seq<(nat, real)>, t: nat)
    requires n < |names| && Listed(score, names, teams, n, mapping, used, unmatched)
    ensures Listed(score, names, teams, n + 1, mapping[n := t], used + {t}, unmatched)
  {}

  lemma PassBegins<Name>(score: (Name, Name) -> real, names: seq<Name>, teams: seq<Name>, exact: map<nat, nat>,
                         used: set<nat>)
    requires SameNames(names, teams, exact)
    ensures Paired(score, names, teams, 0, exact, exact, used) && Listed(score, names, teams, 0, exact, used, [])
  {}

  lemma PassSkips<Name>(score: (Name, Name) -> real, names: seq<Name>, teams: seq<Name>, n: nat, exact: map<nat, nat>,
                        mapping: map<nat, nat>, used: set<nat>, unmatched: seq<(nat, real)>)
    requires n < |names| && Paired(score, names, teams, n, exact, mapping, used)
    ensures exact.Keys <= mapping.Keys && Paired(score, names, teams, n + 1, exact, mapping, used)
    ensures n in mapping && Listed(score, names, teams, n, mapping, used, unmatched) ==>
              Listed(score, names, teams, n + 1, mapping, used, unmatched)
  {}

  /** The fuzzy pass over whoever the exact pass left; the exact-name return of BestMatch never fires
      in it, because a fuzzy pair always has different names. */
  method FuzzyPass<Name(==, !new)>(names: seq<Name>, teams: seq<Name>, score: (Name, Name) -> real,
                                   exact: map<nat, nat>, used0: set<nat>, ghost owner0: map<nat, nat>)
    returns (mapping: map<nat, nat>, unmatched: seq<(nat, real)>, ghost owner: map<nat, nat>)
    requires Usable(score) && Inverse(exact, owner0) && used0 == owner0.Keys && SameNames(names, teams, exact)
    requires forall i, j | 0 <= i < |names| && i !in exact && 0 <= j < |teams| && j !in used0 :: names[i] != teams[j]
    ensures Inverse(mapping, owner) && owner.Keys == mapping.Values
    ensures Paired(score, names, teams, |names|, exact, mapping, mapping.Values)
    ensures Listed(score, names, teams, |names|, mapping, mapping.Values, unmatched)
  {
    mapping, unmatched, owner := exact, [], owner0;
    var used := used0;
    PassBegins(score, names, teams, exact, used);
    hide Inverse, Paired, Listed;
    for n := 0 to |names|
      invariant used0 <= used == owner.Keys && Inverse(mapping, owner)
      invariant Paired(score, names, teams, n, exact, mapping, used)
      invariant Listed(score, names, teams, n, mapping, used, unmatched)
    {
      PassSkips(score, names, teams, n, exact, mapping, used, unmatched);
      if n !in mapping {
        var best, bestScore := BestMatch(names[n], teams, used, score);
        if best.Some? && bestScore >= THRESHOLD {
          InverseStep(mapping, owner, n, best.value);
          PairedStep(score, names, teams, n, exact, mapping, used, best.value);
          ListedShrinks(score, names, teams, n, mapping, used, unmatched, best.value);
          mapping, used := mapping[n := best.value], used + {best.value};
          owner := owner[best.value := n];
        } else {
          ListedStep(score, names, teams, n, mapping, used, unmatched, bestScore);
          unmatched := unmatched + [(n, bestScore)];
        }
      }
    }
    UsedAreValues(mapping, owner);
  }

  /** The matching is injective and keeps every pair of the exact pass, which is as large as an exact
      matching can be; everybody is either matched or listed as unmatched, never both; and no
      unmatched participant scores 40 or more with a team left over. */
  method TwoPassMatch<Name(==, !new)>(names: seq<Name>, teams: seq<Name>, score: (Name, Name) -> real)
    returns (mapping: map<nat, nat>, unmatched: seq<(nat, real)>, exact: map<nat, nat>)
    requires Usable(score)
    ensures forall x, y | x in mapping && y in mapping && mapping[x] == mapping[y] :: x == y
    ensures SameNames(names, teams, exact) && |exact| == ExactCapacity(names, teams)
    ensures Paired(score, names, teams, |names|, exact, mapping, mapping.Values)
    ensures Listed(score, names, teams, |names|, mapping, mapping.Values, unmatched)
    ensures forall i, j | 0 <= i < |names| && i !in mapping && 0 <= j < |teams| && j !in mapping.Values ::
              score(names[i], teams[j]) < THRESHOLD
  {
    ghost var owner;
    var used;
    exact, owner, used := ExactPass(names, teams);
    mapping, unmatched, owner := FuzzyPass(names, teams, score, exact, used, owner);
    forall i, j | 0 <= i < |names| && i !in mapping && 0 <= j < |teams| && j !in owner
      ensures score(names[i], teams[j]) < THRESHOLD
    {
      var k :| 0 <= k < |unmatched| && unmatched[k].0 == i;
    }
  }

  lemma UsedAreValues(mapping: map<nat, nat>, owner: map<nat, nat>)
    requires Inverse(mapping, owner)
    ensures mapping.Values == owner.Keys
  {}
}
