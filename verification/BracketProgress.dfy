/** Following a winner or a loser through an imported bracket always moves forward. */
module BracketProgress {
  import opened Wrappers
  import opened FiniteSets
  import opened RoundMapping
  import opened AdvancementLinks

  /** The links Challonge draws. Inside a bracket they go outward; losers drop from the winners' side
      to the losers' side; the last losers' round and the winners' side feed the grand final; a
      second grand final follows the first in play order. In a single elimination a loser may go on
      to the third-place match, which has round 0. */
  predicate LegalLink(b: Bounds, m: Match, t: Match, loser: bool) {
    if b.negative then
      if m.round == b.maxPositive then t.round == b.maxPositive && m.order < t.order
      else if loser then 0 < m.round && t.round < 0
      else (0 < m.round < t.round) || (m.round < 0 && (t.round < m.round || t.round == b.maxPositive))
    else m.round > 0 && if loser then t.round == 0 else m.round < t.round
  }

  predicate LegalBracket(ms: seq<Match>, b: Bounds) {
    && 0 < b.maxPositive && (b.negative <==> b.maxNegative < 0)
    && (forall i | 0 <= i < |ms| :: b.maxNegative <= ms[i].round <= b.maxPositive)
    && (forall i, j, loser | 0 <= i < |ms| && 0 <= j < |ms| ::
         Feeds(ms[i].id, loser, ms[j]) ==> LegalLink(b, ms[i], ms[j], loser))
  }

  predicate Before(round: int, number: int, round': int, number': int) {
    round < round' || (round == round' && number < number')
  }

  /** Every legal link goes to a strictly later Porjar round, or, between the two grand finals, to a
      later match of the same round.  The Go importer breaks this exactly for the third-place match
      of a single elimination, which keeps round 0; the Python importer never does. */
  lemma LinkGoesForward(b: Bounds, m: Match, t: Match, loser: bool)
    requires 0 < b.maxPositive && (b.negative <==> b.maxNegative < 0)
    requires b.maxNegative <= m.round <= b.maxPositive && b.maxNegative <= t.round <= b.maxPositive
    requires LegalLink(b, m, t, loser)
    ensures t.round != 0 <==> Before(MapRound(b, m.round).0, m.order, MapRound(b, t.round).0, t.order)
    ensures Before(PyMapRound(b, m.round).0, m.order, PyMapRound(b, t.round).0, t.order)
    ensures MapRound(b, m.round).0 == MapRound(b, t.round).0 ==>
              MapRound(b, m.round).1 == MapRound(b, t.round).1 == GrandFinal
  {}

  // ---------------------------------------------------------------- chains of links

  /** A walk along links: the winner or loser of each match plays in the next one. */
  predicate Walk(b: Bounds, path: seq<Match>) {
    forall i | 0 <= i < |path| - 1 ::
      LegalLink(b, path[i], path[i + 1], true) || LegalLink(b, path[i], path[i + 1], false)
  }

  lemma {:induction false} WalkAscends(b: Bounds, path: seq<Match>, i: nat, j: nat)
    requires 0 < b.maxPositive && (b.negative <==> b.maxNegative < 0)
    requires forall k | 0 <= k < |path| :: b.maxNegative <= path[k].round <= b.maxPositive
    requires Walk(b, path) && i < j < |path|
    ensures Before(PyMapRound(b, path[i].round).0, path[i].order, PyMapRound(b, path[j].round).0, path[j].order)
    decreases j
  {
    LinkGoesForward(b, path[j - 1], path[j], LegalLink(b, path[j - 1], path[j], true));
    if i < j - 1 { WalkAscends(b, path, i, j - 1); }
  }

  /** No advancement chain cycles: a walk never meets a match twice, so it has at most as many
      matches as the bracket. */
  lemma WalksNeverCycle(ms: seq<Match>, b: Bounds, path: seq<Match>)
    requires LegalBracket(ms, b) && Walk(b, path) && forall k | 0 <= k < |path| :: path[k] in ms
    ensures forall i, j | 0 <= i < j < |path| :: path[i] != path[j]
    ensures |path| <= |ms|
  {
    forall k | 0 <= k < |path| ensures b.maxNegative <= path[k].round <= b.maxPositive {}
    forall i, j | 0 <= i < j < |path| ensures path[i] != path[j] { WalkAscends(b, path, i, j); }
    DistinctFit(path, set m | m in ms);
    ElementsFit(ms);
  }

  lemma {:induction false} ElementsFit<T>(s: seq<T>)
    ensures |set x | x in s| <= |s|
  {
    if s != [] {
      var init := s[..|s| - 1];
      ElementsFit(init);
      assert (set x | x in s) == (set x | x in init) + {s[|s| - 1]};
    }
  }

  // ---------------------------------------------------------------- the stored bracket

  /** The rounds of a finished import: those of a single elimination unchanged, those of a double
      elimination within 1..maxPositive - maxNegative, winners' side first, then the losers' side, then
      the grand final, each side in its order. */
  lemma StoredRounds(rows: map<nat, Row>, before: map<nat, Row>, ms: seq<Match>, b: Bounds, uuids: map<int, nat>,
                     i: nat, j: nat)
    requires Stored(rows, before, ms, b, uuids, |ms|, |ms|) && i < |ms| && j < |ms|
    requires BoundsOf(seq(|ms|, k requires 0 <= k < |ms| => ms[k].round), b) && ms[i].round != 0 && ms[j].round != 0
    ensures uuids[ms[i].id] in rows && uuids[ms[j].id] in rows
    ensures var r, q := ms[i].round, ms[j].round; var x, y := rows[uuids[ms[i].id]], rows[uuids[ms[j].id]];
            && (!b.negative ==> x.round == r && x.position == Winners && 1 <= r <= b.maxPositive)
            && (b.negative ==> 1 <= x.round <= b.maxPositive - b.maxNegative || (b.maxPositive == 0 && r < 0))
            && (r == q ==> x.round == y.round && x.position == y.position)
            && (0 < r < q ==> x.round < y.round)
            && (q < r < 0 ==> x.round < y.round)
            && (q < 0 < r < b.maxPositive ==> x.round < y.round && x.position == Winners && y.position == Losers)
            && (r < 0 < q == b.maxPositive ==> x.round < y.round && x.position == Losers && y.position == GrandFinal)
            && x.number == ms[i].order && x.details == ms[i].details
  {
    var rounds := seq(|ms|, k requires 0 <= k < |ms| => ms[k].round);
    assert rounds[i] in rounds && rounds[j] in rounds;
    assert rows[uuids[ms[i].id]] == RowOf(ms, b, uuids, i, true);
    assert rows[uuids[ms[j].id]] == RowOf(ms, b, uuids, j, true);
    if b.negative {
      DoubleEliminationRounds(rounds, b, ms[i].round);
      DoubleEliminationRounds(rounds, b, ms[j].round);
    }
  }

  /** In the rows a finished import stores, every link of a match leads to a row of the same import
      that is later in round or, between grand finals, in match number; the third-place match of a
      single elimination is the only target stored in an earlier round. */
  lemma StoredLinksGoForward(rows: map<nat, Row>, before: map<nat, Row>, ms: seq<Match>, b: Bounds,
                             uuids: map<int, nat>, i: nat, loser: bool)
    requires LegalBracket(ms, b) && Stored(rows, before, ms, b, uuids, |ms|, |ms|) && i < |ms|
    requires (if loser then rows[uuids[ms[i].id]].loserNext else rows[uuids[ms[i].id]].next).Some?
    ensures var from := rows[uuids[ms[i].id]];
            var target := (if loser then from.loserNext else from.next).value;
            exists j | 0 <= j < |ms| ::
              && target == uuids[ms[j].id] && target in rows && Feeds(ms[i].id, loser, ms[j])
              && (ms[j].player1 == Some(Prereq(ms[i].id, loser)) || ms[j].player2 == Some(Prereq(ms[i].id, loser)))
              && (Before(from.round, from.number, rows[target].round, rows[target].number) <==> ms[j].round != 0)
  {
    LastTargetFeeds(ms, ms[i].id, loser);
    var j :| 0 <= j < |ms| && ms[j].id == LastTarget(ms, ms[i].id, loser).value && Feeds(ms[i].id, loser, ms[j]);
    LinkGoesForward(b, ms[i], ms[j], loser);
    assert rows[uuids[ms[i].id]] == RowOf(ms, b, uuids, i, true);
    assert rows[uuids[ms[j].id]] == RowOf(ms, b, uuids, j, true);
  }

  /** And no prerequisite goes missing: whichever slot of a match another one's winner or loser fills, the
      finished import has stored a link from that other one, to this match unless it fills a later one too. */
  lemma EveryFeedIsStored(rows: map<nat, Row>, before: map<nat, Row>, ms: seq<Match>, b: Bounds,
                          uuids: map<int, nat>, i: nat, j: nat, loser: bool)
    requires Stored(rows, before, ms, b, uuids, |ms|, |ms|) && i < |ms| && j < |ms|
    requires ms[j].player1 == Some(Prereq(ms[i].id, loser)) || ms[j].player2 == Some(Prereq(ms[i].id, loser))
    ensures var link := if loser then rows[uuids[ms[i].id]].loserNext else rows[uuids[ms[i].id]].next;
            && link.Some?
            && ((forall k | j < k < |ms| ::
                   ms[k].player1 != Some(Prereq(ms[i].id, loser)) && ms[k].player2 != Some(Prereq(ms[i].id, loser)))
                ==> link == Some(uuids[ms[j].id]))
  {
    LastFeedWins(ms, ms[i].id, j, loser);
    assert rows[uuids[ms[i].id]] == RowOf(ms, b, uuids, i, true);
  }

  lemma {:induction false} LastFeedWins(ms: seq<Match>, a: int, j: nat, loser: bool)
    requires j < |ms| && Feeds(a, loser, ms[j])
    ensures LastTarget(ms, a, loser).Some?
    ensures (forall k | j < k < |ms| :: !Feeds(a, loser, ms[k])) ==> LastTarget(ms, a, loser) == Some(ms[j].id)
  {
    if j < |ms| - 1 && !Feeds(a, loser, ms[|ms| - 1]) { LastFeedWins(ms[..|ms| - 1], a, j, loser); }
  }

  /** A walk along the links of stored rows. */
  predicate RowWalk(rows: map<nat, Row>, path: seq<nat>) {
    forall k | 0 <= k < |path| - 1 ::
      path[k] in rows && (rows[path[k]].next == Some(path[k + 1]) || rows[path[k]].loserNext == Some(path[k + 1]))
  }

  lemma LinkOfRows(rows: map<nat, Row>, before: map<nat, Row>, ms: seq<Match>, b: Bounds, uuids: map<int, nat>, i: nat,
                   target: nat) returns (j: nat)
    requires LegalBracket(ms, b) && Stored(rows, before, ms, b, uuids, |ms|, |ms|) && i < |ms|
    requires rows[uuids[ms[i].id]].next == Some(target) || rows[uuids[ms[i].id]].loserNext == Some(target)
    ensures j < |ms| && target == uuids[ms[j].id]
    ensures LegalLink(b, ms[i], ms[j], true) || LegalLink(b, ms[i], ms[j], false)
  {
    var loser := rows[uuids[ms[i].id]].next != Some(target);
    StoredLinksGoForward(rows, before, ms, b, uuids, i, loser);
    j :| 0 <= j < |ms| && target == uuids[ms[j].id] && Feeds(ms[i].id, loser, ms[j]);
  }

  lemma UuidsKnown(rows: map<nat, Row>, before: map<nat, Row>, ms: seq<Match>, b: Bounds, uuids: map<int, nat>)
    requires Stored(rows, before, ms, b, uuids, |ms|, |ms|)
    ensures forall k | 0 <= k < |ms| :: ms[k].id in uuids && uuids[ms[k].id] in rows
  {}

  /** A walk along rows, from a row of the import, is a walk along its matches. */
  lemma {:induction false} WalkOfRows(rows: map<nat, Row>, before: map<nat, Row>, ms: seq<Match>, b: Bounds,
                                      uuids: map<int, nat>, path: seq<nat>, start: nat)
    returns (matches: seq<Match>)
    requires LegalBracket(ms, b) && Stored(rows, before, ms, b, uuids, |ms|, |ms|)
    requires RowWalk(rows, path) && start < |ms| && path != [] && path[0] == uuids[ms[start].id]
    ensures |matches| == |path| && Walk(b, matches)
    ensures forall k | 0 <= k < |path| :: matches[k] in ms && path[k] == uuids[matches[k].id]
    decreases |path|
  {
    UuidsKnown(rows, before, ms, b, uuids);
    hide Stored, LegalLink, LegalBracket;
    if |path| == 1 {
      matches := [ms[start]];
    } else {
      var init, last := path[..|path| - 1], path[|path| - 1];
      var most := WalkOfRows(rows, before, ms, b, uuids, init, start);
      var from := most[|most| - 1];
      var i :| 0 <= i < |ms| && ms[i] == from;
      assert path[|path| - 2] == init[|init| - 1] == uuids[ms[i].id];
      var j := LinkOfRows(rows, before, ms, b, uuids, i, last);
      matches := most + [ms[j]];
    }
  }

  /** After a finished import, following next and loser-next links from any of its rows never meets a
      row twice, third-place matches included. */
  lemma StoredWalksNeverCycle(rows: map<nat, Row>, before: map<nat, Row>, ms: seq<Match>, b: Bounds,
                              uuids: map<int, nat>, path: seq<nat>, start: nat)
    requires LegalBracket(ms, b) && Stored(rows, before, ms, b, uuids, |ms|, |ms|)
    requires forall x, y | x in uuids && y in uuids && uuids[x] == uuids[y] :: x == y
    requires Distinct(ms)
    requires RowWalk(rows, path) && start < |ms| && path != [] && path[0] == uuids[ms[start].id]
    ensures forall i, j | 0 <= i < j < |path| :: path[i] != path[j]
    ensures |path| <= |ms|
  {
    var matches := WalkOfRows(rows, before, ms, b, uuids, path, start);
    WalksNeverCycle(ms, b, matches);
    forall i, j | 0 <= i < j < |path| ensures path[i] != path[j] {
      if matches[i].id == matches[j].id { SameIdSameMatch(ms, matches[i], matches[j]); }
    }
  }

  lemma SameIdSameMatch(ms: seq<Match>, m: Match, t: Match)
    requires Distinct(ms) && m in ms && t in ms && m.id == t.id
    ensures m == t
  {}
}
