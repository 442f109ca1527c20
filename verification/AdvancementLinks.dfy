/** Challonge tells each match where its players come from; Porjar wants each match to say where its
    winner and loser go.  This module turns the one relation into the other and stores the result. */
module AdvancementLinks {
  import opened Wrappers
  import opened RoundMapping
  import opened MatchDetails
  import opened Scores

  /** The match a player slot is filled from, and whether its loser or its winner fills it. */
  datatype Prereq = Prereq(matchId: int, loser: bool)

  datatype Match = Match(id: int, round: int, order: int, player1: Option<Prereq>, player2: Option<Prereq>,
                         details: Details)

  predicate Distinct(ms: seq<Match>) { forall i, j | 0 <= i < j < |ms| :: ms[i].id != ms[j].id }

  predicate HasId(ms: seq<Match>, id: int) { exists i | 0 <= i < |ms| :: ms[i].id == id }

  predicate Feeds(a: int, loser: bool, m: Match) {
    m.player1 == Some(Prereq(a, loser)) || m.player2 == Some(Prereq(a, loser))
  }

  /** The last match, in the order of the list, that the winner (or loser) of `a` feeds. */
  function LastTarget(ms: seq<Match>, a: int, loser: bool): Option<int> {
    if ms == [] then None
    else if Feeds(a, loser, ms[|ms| - 1]) then Some(ms[|ms| - 1].id)
    else LastTarget(ms[..|ms| - 1], a, loser)
  }

  // ---------------------------------------------------------------- links invert prerequisites

  /** Pairs (a, b) of listed matches where the winner (or loser) of a fills a slot of b. */
  function PrereqPairs(ms: seq<Match>, loser: bool): set<(int, int)> {
    set i, j | 0 <= i < |ms| && 0 <= j < |ms| && Feeds(ms[i].id, loser, ms[j]) :: (ms[i].id, ms[j].id)
  }

  function LinkPairs(ms: seq<Match>, loser: bool): set<(int, int)> {
    set i | 0 <= i < |ms| && LastTarget(ms, ms[i].id, loser).Some? ::
      (ms[i].id, LastTarget(ms, ms[i].id, loser).value)
  }

  /** No match sends its winner (or loser) to two matches. */
  predicate FeedsAtMostOne(ms: seq<Match>, loser: bool) {
    forall i, j, k | 0 <= i < |ms| && 0 <= j < |ms| && 0 <= k < |ms| ::
      Feeds(ms[i].id, loser, ms[j]) && Feeds(ms[i].id, loser, ms[k]) ==> ms[j].id == ms[k].id
  }

  lemma {:induction false} LastTargetFeeds(ms: seq<Match>, a: int, loser: bool)
    ensures match LastTarget(ms, a, loser)
            case Some(b) => exists j | 0 <= j < |ms| :: ms[j].id == b && Feeds(a, loser, ms[j])
            case None => forall j | 0 <= j < |ms| :: !Feeds(a, loser, ms[j])
  {
    if ms != [] {
      var last := ms[|ms| - 1];
      if Feeds(a, loser, last) {
        assert ms[|ms| - 1].id == last.id;
      } else {
        LastTargetFeeds(ms[..|ms| - 1], a, loser);
        if LastTarget(ms, a, loser).Some? {
          var init := ms[..|ms| - 1];
          var j :| 0 <= j < |init| && init[j].id == LastTarget(ms, a, loser).value && Feeds(a, loser, init[j]);
          assert ms[j] == init[j];
        } else {
          forall j | 0 <= j < |ms| ensures !Feeds(a, loser, ms[j]) {
            if j < |ms| - 1 { assert ms[j] == ms[..|ms| - 1][j]; }
          }
        }
      }
    }
  }

  /** The links are the inverse of the prerequisite relation exactly when no match feeds two others;
      otherwise a link is missing, but no link is ever invented. */
  lemma LinksInvertPrereqs(ms: seq<Match>, loser: bool)
    ensures LinkPairs(ms, loser) <= PrereqPairs(ms, loser)
    ensures LinkPairs(ms, loser) == PrereqPairs(ms, loser) <==> FeedsAtMostOne(ms, loser)
  {
    forall i | 0 <= i < |ms| ensures LastTarget(ms, ms[i].id, loser).Some? ==>
      (ms[i].id, LastTarget(ms, ms[i].id, loser).value) in PrereqPairs(ms, loser)
    {
      LastTargetFeeds(ms, ms[i].id, loser);
    }
    if FeedsAtMostOne(ms, loser) {
      forall i, j | 0 <= i < |ms| && 0 <= j < |ms| && Feeds(ms[i].id, loser, ms[j])
        ensures LastTarget(ms, ms[i].id, loser) == Some(ms[j].id)
      {
        LastTargetFeeds(ms, ms[i].id, loser);
      }
    } else {
      var i, j, k :| 0 <= i < |ms| && 0 <= j < |ms| && 0 <= k < |ms| &&
        Feeds(ms[i].id, loser, ms[j]) && Feeds(ms[i].id, loser, ms[k]) && ms[j].id != ms[k].id;
      assert (ms[i].id, ms[j].id) in PrereqPairs(ms, loser) && (ms[i].id, ms[k].id) in PrereqPairs(ms, loser);
    }
  }

  lemma SameMembers<T>(a: seq<T>, b: seq<T>)
    requires multiset(a) == multiset(b)
    ensures forall i | 0 <= i < |a| :: a[i] in b
  {
    forall i | 0 <= i < |a| ensures a[i] in b { assert a[i] in multiset(b); }
  }

  /** Then the order of the list does not matter either: the Go handler, which sorts by play order
      first, and the Python importer, which does not, build the same links. */
  lemma LinkOrderIrrelevant(ms: seq<Match>, other: seq<Match>, a: int, loser: bool)
    requires multiset(ms) == multiset(other) && FeedsAtMostOne(ms, loser) && HasId(ms, a)
    ensures LastTarget(ms, a, loser) == LastTarget(other, a, loser)
  {
    LastTargetFeeds(ms, a, loser);
    LastTargetFeeds(other, a, loser);
    SameMembers(ms, other);
    SameMembers(other, ms);
    var i :| 0 <= i < |ms| && ms[i].id == a;
  }

  // ---------------------------------------------------------------- building the links in place

  class BracketMatch {
    const id: nat              // a fresh UUID
    const round: int
    const number: int
    const position: Position
    const details: Details
    var next: Option<nat>
    var loserNext: Option<nat>

    constructor (id: nat, round: int, number: int, position: Position, details: Details)
      ensures this.id == id && this.round == round && this.number == number && this.position == position
      ensures this.details == details
      ensures next == None && loserNext == None
    {
      this.id, this.round, this.number, this.position, this.details := id, round, number, position, details;
      next, loserNext := None, None;
    }

    function Link(loser: bool): Option<nat>
      reads this
    {
      if loser then loserNext else next
    }

    function AsRow(): Row
      reads this
    {
      Row(round, number, position, details, next, loserNext)
    }

    method SetLink(loser: bool, target: nat)
      modifies this
      ensures Link(loser) == Some(target) && Link(!loser) == old(Link(!loser))
    {
      if loser { loserNext := Some(target); } else { next := Some(target); }
    }
  }

  /** One object per match, each with the UUID drawn for its match and the remapped round. */
  ghost predicate Built(ms: seq<Match>, b: Bounds, uuids: map<int, nat>, objects: seq<BracketMatch>)
  {
    && |objects| == |ms| && Distinct(ms)
    && (forall i | 0 <= i < |ms| :: ms[i].id in uuids)
    && (forall i, j | 0 <= i < |ms| && 0 <= j < |ms| && uuids[ms[i].id] == uuids[ms[j].id] :: i == j)
    && (forall i, j | 0 <= i < j < |ms| :: objects[i] != objects[j])
    && (forall i | 0 <= i < |ms| ::
         && objects[i].id == uuids[ms[i].id] && objects[i].number == ms[i].order
         && (objects[i].round, objects[i].position) == MapRound(b, ms[i].round) && objects[i].details == ms[i].details)
  }

  function LinkUuid(ms: seq<Match>, uuids: map<int, nat>, a: int, loser: bool): Option<nat>
    requires forall i | 0 <= i < |ms| :: ms[i].id in uuids
  {
    LastTargetFeeds(ms, a, loser);
    match LastTarget(ms, a, loser)
    case None => None
    case Some(b) => Some(uuids[b])
  }

  /** Point the object of slot's prerequisite match, if it is in the list, at the target. */
  method LinkSlot(slot: Option<Prereq>, ms: seq<Match>, b: Bounds, uuids: map<int, nat>, objects: seq<BracketMatch>,
                  byId: map<int, BracketMatch>, target: nat)
    requires Built(ms, b, uuids, objects)
    requires byId.Keys == uuids.Keys && forall i | 0 <= i < |ms| :: byId[ms[i].id] == objects[i]
    requires forall id | id in uuids :: HasId(ms, id)
    modifies objects
    ensures forall i, loser | 0 <= i < |ms| :: objects[i].Link(loser) ==
              if slot == Some(Prereq(ms[i].id, loser)) then Some(target) else old(objects[i].Link(loser))
  {
    if slot.Some? && slot.value.matchId in byId {
      var k :| 0 <= k < |ms| && ms[k].id == slot.value.matchId;
      byId[slot.value.matchId].SetLink(slot.value.loser, target);
    }
  }

  method BuildLinks(ms: seq<Match>, b: Bounds, uuids: map<int, nat>, objects: seq<BracketMatch>,
                    byId: map<int, BracketMatch>)
    requires Built(ms, b, uuids, objects)
    requires byId.Keys == uuids.Keys && forall i | 0 <= i < |ms| :: byId[ms[i].id] == objects[i]
    requires forall id | id in uuids :: HasId(ms, id)
    requires forall i, loser | 0 <= i < |objects| :: objects[i].Link(loser) == None
    modifies objects
    ensures Linked(ms, uuids, objects)
  {
    for n := 0 to |ms|
      invariant forall i, loser | 0 <= i < |ms| :: objects[i].Link(loser) == LinkUuid(ms[..n], uuids, ms[i].id, loser)
    {
      var m := ms[n];
      assert ms[..n + 1][..n] == ms[..n];
      LinkSlot(m.player1, ms, b, uuids, objects, byId, uuids[m.id]);
      LinkSlot(m.player2, ms, b, uuids, objects, byId, uuids[m.id]);
    }
    assert ms[..|ms|] == ms;
  }

  // ---------------------------------------------------------------- the two-pass insert

  datatype Row = Row(round: int, number: int, position: Position, details: Details,
                     next: Option<nat>, loserNext: Option<nat>)

  predicate KeysHold(rows: map<nat, Row>, r: Row) {
    && (r.next.Some? ==> r.next.value in rows)
    && (r.loserNext.Some? ==> r.loserNext.value in rows)
  }

  predicate Fits32(n: int) { -0x8000_0000 <= n < 0x8000_0000 }

  predicate Known(teams: set<nat>, team: Option<nat>) { team.Some? ==> team.value in teams }

  predicate TeamsKnown(teams: set<nat>, d: Details) {
    Known(teams, d.teamA) && Known(teams, d.teamB) && Known(teams, d.winner) && Known(teams, d.loser)
  }

  predicate ScoresFit(d: Details) { d.scores.Some? ==> Fits32(d.scores.value.0) && Fits32(d.scores.value.1) }

  /** What the columns of a row demand: teams of the teams table, and integers of 32 bits. */
  predicate ColumnsHold(teams: set<nat>, r: Row) {
    TeamsKnown(teams, r.details) && ScoresFit(r.details) && Fits32(r.round) && Fits32(r.number)
  }

  /** An update rewrites everything but the match's place in the bracket. */
  function Updated(stored: Row, r: Row): Row {
    stored.(details := r.details, next := r.next, loserNext := r.loserNext)
  }

  /** The bracket_matches table. The database itself rejects a duplicate ID, a dangling link, a team that
      is not in the teams table and a number beyond 32 bits. */
  class Table {
    const teams: set<nat>
    var rows: map<nat, Row>

    ghost predicate Valid()
      reads this
    {
      forall id | id in rows :: KeysHold(rows, rows[id]) && ColumnsHold(teams, rows[id])
    }

    method Create(id: nat, r: Row, up: bool) returns (ok: bool)
      requires Valid()
      modifies this
      ensures Valid()
      ensures ok <==> up && id !in old(rows) && KeysHold(old(rows)[id := r], r) && ColumnsHold(teams, r)
      ensures rows == if ok then old(rows)[id := r] else old(rows)
    {
      ok := up && id !in rows && KeysHold(rows[id := r], r) && ColumnsHold(teams, r);
      if ok { rows := rows[id := r]; }
    }

    /** Updating a row that is not there changes nothing and is no error, but its scores must fit. */
    method Update(id: nat, r: Row, up: bool) returns (ok: bool)
      requires Valid()
      modifies this
      ensures Valid()
      ensures ok <==>
                && up && ScoresFit(r.details)
                && (id in old(rows) ==> KeysHold(old(rows), r) && TeamsKnown(teams, r.details))
      ensures rows == if ok && id in old(rows)
                      then old(rows)[id := Updated(old(rows)[id], r)] else old(rows)
    {
      ok := up && ScoresFit(r.details) && (id in rows ==> KeysHold(rows, r) && TeamsKnown(teams, r.details));
      if ok && id in rows { rows := rows[id := Updated(rows[id], r)]; }
    }
  }

  function RowOf(ms: seq<Match>, b: Bounds, uuids: map<int, nat>, k: nat, linked: bool): Row
    requires k < |ms| && forall k | 0 <= k < |ms| :: ms[k].id in uuids
  {
    var (round, position) := MapRound(b, ms[k].round);
    Row(round, ms[k].order, position, ms[k].details,
        if linked then LinkUuid(ms, uuids, ms[k].id, false) else None,
        if linked then LinkUuid(ms, uuids, ms[k].id, true) else None)
  }

  /** Whether the database takes the match's row. */
  predicate Storable(teams: set<nat>, b: Bounds, m: Match) {
    TeamsKnown(teams, m.details) && ScoresFit(m.details) && Fits32(MapRound(b, m.round).0) && Fits32(m.order)
  }

  /** Whether match i can be created, and whether its links can be stored afterwards. */
  predicate Creatable(teams: set<nat>, b: Bounds, ms: seq<Match>, up: seq<bool>, i: nat)
    requires i < |ms| <= |up|
  {
    up[i] && Storable(teams, b, ms[i])
  }

  predicate Linkable(ms: seq<Match>, up: seq<bool>, i: nat)
    requires i < |ms| && |up| >= 2 * |ms|
  {
    HasLink(ms, i) ==> up[|ms| + i]
  }

  /** Both passes go through. */
  predicate Importable(teams: set<nat>, b: Bounds, ms: seq<Match>, up: seq<bool>)
    requires |up| >= 2 * |ms|
  {
    && (forall i | 0 <= i < |ms| :: Creatable(teams, b, ms, up, i))
    && (forall i | 0 <= i < |ms| :: Linkable(ms, up, i))
  }

  /** The passes stop at the first match that cannot be created or, if there is none, at the first whose
      links cannot be stored. */
  predicate StopsAt(teams: set<nat>, b: Bounds, ms: seq<Match>, up: seq<bool>, created: nat, linked: nat)
    requires |up| >= 2 * |ms|
  {
    && created <= |ms| && (forall i | 0 <= i < created :: Creatable(teams, b, ms, up, i))
    && if created < |ms| then linked == 0 && !Creatable(teams, b, ms, up, created)
       else linked < |ms| && !Linkable(ms, up, linked) && forall i | 0 <= i < linked :: Linkable(ms, up, i)
  }

  predicate HasLink(ms: seq<Match>, k: nat)
    requires k < |ms|
  {
    LastTarget(ms, ms[k].id, false).Some? || LastTarget(ms, ms[k].id, true).Some?
  }

  /** The rows there were before, untouched, and one row for each of the first `created` matches,
      carrying its links if it is among the first `linked`. */
  ghost predicate Stored(rows: map<nat, Row>, before: map<nat, Row>, ms: seq<Match>, b: Bounds, uuids: map<int, nat>,
                         created: nat, linked: nat)
  {
    && created <= |ms| && (forall k | 0 <= k < |ms| :: ms[k].id in uuids)
    && (forall id | id in before :: id in rows && rows[id] == before[id])
    && (forall k | 0 <= k < created ::
         uuids[ms[k].id] in rows && rows[uuids[ms[k].id]] == RowOf(ms, b, uuids, k, k < linked))
    && (forall id | id in rows :: id in before || exists k | 0 <= k < created :: id == uuids[ms[k].id])
  }

  ghost predicate Linked(ms: seq<Match>, uuids: map<int, nat>, objects: seq<BracketMatch>)
    requires |objects| == |ms| && forall i | 0 <= i < |ms| :: ms[i].id in uuids
    reads objects
  {
    forall i, loser | 0 <= i < |ms| :: objects[i].Link(loser) == LinkUuid(ms, uuids, ms[i].id, loser)
  }

  lemma LinkedAt(ms: seq<Match>, uuids: map<int, nat>, objects: seq<BracketMatch>, i: nat)
    requires |objects| == |ms| && (forall i | 0 <= i < |ms| :: ms[i].id in uuids) && i < |ms|
    requires Linked(ms, uuids, objects)
    ensures objects[i].next == LinkUuid(ms, uuids, ms[i].id, false)
    ensures objects[i].loserNext == LinkUuid(ms, uuids, ms[i].id, true)
  {
    assert objects[i].Link(false) == LinkUuid(ms, uuids, ms[i].id, false);
    assert objects[i].Link(true) == LinkUuid(ms, uuids, ms[i].id, true);
  }

  /** Pass 1: every match without its links. */
  method CreateAll(ms: seq<Match>, b: Bounds, uuids: map<int, nat>, objects: seq<BracketMatch>, table: Table,
                   up: seq<bool>)
    returns (ok: bool)
    requires Built(ms, b, uuids, objects) && |up| >= 2 * |ms| && Linked(ms, uuids, objects)
    requires table.Valid() && forall i | 0 <= i < |ms| :: uuids[ms[i].id] !in table.rows
    modifies table, objects
    ensures table.Valid()
    ensures ok <==> forall i | 0 <= i < |ms| :: Creatable(table.teams, b, ms, up, i)
    ensures ok ==> Linked(ms, uuids, objects) && Stored(table.rows, old(table.rows), ms, b, uuids, |ms|, 0)
    ensures !ok ==> exists created: nat :: created < |ms| && StopsAt(table.teams, b, ms, up, created, 0)
                                      && Stored(table.rows, old(table.rows), ms, b, uuids, created, 0)
  {
    hide MapRound, ColumnsHold, Storable, LinkUuid;
    for i := 0 to |ms|
      invariant table.Valid() && Linked(ms, uuids, objects)
      invariant Stored(table.rows, old(table.rows), ms, b, uuids, i, 0)
      invariant forall k | 0 <= k < i :: Creatable(table.teams, b, ms, up, k)
    {
      LinkedAt(ms, uuids, objects, i);
      ghost var rows := table.rows;
      var bm := objects[i];
      var savedNext, savedLoserNext := bm.next, bm.loserNext;
      bm.next, bm.loserNext := None, None;
      assert bm.AsRow() == RowOf(ms, b, uuids, i, false);
      ColumnsOf(table.teams, ms, b, uuids, i);
      var created := table.Create(bm.id, bm.AsRow(), up[i]);
      if !created {
        assert StopsAt(table.teams, b, ms, up, i, 0) && Stored(table.rows, old(table.rows), ms, b, uuids, i, 0);
        return false;
      }
      bm.next, bm.loserNext := savedNext, savedLoserNext;
      assert Linked(ms, uuids, objects) by {
        forall k, loser | 0 <= k < |ms| ensures objects[k].Link(loser) == LinkUuid(ms, uuids, ms[k].id, loser) {}
      }
      CreatedOne(rows, old(table.rows), ms, b, uuids, i);
    }
    ok := true;
  }

  lemma ColumnsOf(teams: set<nat>, ms: seq<Match>, b: Bounds, uuids: map<int, nat>, i: nat)
    requires i < |ms| && forall k | 0 <= k < |ms| :: ms[k].id in uuids
    ensures ColumnsHold(teams, RowOf(ms, b, uuids, i, false)) <==> Storable(teams, b, ms[i])
  {}

  lemma CreatedOne(rows: map<nat, Row>, before: map<nat, Row>, ms: seq<Match>, b: Bounds, uuids: map<int, nat>, i: nat)
    requires Stored(rows, before, ms, b, uuids, i, 0) && i < |ms| && uuids[ms[i].id] !in before
    requires forall k | 0 <= k < i :: uuids[ms[k].id] != uuids[ms[i].id]
    ensures Stored(rows[uuids[ms[i].id] := RowOf(ms, b, uuids, i, false)], before, ms, b, uuids, i + 1, 0)
  {}

  /** Pass 2: the links of the matches that have any. */
  method LinkAll(ms: seq<Match>, b: Bounds, uuids: map<int, nat>, objects: seq<BracketMatch>, table: Table,
                 up: seq<bool>, ghost before: map<nat, Row>)
    returns (ok: bool)
    requires Built(ms, b, uuids, objects) && |up| >= 2 * |ms| && Linked(ms, uuids, objects)
    requires table.Valid() && Stored(table.rows, before, ms, b, uuids, |ms|, 0)
    requires forall i | 0 <= i < |ms| :: uuids[ms[i].id] !in before
    requires forall i | 0 <= i < |ms| :: Creatable(table.teams, b, ms, up, i)
    modifies table
    ensures table.Valid()
    ensures ok <==> forall i | 0 <= i < |ms| :: Linkable(ms, up, i)
    ensures ok ==> Stored(table.rows, before, ms, b, uuids, |ms|, |ms|)
    ensures !ok ==> exists linked: nat :: StopsAt(table.teams, b, ms, up, |ms|, linked)
                                     && Stored(table.rows, before, ms, b, uuids, |ms|, linked)
  {
    hide Stored, Linked, LinkUuid, HasLink, Storable, TeamsKnown, ScoresFit;
    for i := 0 to |ms|
      invariant table.Valid()
      invariant Stored(table.rows, before, ms, b, uuids, |ms|, i)
      invariant forall k | 0 <= k < i :: Linkable(ms, up, k)
    {
      LinkedAt(ms, uuids, objects, i);
      LinkedOne(table.rows, before, ms, b, uuids, i);
      var bm := objects[i];
      if bm.next.Some? || bm.loserNext.Some? {
        LinkTargetsStored(table.rows, before, ms, b, uuids, i, i);
        assert HasLink(ms, i);
        StorableDetails(table.teams, b, ms, up, i);
        var updated := table.Update(bm.id, bm.AsRow(), up[|ms| + i]);
        if !updated {
          assert StopsAt(table.teams, b, ms, up, |ms|, i) && Stored(table.rows, before, ms, b, uuids, |ms|, i);
          return false;
        }
      }
    }
    ok := true;
  }

  lemma StorableDetails(teams: set<nat>, b: Bounds, ms: seq<Match>, up: seq<bool>, i: nat)
    requires i < |ms| <= |up| && Creatable(teams, b, ms, up, i)
    ensures TeamsKnown(teams, ms[i].details) && ScoresFit(ms[i].details)
  {}

  lemma LinkedOne(rows: map<nat, Row>, before: map<nat, Row>, ms: seq<Match>, b: Bounds, uuids: map<int, nat>, i: nat)
    requires Stored(rows, before, ms, b, uuids, |ms|, i) && i < |ms| && uuids[ms[i].id] !in before
    requires forall k | 0 <= k < |ms| && k != i :: uuids[ms[k].id] != uuids[ms[i].id]
    ensures Stored(rows[uuids[ms[i].id] := RowOf(ms, b, uuids, i, true)], before, ms, b, uuids, |ms|, i + 1)
    ensures !HasLink(ms, i) ==> Stored(rows, before, ms, b, uuids, |ms|, i + 1)
    ensures var id, linked := uuids[ms[i].id], RowOf(ms, b, uuids, i, true);
            id in rows && Updated(rows[id], linked) == linked
    ensures HasLink(ms, i) <==> LinkUuid(ms, uuids, ms[i].id, false).Some? || LinkUuid(ms, uuids, ms[i].id, true).Some?
  {}

  /** Create every match without links, then give those that have links theirs. Links are never refused:
      what stops the import is an outage (`up` says for each call whether the database can be reached)
      or a match whose teams or numbers the database does not take, and whatever prefix was stored
      keeps every link pointing at a stored row. */
  method TwoPassInsert(ms: seq<Match>, b: Bounds, uuids: map<int, nat>, objects: seq<BracketMatch>, table: Table,
                       up: seq<bool>)
    returns (ok: bool)
    requires Built(ms, b, uuids, objects) && |up| == 2 * |ms| && Linked(ms, uuids, objects)
    requires table.Valid() && forall i | 0 <= i < |ms| :: uuids[ms[i].id] !in table.rows
    modifies table, objects
    ensures table.Valid()
    ensures ok <==> Importable(table.teams, b, ms, up)
    ensures ok ==> Stored(table.rows, old(table.rows), ms, b, uuids, |ms|, |ms|)
    ensures !ok ==> exists created: nat, linked: nat :: StopsAt(table.teams, b, ms, up, created, linked)
                                              && Stored(table.rows, old(table.rows), ms, b, uuids, created, linked)
  {
    ok := CreateAll(ms, b, uuids, objects, table, up);
    if ok {
      ok := LinkAll(ms, b, uuids, objects, table, up, old(table.rows));
    }
  }

  lemma LinkTargetsStored(rows: map<nat, Row>, before: map<nat, Row>, ms: seq<Match>, b: Bounds, uuids: map<int, nat>,
                          linked: nat, i: nat)
    requires Stored(rows, before, ms, b, uuids, |ms|, linked) && i < |ms|
    ensures KeysHold(rows, RowOf(ms, b, uuids, i, true))
  {
    LastTargetFeeds(ms, ms[i].id, false);
    LastTargetFeeds(ms, ms[i].id, true);
  }

  /** A match as Challonge reports it. */
  datatype Fetched = Fetched(id: int, round: int, order: int, player1: Option<Prereq>, player2: Option<Prereq>,
                             result: Result)

  function Described(f: Fetched, teams: map<int, nat>): Match {
    Match(f.id, f.round, f.order, f.player1, f.player2, GoDetails(f.result, teams))
  }

  function AllDescribed(fetched: seq<Fetched>, teams: map<int, nat>): seq<Match> {
    seq(|fetched|, i requires 0 <= i < |fetched| => Described(fetched[i], teams))
  }

  /** A match that the database refuses although it can be reached, said of the input: a player, or of a
      complete match the winner or the loser, is matched to a team there is not, or the remapped round,
      the play order or a parsed score is beyond 32 bits. Neither is checked before the import starts. */
  lemma StorableIff(f: Fetched, teams: map<int, nat>, known: set<nat>, b: Bounds)
    ensures var r := f.result;
            Storable(known, b, Described(f, teams)) <==>
              && Known(known, TeamOf(r.player1, teams)) && Known(known, TeamOf(r.player2, teams))
              && (r.state.Complete? ==>
                   && Known(known, TeamOf(r.winner, teams)) && Known(known, TeamOf(r.loser, teams))
                   && -0x8000_0000 <= GoScores(r.scores).0 <= 0x7fff_ffff
                   && -0x8000_0000 <= GoScores(r.scores).1 <= 0x7fff_ffff)
              && -0x8000_0000 <= MapRound(b, f.round).0 <= 0x7fff_ffff
              && -0x8000_0000 <= f.order <= 0x7fff_ffff
  {
    hide GoScores, MapRound;
  }

  /** So one player matched to an unknown team stops the import at that match, after every match before
      it has been stored without links. */
  lemma UnknownTeamStopsTheImport(fetched: seq<Fetched>, teams: map<int, nat>, known: set<nat>, b: Bounds,
                                  up: seq<bool>, i: nat, p: int)
    requires i < |fetched| && |up| == 2 * |fetched| && p in teams && teams[p] !in known
    requires fetched[i].result.player1 == Some(p) || fetched[i].result.player2 == Some(p)
    requires forall k | 0 <= k < i :: Creatable(known, b, AllDescribed(fetched, teams), up, k)
    ensures StopsAt(known, b, AllDescribed(fetched, teams), up, i, 0)
    ensures !Importable(known, b, AllDescribed(fetched, teams), up)
    ensures forall created: nat, linked: nat | StopsAt(known, b, AllDescribed(fetched, teams), up, created, linked) ::
              created == i && linked == 0
  {
    StorableIff(fetched[i], teams, known, b);
    assert !Creatable(known, b, AllDescribed(fetched, teams), up, i);
  }

  /** And so does a complete match with a printed score beyond 32 bits. */
  lemma LargeScoreIsRefused(f: Fetched, teams: map<int, nat>, known: set<nat>, b: Bounds, g: Game)
    requires f.result.state.Complete? && f.result.scores == PrintGame(g)
    requires g.0 > 0x7fff_ffff || g.1 > 0x7fff_ffff
    ensures !Storable(known, b, Described(f, teams))
  {
    StorableIff(f, teams, known, b);
    GamePieces(g);
    hide Trim, Split, PrintGame;
  }

  /** The import from the fetched matches, given the teams of the matched participants, to the stored
      rows: on success one row per match with its round, position, details and both links. */
  method ImportBracket(fetched: seq<Fetched>, teams: map<int, nat>, uuids: map<int, nat>, table: Table, up: seq<bool>)
    returns (ok: bool, b: Bounds)
    requires Distinct(AllDescribed(fetched, teams)) && |up| == 2 * |fetched|
    requires uuids.Keys == set i | 0 <= i < |fetched| :: fetched[i].id
    requires forall x, y | x in uuids && y in uuids && uuids[x] == uuids[y] :: x == y
    requires table.Valid() && forall x | x in uuids :: uuids[x] !in table.rows
    modifies table
    ensures table.Valid() && BoundsOf(seq(|fetched|, i requires 0 <= i < |fetched| => fetched[i].round), b)
    ensures var ms := AllDescribed(fetched, teams);
            && (ok <==> Importable(table.teams, b, ms, up))
            && (ok ==> Stored(table.rows, old(table.rows), ms, b, uuids, |ms|, |ms|))
            && (!ok ==> exists created: nat, linked: nat :: StopsAt(table.teams, b, ms, up, created, linked)
                                                  && Stored(table.rows, old(table.rows), ms, b, uuids, created, linked))
  {
    hide GoDetails, Stored, Importable, StopsAt, BoundsOf;
    var ms: seq<Match> := [];
    for i := 0 to |fetched|
      invariant |ms| == i && forall k | 0 <= k < i :: ms[k] == Described(fetched[k], teams)
      invariant table.rows == old(table.rows)
    {
      var details := Describe(fetched[i].result, teams);
      var f := fetched[i];
      ms := ms + [Match(f.id, f.round, f.order, f.player1, f.player2, details)];
    }
    assert ms == AllDescribed(fetched, teams);
    assert seq(|ms|, i requires 0 <= i < |ms| => ms[i].round)
        == seq(|fetched|, i requires 0 <= i < |fetched| => fetched[i].round);
    assert forall i | 0 <= i < |ms| :: ms[i].id == fetched[i].id;
    assert uuids.Keys == set i | 0 <= i < |ms| :: ms[i].id;
    ok, b := StoreBracket(ms, uuids, table, up);
  }

  /** The part of it after the details. */
  method StoreBracket(ms: seq<Match>, uuids: map<int, nat>, table: Table, up: seq<bool>) returns (ok: bool, b: Bounds)
    requires Distinct(ms) && |up| == 2 * |ms|
    requires uuids.Keys == set i | 0 <= i < |ms| :: ms[i].id
    requires forall x, y | x in uuids && y in uuids && uuids[x] == uuids[y] :: x == y
    requires table.Valid() && forall x | x in uuids :: uuids[x] !in table.rows
    modifies table
    ensures table.Valid() && BoundsOf(seq(|ms|, i requires 0 <= i < |ms| => ms[i].round), b)
    ensures ok <==> Importable(table.teams, b, ms, up)
    ensures ok ==> Stored(table.rows, old(table.rows), ms, b, uuids, |ms|, |ms|)
    ensures !ok ==> exists created: nat, linked: nat :: StopsAt(table.teams, b, ms, up, created, linked)
                                              && Stored(table.rows, old(table.rows), ms, b, uuids, created, linked)
  {
    b := FindBounds(seq(|ms|, i requires 0 <= i < |ms| => ms[i].round));
    var objects, byId := MakeObjects(ms, b, uuids);
    forall id | id in uuids ensures HasId(ms, id) {
      var i :| 0 <= i < |ms| && ms[i].id == id;
    }
    BuildLinks(ms, b, uuids, objects, byId);
    ok := TwoPassInsert(ms, b, uuids, objects, table, up);
  }

  /** A bracket match without links for each fetched match. */
  method MakeObjects(ms: seq<Match>, b: Bounds, uuids: map<int, nat>)
    returns (objects: seq<BracketMatch>, byId: map<int, BracketMatch>)
    requires forall i | 0 <= i < |ms| :: ms[i].id in uuids
    requires Distinct(ms)
    ensures |objects| == |ms| && fresh(objects) && byId.Keys == set k | 0 <= k < |ms| :: ms[k].id
    ensures forall k | 0 <= k < |ms| :: byId[ms[k].id] == objects[k]
    ensures forall k, l | 0 <= k < l < |ms| :: objects[k] != objects[l]
    ensures forall k | 0 <= k < |ms| ::
              && objects[k].id == uuids[ms[k].id] && objects[k].number == ms[k].order
              && (objects[k].round, objects[k].position) == MapRound(b, ms[k].round)
              && objects[k].details == ms[k].details
              && objects[k].next == objects[k].loserNext == None
  {
    objects, byId := [], map[];
    for i := 0 to |ms|
      invariant |objects| == i && fresh(objects) && byId.Keys == set k | 0 <= k < i :: ms[k].id
      invariant forall k | 0 <= k < i :: byId[ms[k].id] == objects[k]
      invariant forall k, l | 0 <= k < l < i :: objects[k] != objects[l]
      invariant forall k | 0 <= k < i ::
                  && objects[k].id == uuids[ms[k].id] && objects[k].number == ms[k].order
                  && (objects[k].round, objects[k].position) == MapRound(b, ms[k].round)
                  && objects[k].details == ms[k].details
                  && objects[k].next == objects[k].loserNext == None
    {
      var (round, position) := MapRound(b, ms[i].round);
      var bm := new BracketMatch(uuids[ms[i].id], round, ms[i].order, position, ms[i].details);
      objects, byId := objects + [bm], byId[ms[i].id := bm];
    }
  }
}
