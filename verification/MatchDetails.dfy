/** What an imported match says besides its place in the bracket: teams, result, scores and status, as
    the Go handler and the Python importer write them. */
module MatchDetails {
  import opened Wrappers
  import opened Scores

  datatype State = Open | Complete | OtherState

  /** Challonge's side: participant IDs, some of which have been matched to teams. */
  datatype Result = Result(player1: Option<int>, player2: Option<int>, winner: Option<int>, loser: Option<int>,
                           state: State, scores: string)

  datatype Status = Pending | Scheduled | Completed | Bye

  datatype Details = Details(teamA: Option<nat>, teamB: Option<nat>, winner: Option<nat>, loser: Option<nat>,
                             scores: Option<(int, int)>, status: Status, completedAt: bool)

  function TeamOf(player: Option<int>, teams: map<int, nat>): Option<nat> {
    if player.Some? && player.value in teams then Some(teams[player.value]) else None
  }

  predicate ExactlyOne(a: Option<nat>, b: Option<nat>) { a.Some? != b.Some? }

  predicate NobodyPlays(r: Result, a: Option<nat>, b: Option<nat>) {
    a.None? && b.None? && r.player1.None? && r.player2.None?
  }

  function GoStatus(r: Result, a: Option<nat>, b: Option<nat>): Status {
    if r.state.Complete? then
      if ExactlyOne(a, b) || NobodyPlays(r, a, b) then Bye else Completed
    else if r.state.Open? && a.Some? && b.Some? then Scheduled
    else Pending
  }

  function GoDetails(r: Result, teams: map<int, nat>): Details {
    var a, b, over := TeamOf(r.player1, teams), TeamOf(r.player2, teams), r.state.Complete?;
    Details(a, b, if over then TeamOf(r.winner, teams) else None, if over then TeamOf(r.loser, teams) else None,
            if over then Some(GoScores(r.scores)) else None, GoStatus(r, a, b), GoStatus(r, a, b).Completed?)
  }

  /** Python counts a match without players as completed, and notes a time for byes too. */
  function PyDetails(r: Result, teams: map<int, nat>): Details {
    var a, b, over := TeamOf(r.player1, teams), TeamOf(r.player2, teams), r.state.Complete?;
    Details(a, b, if over then TeamOf(r.winner, teams) else None, if over then TeamOf(r.loser, teams) else None,
            if over then Some(PyScores(r.scores)) else None,
            if over then (if ExactlyOne(a, b) then Bye else Completed)
            else if r.state.Open? && a.Some? && b.Some? then Scheduled else Pending,
            over)
  }

  method Describe(r: Result, teams: map<int, nat>) returns (d: Details)
    ensures d == GoDetails(r, teams)
  {
    hide GoScores;
    var teamA: Option<nat>, teamB: Option<nat>, winner: Option<nat>, loser: Option<nat> := None, None, None, None;
    if r.player1.Some? && r.player1.value in teams { teamA := Some(teams[r.player1.value]); }
    if r.player2.Some? && r.player2.value in teams { teamB := Some(teams[r.player2.value]); }
    var scores: Option<(int, int)>, status := None, Pending;
    match r.state {
    case Complete =>
      status := Completed;
      var a, b := ParseScoresCSV(r.scores);
      scores := Some((a, b));
      if r.winner.Some? && r.winner.value in teams { winner := Some(teams[r.winner.value]); }
      if r.loser.Some? && r.loser.value in teams { loser := Some(teams[r.loser.value]); }
    case Open =>
      if teamA.Some? && teamB.Some? { status := Scheduled; }
    case OtherState =>
    }
    if r.state.Complete? && ((teamA.Some? && teamB.None?) || (teamA.None? && teamB.Some?)) { status := Bye; }
    if r.state.Complete? && teamA.None? && teamB.None? && r.player1.None? && r.player2.None? { status := Bye; }
    d := Details(teamA, teamB, winner, loser, scores, status, status.Completed?);
  }

  /** What a row says, field by field, of the input: a team where the participant is matched; results and
      scores for complete matches only; and the status. */
  lemma DetailsMean(r: Result, teams: map<int, nat>)
    ensures var d := GoDetails(r, teams);
            var a := r.player1.Some? && r.player1.value in teams; var b := r.player2.Some? && r.player2.value in teams;
            && d.teamA == (if a then Some(teams[r.player1.value]) else None)
            && d.teamB == (if b then Some(teams[r.player2.value]) else None)
            && d.winner == (if r.state.Complete? && r.winner.Some? && r.winner.value in teams
                            then Some(teams[r.winner.value]) else None)
            && d.loser == (if r.state.Complete? && r.loser.Some? && r.loser.value in teams
                           then Some(teams[r.loser.value]) else None)
            && d.scores == (if r.state.Complete? then Some(GoScores(r.scores)) else None)
            && (d.status.Bye? <==> r.state.Complete? && (a != b || (r.player1.None? && r.player2.None?)))
            && (d.status.Completed? <==> r.state.Complete? && a == b && (r.player1.Some? || r.player2.Some?))
            && (d.status.Scheduled? <==> r.state.Open? && a && b)
            && (d.status.Pending? <==> r.state.OtherState? || (r.state.Open? && !(a && b)))
            && (d.completedAt <==> d.status.Completed?)
  {
    hide GoScores;
  }

  /** And what the Python importer's rows say. */
  lemma PyDetailsMean(r: Result, teams: map<int, nat>)
    ensures var d, e := PyDetails(r, teams), GoDetails(r, teams);
            var a := r.player1.Some? && r.player1.value in teams; var b := r.player2.Some? && r.player2.value in teams;
            && d.teamA == e.teamA && d.teamB == e.teamB && d.winner == e.winner && d.loser == e.loser
            && d.scores == (if r.state.Complete? then Some(PyScores(r.scores)) else None)
            && (d.status.Bye? <==> r.state.Complete? && a != b)
            && (d.status.Completed? <==> r.state.Complete? && a == b)
            && (d.status.Scheduled? <==> r.state.Open? && a && b)
            && (d.completedAt <==> r.state.Complete?)
  {
    hide GoScores, PyScores;
  }

  /** The importers write the same unless the match is complete and has exactly one team, or neither
      teams nor players, or a score string the two parsers read differently. */
  lemma ImportersWriteTheSame(r: Result, teams: map<int, nat>)
    ensures GoDetails(r, teams) == PyDetails(r, teams) <==>
              var a, b := TeamOf(r.player1, teams), TeamOf(r.player2, teams);
              !r.state.Complete? ||
                (!ExactlyOne(a, b) && !NobodyPlays(r, a, b) && GoScores(r.scores) == PyScores(r.scores))
  {
    hide GoScores, PyScores;
  }

  /** Under an injective matching, a match between different participants is not stored with the same
      team twice; a winner or loser who is one of the players is stored as that player's team; and a
      result is stored exactly for complete matches. */
  lemma DetailsAreConsistent(r: Result, teams: map<int, nat>)
    requires forall p, q | p in teams && q in teams && teams[p] == teams[q] :: p == q
    ensures var d := GoDetails(r, teams);
            && (r.player1 != r.player2 && d.teamA.Some? ==> d.teamA != d.teamB)
            && (r.state.Complete? && r.winner == r.player1 ==> d.winner == d.teamA)
            && (r.state.Complete? && r.winner == r.player2 ==> d.winner == d.teamB)
            && (r.state.Complete? && r.loser == r.player1 ==> d.loser == d.teamA)
            && (r.state.Complete? && r.loser == r.player2 ==> d.loser == d.teamB)
            && (r.winner != r.loser && d.winner.Some? ==> d.winner != d.loser)
            && (d.scores.Some? <==> r.state.Complete?) && (d.status.Completed? ==> d.scores.Some?)
  {
    hide GoScores;
    TeamsDiffer(r.player1, r.player2, teams);
    TeamsDiffer(r.winner, r.loser, teams);
  }

  lemma TeamsDiffer(p: Option<int>, q: Option<int>, teams: map<int, nat>)
    requires forall p, q | p in teams && q in teams && teams[p] == teams[q] :: p == q
    ensures p != q && TeamOf(p, teams).Some? ==> TeamOf(p, teams) != TeamOf(q, teams)
  {
    if TeamOf(p, teams).Some? && TeamOf(q, teams).Some? {
      assert teams[p.value] == teams[q.value] ==> p.value == q.value;
    }
  }
}
