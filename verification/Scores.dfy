/** Challonge score strings, "2-1" or "1-0,0-1,1-0", read by the Go handler and the Python importer. */
module Scores {
  import opened Wrappers
  import opened Decimal

  const MAX_INT64 := 0x7fff_ffff_ffff_ffff

  // ---------------------------------------------------------------- the string operations both use

  predicate IsSpace(c: char) { c in {' ', '\t', '\n', '\r', 11 as char, 12 as char} }

  function TrimLeft(s: string): string { if s != "" && IsSpace(s[0]) then TrimLeft(s[1..]) else s }

  function TrimRight(s: string): string {
    if s != "" && IsSpace(s[|s| - 1]) then TrimRight(s[..|s| - 1]) else s
  }

  function Trim(s: string): string { TrimRight(TrimLeft(s)) }

  function Index(s: string, c: char): (i: nat)
    requires c in s
    ensures i < |s| && s[i] == c && c !in s[..i]
  {
    if s[0] == c then 0 else
      var i := Index(s[1..], c);
      assert s[..i + 1] == [s[0]] + s[1..][..i];
      i + 1
  }

  /** The pieces between separators; always at least one. */
  function Split(s: string, c: char): seq<string> {
    if c !in s then [s] else [s[..Index(s, c)]] + Split(s[Index(s, c) + 1..], c)
  }

  // ---------------------------------------------------------------- reading an integer

  function Unsigned(s: string): string { if s != "" && s[0] in {'+', '-'} then s[1..] else s }

  function Signed(s: string): int
    requires IsDigits(Unsigned(s))
  {
    var v: int := Value(Unsigned(s));
    if s[0] == '-' then -v else v
  }

  function Clamp(n: int): int {
    if n > MAX_INT64 then MAX_INT64 else if n < -MAX_INT64 - 1 then -MAX_INT64 - 1 else n
  }

  /** strconv.Atoi with its error dropped: 0 for what is no number, the nearest bound out of range. */
  function GoInt(s: string): int { if IsDigits(Unsigned(s)) then Clamp(Signed(s)) else 0 }

  /** int(): any size, and an exception for what is no number. */
  function PyInt(s: string): Option<int> { if IsDigits(Unsigned(s)) then Some(Signed(s)) else None }

  // ---------------------------------------------------------------- the Go parser

  function GoPair(parts: seq<string>): (int, int)
    requires |parts| == 2
  {
    (GoInt(Trim(parts[0])), GoInt(Trim(parts[1])))
  }

  /** Wins per side over the first n games; a game that is not of the form x-y counts for nobody. */
  function GoWins(games: seq<string>, n: nat): (int, int)
    requires n <= |games|
  {
    if n == 0 then (0, 0)
    else
      var (a, b) := GoWins(games, n - 1);
      var parts := Split(Trim(games[n - 1]), '-');
      if |parts| != 2 then (a, b)
      else
        var (x, y) := GoPair(parts);
        (if x > y then a + 1 else a, if y > x then b + 1 else b)
  }

  function GoScores(csv: string): (int, int) {
    var s := Trim(csv);
    if s == "" then (0, 0)
    else if ',' in s then GoWins(Split(s, ','), |Split(s, ',')|)
    else if |Split(s, '-')| != 2 then (0, 0)
    else GoPair(Split(s, '-'))
  }

  method ParseScoresCSV(csv: string) returns (scoreA: int, scoreB: int)
    ensures (scoreA, scoreB) == GoScores(csv)
  {
    hide Split, Trim, GoInt;
    var s := Trim(csv);
    if s == "" {
      return 0, 0;
    }
    scoreA, scoreB := 0, 0;
    if ',' in s {
      var games := Split(s, ',');
      for i := 0 to |games|
        invariant (scoreA, scoreB) == GoWins(games, i)
      {
        var parts := Split(Trim(games[i]), '-');
        if |parts| == 2 {
          var a, b := GoInt(Trim(parts[0])), GoInt(Trim(parts[1]));
          if a > b { scoreA := scoreA + 1; } else if b > a { scoreB := scoreB + 1; }
        }
      }
      return;
    }
    var parts := Split(s, '-');
    if |parts| != 2 {
      return 0, 0;
    }
    scoreA, scoreB := GoInt(Trim(parts[0])), GoInt(Trim(parts[1]));
  }

  // ---------------------------------------------------------------- the Python parser

  function PyPair(parts: seq<string>): Option<(int, int)>
    requires |parts| == 2
  {
    match (PyInt(Trim(parts[0])), PyInt(Trim(parts[1])))
    case (Some(a), Some(b)) => Some((a, b))
    case _ => None
  }

  function PyWins(games: seq<string>, n: nat): (int, int)
    requires n <= |games|
  {
    if n == 0 then (0, 0)
    else
      var (a, b) := PyWins(games, n - 1);
      var parts := Split(Trim(games[n - 1]), '-');
      if |parts| != 2 then (a, b)
      else match PyPair(parts)
        case None => (a, b)
        case Some((x, y)) => (if x > y then a + 1 else a, if y > x then b + 1 else b)
  }

  function PyScores(csv: string): (int, int) {
    var s := Trim(csv);
    if s == "" then (0, 0)
    else if ',' in s then PyWins(Split(s, ','), |Split(s, ',')|)
    else if |Split(s, '-')| != 2 then (0, 0)
    else match PyPair(Split(s, '-'))
      case None => (0, 0)
      case Some(pair) => pair
  }

  // ---------------------------------------------------------------- printing, Challonge's side

  type Game = (nat, nat)

  function PrintGame(g: Game): string { Print(g.0) + "-" + Print(g.1) }

  function PrintGames(games: seq<Game>): string
    requires games != []
  {
    if |games| == 1 then PrintGame(games[0]) else PrintGame(games[0]) + "," + PrintGames(games[1..])
  }

  function WonByA(games: seq<Game>): nat {
    if games == [] then 0
    else WonByA(games[..|games| - 1]) + if games[|games| - 1].0 > games[|games| - 1].1 then 1 else 0
  }

  function WonByB(games: seq<Game>): nat {
    if games == [] then 0
    else WonByB(games[..|games| - 1]) + if games[|games| - 1].1 > games[|games| - 1].0 then 1 else 0
  }

  function Swapped(games: seq<Game>): seq<Game> {
    seq(|games|, i requires 0 <= i < |games| => (games[i].1, games[i].0))
  }

  predicate FitsInt64(g: Game) { g.0 <= MAX_INT64 && g.1 <= MAX_INT64 }

  // ---------------------------------------------------------------- parsing inverts printing

  lemma {:induction false} TrimIdle(s: string)
    requires s == "" || (!IsSpace(s[0]) && !IsSpace(s[|s| - 1]))
    ensures Trim(s) == s
  {}

  lemma SplitAtFirst(a: string, c: char, b: string)
    requires c !in a
    ensures Split(a + [c] + b, c) == [a] + Split(b, c)
  {
    var s := a + [c] + b;
    assert s[|a|] == c;
    var i := Index(s, c);
    assert forall k | 0 <= k < |a| :: s[k] == a[k];
    assert forall k | 0 <= k < i :: s[k] == s[..i][k];
    assert s[..i] == a && s[i + 1..] == b;
  }

  lemma GamePieces(g: Game)
    ensures var s := PrintGame(g);
            && Trim(s) == s && s != "" && ',' !in s && Split(s, '-') == [Print(g.0), Print(g.1)]
            && !IsSpace(s[0]) && !IsSpace(s[|s| - 1])
    ensures PyPair([Print(g.0), Print(g.1)]) == Some((g.0 as int, g.1 as int))
    ensures GoPair([Print(g.0), Print(g.1)]) == (Clamp(g.0), Clamp(g.1))
  {
    ValueOfPrint(g.0);
    ValueOfPrint(g.1);
    var a, b, s := Print(g.0), Print(g.1), PrintGame(g);
    assert '-' !in a && '-' !in b && ',' !in a && ',' !in b;
    assert s[0] == a[0] && s[|s| - 1] == b[|b| - 1];
    TrimIdle(s);
    TrimIdle(a);
    TrimIdle(b);
    SplitAtFirst(a, '-', b);
  }

  predicate HasSolidEnds(s: string) { s != "" && !IsSpace(s[0]) && !IsSpace(s[|s| - 1]) }

  lemma {:induction false} GamesShape(games: seq<Game>)
    requires games != []
    ensures HasSolidEnds(PrintGames(games)) && (',' in PrintGames(games) <==> |games| > 1)
  {
    hide PrintGame, Split, Trim, PyPair, GoPair, IsSpace;
    GamePieces(games[0]);
    if |games| > 1 {
      GamesShape(games[1..]);
      var s, t := PrintGames(games), PrintGames(games[1..]);
      assert s[0] == PrintGame(games[0])[0] && s[|s| - 1] == t[|t| - 1] && s[|PrintGame(games[0])|] == ',';
    }
  }

  function Printed(games: seq<Game>): seq<string> { seq(|games|, i requires 0 <= i < |games| => PrintGame(games[i])) }

  lemma {:induction false} GamesPieces(games: seq<Game>)
    requires games != []
    ensures Split(PrintGames(games), ',') == Printed(games)
  {
    hide PrintGame, Split;
    NoComma(games[0]);
    if |games| > 1 {
      GamesPieces(games[1..]);
      SplitAtFirst(PrintGame(games[0]), ',', PrintGames(games[1..]));
      assert [PrintGame(games[0])] + Printed(games[1..]) == Printed(games);
    }
  }

  lemma NoComma(g: Game)
    ensures ',' !in PrintGame(g) && Split(PrintGame(g), ',') == [PrintGame(g)]
  {
    GamePieces(g);
  }

  /** A printed pair comes back as it was: always in Python, and in Go exactly when both numbers fit
      a 64-bit integer. */
  lemma SingleScoreRoundTrip(g: Game)
    ensures PyScores(PrintGame(g)) == (g.0 as int, g.1 as int)
    ensures GoScores(PrintGame(g)) == (g.0 as int, g.1 as int) <==> FitsInt64(g)
  {
    GamePieces(g);
  }

  /** A game as Go reads it: scores beyond 64 bits become the largest that fits. */
  function Capped(g: Game): Game {
    (if g.0 > MAX_INT64 then MAX_INT64 else g.0, if g.1 > MAX_INT64 then MAX_INT64 else g.1)
  }

  function AllCapped(games: seq<Game>): seq<Game> { seq(|games|, i requires 0 <= i < |games| => Capped(games[i])) }

  /** Capping does not turn a won game into a drawn one. */
  predicate KeepsWinner(g: Game) { Capped(g).0 == Capped(g).1 ==> g.0 == g.1 }

  lemma {:induction false} WinsOfPrinted(games: seq<Game>, printed: seq<string>, n: nat)
    requires |printed| == |games| && n <= |games|
    requires forall i | 0 <= i < |games| :: printed[i] == PrintGame(games[i])
    ensures PyWins(printed, n) == (WonByA(games[..n]) as int, WonByB(games[..n]) as int)
    ensures GoWins(printed, n) == (WonByA(AllCapped(games)[..n]) as int, WonByB(AllCapped(games)[..n]) as int)
  {
    hide PrintGame, Split, Trim, PyPair, GoPair, IsSpace, Print;
    if n > 0 {
      WinsOfPrinted(games, printed, n - 1);
      GamePieces(games[n - 1]);
      assert games[..n][..n - 1] == games[..n - 1];
      assert AllCapped(games)[..n][..n - 1] == AllCapped(games)[..n - 1];
    }
  }

  lemma {:induction false} CappingLoses(games: seq<Game>)
    ensures WonByA(AllCapped(games)) <= WonByA(games) && WonByB(AllCapped(games)) <= WonByB(games)
    ensures WonByA(AllCapped(games)) == WonByA(games) && WonByB(AllCapped(games)) == WonByB(games) <==>
              forall i | 0 <= i < |games| :: KeepsWinner(games[i])
  {
    if games != [] {
      var init, last := games[..|games| - 1], games[|games| - 1];
      CappingLoses(init);
      assert AllCapped(games)[..|games| - 1] == AllCapped(init) && AllCapped(games)[|games| - 1] == Capped(last);
      hide Capped;
      assert (forall i | 0 <= i < |games| :: KeepsWinner(games[i])) <==>
             KeepsWinner(last) && forall i | 0 <= i < |init| :: KeepsWinner(init[i]);
    }
  }

  /** Two or more printed games come back as the games won by either side: always in Python, and in Go
      exactly when capping leaves every game its winner. */
  lemma {:induction false} ManyGamesCountWins(games: seq<Game>)
    requires |games| >= 2
    ensures PyScores(PrintGames(games)) == (WonByA(games) as int, WonByB(games) as int)
    ensures GoScores(PrintGames(games)) == (WonByA(AllCapped(games)) as int, WonByB(AllCapped(games)) as int)
    ensures GoScores(PrintGames(games)) == (WonByA(games) as int, WonByB(games) as int) <==>
              forall i | 0 <= i < |games| :: KeepsWinner(games[i])
  {
    hide PrintGame, PrintGames, Split, PyPair, GoPair, IsSpace, WonByA, WonByB, PyWins, GoWins, KeepsWinner, Capped;
    GamesShape(games);
    GamesPieces(games);
    TrimIdle(PrintGames(games));
    WinsOfPrinted(games, Split(PrintGames(games), ','), |games|);
    CappingLoses(games);
    assert games[..|games|] == games && AllCapped(games)[..|games|] == AllCapped(games);
  }

  lemma {:induction false} WinsTotalAndSwap(games: seq<Game>)
    ensures WonByA(games) + WonByB(games) <= |games|
    ensures WonByA(Swapped(games)) == WonByB(games) && WonByB(Swapped(games)) == WonByA(games)
  {
    if games != [] {
      WinsTotalAndSwap(games[..|games| - 1]);
      assert Swapped(games)[..|games| - 1] == Swapped(games[..|games| - 1]);
    }
  }

  /** Swapping the sides of every game swaps the parsed result, in either parser, and the result never
      exceeds the number of games. */
  lemma {:induction false} SwappingSides(games: seq<Game>)
    requires |games| >= 2
    ensures var (a, b) := GoScores(PrintGames(games));
            GoScores(PrintGames(Swapped(games))) == (b, a) && a + b <= |games|
    ensures var (a, b) := PyScores(PrintGames(games));
            PyScores(PrintGames(Swapped(games))) == (b, a) && a + b <= |games|
  {
    hide PrintGames, GoScores, PyScores, WonByA, WonByB, KeepsWinner;
    WinsTotalAndSwap(games);
    WinsTotalAndSwap(AllCapped(games));
    ManyGamesCountWins(games);
    ManyGamesCountWins(Swapped(games));
    assert AllCapped(Swapped(games)) == Swapped(AllCapped(games));
  }

  // ---------------------------------------------------------------- padding

  /** Blanks are the six ASCII ones. */
  predicate Blank(s: string) {
    forall i | 0 <= i < |s| ::
      s[i] == ' ' || s[i] == '\t' || s[i] == '\n' || s[i] == '\r' || s[i] as int == 11 || s[i] as int == 12
  }

  lemma {:induction false} TrimLeftPadded(left: string, s: string)
    requires Blank(left)
    ensures TrimLeft(left + s) == TrimLeft(s)
    decreases |left|
  {
    if left == "" {
      assert left + s == s;
    } else {
      assert (left + s)[1..] == left[1..] + s;
      TrimLeftPadded(left[1..], s);
    }
  }

  lemma {:induction false} TrimRightPadded(s: string, right: string)
    requires Blank(right)
    ensures TrimRight(s + right) == TrimRight(s)
    decreases |right|
  {
    if right == "" {
      assert s + right == s;
    } else {
      assert (s + right)[..|s + right| - 1] == s + right[..|right| - 1];
      TrimRightPadded(s, right[..|right| - 1]);
    }
  }

  /** Only blanks are taken for blanks. */
  lemma SolidMeans(s: string)
    ensures HasSolidEnds(s) <==> s != "" && !Blank([s[0]]) && !Blank([s[|s| - 1]])
  {
    if s != "" {
      assert [s[0]][0] == s[0] && [s[|s| - 1]][0] == s[|s| - 1];
    }
  }

  /** Trimming takes the blanks at both ends and nothing else. */
  lemma TrimPadded(left: string, s: string, right: string)
    requires Blank(left) && Blank(right) && HasSolidEnds(s)
    ensures Trim(left + s + right) == s
  {
    assert left + s + right == left + (s + right);
    TrimLeftPadded(left, s + right);
    assert TrimLeft(s + right) == s + right;
    TrimRightPadded(s, right);
  }

  /** The blanks around the two numbers of a game. */
  datatype Padding = Padding(left: string, beforeDash: string, afterDash: string, right: string)

  predicate AllBlank(p: Padding) { Blank(p.left) && Blank(p.beforeDash) && Blank(p.afterDash) && Blank(p.right) }

  function Spread(g: Game, p: Padding): string { Print(g.0) + p.beforeDash + "-" + p.afterDash + Print(g.1) }

  function PrintPadded(g: Game, p: Padding): string { p.left + Spread(g, p) + p.right }

  function PrintAllPadded(games: seq<Game>, ps: seq<Padding>): string
    requires games != [] && |ps| == |games|
  {
    if |games| == 1 then PrintPadded(games[0], ps[0])
    else PrintPadded(games[0], ps[0]) + "," + PrintAllPadded(games[1..], ps[1..])
  }

  lemma SpreadShape(g: Game, p: Padding)
    requires AllBlank(p)
    ensures HasSolidEnds(Spread(g, p)) && ',' !in Spread(g, p) && ',' !in PrintPadded(g, p)
    ensures Split(Spread(g, p), '-') == [Print(g.0) + p.beforeDash, p.afterDash + Print(g.1)]
  {
    ValueOfPrint(g.0);
    ValueOfPrint(g.1);
    var a, b, s := Print(g.0) + p.beforeDash, p.afterDash + Print(g.1), Spread(g, p);
    assert s == a + ['-'] + b;
    assert '-' !in a && '-' !in b && ',' !in a && ',' !in b && ',' !in p.left && ',' !in p.right;
    assert s[0] == Print(g.0)[0] && s[|s| - 1] == Print(g.1)[|Print(g.1)| - 1];
    SplitAtFirst(a, '-', b);
  }

  lemma PrintIsSolid(n: nat)
    ensures HasSolidEnds(Print(n))
  {
    ValueOfPrint(n);
  }

  lemma SpreadPair(g: Game, p: Padding)
    requires AllBlank(p)
    ensures var parts := [Print(g.0) + p.beforeDash, p.afterDash + Print(g.1)];
            PyPair(parts) == PyPair([Print(g.0), Print(g.1)]) && GoPair(parts) == GoPair([Print(g.0), Print(g.1)])
  {
    PrintIsSolid(g.0);
    PrintIsSolid(g.1);
    TrimPadded("", Print(g.0), p.beforeDash);
    TrimPadded(p.afterDash, Print(g.1), "");
    TrimPadded("", Print(g.0), "");
    TrimPadded("", Print(g.1), "");
    assert "" + Print(g.0) + p.beforeDash == Print(g.0) + p.beforeDash;
    assert p.afterDash + Print(g.1) + "" == p.afterDash + Print(g.1);
    assert "" + Print(g.0) + "" == Print(g.0) && "" + Print(g.1) + "" == Print(g.1);
    hide Trim;
  }

  function PaddedPieces(games: seq<Game>, ps: seq<Padding>): seq<string>
    requires |ps| == |games|
  {
    seq(|games|, i requires 0 <= i < |games| => PrintPadded(games[i], ps[i]))
  }

  lemma {:induction false} PiecesOfPadded(games: seq<Game>, ps: seq<Padding>)
    requires games != [] && |ps| == |games| && forall i | 0 <= i < |ps| :: AllBlank(ps[i])
    ensures Split(PrintAllPadded(games, ps), ',') == PaddedPieces(games, ps)
    decreases |games|
  {
    SpreadShape(games[0], ps[0]);
    hide PrintPadded, Spread, AllBlank, HasSolidEnds, IsSpace;
    if |games| == 1 {
      SplitNothing(PrintPadded(games[0], ps[0]), ',');
    } else {
      PiecesOfPadded(games[1..], ps[1..]);
      SplitAtFirst(PrintPadded(games[0], ps[0]), ',', PrintAllPadded(games[1..], ps[1..]));
      PiecesNext(games, ps);
      hide Split;
    }
  }

  lemma SplitNothing(s: string, c: char)
    requires c !in s
    ensures Split(s, c) == [s]
  {}

  lemma PiecesNext(games: seq<Game>, ps: seq<Padding>)
    requires games != [] && |ps| == |games|
    ensures [PrintPadded(games[0], ps[0])] + PaddedPieces(games[1..], ps[1..]) == PaddedPieces(games, ps)
  {}

  lemma PaddedCommas(games: seq<Game>, ps: seq<Padding>)
    requires games != [] && |ps| == |games| && AllBlank(ps[0])
    ensures ',' in PrintAllPadded(games, ps) <==> |games| > 1
  {
    SpreadShape(games[0], ps[0]);
    hide PrintPadded, Spread, AllBlank, Split, HasSolidEnds;
    if |games| > 1 { assert PrintAllPadded(games, ps)[|PrintPadded(games[0], ps[0])|] == ','; }
  }

  /** The blanks at the two ends of the whole string, and the string without them. */
  lemma LeftOut(games: seq<Game>, ps: seq<Padding>)
    requires games != [] && |ps| == |games|
    ensures PrintAllPadded(games, ps) == ps[0].left + PrintAllPadded(games, ps[0 := ps[0].(left := "")])
  {
    var qs := ps[0 := ps[0].(left := "")];
    var spread := Spread(games[0], ps[0]);
    assert ps[0].left + spread + ps[0].right == ps[0].left + ("" + spread + ps[0].right);
    assert qs[1..] == ps[1..];
  }

  lemma {:induction false} RightOut(games: seq<Game>, ps: seq<Padding>)
    requires games != [] && |ps| == |games|
    ensures var last := |ps| - 1;
            PrintAllPadded(games, ps) == PrintAllPadded(games, ps[last := ps[last].(right := "")]) + ps[last].right
    decreases |games|
  {
    var last := |ps| - 1;
    var qs := ps[last := ps[last].(right := "")];
    PrintUnfolds(games, ps);
    PrintUnfolds(games, qs);
    hide Spread, PrintAllPadded;
    if last == 0 {
      SpreadKept(games[0], ps[0]);
      NothingBetween(ps[0].left + Spread(games[0], ps[0]), ps[0].right);
    } else {
      RightOut(games[1..], ps[1..]);
      SetInTail(ps, last, ps[last].(right := ""));
      hide PrintPadded;
      Regroup(PrintPadded(games[0], ps[0]) + ",", PrintAllPadded(games[1..], qs[1..]), ps[last].right);
    }
  }

  lemma PrintUnfolds(games: seq<Game>, ps: seq<Padding>)
    requires games != [] && |ps| == |games|
    ensures |games| == 1 ==> PrintAllPadded(games, ps) == PrintPadded(games[0], ps[0])
    ensures |games| > 1 ==>
              PrintAllPadded(games, ps) == PrintPadded(games[0], ps[0]) + "," + PrintAllPadded(games[1..], ps[1..])
  {}

  lemma SpreadKept(g: Game, p: Padding)
    ensures Spread(g, p.(right := "")) == Spread(g, p)
  {}

  lemma NothingBetween(a: string, b: string)
    ensures a + "" + b == a + b
  {}

  lemma SetInTail(ps: seq<Padding>, i: nat, p: Padding)
    requires 0 < i < |ps|
    ensures ps[i := p][0] == ps[0] && ps[i := p][1..] == ps[1..][i - 1 := p]
  {}

  lemma Regroup(a: string, b: string, c: string)
    ensures a + (b + c) == a + b + c
  {}

  lemma StartsSolid(games: seq<Game>, ps: seq<Padding>)
    requires games != [] && |ps| == |games| && AllBlank(ps[0]) && ps[0].left == ""
    ensures PrintAllPadded(games, ps) != "" && !IsSpace(PrintAllPadded(games, ps)[0])
  {
    SpreadShape(games[0], ps[0]);
    hide Spread, IsSpace;
    assert PrintAllPadded(games, ps)[0] == Spread(games[0], ps[0])[0];
  }

  lemma {:induction false} EndsSolid(games: seq<Game>, ps: seq<Padding>)
    requires games != [] && |ps| == |games| && AllBlank(ps[|ps| - 1]) && ps[|ps| - 1].right == ""
    ensures var s := PrintAllPadded(games, ps); s != "" && !IsSpace(s[|s| - 1])
    decreases |games|
  {
    hide Spread, IsSpace;
    if |games| == 1 {
      SpreadShape(games[0], ps[0]);
    } else {
      EndsSolid(games[1..], ps[1..]);
    }
  }

  lemma {:induction false} WinsOfPadded(games: seq<Game>, ps: seq<Padding>, n: nat)
    requires |ps| == |games| && n <= |games| && forall i | 0 <= i < |ps| :: AllBlank(ps[i])
    ensures PyWins(PaddedPieces(games, ps), n) == PyWins(Printed(games), n)
    ensures GoWins(PaddedPieces(games, ps), n) == GoWins(Printed(games), n)
  {
    hide PrintGame, Split, Trim, PyPair, GoPair, IsSpace, Print, Spread, AllBlank, Blank;
    if n > 0 {
      WinsOfPadded(games, ps, n - 1);
      var g, p := games[n - 1], ps[n - 1];
      GamePieces(g);
      SpreadShape(g, p);
      TrimGame(g, p);
      SpreadPair(g, p);
    }
  }

  lemma TrimGame(g: Game, p: Padding)
    requires AllBlank(p)
    ensures Trim(PrintPadded(g, p)) == Spread(g, p)
  {
    SpreadShape(g, p);
    TrimPadded(p.left, Spread(g, p), p.right);
  }

  /** Trimming the whole string leaves a padded list that starts and ends with a digit. */
  lemma TrimAll(games: seq<Game>, ps: seq<Padding>) returns (rs: seq<Padding>)
    requires games != [] && |ps| == |games| && forall i | 0 <= i < |ps| :: AllBlank(ps[i])
    ensures |rs| == |ps| && (forall i | 0 <= i < |rs| :: AllBlank(rs[i]))
    ensures rs[0].left == "" && rs[|rs| - 1].right == ""
    ensures Trim(PrintAllPadded(games, ps)) == PrintAllPadded(games, rs) != ""
  {
    var last := |ps| - 1;
    var qs := ps[0 := ps[0].(left := "")];
    rs := qs[last := qs[last].(right := "")];
    LeftOut(games, ps);
    RightOut(games, qs);
    StartsSolid(games, rs);
    EndsSolid(games, rs);
    hide PrintAllPadded, Trim, IsSpace;
    var core := PrintAllPadded(games, rs);
    assert ps[0].left + (core + ps[last].right) == ps[0].left + core + ps[last].right;
    TrimPadded(ps[0].left, core, ps[last].right);
  }

  /** Blanks around the numbers of a score, the games of a list, or the whole string change nothing. */
  lemma PaddingIsIgnored(games: seq<Game>, ps: seq<Padding>)
    requires games != [] && |ps| == |games| && forall i | 0 <= i < |ps| :: AllBlank(ps[i])
    ensures GoScores(PrintAllPadded(games, ps)) == GoScores(PrintGames(games))
    ensures PyScores(PrintAllPadded(games, ps)) == PyScores(PrintGames(games))
  {
    var rs := TrimAll(games, ps);
    PaddedCommas(games, rs);
    GamesShape(games);
    TrimIdle(PrintGames(games));
    hide Trim, PrintAllPadded, AllBlank, IsSpace, PyPair, GoPair, PyWins, GoWins;
    hide Split, PrintGames, Printed, PaddedPieces;
    if |games| == 1 {
      OnlyGame(games, rs);
    } else {
      PiecesOfPadded(games, rs);
      GamesPieces(games);
      WinsOfPadded(games, rs, |games|);
    }
  }

  lemma OnlyGame(games: seq<Game>, ps: seq<Padding>)
    requires |games| == |ps| == 1 && AllBlank(ps[0]) && ps[0].left == "" && ps[0].right == ""
    ensures var parts, printed := Split(PrintAllPadded(games, ps), '-'), Split(PrintGames(games), '-');
            |parts| == |printed| == 2 && PyPair(parts) == PyPair(printed) && GoPair(parts) == GoPair(printed)
  {
    var g, p := games[0], ps[0];
    GamePieces(g);
    SpreadShape(g, p);
    SpreadPair(g, p);
    NothingAround(Spread(g, p));
    hide Split, PyPair, GoPair, Spread, PrintGame, AllBlank;
  }

  lemma NothingAround(s: string)
    ensures "" + s + "" == s
  {}

  // ---------------------------------------------------------------- the two parsers

  predicate IsNumber(s: string) { IsDigits(Unsigned(s)) }

  /** Read as the same number by both. */
  predicate CleanNumber(s: string) { IsNumber(s) && Clamp(Signed(s)) == Signed(s) }

  /** A part is no number, yet Go reads the other as one that is not zero. */
  predicate HalfRead(parts: seq<string>)
    requires |parts| == 2
  {
    && !(IsNumber(Trim(parts[0])) && IsNumber(Trim(parts[1])))
    && !(GoInt(Trim(parts[0])) == 0 && GoInt(Trim(parts[1])) == 0)
  }

  predicate BothClean(parts: seq<string>)
    requires |parts| == 2
  {
    CleanNumber(Trim(parts[0])) && CleanNumber(Trim(parts[1]))
  }

  /** The numbers of the game fit 64 bits. */
  predicate InRange(game: string) {
    var parts := Split(game, '-');
    |parts| == 2 ==> forall i | 0 <= i < 2 :: IsNumber(Trim(parts[i])) ==> CleanNumber(Trim(parts[i]))
  }

  predicate Misread(game: string) { |Split(game, '-')| == 2 && HalfRead(Split(game, '-')) }

  /** When the parsers agree. A single score: both parts are clean, or some part is no number and Go
      reads both as 0. A list: no game is half read. */
  predicate Agreeable(csv: string) {
    var s := Trim(csv);
    if ',' in s then forall i | 0 <= i < |Split(s, ',')| :: !Misread(Trim(Split(s, ',')[i]))
    else
      var parts := Split(s, '-');
      |parts| == 2 ==>
        || BothClean(parts)
        || (!(IsNumber(Trim(parts[0])) && IsNumber(Trim(parts[1]))) && !HalfRead(parts))
  }

  lemma PairsAgree(parts: seq<string>)
    requires |parts| == 2
    ensures BothClean(parts) ==> PyPair(parts) == Some(GoPair(parts))
    ensures IsNumber(Trim(parts[0])) && IsNumber(Trim(parts[1])) <==> PyPair(parts).Some?
    ensures PyPair(parts) == Some(GoPair(parts)) ==> BothClean(parts)
    ensures HalfRead(parts) <==> PyPair(parts).None? && GoPair(parts) != (0, 0)
    ensures HalfRead(parts) ==> GoPair(parts).0 != GoPair(parts).1
  {
    hide Trim, IsDigits, Signed, Clamp;
  }

  /** Go never counts fewer wins than Python, and more exactly when a game is half read. */
  lemma {:induction false} WinsAgree(games: seq<string>, n: nat)
    requires n <= |games| && forall i | 0 <= i < n :: InRange(Trim(games[i]))
    ensures GoWins(games, n).0 >= PyWins(games, n).0 && GoWins(games, n).1 >= PyWins(games, n).1
    ensures GoWins(games, n) == PyWins(games, n) <==> forall i | 0 <= i < n :: !Misread(Trim(games[i]))
  {
    hide Split, Trim, PyPair, GoPair, CleanNumber, HalfRead, IsNumber;
    if n > 0 {
      WinsAgree(games, n - 1);
      var parts := Split(Trim(games[n - 1]), '-');
      if |parts| == 2 {
        PairsAgree(parts);
        InRangeParts(Trim(games[n - 1]), parts);
      }
    }
  }

  lemma InRangeParts(game: string, parts: seq<string>)
    requires InRange(game) && parts == Split(game, '-') && |parts| == 2
    ensures IsNumber(Trim(parts[0])) && IsNumber(Trim(parts[1])) ==> BothClean(parts)
  {
    hide Split, Trim, IsNumber, Clamp, Signed;
  }

  /** When the parsers agree, on every string, padding and misshapen games included; in a list the
      numbers are taken to fit 64 bits. */
  lemma ParsersAgree(csv: string)
    requires ',' in Trim(csv) ==>
               forall i | 0 <= i < |Split(Trim(csv), ',')| :: InRange(Trim(Split(Trim(csv), ',')[i]))
    ensures GoScores(csv) == PyScores(csv) <==> Agreeable(csv)
  {
    var s := Trim(csv);
    hide Trim, PyPair, GoPair, BothClean, HalfRead, IsNumber, Misread, InRange;
    if ',' in s {
      WinsAgree(Split(s, ','), |Split(s, ',')|);
    } else if |Split(s, '-')| == 2 {
      PairsAgree(Split(s, '-'));
    }
  }

  lemma JunkPieces(junk: string, n: nat)
    requires '-' !in junk && ',' !in junk && (junk != "" ==> HasSolidEnds(junk))
    ensures var s := junk + "-" + Print(n);
            Trim(s) == s != "" && ',' !in s && Split(s, '-') == [junk, Print(n)] && Trim(junk) == junk
  {
    ValueOfPrint(n);
    var b, s := Print(n), junk + "-" + Print(n);
    assert '-' !in b && ',' !in b;
    assert s[|s| - 1] == b[|b| - 1] && s[0] == if junk == "" then '-' else junk[0];
    TrimIdle(s);
    TrimIdle(junk);
    SplitAtFirst(junk, '-', b);
    assert junk + ['-'] + b == s;
  }

  lemma PrintedNumber(n: nat)
    ensures Trim(Print(n)) == Print(n) && IsNumber(Print(n)) && Signed(Print(n)) == n
  {
    ValueOfPrint(n);
    TrimIdle(Print(n));
  }

  /** So a score with one unreadable half is read by Go, which drops the error, and not by Python. */
  lemma {:induction false} ParsersDifferOnJunk(junk: string, n: nat)
    requires '-' !in junk && ',' !in junk && !IsNumber(junk) && (junk != "" ==> HasSolidEnds(junk)) && n > 0
    ensures GoScores(junk + "-" + Print(n)) == (0, Clamp(n)) && Clamp(n) != 0
    ensures PyScores(junk + "-" + Print(n)) == (0, 0)
  {
    JunkPieces(junk, n);
    PrintedNumber(n);
    hide Trim, Split, Print, Signed, Unsigned, IsDigits;
  }
}
