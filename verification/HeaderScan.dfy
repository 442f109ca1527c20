/** Finding the player columns of a registration sheet: pairs of a name column and an ID (NIK) column.

    Headers are trimmed and upper-cased; an empty cell is the empty string. */
module HeaderScan {
  import opened Wrappers

  // ---------------------------------------------------------------- recognising headers

  predicate Contains(s: string, part: string) {
    exists i | 0 <= i <= |s| - |part| :: PartAt(s, i, part)
  }

  predicate PartAt(s: string, i: nat, part: string)
    requires i + |part| <= |s|
  {
    s[i..i + |part|] == part
  }

  predicate IsPlayerName(h: string) {
    "NAMA PEMAIN" <= h || "NAMA PLAYER" <= h || "NAMA LENGKAP PEMAIN" <= h || "NAMA LENGKAP PLAYER" <= h
  }

  predicate IsCaptainName(h: string) { Contains(h, "KAPTEN") && Contains(h, "NAMA") }

  predicate IsReserveName(h: string) { Contains(h, "CADANGAN") && Contains(h, "NAMA") }

  predicate IsNik(h: string) { Contains(h, "NIK") || Contains(h, "NOMOR INDUK") }

  /** The first ID column within three columns after i. */
  function NikAfter(headers: seq<string>, i: nat): Option<nat> {
    if i + 1 < |headers| && IsNik(headers[i + 1]) then Some(i + 1)
    else if i + 2 < |headers| && IsNik(headers[i + 2]) then Some(i + 2)
    else if i + 3 < |headers| && IsNik(headers[i + 3]) then Some(i + 3)
    else None
  }

  datatype Group = Group(name: nat, nik: nat, captain: bool)

  /** A player name, or a captain's name while no player has been found. */
  predicate IsMain(h: string, players: nat) { IsPlayerName(h) || (players == 0 && IsCaptainName(h)) }

  /** The group whose name is in column i, with `players` main groups found before. */
  function GroupAt(headers: seq<string>, i: nat, players: nat): Option<Group>
    requires i < |headers|
  {
    match NikAfter(headers, i)
    case None => None
    case Some(nik) =>
      if IsMain(headers[i], players) then Some(Group(i, nik, players == 0))
      else if IsReserveName(headers[i]) then Some(Group(i, nik, false))
      else None
  }

  /** How many main groups have been found once column i has been looked at. */
  function PlayersAfter(headers: seq<string>, i: nat, players: nat): nat
    requires i < |headers|
  {
    if IsMain(headers[i], players) && NikAfter(headers, i).Some? then players + 1 else players
  }

  /** The groups found from column i on. */
  function ScanFrom(headers: seq<string>, i: nat, players: nat): seq<Group>
    decreases |headers| - i
  {
    if i >= |headers| then []
    else match GroupAt(headers, i, players)
      case None => ScanFrom(headers, i + 1, players)
      case Some(g) =>
        GroupAtIsWellPlaced(headers, i, players);
        [g] + ScanFrom(headers, g.nik + 1, PlayersAfter(headers, i, players))
  }

  /** A group is a name column with the nearest ID column at most three to its right. */
  predicate WellPlaced(headers: seq<string>, g: Group) {
    && g.name < g.nik < |headers| && g.nik <= g.name + 3 && IsNik(headers[g.nik])
    && forall c | g.name < c < g.nik :: !IsNik(headers[c])
  }

  /** A header that would make its group the captain's, if it is the first such. */
  predicate Leads(h: string) { IsPlayerName(h) || IsCaptainName(h) }

  lemma GroupAtIsWellPlaced(headers: seq<string>, i: nat, players: nat)
    requires i < |headers|
    ensures var g := GroupAt(headers, i, players);
            g.Some? ==>
              && WellPlaced(headers, g.value) && g.value.name == i
              && (g.value.captain <==> players == 0 && Leads(headers[i]))
              && (PlayersAfter(headers, i, players) == 0 <==> players == 0 && !Leads(headers[i]))
  {
    hide IsNik, IsPlayerName, IsCaptainName, IsReserveName;
  }

  method FindNik(headers: seq<string>, i: nat) returns (nik: Option<nat>)
    requires i < |headers|
    ensures nik == NikAfter(headers, i)
  {
    var end := if i + 4 < |headers| then i + 4 else |headers|;
    for j := i + 1 to end
      invariant forall k | i < k < j :: !IsNik(headers[k])
    {
      if IsNik(headers[j]) {
        return Some(j);
      }
    }
    return None;
  }

  lemma ScanUnfolds(headers: seq<string>, i: nat, players: nat)
    requires i < |headers|
    ensures ScanFrom(headers, i, players)
            == match NikAfter(headers, i)
               case None => ScanFrom(headers, i + 1, players)
               case Some(nik) =>
                 if IsMain(headers[i], players) then
                   [Group(i, nik, players == 0)] + ScanFrom(headers, nik + 1, players + 1)
                 else if IsReserveName(headers[i]) then [Group(i, nik, false)] + ScanFrom(headers, nik + 1, players)
                 else ScanFrom(headers, i + 1, players)
    ensures NikAfter(headers, i).Some? ==> i < NikAfter(headers, i).value < |headers|
  {
    hide IsPlayerName, IsCaptainName, IsReserveName, IsNik;
  }

  lemma ScanEnds(headers: seq<string>, i: nat, players: nat)
    requires i >= |headers|
    ensures ScanFrom(headers, i, players) == []
  {}

  method ScanHeaders(headers: seq<string>) returns (groups: seq<Group>)
    ensures groups == ScanFrom(headers, 0, 0)
  {
    hide IsNik, IsMain, IsReserveName, NikAfter, ScanFrom;
    groups := [];
    assert ScanFrom(headers, 0, 0) == groups + ScanFrom(headers, 0, 0);
    var i, players := 0, 0;
    while i < |headers|
      invariant groups + ScanFrom(headers, i, players) == ScanFrom(headers, 0, 0)
      decreases |headers| - i
    {
      var h := headers[i];
      ScanUnfolds(headers, i, players);
      ghost var before, rest := groups, ScanFrom(headers, i, players);
      if IsMain(h, players) {
        var nik := FindNik(headers, i);
        if nik.Some? {
          groups := groups + [Group(i, nik.value, players == 0)];
          assert before + rest == groups + ScanFrom(headers, nik.value + 1, players + 1);
          players, i := players + 1, nik.value + 1;
          continue;
        }
      }
      if IsReserveName(h) {
        var nik := FindNik(headers, i);
        if nik.Some? {
          groups := groups + [Group(i, nik.value, false)];
          assert before + rest == groups + ScanFrom(headers, nik.value + 1, players);
          i := nik.value + 1;
        } else {
          i := i + 1;
        }
        continue;
      }
      i := i + 1;
    }
    ScanEnds(headers, i, players);
  }

  // ---------------------------------------------------------------- what the groups are

  predicate Placed(headers: seq<string>, groups: seq<Group>, from: nat) {
    forall k | 0 <= k < |groups| :: WellPlaced(headers, groups[k]) && from <= groups[k].name
  }

  predicate Apart(groups: seq<Group>) { forall k, l | 0 <= k < l < |groups| :: groups[k].nik < groups[l].name }

  /** Only the group that is the first with a player's or captain's name is the captain's. */
  predicate CaptainLeads(headers: seq<string>, groups: seq<Group>, players: nat) {
    forall k | 0 <= k < |groups| && groups[k].name < |headers| ::
      groups[k].captain <==> players == 0 && Leads(headers[groups[k].name]) && NoneLeads(headers, groups[..k])
  }

  predicate NoneLeads(headers: seq<string>, groups: seq<Group>) {
    forall l | 0 <= l < |groups| && groups[l].name < |headers| :: !Leads(headers[groups[l].name])
  }

  lemma {:induction false} ScanFacts(headers: seq<string>, i: nat, players: nat)
    ensures var gs := ScanFrom(headers, i, players);
            Placed(headers, gs, i) && Apart(gs) && CaptainLeads(headers, gs, players)
    decreases |headers| - i
  {
    hide IsNik, IsPlayerName, IsCaptainName, IsReserveName, NikAfter, NoneLeads, Leads;
    if i < |headers| {
      GroupAtIsWellPlaced(headers, i, players);
      var first := GroupAt(headers, i, players);
      if first.Some? {
        var next := PlayersAfter(headers, i, players);
        ScanFacts(headers, first.value.nik + 1, next);
        CaptainStep(headers, first.value, ScanFrom(headers, first.value.nik + 1, next), players, next);
      } else {
        ScanFacts(headers, i + 1, players);
      }
    }
  }

  lemma CaptainStep(headers: seq<string>, g: Group, rest: seq<Group>, players: nat, next: nat)
    requires WellPlaced(headers, g) && Placed(headers, rest, 0) && CaptainLeads(headers, rest, next)
    requires g.captain <==> players == 0 && Leads(headers[g.name])
    requires next == 0 <==> players == 0 && !Leads(headers[g.name])
    ensures CaptainLeads(headers, [g] + rest, players)
  {
    hide Leads, IsNik;
    var gs := [g] + rest;
    forall k | 0 <= k < |gs| && gs[k].name < |headers|
      ensures gs[k].captain <==> players == 0 && Leads(headers[gs[k].name]) && NoneLeads(headers, gs[..k])
    {
      if k > 0 {
        assert gs[..k] == [g] + rest[..k - 1];
        assert gs[k] == rest[k - 1];
        NoneLeadsCons(headers, g, rest[..k - 1]);
      }
    }
  }

  lemma NoneLeadsCons(headers: seq<string>, g: Group, rest: seq<Group>)
    requires g.name < |headers|
    ensures NoneLeads(headers, [g] + rest) <==> !Leads(headers[g.name]) && NoneLeads(headers, rest)
  {
    hide Leads;
    var gs := [g] + rest;
    assert gs[0] == g && forall k | 0 <= k < |rest| :: gs[k + 1] == rest[k];
  }

  /** For any header row: every group is a name column with the nearest ID column, at most three to the
      right; groups go left to right without overlapping; and the captain's group, of which there is at
      most one, is the first whose name column is a player's or captain's. */
  lemma GroupsAreSound(headers: seq<string>)
    ensures var gs := ScanFrom(headers, 0, 0);
            && (forall k | 0 <= k < |gs| :: WellPlaced(headers, gs[k]))
            && (forall k | 0 <= k < |gs| :: gs[k].name < gs[k].nik <= gs[k].name + 3 && gs[k].nik < |headers|)
            && (forall k, l | 0 <= k < l < |gs| :: gs[k].nik < gs[l].name)
            && (forall k, l | 0 <= k < l < |gs| :: !(gs[k].captain && gs[l].captain))
            && (forall k | 0 <= k < |gs| ::
                 gs[k].captain <==> Leads(headers[gs[k].name]) && NoneLeads(headers, gs[..k]))
  {
    hide IsNik, Leads;
    var gs := ScanFrom(headers, 0, 0);
    ScanFacts(headers, 0, 0);
    assert forall k | 0 <= k < |gs| :: WellPlaced(headers, gs[k]);
    forall k, l | 0 <= k < l < |gs| ensures !(gs[k].captain && gs[l].captain) {
      assert gs[..l][k] == gs[k];
      assert WellPlaced(headers, gs[k]);
    }
  }

  // ---------------------------------------------------------------- nothing is overlooked

  /** The text occurs in the header. */
  ghost predicate Has(h: string, text: string) { exists before, after: string :: h == before + text + after }

  lemma ContainsMeans(h: string, text: string)
    ensures Contains(h, text) <==> Has(h, text)
  {
    if Contains(h, text) {
      var i :| 0 <= i <= |h| - |text| && PartAt(h, i, text);
      assert h == h[..i] + text + h[i + |text|..];
    }
    if Has(h, text) {
      var before, after: string :| h == before + text + after;
      assert PartAt(h, |before|, text);
    }
  }

  lemma {:induction false} CoveredFrom(headers: seq<string>, i: nat, players: nat, c: nat) returns (k: nat)
    requires i <= c < |headers| && NikAfter(headers, c).Some?
    requires IsPlayerName(headers[c]) || IsReserveName(headers[c]) || (players == 0 && IsCaptainName(headers[c]))
    ensures k < |ScanFrom(headers, i, players)|
    ensures var g := ScanFrom(headers, i, players)[k]; g.name <= c <= g.nik || (g.captain && g.nik < c)
    ensures IsPlayerName(headers[c]) || IsReserveName(headers[c]) ==>
              var g := ScanFrom(headers, i, players)[k]; g.name <= c <= g.nik
    decreases |headers| - i
  {
    hide IsNik, IsPlayerName, IsCaptainName, IsReserveName;
    GroupAtIsWellPlaced(headers, i, players);
    var first := GroupAt(headers, i, players);
    var next := PlayersAfter(headers, i, players);
    if first.None? {
      k := CoveredFrom(headers, i + 1, players, c);
    } else if first.value.nik < c && (next == 0 || IsPlayerName(headers[c]) || IsReserveName(headers[c])) {
      k := CoveredFrom(headers, first.value.nik + 1, next, c);
      k := k + 1;
    } else {
      k := 0;
    }
  }

  lemma NikIsReached(headers: seq<string>, c: nat)
    requires exists j | c < j <= c + 3 && j < |headers| :: Has(headers[j], "NIK") || Has(headers[j], "NOMOR INDUK")
    ensures NikAfter(headers, c).Some?
  {
    var j :| c < j <= c + 3 && j < |headers| && (Has(headers[j], "NIK") || Has(headers[j], "NOMOR INDUK"));
    ContainsMeans(headers[j], "NIK");
    ContainsMeans(headers[j], "NOMOR INDUK");
    hide Contains, Has;
  }

  /** Nothing is overlooked: a player's or reserve's name column with an ID column within three columns
      lies in a group, its own or one that starts to its left and spans it; so does a captain's, unless
      the captain has been found before. */
  lemma NoColumnMissed(headers: seq<string>, c: nat) returns (k: nat)
    requires c < |headers|
    requires exists j | c < j <= c + 3 && j < |headers| :: Has(headers[j], "NIK") || Has(headers[j], "NOMOR INDUK")
    requires var h := headers[c];
             || "NAMA PEMAIN" <= h || "NAMA PLAYER" <= h || "NAMA LENGKAP PEMAIN" <= h || "NAMA LENGKAP PLAYER" <= h
             || (Has(h, "CADANGAN") && Has(h, "NAMA")) || (Has(h, "KAPTEN") && Has(h, "NAMA"))
    ensures k < |ScanFrom(headers, 0, 0)|
    ensures var g, h := ScanFrom(headers, 0, 0)[k], headers[c];
            && (g.name <= c <= g.nik || (g.captain && g.nik < c))
            && (|| "NAMA PEMAIN" <= h || "NAMA PLAYER" <= h || "NAMA LENGKAP PEMAIN" <= h || "NAMA LENGKAP PLAYER" <= h
                || (Has(h, "CADANGAN") && Has(h, "NAMA"))
                ==> g.name <= c <= g.nik)
  {
    NikIsReached(headers, c);
    ContainsMeans(headers[c], "CADANGAN");
    ContainsMeans(headers[c], "KAPTEN");
    ContainsMeans(headers[c], "NAMA");
    hide Contains, Has, ScanFrom, NikAfter;
    k := CoveredFrom(headers, 0, 0, c);
  }

  /** And nothing is made up: a group's name column reads as a player's, a captain's or a reserve's, its ID
      column as an ID, and the captain's group not as a reserve's alone. */
  lemma GroupsReadRight(headers: seq<string>, k: nat)
    requires k < |ScanFrom(headers, 0, 0)|
    ensures var g := ScanFrom(headers, 0, 0)[k];
            && g.name < g.nik < |headers| && (Has(headers[g.nik], "NIK") || Has(headers[g.nik], "NOMOR INDUK"))
            && var h := headers[g.name];
               var main := "NAMA PEMAIN" <= h || "NAMA PLAYER" <= h || "NAMA LENGKAP PEMAIN" <= h
                           || "NAMA LENGKAP PLAYER" <= h || (Has(h, "KAPTEN") && Has(h, "NAMA"));
               (g.captain ==> main) && (main || (Has(h, "CADANGAN") && Has(h, "NAMA")))
  {
    ScanFacts(headers, 0, 0);
    NamesFrom(headers, 0, 0, k);
    var g := ScanFrom(headers, 0, 0)[k];
    assert WellPlaced(headers, g);
    ContainsMeans(headers[g.nik], "NIK");
    ContainsMeans(headers[g.nik], "NOMOR INDUK");
    ContainsMeans(headers[g.name], "CADANGAN");
    ContainsMeans(headers[g.name], "KAPTEN");
    ContainsMeans(headers[g.name], "NAMA");
    hide Contains, Has, ScanFrom;
  }

  lemma {:induction false} NamesFrom(headers: seq<string>, i: nat, players: nat, k: nat)
    requires k < |ScanFrom(headers, i, players)|
    ensures var g := ScanFrom(headers, i, players)[k];
            && g.name < |headers| && (Leads(headers[g.name]) || IsReserveName(headers[g.name]))
            && (g.captain ==> Leads(headers[g.name]))
    decreases |headers| - i
  {
    hide IsNik, IsPlayerName, IsCaptainName, IsReserveName;
    GroupAtIsWellPlaced(headers, i, players);
    var first := GroupAt(headers, i, players);
    if first.None? {
      NamesFrom(headers, i + 1, players, k);
    } else if k > 0 {
      NamesFrom(headers, first.value.nik + 1, PlayersAfter(headers, i, players), k - 1);
    }
  }
}
