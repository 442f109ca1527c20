/** Bulk import of participants from a spreadsheet: one pass over the rows that finds or creates schools,
    users and teams as it goes, and reports each row as listed or as an error.

    Any database or Redis call may fail, and a failing write may have taken effect. Rows come with fields
    trimmed, the level in upper case and the role in lower case. Nobody else writes during the import. */
module ParticipantImport {
  import opened Wrappers
  import opened FiniteSets

  datatype Row = Row(nama: string, nisn: string, tingkat: string, nomor: string, sekolah: string, role: string,
                     tim: string)

  datatype Record = Unreadable | Readable(row: Row)

  datatype Reason =
    | BadFormat | FieldMissing | BadLevel | BadRole | UnknownContest | TeamMissing
    | NoGame | SchoolLookup | SchoolCreate | UserLookup | PasswordGeneration | Hashing | UserCreate
    | CredentialStore | TeamLookup | TeamCreate | MemberCreate

  datatype RowError = RowError(line: nat, reason: Reason)

  datatype Credential = Credential(nama: string, nisn: string, password: string, tim: string, game: string)

  /** What the calls made for one row will answer. */
  datatype Weather = Weather(
    gameAnswers: bool, schoolAnswers: bool, schoolWrite: Reply,
    userAnswers: bool, password: Option<string>, salt: Option<nat>, userWrite: Reply, vaultWorks: bool,
    teamAnswers: bool, teamWrite: Reply, captainWrite: Reply, memberAnswers: bool, memberWrite: Reply)

  /** A generated password has eight characters. */
  predicate Plausible(w: Weather) { w.password.Some? ==> |w.password.value| == 8 }

  predicate Calm(w: Weather) {
    && w.gameAnswers && w.schoolAnswers && w.schoolWrite.Done? && w.userAnswers && w.password.Some? && w.salt.Some?
    && w.userWrite.Done? && w.vaultWorks && w.teamAnswers && w.teamWrite.Done? && w.captainWrite.Done?
    && w.memberAnswers && w.memberWrite.Done?
  }

  datatype School = School(name: string, level: string)

  datatype Hash = Hash(of: string, salt: nat)

  datatype User = User(name: string, hash: Hash)

  datatype Team = Team(name: string, game: string, school: nat, captain: Option<string>)

  /** The copy of a team kept during the import. */
  datatype Cached = Cached(id: nat, captain: Option<string>)

  // The tables with what the import remembers about each: a cache, the names it created, the passwords it made.

  datatype Schools = Schools(rows: seq<School>, cache: map<string, nat>)

  /** The vault is the part of Redis that keeps passwords for the credential cards. */
  datatype Users = Users(rows: map<string, User>, passwords: map<string, string>, vault: map<string, string>,
                         created: set<string>)

  datatype Teams = Teams(rows: seq<Team>, cache: map<string, Cached>, created: set<string>)

  /** The rows read so far are lines 2 to `line`. */
  datatype Report = Report(line: nat, skipped: nat, importedUsers: nat, importedTeams: nat,
                           errors: seq<RowError>, credentials: seq<Credential>)

  datatype Outcome<T> = Got(value: T) | Failed(reason: Reason)

  // ---------------------------------------------------------------- reading a row

  /** The game of a contest name, given in lower case. */
  function Slug(contest: string): Option<string> {
    match contest
    case "ml pria" => Some("ml-pria")
    case "ml wanita" => Some("ml-wanita")
    case "hok" => Some("hok")
    case "free fire" => Some("ff")
    case "pubg mobile" => Some("pubgm")
    case "efootball solo" => Some("efootball-solo")
    case "efootball duo" => Some("efootball-duo")
    case _ => None
  }

  /** In solo contests a missing team name is the player's. */
  function TeamName(r: Row, contest: string): string {
    if contest == "efootball solo" && r.tim == "" then r.nama else r.tim
  }

  predicate IsLevel(level: string) { level == "SD" || level == "SMP" || level == "SMA" }

  /** What is wrong with a row, before anything is looked up. */
  function Fault(record: Record, lower: string -> string): Option<Reason> {
    if record.Unreadable? then Some(BadFormat)
    else
      var r := record.row;
      if "" in {r.nama, r.nisn, r.tingkat, r.nomor, r.sekolah, r.role} then Some(FieldMissing)
      else if !IsLevel(r.tingkat) then Some(BadLevel)
      else if r.role != "ketua" && r.role != "anggota" then Some(BadRole)
      else if Slug(lower(r.nomor)).None? then Some(UnknownContest)
      else if TeamName(r, lower(r.nomor)) == "" then Some(TeamMissing)
      else None
  }

  /** Which contest leads to which game. */
  lemma ContestsMean(contest: string)
    ensures Slug(contest)
            == if contest == "ml pria" then Some("ml-pria") else if contest == "ml wanita" then Some("ml-wanita")
               else if contest == "hok" then Some("hok") else if contest == "free fire" then Some("ff")
               else if contest == "pubg mobile" then Some("pubgm")
               else if contest == "efootball solo" then Some("efootball-solo")
               else if contest == "efootball duo" then Some("efootball-duo") else None
  {}

  predicate SixFields(r: Row) {
    r.nama != "" && r.nisn != "" && r.tingkat != "" && r.nomor != "" && r.sekolah != "" && r.role != ""
  }

  /** A row is at fault for the first of these: it does not parse, lacks one of six fields, or has a
      level, a role or a contest there is not, or no team name although the contest is no solo one. */
  lemma FaultMeans(record: Record, lower: string -> string)
    ensures Fault(record, lower).None? <==>
              && record.Readable?
              && var r := record.row; var contest := lower(r.nomor);
                 && SixFields(r) && r.tingkat in {"SD", "SMP", "SMA"} && r.role in {"ketua", "anggota"}
                 && contest in {"ml pria", "ml wanita", "hok", "free fire", "pubg mobile",
                                "efootball solo", "efootball duo"}
                 && (r.tim != "" || contest == "efootball solo")
    ensures Fault(record, lower) == Some(BadFormat) <==> record.Unreadable?
    ensures Fault(record, lower) == Some(FieldMissing) <==> record.Readable? && !SixFields(record.row)
    ensures Fault(record, lower) == Some(BadLevel) <==>
              record.Readable? && SixFields(record.row) && record.row.tingkat !in {"SD", "SMP", "SMA"}
    ensures Fault(record, lower) == Some(BadRole) <==>
              && record.Readable? && SixFields(record.row) && record.row.tingkat in {"SD", "SMP", "SMA"}
              && record.row.role !in {"ketua", "anggota"}
    ensures Fault(record, lower) == Some(TeamMissing) ==>
              record.Readable? && record.row.tim == "" && lower(record.row.nomor) != "efootball solo"
    ensures Fault(record, lower) in {None, Some(BadFormat), Some(FieldMissing), Some(BadLevel), Some(BadRole),
                                     Some(UnknownContest), Some(TeamMissing)}
  {
    if record.Readable? { ContestsMean(lower(record.row.nomor)); }
    hide Slug;
  }

  /** The reasons that lie in the row itself. */
  predicate IsFault(reason: Reason) {
    reason in {BadFormat, FieldMissing, BadLevel, BadRole, UnknownContest, TeamMissing}
  }

  // ---------------------------------------------------------------- cache keys

  function Key(name: string, scope: string): string { name + "|" + scope }

  lemma LongerNameDiffers(a: string, b: string, c: string, d: string)
    requires |a| < |c| && '|' !in b
    ensures Key(a, b) != Key(c, d)
  {
    assert Key(c, d)[|c|] == '|';
    if |c| < |Key(a, b)| {
      assert Key(a, b)[|c|] == b[|c| - |a| - 1];
    }
  }

  /** Cache keys do not clash, even for names that contain the separator. */
  lemma KeysAreFaithful(a: string, b: string, c: string, d: string)
    requires '|' !in b && '|' !in d
    ensures Key(a, b) == Key(c, d) <==> a == c && b == d
  {
    if |a| < |c| {
      LongerNameDiffers(a, b, c, d);
    } else if |c| < |a| {
      LongerNameDiffers(c, d, a, b);
    } else {
      assert Key(a, b)[..|a|] == a && Key(c, d)[..|c|] == c;
      assert Key(a, b)[|a| + 1..] == b && Key(c, d)[|c| + 1..] == d;
    }
  }

  // ---------------------------------------------------------------- what the import keeps

  predicate SameSchool(lower: string -> string, s: School, name: string, level: string) {
    lower(s.name) == lower(name) && s.level == level
  }

  predicate SameTeam(lower: string -> string, t: Team, name: string, game: string) {
    lower(t.name) == lower(name) && t.game == game
  }

  /** No school from position `from` on repeats an earlier one. */
  predicate SchoolsApart(lower: string -> string, schools: seq<School>, from: nat) {
    forall i, j | 0 <= i < j < |schools| && from <= j ::
      !SameSchool(lower, schools[i], schools[j].name, schools[j].level)
  }

  predicate TeamsApart(lower: string -> string, teams: seq<Team>, from: nat) {
    forall i, j | 0 <= i < j < |teams| && from <= j :: !SameTeam(lower, teams[i], teams[j].name, teams[j].game)
  }

  predicate SchoolsCached(lower: string -> string, schools: seq<School>, cache: map<string, nat>) {
    forall k | k in cache ::
      && cache[k] < |schools| && IsLevel(schools[cache[k]].level)
      && k == Key(lower(schools[cache[k]].name), schools[cache[k]].level)
  }

  /** A cached team knows the stored captain; it may know one whose storing failed. */
  predicate TeamsCached(lower: string -> string, teams: seq<Team>, cache: map<string, Cached>) {
    forall k | k in cache ::
      && cache[k].id < |teams|
      && '|' !in teams[cache[k].id].game && k == Key(lower(teams[cache[k].id].name), teams[cache[k].id].game)
      && (teams[cache[k].id].captain.Some? ==> cache[k].captain == teams[cache[k].id].captain)
  }

  /** Game IDs hold no separator, and cached games are those of the games table. */
  predicate GamesValid(games: map<string, string>, cache: map<string, string>) {
    && (forall s | s in games :: '|' !in games[s])
    && (forall s | s in cache :: s in games && cache[s] == games[s])
  }

  predicate SchoolsValid(lower: string -> string, s: Schools, from: nat) {
    from <= |s.rows| && SchoolsApart(lower, s.rows, from) && SchoolsCached(lower, s.rows, s.cache)
  }

  predicate TeamsValid(lower: string -> string, t: Teams, from: nat) {
    && from <= |t.rows| && TeamsApart(lower, t.rows, from) && TeamsCached(lower, t.rows, t.cache)
    && forall k | k in t.created :: k in t.cache
  }

  /** The passwords made are those of the new users, the stored hashes are theirs, and the vault holds
      those of the users reported as imported. */
  predicate UsersValid(u: Users, existing: set<string>) {
    && (forall n | n in u.passwords ::
          n !in existing && u.passwords[n] != "" && (n in u.rows ==> u.rows[n].hash.of == u.passwords[n]))
    && (forall n | n in u.rows && n !in existing :: n in u.passwords)
    && (forall n | n in existing :: n in u.rows)
    && (forall n | n in u.created :: n in u.rows && n in u.vault && u.vault[n] == u.rows[n].hash.of)
  }

  /** A listed row names a stored user, with the password if and only if the import created the user,
      and that user is a member of the stored team of that name and game. */
  predicate Listed(c: Credential, lower: string -> string, games: map<string, string>, existing: set<string>,
                   users: map<string, User>, cache: map<string, Cached>, members: map<(nat, string), string>) {
    && c.nisn in users
    && (c.password != "" <==> c.nisn !in existing)
    && (c.password != "" ==> users[c.nisn].hash.of == c.password)
    && Slug(lower(c.game)).Some? && Slug(lower(c.game)).value in games
    && var key := Key(lower(c.tim), games[Slug(lower(c.game)).value]);
       key in cache && (cache[key].id, c.nisn) in members
  }

  predicate AllListed(cs: seq<Credential>, lower: string -> string, games: map<string, string>, existing: set<string>,
                      users: map<string, User>, cache: map<string, Cached>, members: map<(nat, string), string>) {
    forall i | 0 <= i < |cs| :: Listed(cs[i], lower, games, existing, users, cache, members)
  }

  /** Every row read is listed or in the errors, and the counters count. */
  predicate Balanced(r: Report, createdUsers: nat, createdTeams: nat) {
    && 1 <= r.line && r.line - 1 == r.skipped + |r.credentials| && |r.errors| == r.skipped
    && r.importedUsers == createdUsers && r.importedTeams == createdTeams
  }

  // ---------------------------------------------------------------- what a row may change

  /** The same team, with a captain kept once there is one. */
  predicate TeamKept(before: Team, after: Team) {
    && after.name == before.name && after.game == before.game && after.school == before.school
    && (before.captain.Some? ==> after.captain == before.captain)
  }

  predicate TeamsGrow(before: seq<Team>, after: seq<Team>) {
    |before| <= |after| && forall i | 0 <= i < |before| :: TeamKept(before[i], after[i])
  }

  predicate CacheGrows(before: map<string, Cached>, after: map<string, Cached>) {
    forall k | k in before ::
      k in after && after[k].id == before[k].id && (before[k].captain.Some? ==> after[k].captain == before[k].captain)
  }

  ghost predicate MapGrows<K, V>(before: map<K, V>, after: map<K, V>) {
    forall k | k in before :: k in after && after[k] == before[k]
  }

  // What a row adds is its own school, user, team and membership; a captain it appoints is its own player.

  predicate SchoolsStep(before: seq<School>, after: seq<School>, r: Row) {
    before <= after && forall i | |before| <= i < |after| :: after[i] == School(r.sekolah, r.tingkat)
  }

  ghost predicate UsersStep(before: map<string, User>, after: map<string, User>, r: Row) {
    MapGrows(before, after) && forall n | n in after && n !in before :: n == r.nisn && after[n].name == r.nama
  }

  predicate TeamsStep(before: seq<Team>, after: seq<Team>, r: Row, tim: string, game: string) {
    && TeamsGrow(before, after)
    && (forall i | |before| <= i < |after| :: 
          after[i] == Team(tim, game, after[i].school, if r.role == "ketua" then Some(r.nisn) else None))
    && (forall i | 0 <= i < |before| && after[i] != before[i] :: r.role == "ketua" && after[i].captain == Some(r.nisn))
  }

  /** A created team belongs to the row's school. */
  predicate TeamsOfSchool(lower: string -> string, before: seq<Team>, after: seq<Team>, schools: seq<School>, r: Row) {
    forall i | |before| <= i < |after| ::
      after[i].school < |schools| && SameSchool(lower, schools[after[i].school], r.sekolah, r.tingkat)
  }

  ghost predicate MembersStep(before: map<(nat, string), string>, after: map<(nat, string), string>, r: Row) {
    && MapGrows(before, after)
    && forall m | m in after && m !in before ::
         m.1 == r.nisn && after[m] == if r.role == "ketua" then "captain" else "member"
  }

  lemma NothingIsAStep(schools: seq<School>, users: map<string, User>, teams: seq<Team>,
                       members: map<(nat, string), string>, r: Row, tim: string, game: string)
    ensures SchoolsStep(schools, schools, r) && UsersStep(users, users, r)
    ensures TeamsStep(teams, teams, r, tim, game) && MembersStep(members, members, r)
  {
  }

  lemma TeamsGrowOn(a: seq<Team>, b: seq<Team>, c: seq<Team>)
    requires TeamsGrow(a, b) && TeamsGrow(b, c)
    ensures TeamsGrow(a, c)
  {
    forall i | 0 <= i < |a| ensures TeamKept(a[i], c[i]) {
      assert TeamKept(a[i], b[i]) && TeamKept(b[i], c[i]);
    }
  }

  lemma StillListed(cs: seq<Credential>, lower: string -> string, games: map<string, string>, existing: set<string>,
                    users: map<string, User>, users': map<string, User>, cache: map<string, Cached>,
                    cache': map<string, Cached>, members: map<(nat, string), string>,
                    members': map<(nat, string), string>)
    requires AllListed(cs, lower, games, existing, users, cache, members)
    requires MapGrows(users, users') && CacheGrows(cache, cache') && MapGrows(members, members')
    ensures AllListed(cs, lower, games, existing, users', cache', members')
  {
    hide Slug, Key;
    forall i | 0 <= i < |cs| ensures Listed(cs[i], lower, games, existing, users', cache', members') {
      assert Listed(cs[i], lower, games, existing, users, cache, members);
    }
  }

  lemma TeamAdded(lower: string -> string, teams: seq<Team>, cache: map<string, Cached>, t: Team, from: nat)
    requires TeamsApart(lower, teams, from) && TeamsCached(lower, teams, cache)
    requires forall i | 0 <= i < |teams| :: !SameTeam(lower, teams[i], t.name, t.game)
    ensures TeamsApart(lower, teams + [t], from) && TeamsCached(lower, teams + [t], cache)
  {
    hide Key;
  }

  lemma TeamCached(lower: string -> string, teams: seq<Team>, cache: map<string, Cached>, id: nat,
                   captain: Option<string>)
    requires TeamsCached(lower, teams, cache) && id < |teams| && '|' !in teams[id].game
    requires teams[id].captain.Some? ==> captain == teams[id].captain
    ensures TeamsCached(lower, teams, cache[Key(lower(teams[id].name), teams[id].game) := Cached(id, captain)])
  {
    hide Key;
  }

  /** Different cached keys are different teams, so a new captain for one disturbs no other. */
  lemma CaptainAppointed(lower: string -> string, teams: seq<Team>, cache: map<string, Cached>, key: string,
                         nisn: string, from: nat)
    requires TeamsApart(lower, teams, from) && TeamsCached(lower, teams, cache) && key in cache
    requires cache[key].captain.None?
    ensures cache[key].id < |teams|
    ensures var id := cache[key].id;
            var teams' := teams[id := teams[id].(captain := Some(nisn))];
            var cache' := cache[key := Cached(id, Some(nisn))];
            && TeamsApart(lower, teams', from)
            && TeamsCached(lower, teams', cache') && TeamsCached(lower, teams, cache')
            && TeamsGrow(teams, teams') && (CaptainsKnown(teams, cache) ==> CaptainsKnown(teams', cache'))
  {
    hide Key;
    var id := cache[key].id;
    var teams' := teams[id := teams[id].(captain := Some(nisn))];
    var cache' := cache[key := Cached(id, Some(nisn))];
    forall k | k in cache && k != key ensures cache[k].id != id {
      assert k == Key(lower(teams[cache[k].id].name), teams[cache[k].id].game);
    }
    assert TeamsGrow(teams, teams');
    assert TeamsCached(lower, teams', cache');
    assert TeamsCached(lower, teams, cache');
    assert TeamsApart(lower, teams', from);
  }

  datatype Tables = Tables(schools: seq<School>, users: map<string, User>, teams: seq<Team>,
                           members: map<(nat, string), string>)

  /** What one row adds to the tables. */
  ghost predicate Adds(lower: string -> string, a: Tables, b: Tables, r: Row, tim: string, game: string) {
    && SchoolsStep(a.schools, b.schools, r) && UsersStep(a.users, b.users, r)
    && TeamsStep(a.teams, b.teams, r, tim, game) && MembersStep(a.members, b.members, r)
    && TeamsOfSchool(lower, a.teams, b.teams, b.schools, r)
  }

  /** Nothing is lost or changed, but for captains that are set. */
  ghost predicate TablesGrow(a: Tables, b: Tables) {
    && a.schools <= b.schools && MapGrows(a.users, b.users) && TeamsGrow(a.teams, b.teams)
    && MapGrows(a.members, b.members)
  }

  lemma AddingGrows(lower: string -> string, a: Tables, b: Tables, r: Row, tim: string, game: string)
    requires Adds(lower, a, b, r, tim, game)
    ensures TablesGrow(a, b)
  {
    hide TeamsGrow;
  }

  lemma NothingGrows(a: Tables, cache: map<string, Cached>)
    ensures TablesGrow(a, a) && CacheGrows(cache, cache)
  {}

  lemma TablesGrowOn(a: Tables, b: Tables, c: Tables)
    requires TablesGrow(a, b) && TablesGrow(b, c)
    ensures TablesGrow(a, c)
  {
    hide TeamsGrow;
    TeamsGrowOn(a.teams, b.teams, c.teams);
  }

  lemma TeamsInTablesGrow(a: Tables, b: Tables)
    requires TablesGrow(a, b)
    ensures TeamsGrow(a.teams, b.teams) && MapGrows(a.users, b.users) && MapGrows(a.members, b.members)
  {}

  lemma RowIsListed(c: Credential, lower: string -> string, games: map<string, string>, existing: set<string>,
                    users: Users, cache: map<string, Cached>, members: map<(nat, string), string>)
    requires UsersValid(users, existing) && c.nisn in users.rows
    requires c.password == if c.nisn in users.passwords then users.passwords[c.nisn] else ""
    requires Slug(lower(c.game)).Some? && Slug(lower(c.game)).value in games
    requires var key := Key(lower(c.tim), games[Slug(lower(c.game)).value]);
             key in cache && (cache[key].id, c.nisn) in members
    ensures Listed(c, lower, games, existing, users.rows, cache, members)
  {
    hide Slug, Key;
  }

  lemma ListedOneMore(cs: seq<Credential>, c: Credential, lower: string -> string, games: map<string, string>,
                      existing: set<string>, users: map<string, User>, cache: map<string, Cached>,
                      members: map<(nat, string), string>)
    requires AllListed(cs, lower, games, existing, users, cache, members)
    requires Listed(c, lower, games, existing, users, cache, members)
    ensures AllListed(cs + [c], lower, games, existing, users, cache, members)
  {
    hide Listed;
  }

  lemma AddingKeepsList(cs: seq<Credential>, lower: string -> string, games: map<string, string>, existing: set<string>,
                        a: Tables, b: Tables, cache: map<string, Cached>, cache': map<string, Cached>, r: Row,
                        tim: string, game: string)
    requires Adds(lower, a, b, r, tim, game) && CacheGrows(cache, cache')
    requires AllListed(cs, lower, games, existing, a.users, cache, a.members)
    ensures AllListed(cs, lower, games, existing, b.users, cache', b.members)
  {
    hide CacheGrows, AllListed;
    AddingGrows(lower, a, b, r, tim, game);
    TeamsInTablesGrow(a, b);
    StillListed(cs, lower, games, existing, a.users, b.users, cache, cache', a.members, b.members);
  }

  // ---------------------------------------------------------------- what a row adds to the report

  predicate ListsRow(c: Credential, r: Row, lower: string -> string) {
    c.nama == r.nama && c.nisn == r.nisn && c.game == r.nomor && c.tim == TeamName(r, lower(r.nomor))
  }

  /** A row is either listed, with its own fields, or reported under its line with what is wrong with it. */
  predicate Reports(before: Report, after: Report, record: Record, lower: string -> string) {
    || (after.errors == before.errors && Fault(record, lower).None? && |after.credentials| == |before.credentials| + 1
        && before.credentials <= after.credentials
        && ListsRow(after.credentials[|before.credentials|], record.row, lower))
    || (after.credentials == before.credentials
        && |after.errors| == |before.errors| + 1 && before.errors <= after.errors
        && after.errors[|before.errors|].line == after.line
        && ReasonFits(after.errors[|before.errors|].reason, record, lower))
  }

  /** A row without a fault of its own: listed, or reported for what went wrong elsewhere. */
  predicate RowReported(before: Report, after: Report, r: Row, lower: string -> string) {
    || (after.errors == before.errors && after.skipped == before.skipped
        && |after.credentials| == |before.credentials| + 1 && before.credentials <= after.credentials
        && ListsRow(after.credentials[|before.credentials|], r, lower))
    || (after.credentials == before.credentials && after.skipped == before.skipped + 1
        && |after.errors| == |before.errors| + 1 && before.errors <= after.errors
        && after.errors[|before.errors|].line == after.line && !IsFault(after.errors[|before.errors|].reason))
  }

  /** In terms of the report before the line was counted, and of the counters. */
  lemma GoodRowReports(before: Report, counted: Report, after: Report, r: Row, lower: string -> string, users: nat,
                       teams: nat, users': nat, teams': nat)
    requires RowReported(counted, after, r, lower) && counted == before.(line := before.line + 1)
    requires Fault(Readable(r), lower).None? && after.line == counted.line && Balanced(before, users, teams)
    requires after.importedUsers - before.importedUsers == users' - users
    requires after.importedTeams - before.importedTeams == teams' - teams
    ensures Reports(before, after, Readable(r), lower) && Balanced(after, users', teams')
  {
    hide Fault, ListsRow, IsFault;
  }

  lemma FaultReports(before: Report, record: Record, reason: Reason, lower: string -> string, users: nat, teams: nat)
    requires Fault(record, lower) == Some(reason) && Balanced(before, users, teams)
    ensures var after := before.(line := before.line + 1, skipped := before.skipped + 1,
                                 errors := before.errors + [RowError(before.line + 1, reason)]);
            Reports(before, after, record, lower) && Balanced(after, users, teams)
  {
    hide Fault, ListsRow, IsFault;
  }

  lemma RowSkipped(before: Report, r: Row, reason: Reason, lower: string -> string)
    requires !IsFault(reason)
    ensures RowReported(before, before.(errors := before.errors + [RowError(before.line, reason)],
                                        skipped := before.skipped + 1), r, lower)
  {}

  lemma RowListed(before: Report, r: Row, c: Credential, lower: string -> string)
    requires ListsRow(c, r, lower)
    ensures RowReported(before, before.(credentials := before.credentials + [c]), r, lower)
  {}

  predicate ReasonFits(reason: Reason, record: Record, lower: string -> string) {
    if Fault(record, lower).Some? then reason == Fault(record, lower).value else !IsFault(reason)
  }

  /** The first n records, each either listed (the k-th listed one is at[k]) or in error, in their order. */
  predicate Tally(r: Report, at: seq<nat>, records: seq<Record>, n: nat, lower: string -> string) {
    && n <= |records| && |at| == |r.credentials| && |at| + |r.errors| == n
    && (forall k | 0 <= k < |at| ::
          at[k] < n && Fault(records[at[k]], lower).None? && ListsRow(r.credentials[k], records[at[k]].row, lower))
    && (forall k | 0 <= k < |r.errors| ::
          2 <= r.errors[k].line < n + 2 && ReasonFits(r.errors[k].reason, records[r.errors[k].line - 2], lower))
    && (forall k, l | 0 <= k < l < |at| :: at[k] < at[l])
    && (forall k, l | 0 <= k < l < |r.errors| :: r.errors[k].line < r.errors[l].line)
    && (forall k, l | 0 <= k < |at| && 0 <= l < |r.errors| :: at[k] + 2 != r.errors[l].line)
  }

  lemma TallyListed(before: Report, after: Report, at: seq<nat>, records: seq<Record>, n: nat, lower: string -> string)
    requires n < |records| && Tally(before, at, records, n, lower) && Fault(records[n], lower).None?
    requires after.errors == before.errors && |after.credentials| == |before.credentials| + 1
    requires before.credentials <= after.credentials
    requires ListsRow(after.credentials[|before.credentials|], records[n].row, lower)
    ensures Tally(after, at + [n], records, n + 1, lower)
  {
    hide Fault, ListsRow, ReasonFits;
    var at' := at + [n];
    assert forall k | 0 <= k < |at| :: at'[k] == at[k] && after.credentials[k] == before.credentials[k];
  }

  lemma TallyError(before: Report, after: Report, at: seq<nat>, records: seq<Record>, n: nat, lower: string -> string)
    requires n < |records| && Tally(before, at, records, n, lower)
    requires after.credentials == before.credentials && |after.errors| == |before.errors| + 1
    requires before.errors <= after.errors && after.errors[|before.errors|].line == n + 2
    requires ReasonFits(after.errors[|before.errors|].reason, records[n], lower)
    ensures Tally(after, at, records, n + 1, lower)
  {
    hide Fault, ListsRow, ReasonFits;
    assert forall k | 0 <= k < |before.errors| :: after.errors[k] == before.errors[k];
  }

  lemma TallyRow(before: Report, after: Report, at: seq<nat>, records: seq<Record>, n: nat, lower: string -> string)
    requires n < |records| && Tally(before, at, records, n, lower) && Reports(before, after, records[n], lower)
    requires after.line == n + 2
    ensures Tally(after, if |after.credentials| > |before.credentials| then at + [n] else at, records, n + 1, lower)
    ensures |after.credentials| > |before.credentials| ==> after.errors == before.errors
  {
    hide Tally, Fault, ListsRow, ReasonFits;
    if |after.credentials| > |before.credentials| {
      TallyListed(before, after, at, records, n, lower);
    } else {
      TallyError(before, after, at, records, n, lower);
    }
  }

  /** Conservation: every one of the n records is in the report, and never twice (the places and the lines
      of a tally are different). A record with a fault is an error with that fault as its reason. */
  lemma EveryRowAccounted(r: Report, at: seq<nat>, records: seq<Record>, n: nat, lower: string -> string, i: nat)
    returns (k: nat)
    requires Tally(r, at, records, n, lower) && i < n
    ensures || (k < |r.credentials| == |at| && at[k] == i && Fault(records[i], lower).None?
                && var (c, row) := (r.credentials[k], records[i].row);
                   c.nama == row.nama && c.nisn == row.nisn && c.game == row.nomor
                   && c.tim == if lower(row.nomor) == "efootball solo" && row.tim == "" then row.nama else row.tim)
            || (k < |r.errors| && r.errors[k].line == i + 2 && ReasonFits(r.errors[k].reason, records[i], lower))
  {
    hide Fault, ReasonFits;
    if j :| 0 <= j < |at| && at[j] == i {
      k := j;
    } else if j :| 0 <= j < |r.errors| && r.errors[j].line == i + 2 {
      k := j;
    } else {
      var lines := seq(|r.errors|, j requires 0 <= j < |r.errors| => r.errors[j].line - 2);
      DistinctFit(at + lines, Below(n) - {i});
      assert false;
    }
  }

  /** Team tables only grow, row after row, so a captain, once set, never changes. */
  predicate Growing(history: seq<seq<Team>>) {
    forall i, j | 0 <= i <= j < |history| :: TeamsGrow(history[i], history[j])
  }

  lemma GrowingOn(history: seq<seq<Team>>, next: seq<Team>)
    requires |history| > 0 && Growing(history) && TeamsGrow(history[|history| - 1], next)
    ensures Growing(history + [next])
  {
    hide TeamsGrow;
    forall i | 0 <= i <= |history| ensures TeamsGrow((history + [next])[i], next) {
      if i < |history| {
        TeamsGrowOn(history[i], history[|history| - 1], next);
      } else {
        assert TeamsGrow(next, next) by { TeamsGrowSame(next); }
      }
    }
  }

  lemma TeamsGrowSame(teams: seq<Team>)
    ensures TeamsGrow(teams, teams)
  {
  }

  lemma Beginning(records: seq<Record>, lower: string -> string, teams: seq<Team>)
    ensures Tally(Report(1, 0, 0, 0, [], []), [], records, 0, lower) && Growing([teams])
  {
  }

  /** A row that reads well, names a known game, and meets no failing call. */
  predicate Smooth(lower: string -> string, games: map<string, string>, record: Record, w: Weather) {
    && Calm(w) && Fault(record, lower).None?
    && Slug(lower(record.row.nomor)).Some? && Slug(lower(record.row.nomor)).value in games
  }

  // ---------------------------------------------------------------- who becomes captain

  /** The cache knows every captain, as it does while no write fails. */
  predicate CaptainsKnown(teams: seq<Team>, cache: map<string, Cached>) {
    forall k | k in cache && cache[k].id < |teams| :: cache[k].captain == teams[cache[k].id].captain
  }

  /** A row's effect on the teams, when no call fails: its team is found, or else created, and has the
      captain it had or, if it had none and the row is a ketua's, that player. */
  predicate TeamPlaced(lower: string -> string, before: seq<Team>, after: seq<Team>, id: nat, r: Row, tim: string,
                       game: string)
  {
    && id < |after| && SameTeam(lower, after[id], tim, game)
    && if id < |before| then
         after == before[id := before[id].(captain :=
           if before[id].captain.None? && r.role == "ketua" then Some(r.nisn) else before[id].captain)]
       else
         && |after| == |before| + 1 && before <= after
         && after[id].captain == (if r.role == "ketua" then Some(r.nisn) else None)
         && forall i | 0 <= i < |before| :: !SameTeam(lower, before[i], tim, game)
  }

  /** And the cache goes on knowing every captain. */
  predicate CaptainsPlaced(lower: string -> string, a: Teams, b: Teams, id: nat, r: Row, tim: string, game: string) {
    CaptainsKnown(a.rows, a.cache) ==>
      CaptainsKnown(b.rows, b.cache) && TeamPlaced(lower, a.rows, b.rows, id, r, tim, game)
  }

  // ---------------------------------------------------------------- all that a row does

  datatype Snapshot = Snapshot(schools: Schools, users: Users, teams: Teams, members: map<(nat, string), string>,
                               report: Report)

  function TablesOf(s: Snapshot): Tables { Tables(s.schools.rows, s.users.rows, s.teams.rows, s.members) }

  /** The game ID of a contest, or nothing. */
  function GameOf(games: map<string, string>, slug: Option<string>): string {
    if slug.Some? && slug.value in games then games[slug.value] else ""
  }

  /** A row without a fault of its own, once its line has been counted: it adds its own records only, is
      listed or in error, and, if nothing fails, is listed and has its team captained. */
  ghost predicate GoodRowDone(lower: string -> string, games: map<string, string>, r: Row, w: Weather, a: Snapshot,
                              b: Snapshot, id: nat)
  {
    var tim, game := TeamName(r, lower(r.nomor)), GameOf(games, Slug(lower(r.nomor)));
    && Adds(lower, TablesOf(a), TablesOf(b), r, tim, game) && CacheGrows(a.teams.cache, b.teams.cache)
    && b.report.line == a.report.line
    && b.report.importedUsers - a.report.importedUsers == |b.users.created| - |a.users.created|
    && b.report.importedTeams - a.report.importedTeams == |b.teams.created| - |a.teams.created|
    && RowReported(a.report, b.report, r, lower)
    && (Smooth(lower, games, Readable(r), w) ==>
          && |b.report.credentials| > |a.report.credentials|
          && CaptainsPlaced(lower, a.teams, b.teams, id, r, tim, game))
  }

  /** Any row: one more line, nothing lost, a faulty row writes nothing, and a good one is done as above. */
  ghost predicate RowDone(lower: string -> string, games: map<string, string>, record: Record, w: Weather, a: Snapshot,
                          b: Snapshot, id: nat)
  {
    && b.report.line == a.report.line + 1 && Reports(a.report, b.report, record, lower)
    && TablesGrow(TablesOf(a), TablesOf(b)) && CacheGrows(a.teams.cache, b.teams.cache)
    && (Fault(record, lower).Some? ==> b == a.(report := b.report))
    && (Fault(record, lower).None? ==>
          var r := record.row; var tim, game := TeamName(r, lower(r.nomor)), GameOf(games, Slug(lower(r.nomor)));
          && Adds(lower, TablesOf(a), TablesOf(b), r, tim, game)
          && (Smooth(lower, games, record, w) ==>
                && |b.report.credentials| > |a.report.credentials|
                && CaptainsPlaced(lower, a.teams, b.teams, id, r, tim, game)))
  }

  /** What placing a row leads to, before it is listed. */
  ghost predicate PlaceDone(lower: string -> string, games: map<string, string>, r: Row, slug: string, tim: string,
                            w: Weather, a: Snapshot, b: Snapshot, team: Outcome<string>, id: nat)
  {
    && Adds(lower, TablesOf(a), TablesOf(b), r, tim, GameOf(games, Some(slug)))
    && CacheGrows(a.teams.cache, b.teams.cache)
    && b.report.errors == a.report.errors && b.report.credentials == a.report.credentials
    && b.report.line == a.report.line && b.report.skipped == a.report.skipped
    && b.report.importedUsers - a.report.importedUsers == |b.users.created| - |a.users.created|
    && b.report.importedTeams - a.report.importedTeams == |b.teams.created| - |a.teams.created|
    && (team.Got? ==>
          && r.nisn in b.users.rows && slug in games && team.value == Key(lower(tim), games[slug])
          && team.value in b.teams.cache && (b.teams.cache[team.value].id, r.nisn) in b.members
          && (r.role == "ketua" ==> b.teams.cache[team.value].captain.Some?))
    && (team.Failed? ==> !IsFault(team.reason))
    && (Calm(w) && slug in games ==>
          team.Got? && CaptainsPlaced(lower, a.teams, b.teams, id, r, tim, GameOf(games, Some(slug))))
  }

  predicate SnapListed(lower: string -> string, games: map<string, string>, existing: set<string>, s: Snapshot) {
    AllListed(s.report.credentials, lower, games, existing, s.users.rows, s.teams.cache, s.members)
  }

  lemma PlacingKeepsList(lower: string -> string, games: map<string, string>, existing: set<string>, r: Row,
                         slug: string, tim: string, w: Weather, a: Snapshot, b: Snapshot, team: Outcome<string>,
                         id: nat)
    requires PlaceDone(lower, games, r, slug, tim, w, a, b, team, id) && SnapListed(lower, games, existing, a)
    ensures SnapListed(lower, games, existing, b)
  {
    hide Adds, CacheGrows, AllListed, CaptainsPlaced, Calm;
    AddingKeepsList(a.report.credentials, lower, games, existing, TablesOf(a), TablesOf(b),
                    a.teams.cache, b.teams.cache, r, tim, GameOf(games, Some(slug)));
  }

  lemma PlacedForList(lower: string -> string, games: map<string, string>, r: Row, slug: string, tim: string,
                      w: Weather, a: Snapshot, b: Snapshot, team: Outcome<string>, id: nat)
    requires PlaceDone(lower, games, r, slug, tim, w, a, b, team, id)
    ensures team.Failed? ==> !IsFault(team.reason)
    ensures team.Got? ==>
              && r.nisn in b.users.rows && slug in games && Key(lower(tim), games[slug]) in b.teams.cache
              && (b.teams.cache[Key(lower(tim), games[slug])].id, r.nisn) in b.members
  {
    hide Adds, CacheGrows, CaptainsPlaced, Calm, Key;
  }

  /** A row that has been placed and then reported one way or the other is done. */
  lemma PlacedAndReported(lower: string -> string, games: map<string, string>, r: Row, slug: string, w: Weather,
                          a: Snapshot, b: Snapshot, team: Outcome<string>, id: nat, after: Report)
    requires Slug(lower(r.nomor)) == Some(slug)
    requires PlaceDone(lower, games, r, slug, TeamName(r, lower(r.nomor)), w, a, b, team, id)
    requires RowReported(b.report, after, r, lower)
    requires after.line == b.report.line && after.importedUsers == b.report.importedUsers
    requires after.importedTeams == b.report.importedTeams
    requires team.Got? ==> |after.credentials| > |b.report.credentials|
    ensures GoodRowDone(lower, games, r, w, a, b.(report := after), id)
  {
    hide Adds, CacheGrows, CaptainsPlaced, Calm, Key, Slug, TeamName, Fault, ListsRow, IsFault;
    assert TablesOf(b.(report := after)) == TablesOf(b);
  }

  lemma GoodRowIsDone(lower: string -> string, games: map<string, string>, r: Row, w: Weather, a: Snapshot, b: Snapshot,
                      id: nat)
    requires Fault(Readable(r), lower).None? && Balanced(a.report, |a.users.created|, |a.teams.created|)
    requires GoodRowDone(lower, games, r, w, a.(report := a.report.(line := a.report.line + 1)), b, id)
    ensures RowDone(lower, games, Readable(r), w, a, b, id)
    ensures Balanced(b.report, |b.users.created|, |b.teams.created|)
  {
    hide Fault, Smooth, Adds, TablesGrow, CacheGrows, CaptainsPlaced, RowReported, Reports, TeamName, Slug, Balanced;
    var counted := a.report.(line := a.report.line + 1);
    GoodRowReports(a.report, counted, b.report, r, lower,
                   |a.users.created|, |a.teams.created|, |b.users.created|, |b.teams.created|);
    AddingGrows(lower, TablesOf(a), TablesOf(b), r, TeamName(r, lower(r.nomor)), GameOf(games, Slug(lower(r.nomor))));
  }

  lemma FaultyRowIsDone(lower: string -> string, games: map<string, string>, record: Record, w: Weather, a: Snapshot,
                        reason: Reason)
    requires Fault(record, lower) == Some(reason) && Balanced(a.report, |a.users.created|, |a.teams.created|)
    ensures var after := a.report.(line := a.report.line + 1, skipped := a.report.skipped + 1,
                                   errors := a.report.errors + [RowError(a.report.line + 1, reason)]);
            && RowDone(lower, games, record, w, a, a.(report := after), 0)
            && Balanced(after, |a.users.created|, |a.teams.created|)
  {
    FaultReports(a.report, record, reason, lower, |a.users.created|, |a.teams.created|);
    NothingGrows(TablesOf(a), a.teams.cache);
    hide Fault, Smooth, Adds, TablesGrow, CacheGrows, CaptainsPlaced, Reports, TeamName, Slug, Balanced;
  }

  /** The row names the team. */
  predicate NamesTeam(lower: string -> string, games: map<string, string>, record: Record, t: Team) {
    && record.Readable? && Slug(lower(record.row.nomor)).Some? && Slug(lower(record.row.nomor)).value in games
    && SameTeam(lower, t, TeamName(record.row, lower(record.row.nomor)), games[Slug(lower(record.row.nomor)).value])
  }

  /** The first of the rows that names the team and is a ketua's. */
  function FirstKetua(lower: string -> string, games: map<string, string>, records: seq<Record>, n: nat, t: Team)
    : (first: Option<nat>)
    requires n <= |records|
    ensures match first
            case Some(i) =>
              && i < n && NamesTeam(lower, games, records[i], t) && records[i].row.role == "ketua"
              && forall k | 0 <= k < i :: NamesTeam(lower, games, records[k], t) ==> records[k].row.role != "ketua"
            case None =>
              forall k | 0 <= k < n :: NamesTeam(lower, games, records[k], t) ==> records[k].row.role != "ketua"
  {
    if n == 0 then None
    else
      var earlier := FirstKetua(lower, games, records, n - 1, t);
      if earlier.Some? then earlier
      else if NamesTeam(lower, games, records[n - 1], t) && records[n - 1].row.role == "ketua" then Some(n - 1)
      else None
  }

  function KetuaOf(records: seq<Record>, first: Option<nat>): Option<string> {
    if first.Some? && first.value < |records| && records[first.value].Readable? then Some(records[first.value].row.nisn)
    else None
  }

  /** Every created team has its first ketua for a captain, or none if it has no ketua yet; and every row
      so far names a team there is. */
  predicate CaptainsFirst(lower: string -> string, games: map<string, string>, teams: seq<Team>, from: nat,
                          records: seq<Record>, n: nat)
    requires n <= |records|
  {
    && (forall i | from <= i < |teams| ::
          teams[i].captain == KetuaOf(records, FirstKetua(lower, games, records, n, teams[i])))
    && (forall k | 0 <= k < n :: exists i | 0 <= i < |teams| :: NamesTeam(lower, games, records[k], teams[i]))
  }

  lemma NobodyNamed(lower: string -> string, games: map<string, string>, teams: seq<Team>, from: nat,
                    records: seq<Record>, n: nat, t: Team)
    requires n <= |records| && CaptainsFirst(lower, games, teams, from, records, n)
    requires forall i | 0 <= i < |teams| :: !SameTeam(lower, teams[i], t.name, t.game)
    ensures forall k | 0 <= k < n :: !NamesTeam(lower, games, records[k], t)
  {
    hide Slug, TeamName, FirstKetua;
    forall k | 0 <= k < n ensures !NamesTeam(lower, games, records[k], t) {
      var i :| 0 <= i < |teams| && NamesTeam(lower, games, records[k], teams[i]);
      assert !SameTeam(lower, teams[i], t.name, t.game);
    }
  }

  lemma SameKetua(lower: string -> string, games: map<string, string>, records: seq<Record>, n: nat, t: Team, u: Team)
    requires n <= |records| && lower(t.name) == lower(u.name) && t.game == u.game
    ensures FirstKetua(lower, games, records, n, t) == FirstKetua(lower, games, records, n, u)
  {
    hide Slug, TeamName;
    if n > 0 { SameKetua(lower, games, records, n - 1, t, u); }
  }

  lemma CaptainsNext(lower: string -> string, games: map<string, string>, before: seq<Team>, after: seq<Team>,
                     from: nat, records: seq<Record>, n: nat, id: nat)
    requires n < |records| && CaptainsFirst(lower, games, before, from, records, n) && TeamsApart(lower, after, from)
    requires records[n].Readable? && Slug(lower(records[n].row.nomor)).Some?
    requires Slug(lower(records[n].row.nomor)).value in games
    requires TeamPlaced(lower, before, after, id, records[n].row, TeamName(records[n].row, lower(records[n].row.nomor)),
                        games[Slug(lower(records[n].row.nomor)).value])
    ensures CaptainsFirst(lower, games, after, from, records, n + 1)
  {
    hide Slug, TeamName;
    assert NamesTeam(lower, games, records[n], after[id]);
    forall i | from <= i < |after|
      ensures after[i].captain == KetuaOf(records, FirstKetua(lower, games, records, n + 1, after[i]))
    {
      if i < |before| {
        SameKetua(lower, games, records, n, before[i], after[i]);
        if i != id { NotNamed(lower, games, after, from, records[n], i, id); }
      } else {
        NobodyNamed(lower, games, before, from, records, n, after[i]);
      }
    }
    forall k | 0 <= k < n + 1 ensures exists i | 0 <= i < |after| :: NamesTeam(lower, games, records[k], after[i]) {
      if k < n {
        var i :| 0 <= i < |before| && NamesTeam(lower, games, records[k], before[i]);
        assert NamesTeam(lower, games, records[k], after[i]);
      }
    }
  }

  lemma NotNamed(lower: string -> string, games: map<string, string>, teams: seq<Team>, from: nat, record: Record,
                 i: nat, id: nat)
    requires TeamsApart(lower, teams, from) && from <= i < |teams| && id < |teams| && i != id
    requires NamesTeam(lower, games, record, teams[id])
    ensures !NamesTeam(lower, games, record, teams[i])
  {
    hide Slug, TeamName;
    assert if i < id then !SameTeam(lower, teams[i], teams[id].name, teams[id].game)
           else !SameTeam(lower, teams[id], teams[i].name, teams[i].game);
  }

  /** A team found or created, and perhaps given its captain, is placed as the row wants. */
  lemma TeamIsPlaced(lower: string -> string, rows0: seq<Team>, rows1: seq<Team>, rows2: seq<Team>, id: nat, r: Row,
                     tim: string, game: string, school: nat)
    requires var t := Team(tim, game, school, if r.role == "ketua" then Some(r.nisn) else None);
             rows1 == rows0 || rows1 == rows0 + [t]
    requires id < |rows1| && SameTeam(lower, rows1[id], tim, game)
    requires |rows1| > |rows0| ==> id == |rows0| && forall i | 0 <= i < |rows0| :: !SameTeam(lower, rows0[i], tim, game)
    requires rows2 == if r.role == "ketua" && rows1[id].captain.None?
                      then rows1[id := rows1[id].(captain := Some(r.nisn))] else rows1
    ensures TeamPlaced(lower, rows0, rows2, id, r, tim, game)
  {}

  lemma KnownWith(lower: string -> string, rows: seq<Team>, cache: map<string, Cached>, t: Team, key: string)
    requires CaptainsKnown(rows, cache) && TeamsCached(lower, rows, cache)
    ensures CaptainsKnown(rows + [t], cache) && CaptainsKnown(rows + [t], cache[key := Cached(|rows|, t.captain)])
  {
    hide Key;
  }

  lemma CachedIdFits(lower: string -> string, t: Teams, from: nat, key: string)
    requires TeamsValid(lower, t, from) && key in t.cache
    ensures t.cache[key].id < |t.rows|
  {}

  lemma NothingKnown(teams: seq<Team>)
    ensures CaptainsKnown(teams, map[])
  {}

  lemma NoRowsYet(lower: string -> string, games: map<string, string>, teams: seq<Team>, records: seq<Record>)
    ensures CaptainsFirst(lower, games, teams, |teams|, records, 0)
  {}

  // ---------------------------------------------------------------- the import

  class Import {
    const lower: string -> string
    const games: map<string, string>      // the games table: slug to ID
    const firstSchool: nat                // where the schools created here begin
    const firstTeam: nat
    const existing: set<string>           // the users known before

    var gameCache: map<string, string>
    var schools: Schools
    var users: Users
    var teams: Teams
    var members: map<(nat, string), string>
    var report: Report

    ghost function Snap(): Snapshot
      reads this`schools, this`users, this`teams, this`members, this`report
    {
      Snapshot(schools, users, teams, members, report)
    }

    ghost function View(): Tables
      reads this`schools, this`users, this`teams, this`members
    {
      Tables(schools.rows, users.rows, teams.rows, members)
    }

    ghost predicate TablesValid()
      reads this
    {
      && GamesValid(games, gameCache) && SchoolsValid(lower, schools, firstSchool) && UsersValid(users, existing)
      && TeamsValid(lower, teams, firstTeam)
    }

    ghost predicate Valid()
      reads this
    {
      && TablesValid() && Balanced(report, |users.created|, |teams.created|)
      && AllListed(report.credentials, lower, games, existing, users.rows, teams.cache, members)
    }

    constructor (lower: string -> string, games: map<string, string>, schools: seq<School>, users: map<string, User>,
                 teams: seq<Team>, members: map<(nat, string), string>, vault: map<string, string>)
      requires forall s | s in games :: '|' !in games[s]
      ensures Valid() && report == Report(1, 0, 0, 0, [], [])
      ensures this.lower == lower && this.games == games && this.schools.rows == schools && this.users.rows == users
      ensures this.teams == Teams(teams, map[], {}) && this.members == members && existing == users.Keys
      ensures firstSchool == |schools| && firstTeam == |teams|
    {
      this.lower, this.games, this.members := lower, games, members;
      this.schools := Schools(schools, map[]);
      this.users := Users(users, map[], vault, {});
      this.teams := Teams(teams, map[], {});
      firstSchool, firstTeam, existing := |schools|, |teams|, users.Keys;
      gameCache := map[];
      report := Report(1, 0, 0, 0, [], []);
    }

    method LookUpSchool(name: string, level: string) returns (found: Option<nat>)
      ensures found.Some? ==> found.value < |schools.rows| && SameSchool(lower, schools.rows[found.value], name, level)
      ensures found.None? ==> forall i | 0 <= i < |schools.rows| :: !SameSchool(lower, schools.rows[i], name, level)
    {
      for i := 0 to |schools.rows|
        invariant forall k | 0 <= k < i :: !SameSchool(lower, schools.rows[k], name, level)
      {
        if SameSchool(lower, schools.rows[i], name, level) { return Some(i); }
      }
      return None;
    }

    method LookUpTeam(name: string, game: string) returns (found: Option<nat>)
      ensures found.Some? ==> found.value < |teams.rows| && SameTeam(lower, teams.rows[found.value], name, game)
      ensures found.None? ==> forall i | 0 <= i < |teams.rows| :: !SameTeam(lower, teams.rows[i], name, game)
    {
      for i := 0 to |teams.rows|
        invariant forall k | 0 <= k < i :: !SameTeam(lower, teams.rows[k], name, game)
      {
        if SameTeam(lower, teams.rows[i], name, game) { return Some(i); }
      }
      return None;
    }

    method ResolveGame(slug: string, w: Weather) returns (game: Outcome<string>)
      requires GamesValid(games, gameCache)
      modifies this`gameCache
      ensures GamesValid(games, gameCache)
      ensures game.Got? ==> slug in games && game.value == games[slug] && '|' !in game.value
      ensures game.Failed? ==> !IsFault(game.reason)
      ensures Calm(w) && slug in games ==> game.Got?
    {
      if slug !in gameCache {
        if !w.gameAnswers || slug !in games { return Failed(NoGame); }
        gameCache := gameCache[slug := games[slug]];
      }
      return Got(gameCache[slug]);
    }

    method ResolveSchool(r: Row, w: Weather) returns (school: Outcome<nat>)
      requires SchoolsValid(lower, schools, firstSchool) && IsLevel(r.tingkat)
      modifies this`schools
      ensures SchoolsValid(lower, schools, firstSchool) && SchoolsStep(old(schools.rows), schools.rows, r)
      ensures school.Got? ==>
                && school.value < |schools.rows|
                && SameSchool(lower, schools.rows[school.value], r.sekolah, r.tingkat)
      ensures school.Failed? ==> !IsFault(school.reason)
      ensures Calm(w) ==> school.Got?
    {
      var key := Key(lower(r.sekolah), r.tingkat);
      if key in schools.cache {
        var id := schools.cache[key];
        KeysAreFaithful(lower(r.sekolah), r.tingkat, lower(schools.rows[id].name), schools.rows[id].level);
        return Got(id);
      }
      if !w.schoolAnswers { return Failed(SchoolLookup); }
      var found := LookUpSchool(r.sekolah, r.tingkat);
      var id := |schools.rows|;
      if found.None? {
        if !w.schoolWrite.Refused? { schools := schools.(rows := schools.rows + [School(r.sekolah, r.tingkat)]); }
        if !w.schoolWrite.Done? { return Failed(SchoolCreate); }
      } else {
        id := found.value;
      }
      schools := schools.(cache := schools.cache[key := id]);
      return Got(id);
    }

    method ResolveUser(r: Row, w: Weather) returns (user: Outcome<string>)
      requires UsersValid(users, existing) && Plausible(w)
      modifies this`users, this`report
      ensures UsersValid(users, existing) && UsersStep(old(users.rows), users.rows, r)
      ensures report == old(report).(importedUsers := report.importedUsers)
      ensures report.importedUsers - old(report.importedUsers) == |users.created| - |old(users.created)|
      ensures user.Got? ==> user.value == r.nisn && r.nisn in users.rows
      ensures user.Failed? ==> !IsFault(user.reason)
      ensures Calm(w) ==> user.Got?
    {
      if !w.userAnswers { return Failed(UserLookup); }
      if r.nisn !in users.rows {
        if w.password.None? { return Failed(PasswordGeneration); }
        if w.salt.None? { return Failed(Hashing); }
        var plain := w.password.value;
        users := users.(passwords := users.passwords[r.nisn := plain]);
        if !w.userWrite.Refused? {
          users := users.(rows := users.rows[r.nisn := User(r.nama, Hash(plain, w.salt.value))]);
        }
        if !w.userWrite.Done? { return Failed(UserCreate); }
        if !w.vaultWorks { return Failed(CredentialStore); }
        users := users.(vault := users.vault[r.nisn := plain]);
        if r.nisn !in users.created {
          users := users.(created := users.created + {r.nisn});
          report := report.(importedUsers := report.importedUsers + 1);
        }
      }
      return Got(r.nisn);
    }

    method ResolveTeam(name: string, game: string, school: nat, captain: Option<string>, w: Weather)
      returns (team: Outcome<string>)
      requires TeamsValid(lower, teams, firstTeam) && '|' !in game
      modifies this`teams, this`report
      ensures TeamsValid(lower, teams, firstTeam) && CacheGrows(old(teams.cache), teams.cache)
      ensures teams.rows == old(teams.rows) || teams.rows == old(teams.rows) + [Team(name, game, school, captain)]
      ensures report == old(report).(importedTeams := report.importedTeams)
      ensures report.importedTeams - old(report.importedTeams) == |teams.created| - |old(teams.created)|
      ensures team.Got? ==> team.value == Key(lower(name), game) && team.value in teams.cache
      ensures team.Got? ==> SameTeam(lower, teams.rows[teams.cache[team.value].id], name, game)
      ensures team.Failed? ==> !IsFault(team.reason)
      ensures Calm(w) ==> team.Got?
      ensures |teams.rows| > |old(teams.rows)| ==>
                && (forall i | 0 <= i < |old(teams.rows)| :: !SameTeam(lower, old(teams.rows)[i], name, game))
                && (team.Got? ==> teams.cache[team.value].id == |old(teams.rows)|)
      ensures CaptainsKnown(old(teams.rows), old(teams.cache)) ==> CaptainsKnown(teams.rows, teams.cache)
    {
      hide Key, TeamsApart;
      var key := Key(lower(name), game);
      if key in teams.cache {
        var id := teams.cache[key].id;
        KeysAreFaithful(lower(name), game, lower(teams.rows[id].name), teams.rows[id].game);
        return Got(key);
      }
      if !w.teamAnswers { return Failed(TeamLookup); }
      var found := LookUpTeam(name, game);
      if found.None? {
        team := CreateTeam(key, Team(name, game, school, captain), w);
      } else {
        TeamCached(lower, teams.rows, teams.cache, found.value, teams.rows[found.value].captain);
        teams := teams.(cache := teams.cache[key := Cached(found.value, teams.rows[found.value].captain)]);
        team := Got(key);
      }
    }

    method CreateTeam(key: string, t: Team, w: Weather) returns (team: Outcome<string>)
      requires TeamsValid(lower, teams, firstTeam) && '|' !in t.game && key == Key(lower(t.name), t.game)
      requires key !in teams.cache
      requires forall i | 0 <= i < |teams.rows| :: !SameTeam(lower, teams.rows[i], t.name, t.game)
      modifies this`teams, this`report
      ensures TeamsValid(lower, teams, firstTeam) && CacheGrows(old(teams.cache), teams.cache)
      ensures teams.rows == if w.teamWrite.Refused? then old(teams.rows) else old(teams.rows) + [t]
      ensures team == if w.teamWrite.Done? then Got(key) else Failed(TeamCreate)
      ensures team.Got? ==> key in teams.cache && teams.cache[key] == Cached(|old(teams.rows)|, t.captain)
      ensures CaptainsKnown(old(teams.rows), old(teams.cache)) ==> CaptainsKnown(teams.rows, teams.cache)
      ensures report == old(report).(importedTeams := report.importedTeams)
      ensures report.importedTeams - old(report.importedTeams) == |teams.created| - |old(teams.created)|
    {
      hide Key, TeamsApart, TeamsCached, CaptainsKnown;
      var id := |teams.rows|;
      if CaptainsKnown(teams.rows, teams.cache) { KnownWith(lower, teams.rows, teams.cache, t, key); }
      TeamAdded(lower, teams.rows, teams.cache, t, firstTeam);
      if !w.teamWrite.Refused? { teams := teams.(rows := teams.rows + [t]); }
      if !w.teamWrite.Done? { return Failed(TeamCreate); }
      if key !in teams.created {
        teams := teams.(created := teams.created + {key});
        report := report.(importedTeams := report.importedTeams + 1);
      }
      TeamCached(lower, teams.rows, teams.cache, id, t.captain);
      teams := teams.(cache := teams.cache[key := Cached(id, t.captain)]);
      return Got(key);
    }

    /** A captain's row gives the team its captain, if it has none yet; a failing update is ignored. */
    method AppointCaptain(key: string, nisn: string, w: Weather)
      requires TeamsValid(lower, teams, firstTeam) && key in teams.cache
      modifies this`teams
      ensures TeamsValid(lower, teams, firstTeam) && TeamsGrow(old(teams.rows), teams.rows)
      ensures CacheGrows(old(teams.cache), teams.cache)
      ensures |teams.rows| == |old(teams.rows)| && teams.created == old(teams.created)
      ensures forall i | 0 <= i < |teams.rows| ::
        teams.rows[i] != old(teams.rows)[i] ==> i == teams.cache[key].id && teams.rows[i].captain == Some(nisn)
      ensures teams.cache[key].captain.Some?
      ensures w.captainWrite.Done? && old(teams.cache[key].captain) == None ==>
                teams.rows[teams.cache[key].id].captain == Some(nisn)
      ensures old(teams.cache[key].captain).Some? ==> teams == old(teams)
      ensures w.captainWrite.Done? && CaptainsKnown(old(teams.rows), old(teams.cache)) ==>
                && CaptainsKnown(teams.rows, teams.cache) && teams.cache[key].id == old(teams.cache[key].id)
                && var rows, id := old(teams.rows), teams.cache[key].id;
                   && id < |rows|
                   && teams.rows == if rows[id].captain.None? then rows[id := rows[id].(captain := Some(nisn))]
                                    else rows
    {
      CachedIdFits(lower, teams, firstTeam, key);
      hide Key, TeamsApart, TeamsCached;
      var t := teams.cache[key];
      if t.captain.None? {
        CaptainAppointed(lower, teams.rows, teams.cache, key, nisn, firstTeam);
        teams := teams.(cache := teams.cache[key := t.(captain := Some(nisn))]);
        if !w.captainWrite.Refused? {
          teams := teams.(rows := teams.rows[t.id := teams.rows[t.id].(captain := Some(nisn))]);
        }
      }
    }

    /** Adds the member unless it is known; the table refuses a second row for the same pair. */
    method Join(team: nat, r: Row, w: Weather) returns (ok: bool)
      modifies this`members
      ensures MembersStep(old(members), members, r)
      ensures ok ==> (team, r.nisn) in members
      ensures Calm(w) ==> ok
    {
      if w.memberAnswers && (team, r.nisn) in members { return true; }
      if (team, r.nisn) in members { return false; }
      var role := if r.role == "ketua" then "captain" else "member";
      if !w.memberWrite.Refused? { members := members[(team, r.nisn) := role]; }
      return w.memberWrite.Done?;
    }

    /** The second half of placing a row: its team, captain and membership. */
    method Seat(r: Row, tim: string, game: string, school: nat, w: Weather)
      returns (team: Outcome<string>, ghost id: nat)
      requires TeamsValid(lower, teams, firstTeam) && '|' !in game
      modifies this`teams, this`members, this`report
      ensures TeamsValid(lower, teams, firstTeam) && CacheGrows(old(teams.cache), teams.cache)
      ensures TeamsStep(old(teams.rows), teams.rows, r, tim, game) && MembersStep(old(members), members, r)
      ensures forall i | |old(teams.rows)| <= i < |teams.rows| :: teams.rows[i].school == school
      ensures report == old(report).(importedTeams := report.importedTeams)
      ensures report.importedTeams - old(report.importedTeams) == |teams.created| - |old(teams.created)|
      ensures team.Got? ==> team.value == Key(lower(tim), game)
      ensures team.Got? ==> team.value in teams.cache && (teams.cache[team.value].id, r.nisn) in members
      ensures team.Got? && r.role == "ketua" ==> teams.cache[team.value].captain.Some?
      ensures team.Failed? ==> !IsFault(team.reason)
      ensures Calm(w) ==> team.Got?
      ensures Calm(w) ==> CaptainsPlaced(lower, old(teams), teams, id, r, tim, game)
    {
      hide Key, SameTeam, TeamsValid, MembersStep, CaptainsKnown, TeamPlaced;
      NothingIsAStep([], map[], [], members, r, tim, game);
      ghost var cache0, rows0 := teams.cache, teams.rows;
      team := ResolveTeam(tim, game, school, if r.role == "ketua" then Some(r.nisn) else None, w);
      id := 0;
      if team.Failed? { return; }
      id := teams.cache[team.value].id;
      ghost var rows1 := teams.rows;
      CachedIdFits(lower, teams, firstTeam, team.value);
      if r.role == "ketua" {
        AppointCaptain(team.value, r.nisn, w);
      }
      if Calm(w) && CaptainsKnown(rows0, cache0) {
        TeamIsPlaced(lower, rows0, rows1, teams.rows, teams.cache[team.value].id, r, tim, game, school);
      }
      var ok := Join(teams.cache[team.value].id, r, w);
      if !ok { team := Failed(MemberCreate); }
    }

    /** Everything done for a row that reads well: its game, school, user, team, captain and membership. */
    method Place(r: Row, slug: string, tim: string, w: Weather) returns (team: Outcome<string>, ghost id: nat)
      requires TablesValid() && IsLevel(r.tingkat) && Plausible(w)
      modifies this`gameCache, this`schools, this`users, this`teams, this`members, this`report
      ensures TablesValid() && PlaceDone(lower, games, r, slug, tim, w, old(Snap()), Snap(), team, id)
    {
      hide Key, SameSchool, SchoolsValid, UsersValid, TeamsValid, Calm, Plausible, IsLevel, IsFault;
      hide SchoolsStep, UsersStep, TeamsStep, MembersStep, CaptainsPlaced;
      id := 0;
      NothingIsAStep(schools.rows, users.rows, teams.rows, members, r, tim, GameOf(games, Some(slug)));
      var game := ResolveGame(slug, w);
      if game.Failed? { return Failed(game.reason), id; }
      var school := ResolveSchool(r, w);
      if school.Failed? { return Failed(school.reason), id; }
      var user := ResolveUser(r, w);
      if user.Failed? { return Failed(user.reason), id; }
      team, id := Seat(r, tim, game.value, school.value, w);
    }

    /** One row: listed with the password if the user is new, or reported under its line number. */
    method ImportRow(record: Record, w: Weather) returns (ghost id: nat)
      requires Valid() && Plausible(w)
      modifies this
      ensures Valid() && RowDone(lower, games, record, w, old(Snap()), Snap(), id)
    {
      hide Fault, RowDone, Plausible, AllListed, Balanced, GamesValid, SchoolsValid, TeamsValid, UsersValid;
      if Fault(record, lower).Some? {
        id := 0;
        ReportFault(record, w);
      } else {
        Unread(record);
        id := CountGoodRow(record.row, w);
      }
    }

    method ReportFault(record: Record, w: Weather)
      requires Fault(record, lower).Some? && Balanced(report, |users.created|, |teams.created|)
      modifies this`report
      ensures RowDone(lower, games, record, w, old(Snap()), Snap(), 0)
      ensures Balanced(report, |users.created|, |teams.created|) && report.credentials == old(report.credentials)
    {
      hide Fault, RowDone, Balanced;
      FaultyRowIsDone(lower, games, record, w, Snap(), Fault(record, lower).value);
      report := report.(line := report.line + 1);
      Skip(Fault(record, lower).value);
    }

    method CountGoodRow(r: Row, w: Weather) returns (ghost id: nat)
      requires Valid() && Fault(Readable(r), lower).None? && Plausible(w)
      modifies this`gameCache, this`schools, this`users, this`teams, this`members, this`report
      ensures Valid() && RowDone(lower, games, Readable(r), w, old(Snap()), Snap(), id)
    {
      hide Fault, RowDone, GoodRowDone, Plausible, AllListed, Balanced;
      hide GamesValid, SchoolsValid, TeamsValid, UsersValid;
      ghost var before := Snap();
      report := report.(line := report.line + 1);
      id := ImportGoodRow(r, w);
      GoodRowIsDone(lower, games, r, w, before, Snap(), id);
    }

    /** A row without a fault of its own. */
    method ImportGoodRow(r: Row, w: Weather) returns (ghost id: nat)
      requires TablesValid() && Fault(Readable(r), lower).None? && Plausible(w)
      requires AllListed(report.credentials, lower, games, existing, users.rows, teams.cache, members)
      modifies this`gameCache, this`schools, this`users, this`teams, this`members, this`report
      ensures TablesValid()
      ensures AllListed(report.credentials, lower, games, existing, users.rows, teams.cache, members)
      ensures GoodRowDone(lower, games, r, w, old(Snap()), Snap(), id)
    {
      FaultFree(r);
      hide Slug, Key, IsLevel, TeamName, Plausible, IsFault, AllListed, Fault, GamesValid, SchoolsValid, TeamsValid;
      hide UsersValid, PlaceDone, GoodRowDone, RowReported;
      var contest := lower(r.nomor);
      var slug, tim := Slug(contest).value, TeamName(r, contest);
      ghost var before := Snap();
      var team;
      team, id := Place(r, slug, tim, w);
      ghost var placed := Snap();
      PlacingKeepsList(lower, games, existing, r, slug, tim, w, before, placed, team, id);
      PlacedForList(lower, games, r, slug, tim, w, before, placed, team, id);
      ListOrSkip(r, tim, team);
      PlacedAndReported(lower, games, r, slug, w, before, placed, team, id, report);
    }

    method ListOrSkip(r: Row, tim: string, team: Outcome<string>)
      requires UsersValid(users, existing)
      requires AllListed(report.credentials, lower, games, existing, users.rows, teams.cache, members)
      requires team.Failed? ==> !IsFault(team.reason)
      requires Slug(lower(r.nomor)).Some? && tim == TeamName(r, lower(r.nomor))
      requires team.Got? ==>
                 && r.nisn in users.rows && Slug(lower(r.nomor)).value in games
                 && var key := Key(lower(tim), games[Slug(lower(r.nomor)).value]);
                    key in teams.cache && (teams.cache[key].id, r.nisn) in members
      modifies this`report
      ensures AllListed(report.credentials, lower, games, existing, users.rows, teams.cache, members)
      ensures report == old(report).(credentials := report.credentials, errors := report.errors,
                                     skipped := report.skipped)
      ensures RowReported(old(report), report, r, lower)
      ensures team.Got? ==> |report.credentials| > |old(report).credentials|
    {
      hide Slug, Key, UsersValid, AllListed, RowReported, TeamName, IsFault;
      if team.Failed? {
        RowSkipped(report, r, team.reason, lower);
        Skip(team.reason);
      } else {
        ListRow(r, tim);
      }
    }

    /** The row joins the list, with the password if this import made it. */
    method ListRow(r: Row, tim: string)
      requires UsersValid(users, existing) && r.nisn in users.rows
      requires AllListed(report.credentials, lower, games, existing, users.rows, teams.cache, members)
      requires Slug(lower(r.nomor)).Some? && Slug(lower(r.nomor)).value in games && tim == TeamName(r, lower(r.nomor))
      requires var key := Key(lower(tim), games[Slug(lower(r.nomor)).value]);
               key in teams.cache && (teams.cache[key].id, r.nisn) in members
      modifies this`report
      ensures AllListed(report.credentials, lower, games, existing, users.rows, teams.cache, members)
      ensures report == old(report).(credentials := report.credentials)
      ensures RowReported(old(report), report, r, lower) && |report.credentials| == |old(report.credentials)| + 1
    {
      hide Slug, Key, UsersValid, AllListed, Listed, RowReported, TeamName;
      var password := if r.nisn in users.passwords then users.passwords[r.nisn] else "";
      var c := Credential(r.nama, r.nisn, password, tim, r.nomor);
      RowIsListed(c, lower, games, existing, users, teams.cache, members);
      ListedOneMore(report.credentials, c, lower, games, existing, users.rows, teams.cache, members);
      RowListed(report, r, c, lower);
      report := report.(credentials := report.credentials + [c]);
    }

    /** The whole pass. Every record is listed or in error, exactly once and in order; the team tables seen
        after each row only grow; and rows that read well fail only when a call does or their game is unknown. */
    method ImportParticipants(records: seq<Record>, weather: seq<Weather>)
      returns (ghost at: seq<nat>, ghost history: seq<seq<Team>>)
      requires Valid() && report == Report(1, 0, 0, 0, [], [])
      requires |weather| == |records| && forall i | 0 <= i < |records| :: Plausible(weather[i])
      modifies this
      ensures Valid() && report.line == |records| + 1
      ensures Tally(report, at, records, |records|, lower)
      ensures |history| == |records| + 1 && history[0] == old(teams.rows) && history[|records|] == teams.rows
      ensures Growing(history)
      ensures TablesGrow(old(View()), View())
      ensures (forall i | 0 <= i < |records| :: Smooth(lower, games, records[i], weather[i])) ==> report.errors == []
      ensures old(teams.cache) == map[] && firstTeam == |old(teams.rows)|
              && (forall i | 0 <= i < |records| :: Smooth(lower, games, records[i], weather[i])) ==>
                CaptainsFirst(lower, games, teams.rows, firstTeam, records, |records|)
    {
      hide Tally, Growing, Fault, Calm, Adds, TablesGrow;
      hide CacheGrows, Reports, TeamName, CaptainsFirst, CaptainsKnown, TeamPlaced, TeamsApart;
      hide Slug, Valid, TeamsGrow, Plausible;
      at, history := [], [teams.rows];
      Beginning(records, lower, teams.rows);
      NoRowsYet(lower, games, teams.rows, records);
      NothingGrows(View(), teams.cache);
      NothingKnown(teams.rows);
      ghost var clean := teams.cache == map[] && firstTeam == |teams.rows|;
      for i := 0 to |records|
        invariant Valid() && report.line == i + 1
        invariant Tally(report, at, records, i, lower)
        invariant |history| == i + 1 && history[0] == old(teams.rows) && history[i] == teams.rows && Growing(history)
        invariant TablesGrow(old(View()), View())
        invariant (forall k | 0 <= k < i :: Smooth(lower, games, records[k], weather[k])) ==> report.errors == []
        invariant clean && (forall k | 0 <= k < i :: Smooth(lower, games, records[k], weather[k])) ==>
          CaptainsKnown(teams.rows, teams.cache) && CaptainsFirst(lower, games, teams.rows, firstTeam, records, i)
      {
        ghost var report0, before := report, View();
        ghost var id := ImportRow(records[i], weather[i]);
        if clean && forall k | 0 <= k < i + 1 :: Smooth(lower, games, records[k], weather[k]) {
          TeamsAreApart();
          SmoothMeans(records[i], weather[i]);
          CaptainsNext(lower, games, before.teams, teams.rows, firstTeam, records, i, id);
        }
        TallyRow(report0, report, at, records, i, lower);
        at := if |report.credentials| > |report0.credentials| then at + [i] else at;
        TablesGrowOn(old(View()), before, View());
        TeamsInTablesGrow(before, View());
        GrowingOn(history, teams.rows);
        history := history + [teams.rows];
      }
    }

    lemma SmoothMeans(record: Record, w: Weather)
      requires Smooth(lower, games, record, w)
      ensures Calm(w) && Fault(record, lower).None?
      ensures record.Readable? && Slug(lower(record.row.nomor)).Some? && Slug(lower(record.row.nomor)).value in games
      ensures GameOf(games, Slug(lower(record.row.nomor))) == games[Slug(lower(record.row.nomor)).value]
    {
      hide Slug;
    }

    lemma Unread(record: Record)
      requires Fault(record, lower).None?
      ensures record.Readable?
    {}

    lemma FaultFree(r: Row)
      requires Fault(Readable(r), lower).None?
      ensures Slug(lower(r.nomor)).Some? && IsLevel(r.tingkat) && (r.role == "ketua" || r.role == "anggota")
    {
      hide Slug;
    }

    lemma TeamsAreApart()
      requires Valid()
      ensures TeamsApart(lower, teams.rows, firstTeam)
    {}

    method Skip(reason: Reason)
      modifies this`report
      ensures report.errors == old(report.errors) + [RowError(old(report.line), reason)]
      ensures report == old(report).(errors := report.errors, skipped := old(report.skipped) + 1)
    {
      report := report.(errors := report.errors + [RowError(report.line, reason)], skipped := report.skipped + 1);
    }
  }
}
