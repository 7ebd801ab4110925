/** Roster registration: `add_player` and the row loop of
    `ingest_players_from_file`, as functions on the value of the tracker's
    roster dictionaries. The class in module Tracker runs the same steps in
    place and is proved to produce these values. */
module Registration {
  import opened Common

  /** The dictionaries and lists `add_player` writes. */
  datatype Roster = Roster(
    tournaments: seq<string>,
    teams: Teams,
    scenes: map<string, Option<string>>,
    playerTeams: map<string, map<string, string>>,
    playerTournaments: map<string, seq<string>>,
    counters: Counters,
    incomplete: seq<string>)

  /** The listed tournaments are exactly those with a team registry. */
  ghost predicate TeamsRegistered(r: Roster) {
    forall t :: t in r.tournaments <==> t in r.teams
  }

  /** The roster invariant every operation keeps. */
  ghost predicate RosterOk(r: Roster) {
    RegistryOk(r) && RecordsOk(r)
  }

  /** Tournaments are listed once, each has a team registry, and every
      roster entry has a player record. */
  ghost predicate RegistryOk(r: Roster) {
    && NoDuplicates(r.tournaments)
    && (forall t :: t in r.teams <==> t in r.tournaments)
    && (forall t, k, p :: t in r.teams && k in r.teams[t] && p in r.teams[t][k] ==> p in r.playerTeams)
  }

  /** The per-player dictionaries share their keys, the counters balance,
      and a player's tournaments all have a team for that player. */
  ghost predicate RecordsOk(r: Roster) {
    && r.playerTeams.Keys == r.scenes.Keys == r.playerTournaments.Keys == r.counters.games.Keys
    && Balanced(r.counters)
    && (forall p, t :: p in r.playerTournaments && t in r.playerTournaments[p] ==> t in r.playerTeams[p])
  }

  /** The empty roster the constructor starts from. */
  function EmptyRoster(): (r: Roster)
    ensures RosterOk(r) && r.tournaments == [] && r.teams == map[]
  {
    Roster([], map[], map[], map[], map[], Counters(map[], map[], map[]), [])
  }

  /** The roster of `team` in `tournament`, empty when there is none yet. */
  function RosterOf(r: Roster, tournament: string, team: string): seq<string> {
    if tournament in r.teams && team in r.teams[tournament] then r.teams[tournament][team] else []
  }

  /** The diagnostic line recorded for a nameless player of a new team. */
  function IncompleteEntry(tournament: string, team: string, name: string, scene: string): string {
    tournament + ": " + team + ", " + name + ", " + scene
  }

  /** First step of add_player: a tournament not seen yet is listed and gets an empty team registry. */
  function Register(r: Roster, tournament: string): (r': Roster)
    ensures tournament in r'.tournaments && r.tournaments <= r'.tournaments
    ensures |r'.tournaments| <= |r.tournaments| + 1 && r.teams.Keys <= r'.teams.Keys
    ensures tournament !in r.tournaments ==> tournament in r'.teams && r'.teams[tournament] == map[]
    ensures r' == r.(tournaments := r'.tournaments, teams := r'.teams)
  {
    if tournament in r.tournaments then r
    else r.(tournaments := r.tournaments + [tournament], teams := r.teams[tournament := map[]])
  }

  datatype Added = Added(roster: Roster, fault: Option<Fault>)

  /** The name a new roster entry is filed under: the given one, or for a
      blank name a placeholder numbered after the team's current size. */
  function EntryName(squads: map<string, seq<string>>, name: string, team: string): string {
    if name != "" then name
    else if team in squads then team + " " + NatToString(|squads[team]| + 1)
    else team + " 1"
  }

  /** The bookkeeping add_player does once the entry's name is known: append
      it to the team's roster (creating the team), record its scene, its team
      for the tournament and the tournament itself, and reset its counters. */
  function Enroll(r: Roster, tournament: string, team: string, player: string, scene: Option<string>): (r': Roster)
    requires tournament in r.teams
    ensures r'.teams.Keys == r.teams.Keys && team in r'.teams[tournament]
    ensures r'.teams[tournament][team] == RosterOf(r, tournament, team) + [player]
    ensures player in r'.playerTeams && tournament in r'.playerTeams[player] && r'.playerTeams[player][tournament] == team
    ensures player in r'.scenes && r'.scenes[player] == scene
    ensures r'.tournaments == r.tournaments && r'.incomplete == r.incomplete
  {
    var squads := r.teams[tournament];
    var c := r.counters;
    r.(teams := r.teams[tournament := squads[team := if team in squads then squads[team] + [player] else [player]]],
       scenes := r.scenes[player := scene],
       playerTeams := r.playerTeams[player :=
         if player in r.playerTeams then r.playerTeams[player][tournament := team] else map[tournament := team]],
       playerTournaments := r.playerTournaments[player :=
         if player in r.playerTournaments then r.playerTournaments[player] + [tournament] else [tournament]],
       counters := Counters(c.games[player := 0], c.wins[player := 0], c.losses[player := 0]))
  }

  /** add_player(name, scene, team, tournament). */
  function AddPlayer(r: Roster, name: string, scene: string, team: string, tournament: string): (a: Added)
    ensures tournament in a.roster.tournaments
    ensures a.fault == Some(EmptyTeam(tournament)) <==> IsBlank(team)
    ensures a.fault.None? ==> tournament in a.roster.teams && team in a.roster.teams[tournament]
  {
    var r1 := Register(r, tournament);
    if IsBlank(team) then Added(r1, Some(EmptyTeam(tournament)))
    else if tournament !in r1.teams then Added(r1, Some(UnknownTournament(tournament)))
    else Added(Enroll(Noted(r1, name, scene, team, tournament), tournament, team,
                      EntryName(r1.teams[tournament], name, team), SceneOf(name, scene)), None)
  }

  /** A nameless player of a team new to the tournament is logged as incomplete. */
  function Noted(r: Roster, name: string, scene: string, team: string, tournament: string): (r': Roster)
    requires tournament in r.teams
    ensures r'.teams == r.teams
  {
    if team !in r.teams[tournament] && name == "" then r.(incomplete := r.incomplete + [IncompleteEntry(tournament, team, name, scene)])
    else r
  }

  /** The scene recorded for an entry: none for a nameless player. */
  function SceneOf(name: string, scene: string): Option<string> {
    if name == "" then None else Some(scene)
  }

  /** The name the new roster entry gets: the given one, or a placeholder
      `team + " " + (size + 1)` numbering it after the players already on the team. */
  function Joined(r: Roster, name: string, team: string, tournament: string): string {
    if name != "" then name else team + " " + NatToString(|RosterOf(r, tournament, team)| + 1)
  }

  /** The literal `team + " 1"` used for a new team is the general placeholder for size 0. */
  lemma FirstPlaceholder(team: string)
    ensures team + " 1" == team + " " + NatToString(0 + 1)
  {
    assert Digit(1) == '1';
    assert NatToString(1) == "1";
    assert team + " 1" == team + " " + "1";
  }

  /** add_player files the entry under `Joined`, after registering the tournament. */
  lemma AddsJoined(r: Roster, name: string, scene: string, team: string, tournament: string)
    requires TeamsRegistered(r) && !IsBlank(team)
    ensures var r1 := Register(r, tournament);
      && tournament in r1.teams
      && EntryName(r1.teams[tournament], name, team) == Joined(r, name, team, tournament)
      && RosterOf(r, tournament, team) == RosterOf(r1, tournament, team)
  {
    var squads := Register(r, tournament).teams[tournament];
    if team !in squads {
      assert RosterOf(r, tournament, team) == [];
      FirstPlaceholder(team);
    }
  }

  /** A blank team name is refused, after the tournament has been registered;
      any other team name is accepted. */
  lemma BlankTeamRaises(r: Roster, name: string, scene: string, team: string, tournament: string)
    requires TeamsRegistered(r)
    ensures var a := AddPlayer(r, name, scene, team, tournament);
      && (a.fault.Some? <==> IsBlank(team))
      && (a.fault.Some? ==> a.fault == Some(EmptyTeam(tournament)) && a.roster == Register(r, tournament))
  {
  }

  /** The tournament list gains the tournament exactly when it is absent, so it never holds a duplicate. */
  lemma RegistersTournamentOnce(r: Roster, name: string, scene: string, team: string, tournament: string)
    requires TeamsRegistered(r) && NoDuplicates(r.tournaments)
    ensures var r' := AddPlayer(r, name, scene, team, tournament).roster;
      && NoDuplicates(r'.tournaments)
      && r'.tournaments == (if tournament in r.tournaments then r.tournaments else r.tournaments + [tournament])
      && tournament in r'.teams
  {
  }

  lemma EnrollAppends(r: Roster, tournament: string, team: string, player: string, scene: Option<string>)
    requires tournament in r.teams
    ensures var r' := Enroll(r, tournament, team, player, scene);
      && r'.teams.Keys == r.teams.Keys
      && team in r'.teams[tournament]
      && r'.teams[tournament][team] == RosterOf(r, tournament, team) + [player]
      && (forall t :: t in r.teams ==> r.teams[t].Keys <= r'.teams[t].Keys)
      && (forall t, k :: t in r'.teams && k in r'.teams[t] && (t, k) != (tournament, team) ==>
            RosterOf(r', t, k) == RosterOf(r, t, k))
  {
  }

  /** The team's roster grows by exactly one entry at its end, named by the
      player or by the placeholder; every other roster is unchanged. */
  lemma RosterGrowsByOne(r: Roster, name: string, scene: string, team: string, tournament: string)
    requires TeamsRegistered(r) && !IsBlank(team)
    ensures var r' := AddPlayer(r, name, scene, team, tournament).roster;
      && tournament in r'.teams && team in r'.teams[tournament]
      && r'.teams[tournament][team] == RosterOf(r, tournament, team) + [Joined(r, name, team, tournament)]
  {
    AddsJoined(r, name, scene, team, tournament);
    var r1 := Register(r, tournament);
    var r2 := Noted(r1, name, scene, team, tournament);
    EnrollAppends(r2, tournament, team, EntryName(r1.teams[tournament], name, team), SceneOf(name, scene));
  }

  /** Every team already registered stays registered, and every other
      roster keeps its entries. */
  lemma OtherRostersKept(r: Roster, name: string, scene: string, team: string, tournament: string)
    requires TeamsRegistered(r) && !IsBlank(team)
    ensures var r' := AddPlayer(r, name, scene, team, tournament).roster;
      && (forall t, k :: t in r.teams && k in r.teams[t] ==> t in r'.teams && k in r'.teams[t])
      && (forall t, k :: t in r'.teams && k in r'.teams[t] && (t, k) != (tournament, team) ==>
            RosterOf(r', t, k) == RosterOf(r, t, k))
  {
    var r1 := Register(r, tournament);
    var r2 := Noted(r1, name, scene, team, tournament);
    EnrollAppends(r2, tournament, team, EntryName(r1.teams[tournament], name, team), SceneOf(name, scene));
    RegisterKeepsTeams(r, tournament);
  }

  /** Registering a tournament leaves every existing team registry as it was. */
  lemma RegisterKeepsTeams(r: Roster, tournament: string)
    requires TeamsRegistered(r)
    ensures forall t :: t in r.teams ==> t in Register(r, tournament).teams && Register(r, tournament).teams[t] == r.teams[t]
  {
  }

  /** The new entry's player records the team for the tournament, gets the
      tournament appended, a scene only when named, and counters reset to zero. */
  lemma PlayerRecorded(r: Roster, name: string, scene: string, team: string, tournament: string)
    requires TeamsRegistered(r) && !IsBlank(team)
    ensures var r' := AddPlayer(r, name, scene, team, tournament).roster;
      var p := Joined(r, name, team, tournament);
      && p in r'.playerTeams && tournament in r'.playerTeams[p] && r'.playerTeams[p][tournament] == team
      && (forall t :: t in r'.playerTeams[p] && t != tournament ==>
            p in r.playerTeams && t in r.playerTeams[p] && r'.playerTeams[p][t] == r.playerTeams[p][t])
      && (p in r.playerTeams ==> forall t :: t in r.playerTeams[p] && t != tournament ==>
            t in r'.playerTeams[p] && r'.playerTeams[p][t] == r.playerTeams[p][t])
      && p in r'.playerTournaments
      && r'.playerTournaments[p] == (if p in r.playerTournaments then r.playerTournaments[p] + [tournament] else [tournament])
      && p in r'.scenes && r'.scenes[p] == (if name == "" then None else Some(scene))
      && p in r'.counters.games && r'.counters.games[p] == 0
      && p in r'.counters.wins && r'.counters.wins[p] == 0
      && p in r'.counters.losses && r'.counters.losses[p] == 0
  {
    AddsJoined(r, name, scene, team, tournament);
  }

  /** No other player's entries change. */
  lemma OthersUntouched(r: Roster, name: string, scene: string, team: string, tournament: string, q: string)
    requires TeamsRegistered(r) && !IsBlank(team) && q != Joined(r, name, team, tournament)
    ensures var r' := AddPlayer(r, name, scene, team, tournament).roster;
      && (q in r'.playerTeams <==> q in r.playerTeams)
      && (q in r.playerTeams ==> r'.playerTeams[q] == r.playerTeams[q])
      && (q in r'.playerTournaments <==> q in r.playerTournaments)
      && (q in r.playerTournaments ==> r'.playerTournaments[q] == r.playerTournaments[q])
      && (q in r'.counters.games <==> q in r.counters.games)
      && (q in r.counters.games ==> r'.counters.games[q] == r.counters.games[q])
      && (q in r'.counters.wins <==> q in r.counters.wins)
      && (q in r.counters.wins ==> r'.counters.wins[q] == r.counters.wins[q])
      && (q in r'.counters.losses <==> q in r.counters.losses)
      && (q in r.counters.losses ==> r'.counters.losses[q] == r.counters.losses[q])
      && (q in r'.scenes <==> q in r.scenes)
      && (q in r.scenes ==> r'.scenes[q] == r.scenes[q])
  {
    AddsJoined(r, name, scene, team, tournament);
  }

  /** A nameless player is logged as incomplete only when the team is new to the tournament. */
  lemma IncompleteOnlyForNewTeam(r: Roster, name: string, scene: string, team: string, tournament: string)
    requires TeamsRegistered(r) && !IsBlank(team)
    ensures AddPlayer(r, name, scene, team, tournament).roster.incomplete
         == r.incomplete
          + (if name == "" && !(tournament in r.teams && team in r.teams[tournament])
             then [IncompleteEntry(tournament, team, name, scene)] else [])
  {
  }

  /** Two placeholders made for the same team at different roster sizes differ. */
  lemma PlaceholdersDistinct(team: string, i: nat, j: nat)
    requires i != j
    ensures team + " " + NatToString(i) != team + " " + NatToString(j)
  {
    var n := |team| + 1;
    assert (team + " " + NatToString(i))[n..] == NatToString(i);
    assert (team + " " + NatToString(j))[n..] == NatToString(j);
  }

  lemma RegisterKeepsOk(r: Roster, tournament: string)
    requires RosterOk(r)
    ensures RosterOk(Register(r, tournament))
  {
  }

  lemma EnrollKeepsOk(r: Roster, tournament: string, team: string, player: string, scene: Option<string>)
    requires RosterOk(r) && tournament in r.teams
    ensures RosterOk(Enroll(r, tournament, team, player, scene))
  {
    EnrollKeepsRegistry(r, tournament, team, player, scene);
    EnrollKeepsRecords(r, tournament, team, player, scene);
  }

  lemma EnrollKeepsRegistry(r: Roster, tournament: string, team: string, player: string, scene: Option<string>)
    requires RegistryOk(r) && tournament in r.teams
    ensures RegistryOk(Enroll(r, tournament, team, player, scene))
  {
    var r' := Enroll(r, tournament, team, player, scene);
    forall t, k, q | t in r'.teams && k in r'.teams[t] && q in r'.teams[t][k]
      ensures q in r'.playerTeams
    {
      if (t, k) != (tournament, team) {
        assert r'.teams[t][k] == r.teams[t][k];
      }
    }
  }

  lemma EnrollKeepsRecords(r: Roster, tournament: string, team: string, player: string, scene: Option<string>)
    requires RecordsOk(r) && tournament in r.teams
    ensures RecordsOk(Enroll(r, tournament, team, player, scene))
  {
    assert Balanced(Enroll(r, tournament, team, player, scene).counters);
  }

  /** add_player keeps the roster invariant, whether or not it raises. */
  lemma AddPlayerKeepsOk(r: Roster, name: string, scene: string, team: string, tournament: string)
    requires RosterOk(r)
    ensures RosterOk(AddPlayer(r, name, scene, team, tournament).roster)
  {
    var r1 := Register(r, tournament);
    RegisterKeepsOk(r, tournament);
    if !IsBlank(team) && tournament in r1.teams {
      var r2 := Noted(r1, name, scene, team, tournament);
      EnrollKeepsOk(r2, tournament, team, EntryName(r1.teams[tournament], name, team), SceneOf(name, scene));
    }
  }

  /** The state of the player-file loop: the roster, `last_seen_team`, and
      the exception that stopped it, if any. */
  datatype Ingest = Ingest(roster: Roster, lastTeam: string, fault: Option<Fault>)

  /** One data row: tournament, team, player, scene. A blank team field
      takes the last non-blank team of the file. */
  function PlayerRow(r: Roster, lastTeam: string, row: seq<string>, line: nat): (out: Ingest)
    ensures |row| < 4 ==> out == Ingest(r, lastTeam, Some(MissingField(line)))
    ensures |row| >= 4 && !IsBlank(row[1]) ==> out.lastTeam == row[1]
    ensures |row| >= 4 ==> row[0] in out.roster.tournaments
    ensures out.fault.None? ==> |row| >= 4 && !IsBlank(out.lastTeam)
  {
    if |row| < 4 then Ingest(r, lastTeam, Some(MissingField(line)))
    else
      var team := if IsBlank(row[1]) then lastTeam else row[1];
      var added := AddPlayer(r, row[2], row[3], team, row[0]);
      Ingest(added.roster, team, added.fault)
  }

  /** The loop after reading rows[..n]: row 0 is the header and is skipped,
      and the first exception ends the loop. `last_seen_team` starts unset,
      which add_player treats as a blank team. */
  function IngestRows(r0: Roster, rows: seq<seq<string>>, n: nat): (out: Ingest)
    requires n <= |rows|
    ensures n <= 1 ==> out == Ingest(r0, "", None)
  {
    if n == 0 then Ingest(r0, "", None)
    else
      var prev := IngestRows(r0, rows, n - 1);
      if prev.fault.Some? || n == 1 then prev
      else PlayerRow(prev.roster, prev.lastTeam, rows[n - 1], n - 1)
  }

  /** One more data row, after a prefix that raised nothing. */
  lemma IngestStep(r0: Roster, rows: seq<seq<string>>, n: nat)
    requires 1 < n <= |rows|
    requires IngestRows(r0, rows, n - 1).fault.None?
    ensures var prev := IngestRows(r0, rows, n - 1);
      IngestRows(r0, rows, n) == PlayerRow(prev.roster, prev.lastTeam, rows[n - 1], n - 1)
  {
  }

  /** The header row's contents never matter. */
  lemma {:induction false} HeaderIgnored(r0: Roster, rows: seq<seq<string>>, rows': seq<seq<string>>, n: nat)
    requires n <= |rows| == |rows'| && 0 < |rows| && rows[1..] == rows'[1..]
    ensures IngestRows(r0, rows, n) == IngestRows(r0, rows', n)
  {
    if n > 1 {
      HeaderIgnored(r0, rows, rows', n - 1);
      assert rows[n - 1] == rows[1..][n - 2] == rows'[n - 1];
    }
  }

  lemma PlayerRowCarries(r: Roster, lastTeam: string, row: seq<string>, line: nat)
    ensures var out := PlayerRow(r, lastTeam, row, line);
      out.fault.None? ==> |row| >= 4 && out.lastTeam == (if IsBlank(row[1]) then lastTeam else row[1])
  {
  }

  /** Data rows lo+1 .. hi-1 all have a blank team field. */
  ghost predicate BlankTeamsBetween(rows: seq<seq<string>>, lo: nat, hi: nat)
    requires hi <= |rows|
  {
    forall i :: lo < i < hi ==> |rows[i]| >= 4 && IsBlank(rows[i][1])
  }

  lemma ExtendBlank(rows: seq<seq<string>>, lo: nat, n: nat)
    requires 0 < n <= |rows| && BlankTeamsBetween(rows, lo, n - 1)
    requires |rows[n - 1]| >= 4 && IsBlank(rows[n - 1][1])
    ensures BlankTeamsBetween(rows, lo, n)
  {
  }

  /** After a run without exception, `last_seen_team` is the team field of
      the last data row whose team is not blank, and unset when there is none. */
  lemma {:induction false} CarriesLastTeam(r0: Roster, rows: seq<seq<string>>, n: nat)
    requires n <= |rows|
    requires IngestRows(r0, rows, n).fault.None?
    ensures var last := IngestRows(r0, rows, n).lastTeam;
      || (last == "" && BlankTeamsBetween(rows, 0, n))
      || exists j :: 1 <= j < n && |rows[j]| >= 4 && last == rows[j][1] && !IsBlank(rows[j][1])
           && BlankTeamsBetween(rows, j, n)
  {
    if n > 1 {
      CarriesLastTeam(r0, rows, n - 1);
      var prev := IngestRows(r0, rows, n - 1);
      var row := rows[n - 1];
      assert prev.fault.None?;
      var out := PlayerRow(prev.roster, prev.lastTeam, row, n - 1);
      assert IngestRows(r0, rows, n) == out;
      PlayerRowCarries(prev.roster, prev.lastTeam, row, n - 1);
      if !IsBlank(row[1]) {
        assert BlankTeamsBetween(rows, n - 1, n);
      } else {
        var j :| 1 <= j < n - 1 && |rows[j]| >= 4 && prev.lastTeam == rows[j][1] && !IsBlank(rows[j][1])
          && BlankTeamsBetween(rows, j, n - 1);
        ExtendBlank(rows, j, n);
      }
    } else {
      assert BlankTeamsBetween(rows, 0, n);
    }
  }

  /** Every prefix of the player-file loop keeps the roster invariant. */
  lemma {:induction false} IngestKeepsOk(r0: Roster, rows: seq<seq<string>>, n: nat)
    requires n <= |rows| && RosterOk(r0)
    ensures RosterOk(IngestRows(r0, rows, n).roster)
  {
    if n > 1 {
      IngestKeepsOk(r0, rows, n - 1);
      var prev := IngestRows(r0, rows, n - 1);
      if prev.fault.None? && |rows[n - 1]| >= 4 {
        var row := rows[n - 1];
        var team := if IsBlank(row[1]) then prev.lastTeam else row[1];
        AddPlayerKeepsOk(prev.roster, row[2], row[3], team, row[0]);
      }
    }
  }

  /** An exception ends the player-file loop: later rows change nothing. */
  lemma IngestStopsAtFault(r0: Roster, rows: seq<seq<string>>, j: nat, n: nat)
    requires j <= n <= |rows|
    requires IngestRows(r0, rows, j).fault.Some?
    ensures IngestRows(r0, rows, n) == IngestRows(r0, rows, j)
  {
    var f := (k: nat) => if k <= |rows| then IngestRows(r0, rows, k) else IngestRows(r0, rows, |rows|);
    forall k | j < k <= n && f(k - 1).fault.Some?
      ensures f(k) == f(k - 1)
    {
      FaultHalts(r0, rows, k);
    }
    Halts(f, j, n);
  }

  /** A sequence of loop states in which an exception, once raised, keeps
      every later state equal to the one that raised it. */
  lemma {:induction false} Halts(f: nat -> Ingest, j: nat, n: nat)
    requires j <= n && f(j).fault.Some?
    requires forall k :: j < k <= n && f(k - 1).fault.Some? ==> f(k) == f(k - 1)
    ensures f(n) == f(j)
    decreases n
  {
    if n > j {
      Halts(f, j, n - 1);
    }
  }

  /** A row after an exception leaves the loop's state as it was. */
  lemma FaultHalts(r0: Roster, rows: seq<seq<string>>, n: nat)
    requires 0 < n <= |rows|
    requires IngestRows(r0, rows, n - 1).fault.Some?
    ensures IngestRows(r0, rows, n) == IngestRows(r0, rows, n - 1)
  {
  }
}
