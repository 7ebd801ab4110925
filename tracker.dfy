/** The `KQTrueSkill` tracker: the object whose dictionaries and lists the
    source mutates in place. Each method runs the source's statements on the
    fields and is proved to leave exactly the state the value model of
    modules Registration, MatchFile and Replay computes. */
module Tracker {
  import opened Common
  import Registration
  import MatchFile
  import Replay
  import Sorting

  /** The sort key of `sorted(self.matches, key=lambda match: match["time"])`. */
  function TimeKey(): Match -> int {
    (m: Match) => m.time.instant
  }

  /** The match list as `ingest_dataset` leaves it: sorted by time, the
      same matches, and matches with equal times in their previous order. */
  function Schedule(ms: seq<Match>): (r: seq<Match>)
    ensures Sorting.SortedBy(r, TimeKey())
    ensures multiset(r) == multiset(ms)
    ensures forall k :: Sorting.WithKey(r, TimeKey(), k) == Sorting.WithKey(ms, TimeKey(), k)
  {
    Sorting.SortBySorted(ms, TimeKey());
    forall k ensures Sorting.WithKey(Sorting.SortBy(ms, TimeKey()), TimeKey(), k) == Sorting.WithKey(ms, TimeKey(), k) {
      Sorting.SortByStable(ms, TimeKey(), k);
    }
    Sorting.SortBy(ms, TimeKey())
  }

  /** The roster invariant makes every registered player tracked once the
      ratings are reset, so the replay's lookups of players cannot fail. */
  lemma RosterKnown(r: Registration.Roster, snapshots: map<string, map<string, Rating>>)
    requires Registration.RosterOk(r)
    ensures Replay.Known(r.teams, Replay.Start(r.playerTeams.Keys, r.counters, snapshots))
  {
  }

  class KQTrueSkill {
    var snapshots: map<string, map<string, Rating>>
    var matches: seq<Match>
    var playerScenes: map<string, Option<string>>
    var playerTeams: map<string, map<string, string>>
    var playerRatings: map<string, Rating>
    var playerTournaments: map<string, seq<string>>
    var playerGames: map<string, int>
    var playerWins: map<string, int>
    var playerLosses: map<string, int>
    var incompletePlayers: seq<string>
    var tournaments: seq<string>
    var tournamentDates: map<string, int>
    var teams: Teams

    /** The dictionaries `add_player` writes, as one value. */
    function Roster(): Registration.Roster
      reads this
    {
      Registration.Roster(tournaments, teams, playerScenes, playerTeams, playerTournaments,
                          Counters(playerGames, playerWins, playerLosses), incompletePlayers)
    }

    /** The replay's state with the loop's local `current_tournament`. */
    function EngineAt(current: string): Replay.Engine
      reads this
    {
      Replay.Engine(playerRatings, Counters(playerGames, playerWins, playerLosses), snapshots, current)
    }

    /** Everything `calculate_trueskills` reads but never writes. */
    function Registry(): (seq<string>, Teams, map<string, Option<string>>, map<string, map<string, string>>,
                          map<string, seq<string>>, seq<string>, seq<Match>, map<string, int>)
      reads this
    {
      (tournaments, teams, playerScenes, playerTeams, playerTournaments, incompletePlayers, matches, tournamentDates)
    }

    ghost predicate Valid()
      reads this
    {
      Registration.RosterOk(Roster())
    }

    /** A tracker with nothing registered. Loading the bundled datasets is
        file I/O and is not part of this model. */
    constructor ()
      ensures Valid()
      ensures Roster() == Registration.EmptyRoster()
      ensures snapshots == map[] && matches == [] && playerRatings == map[] && tournamentDates == map[]
    {
      snapshots := map[];
      matches := [];
      playerScenes := map[];
      playerTeams := map[];
      playerRatings := map[];
      playerTournaments := map[];
      playerGames := map[];
      playerWins := map[];
      playerLosses := map[];
      incompletePlayers := [];
      tournaments := [];
      tournamentDates := map[];
      teams := map[];
    }

    /** `record_trueskill_snapshot`: a copy of the rating map under `tournament`. */
    method RecordSnapshot(tournament: string)
      modifies this
      ensures snapshots == old(snapshots)[tournament := playerRatings]
      ensures Roster() == old(Roster()) && playerRatings == old(playerRatings)
      ensures Registry() == old(Registry())
    {
      snapshots := snapshots[tournament := playerRatings];
    }

    /** The opening lines of `add_player`: a tournament seen for the first
        time is appended to the registry and given an empty team table. */
    method RegisterTournament(tournament: string)
      modifies this
      ensures Roster() == Registration.Register(old(Roster()), tournament)
      ensures playerRatings == old(playerRatings) && snapshots == old(snapshots)
      ensures matches == old(matches) && tournamentDates == old(tournamentDates)
    {
      if tournament !in tournaments {
        tournaments := tournaments + [tournament];
        teams := teams[tournament := map[]];
      }
    }

    /** A nameless first entry of a team goes on the incomplete list. */
    method NoteIncomplete(entry: string)
      modifies this
      ensures Roster() == old(Roster()).(incomplete := old(incompletePlayers) + [entry])
      ensures playerRatings == old(playerRatings) && snapshots == old(snapshots)
      ensures matches == old(matches) && tournamentDates == old(tournamentDates)
    {
      incompletePlayers := incompletePlayers + [entry];
    }

    /** The closing lines of `add_player`, first half: the player joins the
        team's roster and gets the scene. */
    method JoinTeam(tournament: string, team: string, player: string, playerScene: Option<string>)
      requires tournament in teams
      modifies this
      ensures var squads := old(teams)[tournament];
        teams == old(teams)[tournament := squads[team := if team in squads then squads[team] + [player] else [player]]]
      ensures playerScenes == old(playerScenes)[player := playerScene]
      ensures playerTeams == old(playerTeams) && playerTournaments == old(playerTournaments)
      ensures playerGames == old(playerGames) && playerWins == old(playerWins) && playerLosses == old(playerLosses)
      ensures tournaments == old(tournaments) && incompletePlayers == old(incompletePlayers)
      ensures playerRatings == old(playerRatings) && snapshots == old(snapshots)
      ensures matches == old(matches) && tournamentDates == old(tournamentDates)
    {
      var squads := teams[tournament];
      if team in squads {
        teams := teams[tournament := squads[team := squads[team] + [player]]];
      } else {
        teams := teams[tournament := squads[team := [player]]];
      }
      playerScenes := playerScenes[player := playerScene];
    }

    /** Second half: the tournament's team in the player's table and the
        tournament in the player's list. */
    method RecordEntry(tournament: string, team: string, player: string)
      modifies this
      ensures playerTeams == old(playerTeams)[player :=
        if player in old(playerTeams) then old(playerTeams)[player][tournament := team] else map[tournament := team]]
      ensures playerTournaments == old(playerTournaments)[player :=
        if player in old(playerTournaments) then old(playerTournaments)[player] + [tournament] else [tournament]]
      ensures teams == old(teams) && playerScenes == old(playerScenes)
      ensures playerGames == old(playerGames) && playerWins == old(playerWins) && playerLosses == old(playerLosses)
      ensures tournaments == old(tournaments) && incompletePlayers == old(incompletePlayers)
      ensures playerRatings == old(playerRatings) && snapshots == old(snapshots)
      ensures matches == old(matches) && tournamentDates == old(tournamentDates)
    {
      if player in playerTeams {
        playerTeams := playerTeams[player := playerTeams[player][tournament := team]];
      } else {
        playerTeams := playerTeams[player := map[tournament := team]];
      }
      if player in playerTournaments {
        playerTournaments := playerTournaments[player := playerTournaments[player] + [tournament]];
      } else {
        playerTournaments := playerTournaments[player := [tournament]];
      }
    }

    /** The player's games, wins and losses start at zero. */
    method ZeroRecord(player: string)
      modifies this
      ensures playerGames == old(playerGames)[player := 0]
      ensures playerWins == old(playerWins)[player := 0]
      ensures playerLosses == old(playerLosses)[player := 0]
      ensures teams == old(teams) && playerScenes == old(playerScenes)
      ensures playerTeams == old(playerTeams) && playerTournaments == old(playerTournaments)
      ensures tournaments == old(tournaments) && incompletePlayers == old(incompletePlayers)
      ensures playerRatings == old(playerRatings) && snapshots == old(snapshots)
      ensures matches == old(matches) && tournamentDates == old(tournamentDates)
    {
      playerGames := playerGames[player := 0];
      playerWins := playerWins[player := 0];
      playerLosses := playerLosses[player := 0];
    }

    /** The closing lines of `add_player`: the player joins the team's
        roster, gets the scene, the team for this tournament, the tournament
        in their list, and zeroed games, wins and losses. */
    method EnrollPlayer(tournament: string, team: string, player: string, playerScene: Option<string>)
      requires tournament in teams
      modifies this
      ensures Roster() == Registration.Enroll(old(Roster()), tournament, team, player, playerScene)
      ensures playerRatings == old(playerRatings) && snapshots == old(snapshots)
      ensures matches == old(matches) && tournamentDates == old(tournamentDates)
    {
      JoinTeam(tournament, team, player, playerScene);
      RecordEntry(tournament, team, player);
      ZeroRecord(player);
    }

    /** `add_player`: register the tournament, refuse a blank team, pick the
        player's name (a placeholder `team n` for a nameless entry), note a
        nameless first entry of a team as incomplete, and enrol. */
    method AddPlayer(name: string, scene: string, team: string, tournament: string) returns (fault: Option<Fault>)
      requires Valid()
      modifies this
      ensures Valid()
      ensures var a := Registration.AddPlayer(old(Roster()), name, scene, team, tournament);
        Roster() == a.roster && fault == a.fault
      ensures playerRatings == old(playerRatings) && snapshots == old(snapshots)
      ensures matches == old(matches) && tournamentDates == old(tournamentDates)
    {
      ghost var r := Roster();
      Registration.AddPlayerKeepsOk(r, name, scene, team, tournament);
      RegisterTournament(tournament);
      if IsBlank(team) {
        return Some(EmptyTeam(tournament));
      }
      ghost var squads := teams[tournament];
      var player := name;
      var playerScene := Some(scene);
      if team in teams[tournament] {
        if name == "" {
          player := team + " " + NatToString(|teams[tournament][team]| + 1);
          playerScene := None;
        }
      } else if name == "" {
        NoteIncomplete(Registration.IncompleteEntry(tournament, team, name, scene));
        player := team + " 1";
        playerScene := None;
      }
      assert player == Registration.EntryName(squads, name, team);
      EnrollPlayer(tournament, team, player, playerScene);
      fault := None;
    }

    /** `ingest_players_from_file` on the rows the CSV reader yields: row 0
        is the header; each data row is tournament, team, player, scene, and
        a blank team field takes the last non-blank one. The first exception
        ends the loop with the dictionaries as far as they got. */
    method IngestPlayersFromFile(rows: seq<seq<string>>) returns (fault: Option<Fault>)
      requires Valid()
      modifies this
      ensures Valid()
      ensures var out := Registration.IngestRows(old(Roster()), rows, |rows|);
        Roster() == out.roster && fault == out.fault
      ensures playerRatings == old(playerRatings) && snapshots == old(snapshots)
      ensures matches == old(matches) && tournamentDates == old(tournamentDates)
    {
      ghost var r0 := Roster();
      var lineCount := 0;
      var lastSeenTeam := "";
      while lineCount < |rows|
        invariant lineCount <= |rows| && Valid()
        invariant Registration.IngestRows(r0, rows, lineCount) == Registration.Ingest(Roster(), lastSeenTeam, None)
        invariant playerRatings == old(playerRatings) && snapshots == old(snapshots)
        invariant matches == old(matches) && tournamentDates == old(tournamentDates)
      {
        var row := rows[lineCount];
        lineCount := lineCount + 1;
        if lineCount > 1 {
          Registration.IngestStep(r0, rows, lineCount);
          ghost var before := Roster();
          ghost var lastBefore := lastSeenTeam;
          if |row| < 4 {
            Registration.IngestStopsAtFault(r0, rows, lineCount, |rows|);
            return Some(MissingField(lineCount - 1));
          }
          var tournament, playerTeam, playerName, playerScene := row[0], row[1], row[2], row[3];
          if IsBlank(playerTeam) {
            playerTeam := lastSeenTeam;
          } else {
            lastSeenTeam := playerTeam;
          }
          fault := AddPlayer(playerName, playerScene, playerTeam, tournament);
          assert Registration.PlayerRow(before, lastBefore, row, lineCount - 1)
              == Registration.Ingest(Roster(), lastSeenTeam, fault);
          if fault.Some? {
            Registration.IngestStopsAtFault(r0, rows, lineCount, |rows|);
            return;
          }
        }
      }
      fault := None;
    }

    /** The end of a match row: the tournament's date is set from the first
        match seen for it, and the match is appended. */
    method RecordMatch(m: Match)
      modifies this
      ensures tournamentDates == if m.tournament in old(tournamentDates) then old(tournamentDates)
                                 else old(tournamentDates)[m.tournament := m.time.day]
      ensures matches == old(matches) + [m]
      ensures Roster() == old(Roster())
      ensures playerRatings == old(playerRatings) && snapshots == old(snapshots)
    {
      if m.tournament !in tournamentDates {
        tournamentDates := tournamentDates[m.tournament := m.time.day];
      }
      matches := matches + [m];
    }

    /** `ingest_matches_from_file` on the rows the CSV reader yields, with
        `int` and `strptime` as the parameters `parseInt` and `parseTime`.
        Row 0 is the header. A row that cannot be read, or whose tournament
        has no team table, ends the loop with that exception; unknown team
        names are collected and raised together after the last row, with
        every match already appended and every first date recorded. */
    method IngestMatchesFromFile(rows: seq<seq<string>>, parseInt: string -> Option<int>, parseTime: string -> Option<Stamp>)
      returns (fault: Option<Fault>)
      requires Valid()
      modifies this
      ensures var s := MatchFile.ScanRows(old(matches), old(tournamentDates), teams, rows, |rows|, parseInt, parseTime);
        matches == s.matches && tournamentDates == s.dates && fault == MatchFile.Raised(s)
      ensures Roster() == old(Roster())
      ensures playerRatings == old(playerRatings) && snapshots == old(snapshots)
    {
      ghost var m0, d0 := matches, tournamentDates;
      var lineCount := 0;
      var errors: seq<TeamError> := [];
      while lineCount < |rows|
        invariant lineCount <= |rows|
        invariant MatchFile.ScanRows(m0, d0, teams, rows, lineCount, parseInt, parseTime)
               == MatchFile.Scan(matches, tournamentDates, errors, None)
        invariant Roster() == old(Roster())
        invariant playerRatings == old(playerRatings) && snapshots == old(snapshots)
      {
        var row := rows[lineCount];
        lineCount := lineCount + 1;
        if lineCount > 1 {
          MatchFile.ScanStep(m0, d0, teams, rows, lineCount, parseInt, parseTime);
          var rowFault;
          errors, rowFault := ScanMatchRow(row, lineCount - 1, errors, parseInt, parseTime);
          if rowFault.Some? {
            MatchFile.ScanStopsAtFault(m0, d0, teams, rows, lineCount, |rows|, parseInt, parseTime);
            return rowFault;
          }
        }
      }
      if errors != [] {
        return Some(UnknownTeams(errors));
      }
      fault := None;
    }

    /** One data row of the match loop: read its fields, look up the
        tournament's teams (raising for an unknown tournament), record the
        unknown team names, and append the match. */
    method ScanMatchRow(row: seq<string>, line: nat, errors: seq<TeamError>,
                        parseInt: string -> Option<int>, parseTime: string -> Option<Stamp>)
      returns (errors': seq<TeamError>, fault: Option<Fault>)
      modifies this
      ensures MatchFile.ScanRow(MatchFile.Scan(old(matches), old(tournamentDates), errors, None), teams, row, line, parseInt, parseTime)
           == MatchFile.Scan(matches, tournamentDates, errors', fault)
      ensures Roster() == old(Roster())
      ensures playerRatings == old(playerRatings) && snapshots == old(snapshots)
    {
      var parsed := MatchFile.ParseRow(row, line, parseInt, parseTime);
      if parsed.Err? {
        return errors, Some(parsed.fault);
      }
      var m := parsed.value;
      if m.tournament !in teams {
        return errors, Some(UnknownTournament(m.tournament));
      }
      errors' := errors;
      if m.team1 !in teams[m.tournament] {
        errors' := errors' + [TeamError(m.tournament, m.team1, m.team2, 1)];
      }
      if m.team2 !in teams[m.tournament] {
        errors' := errors' + [TeamError(m.tournament, m.team2, m.team1, 2)];
      }
      assert errors' == errors + MatchFile.TeamErrors(teams, m);
      RecordMatch(m);
      fault := None;
    }

    /** `ingest_dataset`: the player file, then the match file against the
        teams it registered, then the matches sorted by time. An exception
        from either file propagates and skips what follows it. */
    method IngestDataset(playerRows: seq<seq<string>>, matchRows: seq<seq<string>>,
                         parseInt: string -> Option<int>, parseTime: string -> Option<Stamp>)
      returns (fault: Option<Fault>)
      requires Valid()
      modifies this
      ensures Valid()
      ensures var ing := Registration.IngestRows(old(Roster()), playerRows, |playerRows|);
        Roster() == ing.roster && playerRatings == old(playerRatings) && snapshots == old(snapshots)
      ensures var ing := Registration.IngestRows(old(Roster()), playerRows, |playerRows|);
        ing.fault.Some? ==> fault == ing.fault && matches == old(matches) && tournamentDates == old(tournamentDates)
      ensures var ing := Registration.IngestRows(old(Roster()), playerRows, |playerRows|);
        var s := MatchFile.ScanRows(old(matches), old(tournamentDates), ing.roster.teams, matchRows, |matchRows|, parseInt, parseTime);
        ing.fault.None? ==>
          && fault == MatchFile.Raised(s) && tournamentDates == s.dates
          && matches == if fault.None? then Schedule(s.matches) else s.matches
    {
      fault := IngestPlayersFromFile(playerRows);
      if fault.Some? {
        return;
      }
      fault := IngestMatchesFromFile(matchRows, parseInt, parseTime);
      if fault.Some? {
        return;
      }
      SortMatches();
    }

    /** `self.matches = sorted(self.matches, key=lambda match: match["time"])`. */
    method SortMatches()
      modifies this
      ensures matches == Schedule(old(matches))
      ensures Roster() == old(Roster()) && tournamentDates == old(tournamentDates)
      ensures playerRatings == old(playerRatings) && snapshots == old(snapshots)
    {
      matches := Schedule(matches);
    }

    /** `self.playerratings = {}` and a fresh `Rating()` for every player
        `playerteams` knows. */
    method ResetRatings()
      modifies this
      ensures playerRatings.Keys == playerTeams.Keys && forall p :: p in playerRatings ==> playerRatings[p] == Prior
      ensures Roster() == old(Roster()) && snapshots == old(snapshots) && Registry() == old(Registry())
    {
      playerRatings := map[];
      var left := playerTeams.Keys;
      while left != {}
        invariant left <= playerTeams.Keys
        invariant playerRatings.Keys == playerTeams.Keys - left
        invariant forall p :: p in playerRatings ==> playerRatings[p] == Prior
        invariant Roster() == old(Roster()) && snapshots == old(snapshots) && Registry() == old(Registry())
        decreases left
      {
        var player :| player in left;
        playerRatings := playerRatings[player := Prior];
        left := left - {player};
      }
    }

    /** `playergames[player] += played`, and likewise for wins and losses. */
    method CreditPlayer(player: string, played: int, won: int, lost: int)
      requires player in playerGames && player in playerWins && player in playerLosses
      modifies this
      ensures Counters(playerGames, playerWins, playerLosses)
           == Replay.CreditOne(old(Counters(playerGames, playerWins, playerLosses)), player, played, won, lost)
      ensures playerRatings == old(playerRatings) && snapshots == old(snapshots) && Registry() == old(Registry())
    {
      playerGames := playerGames[player := playerGames[player] + played];
      playerWins := playerWins[player := playerWins[player] + won];
      playerLosses := playerLosses[player := playerLosses[player] + lost];
    }

    /** One team's crediting loop: each player's rating is collected in
        roster order and the player gains the match's games, wins and losses. */
    method CreditTeam(roster: seq<string>, played: int, won: int, lost: int) returns (rs: seq<Rating>)
      requires Replay.Tracked(playerRatings, Counters(playerGames, playerWins, playerLosses), roster)
      modifies this
      ensures playerRatings == old(playerRatings) && snapshots == old(snapshots) && Registry() == old(Registry())
      ensures rs == Replay.RatingsOf(playerRatings, roster)
      ensures Counters(playerGames, playerWins, playerLosses)
           == Replay.Credit(old(Counters(playerGames, playerWins, playerLosses)), roster, played, won, lost)
    {
      ghost var c0 := Counters(playerGames, playerWins, playerLosses);
      rs := [];
      var i := 0;
      while i < |roster|
        invariant i <= |roster| && forall p :: p in roster ==> p in playerRatings
        invariant rs == Replay.RatingsOf(playerRatings, roster[..i])
        invariant Counters(playerGames, playerWins, playerLosses) == Replay.Credit(c0, roster[..i], played, won, lost)
        invariant playerRatings == old(playerRatings) && snapshots == old(snapshots) && Registry() == old(Registry())
      {
        var player := roster[i];
        assert roster[..i + 1] == roster[..i] + [player];
        Replay.CreditSnoc(c0, roster[..i], player, played, won, lost);
        rs := rs + [playerRatings[player]];
        CreditPlayer(player, played, won, lost);
        i := i + 1;
      }
      assert roster[..i] == roster;
    }

    /** The two `for x in range(...)` loops: one `rate` call per game won by
        team 1, then one per game won by team 2. */
    static method PlayGames(rate: Replay.RateFn, t1: seq<Rating>, t2: seq<Rating>, team1Wins: int, team2Wins: int)
      returns (r1: seq<Rating>, r2: seq<Rating>)
      ensures (r1, r2) == Replay.Play(rate, t1, t2, team1Wins, team2Wins)
    {
      r1, r2 := t1, t2;
      var x := 0;
      while x < team1Wins
        invariant 0 <= x && (x <= team1Wins || x == 0)
        invariant (r1, r2) == Replay.Repeat(rate, (t1, t2), Replay.Team1Won, x)
      {
        var rated := rate(r1, r2, Replay.Team1Won);
        r1, r2 := rated.0, rated.1;
        x := x + 1;
      }
      ghost var half := (r1, r2);
      x := 0;
      while x < team2Wins
        invariant 0 <= x && (x <= team2Wins || x == 0)
        invariant (r1, r2) == Replay.Repeat(rate, half, Replay.Team2Won, x)
      {
        var rated := rate(r1, r2, Replay.Team2Won);
        r1, r2 := rated.0, rated.1;
        x := x + 1;
      }
    }

    /** `for i in range(5): self.playerratings[roster[i]] = vals[i]`; false
        when an index runs off the roster or the rated list (the IndexError),
        with the earlier positions already written. */
    method StoreRatings(roster: seq<string>, vals: seq<Rating>) returns (ok: bool)
      modifies this
      ensures var w := Replay.WriteBack(old(playerRatings), roster, vals);
        playerRatings == w.ratings && ok == w.ok
      ensures Counters(playerGames, playerWins, playerLosses) == old(Counters(playerGames, playerWins, playerLosses))
      ensures snapshots == old(snapshots) && Registry() == old(Registry())
    {
      ghost var ratings0 := playerRatings;
      var i := 0;
      while i < Replay.Positions
        invariant i <= Replay.Positions && i <= |roster| && i <= |vals|
        invariant playerRatings == Replay.WriteFirst(ratings0, roster, vals, i)
        invariant Counters(playerGames, playerWins, playerLosses) == old(Counters(playerGames, playerWins, playerLosses))
        invariant snapshots == old(snapshots) && Registry() == old(Registry())
      {
        if i >= |vals| || i >= |roster| {
          return false;
        }
        playerRatings := playerRatings[roster[i] := vals[i]];
        i := i + 1;
      }
      ok := true;
    }

    /** The body of the match loop once the pointer has moved: look up team
        1 and credit it, look up team 2 and credit it, rate every game, and
        write both teams' first five ratings back. A failed lookup or index
        raises, leaving what was already written. */
    method PlayMatch(m: Match, current: string, rate: Replay.RateFn) returns (fault: Option<Fault>)
      requires Replay.Known(teams, EngineAt(current))
      modifies this
      ensures Registry() == old(Registry())
      ensures Replay.Run(EngineAt(current), fault) == Replay.Apply(old(EngineAt(current)), teams, m, rate)
    {
      var tournament := m.tournament;
      if tournament !in teams {
        return Some(UnknownTournament(tournament));
      }
      if m.team1 !in teams[tournament] {
        return Some(UnknownTeam(tournament, m.team1));
      }
      var roster1 := teams[tournament][m.team1];
      assert Replay.Tracked(playerRatings, Counters(playerGames, playerWins, playerLosses), roster1);
      var t1ratings := CreditTeam(roster1, Replay.Played(m), m.team1Wins, m.team2Wins);
      if m.team2 !in teams[tournament] {
        return Some(UnknownTeam(tournament, m.team2));
      }
      var roster2 := teams[tournament][m.team2];
      assert Replay.Tracked(old(playerRatings), old(Counters(playerGames, playerWins, playerLosses)), roster2);
      var t2ratings := CreditTeam(roster2, Replay.Played(m), m.team2Wins, m.team1Wins);
      t1ratings, t2ratings := PlayGames(rate, t1ratings, t2ratings, m.team1Wins, m.team2Wins);
      var ok := StoreRatings(roster1, t1ratings);
      if !ok {
        return Some(RosterIndex(tournament, m.team1));
      }
      ok := StoreRatings(roster2, t2ratings);
      if !ok {
        return Some(RosterIndex(tournament, m.team2));
      }
      fault := None;
    }

    /** One pass of the match loop: a snapshot under the current tournament
        when the match belongs to another one, then the match itself. */
    method ReplayMatch(m: Match, current: string, rate: Replay.RateFn) returns (current': string, fault: Option<Fault>)
      requires Replay.Known(teams, EngineAt(current))
      modifies this
      ensures Registry() == old(Registry())
      ensures Replay.Run(EngineAt(current'), fault) == Replay.Step(old(EngineAt(current)), teams, m, rate)
    {
      current' := current;
      if current != m.tournament {
        RecordSnapshot(current);
        current' := m.tournament;
      }
      assert EngineAt(current') == Replay.Advance(old(EngineAt(current)), m.tournament);
      Replay.KnownByKeys(teams, old(EngineAt(current)), EngineAt(current'));
      fault := PlayMatch(m, current', rate);
    }

    /** `calculate_trueskills`: every player back at the prior, then each
        match in list order, with a snapshot under the previous tournament
        whenever the tournament changes and one more after the last match.
        Counters and snapshots are not reset. An exception from a match ends
        the replay with the state as far as it got. */
    method CalculateTrueSkills(rate: Replay.RateFn) returns (fault: Option<Fault>)
      requires Valid()
      modifies this
      ensures Valid() && Registry() == old(Registry())
      ensures Replay.Known(teams, Replay.Start(old(playerTeams).Keys, old(Counters(playerGames, playerWins, playerLosses)), old(snapshots)))
      ensures var r := Replay.CalculateTrueSkills(old(playerTeams).Keys, old(Counters(playerGames, playerWins, playerLosses)),
                                                  old(snapshots), teams, matches, rate);
        && playerRatings == r.engine.ratings && Counters(playerGames, playerWins, playerLosses) == r.engine.counters
        && snapshots == r.engine.snapshots && fault == r.fault
    {
      ghost var r0 := Roster();
      ghost var e0 := Replay.Start(playerTeams.Keys, Counters(playerGames, playerWins, playerLosses), snapshots);
      RosterKnown(r0, snapshots);
      ResetRatings();
      assert EngineAt("") == e0;
      var current;
      current, fault := ReplayAll(e0, rate);
      if fault.None? {
        RecordSnapshot(current);
      }
      KeepsValid(r0, e0, |matches|, rate);
    }

    /** The match loop of `calculate_trueskills`, from the reset ratings
        with the pointer at `''`; it stops at the first exception. */
    method ReplayAll(ghost e0: Replay.Engine, rate: Replay.RateFn) returns (current: string, fault: Option<Fault>)
      requires Replay.Known(teams, e0) && EngineAt("") == e0
      modifies this
      ensures Registry() == old(Registry())
      ensures Replay.Run(EngineAt(current), fault) == Replay.ReplayN(e0, teams, matches, |matches|, rate)
    {
      current := "";
      fault := None;
      var i := 0;
      while i < |matches|
        invariant i <= |matches| && Registry() == old(Registry())
        invariant Replay.ReplayN(e0, teams, matches, i, rate) == Replay.Run(EngineAt(current), None) && fault.None?
      {
        ghost var before := EngineAt(current);
        current, fault := ReplayMatch(matches[i], current, rate);
        Replay.ReplayAdvance(e0, teams, matches, i, rate, before, Replay.Run(EngineAt(current), fault));
        i := i + 1;
        if fault.Some? {
          return;
        }
      }
    }

    /** The counters after any prefix of the replay keep the roster invariant. */
    lemma KeepsValid(r0: Registration.Roster, e0: Replay.Engine, n: nat, rate: Replay.RateFn)
      requires Registration.RosterOk(r0) && Registry() == (r0.tournaments, r0.teams, r0.scenes, r0.playerTeams, r0.playerTournaments, r0.incomplete, matches, tournamentDates)
      requires e0.counters == r0.counters && Replay.Known(teams, e0) && n <= |matches|
      requires Counters(playerGames, playerWins, playerLosses) == Replay.ReplayN(e0, teams, matches, n, rate).engine.counters
      ensures Valid()
    {
      Replay.ReplayKeepsKeys(e0, teams, matches, n, rate);
      Replay.ReplayKeepsBalanced(e0, teams, matches, n, rate);
    }
  }
}
