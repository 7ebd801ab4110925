# KQTrueSkill rating tracker: a Dafny model

This project models the `KQTrueSkill` tracker of `KQTrueSkill/KQtrueskill.py`. The tracker:

- reads a player file of tournament rosters (`add_player` and the row loop of `ingest_players_from_file`);
- reads a match file (`ingest_matches_from_file`) and sorts the matches by time (`ingest_dataset`);
- replays every match through an external rating function (`calculate_trueskills`). The replay credits games, wins and losses, writes the first five rated players of each team back, and stores a snapshot of the rating map whenever the tournament changes (`record_trueskill_snapshot`);
- lays out the report's header and team columns (`write_player_ratings`).

The project has two layers:

- **Value model.** Modules `Registration`, `MatchFile`, `Replay` and `Report` describe each step as functions on plain values. The properties are proved as lemmas about those functions.
- **Imperative model.** Module `Tracker` holds the class `KQTrueSkill`, which has the source's dictionaries and lists as fields. Its methods run the source's statements on those fields, with the source's loops and their invariants. Each method is proved to leave exactly the state the value model computes.

Other pieces:

- An exception becomes a `Fault` value (`Common.Fault`). The state it leaves is the partially updated state the source leaves.
- `trueskill.rate`, Python's `int()` and `datetime.strptime` are function-valued parameters.
- Python's `sorted` with a key is a stable insertion sort (module `Sorting`).

Files: `common.dfy`, `sorting.dfy`, `registration.dfy`, `matchfile.dfy`, `replay.dfy`, `report.dfy`, `tracker.dfy`.

Behaviours of the code worth noting, all kept by the model:

- **Tournament date.** It is the day of the first match *in file order*, not the earliest one (`MatchFile.DatesRecordedFirstSeen`).
- **First match of a replay.** It does store a snapshot: under the initial pointer `''`, holding every player at the prior (`Replay.FirstSnapshotUnderBlank`).
- **Repeated tournament.** When a tournament's matches come in more than one block, its snapshot is overwritten at each later switch. The stored value is the one from the last switch away from it (`Replay.SnapshotAtLastSwitch`). Snapshots are not write-once.
- **Unknown tournament in a match file.** It is not aggregated with the other errors. Looking up `self.teams[tournament]` raises a KeyError at once (`MatchFile.ScanRow`, `Tracker.KQTrueSkill.IngestMatchesFromFile`).
- **Counters.** `calculate_trueskills` resets the ratings but not the games, wins and losses counters. A replay adds each match's tally to whatever they held (`Replay.ReplayTally`), so running it twice counts every game twice.

## Model

| member | source | states |
|---|---|---|
| Common.NatToString | KQTrueSkill/KQtrueskill.py:176 | The decimal text of a number, as `f"{n}"` renders it: non-empty, all digits, digits whose decimal value is the number, and no leading zero (only `"0"` starts with `0`). |
| Common.NatToStringInjective | KQTrueSkill/KQtrueskill.py:176 | Different numbers render to different texts, which keeps placeholder names apart. |
| Sorting.SortBySorted | KQTrueSkill/KQtrueskill.py:61 | The result of `sorted(xs, key=...)` is ordered by key. |
| Sorting.SortBy | KQTrueSkill/KQtrueskill.py:61 | `sorted(xs, key=...)` holds exactly the input's elements, with their multiplicities. |
| Sorting.SortByStable | KQTrueSkill/KQtrueskill.py:61 | `sorted` is stable: for each key, the elements carrying it keep their input order. |
| Sorting.InsertSorted | KQTrueSkill/KQtrueskill.py:61 | Inserting into a sorted list keeps it sorted. |
| Sorting.InsertPermutes | KQTrueSkill/KQtrueskill.py:61 | Insertion adds exactly the one element. |
| Sorting.InsertWithKey | KQTrueSkill/KQtrueskill.py:61 | Insertion puts the new element before every element with the same key. |
| Registration.EmptyRoster | KQTrueSkill/KQtrueskill.py:14-26 | The constructor's empty dictionaries satisfy the roster invariant. |
| Registration.Register | KQTrueSkill/KQtrueskill.py:167-169 | The tournament is listed afterwards. The old list is a prefix of the new one, which has at most one more entry. A new tournament gets an empty team table. Nothing but the tournament list and the team tables changes. |
| Registration.Enroll | KQTrueSkill/KQtrueskill.py:174-200 | The entry is appended to the team's roster, which is created when new. The player records the team for the tournament and the scene it was given. The tournament list and the incomplete log are unchanged, and no tournament gains or loses a team table. |
| Registration.AddPlayer | KQTrueSkill/KQtrueskill.py:166-200 | The tournament is listed afterwards, whether or not the call raises. It raises the empty-team exception exactly when the team is blank. When it returns normally, the team is on the tournament's table. |
| Registration.PlayerRow | KQTrueSkill/KQtrueskill.py:150-161 | A row with fewer than four fields raises (the IndexError of `row[3]`) and changes nothing. A non-blank team field becomes `last_seen_team`. The row's tournament is listed afterwards. A row that goes through had four fields and leaves a non-blank `last_seen_team`. |
| Registration.FirstPlaceholder | KQTrueSkill/KQtrueskill.py:176-182 | The literal `team + " 1"` for a new team is the general placeholder `team + " " + (size + 1)` at size 0. |
| Registration.AddsJoined | KQTrueSkill/KQtrueskill.py:166-184 | `add_player` files the entry under the given name, or under the placeholder numbered after the team's current size. |
| Registration.BlankTeamRaises | KQTrueSkill/KQtrueskill.py:166-172 | `add_player` raises exactly when the team is blank. The tournament has already been registered when it raises. |
| Registration.RegistersTournamentOnce | KQTrueSkill/KQtrueskill.py:167-169 | The tournament is appended exactly when it is absent, so the list never holds a duplicate, and it gets a team table. |
| Registration.EnrollAppends | KQTrueSkill/KQtrueskill.py:174-184 | Enrolling appends the player to the team's roster, creating the team if needed. No tournament or team disappears, and every other roster is unchanged. |
| Registration.RosterGrowsByOne | KQTrueSkill/KQtrueskill.py:174-184 | The team's roster grows by exactly one entry at its end, under the name `add_player` chose. |
| Registration.OtherRostersKept | KQTrueSkill/KQtrueskill.py:167-184 | Every registered team stays registered, and every other team's roster keeps its entries. |
| Registration.RegisterKeepsTeams | KQTrueSkill/KQtrueskill.py:167-169 | Registering a tournament leaves every existing team table as it was. |
| Registration.PlayerRecorded | KQTrueSkill/KQtrueskill.py:177-200 | The entry's player records the team for this tournament, keeps the player's other tournaments, and gets this tournament appended. The scene is recorded only for a named player. Games, wins and losses are reset to 0. |
| Registration.OthersUntouched | KQTrueSkill/KQtrueskill.py:186-200 | No other player's teams, tournaments, scene, games, wins or losses change. |
| Registration.IncompleteOnlyForNewTeam | KQTrueSkill/KQtrueskill.py:174-184 | A nameless player is logged as incomplete exactly when the team is new to the tournament. |
| Registration.PlaceholdersDistinct | KQTrueSkill/KQtrueskill.py:176 | Placeholders made for one team at different roster sizes differ. |
| Registration.RegisterKeepsOk | KQTrueSkill/KQtrueskill.py:167-169 | Registering a tournament keeps the roster invariant. |
| Registration.EnrollKeepsOk | KQTrueSkill/KQtrueskill.py:174-200 | Enrolling a player keeps the roster invariant. |
| Registration.EnrollKeepsRegistry | KQTrueSkill/KQtrueskill.py:174-191 | Enrolling keeps the tournaments distinct and registered, and every roster entry has a player record. |
| Registration.EnrollKeepsRecords | KQTrueSkill/KQtrueskill.py:186-200 | Enrolling keeps the per-player dictionaries on one key set, keeps `games == wins + losses`, and files every tournament of a player with a team. |
| Registration.AddPlayerKeepsOk | KQTrueSkill/KQtrueskill.py:166-200 | `add_player` keeps the roster invariant, whether or not it raises. |
| Registration.IngestRows | KQTrueSkill/KQtrueskill.py:141-150 | Before the first data row, the player-file loop has changed nothing and `last_seen_team` is unset. |
| Registration.IngestStep | KQTrueSkill/KQtrueskill.py:150-161 | Each data row after an exception-free prefix is one `PlayerRow`: four fields read, the team carried over, then `add_player`. |
| Registration.HeaderIgnored | KQTrueSkill/KQtrueskill.py:147-149 | The header row's contents never affect the loop. |
| Registration.PlayerRowCarries | KQTrueSkill/KQtrueskill.py:152-160 | A row that raises nothing had four fields, and `last_seen_team` becomes its team field, or stays as it was when that field is blank. |
| Registration.ExtendBlank | KQTrueSkill/KQtrueskill.py:157-158 | A run of blank team fields extends by one more blank row. |
| Registration.CarriesLastTeam | KQTrueSkill/KQtrueskill.py:145-160 | After an exception-free prefix, `last_seen_team` is the team field of the last data row whose team is not blank. It is unset when there is no such row. |
| Registration.IngestKeepsOk | KQTrueSkill/KQtrueskill.py:141-161 | Every prefix of the player-file loop keeps the roster invariant. |
| Registration.IngestStopsAtFault | KQTrueSkill/KQtrueskill.py:146-161 | An exception ends the loop: later rows change nothing. |
| Registration.FaultHalts | KQTrueSkill/KQtrueskill.py:146-161 | A row after an exception leaves the loop's state as it was. |
| MatchFile.ScanRows | KQTrueSkill/KQtrueskill.py:206-247 | The match-file loop only appends: the matches held before the file stay, as a prefix. |
| MatchFile.ParseRow | KQTrueSkill/KQtrueskill.py:217-223 | A row shorter than five fields raises at once. A row is read exactly when it has seven fields, both win counts parse and the timestamp parses. The match then holds the row's first four fields and the parsed values. |
| MatchFile.ScanRow | KQTrueSkill/KQtrueskill.py:215-246 | A row that raises changes no match, date or error. A row that goes through appends exactly one match, whose tournament has a team table and a date. It only extends the errors and keeps every earlier date. |
| MatchFile.Raised | KQTrueSkill/KQtrueskill.py:249-250 | The file raises nothing exactly when no row raised and no team error was recorded. When a row raised, that exception is the one the file raises. |
| MatchFile.ScanStep | KQTrueSkill/KQtrueskill.py:215-247 | One data row: after an exception nothing changes. A row that raises leaves matches, dates and errors as they were. Otherwise the row parsed, its tournament has a team table, the match is appended, the date is set if new, and the team errors are added. |
| MatchFile.EveryRowAppended | KQTrueSkill/KQtrueskill.py:211-247 | When no row raised, every data row was parsed and appended, in file order. |
| MatchFile.ErrorFromSomeAppend | KQTrueSkill/KQtrueskill.py:226-231 | An error explained by some match stays explained after another match is appended. |
| MatchFile.ErrorsAccountForAppend | KQTrueSkill/KQtrueskill.py:226-231 | Appending a match with its team errors keeps the errors in step with the matches. |
| MatchFile.ScanStart | KQTrueSkill/KQtrueskill.py:209-214 | Before the first data row, nothing is appended and no error is recorded. |
| MatchFile.ScanAppended | KQTrueSkill/KQtrueskill.py:215-247 | After a data row that raised nothing, the row's match was appended, its date set if new, and its team errors recorded. |
| MatchFile.ErrorsStep | KQTrueSkill/KQtrueskill.py:228-231 | One appended match keeps every unknown team recorded, and keeps every record explained. |
| MatchFile.ErrorsAccumulate | KQTrueSkill/KQtrueskill.py:210-231 | Errors gather across all rows read. Every unknown team of an appended match is recorded, and every record names a team the match's tournament lacks. |
| MatchFile.NoErrorsIffTeamsKnown | KQTrueSkill/KQtrueskill.py:226-250 | The aggregated exception is raised exactly when some appended match names a team its tournament does not have. |
| MatchFile.DatesFirstSeenAppend | KQTrueSkill/KQtrueskill.py:234-235 | Appending a match and setting its tournament's date when new keeps dates at first sight. |
| MatchFile.DatesStep | KQTrueSkill/KQtrueskill.py:234-246 | One appended match keeps the recorded dates at first sight. |
| MatchFile.DatesRecordedFirstSeen | KQTrueSkill/KQtrueskill.py:233-235 | Dates already known are kept. Every appended match's tournament gets a date, which is the day of that tournament's first match in file order. |
| MatchFile.ScanStopsAtFault | KQTrueSkill/KQtrueskill.py:217-228 | A row that cannot be read, or an unknown tournament, ends the loop: later rows change nothing. |
| Replay.Bump | KQTrueSkill/KQtrueskill.py:93-102 | A crediting loop over a roster keeps the counter dictionary's keys. |
| Replay.Credit | KQTrueSkill/KQtrueskill.py:93-102 | A crediting loop adds no player to, and removes none from, the games, wins and losses dictionaries. |
| Replay.Repeat | KQTrueSkill/KQtrueskill.py:105-109 | When `rate` returns one rating per player given, any number of games keeps both lists' lengths. |
| Replay.Play | KQTrueSkill/KQtrueskill.py:105-109 | Both game loops keep the lists' lengths under such a `rate`. A match with no wins on either side leaves both lists as they were. |
| Replay.Advance | KQTrueSkill/KQtrueskill.py:85-87 | The pointer becomes the match's tournament. On a switch, the current ratings are stored under the old pointer, and otherwise no snapshot changes. Ratings and counters are untouched. |
| Replay.Apply | KQTrueSkill/KQtrueskill.py:93-115 | A match never changes the snapshots or the pointer. An unknown tournament raises with nothing changed. A match that goes through had its tournament and both teams registered. |
| Replay.Rate | KQTrueSkill/KQtrueskill.py:93-115 | Snapshots and pointer are untouched. A match that goes through had at least five players on each team. Otherwise the IndexError names team 1 or team 2. |
| Replay.Step | KQTrueSkill/KQtrueskill.py:76-115 | After the loop body, the pointer is the match's tournament. On a switch, the old pointer's snapshot holds the ratings from before the match, and otherwise no snapshot changes. |
| Replay.Finish | KQTrueSkill/KQtrueskill.py:116 | After a replay without exception, the last tournament's snapshot is the final rating map, and ratings and counters are kept. After an exception nothing more happens. |
| Replay.CalculateTrueSkills | KQTrueSkill/KQtrueskill.py:65-116 | The ratings end up keyed by exactly the players `playerteams` knows, and the games counter neither gains nor loses a key. After a full replay, the last tournament's snapshot is the final rating map. |
| Replay.BumpCounts | KQTrueSkill/KQtrueskill.py:93-102 | After a crediting loop, a player listed k times on the roster has gained k times the amount. Every other player keeps its count. |
| Replay.CreditSnoc | KQTrueSkill/KQtrueskill.py:93-97 | Crediting a roster is crediting its players one after another. |
| Replay.CreditKeepsBalanced | KQTrueSkill/KQtrueskill.py:93-102 | Crediting a team keeps `games == wins + losses` for every player. |
| Replay.RatingsOf | KQTrueSkill/KQtrueskill.py:93-99 | The collected rating list has one entry per roster position: the i-th is the rating of the i-th player. |
| Replay.RepeatSplits | KQTrueSkill/KQtrueskill.py:105-109 | Each game consumes the previous game's lists: rating a + b games is rating a games, then b more. |
| Replay.RepeatOnce | KQTrueSkill/KQtrueskill.py:105-106 | One game is one call of `rate`. |
| Replay.RepeatKeepsLengths | KQTrueSkill/KQtrueskill.py:105-109 | With a length-preserving `rate`, both lists keep their lengths however many games are rated. |
| Replay.Reach | KQTrueSkill/KQtrueskill.py:112-115 | The write-back loop gets as far as the least of 5, the roster length and the rated list's length. |
| Replay.WriteBack | KQTrueSkill/KQtrueskill.py:112-115 | The write-back loop gets through exactly when the roster and the rated list both have at least five entries. |
| Replay.WriteFirstOthers | KQTrueSkill/KQtrueskill.py:112-115 | Writing the first n positions keeps the rating map's keys and every player not among them. |
| Replay.WriteBackOthers | KQTrueSkill/KQtrueskill.py:112-115 | Write-back keeps the key set. Every player outside the first five positions keeps its rating, even when the loop raises. |
| Replay.WriteFirstPositional | KQTrueSkill/KQtrueskill.py:112-115 | After n positions, the player at position i has the i-th value, unless a later position names the same player. |
| Replay.WriteBackPositional | KQTrueSkill/KQtrueskill.py:112-115 | A completed write-back gives the player at position i < 5 the i-th rated value, unless a later position names the same player. |
| Replay.ApplyKeepsKeys | KQTrueSkill/KQtrueskill.py:93-115 | A match never touches the snapshots or the pointer, and keeps the key sets of ratings and counters, whether or not it raises. |
| Replay.ApplyRatesOnlyFirstFive | KQTrueSkill/KQtrueskill.py:112-115 | A match leaves unchanged the rating of every player outside the first five positions of its two teams. |
| Replay.BumpTwice | KQTrueSkill/KQtrueskill.py:93-102 | Two crediting loops in a row add both amounts, counted per listing. |
| Replay.ApplyDone | KQTrueSkill/KQtrueskill.py:93-115 | A match that goes through found its tournament and both teams, and it is `Rate` on their rosters. |
| Replay.RateCounters | KQTrueSkill/KQtrueskill.py:93-115 | Rating a match leaves the counters both crediting loops produced, whether or not the write-back raises. |
| Replay.CreditedField | KQTrueSkill/KQtrueskill.py:93-102 | One counter dictionary after both crediting loops, per player. |
| Replay.CreditedCounts | KQTrueSkill/KQtrueskill.py:93-102 | Both crediting loops add exactly the match's tally to each player. Games count both teams' wins. Team 1 players win team 1's games and lose team 2's, and the reverse for team 2. |
| Replay.ApplyCounters | KQTrueSkill/KQtrueskill.py:93-102 | A lookup failing before team 1 leaves the counters unchanged. A missing team 2 leaves only team 1 credited. Otherwise both teams are credited. |
| Replay.CreditedKeepsBalanced | KQTrueSkill/KQtrueskill.py:93-102 | Both crediting loops keep `games == wins + losses`. |
| Replay.ApplyKeepsBalanced | KQTrueSkill/KQtrueskill.py:93-115 | Every match keeps `games == wins + losses`, also when it raises half way. |
| Replay.KnownByKeys | KQTrueSkill/KQtrueskill.py:93-102 | Whether every registered player can be looked up depends only on the key sets. |
| Replay.ApplySucceeds | KQTrueSkill/KQtrueskill.py:93-115 | With a length-preserving `rate`, a match goes through exactly when its tournament and both teams are registered and both rosters have at least five players. |
| Replay.RateWritesBack | KQTrueSkill/KQtrueskill.py:104-115 | A match that goes through stores the rated lists back by position: team 2's i-th player gets team 2's i-th rating, and team 1's i-th player gets team 1's, unless a later write names the same player. |
| Replay.StepSnapshots | KQTrueSkill/KQtrueskill.py:85-87 | When the tournament changes, a copy of the ratings is stored under the old pointer and the pointer moves. This happens before the match is looked up, so also when the match raises. |
| Replay.ReplayN | KQTrueSkill/KQtrueskill.py:76-115 | Every prefix of the replay keeps every registered player looked up. |
| Replay.Start | KQTrueSkill/KQtrueskill.py:70-72 | After the reset, every player `playerteams` knows, and no other, is at the prior. |
| Replay.ReplayStopsAtFault | KQTrueSkill/KQtrueskill.py:76-115 | An exception ends the replay: later matches change nothing. |
| Replay.ReplayPrefixOk | KQTrueSkill/KQtrueskill.py:76-115 | A replay that got through n matches got through every shorter prefix. |
| Replay.ReplayKeepsBalanced | KQTrueSkill/KQtrueskill.py:76-115 | `games == wins + losses` holds after any prefix of the replay, also one that raised. |
| Replay.ReplayPointer | KQTrueSkill/KQtrueskill.py:75-87 | While the replay goes through, the pointer is the last match's tournament, or `''` before any match. |
| Replay.ReplaySnapshotStep | KQTrueSkill/KQtrueskill.py:85-87 | Match i stores a snapshot exactly when it switches tournament. The snapshot goes under the previous pointer and holds the ratings after match i - 1. No other snapshot changes. |
| Replay.ReplayStep | KQTrueSkill/KQtrueskill.py:76-115 | One more iteration of the loop is one more `Step`. |
| Replay.ReplayAdvance | KQTrueSkill/KQtrueskill.py:76-115 | After one more match, the state is the next prefix when the match raised nothing, and otherwise the final result. |
| Replay.StepOfBookkeeps | KQTrueSkill/KQtrueskill.py:85-87 | The replay's loop body moves the pointer and stores snapshots exactly as `Advance` does. |
| Replay.LoopIsReplay | KQTrueSkill/KQtrueskill.py:76-115 | The replay is the generic match loop with the replay's body. |
| Replay.LoopStopsAtFault | KQTrueSkill/KQtrueskill.py:76-115 | In any match loop, an exception ends the loop. |
| Replay.LoopPointer | KQTrueSkill/KQtrueskill.py:85-87 | In any loop body that moves the pointer as the replay does, the pointer follows the last match's tournament. |
| Replay.LoopKept | KQTrueSkill/KQtrueskill.py:85-87 | Along such a loop, a key that no switch stores under keeps its snapshot. |
| Replay.LoopAtLastSwitch | KQTrueSkill/KQtrueskill.py:85-87 | Along such a loop, a switch stores the current ratings under the old pointer, and no later switch away from that key overwrites them. |
| Replay.SnapshotKept | KQTrueSkill/KQtrueskill.py:85-87 | A stored snapshot is a copy: it stays as it is until a later switch stores under the same key. |
| Replay.SnapshotAtLastSwitch | KQTrueSkill/KQtrueskill.py:85-87 | The snapshot under a key holds the ratings from just before the last switch away from that key. An earlier block of the same tournament is overwritten. |
| Replay.ApplyTally | KQTrueSkill/KQtrueskill.py:93-102 | A match that goes through adds its tally to every tracked player. |
| Replay.StepOfKeepsKnown | KQTrueSkill/KQtrueskill.py:76-115 | The replay's body keeps every registered player looked up. |
| Replay.StepOfAddsTally | KQTrueSkill/KQtrueskill.py:93-102 | The replay's body adds the match's tally to a player when it goes through. |
| Replay.LoopKnown | KQTrueSkill/KQtrueskill.py:76-115 | A loop with such a body keeps every registered player looked up. |
| Replay.LoopTally | KQTrueSkill/KQtrueskill.py:76-102 | A loop whose body adds tallies adds the sum of the replayed matches' tallies. |
| Replay.ReplayTally | KQTrueSkill/KQtrueskill.py:65-102 | The counters are not reset. A replay that goes through adds every match's tally to what they held before. |
| Replay.IdleKeepsRating | KQTrueSkill/KQtrueskill.py:76-115 | A player outside the first five positions of every replayed match keeps its starting rating, whether or not the replay raised. |
| Replay.ReplayKeepsKeys | KQTrueSkill/KQtrueskill.py:76-115 | The rating map and the counters keep their keys through the whole replay. |
| Replay.FirstSnapshotUnderBlank | KQTrueSkill/KQtrueskill.py:75-87 | The first match of a non-blank tournament stores, under `''`, the reset ratings with every player at the prior. This happens also when that match raises. |
| Replay.FinalSnapshot | KQTrueSkill/KQtrueskill.py:85-116 | After a replay that went through, the last tournament's snapshot is the final rating map, whose keys are the players. With no matches, that snapshot is under `''`. |
| Replay.IdleStaysAtPrior | KQTrueSkill/KQtrueskill.py:67-116 | A player never in a rated position of any match ends at the prior. |
| Report.FirstUndated | KQTrueSkill/KQtrueskill.py:258 | The lookup of `tournamentdates[t]` fails exactly when some tournament has no date, and it fails on the first such tournament. |
| Report.TournamentOrder | KQTrueSkill/KQtrueskill.py:258 | The order exists exactly when every tournament has a date. It then holds exactly the registry's tournaments. Otherwise the fault names an undated registered tournament. |
| Report.Header | KQTrueSkill/KQtrueskill.py:257-261 | The header exists exactly when every tournament has a date. It then starts with the eight fixed columns, followed by twice as many columns as there are tournaments. |
| Report.TournamentOrderDefined | KQTrueSkill/KQtrueskill.py:258 | The tournament order exists exactly when every tournament has a date. Otherwise the fault names an undated tournament. |
| Report.TournamentOrderSorted | KQTrueSkill/KQtrueskill.py:258 | The tournament order holds the registered tournaments, sorted by date. Tournaments of equal date keep registration order. |
| Report.HeaderLayout | KQTrueSkill/KQtrueskill.py:257-261 | The header has 8 + 2n columns: the eight fixed ones, then the tournament order twice. Column 8 + i and column 8 + n + i name the same tournament. |
| Report.DoubledLayout | KQTrueSkill/KQtrueskill.py:260-261 | The fixed columns followed by a list written twice line up the two copies. |
| Report.TeamCells | KQTrueSkill/KQtrueskill.py:277-281 | A player's row has one team cell per tournament column. |
| Report.TeamCellsAlign | KQTrueSkill/KQtrueskill.py:277-281 | The i-th team cell is empty exactly when the player did not enter the i-th tournament. Otherwise it starts with the tournament and ends with the player's team. |
| Tracker.Schedule | KQTrueSkill/KQtrueskill.py:61 | The matches after `ingest_dataset` are sorted by time and are the same matches. Matches of equal time keep their order. |
| Tracker.RosterKnown | KQTrueSkill/KQtrueskill.py:70-102 | After the reset, the roster invariant makes every registered player's lookups in the replay succeed. |
| Tracker.KQTrueSkill.constructor | KQTrueSkill/KQtrueskill.py:12-26 | A new tracker has empty dictionaries and lists and satisfies the roster invariant. |
| Tracker.KQTrueSkill.RecordSnapshot | KQTrueSkill/KQtrueskill.py:320-321 | Stores the current rating map under the tournament. Nothing else changes. |
| Tracker.KQTrueSkill.RegisterTournament | KQTrueSkill/KQtrueskill.py:167-169 | The roster becomes `Register` of the old one. |
| Tracker.KQTrueSkill.NoteIncomplete | KQTrueSkill/KQtrueskill.py:181 | Appends the entry to the incomplete list and changes nothing else. |
| Tracker.KQTrueSkill.JoinTeam | KQTrueSkill/KQtrueskill.py:174-186 | Appends the player to the team's roster, creating the team, and sets the player's scene. Nothing else changes. |
| Tracker.KQTrueSkill.RecordEntry | KQTrueSkill/KQtrueskill.py:188-196 | Sets the player's team for the tournament and appends the tournament to the player's list. Nothing else changes. |
| Tracker.KQTrueSkill.ZeroRecord | KQTrueSkill/KQtrueskill.py:198-200 | Sets the player's games, wins and losses to 0. Nothing else changes. |
| Tracker.KQTrueSkill.EnrollPlayer | KQTrueSkill/KQtrueskill.py:174-200 | The roster becomes `Enroll` of the old one. |
| Tracker.KQTrueSkill.AddPlayer | KQTrueSkill/KQtrueskill.py:166-200 | The in-place `add_player` leaves the roster and raises the fault that `Registration.AddPlayer` gives. It keeps the invariant. |
| Tracker.KQTrueSkill.IngestPlayersFromFile | KQTrueSkill/KQtrueskill.py:141-161 | The row loop leaves the roster and fault of `IngestRows` over all rows. It keeps the invariant and touches neither matches nor ratings. |
| Tracker.KQTrueSkill.RecordMatch | KQTrueSkill/KQtrueskill.py:234-246 | Sets the tournament's date when it has none and appends the match. |
| Tracker.KQTrueSkill.ScanMatchRow | KQTrueSkill/KQtrueskill.py:215-246 | One pass of the loop body leaves exactly the matches, dates, errors and fault that `MatchFile.ScanRow` gives. The roster is unchanged. |
| Tracker.KQTrueSkill.IngestMatchesFromFile | KQTrueSkill/KQtrueskill.py:206-250 | The row loop leaves the matches and dates of `ScanRows` over all rows. It raises that scan's first hard fault, or else the aggregated team errors. The roster is unchanged. It is called with the roster invariant, under which every tournament with a team table is listed. |
| Tracker.KQTrueSkill.IngestDataset | KQTrueSkill/KQtrueskill.py:52-61 | Players first. When they raise, the match file is not read. Otherwise the match file is read against the new teams, and the matches are sorted by time only when it raised nothing. |
| Tracker.KQTrueSkill.SortMatches | KQTrueSkill/KQtrueskill.py:61 | The match list becomes its `Schedule`. |
| Tracker.KQTrueSkill.ResetRatings | KQTrueSkill/KQtrueskill.py:70-72 | The rating map holds exactly the players of `playerteams`, each at the prior. |
| Tracker.KQTrueSkill.CreditPlayer | KQTrueSkill/KQtrueskill.py:95-97 | Adds the amounts to one player's three counters. |
| Tracker.KQTrueSkill.CreditTeam | KQTrueSkill/KQtrueskill.py:93-102 | The crediting loop returns the team's ratings in roster order and leaves the counters as `Credit` gives them. |
| Tracker.KQTrueSkill.PlayGames | KQTrueSkill/KQtrueskill.py:105-109 | The two game loops return `Play`: team 1's wins rated first, then team 2's. |
| Tracker.KQTrueSkill.StoreRatings | KQTrueSkill/KQtrueskill.py:112-115 | The `range(5)` write-back leaves the ratings of `WriteBack` and reports whether it got through. |
| Tracker.KQTrueSkill.PlayMatch | KQTrueSkill/KQtrueskill.py:93-115 | The body of the match loop after the pointer moved leaves the state and fault of `Apply`. |
| Tracker.KQTrueSkill.ReplayMatch | KQTrueSkill/KQtrueskill.py:79-115 | One pass of the match loop leaves the state and fault of `Step`. |
| Tracker.KQTrueSkill.ReplayAll | KQTrueSkill/KQtrueskill.py:75-115 | The match loop leaves the state and fault of `ReplayN` over all matches. |
| Tracker.KQTrueSkill.CalculateTrueSkills | KQTrueSkill/KQtrueskill.py:65-116 | `calculate_trueskills` leaves ratings, counters, snapshots and fault as `Replay.CalculateTrueSkills` gives them from the reset. It keeps the invariant and changes no roster or match data. |
| Tracker.KQTrueSkill.KeepsValid | KQTrueSkill/KQtrueskill.py:65-116 | The roster invariant holds after any prefix of the replay. |

## Left out

- File I/O and CSV reading. The files are given as sequences of rows of fields, as `csv.reader` yields them.
- The trueskill library. `rate` is a parameter. `trueskill.setup` and the numbers it produces are not modelled, and ratings are opaque `(mu, sigma)` pairs.
- Floating point. The report's score columns (`mu - 3 * sigma`), the win ratio, and the snapshot column's comparison with the prior are not modelled.
- `int()` and `datetime.strptime` are parameters. A timestamp is the instant it denotes plus its calendar day.
- Exception texts and `print` output. Faults are structured values. The aggregated match-file message becomes a list of `TeamError` records.
- Other members of the class and the module: `process_approved_datasets` and its dataset list, `test_dataset`, `compare_ratings`, `get_player_scene_list`, `print_known_tournaments`, `print_data_errors`, `main`, and the file opening and player loop of `write_player_ratings`. They are I/O, printing or configuration.
- An unset `last_seen_team` (`None`) is the empty string. Both are blank, so `add_player` raises the same exception for either.
- `Registration.AddPlayer` gives `UnknownTournament` when the tournament has no team table after registration. That is Python's KeyError on `self.teams[tournament]`, and the roster invariant makes it unreachable.
- Tracker.KQTrueSkill.IngestMatchesFromFile: the error text for a tournament missing from `self.tournaments` (line 227) is not modelled. The method requires the roster invariant, under which a tournament that has a team table is always listed, so that line cannot add anything.
- `Replay.StepOf`: its second branch is never taken by the replay. It exists only to make the loop body total.
- Aliasing. Python's rating lists and snapshot deep copies are values here, so a snapshot can never alias the live rating map.
