/** The replay of `calculate_trueskills` as functions on the value of the
    engine's state: the rating map, the games/wins/losses counters, the
    snapshot map and the current-tournament pointer. The external
    `trueskill.rate` is a parameter. */
module Replay {
  import opened Common

  /** Which team `rate` is told finished first: `ranks=[0, 1]` or `ranks=[1, 0]`. */
  datatype Outcome = Team1Won | Team2Won

  /** `rate([t1, t2], ranks)`: both teams' rating lists in, both updated lists out. */
  type RateFn = (seq<Rating>, seq<Rating>, Outcome) -> (seq<Rating>, seq<Rating>)

  /** trueskill returns one rating per player it was given. */
  ghost predicate KeepsLengths(rate: RateFn) {
    forall a, b, o :: |rate(a, b, o).0| == |a| && |rate(a, b, o).1| == |b|
  }

  datatype Engine = Engine(
    ratings: map<string, Rating>,
    counters: Counters,
    snapshots: map<string, map<string, Rating>>,
    current: string)

  /** The engine after a replay, and the exception that stopped it, if any. */
  datatype Run = Run(engine: Engine, fault: Option<Fault>)

  /** Every player of `roster` has a rating and all three counters. */
  predicate Tracked(ratings: map<string, Rating>, c: Counters, roster: seq<string>) {
    forall p :: p in roster ==> p in ratings && p in c.games && p in c.wins && p in c.losses
  }

  /** Every player of every registered team is tracked, so no lookup of the
      replay's inner loops can fail. */
  ghost predicate Known(teams: Teams, e: Engine) {
    forall t, k :: t in teams && k in teams[t] ==> Tracked(e.ratings, e.counters, teams[t][k])
  }

  /** The games a match adds to each of its players: `team1wins + team2wins`. */
  function Played(m: Match): int {
    m.team1Wins + m.team2Wins
  }

  /** One counter dictionary after `d[p] += x` for each `p` of `roster`, in order. */
  function Bump(d: map<string, int>, roster: seq<string>, x: int): (d': map<string, int>)
    requires forall p :: p in roster ==> p in d
    ensures d'.Keys == d.Keys
    decreases |roster|
  {
    if roster == [] then d
    else
      var n := |roster| - 1;
      var b := Bump(d, roster[..n], x);
      b[roster[n] := b[roster[n]] + x]
  }

  /** Closed form of `Bump`: a player listed k times gains k times `x`; a
      player not on the roster keeps its count. */
  lemma {:induction false} BumpCounts(d: map<string, int>, roster: seq<string>, x: int)
    requires forall p :: p in roster ==> p in d
    ensures forall p :: p in d ==> Bump(d, roster, x)[p] == d[p] + multiset(roster)[p] * x
    decreases |roster|
  {
    if roster != [] {
      var n := |roster| - 1;
      var p := roster[n];
      assert roster == roster[..n] + [p];
      BumpCounts(d, roster[..n], x);
      forall q | q in d
        ensures Bump(d, roster, x)[q] == d[q] + multiset(roster)[q] * x
      {
        var k := multiset(roster[..n])[q];
        assert multiset(roster)[q] == k + (if q == p then 1 else 0);
        MulStep(k, x);
      }
    }
  }

  lemma MulDistributes(k: int, a: int, b: int)
    ensures k * (a + b) == k * a + k * b
  {
  }

  lemma MulStep(k: int, x: int)
    ensures (k + 1) * x == k * x + x
  {
  }

  /** The counters after the crediting loop over `roster`: every listed
      player gains `played` games, `won` wins and `lost` losses. The source
      interleaves the three updates; they touch different dictionaries, so
      doing them one dictionary at a time is the same. */
  function Credit(c: Counters, roster: seq<string>, played: int, won: int, lost: int): (c': Counters)
    requires forall p :: p in roster ==> p in c.games && p in c.wins && p in c.losses
    ensures c'.games.Keys == c.games.Keys && c'.wins.Keys == c.wins.Keys && c'.losses.Keys == c.losses.Keys
  {
    Counters(Bump(c.games, roster, played), Bump(c.wins, roster, won), Bump(c.losses, roster, lost))
  }

  /** One pass of the crediting loop's body for player `p`. */
  function CreditOne(c: Counters, p: string, played: int, won: int, lost: int): Counters
    requires p in c.games && p in c.wins && p in c.losses
  {
    Counters(c.games[p := c.games[p] + played], c.wins[p := c.wins[p] + won], c.losses[p := c.losses[p] + lost])
  }

  /** Crediting a roster is crediting its players one after another. */
  lemma CreditSnoc(c: Counters, roster: seq<string>, p: string, played: int, won: int, lost: int)
    requires forall q :: q in roster + [p] ==> q in c.games && q in c.wins && q in c.losses
    ensures Credit(c, roster + [p], played, won, lost) == CreditOne(Credit(c, roster, played, won, lost), p, played, won, lost)
  {
    assert (roster + [p])[..|roster|] == roster;
  }

  /** Crediting a team keeps `games == wins + losses` for every player. */
  lemma CreditKeepsBalanced(c: Counters, roster: seq<string>, played: int, won: int, lost: int)
    requires Balanced(c) && played == won + lost && forall p :: p in roster ==> p in c.games
    ensures Balanced(Credit(c, roster, played, won, lost))
  {
    var c' := Credit(c, roster, played, won, lost);
    BumpCounts(c.games, roster, played);
    BumpCounts(c.wins, roster, won);
    BumpCounts(c.losses, roster, lost);
    forall p | p in c'.games
      ensures c'.games[p] == c'.wins[p] + c'.losses[p]
    {
      var k := multiset(roster)[p];
      MulDistributes(k, won, lost);
      assert c'.games[p] == c.games[p] + k * played;
      assert c'.wins[p] + c'.losses[p] == c.wins[p] + k * won + c.losses[p] + k * lost;
    }
  }

  /** The rating list built for `roster`, in roster order. */
  function RatingsOf(ratings: map<string, Rating>, roster: seq<string>): (rs: seq<Rating>)
    requires forall p :: p in roster ==> p in ratings
    ensures |rs| == |roster| && forall i :: 0 <= i < |roster| ==> rs[i] == ratings[roster[i]]
    decreases |roster|
  {
    if roster == [] then []
    else
      var n := |roster| - 1;
      RatingsOf(ratings, roster[..n]) + [ratings[roster[n]]]
  }

  /** `for x in range(n)`: `rate` applied `n` times with the same outcome,
      each call consuming the previous call's lists; none when `n <= 0`. */
  function Repeat(rate: RateFn, pair: (seq<Rating>, seq<Rating>), o: Outcome, n: int): (r: (seq<Rating>, seq<Rating>))
    ensures KeepsLengths(rate) ==> |r.0| == |pair.0| && |r.1| == |pair.1|
    decreases n
  {
    if n <= 0 then pair
    else
      var prev := Repeat(rate, pair, o, n - 1);
      rate(prev.0, prev.1, o)
  }

  /** All of team 1's wins are rated first, then all of team 2's. */
  function Play(rate: RateFn, t1: seq<Rating>, t2: seq<Rating>, team1Wins: int, team2Wins: int): (r: (seq<Rating>, seq<Rating>))
    ensures KeepsLengths(rate) ==> |r.0| == |t1| && |r.1| == |t2|
    ensures team1Wins <= 0 && team2Wins <= 0 ==> r == (t1, t2)
  {
    Repeat(rate, Repeat(rate, (t1, t2), Team1Won, team1Wins), Team2Won, team2Wins)
  }

  /** The number of roster positions the write-back loop assigns: `range(5)`. */
  const Positions: nat := 5

  /** The rating map after the write-back loop, and whether it got through. */
  datatype Written = Written(ratings: map<string, Rating>, ok: bool)

  /** How far `for i in range(5)` gets before an index runs off the roster
      or off the rated list: the least of the three. */
  function Reach(roster: seq<string>, vals: seq<Rating>): (k: nat)
    ensures k <= Positions && k <= |roster| && k <= |vals|
    ensures k == Positions || k == |roster| || k == |vals|
  {
    if |roster| < Positions && |roster| <= |vals| then |roster|
    else if |vals| < Positions then |vals|
    else Positions
  }

  /** The rating map after assigning the first n positions, in order. */
  function WriteFirst(ratings: map<string, Rating>, roster: seq<string>, vals: seq<Rating>, n: nat): map<string, Rating>
    requires n <= |roster| && n <= |vals|
  {
    if n == 0 then ratings
    else WriteFirst(ratings, roster, vals, n - 1)[roster[n - 1] := vals[n - 1]]
  }

  /** `for i in range(5): ratings[roster[i]] = vals[i]`: the positions before
      the first missing index are written, then the loop raises an
      IndexError unless it got through all five. */
  function WriteBack(ratings: map<string, Rating>, roster: seq<string>, vals: seq<Rating>): (w: Written)
    ensures w.ok <==> Positions <= |roster| && Positions <= |vals|
  {
    var k := Reach(roster, vals);
    Written(WriteFirst(ratings, roster, vals, k), k == Positions)
  }

  /** Stores a snapshot under the old pointer when the tournament changes. */
  function Advance(e: Engine, tournament: string): (e': Engine)
    ensures e'.current == tournament && e'.ratings == e.ratings && e'.counters == e.counters
    ensures e.current != tournament ==> e'.snapshots == e.snapshots[e.current := e.ratings]
    ensures e.current == tournament ==> e'.snapshots == e.snapshots
  {
    if e.current != tournament then
      e.(snapshots := e.snapshots[e.current := e.ratings], current := tournament)
    else e
  }

  /** One match, after the pointer moved: look up team 1 and credit its
      players, look up team 2, then `Rate`. A failed lookup raises and
      leaves what was already changed. */
  function Apply(e: Engine, teams: Teams, m: Match, rate: RateFn): (r: Run)
    requires Known(teams, e)
    ensures r.engine.snapshots == e.snapshots && r.engine.current == e.current
    ensures m.tournament !in teams ==> r == Run(e, Some(UnknownTournament(m.tournament)))
    ensures r.fault.None? ==> m.tournament in teams && m.team1 in teams[m.tournament] && m.team2 in teams[m.tournament]
  {
    var t := m.tournament;
    if t !in teams then Run(e, Some(UnknownTournament(t)))
    else if m.team1 !in teams[t] then Run(e, Some(UnknownTeam(t, m.team1)))
    else
      var roster1 := teams[t][m.team1];
      assert Tracked(e.ratings, e.counters, roster1);
      if m.team2 !in teams[t] then
        Run(e.(counters := Credit(e.counters, roster1, Played(m), m.team1Wins, m.team2Wins)), Some(UnknownTeam(t, m.team2)))
      else
        assert Tracked(e.ratings, e.counters, teams[t][m.team2]);
        Rate(e, m, roster1, teams[t][m.team2], rate)
  }

  /** Both teams found: credit both rosters, rate every game, write both
      teams back; a roster or rated list shorter than five raises an
      IndexError, after the positions already written. */
  function Rate(e: Engine, m: Match, roster1: seq<string>, roster2: seq<string>, rate: RateFn): (r: Run)
    requires Tracked(e.ratings, e.counters, roster1) && Tracked(e.ratings, e.counters, roster2)
    ensures r.engine.snapshots == e.snapshots && r.engine.current == e.current
    ensures r.fault.None? ==> Positions <= |roster1| && Positions <= |roster2|
    ensures r.fault.Some? ==> r.fault == Some(RosterIndex(m.tournament, m.team1)) || r.fault == Some(RosterIndex(m.tournament, m.team2))
  {
    var c := Credit(Credit(e.counters, roster1, Played(m), m.team1Wins, m.team2Wins), roster2, Played(m), m.team2Wins, m.team1Wins);
    var played := Play(rate, RatingsOf(e.ratings, roster1), RatingsOf(e.ratings, roster2), m.team1Wins, m.team2Wins);
    var w1 := WriteBack(e.ratings, roster1, played.0);
    if !w1.ok then Run(e.(counters := c, ratings := w1.ratings), Some(RosterIndex(m.tournament, m.team1)))
    else
      var w2 := WriteBack(w1.ratings, roster2, played.1);
      Run(e.(counters := c, ratings := w2.ratings), if w2.ok then None else Some(RosterIndex(m.tournament, m.team2)))
  }

  function Step(e: Engine, teams: Teams, m: Match, rate: RateFn): (r: Run)
    requires Known(teams, e)
    ensures r.engine.current == m.tournament
    ensures e.current != m.tournament ==> e.current in r.engine.snapshots && r.engine.snapshots[e.current] == e.ratings
    ensures e.current == m.tournament ==> r.engine.snapshots == e.snapshots
  {
    Apply(Advance(e, m.tournament), teams, m, rate)
  }

  /** Each game consumes the previous game's lists: rating a + b games in a
      row is rating a games, then b more from where they left off. */
  lemma {:induction false} RepeatSplits(rate: RateFn, pair: (seq<Rating>, seq<Rating>), o: Outcome, a: int, b: int)
    requires 0 <= a && 0 <= b
    ensures Repeat(rate, pair, o, a + b) == Repeat(rate, Repeat(rate, pair, o, a), o, b)
    decreases b
  {
    if b > 0 {
      RepeatSplits(rate, pair, o, a, b - 1);
    }
  }

  /** A single game is a single call of `rate`. */
  lemma RepeatOnce(rate: RateFn, pair: (seq<Rating>, seq<Rating>), o: Outcome)
    ensures Repeat(rate, pair, o, 1) == rate(pair.0, pair.1, o)
  {
    assert Repeat(rate, pair, o, 0) == pair;
  }

  /** A length-preserving `rate` keeps both lists' lengths however often it is applied. */
  lemma {:induction false} RepeatKeepsLengths(rate: RateFn, pair: (seq<Rating>, seq<Rating>), o: Outcome, n: int)
    requires KeepsLengths(rate)
    ensures |Repeat(rate, pair, o, n).0| == |pair.0| && |Repeat(rate, pair, o, n).1| == |pair.1|
    decreases n
  {
    if n > 0 {
      RepeatKeepsLengths(rate, pair, o, n - 1);
    }
  }

  lemma {:induction false} WriteFirstOthers(ratings: map<string, Rating>, roster: seq<string>, vals: seq<Rating>, n: nat)
    requires n <= |roster| && n <= |vals| && forall p :: p in roster ==> p in ratings
    ensures var r := WriteFirst(ratings, roster, vals, n);
      && r.Keys == ratings.Keys
      && forall p :: p in ratings && (forall i :: 0 <= i < n ==> roster[i] != p) ==> r[p] == ratings[p]
  {
    if n > 0 {
      WriteFirstOthers(ratings, roster, vals, n - 1);
    }
  }

  /** Write-back only assigns to players of the first five roster
      positions, who already have ratings, so the key set stays the same;
      every other player keeps its rating, even when the loop raises. */
  lemma WriteBackOthers(ratings: map<string, Rating>, roster: seq<string>, vals: seq<Rating>)
    requires forall p :: p in roster ==> p in ratings
    ensures var r := WriteBack(ratings, roster, vals).ratings;
      && r.Keys == ratings.Keys
      && forall p :: p in ratings && !InFirstFive(roster, p) ==> r[p] == ratings[p]
  {
    WriteFirstOthers(ratings, roster, vals, Reach(roster, vals));
  }

  lemma {:induction false} WriteFirstPositional(ratings: map<string, Rating>, roster: seq<string>, vals: seq<Rating>, n: nat)
    requires n <= |roster| && n <= |vals|
    ensures var r := WriteFirst(ratings, roster, vals, n);
      forall i :: 0 <= i < n && (forall j :: i < j < n ==> roster[j] != roster[i]) ==>
        roster[i] in r && r[roster[i]] == vals[i]
  {
    if n > 0 {
      WriteFirstPositional(ratings, roster, vals, n - 1);
    }
  }

  /** Positional write-back: when the loop gets through, the player at
      position i < 5 receives the i-th rated value, unless a later position
      names the same player again. */
  lemma WriteBackPositional(ratings: map<string, Rating>, roster: seq<string>, vals: seq<Rating>)
    requires WriteBack(ratings, roster, vals).ok
    ensures var r := WriteBack(ratings, roster, vals).ratings;
      forall i :: 0 <= i < Positions && (forall j :: i < j < Positions ==> roster[j] != roster[i]) ==>
        roster[i] in r && r[roster[i]] == vals[i]
  {
    WriteFirstPositional(ratings, roster, vals, Positions);
  }

  /** Some rated position (one of the first five) of `roster` holds `p`. */
  predicate InFirstFive(roster: seq<string>, p: string) {
    exists i :: 0 <= i < |roster| && i < Positions && roster[i] == p
  }

  /** `p` is in a rated position of one of the match's teams. */
  ghost predicate Rated(teams: Teams, m: Match, p: string) {
    && m.tournament in teams
    && ((m.team1 in teams[m.tournament] && InFirstFive(teams[m.tournament][m.team1], p))
     || (m.team2 in teams[m.tournament] && InFirstFive(teams[m.tournament][m.team2], p)))
  }

  /** A match never touches the snapshots or the pointer, and keeps the key
      sets of the rating map and of the counters, whether or not it raises. */
  lemma ApplyKeepsKeys(e: Engine, teams: Teams, m: Match, rate: RateFn)
    requires Known(teams, e)
    ensures var r := Apply(e, teams, m, rate).engine;
      && r.snapshots == e.snapshots && r.current == e.current
      && r.ratings.Keys == e.ratings.Keys
      && r.counters.games.Keys == e.counters.games.Keys
      && r.counters.wins.Keys == e.counters.wins.Keys
      && r.counters.losses.Keys == e.counters.losses.Keys
  {
    var t := m.tournament;
    if t in teams && m.team1 in teams[t] && m.team2 in teams[t] {
      var roster1, roster2 := teams[t][m.team1], teams[t][m.team2];
      assert Tracked(e.ratings, e.counters, roster1);
      assert Tracked(e.ratings, e.counters, roster2);
      var played := Play(rate, RatingsOf(e.ratings, roster1), RatingsOf(e.ratings, roster2), m.team1Wins, m.team2Wins);
      WriteBackOthers(e.ratings, roster1, played.0);
      var w1 := WriteBack(e.ratings, roster1, played.0);
      WriteBackOthers(w1.ratings, roster2, played.1);
    }
  }

  /** A match leaves alone the rating of every player outside the rated
      positions of its two teams, whether or not it raises. */
  lemma ApplyRatesOnlyFirstFive(e: Engine, teams: Teams, m: Match, rate: RateFn, p: string)
    requires Known(teams, e) && p in e.ratings && !Rated(teams, m, p)
    ensures p in Apply(e, teams, m, rate).engine.ratings
    ensures Apply(e, teams, m, rate).engine.ratings[p] == e.ratings[p]
  {
    var t := m.tournament;
    if t in teams && m.team1 in teams[t] && m.team2 in teams[t] {
      var roster1, roster2 := teams[t][m.team1], teams[t][m.team2];
      assert Tracked(e.ratings, e.counters, roster1);
      assert Tracked(e.ratings, e.counters, roster2);
      assert !InFirstFive(roster1, p) && !InFirstFive(roster2, p);
      var played := Play(rate, RatingsOf(e.ratings, roster1), RatingsOf(e.ratings, roster2), m.team1Wins, m.team2Wins);
      WriteBackOthers(e.ratings, roster1, played.0);
      var w1 := WriteBack(e.ratings, roster1, played.0);
      WriteBackOthers(w1.ratings, roster2, played.1);
    }
  }

  /** What one match adds to a player's games, wins and losses: a player
      listed k1 times on team 1 and k2 times on team 2 is counted k1 + k2
      times for every game of the match, wins team 1's games k1 times and team 2's
      games k2 times. */
  datatype Tally = Tally(games: int, wins: int, losses: int)

  function RosterTally(roster1: seq<string>, roster2: seq<string>, m: Match, p: string): Tally {
    var k1 := multiset(roster1)[p];
    var k2 := multiset(roster2)[p];
    Tally(k1 * Played(m) + k2 * Played(m),
          k1 * m.team1Wins + k2 * m.team2Wins,
          k1 * m.team2Wins + k2 * m.team1Wins)
  }

  /** The tally of a match whose teams are registered; nothing otherwise. */
  function MatchTally(teams: Teams, m: Match, p: string): Tally {
    var t := m.tournament;
    if t in teams && m.team1 in teams[t] && m.team2 in teams[t] then
      RosterTally(teams[t][m.team1], teams[t][m.team2], m, p)
    else Tally(0, 0, 0)
  }

  /** Two crediting loops in a row, seen from one player. */
  lemma BumpTwice(d: map<string, int>, roster1: seq<string>, x1: int, roster2: seq<string>, x2: int)
    requires forall p :: p in roster1 ==> p in d
    requires forall p :: p in roster2 ==> p in d
    ensures forall p :: p in d ==>
      Bump(Bump(d, roster1, x1), roster2, x2)[p] == d[p] + multiset(roster1)[p] * x1 + multiset(roster2)[p] * x2
  {
    BumpCounts(d, roster1, x1);
    BumpCounts(Bump(d, roster1, x1), roster2, x2);
  }

  /** A match that goes through found its tournament and both teams. */
  lemma ApplyDone(e: Engine, teams: Teams, m: Match, rate: RateFn)
    requires Known(teams, e) && Apply(e, teams, m, rate).fault.None?
    ensures var t := m.tournament;
      && t in teams && m.team1 in teams[t] && m.team2 in teams[t]
      && Tracked(e.ratings, e.counters, teams[t][m.team1]) && Tracked(e.ratings, e.counters, teams[t][m.team2])
      && Apply(e, teams, m, rate) == Rate(e, m, teams[t][m.team1], teams[t][m.team2], rate)
  {
    var t := m.tournament;
    assert Tracked(e.ratings, e.counters, teams[t][m.team1]);
    assert Tracked(e.ratings, e.counters, teams[t][m.team2]);
  }

  /** The counters both crediting loops of a match leave. */
  function Credited(c: Counters, m: Match, roster1: seq<string>, roster2: seq<string>): Counters
    requires forall p :: p in roster1 ==> p in c.games && p in c.wins && p in c.losses
    requires forall p :: p in roster2 ==> p in c.games && p in c.wins && p in c.losses
  {
    var w1, w2 := m.team1Wins, m.team2Wins;
    Credit(Credit(c, roster1, Played(m), w1, w2), roster2, Played(m), w2, w1)
  }

  /** Rating a match leaves the counters its two crediting loops produced,
      whether or not the write-back raises. */
  lemma RateCounters(e: Engine, m: Match, roster1: seq<string>, roster2: seq<string>, rate: RateFn)
    requires Tracked(e.ratings, e.counters, roster1) && Tracked(e.ratings, e.counters, roster2)
    ensures Rate(e, m, roster1, roster2, rate).engine.counters == Credited(e.counters, m, roster1, roster2)
  {
  }

  /** One counter dictionary after both crediting loops, seen from each player. */
  lemma CreditedField(d: map<string, int>, d': map<string, int>, roster1: seq<string>, x1: int, roster2: seq<string>, x2: int)
    requires forall p :: p in roster1 ==> p in d
    requires forall p :: p in roster2 ==> p in d
    requires d' == Bump(Bump(d, roster1, x1), roster2, x2)
    ensures forall p :: p in d ==> d'[p] == d[p] + (multiset(roster1)[p] * x1 + multiset(roster2)[p] * x2)
  {
    BumpTwice(d, roster1, x1, roster2, x2);
  }

  /** Both crediting loops together add exactly the match's tally to every
      player's counters. */
  lemma CreditedCounts(c: Counters, m: Match, roster1: seq<string>, roster2: seq<string>)
    requires forall p :: p in roster1 ==> p in c.games && p in c.wins && p in c.losses
    requires forall p :: p in roster2 ==> p in c.games && p in c.wins && p in c.losses
    ensures var c' := Credited(c, m, roster1, roster2);
      && (forall p :: p in c.games ==> c'.games[p] == c.games[p] + RosterTally(roster1, roster2, m, p).games)
      && (forall p :: p in c.wins ==> c'.wins[p] == c.wins[p] + RosterTally(roster1, roster2, m, p).wins)
      && (forall p :: p in c.losses ==> c'.losses[p] == c.losses[p] + RosterTally(roster1, roster2, m, p).losses)
  {
    var w1, w2 := m.team1Wins, m.team2Wins;
    var c' := Credited(c, m, roster1, roster2);
    CreditedField(c.games, c'.games, roster1, Played(m), roster2, Played(m));
    CreditedField(c.wins, c'.wins, roster1, w1, roster2, w2);
    CreditedField(c.losses, c'.losses, roster1, w2, roster2, w1);
  }

  /** The counters a match leaves: nothing when a lookup fails before team
      1 is credited, team 1's credit when team 2 is missing, both otherwise. */
  lemma ApplyCounters(e: Engine, teams: Teams, m: Match, rate: RateFn)
    requires Known(teams, e)
    ensures var t := m.tournament;
      t !in teams || m.team1 !in teams[t] ==> Apply(e, teams, m, rate).engine.counters == e.counters
    ensures var t := m.tournament;
      t in teams && m.team1 in teams[t] ==>
        && Tracked(e.ratings, e.counters, teams[t][m.team1])
        && (m.team2 in teams[t] ==> Tracked(e.ratings, e.counters, teams[t][m.team2]))
    ensures var t := m.tournament;
      t in teams && m.team1 in teams[t] ==>
        Apply(e, teams, m, rate).engine.counters ==
          if m.team2 !in teams[t] then Credit(e.counters, teams[t][m.team1], Played(m), m.team1Wins, m.team2Wins)
          else Credited(e.counters, m, teams[t][m.team1], teams[t][m.team2])
  {
    var t := m.tournament;
    if t in teams && m.team1 in teams[t] {
      assert Tracked(e.ratings, e.counters, teams[t][m.team1]);
      if m.team2 in teams[t] {
        assert Tracked(e.ratings, e.counters, teams[t][m.team2]);
        RateCounters(e, m, teams[t][m.team1], teams[t][m.team2], rate);
      }
    }
  }

  lemma CreditedKeepsBalanced(c: Counters, m: Match, roster1: seq<string>, roster2: seq<string>)
    requires Balanced(c) && (forall p :: p in roster1 ==> p in c.games) && (forall p :: p in roster2 ==> p in c.games)
    ensures Balanced(Credited(c, m, roster1, roster2))
  {
    var w1, w2 := m.team1Wins, m.team2Wins;
    CreditKeepsBalanced(c, roster1, Played(m), w1, w2);
    CreditKeepsBalanced(Credit(c, roster1, Played(m), w1, w2), roster2, Played(m), w2, w1);
  }

  /** Every step keeps `games == wins + losses`, also when it raises half way. */
  lemma ApplyKeepsBalanced(e: Engine, teams: Teams, m: Match, rate: RateFn)
    requires Known(teams, e) && Balanced(e.counters)
    ensures Balanced(Apply(e, teams, m, rate).engine.counters)
  {
    var t := m.tournament;
    ApplyCounters(e, teams, m, rate);
    if t in teams && m.team1 in teams[t] {
      var roster1 := teams[t][m.team1];
      var w1, w2 := m.team1Wins, m.team2Wins;
      if m.team2 in teams[t] {
        CreditedKeepsBalanced(e.counters, m, roster1, teams[t][m.team2]);
      } else {
        CreditKeepsBalanced(e.counters, roster1, Played(m), w1, w2);
      }
    }
  }

  /** `Known` depends only on the key sets. */
  lemma KnownByKeys(teams: Teams, e: Engine, e': Engine)
    requires Known(teams, e)
    requires e'.ratings.Keys == e.ratings.Keys && e'.counters.games.Keys == e.counters.games.Keys
    requires e'.counters.wins.Keys == e.counters.wins.Keys && e'.counters.losses.Keys == e.counters.losses.Keys
    ensures Known(teams, e')
  {
    forall t, k | t in teams && k in teams[t]
      ensures Tracked(e'.ratings, e'.counters, teams[t][k])
    {
      assert Tracked(e.ratings, e.counters, teams[t][k]);
    }
  }

  /** With a length-preserving `rate`, a match goes through exactly when its
      tournament and both teams are registered and both rosters have at
      least five players. */
  lemma ApplySucceeds(e: Engine, teams: Teams, m: Match, rate: RateFn)
    requires Known(teams, e) && KeepsLengths(rate)
    ensures Apply(e, teams, m, rate).fault.None? <==>
      && m.tournament in teams && m.team1 in teams[m.tournament] && m.team2 in teams[m.tournament]
      && |teams[m.tournament][m.team1]| >= 5 && |teams[m.tournament][m.team2]| >= 5
  {
    var t := m.tournament;
    if t in teams && m.team1 in teams[t] && m.team2 in teams[t] {
      var roster1, roster2 := teams[t][m.team1], teams[t][m.team2];
      assert Tracked(e.ratings, e.counters, roster1);
      assert Tracked(e.ratings, e.counters, roster2);
      var r1, r2 := RatingsOf(e.ratings, roster1), RatingsOf(e.ratings, roster2);
      var half := Repeat(rate, (r1, r2), Team1Won, m.team1Wins);
      RepeatKeepsLengths(rate, (r1, r2), Team1Won, m.team1Wins);
      RepeatKeepsLengths(rate, half, Team2Won, m.team2Wins);
      var played := Play(rate, r1, r2, m.team1Wins, m.team2Wins);
      var w1 := WriteBack(e.ratings, roster1, played.0);
    }
  }

  /** A match that goes through stores its rated lists back by position:
      team 2's i-th player gets the i-th rating of team 2's list, and team
      1's i-th player the i-th of team 1's, unless a later write names the
      same player. */
  lemma RateWritesBack(e: Engine, m: Match, roster1: seq<string>, roster2: seq<string>, rate: RateFn)
    requires Tracked(e.ratings, e.counters, roster1) && Tracked(e.ratings, e.counters, roster2)
    requires Rate(e, m, roster1, roster2, rate).fault.None?
    ensures var played := Play(rate, RatingsOf(e.ratings, roster1), RatingsOf(e.ratings, roster2), m.team1Wins, m.team2Wins);
      var r := Rate(e, m, roster1, roster2, rate).engine.ratings;
      && |roster1| >= 5 && |roster2| >= 5 && |played.0| >= 5 && |played.1| >= 5
      && (forall i :: 0 <= i < 5 && (forall j :: i < j < 5 ==> roster2[j] != roster2[i]) ==>
            roster2[i] in r && r[roster2[i]] == played.1[i])
      && (forall i :: 0 <= i < 5 && (forall j :: i < j < 5 ==> roster1[j] != roster1[i]) && !InFirstFive(roster2, roster1[i]) ==>
            roster1[i] in r && r[roster1[i]] == played.0[i])
  {
    var played := Play(rate, RatingsOf(e.ratings, roster1), RatingsOf(e.ratings, roster2), m.team1Wins, m.team2Wins);
    var w1 := WriteBack(e.ratings, roster1, played.0);
    var w2 := WriteBack(w1.ratings, roster2, played.1);
    assert w1.ok && w2.ok;
    assert Rate(e, m, roster1, roster2, rate).engine.ratings == w2.ratings;
    WriteBackPositional(e.ratings, roster1, played.0);
    WriteBackPositional(w1.ratings, roster2, played.1);
    WriteBackOthers(e.ratings, roster1, played.0);
    WriteBackOthers(w1.ratings, roster2, played.1);
    forall i | 0 <= i < 5 && (forall j :: i < j < 5 ==> roster1[j] != roster1[i]) && !InFirstFive(roster2, roster1[i])
      ensures roster1[i] in w2.ratings && w2.ratings[roster1[i]] == played.0[i]
    {
      var p := roster1[i];
      assert forall j :: 0 <= j < 5 && j < |roster2| ==> roster2[j] != p;
    }
  }

  /** The pointer moves and the old one's snapshot is stored, whether or not
      the match then raises. */
  lemma StepSnapshots(e: Engine, teams: Teams, m: Match, rate: RateFn)
    requires Known(teams, e)
    ensures Known(teams, Advance(e, m.tournament))
    ensures var r := Step(e, teams, m, rate).engine;
      && r.current == m.tournament
      && r.snapshots == (if e.current != m.tournament then e.snapshots[e.current := e.ratings] else e.snapshots)
      && r.ratings.Keys == e.ratings.Keys
      && r.counters.games.Keys == e.counters.games.Keys
      && r.counters.wins.Keys == e.counters.wins.Keys
      && r.counters.losses.Keys == e.counters.losses.Keys
  {
    var a := Advance(e, m.tournament);
    KnownByKeys(teams, e, a);
    ApplyKeepsKeys(a, teams, m, rate);
  }

  /** The replay loop after the first n matches, from engine `e0`: each
      match is a `Step`, and the first one that raises stops the loop. */
  function ReplayN(e0: Engine, teams: Teams, ms: seq<Match>, n: nat, rate: RateFn): (r: Run)
    requires Known(teams, e0) && n <= |ms|
    ensures Known(teams, r.engine)
  {
    if n == 0 then Run(e0, None)
    else
      var prev := ReplayN(e0, teams, ms, n - 1, rate);
      if prev.fault.Some? then prev
      else
        StepSnapshots(prev.engine, teams, ms[n - 1], rate);
        KnownByKeys(teams, prev.engine, Step(prev.engine, teams, ms[n - 1], rate).engine);
        Step(prev.engine, teams, ms[n - 1], rate)
  }

  /** After the loop, one more snapshot under the last tournament (under the
      initial pointer when there were no matches); not reached when a match raised. */
  function Finish(r: Run): (r': Run)
    ensures r.fault.Some? ==> r' == r
    ensures r.fault.None? ==> && r'.fault.None? && r'.engine.ratings == r.engine.ratings && r'.engine.counters == r.engine.counters
                              && r.engine.current in r'.engine.snapshots && r'.engine.snapshots[r.engine.current] == r.engine.ratings
  {
    if r.fault.None? then Run(r.engine.(snapshots := r.engine.snapshots[r.engine.current := r.engine.ratings]), None)
    else r
  }

  /** Every player the registry knows, at the prior; the pointer at `''`.
      Counters and snapshots are whatever the tracker holds. */
  function Start(players: set<string>, counters: Counters, snapshots: map<string, map<string, Rating>>): (e: Engine)
    ensures e.ratings.Keys == players && forall p :: p in players ==> e.ratings[p] == Prior
  {
    Engine(map p | p in players :: Prior, counters, snapshots, "")
  }

  /** `calculate_trueskills` from the tracker's players, counters and snapshots. */
  function CalculateTrueSkills(players: set<string>, counters: Counters, snapshots: map<string, map<string, Rating>>,
                               teams: Teams, ms: seq<Match>, rate: RateFn): (r: Run)
    requires Known(teams, Start(players, counters, snapshots))
    ensures r.engine.ratings.Keys == players && r.engine.counters.games.Keys == counters.games.Keys
    ensures r.fault.None? ==> r.engine.current in r.engine.snapshots && r.engine.snapshots[r.engine.current] == r.engine.ratings
  {
    ReplayKeepsKeys(Start(players, counters, snapshots), teams, ms, |ms|, rate);
    Finish(ReplayN(Start(players, counters, snapshots), teams, ms, |ms|, rate))
  }

  /** A raised exception ends the replay: later matches change nothing. */
  lemma {:induction false} ReplayStopsAtFault(e0: Engine, teams: Teams, ms: seq<Match>, j: nat, n: nat, rate: RateFn)
    requires Known(teams, e0) && j <= n <= |ms|
    requires ReplayN(e0, teams, ms, j, rate).fault.Some?
    ensures ReplayN(e0, teams, ms, n, rate) == ReplayN(e0, teams, ms, j, rate)
    decreases n
  {
    if n > j {
      ReplayStopsAtFault(e0, teams, ms, j, n - 1, rate);
    }
  }

  /** A replay that got through n matches got through every shorter prefix. */
  lemma ReplayPrefixOk(e0: Engine, teams: Teams, ms: seq<Match>, j: nat, n: nat, rate: RateFn)
    requires Known(teams, e0) && j <= n <= |ms|
    requires ReplayN(e0, teams, ms, n, rate).fault.None?
    ensures ReplayN(e0, teams, ms, j, rate).fault.None?
  {
    if ReplayN(e0, teams, ms, j, rate).fault.Some? {
      ReplayStopsAtFault(e0, teams, ms, j, n, rate);
    }
  }

  /** `games == wins + losses` holds after any prefix of the replay, also
      one that raised, when it held at the start (as `add_player` makes it). */
  lemma {:induction false} ReplayKeepsBalanced(e0: Engine, teams: Teams, ms: seq<Match>, n: nat, rate: RateFn)
    requires Known(teams, e0) && n <= |ms| && Balanced(e0.counters)
    ensures Balanced(ReplayN(e0, teams, ms, n, rate).engine.counters)
  {
    if n > 0 {
      ReplayKeepsBalanced(e0, teams, ms, n - 1, rate);
      var prev := ReplayN(e0, teams, ms, n - 1, rate);
      if prev.fault.None? {
        var a := Advance(prev.engine, ms[n - 1].tournament);
        StepSnapshots(prev.engine, teams, ms[n - 1], rate);
        ApplyKeepsBalanced(a, teams, ms[n - 1], rate);
      }
    }
  }

  /** The pointer before match n: the initial one, or the previous match's tournament. */
  function PrevOf(c0: string, ms: seq<Match>, n: nat): string
    requires n <= |ms|
  {
    if n == 0 then c0 else ms[n - 1].tournament
  }

  /** Match i starts a new block of its tournament: a snapshot is taken before it. */
  predicate Switches(c0: string, ms: seq<Match>, i: nat)
    requires i < |ms|
  {
    PrevOf(c0, ms, i) != ms[i].tournament
  }

  /** While the replay goes through, the pointer is the last match's tournament. */
  lemma {:induction false} ReplayPointer(e0: Engine, teams: Teams, ms: seq<Match>, n: nat, rate: RateFn)
    requires Known(teams, e0) && n <= |ms|
    requires ReplayN(e0, teams, ms, n, rate).fault.None?
    ensures ReplayN(e0, teams, ms, n, rate).engine.current == PrevOf(e0.current, ms, n)
  {
    if n > 0 {
      var prev := ReplayN(e0, teams, ms, n - 1, rate);
      StepSnapshots(prev.engine, teams, ms[n - 1], rate);
    }
  }

  /** Match i's step stores a snapshot under the previous pointer exactly
      when i switches tournament, holding the ratings as they were after
      match i - 1; no other snapshot changes. */
  lemma ReplaySnapshotStep(e0: Engine, teams: Teams, ms: seq<Match>, i: nat, rate: RateFn)
    requires Known(teams, e0) && i < |ms|
    requires ReplayN(e0, teams, ms, i + 1, rate).fault.None?
    ensures var before := ReplayN(e0, teams, ms, i, rate).engine;
      ReplayN(e0, teams, ms, i + 1, rate).engine.snapshots ==
        if Switches(e0.current, ms, i) then before.snapshots[PrevOf(e0.current, ms, i) := before.ratings]
        else before.snapshots
  {
    var prev := ReplayN(e0, teams, ms, i, rate);
    ReplayPrefixOk(e0, teams, ms, i, i + 1, rate);
    ReplayPointer(e0, teams, ms, i, rate);
    ReplayStep(e0, teams, ms, i, rate);
    StepSnapshots(prev.engine, teams, ms[i], rate);
  }

  /** One more iteration of the loop is one more `Step`. */
  lemma ReplayStep(e0: Engine, teams: Teams, ms: seq<Match>, i: nat, rate: RateFn)
    requires Known(teams, e0) && i < |ms|
    requires ReplayN(e0, teams, ms, i, rate).fault.None?
    ensures ReplayN(e0, teams, ms, i + 1, rate) == Step(ReplayN(e0, teams, ms, i, rate).engine, teams, ms[i], rate)
  {
  }

  /** The loop's state after one more match: the next prefix when the
      match raised nothing, otherwise the final result. */
  lemma ReplayAdvance(e0: Engine, teams: Teams, ms: seq<Match>, i: nat, rate: RateFn, before: Engine, after: Run)
    requires Known(teams, e0) && i < |ms|
    requires ReplayN(e0, teams, ms, i, rate) == Run(before, None)
    requires after == Step(before, teams, ms[i], rate)
    ensures after.fault.None? ==> ReplayN(e0, teams, ms, i + 1, rate) == after
    ensures after.fault.Some? ==> ReplayN(e0, teams, ms, |ms|, rate) == after
  {
    ReplayStep(e0, teams, ms, i, rate);
    if after.fault.Some? {
      ReplayStopsAtFault(e0, teams, ms, i + 1, |ms|, rate);
    }
  }

  /** The shape of the replay loop with any body `step`: the loop that
      the snapshot and pointer properties below are proved for, for every
      body that moves the pointer as `Advance` does. */
  type StepFn = (Engine, Match) -> Run

  function Loop(e0: Engine, ms: seq<Match>, n: nat, step: StepFn): Run
    requires n <= |ms|
  {
    if n == 0 then Run(e0, None)
    else
      var prev := Loop(e0, ms, n - 1, step);
      if prev.fault.Some? then prev else step(prev.engine, ms[n - 1])
  }

  /** A loop body that leaves snapshots and pointer as `Advance` sets them. */
  ghost predicate Bookkeeps(step: StepFn) {
    forall e, m :: step(e, m).engine.snapshots == Advance(e, m.tournament).snapshots && step(e, m).engine.current == m.tournament
  }

  /** `Step` as a total loop body; the second branch is never taken by the
      replay, which keeps `Known` (see `ReplayN`). */
  ghost function StepOf(teams: Teams, rate: RateFn): StepFn {
    (e, m) => if Known(teams, e) then Step(e, teams, m, rate) else Run(Advance(e, m.tournament), None)
  }

  lemma StepOfBookkeeps(teams: Teams, rate: RateFn)
    ensures Bookkeeps(StepOf(teams, rate))
  {
    var step := StepOf(teams, rate);
    forall e, m
      ensures step(e, m).engine.snapshots == Advance(e, m.tournament).snapshots && step(e, m).engine.current == m.tournament
    {
      if Known(teams, e) {
        StepSnapshots(e, teams, m, rate);
      }
    }
  }

  /** The replay is the loop with body `StepOf`. */
  lemma {:induction false} LoopIsReplay(e0: Engine, teams: Teams, ms: seq<Match>, n: nat, rate: RateFn)
    requires Known(teams, e0) && n <= |ms|
    ensures Loop(e0, ms, n, StepOf(teams, rate)) == ReplayN(e0, teams, ms, n, rate)
  {
    if n > 0 {
      LoopIsReplay(e0, teams, ms, n - 1, rate);
    }
  }

  lemma {:induction false} LoopStopsAtFault(e0: Engine, ms: seq<Match>, j: nat, n: nat, step: StepFn)
    requires j <= n <= |ms| && Loop(e0, ms, j, step).fault.Some?
    ensures Loop(e0, ms, n, step) == Loop(e0, ms, j, step)
    decreases n
  {
    if n > j {
      LoopStopsAtFault(e0, ms, j, n - 1, step);
    }
  }

  /** While the loop goes through, the pointer is the last match's tournament. */
  lemma LoopPointer(e0: Engine, ms: seq<Match>, n: nat, step: StepFn)
    requires Bookkeeps(step) && n <= |ms|
    requires Loop(e0, ms, n, step).fault.None?
    ensures Loop(e0, ms, n, step).engine.current == PrevOf(e0.current, ms, n)
  {
  }

  /** Along the loop, a key that no switch stores under keeps its snapshot. */
  lemma {:induction false} LoopKept(e0: Engine, ms: seq<Match>, j: nat, n: nat, k: string, step: StepFn)
    requires Bookkeeps(step) && j <= n <= |ms|
    requires Loop(e0, ms, n, step).fault.None?
    requires forall i :: j <= i < n && Switches(e0.current, ms, i) ==> PrevOf(e0.current, ms, i) != k
    ensures var sj := Loop(e0, ms, j, step).engine.snapshots;
      var sn := Loop(e0, ms, n, step).engine.snapshots;
      (k in sn <==> k in sj) && (k in sj ==> sn[k] == sj[k])
    decreases n
  {
    if n > j {
      var prev := Loop(e0, ms, n - 1, step);
      assert prev.fault.None?;
      LoopKept(e0, ms, j, n - 1, k, step);
      LoopPointer(e0, ms, n - 1, step);
      assert Loop(e0, ms, n, step) == step(prev.engine, ms[n - 1]);
    }
  }

  /** Along the loop, the switch at match j stores the ratings after j
      matches under the old pointer, and no later switch overwrites it. */
  lemma LoopAtLastSwitch(e0: Engine, ms: seq<Match>, j: nat, n: nat, step: StepFn)
    requires Bookkeeps(step) && j < n <= |ms|
    requires Loop(e0, ms, n, step).fault.None?
    requires Switches(e0.current, ms, j)
    requires forall i :: j < i < n && Switches(e0.current, ms, i) ==> PrevOf(e0.current, ms, i) != PrevOf(e0.current, ms, j)
    ensures var k := PrevOf(e0.current, ms, j);
      var sn := Loop(e0, ms, n, step).engine.snapshots;
      k in sn && sn[k] == Loop(e0, ms, j, step).engine.ratings
  {
    if Loop(e0, ms, j, step).fault.Some? {
      LoopStopsAtFault(e0, ms, j, n, step);
    }
    LoopKept(e0, ms, j + 1, n, PrevOf(e0.current, ms, j), step);
  }

  /** A stored snapshot is a value: it stays as it is until a later switch
      stores a new one under the same key. */
  lemma SnapshotKept(e0: Engine, teams: Teams, ms: seq<Match>, j: nat, n: nat, k: string, rate: RateFn)
    requires Known(teams, e0) && j <= n <= |ms|
    requires ReplayN(e0, teams, ms, n, rate).fault.None?
    requires forall i :: j <= i < n && Switches(e0.current, ms, i) ==> PrevOf(e0.current, ms, i) != k
    ensures var sj := ReplayN(e0, teams, ms, j, rate).engine.snapshots;
      var sn := ReplayN(e0, teams, ms, n, rate).engine.snapshots;
      (k in sn <==> k in sj) && (k in sj ==> sn[k] == sj[k])
  {
    LoopIsReplay(e0, teams, ms, n, rate);
    LoopIsReplay(e0, teams, ms, j, rate);
    StepOfBookkeeps(teams, rate);
    LoopKept(e0, ms, j, n, k, StepOf(teams, rate));
  }

  /** The snapshot under a key holds the ratings from just before the last
      switch away from that key; an earlier block of the same tournament is
      overwritten. */
  lemma SnapshotAtLastSwitch(e0: Engine, teams: Teams, ms: seq<Match>, j: nat, n: nat, rate: RateFn)
    requires Known(teams, e0) && j < n <= |ms|
    requires ReplayN(e0, teams, ms, n, rate).fault.None?
    requires Switches(e0.current, ms, j)
    requires forall i :: j < i < n && Switches(e0.current, ms, i) ==> PrevOf(e0.current, ms, i) != PrevOf(e0.current, ms, j)
    ensures var k := PrevOf(e0.current, ms, j);
      var sn := ReplayN(e0, teams, ms, n, rate).engine.snapshots;
      k in sn && sn[k] == ReplayN(e0, teams, ms, j, rate).engine.ratings
  {
    LoopIsReplay(e0, teams, ms, n, rate);
    LoopIsReplay(e0, teams, ms, j, rate);
    StepOfBookkeeps(teams, rate);
    LoopAtLastSwitch(e0, ms, j, n, StepOf(teams, rate));
  }

  /** A match that goes through adds its tally to every tracked player. */
  lemma ApplyTally(e: Engine, teams: Teams, m: Match, rate: RateFn, p: string)
    requires Known(teams, e) && Apply(e, teams, m, rate).fault.None?
    requires p in e.counters.games && p in e.counters.wins && p in e.counters.losses
    ensures var c := Apply(e, teams, m, rate).engine.counters;
      && p in c.games && p in c.wins && p in c.losses
      && c.games[p] == e.counters.games[p] + MatchTally(teams, m, p).games
      && c.wins[p] == e.counters.wins[p] + MatchTally(teams, m, p).wins
      && c.losses[p] == e.counters.losses[p] + MatchTally(teams, m, p).losses
  {
    ApplyDone(e, teams, m, rate);
    ApplyKeepsKeys(e, teams, m, rate);
    ApplyCounters(e, teams, m, rate);
    var t := m.tournament;
    CreditedCounts(e.counters, m, teams[t][m.team1], teams[t][m.team2]);
  }

  /** The tallies of the first n matches, added up. */
  function TallySum(teams: Teams, ms: seq<Match>, n: nat, p: string): Tally
    requires n <= |ms|
  {
    if n == 0 then Tally(0, 0, 0)
    else
      var prev := TallySum(teams, ms, n - 1, p);
      var t := MatchTally(teams, ms[n - 1], p);
      Tally(prev.games + t.games, prev.wins + t.wins, prev.losses + t.losses)
  }

  /** A loop body that keeps every registered player tracked. */
  ghost predicate KeepsKnown(teams: Teams, step: StepFn) {
    forall e, m :: Known(teams, e) ==> Known(teams, step(e, m).engine)
  }

  /** A loop body that, when it goes through, adds the match's tally to `p`. */
  ghost predicate AddsTally(teams: Teams, step: StepFn, p: string) {
    forall e, m ::
      (Known(teams, e) && p in e.counters.games && p in e.counters.wins && p in e.counters.losses
       && step(e, m).fault.None?) ==>
        var c := step(e, m).engine.counters;
        && p in c.games && p in c.wins && p in c.losses
        && c.games[p] == e.counters.games[p] + MatchTally(teams, m, p).games
        && c.wins[p] == e.counters.wins[p] + MatchTally(teams, m, p).wins
        && c.losses[p] == e.counters.losses[p] + MatchTally(teams, m, p).losses
  }

  lemma StepOfKeepsKnown(teams: Teams, rate: RateFn)
    ensures KeepsKnown(teams, StepOf(teams, rate))
  {
    var step := StepOf(teams, rate);
    forall e, m | Known(teams, e)
      ensures Known(teams, step(e, m).engine)
    {
      StepSnapshots(e, teams, m, rate);
      KnownByKeys(teams, e, step(e, m).engine);
    }
  }

  lemma StepOfAddsTally(teams: Teams, rate: RateFn, p: string)
    ensures AddsTally(teams, StepOf(teams, rate), p)
  {
    var step := StepOf(teams, rate);
    forall e, m | Known(teams, e) && p in e.counters.games && p in e.counters.wins && p in e.counters.losses
      && step(e, m).fault.None?
      ensures var c := step(e, m).engine.counters;
        && p in c.games && p in c.wins && p in c.losses
        && c.games[p] == e.counters.games[p] + MatchTally(teams, m, p).games
        && c.wins[p] == e.counters.wins[p] + MatchTally(teams, m, p).wins
        && c.losses[p] == e.counters.losses[p] + MatchTally(teams, m, p).losses
    {
      StepSnapshots(e, teams, m, rate);
      ApplyTally(Advance(e, m.tournament), teams, m, rate, p);
    }
  }

  lemma {:induction false} LoopKnown(e0: Engine, teams: Teams, ms: seq<Match>, n: nat, step: StepFn)
    requires Known(teams, e0) && KeepsKnown(teams, step) && n <= |ms|
    ensures Known(teams, Loop(e0, ms, n, step).engine)
  {
    if n > 0 {
      LoopKnown(e0, teams, ms, n - 1, step);
    }
  }

  lemma {:induction false} LoopTally(e0: Engine, teams: Teams, ms: seq<Match>, n: nat, p: string, step: StepFn)
    requires Known(teams, e0) && KeepsKnown(teams, step) && AddsTally(teams, step, p) && n <= |ms|
    requires p in e0.counters.games && p in e0.counters.wins && p in e0.counters.losses
    ensures var r := Loop(e0, ms, n, step);
      var c := r.engine.counters;
      r.fault.None? ==>
        && p in c.games && p in c.wins && p in c.losses
        && c.games[p] == e0.counters.games[p] + TallySum(teams, ms, n, p).games
        && c.wins[p] == e0.counters.wins[p] + TallySum(teams, ms, n, p).wins
        && c.losses[p] == e0.counters.losses[p] + TallySum(teams, ms, n, p).losses
  {
    if n > 0 {
      LoopTally(e0, teams, ms, n - 1, p, step);
      LoopKnown(e0, teams, ms, n - 1, step);
      var prev := Loop(e0, ms, n - 1, step);
      if prev.fault.None? {
        assert Loop(e0, ms, n, step) == step(prev.engine, ms[n - 1]);
      }
    }
  }

  /** The replay does not reset the counters: a replay that goes through
      adds every match's tally to what the counters held before. */
  lemma ReplayTally(e0: Engine, teams: Teams, ms: seq<Match>, n: nat, p: string, rate: RateFn)
    requires Known(teams, e0) && n <= |ms|
    requires p in e0.counters.games && p in e0.counters.wins && p in e0.counters.losses
    requires ReplayN(e0, teams, ms, n, rate).fault.None?
    ensures var c := ReplayN(e0, teams, ms, n, rate).engine.counters;
      && p in c.games && p in c.wins && p in c.losses
      && c.games[p] == e0.counters.games[p] + TallySum(teams, ms, n, p).games
      && c.wins[p] == e0.counters.wins[p] + TallySum(teams, ms, n, p).wins
      && c.losses[p] == e0.counters.losses[p] + TallySum(teams, ms, n, p).losses
  {
    LoopIsReplay(e0, teams, ms, n, rate);
    StepOfKeepsKnown(teams, rate);
    StepOfAddsTally(teams, rate, p);
    LoopTally(e0, teams, ms, n, p, StepOf(teams, rate));
  }

  /** A player outside the rated positions of every replayed match keeps
      its starting rating, whether or not the replay raised. */
  lemma {:induction false} IdleKeepsRating(e0: Engine, teams: Teams, ms: seq<Match>, n: nat, p: string, rate: RateFn)
    requires Known(teams, e0) && n <= |ms| && p in e0.ratings
    requires forall i :: 0 <= i < n ==> !Rated(teams, ms[i], p)
    ensures var r := ReplayN(e0, teams, ms, n, rate).engine.ratings;
      p in r && r[p] == e0.ratings[p]
  {
    if n > 0 {
      IdleKeepsRating(e0, teams, ms, n - 1, p, rate);
      var prev := ReplayN(e0, teams, ms, n - 1, rate);
      if prev.fault.None? {
        var a := Advance(prev.engine, ms[n - 1].tournament);
        StepSnapshots(prev.engine, teams, ms[n - 1], rate);
        ApplyRatesOnlyFirstFive(a, teams, ms[n - 1], rate, p);
      }
    }
  }

  /** The rating map and the counters keep their keys through the whole
      replay, also one that raised. */
  lemma {:induction false} ReplayKeepsKeys(e0: Engine, teams: Teams, ms: seq<Match>, n: nat, rate: RateFn)
    requires Known(teams, e0) && n <= |ms|
    ensures var e := ReplayN(e0, teams, ms, n, rate).engine;
      && e.ratings.Keys == e0.ratings.Keys
      && e.counters.games.Keys == e0.counters.games.Keys
      && e.counters.wins.Keys == e0.counters.wins.Keys
      && e.counters.losses.Keys == e0.counters.losses.Keys
  {
    if n > 0 {
      ReplayKeepsKeys(e0, teams, ms, n - 1, rate);
      var prev := ReplayN(e0, teams, ms, n - 1, rate);
      if prev.fault.None? {
        StepSnapshots(prev.engine, teams, ms[n - 1], rate);
      }
    }
  }

  /** The first match of a non-blank tournament stores, under the initial
      pointer `''`, the ratings as reset: every player at the prior. This
      happens before the match is looked up, so also when it raises. */
  lemma FirstSnapshotUnderBlank(players: set<string>, counters: Counters, snapshots: map<string, map<string, Rating>>,
                                teams: Teams, ms: seq<Match>, rate: RateFn)
    requires Known(teams, Start(players, counters, snapshots)) && 0 < |ms| && ms[0].tournament != ""
    ensures var s := ReplayN(Start(players, counters, snapshots), teams, ms, 1, rate).engine.snapshots;
      "" in s && s[""].Keys == players && forall p :: p in players ==> s[""][p] == Prior
  {
    var e0 := Start(players, counters, snapshots);
    assert ReplayN(e0, teams, ms, 1, rate) == Step(e0, teams, ms[0], rate);
    StepSnapshots(e0, teams, ms[0], rate);
  }

  /** After a replay that went through, the last tournament's snapshot
      (the one under `''` when there were no matches) is the final rating
      map, whose keys are the players. */
  lemma FinalSnapshot(players: set<string>, counters: Counters, snapshots: map<string, map<string, Rating>>,
                      teams: Teams, ms: seq<Match>, rate: RateFn)
    requires Known(teams, Start(players, counters, snapshots))
    requires CalculateTrueSkills(players, counters, snapshots, teams, ms, rate).fault.None?
    ensures var e := CalculateTrueSkills(players, counters, snapshots, teams, ms, rate).engine;
      var last := if |ms| == 0 then "" else ms[|ms| - 1].tournament;
      && e.current == last && last in e.snapshots && e.snapshots[last] == e.ratings
      && e.ratings.Keys == players
  {
    var e0 := Start(players, counters, snapshots);
    ReplayPointer(e0, teams, ms, |ms|, rate);
    ReplayKeepsKeys(e0, teams, ms, |ms|, rate);
  }

  /** A player who is never in a rated position of a replayed match ends
      at the prior, even when the replay raised. */
  lemma IdleStaysAtPrior(players: set<string>, counters: Counters, snapshots: map<string, map<string, Rating>>,
                         teams: Teams, ms: seq<Match>, p: string, rate: RateFn)
    requires Known(teams, Start(players, counters, snapshots)) && p in players
    requires forall i :: 0 <= i < |ms| ==> !Rated(teams, ms[i], p)
    ensures var r := CalculateTrueSkills(players, counters, snapshots, teams, ms, rate).engine.ratings;
      p in r && r[p] == Prior
  {
    IdleKeepsRating(Start(players, counters, snapshots), teams, ms, |ms|, p, rate);
  }
}
