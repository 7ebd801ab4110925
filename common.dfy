/** Values shared by every part of the rating tracker: ratings, matches,
    counters, the failures the tracker can raise, and the two string helpers
    the roster ingestion relies on (Python's `strip() == ''` test and the
    decimal rendering of an integer inside an f-string). */
module Common {

  datatype Option<T> = None | Some(value: T)

  /** A value or the failure that stopped the computation (a raised exception). */
  datatype Result<T> = Ok(value: T) | Err(fault: Fault)

  /** One problem found while scanning a match file: a team name that the
      tournament's roster does not know. `side` is 1 or 2, the column it came from. */
  datatype TeamError = TeamError(tournament: string, missing: string, opponent: string, side: nat)

  /** The exceptions the tracker raises. */
  datatype Fault =
    | EmptyTeam(tournament: string)             // add_player: blank team name
    | MissingField(line: nat)                   // a row too short for the column read
    | BadNumber(line: nat)                      // int() refused a win count
    | BadTime(line: nat)                        // strptime refused a timestamp
    | UnknownTournament(tournament: string)     // KeyError on teams[tournament]
    | UnknownTeams(errors: seq<TeamError>)      // the aggregated match-file exception
    | UnknownTeam(tournament: string, team: string)   // KeyError during the replay
    | RosterIndex(tournament: string, team: string)   // IndexError during write-back
    | UndatedTournament(tournament: string)     // KeyError on tournamentdates in the report

  /** A trueskill rating: mean and uncertainty. */
  datatype Rating = Rating(mu: real, sigma: real)

  /** The rating every player is reset to: trueskill's MU = 25 and SIGMA = MU / 3. */
  const Prior: Rating := Rating(25.0, 25.0 / 3.0)

  /** A parsed, timezone-aware timestamp: the instant it denotes (what Python
      compares when sorting) and the calendar day `time.date()` gives. */
  datatype Stamp = Stamp(instant: int, day: int)

  /** One row of a match file. The win counts are whatever `int()` returned. */
  datatype Match = Match(
    tournament: string,
    bracket: string,
    team1: string,
    team2: string,
    team1Wins: int,
    team2Wins: int,
    time: Stamp)

  /** tournament -> team name -> ordered roster of player names */
  type Teams = map<string, map<string, seq<string>>>

  /** The per-player games/wins/losses dictionaries. */
  datatype Counters = Counters(games: map<string, int>, wins: map<string, int>, losses: map<string, int>)

  /** Every player with a games counter has wins and losses counters summing to it. */
  ghost predicate Balanced(c: Counters) {
    && c.games.Keys == c.wins.Keys == c.losses.Keys
    && forall p :: p in c.games ==> c.games[p] == c.wins[p] + c.losses[p]
  }

  predicate NoDuplicates<T(==)>(s: seq<T>) {
    forall i, j :: 0 <= i < j < |s| ==> s[i] != s[j]
  }

  /** The characters Python's `str.strip()` removes (`str.isspace`). */
  predicate IsSpace(c: char) {
    || c == ' ' || c == '\t' || c == '\n' || c == '\r'
    || c == '\U{000B}' || c == '\U{000C}'
    || ('\U{001C}' <= c <= '\U{001F}')
    || c == '\U{0085}' || c == '\U{00A0}' || c == '\U{1680}'
    || ('\U{2000}' <= c <= '\U{200A}')
    || c == '\U{2028}' || c == '\U{2029}' || c == '\U{202F}' || c == '\U{205F}' || c == '\U{3000}'
  }

  /** `s.strip() == ''` */
  predicate IsBlank(s: string) {
    forall i :: 0 <= i < |s| ==> IsSpace(s[i])
  }

  function Digit(d: nat): (c: char)
    requires d < 10
    ensures '0' <= c <= '9' && c as int - '0' as int == d
  {
    ('0' as int + d) as char
  }

  /** The number a text of decimal digits spells, most significant digit first. */
  function DigitsValue(s: string): int
    decreases |s|
  {
    if s == [] then 0 else 10 * DigitsValue(s[..|s| - 1]) + (s[|s| - 1] as int - '0' as int)
  }

  /** The decimal rendering of `n`, as `f"{n}"` produces it: digits that
      spell `n`, with no leading zero. */
  function NatToString(n: nat): (s: string)
    ensures 1 <= |s|
    ensures n >= 10 <==> |s| >= 2
    ensures forall i :: 0 <= i < |s| ==> '0' <= s[i] <= '9'
    ensures DigitsValue(s) == n
    ensures s[0] == '0' <==> n == 0
    ensures |s| >= 2 ==> s[0] != '0'
    decreases n
  {
    if n < 10 then [Digit(n)]
    else
      var s := NatToString(n / 10) + [Digit(n % 10)];
      assert s[..|s| - 1] == NatToString(n / 10);
      s
  }

  /** Different numbers never render to the same text. */
  lemma {:induction false} NatToStringInjective(a: nat, b: nat)
    requires NatToString(a) == NatToString(b)
    ensures a == b
  {
    var sa, sb := NatToString(a), NatToString(b);
    if a >= 10 && b >= 10 {
      assert sa[|sa| - 1] == Digit(a % 10) && sb[|sb| - 1] == Digit(b % 10);
      assert sa[..|sa| - 1] == NatToString(a / 10);
      assert sb[..|sb| - 1] == NatToString(b / 10);
      NatToStringInjective(a / 10, b / 10);
    } else {
      assert a < 10 && b < 10;
      assert sa[0] == Digit(a) && sb[0] == Digit(b);
    }
  }
}
