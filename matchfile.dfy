/** The row loop of `ingest_matches_from_file`, as a function on the value
    of the match list, the tournament dates and the accumulated errors.
    Python's `int()` and `datetime.strptime` are parameters. */
module MatchFile {
  import opened Common

  /** Reads the columns of one data row in the order the source does:
      tournament, bracket, team 1, team 2, both win counts, the timestamp.
      A missing column or a field the parsers refuse raises at once. */
  function ParseRow(row: seq<string>, line: nat, parseInt: string -> Option<int>, parseTime: string -> Option<Stamp>): (res: Result<Match>)
    ensures |row| < 5 ==> res == Err(MissingField(line))
    ensures res.Ok? <==> |row| >= 7 && parseInt(row[4]).Some? && parseInt(row[5]).Some? && parseTime(row[6]).Some?
    ensures res.Ok? ==> res.value == Match(row[0], row[1], row[2], row[3],
                                           parseInt(row[4]).value, parseInt(row[5]).value, parseTime(row[6]).value)
  {
    if |row| < 5 then Err(MissingField(line))
    else match parseInt(row[4])
      case None => Err(BadNumber(line))
      case Some(w1) =>
        if |row| < 6 then Err(MissingField(line))
        else match parseInt(row[5])
          case None => Err(BadNumber(line))
          case Some(w2) =>
            if |row| < 7 then Err(MissingField(line))
            else match parseTime(row[6])
              case None => Err(BadTime(line))
              case Some(time) => Ok(Match(row[0], row[1], row[2], row[3], w1, w2, time))
  }

  /** The state of the match-file loop. */
  datatype Scan = Scan(matches: seq<Match>, dates: map<string, int>, errors: seq<TeamError>, fault: Option<Fault>)

  /** The team errors one match contributes, team 1's first. */
  function TeamErrors(teams: Teams, m: Match): seq<TeamError>
    requires m.tournament in teams
  {
    var known := teams[m.tournament];
    (if m.team1 in known then [] else [TeamError(m.tournament, m.team1, m.team2, 1)])
    + (if m.team2 in known then [] else [TeamError(m.tournament, m.team2, m.team1, 2)])
  }

  /** One data row. An unknown tournament raises at once (the lookup of its
      team registry fails); unknown teams are only recorded, and the match
      is appended either way. The tournament's date is set on first sight. */
  function ScanRow(s: Scan, teams: Teams, row: seq<string>, line: nat,
                   parseInt: string -> Option<int>, parseTime: string -> Option<Stamp>): (s': Scan)
    ensures s'.fault.Some? ==> s'.matches == s.matches && s'.dates == s.dates && s'.errors == s.errors
    ensures s'.fault.None? ==>
      && |s'.matches| == |s.matches| + 1 && s'.matches[..|s.matches|] == s.matches
      && s'.matches[|s.matches|].tournament in teams && s'.matches[|s.matches|].tournament in s'.dates
      && s.errors <= s'.errors
      && (forall t :: t in s.dates ==> t in s'.dates && s'.dates[t] == s.dates[t])
  {
    match ParseRow(row, line, parseInt, parseTime)
    case Err(f) => s.(fault := Some(f))
    case Ok(m) =>
      if m.tournament !in teams then s.(fault := Some(UnknownTournament(m.tournament)))
      else
        Scan(s.matches + [m],
             if m.tournament in s.dates then s.dates else s.dates[m.tournament := m.time.day],
             s.errors + TeamErrors(teams, m),
             None)
  }

  /** The loop after rows[..n]; row 0 is the header. Errors start empty for every file. */
  function ScanRows(matches0: seq<Match>, dates0: map<string, int>, teams: Teams, rows: seq<seq<string>>, n: nat,
                    parseInt: string -> Option<int>, parseTime: string -> Option<Stamp>): (s: Scan)
    requires n <= |rows|
    ensures |matches0| <= |s.matches| && s.matches[..|matches0|] == matches0
  {
    if n == 0 then Scan(matches0, dates0, [], None)
    else
      var prev := ScanRows(matches0, dates0, teams, rows, n - 1, parseInt, parseTime);
      if prev.fault.Some? || n == 1 then prev
      else
        var s := ScanRow(prev, teams, rows[n - 1], n - 1, parseInt, parseTime);
        assert s.matches[..|matches0|] == prev.matches[..|matches0|];
        s
  }

  /** What the file raises after the loop: its first hard failure, or else
      one exception carrying every team error when there are any. */
  function Raised(s: Scan): (f: Option<Fault>)
    ensures f.None? <==> s.fault.None? && s.errors == []
    ensures s.fault.Some? ==> f == s.fault
  {
    if s.fault.Some? then s.fault
    else if s.errors != [] then Some(UnknownTeams(s.errors))
    else None
  }

  lemma ScanStep(matches0: seq<Match>, dates0: map<string, int>, teams: Teams, rows: seq<seq<string>>, n: nat,
                 parseInt: string -> Option<int>, parseTime: string -> Option<Stamp>)
    requires 1 < n <= |rows|
    ensures var prev := ScanRows(matches0, dates0, teams, rows, n - 1, parseInt, parseTime);
      var s := ScanRows(matches0, dates0, teams, rows, n, parseInt, parseTime);
      && (prev.fault.Some? ==> s == prev)
      && (s.fault.Some? ==> s.matches == prev.matches && s.dates == prev.dates && s.errors == prev.errors)
      && (s.fault.None? ==>
            && prev.fault.None?
            && ParseRow(rows[n - 1], n - 1, parseInt, parseTime).Ok?
            && var m := ParseRow(rows[n - 1], n - 1, parseInt, parseTime).value;
            && m.tournament in teams
            && s.matches == prev.matches + [m]
            && s.dates == (if m.tournament in prev.dates then prev.dates else prev.dates[m.tournament := m.time.day])
            && s.errors == prev.errors + TeamErrors(teams, m))
  {
  }

  /** When no row raised, every data row was parsed and appended, in file order. */
  lemma {:induction false} EveryRowAppended(matches0: seq<Match>, dates0: map<string, int>, teams: Teams,
                                            rows: seq<seq<string>>, n: nat,
                                            parseInt: string -> Option<int>, parseTime: string -> Option<Stamp>)
    requires 0 < n <= |rows|
    requires ScanRows(matches0, dates0, teams, rows, n, parseInt, parseTime).fault.None?
    ensures var s := ScanRows(matches0, dates0, teams, rows, n, parseInt, parseTime);
      && |s.matches| == |matches0| + n - 1
      && forall j :: 1 <= j < n ==> ParseRow(rows[j], j, parseInt, parseTime) == Ok(s.matches[|matches0| + j - 1])
  {
    if n > 1 {
      var prev := ScanRows(matches0, dates0, teams, rows, n - 1, parseInt, parseTime);
      ScanStep(matches0, dates0, teams, rows, n, parseInt, parseTime);
      assert prev.fault.None?;
      EveryRowAppended(matches0, dates0, teams, rows, n - 1, parseInt, parseTime);
    }
  }

  /** The errors recorded for matches `ms`: every unknown team of every match
      is recorded, and every record names a team its match's tournament lacks. */
  ghost predicate ErrorsAccountFor(teams: Teams, ms: seq<Match>, errors: seq<TeamError>) {
    && (forall i :: 0 <= i < |ms| ==> ms[i].tournament in teams)
    && (forall i :: 0 <= i < |ms| && ms[i].team1 !in teams[ms[i].tournament] ==>
          TeamError(ms[i].tournament, ms[i].team1, ms[i].team2, 1) in errors)
    && (forall i :: 0 <= i < |ms| && ms[i].team2 !in teams[ms[i].tournament] ==>
          TeamError(ms[i].tournament, ms[i].team2, ms[i].team1, 2) in errors)
    && (forall e :: e in errors ==> ErrorFromSome(teams, ms, e))
  }

  /** `e` reports a team that some match of `ms` names in the column `e.side`
      and that the match's tournament does not have. */
  ghost predicate ErrorFromSome(teams: Teams, ms: seq<Match>, e: TeamError) {
    && e.tournament in teams && e.missing !in teams[e.tournament]
    && exists i :: 0 <= i < |ms| && ErrorFrom(ms[i], e)
  }

  predicate ErrorFrom(m: Match, e: TeamError) {
    && m.tournament == e.tournament
    && ((e.side == 1 && m.team1 == e.missing) || (e.side == 2 && m.team2 == e.missing))
  }

  lemma ErrorFromSomeAppend(teams: Teams, ms: seq<Match>, m: Match, e: TeamError)
    requires ErrorFromSome(teams, ms, e)
    ensures ErrorFromSome(teams, ms + [m], e)
  {
    var i :| 0 <= i < |ms| && ErrorFrom(ms[i], e);
    assert (ms + [m])[i] == ms[i];
  }

  lemma ErrorsAccountForAppend(teams: Teams, ms: seq<Match>, errors: seq<TeamError>, m: Match)
    requires ErrorsAccountFor(teams, ms, errors) && m.tournament in teams
    ensures ErrorsAccountFor(teams, ms + [m], errors + TeamErrors(teams, m))
  {
    var ms', errors' := ms + [m], errors + TeamErrors(teams, m);
    assert ms'[|ms|] == m;
    forall e | e in errors'
      ensures ErrorFromSome(teams, ms', e)
    {
      if e in errors {
        ErrorFromSomeAppend(teams, ms, m, e);
      } else {
        assert ErrorFrom(ms'[|ms|], e);
      }
    }
    assert forall i :: 0 <= i < |ms| ==> ms'[i] == ms[i];
  }

  /** Before the first data row nothing is appended. */
  lemma ScanStart(matches0: seq<Match>, dates0: map<string, int>, teams: Teams, rows: seq<seq<string>>, n: nat,
                  parseInt: string -> Option<int>, parseTime: string -> Option<Stamp>)
    requires n <= 1 && n <= |rows|
    ensures ScanRows(matches0, dates0, teams, rows, n, parseInt, parseTime) == Scan(matches0, dates0, [], None)
  {
  }

  /** A data row after which the loop is still running appended the match `m`. */
  lemma ScanAppended(matches0: seq<Match>, dates0: map<string, int>, teams: Teams, rows: seq<seq<string>>, n: nat,
                     parseInt: string -> Option<int>, parseTime: string -> Option<Stamp>) returns (m: Match)
    requires 1 < n <= |rows|
    ensures var prev := ScanRows(matches0, dates0, teams, rows, n - 1, parseInt, parseTime);
      var s := ScanRows(matches0, dates0, teams, rows, n, parseInt, parseTime);
      && (s.fault.Some? ==> s.matches == prev.matches && s.dates == prev.dates && s.errors == prev.errors)
      && (s.fault.None? ==>
            && m.tournament in teams
            && s.matches == prev.matches + [m]
            && s.dates == (if m.tournament in prev.dates then prev.dates else prev.dates[m.tournament := m.time.day])
            && s.errors == prev.errors + TeamErrors(teams, m))
  {
    ScanStep(matches0, dates0, teams, rows, n, parseInt, parseTime);
    var s := ScanRows(matches0, dates0, teams, rows, n, parseInt, parseTime);
    if s.fault.None? {
      m := ParseRow(rows[n - 1], n - 1, parseInt, parseTime).value;
    } else {
      m := Match("", "", "", "", 0, 0, Stamp(0, 0));
    }
  }

  /** One appended match, on the scan state alone. */
  lemma ErrorsStep(matches0: seq<Match>, teams: Teams, prev: Scan, s: Scan, m: Match)
    requires |matches0| <= |prev.matches| && m.tournament in teams
    requires ErrorsAccountFor(teams, prev.matches[|matches0|..], prev.errors)
    requires s.matches == prev.matches + [m] && s.errors == prev.errors + TeamErrors(teams, m)
    ensures ErrorsAccountFor(teams, s.matches[|matches0|..], s.errors)
  {
    assert s.matches[|matches0|..] == prev.matches[|matches0|..] + [m];
    ErrorsAccountForAppend(teams, prev.matches[|matches0|..], prev.errors, m);
  }

  /** Errors are gathered across all rows read: each unknown team of an
      appended match is recorded, and nothing else is. */
  lemma {:induction false} ErrorsAccumulate(matches0: seq<Match>, dates0: map<string, int>, teams: Teams,
                                            rows: seq<seq<string>>, n: nat,
                                            parseInt: string -> Option<int>, parseTime: string -> Option<Stamp>)
    requires n <= |rows|
    ensures var s := ScanRows(matches0, dates0, teams, rows, n, parseInt, parseTime);
      ErrorsAccountFor(teams, s.matches[|matches0|..], s.errors)
  {
    var s := ScanRows(matches0, dates0, teams, rows, n, parseInt, parseTime);
    if n <= 1 {
      ScanStart(matches0, dates0, teams, rows, n, parseInt, parseTime);
    } else {
      var prev := ScanRows(matches0, dates0, teams, rows, n - 1, parseInt, parseTime);
      ErrorsAccumulate(matches0, dates0, teams, rows, n - 1, parseInt, parseTime);
      var m := ScanAppended(matches0, dates0, teams, rows, n, parseInt, parseTime);
      if s.fault.None? {
        ErrorsStep(matches0, teams, prev, s, m);
      }
    }
  }

  /** The file raises the aggregated exception exactly when some appended
      match names a team its tournament does not have. */
  lemma NoErrorsIffTeamsKnown(matches0: seq<Match>, dates0: map<string, int>, teams: Teams,
                              rows: seq<seq<string>>, n: nat,
                              parseInt: string -> Option<int>, parseTime: string -> Option<Stamp>)
    requires n <= |rows|
    ensures var s := ScanRows(matches0, dates0, teams, rows, n, parseInt, parseTime);
      var ms := s.matches[|matches0|..];
      s.errors == [] <==>
        forall i :: 0 <= i < |ms| ==>
          ms[i].tournament in teams && ms[i].team1 in teams[ms[i].tournament] && ms[i].team2 in teams[ms[i].tournament]
  {
    ErrorsAccumulate(matches0, dates0, teams, rows, n, parseInt, parseTime);
    var s := ScanRows(matches0, dates0, teams, rows, n, parseInt, parseTime);
    if s.errors != [] {
      assert s.errors[0] in s.errors;
      assert ErrorFromSome(teams, s.matches[|matches0|..], s.errors[0]);
    }
  }

  /** A tournament's date is the day of its first match in file order, not
      the earliest one; dates already known are kept, and every appended
      match's tournament gets one. */
  ghost predicate DatesFirstSeen(dates0: map<string, int>, ms: seq<Match>, dates: map<string, int>) {
    && (forall t :: t in dates <==> t in dates0 || exists i :: 0 <= i < |ms| && ms[i].tournament == t)
    && (forall t :: t in dates0 ==> dates[t] == dates0[t])
    && (forall i :: 0 <= i < |ms| && ms[i].tournament !in dates0 && FirstOf(ms, i) ==>
          dates[ms[i].tournament] == ms[i].time.day)
  }

  /** No match before position i has the tournament of match i. */
  predicate FirstOf(ms: seq<Match>, i: nat)
    requires i < |ms|
  {
    forall k :: 0 <= k < i ==> ms[k].tournament != ms[i].tournament
  }

  lemma DatesFirstSeenAppend(dates0: map<string, int>, ms: seq<Match>, dates: map<string, int>, m: Match)
    requires DatesFirstSeen(dates0, ms, dates)
    ensures DatesFirstSeen(dates0, ms + [m], if m.tournament in dates then dates else dates[m.tournament := m.time.day])
  {
    var ms' := ms + [m];
    var dates' := if m.tournament in dates then dates else dates[m.tournament := m.time.day];
    forall t
      ensures t in dates' <==> t in dates0 || exists i :: 0 <= i < |ms'| && ms'[i].tournament == t
    {
      if exists i :: 0 <= i < |ms| && ms[i].tournament == t {
        var i :| 0 <= i < |ms| && ms[i].tournament == t;
        assert ms'[i] == ms[i];
      }
      if t == m.tournament {
        assert ms'[|ms|] == m;
      }
      if exists i :: 0 <= i < |ms'| && ms'[i].tournament == t {
        var i :| 0 <= i < |ms'| && ms'[i].tournament == t;
        if i < |ms| {
          assert ms[i] == ms'[i];
        }
      }
    }
    forall i | 0 <= i < |ms'| && ms'[i].tournament !in dates0 && FirstOf(ms', i)
      ensures dates'[ms'[i].tournament] == ms'[i].time.day
    {
      if i < |ms| {
        assert ms'[i] == ms[i];
        assert FirstOf(ms, i) by {
          assert forall k :: 0 <= k < i ==> ms[k] == ms'[k];
        }
      } else {
        assert ms'[i] == m;
        assert forall k :: 0 <= k < |ms| ==> ms[k] == ms'[k];
      }
    }
  }

  /** One appended match, on the scan state alone. */
  lemma DatesStep(matches0: seq<Match>, dates0: map<string, int>, prev: Scan, s: Scan, m: Match)
    requires |matches0| <= |prev.matches|
    requires DatesFirstSeen(dates0, prev.matches[|matches0|..], prev.dates)
    requires s.matches == prev.matches + [m]
    requires s.dates == if m.tournament in prev.dates then prev.dates else prev.dates[m.tournament := m.time.day]
    ensures DatesFirstSeen(dates0, s.matches[|matches0|..], s.dates)
  {
    assert s.matches[|matches0|..] == prev.matches[|matches0|..] + [m];
    DatesFirstSeenAppend(dates0, prev.matches[|matches0|..], prev.dates, m);
  }

  /** The dates the loop records are the first-seen dates of the appended matches. */
  lemma {:induction false} DatesRecordedFirstSeen(matches0: seq<Match>, dates0: map<string, int>, teams: Teams,
                                                  rows: seq<seq<string>>, n: nat,
                                                  parseInt: string -> Option<int>, parseTime: string -> Option<Stamp>)
    requires n <= |rows|
    ensures var s := ScanRows(matches0, dates0, teams, rows, n, parseInt, parseTime);
      DatesFirstSeen(dates0, s.matches[|matches0|..], s.dates)
  {
    var s := ScanRows(matches0, dates0, teams, rows, n, parseInt, parseTime);
    if n <= 1 {
      ScanStart(matches0, dates0, teams, rows, n, parseInt, parseTime);
    } else {
      var prev := ScanRows(matches0, dates0, teams, rows, n - 1, parseInt, parseTime);
      DatesRecordedFirstSeen(matches0, dates0, teams, rows, n - 1, parseInt, parseTime);
      var m := ScanAppended(matches0, dates0, teams, rows, n, parseInt, parseTime);
      if s.fault.None? {
        DatesStep(matches0, dates0, prev, s, m);
      }
    }
  }

  /** A hard failure ends the match-file loop: later rows change nothing. */
  lemma {:induction false} ScanStopsAtFault(matches0: seq<Match>, dates0: map<string, int>, teams: Teams,
                                            rows: seq<seq<string>>, j: nat, n: nat,
                                            parseInt: string -> Option<int>, parseTime: string -> Option<Stamp>)
    requires j <= n <= |rows|
    requires ScanRows(matches0, dates0, teams, rows, j, parseInt, parseTime).fault.Some?
    ensures ScanRows(matches0, dates0, teams, rows, n, parseInt, parseTime) == ScanRows(matches0, dates0, teams, rows, j, parseInt, parseTime)
    decreases n
  {
    if n > j {
      ScanStopsAtFault(matches0, dates0, teams, rows, j, n - 1, parseInt, parseTime);
    }
  }
}
