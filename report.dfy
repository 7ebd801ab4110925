/** The column layout of `write_player_ratings`: the header row and the
    per-tournament team cells of a player's row. The scores themselves
    (floating-point `mu - 3 * sigma` and the win ratio) are not modelled. */
module Report {
  import opened Common
  import opened Sorting

  /** The eight columns every row starts with. */
  const FixedColumns: seq<string> := ["Player Name", "scene", "trueskill", "tourneys", "games", "wins", "losses", "win%"]

  /** The sort key `lambda t: tournamentdates[t]`, total once every
      tournament is known to have a date. */
  function DateKey(dates: map<string, int>): string -> int {
    t => if t in dates then dates[t] else 0
  }

  /** The first tournament, in registration order, without a date: the one
      whose key lookup raises when `sorted` computes the keys. */
  function FirstUndated(ts: seq<string>, dates: map<string, int>): (r: Option<string>)
    ensures r.None? <==> forall t :: t in ts ==> t in dates
    ensures r.Some? ==> exists i :: 0 <= i < |ts| && ts[i] == r.value && ts[i] !in dates && forall j :: 0 <= j < i ==> ts[j] in dates
  {
    if ts == [] then None
    else if ts[0] !in dates then Some(ts[0])
    else
      var r := FirstUndated(ts[1..], dates);
      assert forall t :: t in ts ==> t == ts[0] || t in ts[1..];
      if r.Some? then
        var i :| 0 <= i < |ts[1..]| && ts[1..][i] == r.value && ts[1..][i] !in dates && forall j :: 0 <= j < i ==> ts[1..][j] in dates;
        assert forall j :: 0 <= j < i + 1 ==> ts[j] in dates by {
          forall j | 0 <= j < i + 1 ensures ts[j] in dates {
            if j > 0 { assert ts[j] == ts[1..][j - 1]; }
          }
        }
        r
      else r
  }

  /** `sorted(self.tournaments, key=...)`: the tournaments in date order,
      stable, or the KeyError of an undated one. */
  function TournamentOrder(ts: seq<string>, dates: map<string, int>): (r: Result<seq<string>>)
    ensures r.Ok? <==> forall t :: t in ts ==> t in dates
    ensures r.Ok? ==> multiset(r.value) == multiset(ts)
    ensures r.Err? ==> r.fault.UndatedTournament? && r.fault.tournament in ts && r.fault.tournament !in dates
  {
    match FirstUndated(ts, dates)
    case Some(t) => Err(UndatedTournament(t))
    case None => Ok(SortBy(ts, DateKey(dates)))
  }

  /** The header row: the fixed columns, then the tournament order twice
      (team cells, then snapshot scores). */
  function Header(ts: seq<string>, dates: map<string, int>): (h: Result<seq<string>>)
    ensures h.Ok? <==> forall t :: t in ts ==> t in dates
    ensures h.Ok? ==> |h.value| == |FixedColumns| + 2 * |ts| && h.value[..|FixedColumns|] == FixedColumns
  {
    match TournamentOrder(ts, dates)
    case Err(f) => Err(f)
    case Ok(order) =>
      assert |order| == |multiset(order)| == |multiset(ts)| == |ts|;
      assert (FixedColumns + order + order)[..|FixedColumns|] == FixedColumns;
      Ok(FixedColumns + order + order)
  }

  /** The order exists exactly when every tournament has a date;
      otherwise the fault names an undated one. */
  lemma TournamentOrderDefined(ts: seq<string>, dates: map<string, int>)
    ensures TournamentOrder(ts, dates).Ok? <==> forall t :: t in ts ==> t in dates
    ensures TournamentOrder(ts, dates).Err? ==>
      TournamentOrder(ts, dates).fault.UndatedTournament? &&
      TournamentOrder(ts, dates).fault.tournament in ts && TournamentOrder(ts, dates).fault.tournament !in dates
  {
  }

  /** The order holds each tournament as often as the registry does, sorted
      by date, and tournaments of the same date keep their registration order. */
  lemma TournamentOrderSorted(ts: seq<string>, dates: map<string, int>)
    requires forall t :: t in ts ==> t in dates
    ensures TournamentOrder(ts, dates).Ok?
    ensures var order := TournamentOrder(ts, dates).value;
      && multiset(order) == multiset(ts)
      && (forall t :: t in order ==> t in dates)
      && (forall i, j :: 0 <= i < j < |order| ==> dates[order[i]] <= dates[order[j]])
      && (forall d :: WithKey(order, DateKey(dates), d) == WithKey(ts, DateKey(dates), d))
  {
    var order := SortBy(ts, DateKey(dates));
    SortBySorted(ts, DateKey(dates));
    assert forall t :: t in order ==> t in dates by {
      forall t | t in order ensures t in dates {
        assert t in multiset(order);
      }
    }
    forall d ensures WithKey(order, DateKey(dates), d) == WithKey(ts, DateKey(dates), d) {
      SortByStable(ts, DateKey(dates), d);
    }
    forall i, j | 0 <= i < j < |order| ensures dates[order[i]] <= dates[order[j]] {
      assert order[i] in order && order[j] in order;
      assert DateKey(dates)(order[i]) <= DateKey(dates)(order[j]);
    }
  }

  /** The header has 8 + 2n columns for n tournaments: the fixed ones, then
      two copies of the tournament order, column 8 + i and column 8 + n + i
      naming the same tournament. */
  lemma HeaderLayout(ts: seq<string>, dates: map<string, int>)
    requires forall t :: t in ts ==> t in dates
    ensures Header(ts, dates).Ok?
    ensures var h := Header(ts, dates).value;
      && |h| == |FixedColumns| + 2 * |ts| == 8 + 2 * |ts|
      && h[..8] == FixedColumns
      && multiset(h[8..8 + |ts|]) == multiset(ts)
      && (forall i :: 8 <= i < 8 + |ts| ==> h[i] == h[i + |ts|])
  {
    TournamentOrderSorted(ts, dates);
    var order := TournamentOrder(ts, dates).value;
    assert |order| == |ts| by {
      assert |multiset(order)| == |multiset(ts)|;
    }
    DoubledLayout(order);
  }

  /** The fixed columns followed by a column list written twice. */
  lemma DoubledLayout(order: seq<string>)
    ensures var h := FixedColumns + order + order;
      && |h| == 8 + 2 * |order|
      && h[..8] == FixedColumns
      && h[8..8 + |order|] == order
      && (forall i :: 8 <= i < 8 + |order| ==> h[i] == h[i + |order|])
  {
    var h := FixedColumns + order + order;
    assert |FixedColumns| == 8;
    assert h[..8] == FixedColumns;
    assert h[8..8 + |order|] == order;
  }

  /** A player's team cells, one per tournament of the order: `t + " / " +
      team` for a tournament the player entered, empty otherwise. */
  function TeamCells(order: seq<string>, entered: seq<string>, teamOf: map<string, string>): (cells: seq<string>)
    requires forall t :: t in entered ==> t in teamOf
    ensures |cells| == |order|
  {
    if order == [] then []
    else
      var t := order[0];
      [if t in entered then t + " / " + teamOf[t] else ""] + TeamCells(order[1..], entered, teamOf)
  }

  /** The i-th team cell lines up under the i-th tournament column: it is
      empty exactly when the player did not enter that tournament, and
      otherwise starts with the tournament and ends with the player's team. */
  lemma {:induction false} TeamCellsAlign(order: seq<string>, entered: seq<string>, teamOf: map<string, string>, i: nat)
    requires forall t :: t in entered ==> t in teamOf
    requires i < |order|
    ensures var c := TeamCells(order, entered, teamOf)[i];
      && (c == "" <==> order[i] !in entered)
      && (order[i] in entered ==>
            && |c| == |order[i]| + 3 + |teamOf[order[i]]|
            && c[..|order[i]|] == order[i]
            && c[|c| - |teamOf[order[i]]|..] == teamOf[order[i]])
    decreases i
  {
    if i > 0 {
      TeamCellsAlign(order[1..], entered, teamOf, i - 1);
      assert TeamCells(order, entered, teamOf)[i] == TeamCells(order[1..], entered, teamOf)[i - 1];
    } else {
      var t := order[0];
      if t in entered {
        var c := t + " / " + teamOf[t];
        assert c[..|t|] == t;
        assert c[|c| - |teamOf[t]|..] == teamOf[t];
      }
    }
  }
}
