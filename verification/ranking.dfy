/**
 * Second aggregation stage and the prediction: `groupby("team")` summing
 * `points` into `total_points` and `weighted_points` into
 * `weighted_points`, then the team with the largest weighted total.
 */
module Ranking {
  import opened Wrappers
  import opened Load
  import opened GroupBy
  import opened Aggregate
  import opened Weighting
  import opened Filter

  /** One row of the final table. */
  datatype TeamTotal = TeamTotal(team: string, totalPoints: real, weightedPoints: real)

  function TeamColumn(groups: seq<Group<TeamYear>>): (col: seq<string>)
    ensures |col| == |groups|
  {
    seq(|groups|, i requires 0 <= i < |groups| => groups[i].key.team)
  }

  function TotalsColumn<K>(groups: seq<Group<K>>): (col: seq<real>)
    ensures |col| == |groups|
  {
    seq(|groups|, i requires 0 <= i < |groups| => groups[i].total)
  }

  function TeamsOf(table: seq<TeamTotal>): set<string>
  {
    set i | 0 <= i < |table| :: table[i].team
  }

  /** The teams of a per-(team, year) table. */
  function GroupTeams(groups: seq<Group<TeamYear>>): set<string>
  {
    set j | 0 <= j < |groups| :: groups[j].key.team
  }

  /**
   * `df_agg.groupby("team", as_index=False).agg(total_points=("points", "sum"),
   * weighted_points=("weighted_points", "sum"))`: one row per team, each
   * column summed over that team's per-year rows.
   */
  function FinalTable(groups: seq<Group<TeamYear>>, weighted: seq<real>): (r: seq<TeamTotal>)
    requires |weighted| == |groups|
    ensures |r| <= |groups|
    ensures forall i, j :: 0 <= i < j < |r| ==> r[i].team != r[j].team
    ensures TeamsOf(r) == GroupTeams(groups)
    ensures forall i :: 0 <= i < |r| ==>
      r[i].totalPoints == SumFor(TeamColumn(groups), TotalsColumn(groups), r[i].team) &&
      r[i].weightedPoints == SumFor(TeamColumn(groups), weighted, r[i].team)
  {
    var teams := TeamColumn(groups);
    var tp := GroupSum(teams, TotalsColumn(groups));
    var wp := GroupSum(teams, weighted);
    GroupKeysOnly(teams, TotalsColumn(groups), weighted);
    var r := seq(|tp|, i requires 0 <= i < |tp| => TeamTotal(tp[i].key, tp[i].total, wp[i].total));
    forall i | 0 <= i < |r|
      ensures r[i].totalPoints == SumFor(teams, TotalsColumn(groups), r[i].team)
      ensures r[i].weightedPoints == SumFor(teams, weighted, r[i].team)
    {
      GroupSumAt(teams, TotalsColumn(groups), i);
      GroupSumAt(teams, weighted, i);
    }
    TeamsOfKeys(tp, r);
    TeamColumnHas(groups);
    r
  }

  lemma TeamsOfKeys(tp: seq<Group<string>>, r: seq<TeamTotal>)
    requires |r| == |tp|
    requires forall i :: 0 <= i < |r| ==> r[i].team == tp[i].key
    ensures TeamsOf(r) == KeySet(tp)
  {
    forall t | t in KeySet(tp) ensures t in TeamsOf(r) {
      var i :| 0 <= i < |tp| && tp[i].key == t;
      assert r[i].team == t;
    }
  }

  lemma TeamColumnHas(groups: seq<Group<TeamYear>>)
    ensures forall t :: t in TeamColumn(groups) <==> t in GroupTeams(groups)
  {
    var teams := TeamColumn(groups);
    forall t | t in GroupTeams(groups) ensures t in teams {
      var j :| 0 <= j < |groups| && groups[j].key.team == t;
      assert teams[j] == t;
    }
  }

  /** An index of a row whose weighted total is at least every other row's. */
  function MaxIndex(table: seq<TeamTotal>): (i: nat)
    requires table != []
    ensures i < |table|
    ensures forall j :: 0 <= j < |table| ==> table[j].weightedPoints <= table[i].weightedPoints
  {
    if |table| == 1 then 0
    else
      var k := MaxIndex(table[1..]) + 1;
      if table[k].weightedPoints <= table[0].weightedPoints then 0 else k
  }

  /**
   * `df_final.sort_values(by="weighted_points", ascending=False).iloc[0]["team"]`
   * when the table is not empty, None otherwise.
   */
  function PredictWinner(table: seq<TeamTotal>): (w: Option<string>)
    ensures w.None? <==> table == []
    ensures w.Some? ==> exists i :: (0 <= i < |table| && table[i].team == w.value &&
      forall j :: 0 <= j < |table| ==> table[j].weightedPoints <= table[i].weightedPoints)
  {
    if table == [] then None else Some(table[MaxIndex(table)].team)
  }

  // Reference sums, computed directly over the filtered rows.

  /** A team's points over the filtered rows. */
  function TeamPoints(rows: seq<SeasonRecord>, t: string): real
  {
    if rows == [] then 0.0
    else
      var last := rows[|rows| - 1];
      TeamPoints(rows[..|rows| - 1], t) + (if last.team == t then last.points else 0.0)
  }

  /** A team's points over the filtered rows, each row weighted by its season. */
  function TeamWeightedPoints(rows: seq<SeasonRecord>, t: string): real
  {
    if rows == [] then 0.0
    else
      var last := rows[|rows| - 1];
      TeamWeightedPoints(rows[..|rows| - 1], t) + (if last.team == t then last.points * Weight(last.year) else 0.0)
  }

  /** Both reference sums split over a concatenation of row sets. */
  lemma {:induction false} TeamSumsAppend(a: seq<SeasonRecord>, b: seq<SeasonRecord>, t: string)
    ensures TeamPoints(a + b, t) == TeamPoints(a, t) + TeamPoints(b, t)
    ensures TeamWeightedPoints(a + b, t) == TeamWeightedPoints(a, t) + TeamWeightedPoints(b, t)
    decreases |b|
  {
    if b == [] {
      assert a + b == a;
    } else {
      var n := |b| - 1;
      assert (a + b)[..|a + b| - 1] == a + b[..n];
      TeamSumsAppend(a, b[..n], t);
    }
  }

  /**
   * Both reference sums are independent of row order: any rearrangement of the
   * filtered rows gives every team the same totals.
   */
  lemma {:induction false} TeamSumsPermutation(a: seq<SeasonRecord>, b: seq<SeasonRecord>, t: string)
    requires multiset(a) == multiset(b)
    ensures TeamPoints(a, t) == TeamPoints(b, t)
    ensures TeamWeightedPoints(a, t) == TeamWeightedPoints(b, t)
    decreases |a|
  {
    if a == [] {
      assert |b| == |multiset(b)| == 0;
    } else {
      var n := |a| - 1;
      var x := a[n];
      assert a == a[..n] + [x];
      assert multiset(a) == multiset(a[..n]) + multiset{x};
      assert x in multiset(b);
      var i :| 0 <= i < |b| && b[i] == x;
      var rest := b[..i] + b[i + 1..];
      RemoveOne(b, i);
      TeamSumsPermutation(a[..n], rest, t);
      TeamSumsAppend(a[..n], [x], t);
      SumsWithoutOne(b, i, t);
    }
  }

  /** Taking row `i` out of a table removes one copy of it from the multiset. */
  lemma RemoveOne(b: seq<SeasonRecord>, i: nat)
    requires i < |b|
    ensures multiset(b[..i] + b[i + 1..]) == multiset(b) - multiset{b[i]}
  {
    assert b == b[..i] + [b[i]] + b[i + 1..];
  }

  /** Row `i`'s share, added back to the sums of the other rows, gives the sums of the table. */
  lemma SumsWithoutOne(b: seq<SeasonRecord>, i: nat, t: string)
    requires i < |b|
    ensures TeamPoints(b, t) == TeamPoints(b[..i] + b[i + 1..], t) + TeamPoints([b[i]], t)
    ensures TeamWeightedPoints(b, t) == TeamWeightedPoints(b[..i] + b[i + 1..], t) + TeamWeightedPoints([b[i]], t)
  {
    assert b == b[..i] + [b[i]] + b[i + 1..];
    TeamSumsAppend(b[..i], [b[i]], t);
    TeamSumsAppend(b[..i] + [b[i]], b[i + 1..], t);
    TeamSumsAppend(b[..i], b[i + 1..], t);
  }

  /** The whole aggregation applied to filtered rows: per (team, year), weighted, per team. */
  function TeamTable(rows: seq<SeasonRecord>): (table: seq<TeamTotal>)
    ensures |table| <= |rows|
    ensures forall i, j :: 0 <= i < j < |table| ==> table[i].team != table[j].team
  {
    var groups := GroupByTeamYear(rows);
    FinalTable(groups, WeightedColumn(groups))
  }

  function Scale(k: TeamYear, weighted: bool): real
  {
    if weighted then Weight(k.year) else 1.0
  }

  /** What one (team, year) row adds to team `t`'s plain or weighted sum. */
  function Contribution(k: TeamYear, v: real, t: string, weighted: bool): real
  {
    if k.team == t then Scale(k, weighted) * v else 0.0
  }

  /** Over per-(team, year) groups: the (weighted) sum of team `t`'s groups. */
  function GroupTeamSum(gs: seq<Group<TeamYear>>, t: string, weighted: bool): real
  {
    if gs == [] then 0.0
    else Contribution(gs[0].key, gs[0].total, t, weighted) + GroupTeamSum(gs[1..], t, weighted)
  }

  /** Over rows given as columns: the (weighted) sum of team `t`'s rows. */
  function RowTeamSum(keys: seq<TeamYear>, vals: seq<real>, t: string, weighted: bool): real
    requires |keys| == |vals|
  {
    if keys == [] then 0.0
    else
      var n := |keys| - 1;
      RowTeamSum(keys[..n], vals[..n], t, weighted) + Contribution(keys[n], vals[n], t, weighted)
  }

  lemma ContributionAdds(k: TeamYear, a: real, v: real, t: string, weighted: bool)
    ensures Contribution(k, a + v, t, weighted) == Contribution(k, a, t, weighted) + Contribution(k, v, t, weighted)
  {
    var s := Scale(k, weighted);
    assert s * (a + v) == s * a + s * v;
  }

  lemma {:induction false} AddToTeamSum(acc: seq<Group<TeamYear>>, k: TeamYear, v: real, t: string, weighted: bool)
    ensures GroupTeamSum(AddTo(acc, k, v), t, weighted) ==
      GroupTeamSum(acc, t, weighted) + Contribution(k, v, t, weighted)
  {
    var r := AddTo(acc, k, v);
    if acc == [] {
      assert r == [Group(k, v)];
      assert r[1..] == [];
    } else if acc[0].key == k {
      assert r == [Group(k, acc[0].total + v)] + acc[1..];
      assert r[1..] == acc[1..];
      ContributionAdds(k, acc[0].total, v, t, weighted);
    } else {
      assert r == [acc[0]] + AddTo(acc[1..], k, v);
      assert r[1..] == AddTo(acc[1..], k, v);
      AddToTeamSum(acc[1..], k, v, t, weighted);
    }
  }

  /** Grouping by (team, year) keeps every team's plain and weighted sums. */
  lemma {:induction false} GroupSumKeepsTeamSum(keys: seq<TeamYear>, vals: seq<real>, t: string, weighted: bool)
    requires |keys| == |vals|
    ensures GroupTeamSum(GroupSum(keys, vals), t, weighted) == RowTeamSum(keys, vals, t, weighted)
  {
    if keys != [] {
      var n := |keys| - 1;
      GroupSumKeepsTeamSum(keys[..n], vals[..n], t, weighted);
      AddToTeamSum(GroupSum(keys[..n], vals[..n]), keys[n], vals[n], t, weighted);
    }
  }

  lemma {:induction false} RowTeamSumIsReference(rows: seq<SeasonRecord>, t: string)
    ensures RowTeamSum(KeyColumn(rows), PointsColumn(rows), t, false) == TeamPoints(rows, t)
    ensures RowTeamSum(KeyColumn(rows), PointsColumn(rows), t, true) == TeamWeightedPoints(rows, t)
  {
    if rows != [] {
      var n := |rows| - 1;
      ColumnsPrefix(rows, n);
      RowTeamSumIsReference(rows[..n], t);
    }
  }

  lemma SecondStageIsTeamSum(gs: seq<Group<TeamYear>>, t: string)
    ensures SumFor(TeamColumn(gs), TotalsColumn(gs), t) == GroupTeamSum(gs, t, false)
    ensures SumFor(TeamColumn(gs), WeightedColumn(gs), t) == GroupTeamSum(gs, t, true)
  {
    SecondStagePlain(gs, t);
    SecondStageWeighted(gs, t);
  }

  lemma {:induction false} SecondStagePlain(gs: seq<Group<TeamYear>>, t: string)
    ensures SumFor(TeamColumn(gs), TotalsColumn(gs), t) == GroupTeamSum(gs, t, false)
  {
    if gs != [] {
      ColumnsCons(gs);
      SumForCons(gs[0].key.team, TeamColumn(gs[1..]), gs[0].total, TotalsColumn(gs[1..]), t);
      SecondStagePlain(gs[1..], t);
    }
  }

  lemma {:induction false} SecondStageWeighted(gs: seq<Group<TeamYear>>, t: string)
    ensures SumFor(TeamColumn(gs), WeightedColumn(gs), t) == GroupTeamSum(gs, t, true)
  {
    if gs != [] {
      ColumnsCons(gs);
      SumForCons(gs[0].key.team, TeamColumn(gs[1..]), WeightedPoints(gs[0]), WeightedColumn(gs[1..]), t);
      SecondStageWeighted(gs[1..], t);
    }
  }

  /** The three columns of a non-empty table, read from the front. */
  lemma ColumnsCons(gs: seq<Group<TeamYear>>)
    requires gs != []
    ensures TeamColumn(gs) == [gs[0].key.team] + TeamColumn(gs[1..])
    ensures TotalsColumn(gs) == [gs[0].total] + TotalsColumn(gs[1..])
    ensures WeightedColumn(gs) == [WeightedPoints(gs[0])] + WeightedColumn(gs[1..])
  {
    var rest := gs[1..];
    assert forall i :: 0 < i < |gs| ==> gs[i] == rest[i - 1];
    assert forall i :: 0 < i < |gs| ==> WeightedColumn(gs)[i] == WeightedColumn(rest)[i - 1];
  }

  /**
   * Each team's final `total_points` is the sum of its filtered rows' points,
   * and its `weighted_points` the sum of those points each times its season's
   * weight: the two grouping stages change nothing but the layout.
   */
  lemma TeamTableSums(rows: seq<SeasonRecord>, i: nat)
    requires i < |TeamTable(rows)|
    ensures TeamTable(rows)[i].totalPoints == TeamPoints(rows, TeamTable(rows)[i].team)
    ensures TeamTable(rows)[i].weightedPoints == TeamWeightedPoints(rows, TeamTable(rows)[i].team)
  {
    var groups := GroupByTeamYear(rows);
    var t := TeamTable(rows)[i].team;
    SecondStageIsTeamSum(groups, t);
    GroupSumKeepsTeamSum(KeyColumn(rows), PointsColumn(rows), t, false);
    GroupSumKeepsTeamSum(KeyColumn(rows), PointsColumn(rows), t, true);
    RowTeamSumIsReference(rows, t);
  }

  /** Grouping by (team, year) loses no team and invents none. */
  lemma GroupTeamsAreRowTeams(rows: seq<SeasonRecord>)
    ensures GroupTeams(GroupByTeamYear(rows)) == DistinctTeams(rows)
  {
    var groups := GroupByTeamYear(rows);
    forall t | t in GroupTeams(groups) ensures t in DistinctTeams(rows) {
      var j :| 0 <= j < |groups| && groups[j].key.team == t;
      assert groups[j].key in KeySet(groups);
    }
    forall t | t in DistinctTeams(rows) ensures t in GroupTeams(groups) {
      var i :| 0 <= i < |rows| && rows[i].team == t;
      var k := TeamYear(t, rows[i].year);
      assert k in KeySet(groups);
      var j :| 0 <= j < |groups| && groups[j].key == k;
    }
  }

  /** The final table has one row per team of the filtered rows, and no other. */
  lemma TeamTableTeams(rows: seq<SeasonRecord>)
    ensures forall i, j :: 0 <= i < j < |TeamTable(rows)| ==> TeamTable(rows)[i].team != TeamTable(rows)[j].team
    ensures TeamsOf(TeamTable(rows)) == DistinctTeams(rows)
    ensures |TeamTable(rows)| == |DistinctTeams(rows)|
  {
    GroupTeamsAreRowTeams(rows);
    RowsPerTeam(TeamTable(rows));
  }

  /** The table's best weighted total, the same sum computed over the filtered rows. */
  lemma BestRowIsBestTeam(rows: seq<SeasonRecord>, m: nat)
    requires m < |TeamTable(rows)|
    requires forall j :: 0 <= j < |TeamTable(rows)| ==> TeamTable(rows)[j].weightedPoints <= TeamTable(rows)[m].weightedPoints
    ensures forall i :: 0 <= i < |rows| ==> TeamWeightedPoints(rows, rows[i].team) <= TeamWeightedPoints(rows, TeamTable(rows)[m].team)
  {
    var table := TeamTable(rows);
    TeamTableTeams(rows);
    TeamTableSums(rows, m);
    forall i | 0 <= i < |rows| ensures TeamWeightedPoints(rows, rows[i].team) <= TeamWeightedPoints(rows, table[m].team) {
      assert rows[i].team in DistinctTeams(rows);
      var j :| 0 <= j < |table| && table[j].team == rows[i].team;
      TeamTableSums(rows, j);
    }
  }

  /**
   * The predicted winner is a team of the filtered rows whose weighted total
   * is at least every such team's; there is none exactly when no row survived
   * the filters.
   */
  lemma WinnerIsBest(rows: seq<SeasonRecord>)
    ensures PredictWinner(TeamTable(rows)).None? <==> rows == []
    ensures PredictWinner(TeamTable(rows)).Some? ==>
      var w := PredictWinner(TeamTable(rows)).value;
      w in DistinctTeams(rows) &&
      forall i :: 0 <= i < |rows| ==> TeamWeightedPoints(rows, rows[i].team) <= TeamWeightedPoints(rows, w)
  {
    var table := TeamTable(rows);
    TeamTableTeams(rows);
    if rows != [] {
      assert rows[0].team in DistinctTeams(rows);
    }
    if table != [] {
      var m := MaxIndex(table);
      assert table[m].team in TeamsOf(table);
      BestRowIsBestTeam(rows, m);
    }
  }

  /** Two seasons of one team, 10 points in 2017 and 20 in 2018: 30 points, 33 weighted. */
  lemma WeightedExample(t: string, rows: seq<SeasonRecord>)
    requires rows == [SeasonRecord(t, 10.0, 2017), SeasonRecord(t, 20.0, 2018)]
    ensures TeamTable(rows) == [TeamTotal(t, 30.0, 33.0)]
  {
    SingleTeamTable(rows, t);
    ExampleSums(t, rows);
    TeamTableSums(rows, 0);
  }

  /** Rows of a single team give a one-row table. */
  lemma SingleTeamTable(rows: seq<SeasonRecord>, t: string)
    requires rows != [] && forall i :: 0 <= i < |rows| ==> rows[i].team == t
    ensures |TeamTable(rows)| == 1 && TeamTable(rows)[0].team == t
  {
    TeamTableTeams(rows);
    assert DistinctTeams(rows) == {t} by {
      assert rows[0].team in DistinctTeams(rows);
    }
    OneTeamOnly(TeamTable(rows), t);
  }

  lemma OneTeamOnly(table: seq<TeamTotal>, t: string)
    requires forall i, j :: 0 <= i < j < |table| ==> table[i].team != table[j].team
    requires TeamsOf(table) == {t}
    ensures |table| == 1 && table[0].team == t
  {
    RowsPerTeam(table);
    assert table[0].team in TeamsOf(table);
  }

  /** A table with distinct teams has exactly one row per team. */
  lemma {:induction false} RowsPerTeam(table: seq<TeamTotal>)
    requires forall i, j :: 0 <= i < j < |table| ==> table[i].team != table[j].team
    ensures |TeamsOf(table)| == |table|
  {
    if table != [] {
      var n := |table| - 1;
      TeamsOfSnoc(table);
      RowsPerTeam(table[..n]);
    }
  }

  lemma TeamsOfSnoc(table: seq<TeamTotal>)
    requires table != []
    requires forall i, j :: 0 <= i < j < |table| ==> table[i].team != table[j].team
    ensures var n := |table| - 1;
      (forall i, j :: 0 <= i < j < n ==> table[..n][i].team != table[..n][j].team) &&
      TeamsOf(table) == TeamsOf(table[..n]) + {table[n].team} &&
      table[n].team !in TeamsOf(table[..n])
  {
    var n := |table| - 1;
    var init := table[..n];
    forall x | x in TeamsOf(table) ensures x in TeamsOf(init) + {table[n].team} {
      var i :| 0 <= i < |table| && table[i].team == x;
      if i < n {
        assert init[i] == table[i];
      }
    }
    forall x | x in TeamsOf(init) ensures x in TeamsOf(table) && x != table[n].team {
      var i :| 0 <= i < |init| && init[i].team == x;
      assert table[i] == init[i];
    }
  }

  lemma ExampleSums(t: string, rows: seq<SeasonRecord>)
    requires rows == [SeasonRecord(t, 10.0, 2017), SeasonRecord(t, 20.0, 2018)]
    ensures TeamPoints(rows, t) == 30.0 && TeamWeightedPoints(rows, t) == 33.0
  {
    var first := rows[..1];
    assert first == [rows[0]] && first[..0] == [];
    assert TeamPoints(first, t) == 10.0;
    assert TeamWeightedPoints(first, t) == 10.0 * Weight(2017) == 10.0;
    assert Weight(2018) == 1.15;
    assert TeamPoints(rows, t) == TeamPoints(first, t) + 20.0;
    assert TeamWeightedPoints(rows, t) == TeamWeightedPoints(first, t) + 20.0 * Weight(2018);
  }
}
