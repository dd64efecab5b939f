/**
 * The script's top level, run once per page view: load every season file,
 * keep the slider's year range, keep the selected teams, group, weight,
 * regroup per team and pick the predicted winner.
 */
module Dashboard {
  import opened Wrappers
  import opened Load
  import opened Filter
  import opened GroupBy
  import opened Aggregate
  import opened Weighting
  import opened Ranking

  /** The slider's bounds: `st.slider("Select Years", 2017, 2025, ...)`. */
  const FirstSeason := 2017
  const LastSeason := 2025

  /**
   * One pass of the script. `lo`/`hi` are the slider's handles, `teams` the
   * multiselect's choice; the outputs are the displayed filtered table, the
   * per-team table behind the chart and the predicted winner.
   */
  method Run(files: seq<SeasonFile>, parse: Parser, lo: int, hi: int, teams: set<string>)
    returns (filtered: seq<SeasonRecord>, final: seq<TeamTotal>, winner: Option<string>)
    requires FirstSeason <= lo <= hi <= LastSeason
    ensures filtered == FilterTeams(FilterYears(Combined(files, parse), lo, hi), teams)
    ensures forall x :: x in filtered <==> x in Combined(files, parse) && lo <= x.year <= hi && x.team in teams
    ensures final == TeamTable(filtered)
    ensures TeamsOf(final) == DistinctTeams(filtered)
    ensures forall i :: 0 <= i < |final| ==>
      final[i].totalPoints == TeamPoints(filtered, final[i].team) &&
      final[i].weightedPoints == TeamWeightedPoints(filtered, final[i].team)
    ensures winner.None? <==> filtered == []
    ensures winner.Some? ==> winner.value in teams && winner.value in DistinctTeams(filtered)
    ensures winner.Some? ==> forall i :: 0 <= i < |filtered| ==>
      TeamWeightedPoints(filtered, filtered[i].team) <= TeamWeightedPoints(filtered, winner.value)
  {
    var df := LoadData(files, parse);
    var byYear := FilterYears(df, lo, hi);
    filtered := FilterTeams(byYear, teams);
    var agg := GroupByTeamYear(filtered);
    var frame := new ScoredFrame(agg);
    frame.CalculateWeightedScores();
    final := FinalTable(frame.groups, frame.weightedPoints);
    winner := PredictWinner(final);

    TeamTableTeams(filtered);
    forall i | 0 <= i < |final|
      ensures final[i].totalPoints == TeamPoints(filtered, final[i].team)
      ensures final[i].weightedPoints == TeamWeightedPoints(filtered, final[i].team)
    {
      TeamTableSums(filtered, i);
    }
    WinnerIsBest(filtered);
    if winner.Some? {
      var i :| 0 <= i < |filtered| && filtered[i].team == winner.value;
      assert filtered[i] in filtered;
    }
  }
}
