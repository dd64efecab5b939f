/**
 * First aggregation stage: `groupby(["team", "year"])["points"].sum()` over
 * the filtered rows, with reference sums over the rows themselves that the
 * grouped tables are proved against.
 */
module Aggregate {
  import opened Load
  import opened GroupBy

  /** The key of the first stage. */
  datatype TeamYear = TeamYear(team: string, year: int)

  function KeyColumn(rows: seq<SeasonRecord>): (keys: seq<TeamYear>)
    ensures |keys| == |rows|
  {
    seq(|rows|, i requires 0 <= i < |rows| => TeamYear(rows[i].team, rows[i].year))
  }

  function PointsColumn(rows: seq<SeasonRecord>): (vals: seq<real>)
    ensures |vals| == |rows|
  {
    seq(|rows|, i requires 0 <= i < |rows| => rows[i].points)
  }

  /** Sum of all points of a table. */
  function TotalPoints(rows: seq<SeasonRecord>): real
  {
    if rows == [] then 0.0 else TotalPoints(rows[..|rows| - 1]) + rows[|rows| - 1].points
  }

  /** Sum of the points of the rows of team `t` in year `y`. */
  function PairPoints(rows: seq<SeasonRecord>, t: string, y: int): real
  {
    if rows == [] then 0.0
    else
      var last := rows[|rows| - 1];
      PairPoints(rows[..|rows| - 1], t, y) + (if last.team == t && last.year == y then last.points else 0.0)
  }

  lemma ColumnsPrefix(rows: seq<SeasonRecord>, n: nat)
    requires n <= |rows|
    ensures KeyColumn(rows)[..n] == KeyColumn(rows[..n])
    ensures PointsColumn(rows)[..n] == PointsColumn(rows[..n])
  {
  }

  lemma {:induction false} PairPointsBySumFor(rows: seq<SeasonRecord>, k: TeamYear)
    ensures SumFor(KeyColumn(rows), PointsColumn(rows), k) == PairPoints(rows, k.team, k.year)
  {
    if rows != [] {
      var n := |rows| - 1;
      ColumnsPrefix(rows, n);
      PairPointsBySumFor(rows[..n], k);
    }
  }

  lemma {:induction false} TotalPointsBySum(rows: seq<SeasonRecord>)
    ensures Sum(PointsColumn(rows)) == TotalPoints(rows)
  {
    if rows != [] {
      var n := |rows| - 1;
      ColumnsPrefix(rows, n);
      TotalPointsBySum(rows[..n]);
    }
  }

  /**
   * `df_filtered.groupby(["team", "year"], as_index=False)["points"].sum()`:
   * one row per (team, year) pair present, holding that pair's points, with
   * the grand total unchanged.
   */
  function GroupByTeamYear(rows: seq<SeasonRecord>): (g: seq<Group<TeamYear>>)
    ensures |g| <= |rows|
    ensures DistinctKeys(g)
    ensures forall k :: k in KeySet(g) <==> exists i :: 0 <= i < |rows| && rows[i].team == k.team && rows[i].year == k.year
    ensures forall i :: 0 <= i < |g| ==> g[i].total == PairPoints(rows, g[i].key.team, g[i].key.year)
    ensures GroupTotal(g) == TotalPoints(rows)
  {
    var keys := KeyColumn(rows);
    var g := GroupSum(keys, PointsColumn(rows));
    forall i | 0 <= i < |g| ensures g[i].total == PairPoints(rows, g[i].key.team, g[i].key.year) {
      GroupSumAt(keys, PointsColumn(rows), i);
      PairPointsBySumFor(rows, g[i].key);
    }
    forall k ensures k in keys <==> exists i :: 0 <= i < |rows| && rows[i].team == k.team && rows[i].year == k.year {
      if k in keys {
        var i :| 0 <= i < |keys| && keys[i] == k;
        assert rows[i].team == k.team && rows[i].year == k.year;
      }
      if exists i :: 0 <= i < |rows| && rows[i].team == k.team && rows[i].year == k.year {
        var i :| 0 <= i < |rows| && rows[i].team == k.team && rows[i].year == k.year;
        assert keys[i] == k;
      }
    }
    TotalPointsBySum(rows);
    g
  }
}
