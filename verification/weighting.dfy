/**
 * Recency weighting of the per-(team, year) table: `calculate_weighted_scores`
 * adds a `weight` column, 1 + 0.15 * (year - 2017), and a `weighted_points`
 * column, points * weight, to the frame it is given.
 */
module Weighting {
  import opened GroupBy
  import opened Aggregate

  /** The weight of a season; 0.15 is the exact decimal fraction 15/100. */
  function Weight(year: int): (w: real)
    ensures year == 2017 ==> w == 1.0
    ensures w < 1.0 <==> year < 2017
    ensures w <= 0.0 <==> year <= 2010
  {
    1.0 + (year - 2017) as real * 0.15
  }

  /** Later seasons weigh strictly more. */
  lemma WeightIncreasing(y1: int, y2: int)
    requires y1 < y2
    ensures Weight(y1) < Weight(y2)
  {
  }

  /** One row's `weighted_points`: its points times its season's weight. */
  function WeightedPoints(g: Group<TeamYear>): real
  {
    g.total * Weight(g.key.year)
  }

  /** The `weighted_points` column for a per-(team, year) table. */
  function WeightedColumn(groups: seq<Group<TeamYear>>): (col: seq<real>)
    ensures |col| == |groups|
    ensures forall i :: 0 <= i < |groups| ==> col[i] == groups[i].total * Weight(groups[i].key.year)
    ensures forall i :: 0 <= i < |groups| && groups[i].key.year >= 2017 && groups[i].total >= 0.0 ==>
      col[i] >= groups[i].total
  {
    var col := seq(|groups|, i requires 0 <= i < |groups| => WeightedPoints(groups[i]));
    assert forall i :: 0 <= i < |groups| && groups[i].key.year >= 2017 && groups[i].total >= 0.0 ==>
      col[i] >= groups[i].total by {
      forall i | 0 <= i < |groups| && groups[i].key.year >= 2017 && groups[i].total >= 0.0
        ensures col[i] >= groups[i].total
      {
        ScaleUp(groups[i].total, Weight(groups[i].key.year));
      }
    }
    col
  }

  lemma ScaleUp(p: real, w: real)
    requires p >= 0.0 && w >= 1.0
    ensures p * w >= p
  {
    assert p * w - p == p * (w - 1.0);
  }

  /**
   * The per-(team, year) frame. `groups` holds its team, year and points
   * columns; `weight` and `weightedPoints` are the columns the weighting adds,
   * empty until then.
   */
  class ScoredFrame {
    var groups: seq<Group<TeamYear>>
    var weight: seq<real>
    var weightedPoints: seq<real>

    constructor (groups: seq<Group<TeamYear>>)
      ensures this.groups == groups && weight == [] && weightedPoints == []
    {
      this.groups := groups;
      weight := [];
      weightedPoints := [];
    }

    /** The frame carries both added columns, consistent with its rows. */
    ghost predicate Scored()
      reads this
    {
      |weight| == |groups| && |weightedPoints| == |groups| &&
      forall i :: 0 <= i < |groups| ==>
        weight[i] == Weight(groups[i].key.year) && weightedPoints[i] == groups[i].total * weight[i]
    }

    /** Adds the two columns in place; the rows themselves are untouched. */
    method CalculateWeightedScores()
      modifies this
      ensures groups == old(groups)
      ensures Scored()
      ensures weightedPoints == WeightedColumn(groups)
    {
      var rows := groups;
      var w := seq(|rows|, i requires 0 <= i < |rows| => Weight(rows[i].key.year));
      weight := w;
      weightedPoints := seq(|rows|, i requires 0 <= i < |rows| => rows[i].total * w[i]);
      assert forall i :: 0 <= i < |rows| ==> weightedPoints[i] == WeightedColumn(rows)[i];
    }
  }
}
