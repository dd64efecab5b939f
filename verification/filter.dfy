/**
 * The two row filters of the dashboard: by the inclusive year range of the
 * slider, then by the set of teams chosen in the multiselect. Both are
 * boolean-mask selections, which keep the surviving rows in table order.
 */
module Filter {
  import opened Load

  /** The rows of `rows` satisfying `keep`, in their original order. */
  function Where(rows: seq<SeasonRecord>, keep: SeasonRecord -> bool): (r: seq<SeasonRecord>)
    ensures |r| <= |rows|
    ensures forall x :: x in r <==> x in rows && keep(x)
  {
    if rows == [] then []
    else (if keep(rows[0]) then [rows[0]] else []) + Where(rows[1..], keep)
  }

  /** Selection is taken piecewise, so the relative order of kept rows is the table's order. */
  lemma {:induction false} WhereAppend(a: seq<SeasonRecord>, b: seq<SeasonRecord>, keep: SeasonRecord -> bool)
    ensures Where(a + b, keep) == Where(a, keep) + Where(b, keep)
  {
    if a != [] {
      assert (a + b)[1..] == a[1..] + b;
      WhereAppend(a[1..], b, keep);
    } else {
      assert a + b == b;
    }
  }

  /** A selection that keeps every row returns the table itself. */
  lemma {:induction false} WhereKeepsAll(rows: seq<SeasonRecord>, keep: SeasonRecord -> bool)
    requires forall i :: 0 <= i < |rows| ==> keep(rows[i])
    ensures Where(rows, keep) == rows
  {
    if rows != [] {
      WhereKeepsAll(rows[1..], keep);
      assert rows == [rows[0]] + rows[1..];
    }
  }

  /** A selection that keeps no row returns the empty table. */
  lemma {:induction false} WhereKeepsNone(rows: seq<SeasonRecord>, keep: SeasonRecord -> bool)
    requires forall i :: 0 <= i < |rows| ==> !keep(rows[i])
    ensures Where(rows, keep) == []
  {
    if rows != [] {
      WhereKeepsNone(rows[1..], keep);
    }
  }

  function InYears(lo: int, hi: int): SeasonRecord -> bool
  {
    (r: SeasonRecord) => lo <= r.year <= hi
  }

  function InTeams(teams: set<string>): SeasonRecord -> bool
  {
    (r: SeasonRecord) => r.team in teams
  }

  /** `df[(df["year"] >= years[0]) & (df["year"] <= years[1])]`. */
  function FilterYears(rows: seq<SeasonRecord>, lo: int, hi: int): (r: seq<SeasonRecord>)
    ensures forall x :: x in r <==> x in rows && lo <= x.year <= hi
  {
    Where(rows, InYears(lo, hi))
  }

  /** `df[df["team"].isin(teams)]`. */
  function FilterTeams(rows: seq<SeasonRecord>, teams: set<string>): (r: seq<SeasonRecord>)
    ensures forall x :: x in r <==> x in rows && x.team in teams
  {
    Where(rows, InTeams(teams))
  }

  /** An empty team selection, or an empty year range, leaves no rows. */
  lemma EmptySelectionKeepsNothing(rows: seq<SeasonRecord>, lo: int, hi: int)
    ensures FilterTeams(rows, {}) == []
    ensures lo > hi ==> FilterYears(rows, lo, hi) == []
  {
    WhereKeepsNone(rows, InTeams({}));
    if lo > hi {
      WhereKeepsNone(rows, InYears(lo, hi));
    }
  }

  /** The teams that occur in a table (`df["team"].unique()`, as a set). */
  function DistinctTeams(rows: seq<SeasonRecord>): (ts: set<string>)
    ensures forall t :: t in ts <==> exists i :: 0 <= i < |rows| && rows[i].team == t
  {
    set i | 0 <= i < |rows| :: rows[i].team
  }

  /** The multiselect's default, every team of the year-filtered table, keeps that whole table. */
  lemma DefaultSelectionKeepsAll(rows: seq<SeasonRecord>)
    ensures FilterTeams(rows, DistinctTeams(rows)) == rows
  {
    WhereKeepsAll(rows, InTeams(DistinctTeams(rows)));
  }

  /** Both filters commute with splitting the table, so they keep rows in table order. */
  lemma FiltersKeepOrder(a: seq<SeasonRecord>, b: seq<SeasonRecord>, lo: int, hi: int, teams: set<string>)
    ensures FilterYears(a + b, lo, hi) == FilterYears(a, lo, hi) + FilterYears(b, lo, hi)
    ensures FilterTeams(a + b, teams) == FilterTeams(a, teams) + FilterTeams(b, teams)
  {
    WhereAppend(a, b, InYears(lo, hi));
    WhereAppend(a, b, InTeams(teams));
  }
}
