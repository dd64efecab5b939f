# Premier League table and winner prediction — a Dafny model

The modelled program is a Streamlit page (`streamlit_app.py`). Each page view
does the following:

- it reads every `data/premier_league_*.csv` season file;
- it turns each file into `(team, points, year)` records: the year comes from
  the file name, annotations such as `" (-8)"` are stripped from team names,
  and unparseable points become 0;
- it keeps the seasons inside the year slider's range and the teams chosen in
  the multiselect;
- it sums points per (team, season) and weights each sum by recency,
  `1 + (year - 2017) * 0.15`;
- it sums both columns per team and names the team with the largest weighted
  total as the predicted winner.

This project models that pipeline and proves what it computes.

| file | module | models |
|---|---|---|
| `wrappers.dfy` | `Wrappers` | `Option` |
| `team_name.dfy` | `TeamName` | `str.replace(r"\s*\(.*?\)", "", regex=True)` on one team name |
| `file_year.dfy` | `FileYear` | `re.search(r'(\d{4})', file)` and the `0` fallback |
| `load.dfy` | `Load` | `load_data`: per-file normalisation and the concatenation loop |
| `filter.dfy` | `Filter` | the year-range and team-selection filters |
| `group_by.dfy` | `GroupBy` | a keyed group-and-sum, the shape of both `groupby(...).sum()` calls |
| `aggregate.dfy` | `Aggregate` | `groupby(["team", "year"])["points"].sum()` |
| `weighting.dfy` | `Weighting` | `calculate_weighted_scores`, which adds two columns to the frame in place |
| `ranking.dfy` | `Ranking` | the per-team aggregation and the winner pick |
| `dashboard.dfy` | `Dashboard` | one pass of the script from loading to the winner |

Files enter as values. A `SeasonFile` is a path plus the raw `(team, points)`
cells of its two used columns. Converting a points cell is a parameter
`parse: string -> Option<real>`, which stands for `pd.to_numeric`; `None` means
the cell does not parse. Points are exact reals.

`calculate_weighted_scores` mutates the frame it receives, so it is a class
`ScoredFrame`. The class has the frame's columns as fields, and a method
fills in `weight` and `weightedPoints`. The loop over `all_files` is the
method `Load.LoadData`, with a loop invariant. One pass of the whole script
is the method `Dashboard.Run`. Everything else is a function.

Three points about the code that a reader might not expect:

- `str.replace(r"\s*\(.*?\)", "", regex=True)` removes every
  non-overlapping match, not only the first (`TeamName.CleanName`).
- Points are not clamped: a parsed negative cell stays negative
  (`Load.CoercePoints`).
- The regular expression's `.` does not match a line feed. Because of that,
  "no `(` is followed by a `)`" holds after cleaning only for names without
  a line feed. `TeamName.CleanAcrossLineFeed` gives the counterexample
  `"(a\n(b)c)"`, which cleans to `"(ac)"`; `TeamName.CleanTwiceAcrossLineFeed`
  shows that a second pass then gives the empty string, so cleaning is
  idempotent only for names without a line feed.

## Model

| member | source | states |
|---|---|---|
| TeamName.IsSpace | streamlit_app.py:33 | `\s` as Python's `str.isspace` set: the ASCII whitespace characters are in it, and `(`, `)`, digits and ASCII letters are not |
| TeamName.SpaceRun | streamlit_app.py:33 | the greedy `\s*` prefix: every character in it is whitespace, and the next one is not |
| TeamName.CloseParen | streamlit_app.py:33 | the lazy `.*?\)` ends at the first `)` that has no line feed before it; if there is none, every `)` has a line feed before it |
| TeamName.MatchLen | streamlit_app.py:33 | a match at the start is the whitespace run, then `(`, then the lazy part up to the first `)`, with no `)` and no line feed in between; when `(` is present but there is no match, every later `)` has a line feed before it |
| TeamName.CleanName | streamlit_app.py:33 | `re.sub` scanning left to right: the cleaned name is never longer than the input; what it keeps and drops is stated by `CleanOnlyDeletes`, `CleanKeepsPairFree`, `CleanLeavesNoPair`, `CleanIdempotent`, `CleanDropsAnnotation` and `CleanKeepsPrefix` |
| TeamName.CleanOnlyDeletes | streamlit_app.py:32-33 | cleaning only deletes characters: the result's multiset is contained in the input's |
| TeamName.CleanKeepsPairFree | streamlit_app.py:32-33 | a name with no `(` followed later by a `)` is left unchanged |
| TeamName.CleanKeepsNameWithoutParen | streamlit_app.py:32-33 | a name without `(` is left unchanged |
| TeamName.CleanLeavesNoPair | streamlit_app.py:32-33 | after cleaning a name without a line feed, no `(` is followed later by a `)` |
| TeamName.CleanIdempotent | streamlit_app.py:32-33 | cleaning a name without a line feed twice gives the same result as cleaning it once |
| TeamName.CleanDropsAnnotation | streamlit_app.py:32-33 | `name + whitespace + "(" + note + ")" + rest` cleans to `name` followed by the cleaned `rest` |
| TeamName.CleanDropsLeadingAnnotation | streamlit_app.py:33 | an annotation at the very start is removed together with its leading whitespace |
| TeamName.CleanKeepsPrefix | streamlit_app.py:33 | a prefix with no `(` that does not end in whitespace is kept as it is |
| TeamName.CleanEverton | streamlit_app.py:32 | `"Everton (-8)"` cleans to `"Everton"` |
| TeamName.CleanAcrossLineFeed | streamlit_app.py:33 | `"(a\n(b)c)"` cleans to `"(ac)"`, which still has a `(` before a `)` |
| TeamName.CleanTwiceAcrossLineFeed | streamlit_app.py:33 | with a line feed, cleaning is not idempotent: `"(a\n(b)c)"` cleans to `"(ac)"`, and a second pass gives the empty string |
| FileYear.DigitValue | streamlit_app.py:25-26 | a digit's value is at most 9 |
| FileYear.FourDigitValue | streamlit_app.py:26 | `int` of four digits is at most 9999, and is 0 exactly when all four are `0` |
| FileYear.FindYearRun | streamlit_app.py:25 | `re.search` finds the leftmost position where four digits start, and there is none before it; `None` means no position has four digits |
| FileYear.YearOfPath | streamlit_app.py:25-26 | the year is at most 9999, and it is 0 when the path has no four-digit run |
| FileYear.YearIsFirstRun | streamlit_app.py:25-26 | the year is the value of the leftmost four-digit run |
| FileYear.YearOfSeasonFile | streamlit_app.py:17-26 | when the prefix has no digits, a path `prefix + dddd + rest` yields the year `dddd` |
| FileYear.YearOfDataFile | streamlit_app.py:16-26 | `data/premier_league_dddd.csv` yields the year `dddd` |
| Load.CoercePoints | streamlit_app.py:36 | a cell that parses keeps its value; a cell that does not parse becomes 0 |
| Load.NormalizeRows | streamlit_app.py:32-38 | one frame per file, row for row: each team name cleaned (never longer), each points cell coerced, every row tagged with the file's year |
| Load.NormalizeFile | streamlit_app.py:21-38 | a file's frame has one row per data row, each the normalised row tagged with the year read from the path, between 0 and 9999 |
| Load.Combined | streamlit_app.py:41-46 | the loader's table has as many rows as all files together |
| Load.LoadData | streamlit_app.py:19-46 | the loop's result is the normalised frames concatenated in file order, with one row per input row; with no files it is the empty table |
| Load.CombinedRowAt | streamlit_app.py:21-42 | row `j` of file `k` sits at offset (rows of files before `k`) + `j`, with its name cleaned, its points coerced and its file's year |
| Load.CombinedRowOrigin | streamlit_app.py:21-42 | every row of the combined table comes from some row of some file, normalised |
| Load.CombinedYearsBounded | streamlit_app.py:26-43 | every year in the table is between 0 and 9999 |
| Load.CombinedOfTwo | streamlit_app.py:41-42 | two files give the first file's rows followed by the second's |
| Load.NormalizeEvertonFile | streamlit_app.py:21-38 | an `"Everton (-8)", 45` row in a season file becomes `("Everton", 45, year)` |
| Load.LoadEvertonTwice | streamlit_app.py:15-44 | the 2020 and 2021 files, each with that row, load as two Everton records of 45 points, for 2020 and 2021 |
| Filter.Where | streamlit_app.py:55 | boolean-mask selection: a row is in the result exactly when it is in the input and satisfies the mask; the result is no longer than the input |
| Filter.WhereAppend | streamlit_app.py:55 | selection distributes over concatenation, so it keeps the table's order |
| Filter.WhereKeepsAll | streamlit_app.py:55 | when every row satisfies the mask, the table is kept whole |
| Filter.WhereKeepsNone | streamlit_app.py:61 | when no row satisfies the mask, the result is empty |
| Filter.FilterYears | streamlit_app.py:55 | a row is kept exactly when `lo <= year <= hi` |
| Filter.FilterTeams | streamlit_app.py:61 | a row is kept exactly when its team is selected |
| Filter.EmptySelectionKeepsNothing | streamlit_app.py:55-61 | an empty team selection, or `lo > hi`, gives the empty table |
| Filter.DistinctTeams | streamlit_app.py:58 | `unique()`: a team is listed exactly when some row has it |
| Filter.DefaultSelectionKeepsAll | streamlit_app.py:58-61 | the multiselect's default, all teams, removes no row |
| Filter.FiltersKeepOrder | streamlit_app.py:55-61 | both filters commute with splitting the table |
| GroupBy.AddTo | streamlit_app.py:64 | adding one row adds its key to the key set, keeps keys distinct, and adds its value to exactly that key's total and to the grand total |
| GroupBy.GroupSum | streamlit_app.py:64 | grouping gives distinct keys, exactly the input's keys, each key's total equal to the sum of its rows' values, and the grand total equal to the sum of all values |
| GroupBy.GroupSumAt | streamlit_app.py:64 | each group's total is the sum of its key's rows |
| GroupBy.GroupKeysOnly | streamlit_app.py:76-79 | two columns grouped by the same keys give groups in the same key order, so the two sums can be placed side by side |
| GroupBy.SumForCons | streamlit_app.py:64 | a per-key sum, read from the front: the first row's share plus the rest |
| Aggregate.GroupByTeamYear | streamlit_app.py:64 | one row per distinct (team, year) present, each holding that pair's point sum, with the grand total unchanged |
| Aggregate.PairPointsBySumFor | streamlit_app.py:64 | the column-wise sum for a (team, year) key equals that pair's sum over the rows |
| Aggregate.TotalPointsBySum | streamlit_app.py:64 | the sum of the points column equals the sum over the rows |
| Weighting.Weight | streamlit_app.py:69 | weight 1 in 2017; below 1 exactly before 2017; at most 0 exactly up to 2010 |
| Weighting.WeightedColumn | streamlit_app.py:69-70 | `weighted_points` is each row's points times its season's weight; from 2017 on, a non-negative points total is never scaled down |
| Weighting.WeightIncreasing | streamlit_app.py:69 | a later season weighs strictly more |
| Weighting.ScoredFrame.constructor | streamlit_app.py:64 | the per-(team, year) frame holds the groups and has no added columns yet |
| Weighting.ScoredFrame.CalculateWeightedScores | streamlit_app.py:67-71 | in place, it adds `weight` = the season's weight and `weighted_points` = points × weight on every row, and leaves the rows untouched |
| Ranking.FinalTable | streamlit_app.py:76-79 | one row per distinct team of the per-(team, year) table, and no other; each row's `total_points` and `weighted_points` is that team's sum of the respective column |
| Ranking.MaxIndex | streamlit_app.py:83 | an index into a non-empty table whose weighted total is at least every row's |
| Ranking.PredictWinner | streamlit_app.py:82-85 | `None` exactly for the empty table; otherwise the team of a row with the largest weighted total |
| Ranking.AddToTeamSum | streamlit_app.py:64-79 | adding a row to the (team, year) groups changes team `t`'s plain or weighted sum by exactly that row's share |
| Ranking.GroupSumKeepsTeamSum | streamlit_app.py:64-79 | grouping by (team, year) keeps every team's plain and weighted sums |
| Ranking.SecondStageIsTeamSum | streamlit_app.py:67-79 | the second groupby's sums equal each team's sum over the per-(team, year) rows, of points and of points × weight |
| Ranking.TeamTable | streamlit_app.py:64-79 | the two groupings and the weighting chained: at most one row per filtered row, and no team twice; its sums and teams are stated by `TeamTableSums` and `TeamTableTeams` |
| Ranking.TeamTableSums | streamlit_app.py:64-79 | end to end, a team's `total_points` is the sum of its filtered rows' points, and its `weighted_points` is the sum of each point total × its season's weight |
| Ranking.TeamTableTeams | streamlit_app.py:64-79 | the final table has distinct teams, exactly the teams of the filtered rows, and one row per such team |
| Ranking.RowsPerTeam | streamlit_app.py:76-79 | a table with distinct teams has as many rows as teams |
| Ranking.TeamSumsAppend | streamlit_app.py:64-79 | both per-team sums split over concatenated row sets |
| Ranking.TeamSumsPermutation | streamlit_app.py:64-79 | both per-team sums are the same for any reordering of the filtered rows |
| Ranking.WinnerIsBest | streamlit_app.py:82-85 | there is no winner exactly when no row survives the filters; otherwise the winner is a filtered team whose weighted sum is at least every filtered team's |
| Ranking.SingleTeamTable | streamlit_app.py:76-79 | rows of a single team give a one-row table |
| Ranking.WeightedExample | streamlit_app.py:64-79 | one team with 10 points in 2017 and 20 in 2018 gets `total_points` 30 and `weighted_points` 10 × 1 + 20 × 1.15 = 33 |
| Dashboard.Run | streamlit_app.py:49-85 | the filtered table keeps exactly the loaded rows in the year range with a selected team; the final table and the winner are those of the filtered rows; each team's totals are its row sums; there is no winner exactly when nothing is filtered in; otherwise the winner is a selected team whose weighted sum is the largest |

## Left out

- The Streamlit page, the Altair bar chart and the messages shown (lines 8-11 and 87-116) are left out: they are display only.
- The slider and multiselect widgets are inputs to `Dashboard.Run`. The slider's bounds 2017 and 2025 become its precondition. `teams` may be any set of names; the multiselect offers only the teams of the year-filtered table, and filtering by any other name keeps nothing more.
- Directory listing (`glob`), reading CSV files (`read_csv`), picking the `Unnamed: 1` and `Unnamed: 17` columns, and `@st.cache_data` are I/O or caching. A file enters as its path and its two used columns.
- `pd.to_numeric` is the parameter `parse`. Float rounding is left out; points and weights are exact reals, so `0.15` is exactly 15/100.
- `\s` follows Python's `re` module, which applies when pandas stores team names as plain object strings. With pandas' Arrow-backed string type, the replacement runs through RE2 instead, where `\s` is ASCII whitespace only; that variant is not modelled.
- `\d` and `\s` in the team and year expressions: `\s` is modelled as the full `str.isspace` set. `\d` covers only ASCII digits; other Unicode decimal digits, which Python also matches, are left out.
- Team cells that are empty (`NaN` in pandas) are left out. Every name is a string here; pandas would keep `NaN` through the cleaning, and then `groupby` would drop those rows.
- `GroupBy.GroupSum` emits groups in first-appearance order, while pandas sorts them by key. Group order is not modelled, so the winner among teams with equal weighted totals (pandas picks by sort order) is not modelled either. `Ranking.PredictWinner` guarantees only a team with the largest total.
- `current_year = df["year"].max()` (line 68) is computed and never used, so it is not modelled.
- `df_combined["year"].astype(int)` (line 43) is a no-op here because years are already integers.
