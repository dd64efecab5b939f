/**
 * Loading: every season file contributes its rows, normalised, to one
 * combined table. The team name is cleaned, the points cell is coerced to a
 * number (0 when it does not parse) and every row gets the file's year.
 */
module Load {
  import opened Wrappers
  import opened TeamName
  import opened FileYear

  /** The two cells the loader keeps from a row of a season file: team name and points. */
  datatype RawRow = RawRow(team: string, points: string)

  /** A season file: its path (which carries the year) and its rows, in file order. */
  datatype SeasonFile = SeasonFile(path: string, rows: seq<RawRow>)

  /** One row of the combined table. */
  datatype SeasonRecord = SeasonRecord(team: string, points: real, year: int)

  /**
   * The numeric reading of a points cell (what `pd.to_numeric` accepts);
   * None where it fails or yields a missing value.
   */
  type Parser = string -> Option<real>

  /** `pd.to_numeric(..., errors="coerce").fillna(0)`: the parsed value, or exactly 0. */
  function CoercePoints(parse: Parser, cell: string): (p: real)
    ensures parse(cell).Some? ==> p == parse(cell).value
    ensures parse(cell).None? ==> p == 0.0
  {
    match parse(cell)
    case Some(v) => v
    case None => 0.0
  }

  function NormalizeRow(row: RawRow, year: int, parse: Parser): SeasonRecord
  {
    SeasonRecord(CleanName(row.team), CoercePoints(parse, row.points), year)
  }

  /** The frame built from one file: its rows normalised, in order, all carrying `year`. */
  function NormalizeRows(rows: seq<RawRow>, year: int, parse: Parser): (frame: seq<SeasonRecord>)
    ensures |frame| == |rows|
    ensures forall j :: 0 <= j < |rows| ==>
      frame[j].team == CleanName(rows[j].team) && |frame[j].team| <= |rows[j].team| &&
      frame[j].points == CoercePoints(parse, rows[j].points) && frame[j].year == year
  {
    seq(|rows|, j requires 0 <= j < |rows| => NormalizeRow(rows[j], year, parse))
  }

  /** One file's frame: its rows normalised, each tagged with the year in the file's path. */
  function NormalizeFile(f: SeasonFile, parse: Parser): (frame: seq<SeasonRecord>)
    ensures |frame| == |f.rows|
    ensures forall j :: 0 <= j < |frame| ==>
      frame[j] == NormalizeRow(f.rows[j], YearOfPath(f.path), parse) && 0 <= frame[j].year <= 9999
  {
    NormalizeRows(f.rows, YearOfPath(f.path), parse)
  }

  /** The list of per-file frames, one per file in the given order. */
  function Frames(files: seq<SeasonFile>, parse: Parser): (fs: seq<seq<SeasonRecord>>)
    ensures |fs| == |files|
  {
    seq(|files|, k requires 0 <= k < |files| => NormalizeFile(files[k], parse))
  }

  /** `pd.concat`: the frames one after the other. */
  function Concat<T>(frames: seq<seq<T>>): seq<T>
  {
    if frames == [] then [] else Concat(frames[..|frames| - 1]) + frames[|frames| - 1]
  }

  /** The number of data rows over all files. */
  function RowCount(files: seq<SeasonFile>): nat
  {
    if files == [] then 0 else RowCount(files[..|files| - 1]) + |files[|files| - 1].rows|
  }

  /** The combined table the loader returns: one row per data row of every file. */
  function Combined(files: seq<SeasonFile>, parse: Parser): (table: seq<SeasonRecord>)
    ensures |table| == RowCount(files)
  {
    FramesSize(files, parse);
    Concat(Frames(files, parse))
  }

  /**
   * The loading loop: one frame per file, appended to a list, then
   * concatenated; no files give the empty table.
   */
  method LoadData(files: seq<SeasonFile>, parse: Parser) returns (table: seq<SeasonRecord>)
    ensures table == Combined(files, parse)
    ensures |table| == RowCount(files)
  {
    var allData: seq<seq<SeasonRecord>> := [];
    for k := 0 to |files|
      invariant allData == Frames(files[..k], parse)
    {
      var year := YearOfPath(files[k].path);
      var frame := NormalizeRows(files[k].rows, year, parse);
      allData := allData + [frame];
    }
    assert files[..|files|] == files;
    if allData != [] {
      table := Concat(allData);
    } else {
      table := [];
    }
  }

  lemma FramesPrefix(files: seq<SeasonFile>, parse: Parser)
    requires files != []
    ensures Frames(files, parse)[..|files| - 1] == Frames(files[..|files| - 1], parse)
  {
  }

  /** The concatenated frames have as many rows as all files together. */
  lemma {:induction false} FramesSize(files: seq<SeasonFile>, parse: Parser)
    ensures |Concat(Frames(files, parse))| == RowCount(files)
  {
    if files != [] {
      FramesPrefix(files, parse);
      FramesSize(files[..|files| - 1], parse);
    }
  }

  /**
   * Row `j` of file `k` sits at position RowCount(files[..k]) + j of the
   * combined table, cleaned, coerced and tagged with the year of file `k`.
   */
  lemma CombinedRowAt(files: seq<SeasonFile>, parse: Parser, k: nat, j: nat)
    requires k < |files| && j < |files[k].rows|
    ensures RowCount(files[..k]) + j < |Combined(files, parse)|
    ensures Combined(files, parse)[RowCount(files[..k]) + j] ==
      SeasonRecord(CleanName(files[k].rows[j].team),
                   CoercePoints(parse, files[k].rows[j].points),
                   YearOfPath(files[k].path))
  {
    RowAtOffset(files, parse, k, j);
  }

  /** The same placement, stated with the row normalisation folded. */
  lemma {:induction false} RowAtOffset(files: seq<SeasonFile>, parse: Parser, k: nat, j: nat)
    requires k < |files| && j < |files[k].rows|
    ensures RowCount(files[..k]) + j < |Combined(files, parse)|
    ensures Combined(files, parse)[RowCount(files[..k]) + j] == NormalizeFile(files[k], parse)[j]
    decreases |files|
  {
    var n := |files|;
    var init := files[..n - 1];
    CombinedSnoc(files, parse);
    if k == n - 1 {
      assert init == files[..k];
    } else {
      assert init[..k] == files[..k] && init[k] == files[k];
      RowAtOffset(init, parse, k, j);
      var x := RowCount(files[..k]) + j;
      assert Combined(files, parse)[x] == Combined(init, parse)[x];
    }
  }

  /** The combined table is the table of all files but the last, then the last file's frame. */
  lemma CombinedSnoc(files: seq<SeasonFile>, parse: Parser)
    requires files != []
    ensures Combined(files, parse) == Combined(files[..|files| - 1], parse) + NormalizeFile(files[|files| - 1], parse)
  {
    FramesPrefix(files, parse);
  }

  /** Conversely, every row of the combined table is some row of some file, normalised. */
  lemma {:induction false} CombinedRowOrigin(files: seq<SeasonFile>, parse: Parser, i: nat)
    requires i < |Combined(files, parse)|
    ensures exists k, j :: (0 <= k < |files| && 0 <= j < |files[k].rows| &&
      Combined(files, parse)[i] == NormalizeRow(files[k].rows[j], YearOfPath(files[k].path), parse))
    decreases |files|
  {
    var n := |files|;
    var init := files[..n - 1];
    CombinedSnoc(files, parse);
    if i < RowCount(init) {
      CombinedRowOrigin(init, parse, i);
      var k, j :| 0 <= k < |init| && 0 <= j < |init[k].rows| &&
        Combined(init, parse)[i] == NormalizeRow(init[k].rows[j], YearOfPath(init[k].path), parse);
      assert init[k] == files[k];
    } else {
      var j := i - RowCount(init);
      assert Combined(files, parse)[i] == NormalizeRow(files[n - 1].rows[j], YearOfPath(files[n - 1].path), parse);
    }
  }

  /** Every year in the combined table lies in 0..9999. */
  lemma CombinedYearsBounded(files: seq<SeasonFile>, parse: Parser)
    ensures forall i :: 0 <= i < |Combined(files, parse)| ==> 0 <= Combined(files, parse)[i].year <= 9999
  {
    forall i | 0 <= i < |Combined(files, parse)|
      ensures 0 <= Combined(files, parse)[i].year <= 9999
    {
      CombinedRowOrigin(files, parse, i);
    }
  }

  lemma CombinedOfTwo(a: SeasonFile, b: SeasonFile, parse: Parser)
    ensures Combined([a, b], parse) == NormalizeFile(a, parse) + NormalizeFile(b, parse)
  {
    var fs := Frames([a, b], parse);
    assert fs == [NormalizeFile(a, parse), NormalizeFile(b, parse)];
    assert Concat(fs[..1]) == fs[0] by {
      assert fs[..1][..0] == [];
    }
    assert Concat(fs) == Concat(fs[..1]) + fs[1];
  }

  /** One data file holding the single row "Everton (-8)" / "45". */
  lemma NormalizeEvertonFile(f: SeasonFile, parse: Parser, digits: string)
    requires f == SeasonFile("data/premier_league_" + digits + ".csv", [RawRow("Everton (-8)", "45")])
    requires FourDigitsAt(digits, 0) && |digits| == 4
    requires parse("45") == Some(45.0)
    ensures NormalizeFile(f, parse) == [SeasonRecord("Everton", 45.0, FourDigitValue(digits, 0))]
  {
    CleanEverton(f.rows[0].team);
    YearOfDataFile(f.path, digits);
  }

  /**
   * Two files `data/premier_league_2020.csv` and `data/premier_league_2021.csv`,
   * each with the row "Everton (-8)" / "45", give two Everton rows with 45
   * points, one per year.
   */
  lemma LoadEvertonTwice(d2020: string, d2021: string, parse: Parser)
    requires |d2020| == 4 && FourDigitsAt(d2020, 0) && FourDigitValue(d2020, 0) == 2020
    requires |d2021| == 4 && FourDigitsAt(d2021, 0) && FourDigitValue(d2021, 0) == 2021
    requires parse("45") == Some(45.0)
    ensures Combined([SeasonFile("data/premier_league_" + d2020 + ".csv", [RawRow("Everton (-8)", "45")]),
                      SeasonFile("data/premier_league_" + d2021 + ".csv", [RawRow("Everton (-8)", "45")])], parse)
         == [SeasonRecord("Everton", 45.0, 2020), SeasonRecord("Everton", 45.0, 2021)]
  {
    var f2020 := SeasonFile("data/premier_league_" + d2020 + ".csv", [RawRow("Everton (-8)", "45")]);
    var f2021 := SeasonFile("data/premier_league_" + d2021 + ".csv", [RawRow("Everton (-8)", "45")]);
    NormalizeEvertonFile(f2020, parse, d2020);
    NormalizeEvertonFile(f2021, parse, d2021);
    CombinedOfTwo(f2020, f2021, parse);
  }
}
