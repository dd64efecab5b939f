/**
 * The season year of a data file: the first run of four decimal digits in
 * its path (what `re.search(r'(\d{4})', path)` finds), read as an integer,
 * or 0 when the path holds no such run.
 */
module FileYear {
  import opened Wrappers

  predicate IsDigit(c: char)
  {
    '0' <= c <= '9'
  }

  function DigitValue(c: char): (d: nat)
    requires IsDigit(c)
    ensures d <= 9
  {
    c as int - '0' as int
  }

  /** Four digits start at index `i` of `s`. */
  predicate FourDigitsAt(s: string, i: nat)
  {
    i + 4 <= |s| && IsDigit(s[i]) && IsDigit(s[i + 1]) && IsDigit(s[i + 2]) && IsDigit(s[i + 3])
  }

  /** The decimal value of the four digits at index `i` (leading zeros allowed, as `int` reads them). */
  function FourDigitValue(s: string, i: nat): (v: nat)
    requires FourDigitsAt(s, i)
    ensures v <= 9999
    ensures v == 0 <==> s[i] == s[i + 1] == s[i + 2] == s[i + 3] == '0'
  {
    1000 * DigitValue(s[i]) + 100 * DigitValue(s[i + 1]) + 10 * DigitValue(s[i + 2]) + DigitValue(s[i + 3])
  }

  /** The leftmost index at or after `from` where four digits start. */
  function FindYearRun(s: string, from: nat): (r: Option<nat>)
    ensures r.Some? ==> from <= r.value && FourDigitsAt(s, r.value)
    ensures r.Some? ==> forall j :: from <= j < r.value ==> !FourDigitsAt(s, j)
    ensures r.None? ==> forall j :: from <= j ==> !FourDigitsAt(s, j)
    decreases |s| - from
  {
    if from + 4 > |s| then None
    else if FourDigitsAt(s, from) then Some(from)
    else FindYearRun(s, from + 1)
  }

  /** The year the loader attaches to every row of the file at `path`. */
  function YearOfPath(path: string): (y: nat)
    ensures y <= 9999
    ensures (forall j :: !FourDigitsAt(path, j)) ==> y == 0
  {
    match FindYearRun(path, 0)
    case Some(i) => FourDigitValue(path, i)
    case None => 0
  }

  /** It is the first run of four digits that gives the year. */
  lemma YearIsFirstRun(path: string, i: nat)
    requires FourDigitsAt(path, i)
    requires forall j :: 0 <= j < i ==> !FourDigitsAt(path, j)
    ensures YearOfPath(path) == FourDigitValue(path, i)
  {
  }

  /** A path of the form `<no digits><four digits><anything>` carries the year those digits spell. */
  lemma YearOfSeasonFile(prefix: string, digits: string, rest: string)
    requires forall k :: 0 <= k < |prefix| ==> !IsDigit(prefix[k])
    requires FourDigitsAt(digits, 0) && |digits| == 4
    ensures YearOfPath(prefix + digits + rest) == FourDigitValue(digits, 0)
  {
    var path := prefix + digits + rest;
    var i := |prefix|;
    forall j | 0 <= j < i ensures !FourDigitsAt(path, j) {
      assert path[j] == prefix[j];
    }
    assert path[i..i + 4] == digits;
    assert FourDigitsAt(path, i);
    YearIsFirstRun(path, i);
  }

  /** The data files are named `data/premier_league_<year>.csv`. */
  lemma YearOfDataFile(path: string, digits: string)
    requires path == "data/premier_league_" + digits + ".csv"
    requires FourDigitsAt(digits, 0) && |digits| == 4
    ensures YearOfPath(path) == FourDigitValue(digits, 0)
  {
    YearOfSeasonFile("data/premier_league_", digits, ".csv");
  }
}
