/**
 * Calendar dates and the strict `datetime.strptime(s, '%Y-%m-%d').date()`
 * used by the pipe-delimited line parser.
 *
 * `strptime` compiles the format into the regular expression
 * `(?P<Y>\d\d\d\d)-(?P<m>1[0-2]|0[1-9]|[1-9])-(?P<d>3[0-1]|[1-2]\d|0[1-9]|[1-9]| [1-9])`,
 * matches it at the start of the text, and then insists that the match
 * reaches the end of the text.  Backtracking into an earlier alternative can
 * never rescue a failed month match (the one-digit month alternative is tried
 * only after the two-digit ones, and the character after it must be `-`), so
 * taking the first alternative that matches is what the regular expression
 * does on ASCII text.  `\d` is read here as the ASCII digits `0`-`9`; Python's
 * `\d` on a `str` pattern also matches the other Unicode decimal digits, which
 * this model rejects.  The calendar check of the resulting (year, month, day)
 * comes afterwards.
 */
module Dates {
  import opened Wrappers
  import opened PyText

  datatype Date = Date(year: int, month: int, day: int)

  predicate IsLeapYear(y: int)
  {
    y % 4 == 0 && (y % 100 != 0 || y % 400 == 0)
  }

  function DaysInMonth(y: int, m: int): int
    requires 1 <= m <= 12
  {
    if m == 2 then (if IsLeapYear(y) then 29 else 28)
    else if m == 4 || m == 6 || m == 9 || m == 11 then 30
    else 31
  }

  /** What Python's `datetime.date` accepts. */
  predicate ValidDate(d: Date)
  {
    1 <= d.year <= 9999 && 1 <= d.month <= 12 && 1 <= d.day <= DaysInMonth(d.year, d.month)
  }

  type CalendarDate = d: Date | ValidDate(d) witness Date(1, 1, 1)

  const IsoFormat: string := "%Y-%m-%d"

  /** `%r` of a string, without the quote and escape handling of `repr`. */
  function Quoted(s: string): string
  {
    "'" + s + "'"
  }

  function NoMatch(s: string): string
  {
    "time data " + Quoted(s) + " does not match format " + Quoted(IsoFormat)
  }

  /** The month group: value and length of the first alternative matching at the start of `t`. */
  function MonthToken(t: string): (r: Option<(int, nat)>)
    ensures r.Some? ==> 1 <= r.value.0 <= 12 && 1 <= r.value.1 <= |t|
  {
    if |t| >= 2 && t[0] == '1' && '0' <= t[1] <= '2' then Some((10 + DigitValue(t[1]), 2))
    else if |t| >= 2 && t[0] == '0' && '1' <= t[1] <= '9' then Some((DigitValue(t[1]), 2))
    else if |t| >= 1 && '1' <= t[0] <= '9' then Some((DigitValue(t[0]), 1))
    else None
  }

  /** The day group: value and length of the first alternative matching at the start of `t`. */
  function DayToken(t: string): (r: Option<(int, nat)>)
    ensures r.Some? ==> 1 <= r.value.0 <= 31 && 1 <= r.value.1 <= |t|
  {
    if |t| >= 2 && t[0] == '3' && '0' <= t[1] <= '1' then Some((30 + DigitValue(t[1]), 2))
    else if |t| >= 2 && '1' <= t[0] <= '2' && IsDigit(t[1]) then Some((10 * DigitValue(t[0]) + DigitValue(t[1]), 2))
    else if |t| >= 2 && t[0] == '0' && '1' <= t[1] <= '9' then Some((DigitValue(t[1]), 2))
    else if |t| >= 1 && '1' <= t[0] <= '9' then Some((DigitValue(t[0]), 1))
    else if |t| >= 2 && t[0] == ' ' && '1' <= t[1] <= '9' then Some((DigitValue(t[1]), 2))
    else None
  }

  /** The year group `\d\d\d\d`. */
  predicate YearDigits(s: string)
  {
    |s| >= 4 && IsDigit(s[0]) && IsDigit(s[1]) && IsDigit(s[2]) && IsDigit(s[3])
  }

  function YearValue(s: string): (y: int)
    requires YearDigits(s)
    ensures 0 <= y <= 9999
  {
    1000 * DigitValue(s[0]) + 100 * DigitValue(s[1]) + 10 * DigitValue(s[2]) + DigitValue(s[3])
  }

  /** `datetime.strptime(s, '%Y-%m-%d').date()`, with the `ValueError` text on failure. */
  function StrictIsoDate(s: string): (r: Result<CalendarDate>)
    ensures r.Ok? ==> 8 <= |s| <= 10 && s[4] == '-'
  {
    if !(YearDigits(s) && |s| > 4 && s[4] == '-') then Err(NoMatch(s))
    else match MonthToken(s[5..])
      case None => Err(NoMatch(s))
      case Some((m, ml)) =>
        var p := 5 + ml;
        if !(p < |s| && s[p] == '-') then Err(NoMatch(s))
        else match DayToken(s[p + 1..])
          case None => Err(NoMatch(s))
          case Some((d, dl)) =>
            var end := p + 1 + dl;
            if end != |s| then Err("unconverted data remains: " + s[end..])
            else
              var y := YearValue(s);
              if y == 0 then Err("year 0 is out of range")
              else if d > DaysInMonth(y, m) then Err("day is out of range for month")
              else Ok(Date(y, m, d))
  }

  /** The canonical `YYYY-MM-DD` text of a date. */
  function FormatIso(d: CalendarDate): (s: string)
    ensures |s| == 10
  {
    [DigitChar(d.year / 1000), DigitChar(d.year / 100 % 10), DigitChar(d.year / 10 % 10), DigitChar(d.year % 10), '-',
     DigitChar(d.month / 10), DigitChar(d.month % 10), '-',
     DigitChar(d.day / 10), DigitChar(d.day % 10)]
  }

  /** Every calendar date reads back from its canonical text. */
  lemma StrictIsoDateRoundTrip(d: CalendarDate)
    ensures StrictIsoDate(FormatIso(d)) == Ok(d)
  {
    var s := FormatIso(d);
    YearDecomposition(d.year);
    assert YearValue(s) == d.year;
    assert s[5..][0] == s[5] && s[5..][1] == s[6];
    assert MonthToken(s[5..]) == Some((d.month, 2));
    assert s[8..][0] == s[8] && s[8..][1] == s[9];
    assert DayToken(s[8..]) == Some((d.day, 2));
  }

  /** The four decimal digits of a year recombine into it. */
  lemma YearDecomposition(y: int)
    requires 0 <= y <= 9999
    ensures 1000 * (y / 1000) + 100 * (y / 100 % 10) + 10 * (y / 10 % 10) + y % 10 == y
  {
    var q := y / 10;
    assert y == 10 * q + y % 10;
    assert q / 10 == y / 100;
    assert q == 10 * (y / 100) + y / 10 % 10;
    assert y / 100 == 10 * (y / 1000) + y / 100 % 10;
  }

  lemma MonthTokenDigits(t: string)
    requires MonthToken(t).Some? && MonthToken(t).value.1 == 2
    ensures DigitChar(MonthToken(t).value.0 / 10) == t[0] && DigitChar(MonthToken(t).value.0 % 10) == t[1]
  {
  }

  lemma DayTokenDigits(t: string)
    requires DayToken(t).Some? && DayToken(t).value.1 == 2
    ensures t[0] != ' ' ==> DigitChar(DayToken(t).value.0 / 10) == t[0]
    ensures t[0] == ' ' ==> DigitChar(DayToken(t).value.0 / 10) == '0'
    ensures DigitChar(DayToken(t).value.0 % 10) == t[1]
  {
  }

  lemma YearValueDigits(s: string)
    requires YearDigits(s)
    ensures DigitChar(YearValue(s) / 1000) == s[0] && DigitChar(YearValue(s) / 100 % 10) == s[1]
    ensures DigitChar(YearValue(s) / 10 % 10) == s[2] && DigitChar(YearValue(s) % 10) == s[3]
  {
    var a, b, c, e := DigitValue(s[0]), DigitValue(s[1]), DigitValue(s[2]), DigitValue(s[3]);
    var y := YearValue(s);
    assert y == 1000 * a + 100 * b + 10 * c + e;
    assert y / 1000 == a;
    assert y / 100 == 10 * a + b;
    assert y / 10 == 100 * a + 10 * b + c;
  }

  /** What acceptance of a ten-character text says about its pieces. */
  lemma StrictIsoDateParts(s: string)
    requires StrictIsoDate(s).Ok? && |s| == 10
    ensures YearDigits(s) && s[4] == '-' && s[7] == '-'
    ensures StrictIsoDate(s).value.year == YearValue(s)
    ensures MonthToken(s[5..]) == Some((StrictIsoDate(s).value.month, 2))
    ensures DayToken(s[8..]) == Some((StrictIsoDate(s).value.day, 2))
  {
  }

  /**
   * A ten-character text the parser accepts is the canonical text of the date
   * it yields, except that the day may be padded with a space instead of a zero.
   */
  lemma StrictIsoDateCanonical(s: string)
    requires StrictIsoDate(s).Ok? && |s| == 10
    ensures s[8] != ' ' ==> FormatIso(StrictIsoDate(s).value) == s
    ensures s[8] == ' ' ==> FormatIso(StrictIsoDate(s).value) == s[..8] + "0" + s[9..]
  {
    var d := StrictIsoDate(s).value;
    StrictIsoDateParts(s);
    YearValueDigits(s);
    MonthTokenDigits(s[5..]);
    DayTokenDigits(s[8..]);
    var f := FormatIso(d);
    if s[8] == ' ' {
      assert f == s[..8] + "0" + s[9..];
    } else {
      assert f == s;
    }
  }

  /** Single-digit months and days are accepted as well: `2023-1-5` is the 5th of January. */
  lemma StrictIsoDateShortForm()
    ensures StrictIsoDate("2023-1-5") == Ok(Date(2023, 1, 5))
  {
    var s := "2023-1-5";
    assert YearValue(s) == 2023;
    assert MonthToken(s[5..]) == Some((1, 1));
    assert DayToken(s[7..]) == Some((5, 1));
  }

  /** After the text matches, the day is checked against the month: 29 February only in leap years. */
  lemma StrictIsoDateLeapDay()
    ensures StrictIsoDate("2023-02-29") == Err("day is out of range for month")
    ensures StrictIsoDate("2024-02-29") == Ok(Date(2024, 2, 29))
  {
    var s := "2023-02-29";
    assert YearValue(s) == 2023 && MonthToken(s[5..]) == Some((2, 2)) && DayToken(s[8..]) == Some((29, 2));
    var t := "2024-02-29";
    assert YearValue(t) == 2024 && MonthToken(t[5..]) == Some((2, 2)) && DayToken(t[8..]) == Some((29, 2));
  }

  /** Four digits of zeros match the pattern, but year 0 is out of range. */
  lemma StrictIsoDateYearZero()
    ensures StrictIsoDate("0000-01-01") == Err("year 0 is out of range")
  {
    var u := "0000-01-01";
    assert YearValue(u) == 0 && MonthToken(u[5..]) == Some((1, 2)) && DayToken(u[8..]) == Some((1, 2));
  }
}
