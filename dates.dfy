/**
 * Calendar dates as `datetime.strptime(s, "%Y-%m-%d")` reads them and
 * `strftime("%Y-%m-%d")` writes them, and the day count `date.toordinal()`
 * that date differences are taken in.
 */
module Dates {
  import opened Common
  import opened Decimal

  datatype Date = Date(year: int, month: int, day: int)

  predicate IsLeap(y: int) { y % 4 == 0 && (y % 100 != 0 || y % 400 == 0) }

  function DaysInMonth(y: int, m: int): (n: int)
    requires 1 <= m <= 12
    ensures 28 <= n <= 31
    ensures n == 31 <==> m in {1, 3, 5, 7, 8, 10, 12}
    ensures m == 2 ==> (n == 29 <==> IsLeap(y))
  {
    if m == 2 then (if IsLeap(y) then 29 else 28)
    else if m == 4 || m == 6 || m == 9 || m == 11 then 30
    else 31
  }

  /** A date `datetime` accepts: years 1 to 9999 and an existing day of the month. */
  predicate Valid(d: Date) {
    1 <= d.year <= 9999 && 1 <= d.month <= 12 && 1 <= d.day <= DaysInMonth(d.year, d.month)
  }

  /**
   * The `%m` field followed by the literal '-': `1[0-2]|0[1-9]|[1-9]`, tried
   * in that order. Gives the month and the characters it took.
   */
  function MonthField(t: string): (r: Option<(int, nat)>)
    ensures r.Some? ==> 1 <= r.value.0 <= 12 && 1 <= r.value.1 <= 2 && r.value.1 < |t| && t[r.value.1] == '-'
  {
    if |t| >= 3 && t[0] == '1' && '0' <= t[1] <= '2' && t[2] == '-' then Some((10 + DigitValue(t[1]), 2))
    else if |t| >= 3 && t[0] == '0' && '1' <= t[1] <= '9' && t[2] == '-' then Some((DigitValue(t[1]), 2))
    else if |t| >= 2 && '1' <= t[0] <= '9' && t[1] == '-' then Some((DigitValue(t[0]), 1))
    else None
  }

  /**
   * The `%d` field at the end of the text: `3[01]|[12]\d|0[1-9]|[1-9]| [1-9]`,
   * the first alternative that matches being taken; anything left over is
   * "unconverted data" and an error.
   */
  function DayField(t: string): (r: Option<int>)
    ensures r.Some? ==> 1 <= r.value <= 31
  {
    if |t| >= 2 && t[0] == '3' && (t[1] == '0' || t[1] == '1') then
      (if |t| == 2 then Some(30 + DigitValue(t[1])) else None)
    else if |t| >= 2 && (t[0] == '1' || t[0] == '2') && IsDigit(t[1]) then
      (if |t| == 2 then Some(10 * DigitValue(t[0]) + DigitValue(t[1])) else None)
    else if |t| >= 2 && t[0] == '0' && '1' <= t[1] <= '9' then
      (if |t| == 2 then Some(DigitValue(t[1])) else None)
    else if |t| >= 1 && '1' <= t[0] <= '9' then
      (if |t| == 1 then Some(DigitValue(t[0])) else None)
    else if |t| >= 2 && t[0] == ' ' && '1' <= t[1] <= '9' then
      (if |t| == 2 then Some(DigitValue(t[1])) else None)
    else None
  }

  function FourDigits(s: string): int
    requires |s| >= 4 && IsDigit(s[0]) && IsDigit(s[1]) && IsDigit(s[2]) && IsDigit(s[3])
  {
    1000 * DigitValue(s[0]) + 100 * DigitValue(s[1]) + 10 * DigitValue(s[2]) + DigitValue(s[3])
  }

  /** `datetime.strptime(s, "%Y-%m-%d")`, `None` standing for `ValueError`. */
  function ParseYmd(s: string): (r: Option<Date>)
    ensures r.Some? ==> Valid(r.value)
    ensures r.Some? ==> |s| >= 8 && s[4] == '-'
  {
    if |s| < 5 || !(IsDigit(s[0]) && IsDigit(s[1]) && IsDigit(s[2]) && IsDigit(s[3])) || s[4] != '-' then None
    else
      var y := FourDigits(s);
      match MonthField(s[5..])
      case None => None
      case Some((m, n)) =>
        match DayField(s[5 + n + 1..])
        case None => None
        case Some(d) =>
          var date := Date(y, m, d);
          if Valid(date) then Some(date) else None
  }

  function Pad2(n: int): (r: string)
    requires 0 <= n < 100
    ensures |r| == 2 && IsDigit(r[0]) && IsDigit(r[1]) && 10 * DigitValue(r[0]) + DigitValue(r[1]) == n
  {
    [Digit(n / 10), Digit(n % 10)]
  }

  function Pad4(n: int): (r: string)
    requires 0 <= n < 10000
    ensures |r| == 4 && IsDigit(r[0]) && IsDigit(r[1]) && IsDigit(r[2]) && IsDigit(r[3]) && FourDigits(r) == n
  {
    var q1 := n / 10;
    var q2 := q1 / 10;
    var q3 := q2 / 10;
    assert n == 10 * q1 + n % 10 && q1 == 10 * q2 + q1 % 10 && q2 == 10 * q3 + q2 % 10;
    assert q3 < 10;
    [Digit(q3), Digit(q2 % 10), Digit(q1 % 10), Digit(n % 10)]
  }

  /** `date.strftime("%Y-%m-%d")`. */
  function FormatYmd(d: Date): (r: string)
    requires Valid(d)
    ensures |r| == 10
  {
    Pad4(d.year) + "-" + Pad2(d.month) + "-" + Pad2(d.day)
  }

  /** What `strftime` writes, `strptime` reads back. */
  lemma ParseFormat(d: Date)
    requires Valid(d)
    ensures ParseYmd(FormatYmd(d)) == Some(d)
  {
    var s := FormatYmd(d);
    var mm := Pad2(d.month);
    var dd := Pad2(d.day);
    assert s[..4] == Pad4(d.year) && s[4] == '-';
    assert s[5..] == mm + "-" + dd;
    assert MonthField(s[5..]) == Some((d.month, 2));
    assert s[5 + 2 + 1..] == dd;
    assert DayField(dd) == Some(d.day);
  }

  /** `strptime` insists on the '-' separators. */
  lemma ParseNeedsSeparators(s: string)
    requires ParseYmd(s).Some?
    ensures s[4] == '-' && '-' in s[5..]
  {
    var n := MonthField(s[5..]).value.1;
    assert s[5..][n] == '-';
  }

  function DaysBeforeYear(y: int): int
    requires y >= 1
  {
    var p := y - 1;
    365 * p + p / 4 - p / 100 + p / 400
  }

  function DaysBeforeMonth(y: int, m: int): (n: int)
    requires 1 <= m <= 12
    ensures 0 <= n <= 31 * (m - 1)
    decreases m
  {
    if m == 1 then 0 else DaysBeforeMonth(y, m - 1) + DaysInMonth(y, m - 1)
  }

  /** `date.toordinal()`: 1 for 0001-01-01, one more for each following day. */
  function Ordinal(d: Date): (n: int)
    requires Valid(d)
    ensures n >= 1
  {
    DaysBeforeYear(d.year) + DaysBeforeMonth(d.year, d.month) + d.day
  }

  /** Within a month, consecutive days have consecutive ordinals. */
  lemma OrdinalNextDay(d: Date)
    requires Valid(d) && d.day < DaysInMonth(d.year, d.month)
    ensures Ordinal(d.(day := d.day + 1)) == Ordinal(d) + 1
  {
  }

  /** The first of a month follows the last day of the month before. */
  lemma OrdinalNextMonth(y: int, m: int)
    requires 1 <= y <= 9999 && 1 <= m < 12
    ensures Ordinal(Date(y, m + 1, 1)) == Ordinal(Date(y, m, DaysInMonth(y, m))) + 1
  {
  }

  /** New Year's Day follows 31 December. */
  lemma {:induction false} OrdinalNextYear(y: int)
    requires 1 <= y < 9999
    ensures Ordinal(Date(y + 1, 1, 1)) == Ordinal(Date(y, 12, 31)) + 1
  {
    YearLength(y);
  }

  lemma YearLength(y: int)
    requires y >= 1
    ensures DaysBeforeMonth(y, 12) + 31 == (if IsLeap(y) then 366 else 365)
    ensures DaysBeforeYear(y + 1) - DaysBeforeYear(y) == (if IsLeap(y) then 366 else 365)
  {
    MonthsOfYear(y);
    DaysOfYear(y);
  }

  lemma MonthsOfYear(y: int)
    ensures DaysBeforeMonth(y, 12) + 31 == (if IsLeap(y) then 366 else 365)
  {
    var f := if IsLeap(y) then 29 else 28;
    assert DaysBeforeMonth(y, 3) == 31 + f;
    assert DaysBeforeMonth(y, 6) == 31 + f + 31 + 30 + 31;
    assert DaysBeforeMonth(y, 9) == 31 + f + 31 + 30 + 31 + 30 + 31 + 31;
    assert DaysBeforeMonth(y, 12) == 31 + f + 31 + 30 + 31 + 30 + 31 + 31 + 30 + 31 + 30;
  }

  lemma DaysOfYear(y: int)
    requires y >= 1
    ensures DaysBeforeYear(y + 1) - DaysBeforeYear(y) == (if IsLeap(y) then 366 else 365)
  {
    var p := y - 1;
    assert (p + 1) / 4 == p / 4 + (if y % 4 == 0 then 1 else 0);
    assert (p + 1) / 100 == p / 100 + (if y % 100 == 0 then 1 else 0);
    assert (p + 1) / 400 == p / 400 + (if y % 400 == 0 then 1 else 0);
  }
}
