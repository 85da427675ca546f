/**
 * Calendar dates as the shard store uses them: `datetime.strptime(s, "%Y-%m-%d")`
 * to recover a shard's date from its file name, and `strftime("%Y-%m-%d")` to
 * name today's shard.
 */
module Dates {
  import opened Wrappers
  import Text

  /** A `datetime` at midnight; only its calendar fields matter here. */
  datatype Date = Date(year: int, month: int, day: int)

  predicate IsLeap(y: int) {
    y % 4 == 0 && (y % 100 != 0 || y % 400 == 0)
  }

  function DaysInMonth(y: int, m: int): int {
    if m == 2 then (if IsLeap(y) then 29 else 28)
    else if m == 4 || m == 6 || m == 9 || m == 11 then 30
    else 31
  }

  /** The dates `datetime` accepts. */
  predicate Valid(d: Date) {
    1 <= d.year <= 9999 && 1 <= d.month <= 12 && 1 <= d.day <= DaysInMonth(d.year, d.month)
  }

  /** Chronological order, which is `datetime`'s `<`. */
  predicate Before(a: Date, b: Date) {
    a.year < b.year
    || (a.year == b.year && a.month < b.month)
    || (a.year == b.year && a.month == b.month && a.day < b.day)
  }

  /** An ASCII digit. The `\d` of `_strptime` also matches other Unicode decimal digits, which this model does not read. */
  predicate IsDigit(c: char) {
    '0' <= c <= '9'
  }

  function DigitValue(c: char): (n: nat)
    requires IsDigit(c)
    ensures n < 10
  {
    (c as int) - ('0' as int)
  }

  /** The `%m` directive: `1[0-2]|0[1-9]|[1-9]`. */
  function MonthToken(t: string): (r: Option<int>)
    ensures r.Some? ==> 1 <= r.value <= 12
  {
    if |t| == 1 && '1' <= t[0] <= '9' then Some(DigitValue(t[0]))
    else if |t| == 2 && t[0] == '1' && '0' <= t[1] <= '2' then Some(10 + DigitValue(t[1]))
    else if |t| == 2 && t[0] == '0' && '1' <= t[1] <= '9' then Some(DigitValue(t[1]))
    else None
  }

  /** The `%d` directive: `3[01]|[12]\d|0[1-9]|[1-9]| [1-9]`. */
  function DayToken(t: string): (r: Option<int>)
    ensures r.Some? ==> 1 <= r.value <= 31
  {
    if |t| == 1 && '1' <= t[0] <= '9' then Some(DigitValue(t[0]))
    else if |t| == 2 && (t[0] == '0' || t[0] == ' ') && '1' <= t[1] <= '9' then Some(DigitValue(t[1]))
    else if |t| == 2 && (t[0] == '1' || t[0] == '2') && IsDigit(t[1]) then Some(10 * DigitValue(t[0]) + DigitValue(t[1]))
    else if |t| == 2 && t[0] == '3' && (t[1] == '0' || t[1] == '1') then Some(30 + DigitValue(t[1]))
    else None
  }

  /** The `%Y` directive: exactly four digits. */
  function YearToken(t: string): (r: Option<int>)
    ensures r.Some? ==> 0 <= r.value <= 9999
  {
    if |t| == 4 && IsDigit(t[0]) && IsDigit(t[1]) && IsDigit(t[2]) && IsDigit(t[3]) then
      Some(1000 * DigitValue(t[0]) + 100 * DigitValue(t[1]) + 10 * DigitValue(t[2]) + DigitValue(t[3]))
    else None
  }

  /**
   * `datetime.strptime(s, "%Y-%m-%d")` on ASCII digits, `None` where it
   * raises `ValueError`: the whole string must match, and the date must
   * exist (year 0 and February 30 are refused). Years and days written with
   * other Unicode decimal digits, which `strptime` accepts, are `None` here.
   */
  function ParseDate(s: string): (r: Option<Date>)
    ensures r.Some? ==> Valid(r.value)
  {
    var monthLen := if |s| >= 7 && s[6] == '-' then 1 else 2;
    if |s| < 6 + monthLen || s[4] != '-' || s[5 + monthLen] != '-' then None
    else
      var y := YearToken(s[..4]);
      var m := MonthToken(s[5..5 + monthLen]);
      var d := DayToken(s[6 + monthLen..]);
      if y.None? || m.None? || d.None? then None
      else
        var date := Date(y.value, m.value, d.value);
        if Valid(date) then Some(date) else None
  }

  /** Two-digit rendering with a leading zero, as `%m` and `%d` print. */
  function Pad2(n: nat): (r: string)
    requires n < 100
    ensures |r| == 2
  {
    [Text.DigitChar(n / 10), Text.DigitChar(n % 10)]
  }

  function Pad4(n: nat): (r: string)
    requires n < 10000
    ensures |r| == 4
  {
    Pad2(n / 100) + Pad2(n % 100)
  }

  /** `date.strftime("%Y-%m-%d")`: the name today's shard gets. */
  function FormatDate(d: Date): (r: string)
    requires Valid(d)
    ensures |r| == 10 && r[4] == '-' && r[7] == '-'
  {
    Pad4(d.year) + "-" + Pad2(d.month) + "-" + Pad2(d.day)
  }

  lemma DigitRoundTrip(n: nat)
    requires n < 10
    ensures IsDigit(Text.DigitChar(n)) && DigitValue(Text.DigitChar(n)) == n
  {
  }

  lemma YearRoundTrip(y: nat)
    requires y < 10000
    ensures YearToken(Pad4(y)) == Some(y)
  {
    var hi, lo := y / 100, y % 100;
    DigitRoundTrip(hi / 10);
    DigitRoundTrip(hi % 10);
    DigitRoundTrip(lo / 10);
    DigitRoundTrip(lo % 10);
    assert 10 * (hi / 10) + hi % 10 == hi;
    assert 10 * (lo / 10) + lo % 10 == lo;
    assert 100 * hi + lo == y;
  }

  lemma MonthRoundTrip(m: nat)
    requires 1 <= m <= 12
    ensures MonthToken(Pad2(m)) == Some(m)
  {
    DigitRoundTrip(m / 10);
    DigitRoundTrip(m % 10);
  }

  lemma DayRoundTrip(d: nat)
    requires 1 <= d <= 31
    ensures DayToken(Pad2(d)) == Some(d)
  {
    DigitRoundTrip(d / 10);
    DigitRoundTrip(d % 10);
  }

  /** The name of today's shard always parses back to today's date. */
  lemma FormatParseRoundTrip(d: Date)
    requires Valid(d)
    ensures ParseDate(FormatDate(d)) == Some(d)
  {
    var s := FormatDate(d);
    YearRoundTrip(d.year);
    MonthRoundTrip(d.month);
    DayRoundTrip(d.day);
    DigitRoundTrip(d.month % 10);
    assert s[..4] == Pad4(d.year);
    assert s[5..7] == Pad2(d.month);
    assert s[8..] == Pad2(d.day);
    assert s[6] != '-';
  }

  /** Different days get different shard names. */
  lemma FormatInjective(a: Date, b: Date)
    requires Valid(a) && Valid(b) && FormatDate(a) == FormatDate(b)
    ensures a == b
  {
    FormatParseRoundTrip(a);
    FormatParseRoundTrip(b);
  }
}
