/** Calendar dates in the ISO proleptic calendar (Java's `LocalDate`) and the
  * `yyMMdd` text form used in machine-readable zones, formatted and parsed as
  * `DateTimeFormatter.ofPattern("yyMMdd")` does with its default SMART
  * resolver. */
module Dates {
  import opened Wrappers

  datatype Date = Date(year: int, month: int, day: int)

  predicate IsLeap(y: int) {
    y % 4 == 0 && (y % 100 != 0 || y % 400 == 0)
  }

  function MonthLength(y: int, m: int): (n: int)
    requires 1 <= m <= 12
    ensures 28 <= n <= 31
  {
    if m == 2 then (if IsLeap(y) then 29 else 28)
    else if m == 4 || m == 6 || m == 9 || m == 11 then 30
    else 31
  }

  /** A date `LocalDate` can hold. */
  predicate Valid(d: Date) {
    1 <= d.month <= 12 && 1 <= d.day <= MonthLength(d.year, d.month)
  }

  /** `a.isBefore(b)`: `a` is strictly earlier on the time-line. */
  predicate IsBefore(a: Date, b: Date) {
    a.year < b.year
    || (a.year == b.year && a.month < b.month)
    || (a.year == b.year && a.month == b.month && a.day < b.day)
  }

  /** `a.isAfter(b)`: `a` is strictly later on the time-line. */
  predicate IsAfter(a: Date, b: Date) {
    IsBefore(b, a)
  }

  lemma AfterIsStrictOrder(a: Date, b: Date)
    ensures !(IsAfter(a, b) && IsAfter(b, a))
    ensures !IsAfter(a, a)
    ensures a != b ==> IsAfter(a, b) || IsAfter(b, a)
  {
  }

  predicate IsAsciiDigit(c: char) {
    '0' <= c <= '9'
  }

  function DigitValue(c: char): (v: nat)
    requires IsAsciiDigit(c)
    ensures v < 10
  {
    c as int - '0' as int
  }

  function DigitChar(v: nat): (c: char)
    requires v < 10
    ensures IsAsciiDigit(c) && DigitValue(c) == v
  {
    ('0' as int + v) as char
  }

  /** A number below 100 as exactly two digits, zero-padded. */
  function TwoDigits(n: nat): (s: string)
    requires n < 100
    ensures |s| == 2 && IsAsciiDigit(s[0]) && IsAsciiDigit(s[1])
    ensures 10 * DigitValue(s[0]) + DigitValue(s[1]) == n
  {
    [DigitChar(n / 10), DigitChar(n % 10)]
  }

  /** The year-of-era that the `y` pattern letter prints (year 0 is 1 BCE). */
  function YearOfEra(y: int): (yoe: nat)
    ensures yoe >= 1
    ensures y >= 1 ==> yoe == y
  {
    if y >= 1 then y else 1 - y
  }

  /** `date.format(ofPattern("yyMMdd"))`: the last two digits of the
    * year-of-era, then month and day, each as two digits. */
  function FormatYYMMDD(d: Date): (s: string)
    requires Valid(d)
    ensures |s| == 6 && forall i :: 0 <= i < 6 ==> IsAsciiDigit(s[i])
  {
    TwoDigits(YearOfEra(d.year) % 100) + TwoDigits(d.month) + TwoDigits(d.day)
  }

  /** `LocalDate.parse(s, ofPattern("yyMMdd"))`: six ASCII digits; the year is
    * 2000 plus the first two (the reduced-year base); month 1..12 and day
    * 1..31 are range-checked; the SMART resolver then moves a day past the
    * end of its month back to the month's last day. `None` stands for a
    * `DateTimeParseException`. */
  function ParseYYMMDD(s: string): (r: Option<Date>)
    ensures r.Some? ==> Valid(r.value) && 2000 <= r.value.year <= 2099
    ensures r.Some? ==> |s| == 6 && forall i :: 0 <= i < 6 ==> IsAsciiDigit(s[i])
  {
    if |s| != 6 || exists i :: 0 <= i < 6 && !IsAsciiDigit(s[i]) then None
    else
      var yy := 10 * DigitValue(s[0]) + DigitValue(s[1]);
      var mm := 10 * DigitValue(s[2]) + DigitValue(s[3]);
      var dd := 10 * DigitValue(s[4]) + DigitValue(s[5]);
      if !(1 <= mm <= 12 && 1 <= dd <= 31) then None
      else
        var year := 2000 + yy;
        var day := if dd > MonthLength(year, mm) then MonthLength(year, mm) else dd;
        Some(Date(year, mm, day))
  }

  /** Formatting then parsing gives the date back for every date of the
    * 2000..2099 window of the two-digit year. */
  lemma ParseFormat(d: Date)
    requires Valid(d) && 2000 <= d.year <= 2099
    ensures ParseYYMMDD(FormatYYMMDD(d)) == Some(d)
  {
    var s := FormatYYMMDD(d);
    assert s[..2] == TwoDigits(d.year % 100);
    assert s[2..4] == TwoDigits(d.month);
    assert s[4..] == TwoDigits(d.day);
    assert 2000 + d.year % 100 == d.year;
  }

  /** A date outside the window does not survive the round trip: the parsed
    * year is always in 2000..2099. */
  lemma FormatLosesCentury(d: Date)
    requires Valid(d) && !(2000 <= d.year <= 2099)
    ensures ParseYYMMDD(FormatYYMMDD(d)) != Some(d)
  {
  }
}
