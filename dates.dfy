/**
 * Calendar dates as the contract handler reads them: Go's `time.Parse("2006-01-02", s)`.
 * The layout accepts exactly four year digits, a '-', two month digits, a '-' and two day
 * digits, nothing before or after; the month must be 1..12 and the day must exist in that
 * month of that year. The parsed instants are midnights in UTC, so `After` compares them as
 * their (year, month, day) triples.
 */
module Dates {
  import opened Wrappers

  datatype Date = Date(year: int, month: int, day: int)

  predicate IsLeap(year: int) {
    year % 4 == 0 && (year % 100 != 0 || year % 400 == 0)
  }

  /** The number of days in a month of the Gregorian calendar. */
  function DaysIn(month: int, year: int): (n: int)
    requires 1 <= month <= 12
    ensures 28 <= n <= 31
    ensures n == 29 <==> month == 2 && IsLeap(year)
  {
    if month == 2 then (if IsLeap(year) then 29 else 28)
    else if month == 4 || month == 6 || month == 9 || month == 11 then 30
    else 31
  }

  /** A date the layout can express: a four-digit year and a day that exists. */
  predicate ValidDate(d: Date) {
    0 <= d.year <= 9999 && 1 <= d.month <= 12 && 1 <= d.day <= DaysIn(d.month, d.year)
  }

  predicate IsDigit(c: char) {
    '0' <= c <= '9'
  }

  function DigitValue(c: char): int
    requires IsDigit(c)
  {
    c as int - '0' as int
  }

  function DigitChar(k: int): char
    requires 0 <= k < 10
  {
    ('0' as int + k) as char
  }

  /** Ten characters shaped like "dddd-dd-dd". */
  predicate Shaped(s: string) {
    && |s| == 10
    && IsDigit(s[0]) && IsDigit(s[1]) && IsDigit(s[2]) && IsDigit(s[3])
    && s[4] == '-'
    && IsDigit(s[5]) && IsDigit(s[6])
    && s[7] == '-'
    && IsDigit(s[8]) && IsDigit(s[9])
  }

  /** `time.Parse("2006-01-02", s)`: the date, or None where Go reports a parse error. */
  function ParseDate(s: string): (d: Option<Date>)
    ensures d.Some? ==> ValidDate(d.value) && Shaped(s)
    ensures !Shaped(s) ==> d.None?
  {
    if !Shaped(s) then None
    else
      var year := 1000 * DigitValue(s[0]) + 100 * DigitValue(s[1]) + 10 * DigitValue(s[2]) + DigitValue(s[3]);
      var month := 10 * DigitValue(s[5]) + DigitValue(s[6]);
      var day := 10 * DigitValue(s[8]) + DigitValue(s[9]);
      if month < 1 || 12 < month then None
      else if day < 1 || DaysIn(month, year) < day then None
      else Some(Date(year, month, day))
  }

  /** The date written in the layout, zero-padded. */
  function FormatDate(d: Date): (s: string)
    requires ValidDate(d)
    ensures Shaped(s)
  {
    [DigitChar(d.year / 1000), DigitChar(d.year / 100 % 10), DigitChar(d.year / 10 % 10), DigitChar(d.year % 10),
     '-', DigitChar(d.month / 10), DigitChar(d.month % 10),
     '-', DigitChar(d.day / 10), DigitChar(d.day % 10)]
  }

  lemma DigitsRoundTrip()
    ensures forall k :: 0 <= k < 10 ==> IsDigit(DigitChar(k)) && DigitValue(DigitChar(k)) == k
    ensures forall c :: IsDigit(c) ==> 0 <= DigitValue(c) < 10 && DigitChar(DigitValue(c)) == c
  {
  }

  lemma FourDigits(n: int)
    requires 0 <= n < 10000
    ensures n == 1000 * (n / 1000) + 100 * (n / 100 % 10) + 10 * (n / 10 % 10) + n % 10
    ensures 0 <= n / 1000 < 10
  {
  }

  lemma DivTen(n: int, q: int, r: int)
    requires 0 <= r < 10 && n == 10 * q + r
    ensures n / 10 == q && n % 10 == r
  {
  }

  lemma SplitFourDigits(a: int, b: int, c: int, e: int)
    requires 0 <= a < 10 && 0 <= b < 10 && 0 <= c < 10 && 0 <= e < 10
    ensures var n := 1000 * a + 100 * b + 10 * c + e;
      n / 1000 == a && n / 100 % 10 == b && n / 10 % 10 == c && n % 10 == e
  {
    var n := 1000 * a + 100 * b + 10 * c + e;
    DivTen(n, 100 * a + 10 * b + c, e);
    DivTen(100 * a + 10 * b + c, 10 * a + b, c);
    DivTen(10 * a + b, a, b);
    assert n / 100 == 10 * a + b;
    assert n / 1000 == a;
  }

  /** Every valid date is read back from its own text. */
  lemma ParseFormat(d: Date)
    requires ValidDate(d)
    ensures ParseDate(FormatDate(d)) == Some(d)
  {
    DigitsRoundTrip();
    FourDigits(d.year);
  }

  /** Every text the layout accepts is the formatting of the date it denotes. */
  lemma FormatParse(s: string)
    requires ParseDate(s).Some?
    ensures FormatDate(ParseDate(s).value) == s
  {
    DigitsRoundTrip();
    var d := ParseDate(s).value;
    SplitFourDigits(DigitValue(s[0]), DigitValue(s[1]), DigitValue(s[2]), DigitValue(s[3]));
    var f := FormatDate(d);
    assert forall i :: 0 <= i < 10 ==> f[i] == s[i];
  }

  /** `a.After(b)`: a is a strictly later day than b. */
  predicate After(a: Date, b: Date) {
    || a.year > b.year
    || (a.year == b.year && a.month > b.month)
    || (a.year == b.year && a.month == b.month && a.day > b.day)
  }

  /** After is a strict total order: of two dates exactly one is later, or they are equal. */
  lemma AfterIsStrictTotalOrder(a: Date, b: Date, c: Date)
    ensures !After(a, a)
    ensures After(a, b) ==> !After(b, a)
    ensures a == b || After(a, b) || After(b, a)
    ensures After(a, b) && After(b, c) ==> After(a, c)
  {
  }
}
