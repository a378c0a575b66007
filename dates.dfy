/**
 * Calendar dates as pandas timestamps carry them, and their `%Y-%m-%d`
 * rendering (the `strftime` format used for the jobs table's date column).
 */
module Dates {
  import opened Wrappers

  /** pandas timestamps lie between the years 1677 and 2262, well inside four digits. */
  type Year = y: int | 0 <= y <= 9999
  type Month = m: int | 1 <= m <= 12 witness 1
  type Day = d: int | 1 <= d <= 31 witness 1

  datatype Date = Date(year: Year, month: Month, day: Day)

  predicate IsDigit(c: char) {
    '0' <= c <= '9'
  }

  function DigitValue(c: char): (n: int)
    requires IsDigit(c)
    ensures 0 <= n <= 9
  {
    c as int - '0' as int
  }

  function DigitChar(n: int): (c: char)
    requires 0 <= n <= 9
    ensures IsDigit(c) && DigitValue(c) == n
  {
    ('0' as int + n) as char
  }

  /** The value of a two-digit numeral. */
  function Number2(hi: char, lo: char): (n: int)
    requires IsDigit(hi) && IsDigit(lo)
    ensures 0 <= n <= 99
  {
    10 * DigitValue(hi) + DigitValue(lo)
  }

  /** The value of a four-digit numeral. */
  function Number4(s: string): (n: int)
    requires |s| == 4 && IsDigit(s[0]) && IsDigit(s[1]) && IsDigit(s[2]) && IsDigit(s[3])
    ensures 0 <= n <= 9999
  {
    100 * Number2(s[0], s[1]) + Number2(s[2], s[3])
  }

  /** A two-digit, zero-padded decimal numeral (`%m`, `%d`). */
  function Pad2(n: int): (s: string)
    requires 0 <= n <= 99
    ensures |s| == 2 && IsDigit(s[0]) && IsDigit(s[1])
    ensures Number2(s[0], s[1]) == n
  {
    [DigitChar(n / 10), DigitChar(n % 10)]
  }

  /** A four-digit, zero-padded decimal numeral (`%Y`). */
  function Pad4(n: int): (s: string)
    requires 0 <= n <= 9999
    ensures |s| == 4 && IsDigit(s[0]) && IsDigit(s[1]) && IsDigit(s[2]) && IsDigit(s[3])
    ensures Number4(s) == n
  {
    Pad2(n / 100) + Pad2(n % 100)
  }

  /** The shape of an ISO date: ten characters, dashes at 4 and 7, digits elsewhere. */
  predicate IsoShaped(s: string) {
    && |s| == 10
    && s[4] == '-' && s[7] == '-'
    && forall i :: 0 <= i < 10 && i != 4 && i != 7 ==> IsDigit(s[i])
  }

  /** `strftime('%Y-%m-%d')` of a timestamp's date. */
  function FormatDate(d: Date): (s: string)
    ensures IsoShaped(s)
  {
    Pad4(d.year) + "-" + Pad2(d.month) + "-" + Pad2(d.day)
  }

  /** Reads a `YYYY-MM-DD` string back into a date; the inverse of FormatDate. */
  function ParseDate(s: string): Option<Date> {
    if !IsoShaped(s) then None
    else
      var y, m, d := Number4(s[0..4]), Number2(s[5], s[6]), Number2(s[8], s[9]);
      if 1 <= m <= 12 && 1 <= d <= 31 then Some(Date(y, m, d)) else None
  }

  /** Rendering loses nothing: the date can be read back from its text. */
  lemma ParseFormattedDate(d: Date)
    ensures ParseDate(FormatDate(d)) == Some(d)
  {
  }

  /** Two dates render to the same text only when they are the same date. */
  lemma FormatDateInjective(d1: Date, d2: Date)
    ensures FormatDate(d1) == FormatDate(d2) ==> d1 == d2
  {
    ParseFormattedDate(d1);
    ParseFormattedDate(d2);
  }

  /** Every well-formed ISO date text is the rendering of the date it denotes. */
  lemma FormatParsedDate(s: string, d: Date)
    requires ParseDate(s) == Some(d)
    ensures FormatDate(d) == s
  {
    var ys, ms, ds := s[0..4], s[5..7], s[8..10];
    assert d.year == Number4(ys) && d.month == Number2(ms[0], ms[1]) && d.day == Number2(ds[0], ds[1]);
    Pad4OfDigits(ys);
    Pad2OfDigits(ms);
    Pad2OfDigits(ds);
    assert s == ys + "-" + ms + "-" + ds;
  }

  lemma Pad2OfDigits(t: string)
    requires |t| == 2 && IsDigit(t[0]) && IsDigit(t[1])
    ensures Pad2(Number2(t[0], t[1])) == t
  {
    var a, b := DigitValue(t[0]), DigitValue(t[1]);
    assert (10 * a + b) / 10 == a && (10 * a + b) % 10 == b;
    DigitRoundTrip(t[0]);
    DigitRoundTrip(t[1]);
  }

  lemma Pad4OfDigits(t: string)
    requires |t| == 4 && IsDigit(t[0]) && IsDigit(t[1]) && IsDigit(t[2]) && IsDigit(t[3])
    ensures Pad4(Number4(t)) == t
  {
    var hi, lo := Number2(t[0], t[1]), Number2(t[2], t[3]);
    assert (100 * hi + lo) / 100 == hi && (100 * hi + lo) % 100 == lo;
    Pad2OfDigits(t[0..2]);
    Pad2OfDigits(t[2..4]);
    assert t == t[0..2] + t[2..4];
  }

  lemma DigitRoundTrip(c: char)
    requires IsDigit(c)
    ensures DigitChar(DigitValue(c)) == c
  {
  }
}
