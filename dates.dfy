/** Collection dates: the `dddd-dd-dd` shape both scripts test with a regular expression,
    the year/month/day triple it encodes, and the calendar check that `strptime` performs. */
module Dates {

  /** A calendar date as `strptime(s, "%Y-%m-%d")` reads it. */
  datatype Date = Date(year: nat, month: nat, day: nat)

  /** An ASCII decimal digit (the model's reading of the regular expression's `\d`). */
  predicate IsDigit(c: char)
  {
    '0' <= c <= '9'
  }

  predicate AllDigits(s: string)
  {
    forall i :: 0 <= i < |s| ==> IsDigit(s[i])
  }

  /** The regular expression `^\d\d\d\d\-\d\d\-\d\d$`: four digits, a dash, two digits,
      a dash, two digits, and nothing else. */
  predicate IsDatePattern(s: string)
  {
    && |s| == 10
    && AllDigits(s[0..4]) && s[4] == '-'
    && AllDigits(s[5..7]) && s[7] == '-'
    && AllDigits(s[8..10])
  }

  function Pow10(n: nat): (p: nat)
    ensures p >= 1
  {
    if n == 0 then 1 else 10 * Pow10(n - 1)
  }

  /** The number a string of decimal digits spells, most significant digit first. */
  function DigitsValue(s: string): (v: nat)
    requires AllDigits(s)
    ensures v < Pow10(|s|)
  {
    if s == [] then 0
    else DigitsValue(s[..|s| - 1]) * 10 + (s[|s| - 1] as int - '0' as int)
  }

  /** `n` written with exactly `width` decimal digits, zero-padded on the left. */
  function Pad(n: nat, width: nat): (s: string)
    ensures |s| == width && AllDigits(s)
  {
    if width == 0 then ""
    else Pad(n / 10, width - 1) + [('0' as int + n % 10) as char]
  }

  /** Reading back a padded number gives the number, when it fits in the width. */
  lemma {:induction false} DigitsValuePad(n: nat, width: nat)
    requires n < Pow10(width)
    ensures DigitsValue(Pad(n, width)) == n
  {
    if width > 0 {
      assert n / 10 < Pow10(width - 1);
      DigitsValuePad(n / 10, width - 1);
      var s := Pad(n, width);
      assert s[..|s| - 1] == Pad(n / 10, width - 1);
    }
  }

  /** Padding the value of a digit string to its own length gives the string back. */
  lemma {:induction false} PadDigitsValue(s: string)
    requires AllDigits(s)
    ensures Pad(DigitsValue(s), |s|) == s
    decreases |s|
  {
    if s != [] {
      var init := s[..|s| - 1];
      PadDigitsValue(init);
      var v := DigitsValue(s);
      var d := s[|s| - 1] as int - '0' as int;
      assert v / 10 == DigitsValue(init) && v % 10 == d;
      assert s == init + [s[|s| - 1]];
    }
  }

  /** The year, month and day groups of a string of the date shape. */
  function ParseDate(s: string): (d: Date)
    requires IsDatePattern(s)
    ensures d.year < 10000 && d.month < 100 && d.day < 100
  {
    Date(DigitsValue(s[0..4]), DigitsValue(s[5..7]), DigitsValue(s[8..10]))
  }

  /** A date written as `YYYY-MM-DD` with zero padding. */
  function FormatDate(d: Date): (s: string)
    requires d.year < 10000 && d.month < 100 && d.day < 100
    ensures IsDatePattern(s)
  {
    Pad(d.year, 4) + "-" + Pad(d.month, 2) + "-" + Pad(d.day, 2)
  }

  /** A string of the date shape is its three digit groups joined by dashes. */
  lemma DatePatternGroups(s: string)
    requires IsDatePattern(s)
    ensures s == s[0..4] + "-" + s[5..7] + "-" + s[8..10]
  {
    var t := s[0..4] + "-" + s[5..7] + "-" + s[8..10];
    assert |t| == |s|;
    forall i | 0 <= i < |s| ensures s[i] == t[i] {
      if i < 4 {
        assert t[i] == s[0..4][i];
      } else if i == 4 {
      } else if i < 7 {
        assert t[i] == s[5..7][i - 5];
      } else if i == 7 {
      } else {
        assert t[i] == s[8..10][i - 8];
      }
    }
  }

  /** Every string of the date shape is the formatting of the triple it encodes. */
  lemma FormatParseDate(s: string)
    requires IsDatePattern(s)
    ensures FormatDate(ParseDate(s)) == s
  {
    var y, m, d := s[0..4], s[5..7], s[8..10];
    PadDigitsValue(y);
    PadDigitsValue(m);
    PadDigitsValue(d);
    DatePatternGroups(s);
    assert FormatDate(ParseDate(s)) == y + "-" + m + "-" + d;
  }

  /** Parsing a formatted date gives the date back, so the shape and the triples with a
      four-digit year and two-digit month and day are in one-to-one correspondence. */
  lemma ParseFormatDate(d: Date)
    requires d.year < 10000 && d.month < 100 && d.day < 100
    ensures ParseDate(FormatDate(d)) == d
  {
    var s := FormatDate(d);
    assert s[0..4] == Pad(d.year, 4);
    assert s[5..7] == Pad(d.month, 2);
    assert s[8..10] == Pad(d.day, 2);
    DigitsValuePad(d.year, 4);
    DigitsValuePad(d.month, 2);
    DigitsValuePad(d.day, 2);
  }

  /** The Gregorian leap-year rule that Python's `datetime` uses. */
  predicate IsLeapYear(year: nat)
  {
    year % 4 == 0 && (year % 100 != 0 || year % 400 == 0)
  }

  function DaysInMonth(year: nat, month: nat): (n: nat)
    requires 1 <= month <= 12
    ensures 28 <= n <= 31
  {
    if month == 2 then (if IsLeapYear(year) then 29 else 28)
    else if month in {4, 6, 9, 11} then 30
    else 31
  }

  /** The triples `datetime` accepts: a year from 1 on, a month from 1 to 12 and a day
      within that month. */
  predicate IsCalendarDate(d: Date)
  {
    1 <= d.year && 1 <= d.month <= 12 && 1 <= d.day <= DaysInMonth(d.year, d.month)
  }

  /** The shape test makes no calendar check: `2021-13-99` has the shape but is not a calendar
      date, while `2021-4-28` and `04/28/2021` lack the shape. */
  lemma DatePatternExamples()
    ensures IsDatePattern("2021-04-28")
    ensures IsDatePattern("2021-13-99")
    ensures !IsDatePattern("2021-4-28")
    ensures !IsDatePattern("04/28/2021")
    ensures !IsCalendarDate(ParseDate("2021-13-99"))
  {
    var s := "2021-13-99";
    assert s[0..4] == "2021" && s[5..7] == "13" && s[8..10] == "99";
    assert DigitsValue("13") == 13 by {
      assert "13"[..1] == "1";
    }
  }
}
