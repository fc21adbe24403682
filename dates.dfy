/**
 * Calendar dates of the proleptic Gregorian calendar (ISO 8601:2004, section 3.2.1)
 * and the strict `dd/MM/uuuu` text form the flight search parses its dates from.
 *
 * This module stands in for the parts of java.time the flight search uses:
 * a `LocalDate` is a `Date` satisfying `ValidDate`, `LocalDate.parse` with the
 * strict `dd/MM/uuuu` formatter is `ParseStrict`, and `LocalDate.isBefore` is
 * `IsBefore`.
 */
module Dates {
  import opened Wrappers

  datatype Date = Date(year: int, month: int, day: int)

  // ---------------------------------------------------------------------------
  // The calendar

  /** Gregorian leap years: divisible by 4, except centuries not divisible by 400. */
  predicate IsLeapYear(y: int) {
    y % 4 == 0 && (y % 100 != 0 || y % 400 == 0)
  }

  /** The length of year `y`. */
  function DaysInYear(y: int): (n: int)
    ensures n == 365 || n == 366
    ensures n == 366 <==> IsLeapYear(y)
  {
    if IsLeapYear(y) then 366 else 365
  }

  /** The length of month `m` in year `y`. */
  function DaysInMonth(y: int, m: int): (n: int)
    requires 1 <= m <= 12
    ensures 28 <= n <= 31
    ensures n == 29 <==> m == 2 && IsLeapYear(y)
    ensures m == 2 && !IsLeapYear(y) <==> n == 28
  {
    if m == 2 then (if IsLeapYear(y) then 29 else 28)
    else if m == 4 || m == 6 || m == 9 || m == 11 then 30
    else 31
  }

  /** A real calendar date: a month of the year and a day that month has. */
  predicate ValidDate(d: Date) {
    1 <= d.month <= 12 && 1 <= d.day <= DaysInMonth(d.year, d.month)
  }

  // ---------------------------------------------------------------------------
  // Order


  /** The number of days from 1 January of year 0 to 1 January of year `y` (negative for `y < 0`). */
  function DaysBeforeYear(y: int): int
    decreases if y < 0 then -y else y
  {
    if y == 0 then 0
    else if y > 0 then DaysBeforeYear(y - 1) + DaysInYear(y - 1)
    else DaysBeforeYear(y + 1) - DaysInYear(y)
  }

  /** The number of days of year `y` that lie before the first of month `m`. */
  function DaysBeforeMonth(y: int, m: int): (n: int)
    requires 1 <= m <= 12
    ensures 0 <= n && n + DaysInMonth(y, m) <= DaysInYear(y)
  {
    [0, 31, 59, 90, 120, 151, 181, 212, 243, 273, 304, 334][m - 1]
      + (if m > 2 && IsLeapYear(y) then 1 else 0)
  }

  /** The position of a date on the time line: days since 1 January of year 0. */
  function DayIndex(d: Date): int
    requires 1 <= d.month <= 12
  {
    DaysBeforeYear(d.year) + DaysBeforeMonth(d.year, d.month) + d.day - 1
  }

  lemma DaysBeforeYearStep(y: int)
    ensures DaysBeforeYear(y + 1) == DaysBeforeYear(y) + DaysInYear(y)
  {
  }

  /** A whole year `y1` fits before the start of every later year `y2`. */
  lemma {:induction false} YearsAreOrdered(y1: int, y2: int)
    requires y1 < y2
    ensures DaysBeforeYear(y1) + DaysInYear(y1) <= DaysBeforeYear(y2)
    decreases y2 - y1
  {
    DaysBeforeYearStep(y1);
    if y1 + 1 < y2 {
      YearsAreOrdered(y1 + 1, y2);
    }
  }

  /** Each month of the table starts where the month before it ends. */
  lemma MonthStep(y: int, m: int)
    requires 1 <= m < 12
    ensures DaysBeforeMonth(y, m + 1) == DaysBeforeMonth(y, m) + DaysInMonth(y, m)
  {
  }

  /** The twelve months fill the year exactly. */
  lemma MonthsFillYear(y: int)
    ensures DaysBeforeMonth(y, 12) + DaysInMonth(y, 12) == DaysInYear(y)
  {
  }

  /** Within one year, a whole month `m1` fits before the start of every later month `m2`. */
  lemma MonthsAreOrdered(y: int, m1: int, m2: int)
    requires 1 <= m1 < m2 <= 12
    ensures DaysBeforeMonth(y, m1) + DaysInMonth(y, m1) <= DaysBeforeMonth(y, m2)
  {
  }

  /**
   * `LocalDate.isBefore`: `a` comes strictly before `b`, comparing the year
   * first, then the month, then the day. On real dates this is the order of
   * the time line.
   */
  function IsBefore(a: Date, b: Date): (r: bool)
    ensures ValidDate(a) && ValidDate(b) ==> (r <==> DayIndex(a) < DayIndex(b))
  {
    if a.year != b.year then
      if a.year < b.year then YearsAreOrdered(a.year, b.year); true
      else YearsAreOrdered(b.year, a.year); false
    else if a.month != b.month then
      if !(1 <= a.month <= 12 && 1 <= b.month <= 12) then a.month < b.month
      else if a.month < b.month then MonthsAreOrdered(a.year, a.month, b.month); true
      else MonthsAreOrdered(a.year, b.month, a.month); false
    else a.day < b.day
  }

  /**
   * The lexicographic comparison of `IsBefore` is the chronological order:
   * one valid date is before another exactly when fewer days separate it from
   * the origin of the calendar.
   */
  lemma ChronologicalOrder(a: Date, b: Date)
    requires ValidDate(a) && ValidDate(b)
    ensures IsBefore(a, b) <==> DayIndex(a) < DayIndex(b)
    ensures a == b <==> DayIndex(a) == DayIndex(b)
    ensures IsBefore(a, b) || a == b || IsBefore(b, a)
  {
    if a != b && !IsBefore(a, b) {
      assert IsBefore(b, a);
    }
  }

  // ---------------------------------------------------------------------------
  // Decimal digits

  predicate IsDigit(c: char) {
    '0' <= c <= '9'
  }

  predicate AllDigits(s: string) {
    forall i :: 0 <= i < |s| ==> IsDigit(s[i])
  }

  function DigitValue(c: char): (n: nat)
    requires IsDigit(c)
    ensures n < 10
  {
    c as int - '0' as int
  }

  function DigitChar(n: nat): (c: char)
    requires n < 10
    ensures IsDigit(c) && DigitValue(c) == n
  {
    ('0' as int + n) as char
  }

  function Pow10(k: nat): (p: nat)
    ensures p >= 1
  {
    if k == 0 then 1 else 10 * Pow10(k - 1)
  }

  /** The value of a string of decimal digits, most significant first. */
  function NumberValue(s: string): (n: nat)
    requires AllDigits(s)
    ensures n < Pow10(|s|)
  {
    if s == [] then 0 else 10 * NumberValue(s[..|s| - 1]) + DigitValue(s[|s| - 1])
  }

  /** The last `width` decimal digits of `n`, zero-padded on the left. */
  function Digits(n: nat, width: nat): (s: string)
    ensures |s| == width && AllDigits(s)
  {
    if width == 0 then [] else Digits(n / 10, width - 1) + [DigitChar(n % 10)]
  }

  /** Reading back the zero-padded digits of a number that fits the width gives the number. */
  lemma {:induction false} NumberOfDigits(n: nat, width: nat)
    requires n < Pow10(width)
    ensures NumberValue(Digits(n, width)) == n
  {
    if width > 0 {
      var s := Digits(n, width);
      assert s[..width - 1] == Digits(n / 10, width - 1);
      assert n / 10 < Pow10(width - 1);
      NumberOfDigits(n / 10, width - 1);
    }
  }

  /** Writing out the value of a digit string at its own width gives the string back. */
  lemma {:induction false} DigitsOfNumber(s: string)
    requires AllDigits(s)
    ensures Digits(NumberValue(s), |s|) == s
  {
    if s != [] {
      var k := |s| - 1;
      var init := s[..k];
      assert AllDigits(init) by {
        forall i | 0 <= i < |init| ensures IsDigit(init[i]) {
          assert init[i] == s[i];
        }
      }
      var n := NumberValue(s);
      var d := DigitValue(s[k]);
      assert n == 10 * NumberValue(init) + d;
      assert n / 10 == NumberValue(init) && n % 10 == d;
      DigitsOfNumber(init);
      assert DigitChar(d) == s[k];
      assert s == init + [s[k]];
    }
  }

  // ---------------------------------------------------------------------------
  // The strict `dd/MM/uuuu` text form

  /**
   * `LocalDate.parse(text, STRICT_DDMMYYYY)`: exactly two day digits, `/`,
   * two month digits, `/`, four year digits, and nothing else; the fields are
   * then resolved strictly, so a day the month does not have is refused rather
   * than rolled over into the next month.
   */
  function ParseStrict(text: string): (r: Option<Date>)
    ensures r.Some? ==> ValidDate(r.value) && 0 <= r.value.year < 10000
  {
    if |text| == 10 && text[2] == '/' && text[5] == '/'
       && AllDigits(text[..2]) && AllDigits(text[3..5]) && AllDigits(text[6..])
    then
      var date := Date(NumberValue(text[6..]), NumberValue(text[3..5]), NumberValue(text[..2]));
      if ValidDate(date) then Some(date) else None
    else None
  }

  /** `date.format(DateTimeFormatter.ofPattern("dd/MM/uuuu"))` for a four-digit year. */
  function Format(d: Date): (text: string)
    requires 0 <= d.year < 10000 && 0 <= d.month < 100 && 0 <= d.day < 100
    ensures |text| == 10 && text[2] == '/' && text[5] == '/'
    ensures AllDigits(text[..2]) && AllDigits(text[3..5]) && AllDigits(text[6..])
  {
    Digits(d.day, 2) + "/" + Digits(d.month, 2) + "/" + Digits(d.year, 4)
  }

  /**
   * The parser accepts the text of every date with a four-digit year exactly
   * when that date is real, and then returns that date.
   */
  lemma ParseFormat(d: Date)
    requires 0 <= d.year < 10000 && 0 <= d.month < 100 && 0 <= d.day < 100
    ensures ParseStrict(Format(d)) == if ValidDate(d) then Some(d) else None
  {
    var text := Format(d);
    assert text[..2] == Digits(d.day, 2);
    assert text[3..5] == Digits(d.month, 2);
    assert text[6..] == Digits(d.year, 4);
    NumberOfDigits(d.day, 2);
    NumberOfDigits(d.month, 2);
    NumberOfDigits(d.year, 4);
  }

  /**
   * The parser is strict about the text too: whatever it accepts is exactly
   * the canonical text of the date it returns, so no two texts parse to one date.
   */
  lemma FormatParse(text: string)
    requires ParseStrict(text).Some?
    ensures Format(ParseStrict(text).value) == text
  {
    var d := ParseStrict(text).value;
    DigitsOfNumber(text[..2]);
    DigitsOfNumber(text[3..5]);
    DigitsOfNumber(text[6..]);
    assert text == text[..2] + "/" + text[3..5] + "/" + text[6..];
  }

  /** 29 February parses exactly in the leap years. */
  lemma LeapDay(y: int)
    requires 0 <= y < 10000
    ensures ParseStrict(Format(Date(y, 2, 29))).Some? <==> IsLeapYear(y)
  {
    ParseFormat(Date(y, 2, 29));
  }

  /** The value of two digits, written out. */
  lemma TwoDigitValue(s: string)
    requires |s| == 2 && AllDigits(s)
    ensures NumberValue(s) == 10 * DigitValue(s[0]) + DigitValue(s[1])
  {
  }

  /** The value of four digits, written out. */
  lemma FourDigitValue(s: string)
    requires |s| == 4 && AllDigits(s)
    ensures NumberValue(s) == 1000 * DigitValue(s[0]) + 100 * DigitValue(s[1])
                              + 10 * DigitValue(s[2]) + DigitValue(s[3])
  {
    assert AllDigits(s[..3]) && AllDigits(s[..3][..2]);
    TwoDigitValue(s[..3][..2]);
  }

  /** The parser character by character: ten characters, digits around two slashes. */
  lemma ParseStrictByCharacter(text: string)
    requires |text| == 10
    ensures ParseStrict(text) ==
      if && IsDigit(text[0]) && IsDigit(text[1]) && text[2] == '/'
         && IsDigit(text[3]) && IsDigit(text[4]) && text[5] == '/'
         && IsDigit(text[6]) && IsDigit(text[7]) && IsDigit(text[8]) && IsDigit(text[9])
      then
        var d := Date(1000 * DigitValue(text[6]) + 100 * DigitValue(text[7])
                      + 10 * DigitValue(text[8]) + DigitValue(text[9]),
                      10 * DigitValue(text[3]) + DigitValue(text[4]),
                      10 * DigitValue(text[0]) + DigitValue(text[1]));
        if ValidDate(d) then Some(d) else None
      else None
  {
    var dd, mm, yyyy := text[..2], text[3..5], text[6..];
    if AllDigits(dd) && AllDigits(mm) && AllDigits(yyyy) {
      TwoDigitValue(dd);
      TwoDigitValue(mm);
      FourDigitValue(yyyy);
    } else {
      assert !IsDigit(dd[0]) || !IsDigit(dd[1]) || !IsDigit(mm[0]) || !IsDigit(mm[1])
          || !IsDigit(yyyy[0]) || !IsDigit(yyyy[1]) || !IsDigit(yyyy[2]) || !IsDigit(yyyy[3]);
    }
  }

  /** 2100 is a century year not divisible by 400, so its 29 February does not exist. */
  lemma LeapDayOf2100()
    ensures ParseStrict("29/02/2100") == None
  {
    ParseStrictByCharacter("29/02/2100");
  }

  /** 2104 is a leap year, so its 29 February exists. */
  lemma LeapDayOf2104()
    ensures ParseStrict("29/02/2104") == Some(Date(2104, 2, 29))
  {
    ParseStrictByCharacter("29/02/2104");
  }
}
