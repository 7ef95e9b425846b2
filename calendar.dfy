/**
 * Calendar dates as the app stores them (`YYYY-MM-DD` strings from a date input),
 * with the proleptic Gregorian day count that `Date.getTime()` orders them by.
 * Time of day and time zones are not modelled: a date is a whole day.
 */
module Calendar {

  type Month = m: int | 1 <= m <= 12 witness 1
  type Day = d: int | 1 <= d <= 31 witness 1

  datatype Date = Date(year: int, month: Month, day: Day)

  predicate IsLeapYear(y: int) {
    y % 4 == 0 && (y % 100 != 0 || y % 400 == 0)
  }

  function DaysInMonth(y: int, m: Month): int {
    if m == 2 then (if IsLeapYear(y) then 29 else 28)
    else if m == 4 || m == 6 || m == 9 || m == 11 then 30
    else 31
  }

  /** A date that exists in the calendar (no 30 February). */
  predicate ValidDate(d: Date) {
    d.day <= DaysInMonth(d.year, d.month)
  }

  function YearLength(y: int): int {
    if IsLeapYear(y) then 366 else 365
  }

  /** Days in the years before `y`, counted from 1 January of year 0. */
  function DaysBeforeYear(y: int): int {
    365 * y + (y + 3) / 4 - (y + 99) / 100 + (y + 399) / 400
  }

  /** Days in the months of year `y` before month `m`. */
  function DaysBeforeMonth(y: int, m: Month): int {
    var common :=
      match m
      case 1 => 0 case 2 => 31 case 3 => 59 case 4 => 90
      case 5 => 120 case 6 => 151 case 7 => 181 case 8 => 212
      case 9 => 243 case 10 => 273 case 11 => 304 case _ => 334;
    common + (if m > 2 && IsLeapYear(y) then 1 else 0)
  }

  /** The number of the day, so that consecutive days have consecutive numbers. */
  function DayNumber(d: Date): int {
    DaysBeforeYear(d.year) + DaysBeforeMonth(d.year, d.month) + d.day - 1
  }

  /** The day before `d` (`date.setDate(date.getDate() - 1)`). */
  function PrevDay(d: Date): Date {
    if d.day > 1 then Date(d.year, d.month, d.day - 1)
    else if d.month > 1 then Date(d.year, d.month - 1, DaysInMonth(d.year, d.month - 1))
    else Date(d.year - 1, 12, 31)
  }

  /** The date `n` days before `d`. */
  function MinusDays(d: Date, n: nat): Date {
    if n == 0 then d else PrevDay(MinusDays(d, n - 1))
  }

  /** Month and day of a date, the key `${month + 1}/${day}` of a daily report bucket. */
  function MonthDay(d: Date): (int, int) {
    (d.month, d.day)
  }

  /** Consecutive years are `YearLength` days apart. */
  lemma YearStep(y: int)
    ensures DaysBeforeYear(y + 1) == DaysBeforeYear(y) + YearLength(y)
  {
    CountStep4(y);
    CountStep100(y);
    CountStep400(y);
    DivisorsNest(y);
    var d4, d100, d400 := (y + 4) / 4 - (y + 3) / 4, (y + 100) / 100 - (y + 99) / 100, (y + 400) / 400 - (y + 399) / 400;
    assert DaysBeforeYear(y + 1) - DaysBeforeYear(y) == 365 + d4 - d100 + d400;
  }

  /** A multiple of 400 is a multiple of 100, and a multiple of 100 one of 4. */
  lemma DivisorsNest(y: int)
    ensures y % 400 == 0 ==> y % 100 == 0
    ensures y % 100 == 0 ==> y % 4 == 0
  {
    if y % 400 == 0 {
      var q := y / 400;
      assert y == 100 * (4 * q);
    }
    if y % 100 == 0 {
      var q := y / 100;
      assert y == 4 * (25 * q);
    }
  }

  /** Adding one year adds a leap day to the count of multiples of 4 exactly when `y` is one. */
  lemma CountStep4(y: int)
    ensures (y + 4) / 4 - (y + 3) / 4 == if y % 4 == 0 then 1 else 0
  {
    var q, r := y / 4, y % 4;
    assert (y + 4) / 4 == q + 1;
    assert (y + 3) / 4 == if r == 0 then q else q + 1;
  }

  lemma CountStep100(y: int)
    ensures (y + 100) / 100 - (y + 99) / 100 == if y % 100 == 0 then 1 else 0
  {
    var q, r := y / 100, y % 100;
    assert (y + 100) / 100 == q + 1;
    assert (y + 99) / 100 == if r == 0 then q else q + 1;
  }

  lemma CountStep400(y: int)
    ensures (y + 400) / 400 - (y + 399) / 400 == if y % 400 == 0 then 1 else 0
  {
    var q, r := y / 400, y % 400;
    assert (y + 400) / 400 == q + 1;
    assert (y + 399) / 400 == if r == 0 then q else q + 1;
  }

  lemma {:induction false} YearsApart(y1: int, y2: int)
    requires y1 <= y2
    ensures DaysBeforeYear(y2) - DaysBeforeYear(y1) >= 365 * (y2 - y1)
    decreases y2 - y1
  {
    if y1 < y2 {
      YearsApart(y1, y2 - 1);
      YearStep(y2 - 1);
    }
  }

  lemma DayOfYearBounds(d: Date)
    requires ValidDate(d)
    ensures 0 <= DaysBeforeMonth(d.year, d.month) + d.day - 1 < YearLength(d.year)
  {
  }

  /** Stepping back one day lowers the day number by exactly one and stays in the calendar. */
  lemma PrevDayNumber(d: Date)
    requires ValidDate(d)
    ensures ValidDate(PrevDay(d))
    ensures DayNumber(PrevDay(d)) == DayNumber(d) - 1
  {
    if d.day == 1 && d.month == 1 {
      YearStep(d.year - 1);
    }
  }

  lemma {:induction false} MinusDaysNumber(d: Date, n: nat)
    requires ValidDate(d)
    ensures ValidDate(MinusDays(d, n))
    ensures DayNumber(MinusDays(d, n)) == DayNumber(d) - n
  {
    if n > 0 {
      MinusDaysNumber(d, n - 1);
      PrevDayNumber(MinusDays(d, n - 1));
    }
  }

  /** Within one year, day numbers follow (month, day) order. */
  lemma SameYearOrder(a: Date, b: Date)
    requires ValidDate(a) && ValidDate(b) && a.year == b.year
    requires a.month < b.month || (a.month == b.month && a.day < b.day)
    ensures DayNumber(a) < DayNumber(b)
  {
  }

  /** Day numbers follow calendar order, so distinct valid dates have distinct numbers. */
  lemma DayNumberOrder(a: Date, b: Date)
    requires ValidDate(a) && ValidDate(b)
    requires a.year < b.year || (a.year == b.year && (a.month < b.month || (a.month == b.month && a.day < b.day)))
    ensures DayNumber(a) < DayNumber(b)
  {
    if a.year < b.year {
      YearsApart(a.year + 1, b.year);
      YearStep(a.year);
      DayOfYearBounds(a);
    } else {
      SameYearOrder(a, b);
    }
  }

  lemma DayNumberInjective(a: Date, b: Date)
    requires ValidDate(a) && ValidDate(b)
    requires DayNumber(a) == DayNumber(b)
    ensures a == b
  {
    if a.year < b.year || (a.year == b.year && (a.month < b.month || (a.month == b.month && a.day < b.day))) {
      DayNumberOrder(a, b);
    } else if b.year < a.year || (a.year == b.year && (b.month < a.month || (a.month == b.month && b.day < a.day))) {
      DayNumberOrder(b, a);
    }
  }

  /** The same month and day in two different years lie at least 364 days apart. */
  lemma SameMonthDayFarApart(a: Date, b: Date)
    requires ValidDate(a) && ValidDate(b) && MonthDay(a) == MonthDay(b)
    requires a.year < b.year
    ensures DayNumber(b) - DayNumber(a) >= 364
  {
    YearsApart(a.year, b.year);
  }

  /** Two valid dates between 1 and 363 days apart never share month and day. */
  lemma NearDatesDifferInMonthDay(a: Date, b: Date)
    requires ValidDate(a) && ValidDate(b)
    requires 1 <= DayNumber(b) - DayNumber(a) <= 363
    ensures MonthDay(a) != MonthDay(b)
  {
    if MonthDay(a) == MonthDay(b) {
      if a.year < b.year {
        SameMonthDayFarApart(a, b);
      } else if b.year < a.year {
        SameMonthDayFarApart(b, a);
      }
    }
  }
}
