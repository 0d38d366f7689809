/**
  The proleptic Gregorian calendar that pandas timestamps follow, reduced to
  what the scripts use. A day is an ordinal date: a year and a 0-based day of
  that year. Day numbers (whole days since 0001-01-01) give the distance and
  order of days; a calendar date (year, month, day of month) is what gets
  written out.
 */
module Calendar {

  predicate IsLeap(y: int) {
    y % 4 == 0 && (y % 100 != 0 || y % 400 == 0)
  }

  function DaysInYear(y: int): nat {
    if IsLeap(y) then 366 else 365
  }

  function DaysInMonth(y: int, m: int): nat
    requires 1 <= m <= 12
  {
    if m == 2 then (if IsLeap(y) then 29 else 28)
    else if m == 4 || m == 6 || m == 9 || m == 11 then 30
    else 31
  }

  /** Days of year y that lie before the first day of month m; month 13 stands for the year's end. */
  function MonthStart(y: int, m: int): nat
    requires 1 <= m <= 13
  {
    var leap := if IsLeap(y) && m > 2 then 1 else 0;
    leap +
    if m <= 6 then
      (if m == 1 then 0 else if m == 2 then 31 else if m == 3 then 59
       else if m == 4 then 90 else if m == 5 then 120 else 151)
    else
      (if m == 7 then 181 else if m == 8 then 212 else if m == 9 then 243
       else if m == 10 then 273 else if m == 11 then 304 else if m == 12 then 334 else 365)
  }

  lemma MonthStartStep(y: int, m: int)
    requires 1 <= m <= 12
    ensures MonthStart(y, m + 1) == MonthStart(y, m) + DaysInMonth(y, m)
  {
  }

  lemma MonthStartBounds(y: int, m: int)
    requires 1 <= m <= 13
    ensures MonthStart(y, m) <= MonthStart(y, 13) == DaysInYear(y)
  {
  }

  /** An ordinal date: `doy` is the 0-based day of the year (1 January is 0). */
  datatype Day = Day(year: int, doy: int)

  predicate ValidDay(d: Day) {
    1 <= d.year && 0 <= d.doy < DaysInYear(d.year)
  }

  /** A calendar date, as `%Y`, `%m` and `%d` print it. */
  datatype Date = Date(year: int, month: int, day: int)

  predicate ValidDate(d: Date) {
    1 <= d.year && 1 <= d.month <= 12 && 1 <= d.day <= DaysInMonth(d.year, d.month)
  }

  /** The month containing day-of-year doy. */
  function MonthOf(y: int, doy: int): (m: int)
    requires 0 <= doy < DaysInYear(y)
    ensures 1 <= m <= 12 && MonthStart(y, m) <= doy < MonthStart(y, m + 1)
  {
    if doy < MonthStart(y, 7) then
      (if doy < MonthStart(y, 2) then 1 else if doy < MonthStart(y, 3) then 2
       else if doy < MonthStart(y, 4) then 3 else if doy < MonthStart(y, 5) then 4
       else if doy < MonthStart(y, 6) then 5 else 6)
    else
      (if doy < MonthStart(y, 8) then 7 else if doy < MonthStart(y, 9) then 8
       else if doy < MonthStart(y, 10) then 9 else if doy < MonthStart(y, 11) then 10
       else if doy < MonthStart(y, 12) then 11 else 12)
  }

  lemma MonthUnique(y: int, doy: int, m1: int, m2: int)
    requires 1 <= m1 <= 12 && 1 <= m2 <= 12
    requires MonthStart(y, m1) <= doy < MonthStart(y, m1 + 1)
    requires MonthStart(y, m2) <= doy < MonthStart(y, m2 + 1)
    ensures m1 == m2
  {
  }

  /** The calendar date of an ordinal date. */
  function DateOf(d: Day): (r: Date)
    requires ValidDay(d)
    ensures ValidDate(r) && r.year == d.year
  {
    var m := MonthOf(d.year, d.doy);
    MonthStartStep(d.year, m);
    Date(d.year, m, d.doy - MonthStart(d.year, m) + 1)
  }

  /** The ordinal date of a calendar date. */
  function DayOf(r: Date): (d: Day)
    requires ValidDate(r)
    ensures ValidDay(d) && d.year == r.year
  {
    MonthStartStep(r.year, r.month);
    MonthStartBounds(r.year, r.month + 1);
    Day(r.year, MonthStart(r.year, r.month) + r.day - 1)
  }

  /** Calendar dates and ordinal dates are two spellings of the same day. */
  lemma DateDayRoundTrip(r: Date)
    requires ValidDate(r)
    ensures DateOf(DayOf(r)) == r
  {
    var d := DayOf(r);
    var e := DateOf(d);
    MonthStartStep(r.year, r.month);
    MonthStartStep(r.year, e.month);
    MonthUnique(r.year, d.doy, r.month, e.month);
  }

  lemma DayDateRoundTrip(d: Day)
    requires ValidDay(d)
    ensures DayOf(DateOf(d)) == d
  {
  }

  /** The first and last day of a year. */
  function NewYear(y: int): Day { Day(y, 0) }
  function YearEnd(y: int): Day { Day(y, DaysInYear(y) - 1) }

  lemma YearBoundaryDates(y: int)
    requires 1 <= y
    ensures DateOf(NewYear(y)) == Date(y, 1, 1) && DateOf(YearEnd(y)) == Date(y, 12, 31)
  {
  }

  // ---------------------------------------------------------------------------
  // Day numbers: the distance and order of days
  // ---------------------------------------------------------------------------

  /** Day number of 1 January of year y: the days of all earlier years, leap days included. */
  function YearStart(y: int): int
    requires 1 <= y
  {
    var k := y - 1;
    365 * k + k / 4 - k / 100 + k / 400
  }

  /** Going from y - 1 to y adds one multiple of q exactly when q divides y. */
  lemma MultiplesUpTo(y: int, q: int)
    requires 1 <= y && (q == 4 || q == 100 || q == 400)
    ensures y / q - (y - 1) / q == if y % q == 0 then 1 else 0
  {
    if q == 4 {
      var a, b := (y - 1) / 4, (y - 1) % 4;
      if b == 3 { assert y == 4 * (a + 1); } else { assert y == 4 * a + (b + 1); }
    } else if q == 100 {
      var a, b := (y - 1) / 100, (y - 1) % 100;
      if b == 99 { assert y == 100 * (a + 1); } else { assert y == 100 * a + (b + 1); }
    } else {
      var a, b := (y - 1) / 400, (y - 1) % 400;
      if b == 399 { assert y == 400 * (a + 1); } else { assert y == 400 * a + (b + 1); }
    }
  }

  /** Consecutive years are DaysInYear apart: the closed form counts leap days correctly. */
  lemma YearStartStep(y: int)
    requires 1 <= y
    ensures YearStart(y + 1) == YearStart(y) + DaysInYear(y)
  {
    MultiplesUpTo(y, 4);
    MultiplesUpTo(y, 100);
    MultiplesUpTo(y, 400);
    DivisorsOfLeapYears(y);
    var leap4, leap100, leap400 := y / 4 - (y - 1) / 4, y / 100 - (y - 1) / 100, y / 400 - (y - 1) / 400;
    assert YearStart(y + 1) - YearStart(y) == 365 + leap4 - leap100 + leap400;
  }

  /** A multiple of 400 is a multiple of 100, and a multiple of 100 is a multiple of 4. */
  lemma DivisorsOfLeapYears(y: int)
    ensures y % 400 == 0 ==> y % 100 == 0
    ensures y % 100 == 0 ==> y % 4 == 0
  {
    if y % 400 == 0 {
      MultipleOfMultiple(y, 400, 100);
    }
    if y % 100 == 0 {
      MultipleOfMultiple(y, 100, 4);
    }
  }

  lemma MultipleOfMultiple(y: int, big: int, small: int)
    requires (big == 400 && small == 100) || (big == 100 && small == 4)
    requires y % big == 0
    ensures y % small == 0
  {
    var q := y / big;
    assert y == big * q;
    var m := (big / small) * q;
    assert y == small * m;
  }

  lemma {:induction false} YearStartMonotone(a: int, b: int)
    requires 1 <= a <= b
    ensures YearStart(a) + 365 * (b - a) <= YearStart(b)
    decreases b - a
  {
    if a < b {
      YearStartMonotone(a, b - 1);
      YearStartStep(b - 1);
    }
  }

  function DayNumber(d: Day): int
    requires 1 <= d.year
  {
    YearStart(d.year) + d.doy
  }

  /** `a <= b` on timestamps at midnight: an earlier year, or the same year and not a later day. */
  predicate NotAfter(a: Day, b: Day) {
    a.year < b.year || (a.year == b.year && a.doy <= b.doy)
  }

  /** `a < b` on timestamps at midnight. */
  predicate Before(a: Day, b: Day) {
    a.year < b.year || (a.year == b.year && a.doy < b.doy)
  }

  /** Comparing ordinal dates is comparing their day numbers. */
  lemma NotAfterIsDayOrder(a: Day, b: Day)
    requires ValidDay(a) && ValidDay(b)
    ensures NotAfter(a, b) <==> DayNumber(a) <= DayNumber(b)
  {
    YearStartStep(a.year);
    YearStartStep(b.year);
    if a.year < b.year {
      YearStartMonotone(a.year + 1, b.year);
    } else if b.year < a.year {
      YearStartMonotone(b.year + 1, a.year);
    }
  }

  /** Distinct valid days have distinct day numbers. */
  lemma DayNumberInjective(a: Day, b: Day)
    requires ValidDay(a) && ValidDay(b) && DayNumber(a) == DayNumber(b)
    ensures a == b
  {
    NotAfterIsDayOrder(a, b);
    NotAfterIsDayOrder(b, a);
  }

  /** The day after d. */
  function NextDay(d: Day): (e: Day)
    requires ValidDay(d)
    ensures ValidDay(e)
  {
    if d.doy + 1 < DaysInYear(d.year) then Day(d.year, d.doy + 1) else NewYear(d.year + 1)
  }

  lemma NextDayNumber(d: Day)
    requires ValidDay(d)
    ensures DayNumber(NextDay(d)) == DayNumber(d) + 1
  {
    YearStartStep(d.year);
  }

  /** `d + pd.Timedelta(days=k)`. */
  function AddDays(d: Day, k: nat): (e: Day)
    requires ValidDay(d)
    ensures ValidDay(e)
    decreases k
  {
    if k == 0 then d else AddDays(NextDay(d), k - 1)
  }

  /** Adding k days moves the day number by k. */
  lemma {:induction false} AddDaysNumber(d: Day, k: nat)
    requires ValidDay(d)
    ensures DayNumber(AddDays(d, k)) == DayNumber(d) + k
    decreases k
  {
    if k > 0 {
      NextDayNumber(d);
      AddDaysNumber(NextDay(d), k - 1);
    }
  }

  // ---------------------------------------------------------------------------
  // The pandas timestamp range
  // ---------------------------------------------------------------------------

  /** The first and last whole day of the pandas timestamp range: 1677-09-22 and 2262-04-11. */
  const FirstTimestampDay: Day := Day(1677, 264)
  const LastTimestampDay: Day := Day(2262, 100)

  lemma TimestampRangeDates()
    ensures DateOf(FirstTimestampDay) == Date(1677, 9, 22)
    ensures DateOf(LastTimestampDay) == Date(2262, 4, 11)
  {
  }

  predicate InTimestampRange(d: Day) {
    ValidDay(d) && NotAfter(FirstTimestampDay, d) && NotAfter(d, LastTimestampDay)
  }
}
