/**
 The proleptic Gregorian calendar on time values, as section 21.4.1 of ECMA-262 defines it: a time
 value counts milliseconds from 1970-01-01T00:00:00Z, and all dates here are UTC dates.
 */
module Calendar {

  const MS_PER_DAY: int := 86_400_000

  function Day(t: int): int {
    t / MS_PER_DAY
  }

  function TimeWithinDay(t: int): int {
    t % MS_PER_DAY
  }

  predicate IsLeap(y: int) {
    y % 4 == 0 && (y % 100 != 0 || y % 400 == 0)
  }

  function DaysInYear(y: int): int {
    if IsLeap(y) then 366 else 365
  }

  /** The day number of 1 January of year `y`. */
  function DayFromYear(y: int): int {
    365 * (y - 1970) + (y - 1969) / 4 - (y - 1901) / 100 + (y - 1601) / 400
  }

  predicate IsMonth(m: int) {
    0 <= m < 12
  }

  /** Months count from 0, as in JavaScript. */
  function DaysInMonth(y: int, m: int): int
    requires IsMonth(m)
  {
    if m == 1 then (if IsLeap(y) then 29 else 28)
    else if m == 3 || m == 5 || m == 8 || m == 10 then 30
    else 31
  }

  /** Days of year `y` that lie before month `m`. */
  function DaysBeforeMonth(y: int, m: int): int
    requires 0 <= m <= 12
    decreases m
  {
    if m == 0 then 0 else DaysBeforeMonth(y, m - 1) + DaysInMonth(y, m - 1)
  }

  datatype Date = Date(year: int, month: int, day: int) {
    predicate Valid() {
      IsMonth(month) && 1 <= day <= DaysInMonth(year, month)
    }

    predicate Before(that: Date) {
      || year < that.year
      || (year == that.year && month < that.month)
      || (year == that.year && month == that.month && day < that.day)
    }
  }

  function FirstOfMonth(y: int, m: int): int
    requires IsMonth(m)
  {
    DayFromYear(y) + DaysBeforeMonth(y, m)
  }

  function DayNumber(d: Date): int
    requires d.Valid()
  {
    FirstOfMonth(d.year, d.month) + d.day - 1
  }

  /** Section 21.4.1.28 (MakeDay): month and day may lie outside their usual ranges and carry over. */
  function MakeDay(year: int, month: int, day: int): int {
    FirstOfMonth(year + month / 12, month % 12) + day - 1
  }

  // ---- Years ------------------------------------------------------------------------------------

  lemma FourthYears(y: int)
    ensures (y - 1968) / 4 - (y - 1969) / 4 == if y % 4 == 0 then 1 else 0
  {
  }

  lemma Centuries(y: int)
    ensures (y - 1900) / 100 - (y - 1901) / 100 == if y % 100 == 0 then 1 else 0
  {
  }

  lemma FourthCenturies(y: int)
    ensures (y - 1600) / 400 - (y - 1601) / 400 == if y % 400 == 0 then 1 else 0
  {
  }

  lemma CenturyYears(y: int)
    ensures y % 400 == 0 ==> y % 100 == 0
    ensures y % 100 == 0 ==> y % 4 == 0
  {
  }

  lemma YearLength(y: int)
    ensures DayFromYear(y + 1) == DayFromYear(y) + DaysInYear(y)
  {
    FourthYears(y);
    Centuries(y);
    FourthCenturies(y);
    CenturyYears(y);
  }

  lemma {:induction false} YearsAscend(y: int, z: int)
    requires y < z
    ensures DayFromYear(y) + DaysInYear(y) <= DayFromYear(z)
    decreases z - y
  {
    YearLength(y);
    if y + 1 < z {
      YearsAscend(y + 1, z);
    }
  }

  function YearAtOrAfter(n: int, y: int): (r: int)
    requires DayFromYear(y) <= n
    ensures DayFromYear(r) <= n < DayFromYear(r) + DaysInYear(r)
    decreases n - DayFromYear(y)
  {
    YearLength(y);
    if n < DayFromYear(y) + DaysInYear(y) then y else YearAtOrAfter(n, y + 1)
  }

  function YearBefore(n: int, y: int): (r: int)
    requires n < DayFromYear(y)
    ensures DayFromYear(r) <= n < DayFromYear(r) + DaysInYear(r)
    decreases DayFromYear(y) - n
  {
    YearLength(y - 1);
    if DayFromYear(y - 1) <= n then y - 1 else YearBefore(n, y - 1)
  }

  /** The year that holds day `n`: the largest year that begins at or before it. */
  function YearFromDay(n: int): (y: int)
    ensures DayFromYear(y) <= n < DayFromYear(y) + DaysInYear(y)
  {
    if DayFromYear(1970) <= n then YearAtOrAfter(n, 1970) else YearBefore(n, 1970)
  }

  // ---- Months -----------------------------------------------------------------------------------

  lemma MonthsFillYear(y: int)
    ensures DaysBeforeMonth(y, 12) == DaysInYear(y)
  {
    assert DaysBeforeMonth(y, 4) == DaysInYear(y) - 245;
    assert DaysBeforeMonth(y, 8) == DaysInYear(y) - 122;
  }

  lemma {:induction false} MonthsAscend(y: int, m: int, n: int)
    requires 0 <= m < n <= 12
    ensures DaysBeforeMonth(y, m) + DaysInMonth(y, m) <= DaysBeforeMonth(y, n)
    decreases n - m
  {
    if m + 1 < n {
      MonthsAscend(y, m, n - 1);
    }
  }

  /** The month of year `y`, at or after `m`, whose days include offset `k`. */
  function MonthFromOffset(y: int, k: int, m: int): (r: int)
    requires 0 <= m < 12
    requires DaysBeforeMonth(y, m) <= k < DaysInYear(y)
    ensures IsMonth(r) && DaysBeforeMonth(y, r) <= k < DaysBeforeMonth(y, r) + DaysInMonth(y, r)
    decreases 12 - m
  {
    MonthsFillYear(y);
    if k < DaysBeforeMonth(y, m) + DaysInMonth(y, m) then m
    else
      assert DaysBeforeMonth(y, m + 1) <= k;
      MonthFromOffset(y, k, m + 1)
  }

  // ---- Dates and day numbers --------------------------------------------------------------------

  /** The date of day `n`; the left inverse of DayNumber, and by DateOfDayNumber its inverse. */
  function DateFromDay(n: int): (d: Date)
    ensures d.Valid() && DayNumber(d) == n
  {
    var y := YearFromDay(n);
    var k := n - DayFromYear(y);
    var m := MonthFromOffset(y, k, 0);
    Date(y, m, k - DaysBeforeMonth(y, m) + 1)
  }

  /** The date of a time value. */
  function DateOf(t: int): (d: Date)
    ensures d.Valid()
  {
    DateFromDay(Day(t))
  }

  /** Calendar order is day-number order, so a day number belongs to one date. */
  lemma DatesOrdered(d: Date, e: Date)
    requires d.Valid() && e.Valid()
    ensures d.Before(e) <==> DayNumber(d) < DayNumber(e)
    ensures DayNumber(d) == DayNumber(e) ==> d == e
  {
    DatesAscend(d, e);
    DatesAscend(e, d);
  }

  lemma DatesAscend(d: Date, e: Date)
    requires d.Valid() && e.Valid()
    ensures d.Before(e) ==> DayNumber(d) < DayNumber(e)
  {
    if d.year < e.year {
      YearsAscend(d.year, e.year);
      MonthsAscend(d.year, d.month, 12);
      MonthsFillYear(d.year);
      if 0 < e.month {
        MonthsAscend(e.year, 0, e.month);
      }
    } else if d.year == e.year && d.month < e.month {
      MonthsAscend(d.year, d.month, e.month);
    }
  }

  lemma DateOfDayNumber(d: Date)
    requires d.Valid()
    ensures DateFromDay(DayNumber(d)) == d
  {
    DatesOrdered(DateFromDay(DayNumber(d)), d);
  }

  /** Day 0 is 1970-01-01. */
  lemma Epoch()
    ensures DayNumber(Date(1970, 0, 1)) == 0 && DateOf(0) == Date(1970, 0, 1)
  {
    assert DayFromYear(1970) == 0 && DaysBeforeMonth(1970, 0) == 0;
    DateOfDayNumber(Date(1970, 0, 1));
    hide DateFromDay, DaysBeforeMonth, DayFromYear;
  }

  // ---- Day numbers in closed form ---------------------------------------------------------------

  /**
   The first day of a month, with the year taken from March: no table of month lengths and no test for
   leap years. Day 719468 lies between 0000-03-01 and 1970-01-01.
   */
  function FirstOfMonthClosed(y: int, m: int): int
    requires IsMonth(m)
  {
    var marchYear, marchMonth := if m < 2 then y - 1 else y, (m + 10) % 12;
    365 * marchYear + marchYear / 4 - marchYear / 100 + marchYear / 400 + (153 * marchMonth + 2) / 5 - 719_468
  }

  lemma {:induction false} MonthsClosed(y: int, m: int)
    requires IsMonth(m)
    ensures DaysBeforeMonth(y, m)
         == if m < 2 then 31 * m else (153 * (m - 2) + 2) / 5 + 59 + (if IsLeap(y) then 1 else 0)
  {
    if m > 0 {
      MonthsClosed(y, m - 1);
      if m > 2 {
        MonthLengthClosed(m - 1);
      }
    }
    hide IsLeap;
  }

  lemma MonthLengthClosed(m: int)
    requires 2 <= m <= 10
    ensures (153 * (m - 1) + 2) / 5 - (153 * (m - 2) + 2) / 5
         == if m == 3 || m == 5 || m == 8 || m == 10 then 30 else 31
  {
  }

  lemma YearsClosed(y: int)
    ensures DayFromYear(y) == 365 * (y - 1) + (y - 1) / 4 - (y - 1) / 100 + (y - 1) / 400 + 306 - 719_468
    ensures y / 4 - (y - 1) / 4 == (if y % 4 == 0 then 1 else 0)
    ensures y / 100 - (y - 1) / 100 == (if y % 100 == 0 then 1 else 0)
    ensures y / 400 - (y - 1) / 400 == (if y % 400 == 0 then 1 else 0)
  {
    assert (y - 1969) / 4 == (y - 1) / 4 - 492;
    assert (y - 1901) / 100 == (y - 1) / 100 - 19;
    assert (y - 1601) / 400 == (y - 1) / 400 - 4;
  }

  lemma FirstOfMonthIsClosed(y: int, m: int)
    requires IsMonth(m)
    ensures FirstOfMonth(y, m) == FirstOfMonthClosed(y, m)
  {
    MonthsClosed(y, m);
    YearsClosed(y);
    LeapSum(y);
    hide DayFromYear, DaysBeforeMonth, IsLeap;
    if m < 2 {
      assert m == 0 || m == 1;
    } else {
      assert (m + 10) % 12 == m - 2;
    }
  }

  lemma LeapSum(y: int)
    ensures (y / 4 - y / 100 + y / 400) - ((y - 1) / 4 - (y - 1) / 100 + (y - 1) / 400) == if IsLeap(y) then 1 else 0
  {
    YearsClosed(y);
    CenturyYears(y);
    hide DayFromYear;
  }

  /**
   For every month of every year, and every date: the day number, and which days exist, by a formula
   that knows neither month lengths nor leap years. A month ends where the next one begins.
   */
  lemma DayNumberClosed(d: Date)
    requires IsMonth(d.month)
    ensures var first := FirstOfMonthClosed(d.year, d.month);
            var next := if d.month == 11 then FirstOfMonthClosed(d.year + 1, 0)
                        else FirstOfMonthClosed(d.year, d.month + 1);
            && (d.Valid() <==> 1 <= d.day && first + d.day - 1 < next)
            && (d.Valid() ==> DayNumber(d) == first + d.day - 1)
  {
    FirstOfMonthIsClosed(d.year, d.month);
    if d.month == 11 {
      FirstOfMonthIsClosed(d.year + 1, 0);
      YearLength(d.year);
      MonthsFillYear(d.year);
      assert DaysBeforeMonth(d.year, 12) == DaysBeforeMonth(d.year, 11) + DaysInMonth(d.year, 11);
      assert DaysBeforeMonth(d.year + 1, 0) == 0;
    } else {
      FirstOfMonthIsClosed(d.year, d.month + 1);
    }
    hide FirstOfMonthClosed, DayFromYear;
  }

  /** A UTC date and time of day, in milliseconds since the epoch, reads back as that date and time. */
  lemma TimeValue(d: Date, hour: int, minute: int, second: int, ms: int)
    requires d.Valid() && 0 <= hour < 24 && 0 <= minute < 60 && 0 <= second < 60 && 0 <= ms < 1000
    ensures var within := ((hour * 60 + minute) * 60 + second) * 1000 + ms;
            var t := DayNumber(d) * 24 * 60 * 60 * 1000 + within;
            DateOf(t) == d && TimeWithinDay(t) == within
  {
    TimeParts(DayNumber(d), ((hour * 60 + minute) * 60 + second) * 1000 + ms);
    DateOfDayNumber(d);
    hide DateFromDay, DayNumber;
  }

  /** A time value is its day and the time within that day. */
  lemma TimeParts(day: int, within: int)
    requires 0 <= within < MS_PER_DAY
    ensures Day(day * MS_PER_DAY + within) == day
    ensures TimeWithinDay(day * MS_PER_DAY + within) == within
  {
  }
}
