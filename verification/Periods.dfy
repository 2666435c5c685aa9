/**
 Billing periods. The service steps a period with dayjs, which clamps the day to the target month
 (src/modules/subscription/subscription.service.ts). The backfill script steps it with a JavaScript
 Date, which lets the day overflow into the next month (scripts/backfill-legacy-subscriptions.mjs).
 */
module Periods {
  import opened Calendar

  datatype Interval = Daily | Weekly | Monthly | Yearly

  function Min(a: int, b: int): int {
    if a <= b then a else b
  }

  function Max(a: int, b: int): int {
    if a <= b then b else a
  }

  /** Months counted from January of year 0. */
  function MonthIndex(d: Date): int {
    12 * d.year + d.month
  }

  function MonthLength(index: int): (n: int)
    ensures 28 <= n <= 31
  {
    DaysInMonth(index / 12, index % 12)
  }

  /** The date on `day` of month `index`, or the last one of that month. */
  function DateIn(index: int, day: int): (d: Date)
    requires 1 <= day
    ensures d.Valid() && MonthIndex(d) == index
  {
    Date(index / 12, index % 12, Min(day, MonthLength(index)))
  }

  /** Days in the month that lies `months` after the month of `d`. */
  function TargetLength(d: Date, months: int): (n: int)
    ensures 28 <= n <= 31
  {
    MonthLength(MonthIndex(d) + months)
  }

  function ClampedDate(d: Date, months: int): (r: Date)
    requires d.Valid()
    ensures r.Valid() && MonthIndex(r) == MonthIndex(d) + months
  {
    DateIn(MonthIndex(d) + months, d.day)
  }

  /** dayjs `add(months, 'month')`: the day is clamped, the time of day kept. */
  function AddMonths(t: int, months: int): int {
    DayNumber(ClampedDate(DateOf(t), months)) * MS_PER_DAY + TimeWithinDay(t)
  }

  function AddDays(t: int, days: int): int {
    t + days * MS_PER_DAY
  }

  /** The service's calculateNextPeriodEnd. */
  function NextPeriodEnd(from: int, interval: Interval, count: int): int {
    match interval
    case Daily => AddDays(from, count)
    case Weekly => AddDays(from, count * 7)
    case Monthly => AddMonths(from, count)
    case Yearly => AddMonths(from, 12 * count)
  }

  /** Months that one step of a monthly or yearly interval moves. */
  function StepMonths(interval: Interval, count: int): int {
    if interval == Yearly then 12 * count else count
  }

  // ---- The service's arithmetic -----------------------------------------------------------------

  lemma AddMonthsDate(t: int, months: int)
    ensures DateOf(AddMonths(t, months)) == ClampedDate(DateOf(t), months)
    ensures TimeWithinDay(AddMonths(t, months)) == TimeWithinDay(t)
  {
    var d := ClampedDate(DateOf(t), months);
    TimeParts(DayNumber(d), TimeWithinDay(t));
    DateOfDayNumber(d);
  }

  /** The day is the wanted one, or, if the month does not have it, the month's last. */
  predicate LandsOn(d: Date, day: int) {
    d.Valid() && d.day <= day && (d.day == day || !d.(day := d.day + 1).Valid())
  }

  /**
   One period, for every interval and count: the time of day stays; days and weeks move the day number;
   months and years move the month or the year, and keep the day or fall back to the month's last.
   */
  lemma PeriodEndDate(t: int, interval: Interval, count: int)
    ensures var d, e := DateOf(t), DateOf(NextPeriodEnd(t, interval, count));
            && TimeWithinDay(NextPeriodEnd(t, interval, count)) == TimeWithinDay(t)
            && (interval.Daily? ==> DayNumber(e) - DayNumber(d) == count)
            && (interval.Weekly? ==> DayNumber(e) - DayNumber(d) == 7 * count)
            && (interval.Monthly? ==> 12 * e.year + e.month == 12 * d.year + d.month + count && LandsOn(e, d.day))
            && (interval.Yearly? ==> e.year == d.year + count && e.month == d.month && LandsOn(e, d.day))
  {
    DaysLater(t, count);
    DaysLater(t, count * 7);
    MonthsLater(t, count);
    MonthsLater(t, 12 * count);
    hide DateOf, AddMonths, AddDays, DayNumber, LandsOn, TimeWithinDay;
    if interval.Yearly? {
      WholeYears(DateOf(t), DateOf(NextPeriodEnd(t, interval, count)), count);
    }
  }

  lemma WholeYears(d: Date, e: Date, count: int)
    requires IsMonth(d.month) && IsMonth(e.month) && 12 * e.year + e.month == 12 * d.year + d.month + 12 * count
    ensures e.year == d.year + count && e.month == d.month
  {
  }

  lemma MonthsLater(t: int, months: int)
    ensures var d, e := DateOf(t), DateOf(AddMonths(t, months));
            12 * e.year + e.month == 12 * d.year + d.month + months && LandsOn(e, d.day)
    ensures TimeWithinDay(AddMonths(t, months)) == TimeWithinDay(t)
  {
    AddMonthsDate(t, months);
    LandsInMonth(MonthIndex(DateOf(t)) + months, DateOf(t).day);
    hide DateOf, AddMonths, LandsOn, TimeWithinDay, MonthLength;
  }

  lemma LandsInMonth(index: int, day: int)
    requires day >= 1
    ensures LandsOn(DateIn(index, day), day)
  {
  }

  lemma DaysLater(t: int, days: int)
    ensures DayNumber(DateOf(AddDays(t, days))) == DayNumber(DateOf(t)) + days
    ensures TimeWithinDay(AddDays(t, days)) == TimeWithinDay(t)
  {
    assert t == Day(t) * MS_PER_DAY + TimeWithinDay(t);
    assert AddDays(t, days) == (Day(t) + days) * MS_PER_DAY + TimeWithinDay(t);
    TimeParts(Day(t) + days, TimeWithinDay(t));
    hide DayNumber;
  }

  lemma AddMonthsMoves(t: int, months: int)
    ensures months >= 1 ==> AddMonths(t, months) > t
    ensures months == 0 ==> AddMonths(t, months) == t
    ensures months <= -1 ==> AddMonths(t, months) < t
  {
    var d := DateOf(t);
    var e := ClampedDate(d, months);
    DatesOrdered(d, e);
    DatesOrdered(e, d);
    assert t == DayNumber(d) * MS_PER_DAY + TimeWithinDay(t);
  }

  /** A period has positive length exactly when the plan's interval count is positive. */
  lemma StepAdvancesExactlyWhen(t: int, interval: Interval, count: int)
    ensures NextPeriodEnd(t, interval, count) > t <==> count >= 1
  {
    AddMonthsMoves(t, count);
    AddMonthsMoves(t, 12 * count);
  }

  /** It has no length exactly when the count is 0. */
  lemma StepStaysExactlyWhen(t: int, interval: Interval, count: int)
    ensures NextPeriodEnd(t, interval, count) == t <==> count == 0
  {
    AddMonthsMoves(t, count);
    AddMonthsMoves(t, 12 * count);
    hide AddMonths;
  }

  /** `n` monthly renewals of `count` months each, one after the other. */
  function Renewed(t: int, count: int, n: nat): int {
    if n == 0 then t else NextPeriodEnd(Renewed(t, count, n - 1), Monthly, count)
  }

  /** The shortest month that the first `n` steps of `count` months land in, or 31 for none. */
  function ShortestLanding(d: Date, count: int, n: nat): (s: int)
    ensures 28 <= s <= 31
    ensures n > 0 ==> s <= TargetLength(d, n * count)
  {
    if n == 0 then 31 else Min(ShortestLanding(d, count, n - 1), TargetLength(d, n * count))
  }

  lemma DateInOwnMonth(d: Date)
    requires d.Valid()
    ensures DateIn(MonthIndex(d), d.day) == d && d.day <= MonthLength(MonthIndex(d))
  {
  }

  lemma ClampedAgain(index: int, day: int, months: int)
    requires 1 <= day <= MonthLength(index)
    ensures ClampedDate(DateIn(index, day), months) == DateIn(index + months, Min(day, MonthLength(index + months)))
  {
    hide MonthLength;
  }

  lemma MonthStep(t: int, before: int, months: int, count: int, shortest: int)
    requires shortest >= 1 && Min(DateOf(t).day, shortest) <= TargetLength(DateOf(t), months)
    requires DateOf(before) == DateIn(MonthIndex(DateOf(t)) + months, Min(DateOf(t).day, shortest))
    ensures DateOf(AddMonths(before, count))
         == DateIn(MonthIndex(DateOf(t)) + months + count,
                   Min(DateOf(t).day, Min(shortest, TargetLength(DateOf(t), months + count))))
    ensures TimeWithinDay(AddMonths(before, count)) == TimeWithinDay(before)
  {
    AddMonthsDate(before, count);
    hide DateOf, AddMonths, MonthLength, DateIn, ClampedDate, TimeWithinDay;
    ClampedAgain(MonthIndex(DateOf(t)) + months, Min(DateOf(t).day, shortest), count);
  }

  lemma MoreMonths(n: int, count: int)
    ensures (n - 1) * count + count == n * count
    ensures n == 1 ==> (n - 1) * count == 0
  {
  }

  lemma ShortestAfter(d: Date, count: int, n: nat, months: int)
    requires n >= 1 && months == (n - 1) * count
    ensures ShortestLanding(d, count, n) == Min(ShortestLanding(d, count, n - 1), TargetLength(d, months + count))
    ensures n > 1 ==> ShortestLanding(d, count, n - 1) <= TargetLength(d, months)
  {
    MoreMonths(n, count);
    hide TargetLength;
  }

  lemma NoRenewal(t: int, count: int)
    ensures var d := DateOf(t);
            Renewed(t, count, 0) == t && ShortestLanding(d, count, 0) == 31
              && d == DateIn(MonthIndex(d), Min(d.day, 31))
  {
    hide DateOf;
    DateInOwnMonth(DateOf(t));
  }

  lemma OneMoreRenewal(t: int, count: int, n: nat)
    requires n > 0
    ensures Renewed(t, count, n) == AddMonths(Renewed(t, count, n - 1), count)
    ensures n == 1 ==> DateOf(t).day <= TargetLength(DateOf(t), (n - 1) * count)
  {
    DateInOwnMonth(DateOf(t));
    hide DateOf, AddMonths, MonthLength;
    if n == 1 {
      assert (n - 1) * count == 0;
    }
  }

  /** The exact date after `n` renewals: the day only ever shrinks, to the shortest month landed in. */
  lemma {:induction false} RenewedDate(t: int, count: int, n: nat)
    ensures var d := DateOf(t);
            DateOf(Renewed(t, count, n)) == DateIn(MonthIndex(d) + n * count, Min(d.day, ShortestLanding(d, count, n)))
    ensures TimeWithinDay(Renewed(t, count, n)) == TimeWithinDay(t)
  {
    hide DateOf, Renewed, AddMonths, TargetLength, MonthLength, MonthIndex, ShortestLanding, DateIn, TimeWithinDay;
    var d := DateOf(t);
    if n == 0 {
      NoRenewal(t, count);
      assert n * count == 0;
    } else {
      var months := (n - 1) * count;
      RenewedDate(t, count, n - 1);
      MoreMonths(n, count);
      ShortestAfter(d, count, n, months);
      OneMoreRenewal(t, count, n);
      MonthStep(t, Renewed(t, count, n - 1), months, count, ShortestLanding(d, count, n - 1));
    }
  }

  /**
   Calendar drift: `n` successive monthly renewals land in the month that one jump over all of them
   reaches, never later and at most three days earlier, and on the same day up to the 28th.
   */
  lemma DriftBounded(t: int, count: int, n: nat)
    ensures var drift := NextPeriodEnd(t, Monthly, n * count) - Renewed(t, count, n);
            && 0 <= drift <= 3 * MS_PER_DAY
            && drift % MS_PER_DAY == 0
            && (DateOf(t).day <= 28 ==> drift == 0)
    ensures MonthIndex(DateOf(Renewed(t, count, n))) == MonthIndex(DateOf(NextPeriodEnd(t, Monthly, n * count)))
  {
    hide DateOf, AddMonths, Renewed, TargetLength, ShortestLanding, DateIn, ClampedDate, TimeWithinDay;
    var d, r, months := DateOf(t), Renewed(t, count, n), n * count;
    RenewedDate(t, count, n);
    AddMonthsDate(t, months);
    if n == 0 {
      NoRenewal(t, count);
      assert n * count == 0;
      AddMonthsMoves(t, 0);
    } else {
      DriftInDays(t, r, months, ShortestLanding(d, count, n));
      WholeDays(d.day, TargetLength(d, months), ShortestLanding(d, count, n));
    }
  }

  /** Clamping to two month lengths differs by at most three days. */
  lemma WholeDays(day: int, length: int, shortest: int)
    requires 28 <= shortest <= length <= 31
    ensures var k := Min(day, length) - Min(day, shortest);
            && 0 <= k * MS_PER_DAY <= 3 * MS_PER_DAY && (k * MS_PER_DAY) % MS_PER_DAY == 0
            && (day <= 28 ==> k * MS_PER_DAY == 0)
  {
  }

  lemma DaysApart(index: int, a: int, b: int)
    requires a >= 1 && b >= 1
    ensures DayNumber(DateIn(index, a)) - DayNumber(DateIn(index, b))
        == Min(a, MonthLength(index)) - Min(b, MonthLength(index))
  {
    hide MonthLength, FirstOfMonth;
  }

  /** Two time values with the same time of day are whole days apart. */
  lemma WholeDaysApart(t: int, u: int)
    requires TimeWithinDay(t) == TimeWithinDay(u)
    ensures t - u == (DayNumber(DateOf(t)) - DayNumber(DateOf(u))) * MS_PER_DAY
  {
    hide DayNumber;
  }

  lemma DriftInDays(t: int, r: int, months: int, shortest: int)
    requires 28 <= shortest <= TargetLength(DateOf(t), months)
    requires DateOf(r) == DateIn(MonthIndex(DateOf(t)) + months, Min(DateOf(t).day, shortest))
    requires TimeWithinDay(r) == TimeWithinDay(t)
    ensures AddMonths(t, months) - r
         == (Min(DateOf(t).day, TargetLength(DateOf(t), months)) - Min(DateOf(t).day, shortest)) * MS_PER_DAY
  {
    hide MonthLength, DayNumber, DateOf, DateIn, AddMonths, TimeWithinDay;
    AddMonthsDate(t, months);
    WholeDaysApart(AddMonths(t, months), r);
    DaysApart(MonthIndex(DateOf(t)) + months, DateOf(t).day, Min(DateOf(t).day, shortest));
  }

  lemma FebruaryIsShort()
    ensures var d := Date(2023, 0, 31);
            d.Valid() && ShortestLanding(d, 1, 2) == 28 && TargetLength(d, 2) == 31
  {
    var d := Date(2023, 0, 31);
    assert ShortestLanding(d, 1, 1) == Min(ShortestLanding(d, 1, 0), TargetLength(d, 1)) == 28;
  }

  /** Three days of drift are reached: 31 January, renewed monthly, stays on the 28th in March. */
  lemma DriftIsReached()
    ensures exists t :: NextPeriodEnd(t, Monthly, 2) - Renewed(t, 1, 2) == 3 * MS_PER_DAY
  {
    FebruaryIsShort();
    hide DateFromDay, DayNumber, ShortestLanding, MonthLength, AddMonths;
    var d := Date(2023, 0, 31);
    var t := DayNumber(d) * MS_PER_DAY;
    TimeParts(DayNumber(d), 0);
    DateOfDayNumber(d);
    RenewedDate(t, 1, 2);
    DriftInDays(t, Renewed(t, 1, 2), 2, 28);
  }

  // ---- The backfill script's arithmetic ---------------------------------------------------------

  /** JavaScript setMonth(getMonth() + months): a day past the month's end overflows. */
  function OverflowMonths(t: int, months: int): int {
    var d := DateOf(t);
    MakeDay(d.year, d.month + months, d.day) * MS_PER_DAY + TimeWithinDay(t)
  }

  /** What the script's calculateNextPeriodEnd returns; a count below 1 is taken as 1. */
  function LegacyPeriodEnd(from: int, interval: Interval, count: int): int {
    var c := Max(1, count);
    match interval
    case Daily => AddDays(from, c)
    case Weekly => AddDays(from, c * 7)
    case Monthly => OverflowMonths(from, c)
    case Yearly => OverflowMonths(from, 12 * c)
  }

  /** A mutable JavaScript Date, read and written through its local-time methods in UTC. */
  class JsDate {
    var time: int

    constructor (t: int)
      ensures time == t
    {
      time := t;
    }

    method SetDate(day: int)
      modifies this
      ensures var d := DateOf(old(time));
              time == MakeDay(d.year, d.month, day) * MS_PER_DAY + TimeWithinDay(old(time))
    {
      var d := DateOf(time);
      time := MakeDay(d.year, d.month, day) * MS_PER_DAY + TimeWithinDay(time);
    }

    method SetMonth(month: int)
      modifies this
      ensures var d := DateOf(old(time));
              time == MakeDay(d.year, month, d.day) * MS_PER_DAY + TimeWithinDay(old(time))
    {
      var d := DateOf(time);
      time := MakeDay(d.year, month, d.day) * MS_PER_DAY + TimeWithinDay(time);
    }

    method SetFullYear(year: int)
      modifies this
      ensures var d := DateOf(old(time));
              time == MakeDay(year, d.month, d.day) * MS_PER_DAY + TimeWithinDay(old(time))
    {
      var d := DateOf(time);
      time := MakeDay(year, d.month, d.day) * MS_PER_DAY + TimeWithinDay(time);
    }
  }

  /** Setting the year moves by that many times twelve months. */
  lemma CarriedYears(d: Date, count: int)
    requires d.Valid()
    ensures MakeDay(d.year + count, d.month, d.day) == MakeDay(d.year, d.month + 12 * count, d.day)
  {
    hide FirstOfMonth;
    assert (d.month + 12 * count) / 12 == count && (d.month + 12 * count) % 12 == d.month;
  }

  /** The script's calculateNextPeriodEnd, which moves a copy of the date in place. */
  method CalculateNextPeriodEnd(periodStart: int, interval: Interval, intervalCount: int) returns (end: int)
    ensures end == LegacyPeriodEnd(periodStart, interval, intervalCount)
  {
    hide DateFromDay, FirstOfMonth;
    var next := new JsDate(periodStart);
    var count := Max(1, if intervalCount == 0 then 1 else intervalCount);
    var d := DateOf(periodStart);
    match interval {
      case Daily => next.SetDate(d.day + count);
      case Weekly => next.SetDate(d.day + count * 7);
      case Yearly =>
        next.SetFullYear(d.year + count);
        CarriedYears(d, count);
      case Monthly => next.SetMonth(d.month + count);
    }
    end := next.time;
  }

  /** Moving the day number of a date in place moves the date by whole days. */
  lemma DayMoves(t: int, k: int)
    ensures var d := DateOf(t);
            MakeDay(d.year, d.month, d.day + k) * MS_PER_DAY + TimeWithinDay(t) == AddDays(t, k)
  {
    var d := DateOf(t);
    hide DateFromDay, FirstOfMonth;
    assert MakeDay(d.year, d.month, d.day + k) == Day(t) + k;
  }

  /** The script's addDays. */
  method AddDaysInPlace(date: int, days: int) returns (r: int)
    ensures r == AddDays(date, days)
  {
    var next := new JsDate(date);
    next.SetDate(DateOf(date).day + days);
    DayMoves(date, days);
    hide DateOf, MakeDay;
    r := next.time;
  }

  /** Days by which the overflowing step passes the clamped one. */
  function Overrun(t: int, interval: Interval, count: int): int {
    if interval.Daily? || interval.Weekly? then 0
    else Max(0, DateOf(t).day - TargetLength(DateOf(t), StepMonths(interval, count)))
  }

  /** The script's arithmetic is later than the service's by exactly the days that overflow. */
  lemma LegacyIsLaterByOverrun(t: int, interval: Interval, count: int)
    ensures count >= 1 ==>
              LegacyPeriodEnd(t, interval, count)
              == NextPeriodEnd(t, interval, count) + Overrun(t, interval, count) * MS_PER_DAY
    ensures count < 1 ==> LegacyPeriodEnd(t, interval, count) == LegacyPeriodEnd(t, interval, 1)
    ensures 0 <= Overrun(t, interval, count) <= 3
    ensures DateOf(t).day <= 28 ==> Overrun(t, interval, count) == 0
  {
    OverflowPassesClamp(t, StepMonths(interval, count));
    hide DateOf, OverflowMonths, AddMonths, TargetLength;
  }

  lemma OverflowPassesClamp(t: int, months: int)
    ensures OverflowMonths(t, months) - AddMonths(t, months)
        == Max(0, DateOf(t).day - TargetLength(DateOf(t), months)) * MS_PER_DAY
    ensures DateOf(t).day <= 31
  {
    hide DateFromDay, FirstOfMonth, TimeWithinDay;
    SameMonth(DateOf(t), months);
  }

  lemma SameMonth(d: Date, months: int)
    requires d.Valid()
    ensures FirstOfMonth(d.year + (d.month + months) / 12, (d.month + months) % 12)
         == FirstOfMonth(ClampedDate(d, months).year, ClampedDate(d, months).month)
  {
    ClampedMonth(d, months);
    hide *;
  }

  lemma ClampedMonth(d: Date, months: int)
    requires d.Valid()
    ensures ClampedDate(d, months).year == d.year + (d.month + months) / 12
    ensures ClampedDate(d, months).month == (d.month + months) % 12
  {
    ClampedIn(d, months);
    hide *;
    MonthCarry(d.year, d.month + months, 12 * d.year + d.month + months);
  }

  lemma ClampedIn(d: Date, months: int)
    requires d.Valid()
    ensures ClampedDate(d, months).year == (12 * d.year + d.month + months) / 12
    ensures ClampedDate(d, months).month == (12 * d.year + d.month + months) % 12
  {
    hide MonthLength;
  }

  lemma MonthCarry(y: int, k: int, n: int)
    requires n == 12 * y + k
    ensures n / 12 == y + k / 12 && n % 12 == k % 12
  {
  }

  /** The two agree exactly on positive counts whose day exists in the target month. */
  lemma LegacyAgreesExactlyWhen(t: int, interval: Interval, count: int)
    ensures LegacyPeriodEnd(t, interval, count) == NextPeriodEnd(t, interval, count)
         <==>
         count >= 1
         && (interval.Daily? || interval.Weekly?
             || DateOf(t).day <= TargetLength(DateOf(t), StepMonths(interval, count)))
  {
    if count >= 1 {
      LegacyIsLaterByOverrun(t, interval, count);
    } else {
      LegacyIsLaterByOverrun(t, interval, 1);
      StepAdvancesExactlyWhen(t, interval, 1);
      StepAdvancesExactlyWhen(t, interval, count);
    }
  }
}
