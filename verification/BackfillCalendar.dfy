/** The futures contract calendar of the historical backfill. Dates are proleptic Gregorian
    ordinals; months are numbered 12 * year + month - 1. */
module BackfillCalendar {
  import opened Common

  predicate Leap(year: int) {
    year % 4 == 0 && (year % 100 != 0 || year % 400 == 0)
  }

  function YearStart(year: int): int {
    (year - 1) * 365 + (year - 1) / 4 - (year - 1) / 100 + (year - 1) / 400
  }

  /** Days of the year before its month, counted from zero. */
  function DaysBefore(month: int, leap: bool): int
    requires 0 <= month < 12
  {
    [0, 31, 59, 90, 120, 151, 181, 212, 243, 273, 304, 334][month] + if month >= 2 && leap then 1 else 0
  }

  /** The ordinal of the first day of month k, given where years start. */
  function FirstOfMonth(k: int, years: int -> int): int {
    years(k / 12) + DaysBefore(k % 12, Leap(k / 12)) + 1
  }

  function MonthStart(k: int): int {
    FirstOfMonth(k, y => YearStart(y))
  }

  function MonthIndex(year: int, month: int): int
    requires 1 <= month <= 12
  {
    12 * year + month - 1
  }

  function Ordinal(year: int, month: int, day: int): int
    requires 1 <= month <= 12
  {
    MonthStart(MonthIndex(year, month)) + day - 1
  }

  /** Monday is 0. */
  function Weekday(day: int): int {
    (day + 6) % 7
  }

  const THURSDAY := 3
  const TUESDAY := 1

  /** The last such weekday on or before a day. */
  function WeekdayBack(lastDay: int, weekday: int): int {
    lastDay - (Weekday(lastDay) - weekday) % 7
  }

  function LastWeekday(k: int, weekday: int): int {
    WeekdayBack(MonthStart(k + 1) - 1, weekday)
  }

  /** Exchange revisions of scheduled expiries that fell on a holiday. */
  function Override(scheduled: int): int {
    if scheduled == Ordinal(2026, 3, 31) then Ordinal(2026, 3, 30) else scheduled
  }

  /** Thursday expiries before September 2025, Tuesday ones from then on. */
  function Expiry(k: int): int {
    Override(LastWeekday(k, if MonthStart(k) < Ordinal(2025, 9, 1) then THURSDAY else TUESDAY))
  }

  // ---- the calendar is a calendar ----

  lemma StepOfQuotient(y: int, n: int)
    requires n in {4, 100, 400}
    ensures y / n - (y - 1) / n == if y % n == 0 then 1 else 0
  {
  }

  lemma YearLength(year: int)
    ensures YearStart(year + 1) == YearStart(year) + if Leap(year) then 366 else 365
  {
    StepOfQuotient(year, 4);
    StepOfQuotient(year, 100);
    StepOfQuotient(year, 400);
  }

  lemma DaysBeforeStep(month: int, leap: bool)
    requires 0 <= month < 11
    ensures 28 <= DaysBefore(month + 1, leap) - DaysBefore(month, leap) <= 31
  {
  }

  lemma MonthLengthFrom(k: int, y: int, m: int, years: int -> int)
    requires k == 12 * y + m && 0 <= m < 12
    requires years(y + 1) == years(y) + if Leap(y) then 366 else 365
    ensures 28 <= FirstOfMonth(k + 1, years) - FirstOfMonth(k, years) <= 31
  {
    assert k / 12 == y && k % 12 == m;
    if m < 11 {
      assert (k + 1) / 12 == y && (k + 1) % 12 == m + 1;
      DaysBeforeStep(m, Leap(y));
    } else {
      assert (k + 1) / 12 == y + 1 && (k + 1) % 12 == 0;
    }
  }

  lemma MonthLength(k: int)
    ensures 28 <= MonthStart(k + 1) - MonthStart(k) <= 31
  {
    YearLength(k / 12);
    MonthLengthFrom(k, k / 12, k % 12, y => YearStart(y));
  }

  lemma WeekdayBackInMonth(first: int, next: int, weekday: int)
    requires 28 <= next - first && 0 <= weekday < 7
    ensures var d := WeekdayBack(next - 1, weekday); first <= d < next <= d + 7 && Weekday(d) == weekday
  {
  }

  /** The last such weekday of the month: in it, on it, and no later one in it. */
  lemma LastWeekdayIsLast(k: int, weekday: int)
    requires 0 <= weekday < 7
    ensures var d := LastWeekday(k, weekday);
            MonthStart(k) <= d < MonthStart(k + 1) <= d + 7 && Weekday(d) == weekday
  {
    MonthLength(k);
    WeekdayBackInMonth(MonthStart(k), MonthStart(k + 1), weekday);
  }

  lemma ExpiryInMonth(k: int)
    ensures MonthStart(k) <= Expiry(k) < MonthStart(k + 1) <= Expiry(k) + 8
  {
    var weekday := if MonthStart(k) < Ordinal(2025, 9, 1) then THURSDAY else TUESDAY;
    LastWeekdayIsLast(k, weekday);
    MonthLength(k);
  }

  ghost function DaysIn(month: int, leap: bool): int {
    if month == 2 then (if leap then 29 else 28) else if month in {4, 6, 9, 11} then 30 else 31
  }

  lemma DaysInFrom(k: int, y: int, month: int, years: int -> int)
    requires k == 12 * y + month - 1 && 1 <= month <= 12
    requires years(y + 1) == years(y) + if Leap(y) then 366 else 365
    ensures FirstOfMonth(k + 1, years) - FirstOfMonth(k, years) == DaysIn(month, Leap(y))
  {
    assert k / 12 == y && k % 12 == month - 1;
    if month < 12 {
      assert (k + 1) / 12 == y && (k + 1) % 12 == month;
    } else {
      assert (k + 1) / 12 == y + 1 && (k + 1) % 12 == 0;
    }
  }

  /** The months' lengths, a leap year's February included. */
  lemma MonthLengths(year: int, month: int)
    requires 1 <= month <= 12
    ensures MonthStart(MonthIndex(year, month) + 1) - MonthStart(MonthIndex(year, month)) == DaysIn(month, Leap(year))
  {
    YearLength(year);
    DaysInFrom(MonthIndex(year, month), year, month, y => YearStart(y));
  }

  /** The days of the week follow each other, day 1, January 1 of year 1, being a Monday. */
  lemma WeekdaysFollow(day: int)
    ensures Weekday(1) == 0 && Weekday(day + 1) == if Weekday(day) == 6 then 0 else Weekday(day) + 1
  {
  }

  lemma YearStarts()
    ensures YearStart(1) == 0 && YearStart(2025) == 739_251 && YearStart(2026) == 739_616
    ensures !Leap(2025) && !Leap(2026) && !Leap(1)
  {
  }

  /** A date's ordinal from the days before its year and before its month. */
  lemma OrdinalIs(year: int, month: int, day: int)
    requires 1 <= month <= 12
    ensures Ordinal(year, month, day) == YearStart(year) + DaysBefore(month - 1, Leap(year)) + day
    ensures MonthStart(MonthIndex(year, month)) == Ordinal(year, month, 1)
  {
    var k := MonthIndex(year, month);
    assert k / 12 == year && k % 12 == month - 1;
  }

  lemma FirstDay()
    ensures Ordinal(1, 1, 1) == 1
  {
    YearStarts();
    OrdinalIs(1, 1, 1);
  }

  lemma September2025()
    ensures Ordinal(2025, 9, 1) == 739_495 && Weekday(739_495) == 0
  {
    YearStarts();
    OrdinalIs(2025, 9, 1);
  }

  lemma March2026(day: int)
    ensures Ordinal(2026, 3, day) == 739_675 + day && Weekday(739_675 + 31) == 1
    ensures MonthStart(MonthIndex(2026, 3)) == 739_676 && MonthStart(MonthIndex(2026, 3) + 1) == 739_707
  {
    YearStarts();
    OrdinalIs(2026, 3, day);
    OrdinalIs(2026, 3, 1);
    MonthLengths(2026, 3);
  }

  lemma {:induction false} MonthStartsAscend(j: int, k: int)
    requires j < k
    ensures MonthStart(j) < MonthStart(k)
    decreases k - j
  {
    MonthLength(j);
    if j + 1 < k {
      MonthStartsAscend(j + 1, k);
    }
  }

  lemma StartsBefore(j: int, k: int)
    ensures j < k <==> MonthStart(j) < MonthStart(k)
  {
    if j < k {
      MonthStartsAscend(j, k);
    } else if k < j {
      MonthStartsAscend(k, j);
    }
  }

  lemma RevisedOnlyInMarch(k: int, day: int)
    requires MonthStart(k) <= day < MonthStart(k + 1)
    ensures k != MonthIndex(2026, 3) ==> Override(day) == day
  {
    var march := MonthIndex(2026, 3);
    March2026(30);
    March2026(31);
    StartsBefore(march, k);
    StartsBefore(march + 1, k);
    StartsBefore(k + 1, march);
    if k < march && k + 1 != march {
      assert MonthStart(k + 1) < MonthStart(march);
    }
  }

  lemma March2026Expiry()
    ensures Expiry(MonthIndex(2026, 3)) == Ordinal(2026, 3, 30)
  {
    March2026(30);
    March2026(31);
    September2025();
    LastWeekdayIsLast(MonthIndex(2026, 3), TUESDAY);
  }

  lemma OrdinaryExpiry(k: int, weekday: int)
    requires k != MonthIndex(2026, 3)
    requires weekday == if MonthStart(k) < Ordinal(2025, 9, 1) then THURSDAY else TUESDAY
    ensures MonthStart(k) <= Expiry(k) < MonthStart(k + 1) <= Expiry(k) + 7 && Weekday(Expiry(k)) == weekday
  {
    LastWeekdayIsLast(k, weekday);
    RevisedOnlyInMarch(k, LastWeekday(k, weekday));
  }

  lemma ThursdaysUntil(year: int, month: int)
    requires 1 <= month <= 12
    ensures MonthStart(MonthIndex(year, month)) < Ordinal(2025, 9, 1) <==> year < 2025 || (year == 2025 && month < 9)
  {
    OrdinalIs(2025, 9, 1);
    StartsBefore(MonthIndex(year, month), MonthIndex(2025, 9));
  }

  lemma OnlyOneMarch(year: int, month: int)
    requires 1 <= month <= 12 && !(year == 2026 && month == 3)
    ensures MonthIndex(year, month) != MonthIndex(2026, 3)
  {
  }

  /** The monthly expiry is the last Thursday of the month up to August 2025 and the last Tuesday from September 2025
      on; save March 2026, whose last Tuesday was a holiday and which expires on Monday the 30th (March2026Expiry). */
  lemma ExpiryIs(year: int, month: int, k: int, weekday: int)
    requires 1 <= month <= 12 && k == MonthIndex(year, month) && !(year == 2026 && month == 3)
    requires weekday == if year < 2025 || (year == 2025 && month < 9) then 3 else 1
    ensures MonthStart(k) <= Expiry(k) < MonthStart(k + 1) <= Expiry(k) + 7 && Weekday(Expiry(k)) == weekday
  {
    OnlyOneMarch(year, month);
    ThursdaysUntil(year, month);
    OrdinaryExpiry(k, weekday);
  }

  // ---- any calendar ----

  /** Where months start and when their contracts expire. */
  datatype Calendar = Calendar(start: int -> int, expiry: int -> int)

  const NSE := Calendar(k => MonthStart(k), k => Expiry(k))

  ghost predicate ProperMonth(c: Calendar, k: int) {
    c.start(k) + 28 <= c.start(k + 1) <= c.start(k) + 31 && c.start(k) <= c.expiry(k) < c.start(k + 1) <= c.expiry(k) + 8
  }

  /** Months of 28 to 31 days, each with an expiry in its last eight days. */
  ghost predicate Proper(c: Calendar) {
    forall k :: ProperMonth(c, k)
  }

  lemma NseMonth(k: int)
    ensures ProperMonth(NSE, k)
  {
    MonthLength(k);
    ExpiryInMonth(k);
    assert NSE.start(k) == MonthStart(k) && NSE.start(k + 1) == MonthStart(k + 1) && NSE.expiry(k) == Expiry(k);
  }

  lemma NseIsProper()
    ensures Proper(NSE)
  {
    forall k ensures ProperMonth(NSE, k) {
      NseMonth(k);
    }
  }

  lemma {:induction false} MonthsAscend(c: Calendar, j: int, k: int)
    requires Proper(c) && j <= k
    ensures c.start(j) <= c.start(k)
    ensures j < k ==> c.start(j + 1) <= c.start(k) && c.expiry(j) < c.expiry(k)
    decreases k - j
  {
    assert ProperMonth(c, j) && ProperMonth(c, k);
    if j < k {
      MonthsAscend(c, j + 1, k);
    }
  }

  /** The expiry is the earliest monthly one not before the day. */
  ghost predicate EarliestNotBefore(c: Calendar, expiry: int, day: int) {
    expiry >= day && (exists k :: c.expiry(k) == expiry) && (forall k :: c.expiry(k) >= day ==> c.expiry(k) >= expiry)
  }

  lemma EarliestIs(c: Calendar, k: int, day: int)
    requires Proper(c) && c.expiry(k - 1) < day <= c.expiry(k)
    ensures EarliestNotBefore(c, c.expiry(k), day)
  {
    forall j | c.expiry(j) >= day ensures c.expiry(j) >= c.expiry(k) {
      if j < k {
        MonthsAscend(c, j, k - 1);
      } else {
        MonthsAscend(c, k, j);
      }
    }
  }
}
