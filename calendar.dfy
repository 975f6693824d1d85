/**
 * Dates of the proleptic Gregorian calendar, as the ledger's `date` columns
 * hold them, and the parts of Carbon's date arithmetic that the handlers use:
 * `daysInMonth`, `diffInDays`, `lessThan`, `day(n)` and `addMonth()`.
 *
 * Carbon's setters follow PHP's `setDate`: a day that does not exist in the
 * month spills over into the next one (the 31st of February 2023 is the
 * 3rd of March), and `addMonth()` keeps the day of month and spills the same way.
 */
module Calendar {

  datatype Date = Date(year: int, month: int, day: int)

  predicate IsLeapYear(y: int) {
    y % 4 == 0 && (y % 100 != 0 || y % 400 == 0)
  }

  /** Carbon's `daysInMonth`. */
  function DaysInMonth(y: int, m: int): (n: int)
    ensures 28 <= n <= 31
    ensures m == 2 ==> (n == 29 <==> IsLeapYear(y))
  {
    if m == 2 then (if IsLeapYear(y) then 29 else 28)
    else if m == 4 || m == 6 || m == 9 || m == 11 then 30
    else 31
  }

  function DaysInYear(y: int): int {
    if IsLeapYear(y) then 366 else 365
  }

  ghost predicate ValidDate(d: Date) {
    1 <= d.month <= 12 && 1 <= d.day <= DaysInMonth(d.year, d.month)
  }

  /** Days from 0001-01-01 to the first of January of year `y`. */
  function DaysBeforeYear(y: int): int {
    var n := y - 1;
    365 * n + n / 4 - n / 100 + n / 400
  }

  /** Days from the first of January of year `y` to the first of month `m`. */
  function DaysBeforeMonth(y: int, m: int): int {
    var leap := if m > 2 && IsLeapYear(y) then 1 else 0;
    leap +
      if m <= 1 then 0 else if m == 2 then 31 else if m == 3 then 59
      else if m == 4 then 90 else if m == 5 then 120 else if m == 6 then 151
      else if m == 7 then 181 else if m == 8 then 212 else if m == 9 then 243
      else if m == 10 then 273 else if m == 11 then 304 else 334
  }

  /** The day number of a date: 0 for 0001-01-01, counting one per day. */
  function DayNumber(d: Date): int {
    DaysBeforeYear(d.year) + DaysBeforeMonth(d.year, d.month) + d.day - 1
  }

  /** Carbon's `lessThan` on two instants of the same time of day. */
  predicate Before(a: Date, b: Date) {
    DayNumber(a) < DayNumber(b)
  }

  /** Calendar order read off the fields: year, then month, then day. */
  ghost predicate LexBefore(a: Date, b: Date) {
    a.year < b.year
    || (a.year == b.year && a.month < b.month)
    || (a.year == b.year && a.month == b.month && a.day < b.day)
  }

  /** Carbon's `diffInDays`: whole days between two dates, as an absolute value. */
  function DiffInDays(a: Date, b: Date): nat {
    var k := DayNumber(b) - DayNumber(a);
    if k < 0 then -k else k
  }

  function NextMonth(y: int, m: int): (int, int) {
    if m == 12 then (y + 1, 1) else (y, m + 1)
  }

  /** PHP's `setDate(y, m, d)` for a day of at most 31: an overflowing day spills into the next month. */
  function Normalize(y: int, m: int, d: int): Date {
    var n := DaysInMonth(y, m);
    if d <= n then Date(y, m, d)
    else
      var next := NextMonth(y, m);
      Date(next.0, next.1, d - n)
  }

  /** Carbon's `day(d)`: the same month as `x`, day `d`, overflowing like `setDate`. */
  function SetDay(x: Date, d: int): Date {
    Normalize(x.year, x.month, d)
  }

  /** Carbon's `addMonth()` (month overflow on, its default). */
  function AddMonth(x: Date): Date {
    var next := NextMonth(x.year, x.month);
    Normalize(next.0, next.1, x.day)
  }

  // ---------------------------------------------------------------------
  // The day-number arithmetic

  /** How the three leap-year counts of `DaysBeforeYear` change from one year to the next. */
  lemma LeapCountStep(n: int)
    ensures (n + 1) / 4 - n / 4 == if (n + 1) % 4 == 0 then 1 else 0
    ensures (n + 1) / 100 - n / 100 == if (n + 1) % 100 == 0 then 1 else 0
    ensures (n + 1) / 400 - n / 400 == if (n + 1) % 400 == 0 then 1 else 0
  {
  }

  lemma DaysBeforeYearStep(y: int)
    ensures DaysBeforeYear(y + 1) == DaysBeforeYear(y) + DaysInYear(y)
  {
    var n := y - 1;
    LeapCountStep(n);
    if y % 400 == 0 {
      assert y == 100 * (4 * (y / 400));
      assert y == 4 * (100 * (y / 400));
    } else if y % 100 == 0 {
      assert y == 4 * (25 * (y / 100));
    }
  }

  lemma {:induction false} DaysBeforeYearGap(y1: int, y2: int)
    requires y1 < y2
    ensures DaysBeforeYear(y2) >= DaysBeforeYear(y1) + DaysInYear(y1)
    decreases y2 - y1
  {
    DaysBeforeYearStep(y1);
    if y1 + 1 < y2 {
      DaysBeforeYearGap(y1 + 1, y2);
    }
  }

  lemma NextMonthStart(y: int, m: int)
    requires 1 <= m <= 12
    ensures var next := NextMonth(y, m);
      DayNumber(Date(next.0, next.1, 1)) == DayNumber(Date(y, m, 1)) + DaysInMonth(y, m)
  {
    if m == 12 {
      DaysBeforeYearStep(y);
    }
  }

  lemma NormalizeShift(y: int, m: int, d: int)
    requires 1 <= m <= 12 && 1 <= d <= 31
    ensures ValidDate(Normalize(y, m, d))
    ensures DayNumber(Normalize(y, m, d)) == DayNumber(Date(y, m, 1)) + d - 1
  {
    if d > DaysInMonth(y, m) {
      NextMonthStart(y, m);
    }
  }

  // ---------------------------------------------------------------------
  // Properties of the calendar

  /** Day numbers order valid dates exactly as the calendar does. */
  lemma CalendarOrder(a: Date, b: Date)
    requires ValidDate(a) && ValidDate(b)
    ensures Before(a, b) <==> LexBefore(a, b)
    ensures DayNumber(a) == DayNumber(b) <==> a == b
  {
    if a.year < b.year {
      DaysBeforeYearGap(a.year, b.year);
    } else if b.year < a.year {
      DaysBeforeYearGap(b.year, a.year);
    }
  }

  /** `addMonth()` moves a date forward by exactly the length of its month. */
  lemma AddMonthShift(x: Date)
    requires ValidDate(x)
    ensures ValidDate(AddMonth(x))
    ensures DayNumber(AddMonth(x)) == DayNumber(x) + DaysInMonth(x.year, x.month)
    ensures Before(x, AddMonth(x))
    ensures var next := NextMonth(x.year, x.month);
      x.day <= DaysInMonth(next.0, next.1) ==> AddMonth(x) == Date(next.0, next.1, x.day)
  {
    var next := NextMonth(x.year, x.month);
    NextMonthStart(x.year, x.month);
    NormalizeShift(next.0, next.1, x.day);
  }

  /**
   * `diffInDays` on real dates: the same in either order, zero only between
   * a date and itself, and the plain difference of the days within one month.
   */
  lemma DiffInDaysCalendar(a: Date, b: Date)
    requires ValidDate(a) && ValidDate(b)
    ensures DiffInDays(a, b) == DiffInDays(b, a)
    ensures DiffInDays(a, b) == 0 <==> a == b
    ensures a.year == b.year && a.month == b.month ==>
      DiffInDays(a, b) == if a.day <= b.day then b.day - a.day else a.day - b.day
  {
    CalendarOrder(a, b);
  }

  /** Days between dates in calendar order add up. */
  lemma DiffInDaysAdd(a: Date, b: Date, c: Date)
    requires !Before(b, a) && !Before(c, b)
    ensures DiffInDays(a, c) == DiffInDays(a, b) + DiffInDays(b, c)
  {
  }

  /** A date and the same date a month on lie exactly the length of the first month apart. */
  lemma DiffInDaysAddMonth(x: Date)
    requires ValidDate(x)
    ensures DiffInDays(x, AddMonth(x)) == DaysInMonth(x.year, x.month)
  {
    AddMonthShift(x);
  }

  /** `day(d)` stays in the month when `d` exists there, and otherwise spills into the next one. */
  lemma SetDayShift(x: Date, d: int)
    requires ValidDate(x) && 1 <= d <= 31
    ensures ValidDate(SetDay(x, d))
    ensures DayNumber(SetDay(x, d)) == DayNumber(x) - x.day + d
    ensures d <= DaysInMonth(x.year, x.month) ==> SetDay(x, d) == Date(x.year, x.month, d)
  {
    NormalizeShift(x.year, x.month, d);
  }
}
