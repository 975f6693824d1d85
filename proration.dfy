/**
 * The arithmetic of a plan change: the unused-time credit of the old
 * contract, the amount charged for the new plan once that credit is taken
 * off, and the billing anchor the controller's variant keeps.
 */
module Proration {
  import opened Calendar
  import opened Ledger

  /**
   * `credit = monthly_amount / daysInMonth * (daysInMonth - daysUsed)`.
   * The formula has no clamp: past the end of the month the credit is negative.
   */
  function ProratedCredit(monthlyAmount: real, daysInMonth: int, daysUsed: int): (credit: real)
    requires daysInMonth > 0
    ensures daysUsed == 0 ==> credit == monthlyAmount
    ensures daysUsed == daysInMonth ==> credit == 0.0
    ensures 0 <= daysUsed <= daysInMonth && monthlyAmount >= 0.0 ==> 0.0 <= credit <= monthlyAmount
    ensures daysUsed > daysInMonth && monthlyAmount > 0.0 ==> credit < 0.0
  {
    var dailyRate := monthlyAmount / daysInMonth as real;
    var unused := (daysInMonth - daysUsed) as real;
    assert monthlyAmount >= 0.0 && daysUsed >= 0 ==> dailyRate * unused <= dailyRate * daysInMonth as real;
    dailyRate * unused
  }

  /** The credit left on contract `c` at date `now`, counted in the month it started. */
  function ContractCredit(c: Contract, now: Date): real {
    ProratedCredit(c.monthlyAmount, DaysInMonth(c.startedAt.year, c.startedAt.month), DiffInDays(c.startedAt, now))
  }

  /** `max(newPlan.price - credit, 0)`. */
  function AdjustedAmount(price: real, credit: real): (amount: real)
    ensures amount >= 0.0
    ensures credit <= price ==> amount == price - credit
    ensures credit >= price ==> amount == 0.0
    ensures credit >= 0.0 && price >= 0.0 ==> amount <= price
  {
    if price - credit > 0.0 then price - credit else 0.0
  }

  /**
   * A contract that started on or before `now`, and no more than one month
   * of its start before it, yields a credit between nothing and its monthly amount.
   */
  lemma ContractCreditBounds(c: Contract, now: Date)
    requires ValidDate(c.startedAt) && c.monthlyAmount >= 0.0
    requires !Before(now, c.startedAt)
    requires DayNumber(now) <= DayNumber(c.startedAt) + DaysInMonth(c.startedAt.year, c.startedAt.month)
    ensures 0.0 <= ContractCredit(c, now) <= c.monthlyAmount
    ensures now == c.startedAt ==> ContractCredit(c, now) == c.monthlyAmount
    ensures now == AddMonth(c.startedAt) ==> ContractCredit(c, now) == 0.0
  {
    AddMonthShift(c.startedAt);
  }

  /**
   * A change of plan ten days into a 30-day month: a 100.00 contract leaves
   * 200/3 of credit (unrounded), so a 150.00 plan costs 250/3 and a 50.00 plan
   * costs nothing.
   */
  lemma TenDaysIntoApril(c: Contract)
    requires c.monthlyAmount == 100.0 && c.startedAt == Date(2023, 4, 1)
    ensures ContractCredit(c, Date(2023, 4, 11)) == 200.0 / 3.0
    ensures AdjustedAmount(150.0, ContractCredit(c, Date(2023, 4, 11))) == 250.0 / 3.0
    ensures AdjustedAmount(50.0, ContractCredit(c, Date(2023, 4, 11))) == 0.0
  {
  }

  function Min(a: int, b: int): int {
    if a <= b then a else b
  }

  /**
   * The billing anchor as `ContractController::upgrade` computes it:
   * `now()->day(originalDay)`, moved on by `addMonth()` when that date has passed.
   * Both Carbon calls overflow into the following month.
   */
  function BillingAnchorAsWritten(now: Date, originalDay: int): Date {
    var anchor := SetDay(now, originalDay);
    if Before(anchor, now) then AddMonth(anchor) else anchor
  }

  /**
   * The billing anchor corrected: the original day of month in the
   * current month, or in the next one when it has passed, cut down to the
   * length of the month when that month is too short.
   */
  function BillingAnchor(now: Date, originalDay: int): Date {
    var here := Date(now.year, now.month, Min(originalDay, DaysInMonth(now.year, now.month)));
    if Before(here, now) then
      var next := NextMonth(now.year, now.month);
      Date(next.0, next.1, Min(originalDay, DaysInMonth(next.0, next.1)))
    else here
  }

  /** What the as-written anchor guarantees: it is a date, not before `now`, and at most 30 days on. */
  lemma BillingAnchorAsWrittenBounds(now: Date, originalDay: int)
    requires ValidDate(now) && 1 <= originalDay <= 31
    ensures ValidDate(BillingAnchorAsWritten(now, originalDay))
    ensures !Before(BillingAnchorAsWritten(now, originalDay), now)
    ensures DayNumber(BillingAnchorAsWritten(now, originalDay)) <= DayNumber(now) + 30
  {
    SetDayShift(now, originalDay);
    var anchor := SetDay(now, originalDay);
    if Before(anchor, now) {
      AddMonthShift(anchor);
    }
  }

  /**
   * The as-written anchor skips February: a contract started on a 30th and
   * changed on the 31st of January 2023 is next billed on the 2nd of March,
   * although March has a 30th.
   */
  lemma BillingAnchorAsWrittenSkipsMonth()
    ensures BillingAnchorAsWritten(Date(2023, 1, 31), 30) == Date(2023, 3, 2)
    ensures BillingAnchor(Date(2023, 1, 31), 30) == Date(2023, 2, 28)
  {
  }

  /** The corrected anchor falls in the current or the next month, on the original day when it exists. */
  lemma BillingAnchorSpec(now: Date, originalDay: int)
    requires ValidDate(now) && 1 <= originalDay <= 31
    ensures var r := BillingAnchor(now, originalDay);
      && ValidDate(r)
      && !Before(r, now)
      && ((r.year, r.month) == (now.year, now.month) || (r.year, r.month) == NextMonth(now.year, now.month))
      && r.day == Min(originalDay, DaysInMonth(r.year, r.month))
      && ((r.year, r.month) == (now.year, now.month) <==> now.day <= Min(originalDay, DaysInMonth(now.year, now.month)))
  {
    NextMonthStart(now.year, now.month);
  }

  /** On a day that every month has, the correction changes nothing. */
  lemma BillingAnchorsAgree(now: Date, originalDay: int)
    requires ValidDate(now) && 1 <= originalDay <= 28
    ensures BillingAnchorAsWritten(now, originalDay) == BillingAnchor(now, originalDay)
  {
    SetDayShift(now, originalDay);
    AddMonthShift(Date(now.year, now.month, originalDay));
  }
}
