# Subscription ledger and proration engine

A Dafny model of the backend of a small subscription service (a Laravel API).
Users subscribe to plans. Each subscription is a contract, and contracts carry
payments. A user can change plan part-way through a month: the unused part of
the old contract's month becomes a credit against the first payment of the
new plan. Credits can be redeemed against pending payments.

The database is an in-memory ledger. It is a `Database` class whose fields
are the `plans`, `contracts`, `payments` and `credits` tables, held as
sequences, plus the set of user ids. Ids are auto-increment, so the row with
id `k` sits at index `k - 1`. Each write handler is a method that changes
these fields. Each read handler is a pure filter-and-sort function. The clock
is a `now: Date` parameter that each handler reads once.

Modules, one per file:

- `calendar.dfy` (`Calendar`): dates in the proleptic Gregorian calendar,
  with a day-number conversion. It also models the Carbon operations the
  handlers use: `daysInMonth`, `diffInDays`, `lessThan`, `day(n)` and
  `addMonth()`. The last two overflow into the next month, as PHP's
  `setDate` does.
- `ledger.dfy` (`Ledger`): the table rows, the well-formedness invariant of
  the database, and counting a user's active contracts.
- `sorting.dfy` (`Sorting`): `where` as `Filter`, and `orderBy` as
  `SortBy`, which is an insertion sort specified as ordered and a
  permutation.
- `queries.dfy` (`Queries`): the GET routes of `api/routes/api.php`.
- `proration.dfy` (`Proration`): the unused-time credit and the adjusted
  amount. It also holds the billing anchor of the controller's plan change,
  both as written and corrected.
- `api.dfy` (`Api`): the POST routes of `api/routes/api.php` that Laravel
  serves: subscribe, change plan, pay, and redeem credit.
- `contract_controller.dfy` (`ContractController`): `active` and `history`,
  and the controller's own plan change. That one anchors billing on the old
  start day and absorbs the old contract's pending payments.

`POST /contracts` and `POST /contracts/upgrade` are each registered twice in
`api/routes/api.php`. Laravel keeps the later registration, so the handlers
at lines 159-199 and 201-257 are the ones modelled. `ContractController` is
not referenced by any route. Its `upgrade` is still modelled, as a separate
variant. It differs from the route's upgrade in three ways:

- the new payment is recorded as paid;
- that payment falls due on the billing anchor (the model stores the corrected
  anchor; see "## Findings");
- the old contract's pending payments become credited.

## Model

| member | source | states |
|---|---|---|
| Calendar.DaysInMonth | api/routes/api.php:217 | a month has 28 to 31 days, and February has 29 exactly in leap years |
| Calendar.DiffInDays | api/routes/api.php:216 | `diffInDays` as a whole, never negative, day count; its properties are stated by `DiffInDaysCalendar`, `DiffInDaysAdd` and `DiffInDaysAddMonth` |
| Calendar.DiffInDaysCalendar | api/routes/api.php:216 | for real dates, the count is the same in either order, zero exactly between a date and itself, and the plain difference of the days within one month |
| Calendar.DiffInDaysAdd | api/routes/api.php:216 | for dates in calendar order, the days from the first to the third are the days from the first to the second plus those from the second to the third |
| Calendar.DiffInDaysAddMonth | api/routes/api.php:216-217 | a date and the same date a month on are exactly that month's length apart, so a full month used leaves no credit |
| Calendar.Before | api/app/Http/Controllers/ContractController.php:118 | `lessThan` on dates; `CalendarOrder` proves it is the calendar's year-month-day order |
| Calendar.SetDay | api/app/Http/Controllers/ContractController.php:116 | Carbon's `day(d)`, overflowing into the next month; its properties are stated by `SetDayShift` |
| Calendar.AddMonth | api/routes/api.php:176 | Carbon's `addMonth()`, overflowing into the following month; its properties are stated by `AddMonthShift` |
| Calendar.DaysBeforeYearStep | api/routes/api.php:216 | consecutive New Year's days are exactly the length of the earlier year apart (365, or 366 in a leap year) |
| Calendar.DaysBeforeYearGap | api/routes/api.php:216 | a later year starts at least one whole year after any earlier year |
| Calendar.NextMonthStart | api/routes/api.php:176 | the first of the next month falls exactly one month-length after the first of this month, across year ends too |
| Calendar.NormalizeShift | api/app/Http/Controllers/ContractController.php:116 | setting a day of at most 31, with overflow, yields a valid date that many days into the month, counting on into the next month |
| Calendar.CalendarOrder | api/app/Http/Controllers/ContractController.php:118 | for valid dates, comparing day numbers is the calendar's year-month-day order, and equal day numbers mean equal dates |
| Calendar.AddMonthShift | api/routes/api.php:176 | `addMonth()` yields a valid date exactly one month-length later, so strictly after; the day of month stays when the next month has it |
| Calendar.SetDayShift | api/app/Http/Controllers/ContractController.php:116 | `day(d)` yields a valid date moved by `d` minus the old day; the month stays when `d` exists in it |
| Ledger.PlanWithId | api/routes/api.php:160-167 | a plan found is in the catalogue with the asked id; none found means no plan has that id |
| Ledger.FirstActiveIndex | api/routes/api.php:211-213 | the index of an active contract of the user with no active one before it; none means the user has no active contract |
| Ledger.CountActiveZero | api/app/Http/Controllers/ContractController.php:97-103 | a user has zero active contracts exactly when no row is an active contract of theirs |
| Ledger.CountActiveAppend | api/routes/api.php:170-177 | appending a contract raises a user's count by one exactly when it is an active contract of that user |
| Ledger.CountActiveReplace | api/routes/api.php:221-224 | overwriting one row changes a user's count by the difference between what the old and the new row contribute |
| Ledger.CountActiveSwap | api/routes/api.php:221-233 | closing a user's active contract and opening an active one for the same user leaves every user's count unchanged |
| Ledger.ContractsWellFormedReplaceAppend | api/routes/api.php:221-233 | closing one contract and appending a new one keeps ids auto-increment, users and plans existing, and dates valid |
| Ledger.PaymentsWellFormedGrow | api/routes/api.php:226-243 | payments stay well formed when contracts are only added |
| Ledger.PaymentsWellFormedAppend | api/routes/api.php:237-243 | appending a payment with the next id, an existing contract and a valid due date keeps the payments table well formed |
| Ledger.Database.constructor | api/database/migrations/2025_07_26_140455_create_contracts_table.php:16-25 | an empty ledger over given users and plans satisfies the invariant |
| Sorting.Filter | api/routes/api.php:15 | the rows satisfying the condition, each exactly as often as in the input, and no others |
| Sorting.Insert | api/routes/api.php:16 | inserting into an ordered sequence gives an ordered sequence with the element added to the multiset |
| Sorting.SortBy | api/routes/api.php:16 | `orderBy` gives a permutation of its input in ascending key order |
| Queries.PaysContractOf | api/routes/api.php:149-151 | the `whereHas('contract', user_id = u)` condition: some contract with the payment's contract id belongs to the user; `UserPayments` and `CreditedPayments` filter on it exactly |
| Queries.ActivePlans | api/routes/api.php:14-18 | exactly the active plans, with their multiplicities, cheapest first |
| Queries.ActiveContract | api/routes/api.php:52-61 | an active contract of the user with none active before it, or none exactly when the user has no active contract |
| Queries.ContractHistory | api/routes/api.php:63-68 | exactly the user's contracts, with their multiplicities, latest start first |
| Queries.UserPayments | api/routes/api.php:142-156 | 400 exactly when `user_id` is missing, `0` or unknown; otherwise exactly the payments on the user's contracts, earliest due first |
| Queries.CreditedPayments | api/routes/api.php:259-269 | without `user_id`, nothing; otherwise exactly the credited payments on the user's contracts |
| Proration.ProratedCredit | api/routes/api.php:216-219 | the full monthly amount on day zero; nothing at the end of the month; between zero and the monthly amount within the month; negative after it, since there is no clamp |
| Proration.ContractCreditBounds | api/routes/api.php:216-219 | a contract changed within a month of its start leaves a credit between zero and its monthly amount: all of it on the start day, nothing a month on |
| Proration.ContractCredit | api/routes/api.php:216-219 | the credit actually charged: the prorated credit over the month of `started_at` with the days from start to now; its bounds are stated by `ContractCreditBounds` and `TenDaysIntoApril` |
| Proration.AdjustedAmount | api/routes/api.php:235 | never negative; the price less the credit when the credit does not exceed the price, zero otherwise, never above the price for a non-negative credit |
| Proration.TenDaysIntoApril | api/routes/api.php:216-235 | ten days into a 30-day month, a 100.00 contract leaves 200/3; a 150.00 plan then costs 250/3 and a 50.00 plan costs nothing |
| Proration.BillingAnchorAsWritten | api/app/Http/Controllers/ContractController.php:115-120 | the anchor as written: `day(originalDay)` in this month, moved on by `addMonth()` when it has passed; stated by `BillingAnchorAsWrittenBounds` and `BillingAnchorAsWrittenSkipsMonth` |
| Proration.BillingAnchor | api/app/Http/Controllers/ContractController.php:115-120 | the corrected anchor, with the original day cut to the chosen month's length; stated by `BillingAnchorSpec` and `BillingAnchorsAgree` |
| Proration.BillingAnchorAsWrittenBounds | api/app/Http/Controllers/ContractController.php:115-120 | the anchor as written is a valid date, not before today, at most 30 days on |
| Proration.BillingAnchorAsWrittenSkipsMonth | api/app/Http/Controllers/ContractController.php:115-120 | as written, a 30th-day contract changed on 31 January 2023 is anchored on 2 March; the corrected anchor gives 28 February |
| Proration.BillingAnchorSpec | api/app/Http/Controllers/ContractController.php:115-120 | the corrected anchor is a valid date, not before today, in this month or the next; its day is the original day cut to that month's length; it stays in this month exactly when that day has not passed |
| Proration.BillingAnchorsAgree | api/app/Http/Controllers/ContractController.php:115-120 | for original days 1 to 28 the anchor as written and the corrected anchor coincide |
| Api.Closed | api/routes/api.php:221-224 | a closed contract is inactive, ended now, and unchanged in every other column |
| Api.Settled | api/routes/api.php:27-31 | the payment with that id becomes paid with its other columns kept, and every other payment stays as it was |
| Api.SettledIdempotent | api/routes/api.php:24-34 | paying a payment twice leaves the same table as paying it once |
| Api.Pay | api/routes/api.php:24-34 | 404 with nothing changed exactly when the id is unknown; otherwise that payment is paid whatever its status, and nothing else changes |
| Api.Subscribe | api/routes/api.php:159-199 | 422 with nothing changed exactly on a missing user or plan; otherwise one active contract priced at the plan, due a month on, plus one pending payment for the price on that date; the user's active count goes up by one |
| Api.Upgrade | api/routes/api.php:201-257 | succeeds exactly when the user and the plan exist and the user has an active contract; 422 on a missing user or plan, 500 with no active contract, nothing changed on failure; otherwise the user's first active contract is closed, one new contract due a month on is added, one pending payment of the price less the credit is added, nothing else changes, and every user's active count is kept |
| Api.RedeemCheck | api/routes/api.php:284-295 | passes exactly when both rows exist, the credit is unused and not expired, and the payment is pending; 404 for a missing row; 500 for a used credit |
| Api.RedeemOnce | api/routes/api.php:289-297 | once a credit has been redeemed, redeeming it again fails, for any payment and date |
| Api.RedeemOnExpiryDay | api/routes/api.php:289 | a credit is still accepted on its expiry date |
| Api.UseCredit | api/routes/api.php:284-305 | the outcome is the check's; on failure nothing changes; on success exactly that credit is used and exactly that payment is paid |
| ContractController.Active | api/app/Http/Controllers/ContractController.php:15-26 | an active contract of the user, flagged as found, or none exactly when the user has no active contract |
| ContractController.History | api/app/Http/Controllers/ContractController.php:28-39 | exactly the user's contracts, latest start first, with a count equal to their number |
| ContractController.AbsorbPending | api/app/Http/Controllers/ContractController.php:141-143 | the contract's pending payments become credited; every other payment and every other column is unchanged; none of its payments is left pending |
| ContractController.AbsorbPendingAppend | api/app/Http/Controllers/ContractController.php:133-143 | a payment on another contract comes through the bulk update untouched |
| ContractController.AbsorbPendingWellFormed | api/app/Http/Controllers/ContractController.php:141-143 | the bulk update keeps the payments table well formed |
| ContractController.RecordThenAbsorb | api/app/Http/Controllers/ContractController.php:133-143 | recording the new payment and then absorbing the old contract's pending ones leaves the new payment unchanged at the end, and the table well formed |
| ContractController.SwitchPlan | api/app/Http/Controllers/ContractController.php:105-143 | closes the chosen contract; adds the new contract on the corrected anchor; adds a paid payment of the adjusted amount due that day; credits the old contract's pending payments; keeps every user's active count |
| ContractController.Upgrade | api/app/Http/Controllers/ContractController.php:86-159 | succeeds exactly when the user and the plan exist and the user has an active contract; 422 on a missing user or plan, 400 when the user has no active contract, nothing changed on failure; on success the effects of `SwitchPlan` on some active contract of the user |

## Left out

- The React front end. It is user interface only.
- `/first-user` and `/user/{id}` are identity lookups with no ledger logic.
- `PaymentController` depends on the authenticated request user and is not routed.
- `ContractController::store` reads two undefined variables, so it cannot succeed. It is also not routed.
- The shadowed `POST /contracts` (`api/routes/api.php:70-97`) and `POST /contracts/upgrade` (`api/routes/api.php:100-140`) are superseded by the later registrations.
- `POST /payments/credit` is not modelled. It writes `user_id`, which is not fillable, and no `contract_id`, which the payments table requires, so the row it asks for cannot exist in this ledger.
- Seeders, factories, the free-text `description` column, and the `number_format` rounding in it are not modelled.
- Money is a real number. The `decimal(10,2)` rounding of stored amounts is not modelled, and neither is PHP float rounding.
- Dates are whole days, matching the `date` columns. The clock is read once per request: one `now` is shared by every `now()` call of a handler.
- Transactions, locking and concurrency are not modelled. Each method either applies all of its writes or returns an error and changes nothing.
- `paid_at` and `pix_code` are not modelled. They are not fillable, so the updates that name them drop them.
- Api.Upgrade and Queries.ActiveContract take the active contract with the lowest id. `first()` and `firstOrFail()` have no `orderBy`, and the model assumes the database returns rows in primary-key order.
- ContractController.Upgrade leaves open which active contract `User::activeContract()` returns. That model class is not part of this model.
- Calendar.DiffInDays follows Carbon 2's `diffInDays`, which counts whole days as an absolute value. Carbon 3 would return a signed, fractional count, and that is not modelled.
- Proration.ContractCreditBounds assumes the change happens no earlier than the contract's start. The code does not clamp `daysUsed` at zero. Before the start, the absolute day count therefore gives a credit below the monthly amount, where a clamp at zero would give the full amount.
- Proration.BillingAnchorAsWritten compares the anchor with a single `now`. The code reads the clock twice (`api/app/Http/Controllers/ContractController.php:116` and `118`). With two readings, an anchor on today's date would be moved a month on, and that is not modelled.
- ContractController.SwitchPlan stores the corrected `BillingAnchor` as the new contract's `next_billing_date` and the payment's `due_date`, not the overflowing anchor the code computes. For a contract started on the 30th and changed on 2023-01-31 the code stores 2023-03-02 and the model 2023-02-28. The two agree for original days 1 to 28 (`BillingAnchorsAgree`).
- ContractController.Upgrade inherits the corrected anchor from `SwitchPlan`, as above.
- The `created_at` and `updated_at` timestamp columns of contracts and payments are not modelled. No handler reads them.
- Api.RedeemOnExpiryDay holds at day granularity only. Whether the code accepts a credit later on its expiry day depends on the time stored in `expires_at`, and the credits table is not part of this model.
- Api.Subscribe follows the code: it does not reject an inactive plan, and it does not reject a user who already holds an active contract.
- Api.UseCredit follows the code: a rejected redemption answers 500, not a conflict status.
- The proration follows the code: a credit larger than the new price is dropped, not recorded as a separate credit, because the code never creates one.

## Findings

| source | as written | input that shows it | evidently intended | confidence | as-written member | corrected member |
|---|---|---|---|---|---|---|
| api/app/Http/Controllers/ContractController.php:115-120 | `now()->day($originalDay)` and `addMonth()` both overflow into the following month, so the anchor can skip the next month entirely | a contract started on the 30th, changed on 2023-01-31, gets 2023-03-02 as its next billing date | the original day in the current month, or in the next month once it has passed, cut to the month's length (2023-02-28 here) | not executed | Proration.BillingAnchorAsWritten (shown by Proration.BillingAnchorAsWrittenSkipsMonth) | Proration.BillingAnchor (Proration.BillingAnchorSpec), used by ContractController.Upgrade |
