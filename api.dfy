/**
 * The write routes of `api/routes/api.php` that Laravel serves (for
 * `POST /contracts` and `POST /contracts/upgrade` the later registration
 * replaces the earlier one). Each handler runs in one transaction: it either
 * applies all of its writes or answers an error with the ledger unchanged.
 * The clock is read once per request and passed in as `now`.
 */
module Api {
  import opened Wrappers
  import opened Calendar
  import opened Ledger
  import opened Proration

  /** The response of a plan change: the new contract and the credit applied. */
  datatype UpgradeReceipt = UpgradeReceipt(contract: Contract, credit: real)

  /** `['status' => 'inactive', 'ended_at' => now()]` on a contract row. */
  function Closed(c: Contract, now: Date): (r: Contract)
    ensures r.status == Inactive && r.endedAt == Some(now)
    ensures r.id == c.id && r.userId == c.userId && r.planId == c.planId && r.monthlyAmount == c.monthlyAmount
    ensures r.startedAt == c.startedAt && r.nextBillingDate == c.nextBillingDate
  {
    c.(status := Inactive, endedAt := Some(now))
  }

  /** Setting a payment to paid: status changes, no other column does, and no other row. */
  function Settled(payments: seq<Payment>, id: Id): (r: seq<Payment>)
    requires HasId(payments, id)
    ensures |r| == |payments| && r[id - 1].status == Paid
    ensures r[id - 1] == payments[id - 1].(status := Paid)
    ensures forall i :: 0 <= i < |payments| && i != id - 1 ==> r[i] == payments[i]
  {
    payments[id - 1 := payments[id - 1].(status := Paid)]
  }

  lemma SettledIdempotent(payments: seq<Payment>, id: Id)
    requires HasId(payments, id)
    ensures Settled(Settled(payments, id), id) == Settled(payments, id)
  {
  }

  /**
   * POST /payments/{id}/pay: marks the payment paid whatever its status.
   * `paid_at` and `pix_code` are not fillable, so the update drops them.
   */
  method Pay(db: Database, paymentId: Id) returns (r: Outcome<HttpError>)
    requires db.Valid()
    modifies db`payments
    ensures db.Valid()
    ensures r.Fail? <==> !HasId(old(db.payments), paymentId)
    ensures r.Fail? ==> r.error == HttpError(404, NotFound) && db.payments == old(db.payments)
    ensures r.Pass? ==> db.payments == Settled(old(db.payments), paymentId)
  {
    if !HasId(db.payments, paymentId) {
      return Fail(HttpError(404, NotFound));
    }
    db.payments := Settled(db.payments, paymentId);
    r := Pass;
  }

  /**
   * POST /contracts: a new active contract on the plan, priced at the plan's
   * current price and next billed one month on, and its first pending payment.
   * It does not check for a contract the user already holds.
   */
  method Subscribe(db: Database, userId: UserId, planId: Id, now: Date) returns (r: Result<Contract, HttpError>)
    requires db.Valid() && ValidDate(now)
    modifies db`contracts, db`payments
    ensures db.Valid()
    ensures r.Failure? <==> userId !in db.users || PlanWithId(db.plans, planId).None?
    ensures r.Failure? ==> r.error == HttpError(422, ValidationFailed)
    ensures r.Failure? ==> db.contracts == old(db.contracts) && db.payments == old(db.payments)
    ensures r.Success? ==>
      var price := PlanWithId(db.plans, planId).value.price;
      && r.value == Contract(|old(db.contracts)| + 1, userId, planId, price, Active, now, None, AddMonth(now))
      && db.contracts == old(db.contracts) + [r.value]
      && db.payments == old(db.payments) + [Payment(|old(db.payments)| + 1, r.value.id, price, r.value.nextBillingDate, Pending)]
    ensures r.Success? ==> forall u :: CountActive(db.contracts, u)
                                      == CountActive(old(db.contracts), u) + (if u == userId then 1 else 0)
  {
    if userId !in db.users || PlanWithId(db.plans, planId).None? {
      return Failure(HttpError(422, ValidationFailed));
    }
    var plan := PlanWithId(db.plans, planId).value;
    AddMonthShift(now);
    var contract := Contract(|db.contracts| + 1, userId, plan.id, plan.price, Active, now, None, AddMonth(now));
    forall u ensures CountActive(db.contracts + [contract], u)
                     == CountActive(db.contracts, u) + (if u == userId then 1 else 0) {
      CountActiveAppend(db.contracts, contract, u);
    }
    db.contracts := db.contracts + [contract];
    db.payments := db.payments + [Payment(|db.payments| + 1, contract.id, plan.price, contract.nextBillingDate, Pending)];
    r := Success(contract);
  }

  /**
   * POST /contracts/upgrade: closes the user's first active contract, opens
   * one on the new plan next billed a month on, and charges the new price less
   * the unused-time credit of the old contract, as a pending payment. The old
   * contract's payments are left as they are.
   */
  method Upgrade(db: Database, userId: UserId, planId: Id, now: Date) returns (r: Result<UpgradeReceipt, HttpError>)
    requires db.Valid() && ValidDate(now)
    modifies db`contracts, db`payments
    ensures db.Valid()
    ensures userId !in db.users || PlanWithId(db.plans, planId).None? ==>
      r == Failure(HttpError(422, ValidationFailed))
    ensures userId in db.users && PlanWithId(db.plans, planId).Some? && FirstActiveIndex(old(db.contracts), userId).None? ==>
      r == Failure(HttpError(500, NoActiveContract))
    ensures r.Success? <==> userId in db.users && PlanWithId(db.plans, planId).Some?
                            && FirstActiveIndex(old(db.contracts), userId).Some?
    ensures r.Failure? ==> db.contracts == old(db.contracts) && db.payments == old(db.payments)
    ensures r.Success? ==>
      && userId in db.users && FirstActiveIndex(old(db.contracts), userId).Some?
      && var k := FirstActiveIndex(old(db.contracts), userId).value;
      && var previous := old(db.contracts)[k];
      && var price := PlanWithId(db.plans, planId).value.price;
      && r.value.credit == ContractCredit(previous, now)
      && r.value.contract == Contract(|old(db.contracts)| + 1, userId, planId, price, Active, now, None, AddMonth(now))
      && db.contracts == old(db.contracts)[k := Closed(previous, now)] + [r.value.contract]
      && db.payments == old(db.payments)
           + [Payment(|old(db.payments)| + 1, r.value.contract.id, AdjustedAmount(price, r.value.credit),
                      r.value.contract.nextBillingDate, Pending)]
    ensures r.Success? ==> forall u :: CountActive(db.contracts, u) == CountActive(old(db.contracts), u)
  {
    if userId !in db.users || PlanWithId(db.plans, planId).None? {
      return Failure(HttpError(422, ValidationFailed));
    }
    var plan := PlanWithId(db.plans, planId).value;
    var found := FirstActiveIndex(db.contracts, userId);
    if found.None? {
      return Failure(HttpError(500, NoActiveContract));
    }
    var k := found.value;
    var previous := db.contracts[k];
    var credit := ContractCredit(previous, now);

    AddMonthShift(now);
    var contract := Contract(|db.contracts| + 1, userId, plan.id, plan.price, Active, now, None, AddMonth(now));
    var closed := Closed(previous, now);
    CountActiveSwap(db.contracts, k, closed, contract);
    db.contracts := db.contracts[k := closed] + [contract];

    var amount := AdjustedAmount(plan.price, credit);
    db.payments := db.payments + [Payment(|db.payments| + 1, contract.id, amount, contract.nextBillingDate, Pending)];
    r := Success(UpgradeReceipt(contract, credit));
  }

  /**
   * Whether POST /use-credit goes through, in the order the handler checks:
   * both rows must exist (404 otherwise), the credit must be unused and not
   * expired, and the payment must still be pending (500 otherwise).
   */
  function RedeemCheck(credits: seq<Credit>, payments: seq<Payment>, creditId: Id, paymentId: Id, now: Date)
    : (r: Outcome<HttpError>)
    ensures r.Pass? <==> (HasId(credits, creditId) && HasId(payments, paymentId)
                          && !credits[creditId - 1].isUsed && !Before(credits[creditId - 1].expiresAt, now)
                          && payments[paymentId - 1].status == Pending)
    ensures !HasId(credits, creditId) || !HasId(payments, paymentId) ==> r == Fail(HttpError(404, NotFound))
    ensures HasId(credits, creditId) && HasId(payments, paymentId) && credits[creditId - 1].isUsed ==>
      r == Fail(HttpError(500, CreditUsedOrExpired))
  {
    if !HasId(credits, creditId) || !HasId(payments, paymentId) then Fail(HttpError(404, NotFound))
    else if credits[creditId - 1].isUsed || Before(credits[creditId - 1].expiresAt, now) then
      Fail(HttpError(500, CreditUsedOrExpired))
    else if payments[paymentId - 1].status != Pending then Fail(HttpError(500, PaymentNotPending))
    else Pass
  }

  /** A credit is redeemed at most once: after a redemption the same credit is refused. */
  lemma RedeemOnce(credits: seq<Credit>, payments: seq<Payment>, creditId: Id, paymentId: Id, now: Date,
                   paymentId': Id, now': Date)
    requires RedeemCheck(credits, payments, creditId, paymentId, now).Pass?
    ensures var used := credits[creditId - 1 := credits[creditId - 1].(isUsed := true)];
      RedeemCheck(used, Settled(payments, paymentId), creditId, paymentId', now').Fail?
  {
  }

  /** A credit that expires today is still accepted. */
  lemma RedeemOnExpiryDay(credits: seq<Credit>, payments: seq<Payment>, creditId: Id, paymentId: Id)
    requires HasId(credits, creditId) && HasId(payments, paymentId)
    requires !credits[creditId - 1].isUsed && payments[paymentId - 1].status == Pending
    ensures RedeemCheck(credits, payments, creditId, paymentId, credits[creditId - 1].expiresAt) == Pass
  {
  }

  /** POST /use-credit: marks the credit used and the payment paid, both or neither. */
  method UseCredit(db: Database, creditId: Id, paymentId: Id, now: Date) returns (r: Outcome<HttpError>)
    requires db.Valid()
    modifies db`credits, db`payments
    ensures db.Valid()
    ensures r == RedeemCheck(old(db.credits), old(db.payments), creditId, paymentId, now)
    ensures r.Fail? ==> db.credits == old(db.credits) && db.payments == old(db.payments)
    ensures r.Pass? ==> db.credits == old(db.credits)[creditId - 1 := old(db.credits)[creditId - 1].(isUsed := true)]
    ensures r.Pass? ==> db.payments == Settled(old(db.payments), paymentId)
  {
    r := RedeemCheck(db.credits, db.payments, creditId, paymentId, now);
    if r.Fail? {
      return;
    }
    db.credits := db.credits[creditId - 1 := db.credits[creditId - 1].(isUsed := true)];
    db.payments := Settled(db.payments, paymentId);
  }
}
