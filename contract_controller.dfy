/**
 * `ContractController`: the `active` and `history` queries and the
 * anchored variant of a plan change. The controller is not reached from any
 * route of `api/routes/api.php`; its `upgrade` differs from the route's in
 * three ways: the new payment is recorded as paid, it falls due on the
 * billing anchor rather than a month on, and the old contract's pending
 * payments are absorbed as credited.
 */
module ContractController {
  import opened Wrappers
  import opened Calendar
  import opened Ledger
  import opened Sorting
  import opened Proration
  import Queries
  import Api

  datatype ActiveResponse = ActiveResponse(contract: Option<Contract>, found: bool)

  /** `active($userId)`: an active contract of the user or null, and which message goes with it. */
  function Active(contracts: seq<Contract>, u: UserId): (r: ActiveResponse)
    ensures r.found <==> r.contract.Some?
    ensures r.contract.Some? ==> r.contract.value in contracts && ActiveOf(r.contract.value, u)
    ensures r.contract.None? <==> forall c :: c in contracts ==> !ActiveOf(c, u)
  {
    var c := Queries.ActiveContract(contracts, u);
    ActiveResponse(c, c.Some?)
  }

  datatype HistoryResponse = HistoryResponse(contracts: seq<Contract>, count: nat)

  /** `history($userId)`: the user's contracts, most recently started first, and how many there are. */
  function History(contracts: seq<Contract>, u: UserId): (r: HistoryResponse)
    ensures r.count == |r.contracts|
    ensures forall c :: multiset(r.contracts)[c] == if c.userId == u then multiset(contracts)[c] else 0
    ensures forall i, j :: 0 <= i < j < |r.contracts| ==>
      DayNumber(r.contracts[j].startedAt) <= DayNumber(r.contracts[i].startedAt)
  {
    var cs := Queries.ContractHistory(contracts, u);
    HistoryResponse(cs, |cs|)
  }

  /**
   * `Payment::where('contract_id', id)->where('status', 'pending')->update(['status' => 'credited'])`.
   */
  function AbsorbPending(payments: seq<Payment>, contractId: Id): (r: seq<Payment>)
    ensures |r| == |payments|
    ensures forall i :: 0 <= i < |r| ==>
      r[i].id == payments[i].id && r[i].contractId == payments[i].contractId
      && r[i].amount == payments[i].amount && r[i].dueDate == payments[i].dueDate
    ensures forall i :: 0 <= i < |r| && payments[i].contractId == contractId && payments[i].status == Pending ==>
      r[i].status == Credited
    ensures forall i :: 0 <= i < |r| && (payments[i].contractId != contractId || payments[i].status != Pending) ==>
      r[i] == payments[i]
    ensures forall i :: 0 <= i < |r| && r[i].contractId == contractId ==> r[i].status != Pending
  {
    if |payments| == 0 then []
    else
      var p := payments[0];
      var head := if p.contractId == contractId && p.status == Pending then p.(status := Credited) else p;
      [head] + AbsorbPending(payments[1..], contractId)
  }

  /** A payment on another contract is untouched by the bulk update, wherever it stands. */
  lemma {:induction false} AbsorbPendingAppend(payments: seq<Payment>, p: Payment, contractId: Id)
    requires p.contractId != contractId
    ensures AbsorbPending(payments + [p], contractId) == AbsorbPending(payments, contractId) + [p]
  {
    if |payments| > 0 {
      assert (payments + [p])[1..] == payments[1..] + [p];
      AbsorbPendingAppend(payments[1..], p, contractId);
    }
  }

  lemma AbsorbPendingWellFormed(cs: seq<Contract>, payments: seq<Payment>, contractId: Id)
    requires PaymentsWellFormed(cs, payments)
    ensures PaymentsWellFormed(cs, AbsorbPending(payments, contractId))
  {
  }

  /**
   * Recording the new contract's payment and then absorbing the old contract's
   * pending payments leaves the new payment as it was and the table well formed.
   */
  lemma RecordThenAbsorb(cs: seq<Contract>, cs': seq<Contract>, payments: seq<Payment>, p: Payment, contractId: Id)
    requires PaymentsWellFormed(cs, payments) && |cs| <= |cs'|
    requires p.id == |payments| + 1 && HasId(cs', p.contractId) && ValidDate(p.dueDate)
    requires p.contractId != contractId
    ensures AbsorbPending(payments + [p], contractId) == AbsorbPending(payments, contractId) + [p]
    ensures PaymentsWellFormed(cs', AbsorbPending(payments + [p], contractId))
  {
    PaymentsWellFormedGrow(cs, cs', payments);
    PaymentsWellFormedAppend(cs', payments, p);
    AbsorbPendingAppend(payments, p, contractId);
    AbsorbPendingWellFormed(cs', payments + [p], contractId);
  }

  /** The response of the anchored plan change: the new contract, its payment and the credit applied. */
  datatype AnchoredReceipt = AnchoredReceipt(contract: Contract, payment: Payment, credit: real)

  /**
   * The writes of the anchored plan change once contract `k` has been picked:
   * close it, open the new contract on its anchor day, record the paid
   * payment and absorb the old contract's pending payments.
   */
  method SwitchPlan(db: Database, k: nat, plan: Plan, now: Date) returns (receipt: AnchoredReceipt)
    requires db.Valid() && ValidDate(now)
    requires k < |db.contracts| && db.contracts[k].status == ContractStatus.Active
    requires PlanWithId(db.plans, plan.id) == Some(plan)
    modifies db`contracts, db`payments
    ensures db.Valid()
    ensures var previous := old(db.contracts)[k];
      && receipt.credit == ContractCredit(previous, now)
      && receipt.contract == Contract(|old(db.contracts)| + 1, previous.userId, plan.id, plan.price,
                                      ContractStatus.Active, now, None, BillingAnchor(now, previous.startedAt.day))
      && receipt.payment == Payment(|old(db.payments)| + 1, receipt.contract.id,
                                    AdjustedAmount(plan.price, receipt.credit), receipt.contract.nextBillingDate, Paid)
      && db.contracts == old(db.contracts)[k := Api.Closed(previous, now)] + [receipt.contract]
      && db.payments == AbsorbPending(old(db.payments), previous.id) + [receipt.payment]
    ensures forall u :: CountActive(db.contracts, u) == CountActive(old(db.contracts), u)
  {
    var previous := db.contracts[k];
    var ended := Api.Closed(previous, now);
    var credit := ContractCredit(previous, now);
    BillingAnchorSpec(now, previous.startedAt.day);
    var anchor := BillingAnchor(now, previous.startedAt.day);

    var contract := Contract(|db.contracts| + 1, previous.userId, plan.id, plan.price, ContractStatus.Active, now, None, anchor);
    var contracts := db.contracts[k := ended] + [contract];
    CountActiveSwap(db.contracts, k, ended, contract);
    ContractsWellFormedReplaceAppend(db.users, db.plans, db.contracts, k, ended, contract);

    var amount := AdjustedAmount(plan.price, credit);
    var payment := Payment(|db.payments| + 1, contract.id, amount, anchor, Paid);
    var payments := AbsorbPending(db.payments + [payment], previous.id);
    RecordThenAbsorb(db.contracts, contracts, db.payments, payment, previous.id);

    db.contracts := contracts;
    db.payments := payments;
    receipt := AnchoredReceipt(contract, payment, credit);
  }

  /**
   * `upgrade`: closes some active contract of the user (`User::activeContract()`
   * picks it; which one is left open), opens one on the new plan billed on the
   * old contract's anchor day, records the new price less the unused-time
   * credit as a paid payment due on that day, and turns the old contract's
   * pending payments into credited ones. `closed` is the index of the
   * contract that was closed.
   */
  method Upgrade(db: Database, userId: UserId, planId: Id, now: Date)
    returns (r: Result<AnchoredReceipt, HttpError>, ghost closed: nat)
    requires db.Valid() && ValidDate(now)
    modifies db`contracts, db`payments
    ensures db.Valid()
    ensures userId !in db.users || PlanWithId(db.plans, planId).None? ==>
      r == Failure(HttpError(422, ValidationFailed))
    ensures userId in db.users && PlanWithId(db.plans, planId).Some? && CountActive(old(db.contracts), userId) == 0 ==>
      r == Failure(HttpError(400, NoActiveContract))
    ensures r.Success? <==> userId in db.users && PlanWithId(db.plans, planId).Some?
                            && CountActive(old(db.contracts), userId) > 0
    ensures r.Failure? ==> db.contracts == old(db.contracts) && db.payments == old(db.payments)
    ensures r.Success? ==>
      && userId in db.users && closed < |old(db.contracts)| && ActiveOf(old(db.contracts)[closed], userId)
      && var previous := old(db.contracts)[closed];
      && var price := PlanWithId(db.plans, planId).value.price;
      && r.value.credit == ContractCredit(previous, now)
      && r.value.contract == Contract(|old(db.contracts)| + 1, userId, planId, price, ContractStatus.Active, now, None,
                                      BillingAnchor(now, previous.startedAt.day))
      && r.value.payment == Payment(|old(db.payments)| + 1, r.value.contract.id, AdjustedAmount(price, r.value.credit),
                                    r.value.contract.nextBillingDate, Paid)
      && db.contracts == old(db.contracts)[closed := Api.Closed(previous, now)] + [r.value.contract]
      && db.payments == AbsorbPending(old(db.payments), previous.id) + [r.value.payment]
    ensures r.Success? ==> forall u :: CountActive(db.contracts, u) == CountActive(old(db.contracts), u)
  {
    closed := 0;
    if userId !in db.users || PlanWithId(db.plans, planId).None? {
      return Failure(HttpError(422, ValidationFailed)), closed;
    }
    var plan := PlanWithId(db.plans, planId).value;
    CountActiveZero(db.contracts, userId);
    if CountActive(db.contracts, userId) == 0 {
      return Failure(HttpError(400, NoActiveContract)), closed;
    }
    var k :| 0 <= k < |db.contracts| && ActiveOf(db.contracts[k], userId);
    closed := k;
    var receipt := SwitchPlan(db, k, plan, now);
    r := Success(receipt);
  }
}
