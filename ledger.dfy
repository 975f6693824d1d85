/**
 * The ledger: the `plans`, `users`, `contracts`, `payments` and `credits`
 * tables as in-memory sequences. Ids are auto-increment and rows are never
 * deleted, so the row with id `k` is always at index `k - 1`.
 *
 * Column types follow the migrations: a contract's status is active or
 * inactive, a payment's status is pending, paid or credited; money is a real
 * number (the `decimal(10,2)` rounding of the database is not modelled).
 */
module Ledger {
  import opened Wrappers
  import opened Calendar

  type UserId = nat
  type Id = nat

  datatype Plan = Plan(id: Id, price: real, active: bool)

  datatype ContractStatus = Active | Inactive

  /** The fillable columns of a contract row. */
  datatype Contract = Contract(
    id: Id,
    userId: UserId,
    planId: Id,
    monthlyAmount: real,
    status: ContractStatus,
    startedAt: Date,
    endedAt: Option<Date>,
    nextBillingDate: Date)

  datatype PaymentStatus = Pending | Paid | Credited

  /** The fillable columns of a payment row (the free-text description is not modelled). */
  datatype Payment = Payment(
    id: Id,
    contractId: Id,
    amount: real,
    dueDate: Date,
    status: PaymentStatus)

  datatype Credit = Credit(
    id: Id,
    userId: UserId,
    contractId: Id,
    amount: real,
    expiresAt: Date,
    isUsed: bool)

  /** Why a request failed, and the HTTP status it answers with. */
  datatype Reason =
    | ValidationFailed      // a required id is missing or not in its table
    | NotFound              // findOrFail on an id that has no row
    | NoActiveContract      // the user has no active contract to change
    | CreditUsedOrExpired
    | PaymentNotPending
    | InvalidUserParameter  // the user_id query parameter is missing or unknown

  datatype HttpError = HttpError(status: nat, reason: Reason)

  predicate HasId<T>(rows: seq<T>, id: Id) {
    1 <= id <= |rows|
  }

  predicate ActiveOf(c: Contract, u: UserId) {
    c.userId == u && c.status == Active
  }

  /** The plan with the given id (`exists:plans,id`, `Plan::findOrFail`). */
  function PlanWithId(plans: seq<Plan>, id: Id): (r: Option<Plan>)
    ensures r.Some? ==> r.value in plans && r.value.id == id
    ensures r.None? ==> forall p :: p in plans ==> p.id != id
  {
    if |plans| == 0 then None
    else if plans[0].id == id then Some(plans[0])
    else PlanWithId(plans[1..], id)
  }

  /**
   * The first active contract of a user, by id:
   * `Contract::where('user_id', u)->where('status', 'active')->first()`.
   */
  function FirstActiveIndex(cs: seq<Contract>, u: UserId): (r: Option<nat>)
    ensures r.Some? ==> r.value < |cs| && ActiveOf(cs[r.value], u)
    ensures r.Some? ==> forall i :: 0 <= i < r.value ==> !ActiveOf(cs[i], u)
    ensures r.None? ==> forall i :: 0 <= i < |cs| ==> !ActiveOf(cs[i], u)
  {
    if |cs| == 0 then None
    else if ActiveOf(cs[0], u) then Some(0)
    else match FirstActiveIndex(cs[1..], u)
      case None => None
      case Some(k) => Some(k + 1)
  }

  /** The number of active contracts a user holds. */
  function CountActive(cs: seq<Contract>, u: UserId): nat {
    if |cs| == 0 then 0
    else CountActive(cs[..|cs| - 1], u) + (if ActiveOf(cs[|cs| - 1], u) then 1 else 0)
  }

  lemma {:induction false} CountActiveZero(cs: seq<Contract>, u: UserId)
    ensures CountActive(cs, u) == 0 <==> forall i :: 0 <= i < |cs| ==> !ActiveOf(cs[i], u)
  {
    if |cs| > 0 {
      CountActiveZero(cs[..|cs| - 1], u);
      assert forall i :: 0 <= i < |cs| - 1 ==> cs[..|cs| - 1][i] == cs[i];
    }
  }

  lemma CountActiveAppend(cs: seq<Contract>, c: Contract, u: UserId)
    ensures CountActive(cs + [c], u) == CountActive(cs, u) + (if ActiveOf(c, u) then 1 else 0)
  {
    assert (cs + [c])[..|cs|] == cs;
  }

  /** Replacing one row changes the count by what the row contributes before and after. */
  lemma {:induction false} CountActiveReplace(cs: seq<Contract>, k: nat, c: Contract, u: UserId)
    requires k < |cs|
    ensures CountActive(cs[k := c], u) + (if ActiveOf(cs[k], u) then 1 else 0)
         == CountActive(cs, u) + (if ActiveOf(c, u) then 1 else 0)
  {
    var n := |cs| - 1;
    if k < n {
      assert cs[k := c][..n] == cs[..n][k := c];
      CountActiveReplace(cs[..n], k, c, u);
    } else {
      assert cs[k := c][..n] == cs[..n];
    }
  }

  /**
   * Closing a user's active contract and opening an active one for the same
   * user leaves every user's number of active contracts as it was.
   */
  lemma CountActiveSwap(cs: seq<Contract>, k: nat, closed: Contract, c: Contract)
    requires k < |cs| && cs[k].status == Active && closed.status == Inactive
    requires c.status == Active && c.userId == cs[k].userId
    ensures forall u :: CountActive(cs[k := closed] + [c], u) == CountActive(cs, u)
  {
    forall u ensures CountActive(cs[k := closed] + [c], u) == CountActive(cs, u) {
      CountActiveReplace(cs, k, closed, u);
      CountActiveAppend(cs[k := closed], c, u);
    }
  }

  /** Contract ids are auto-increment, users and plans exist, and the dates are real dates. */
  ghost predicate ContractsWellFormed(users: set<UserId>, plans: seq<Plan>, cs: seq<Contract>) {
    forall i :: 0 <= i < |cs| ==>
      cs[i].id == i + 1 && cs[i].userId in users && PlanWithId(plans, cs[i].planId).Some?
      && ValidDate(cs[i].startedAt) && ValidDate(cs[i].nextBillingDate)
  }

  /** Payment ids are auto-increment, every payment's contract exists, and due dates are real dates. */
  ghost predicate PaymentsWellFormed(cs: seq<Contract>, ps: seq<Payment>) {
    forall i :: 0 <= i < |ps| ==>
      ps[i].id == i + 1 && HasId(cs, ps[i].contractId) && ValidDate(ps[i].dueDate)
  }

  ghost predicate CreditsWellFormed(users: set<UserId>, credits: seq<Credit>) {
    forall i :: 0 <= i < |credits| ==> credits[i].id == i + 1 && credits[i].userId in users
  }

  /** Closing one contract and opening another keeps the contracts table well formed. */
  lemma ContractsWellFormedReplaceAppend(users: set<UserId>, plans: seq<Plan>, cs: seq<Contract>, k: nat,
                                         closed: Contract, c: Contract)
    requires ContractsWellFormed(users, plans, cs) && k < |cs|
    requires closed == cs[k].(status := closed.status, endedAt := closed.endedAt)
    requires c.id == |cs| + 1 && c.userId in users && PlanWithId(plans, c.planId).Some?
    requires ValidDate(c.startedAt) && ValidDate(c.nextBillingDate)
    ensures ContractsWellFormed(users, plans, cs[k := closed] + [c])
  {
  }

  lemma PaymentsWellFormedGrow(cs: seq<Contract>, cs': seq<Contract>, ps: seq<Payment>)
    requires PaymentsWellFormed(cs, ps) && |cs| <= |cs'|
    ensures PaymentsWellFormed(cs', ps)
  {
  }

  lemma PaymentsWellFormedAppend(cs: seq<Contract>, ps: seq<Payment>, p: Payment)
    requires PaymentsWellFormed(cs, ps)
    requires p.id == |ps| + 1 && HasId(cs, p.contractId) && ValidDate(p.dueDate)
    ensures PaymentsWellFormed(cs, ps + [p])
  {
  }

  /** The database the request handlers read and write. */
  class Database {
    var users: set<UserId>
    var plans: seq<Plan>
    var contracts: seq<Contract>
    var payments: seq<Payment>
    var credits: seq<Credit>

    /** Auto-increment ids, the foreign keys of the migrations, and well-formed dates. */
    ghost predicate Valid()
      reads this
    {
      && ContractsWellFormed(users, plans, contracts)
      && PaymentsWellFormed(contracts, payments)
      && CreditsWellFormed(users, credits)
    }

    /** A ledger over the given users and plan catalogue, with no contracts yet. */
    constructor (users: set<UserId>, plans: seq<Plan>)
      ensures Valid()
      ensures this.users == users && this.plans == plans
      ensures contracts == [] && payments == [] && credits == []
    {
      this.users := users;
      this.plans := plans;
      contracts := [];
      payments := [];
      credits := [];
    }
  }
}
