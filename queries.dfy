/**
 * The read routes of `api/routes/api.php`: each is a `where` filter over one
 * table followed, for some, by an `orderBy`.
 */
module Queries {
  import opened Wrappers
  import opened Calendar
  import opened Ledger
  import opened Sorting

  /** `whereHas('contract', where user_id = u)`: the payment's contract belongs to `u`. */
  predicate PaysContractOf(contracts: seq<Contract>, p: Payment, u: UserId) {
    exists c :: c in contracts && c.id == p.contractId && c.userId == u
  }

  /** GET /plans: the active plans, cheapest first. */
  function ActivePlans(plans: seq<Plan>): (r: seq<Plan>)
    ensures forall p :: multiset(r)[p] == if p.active then multiset(plans)[p] else 0
    ensures forall i, j :: 0 <= i < j < |r| ==> r[i].price <= r[j].price
  {
    SortBy(Filter(plans, (p: Plan) => p.active), (p: Plan) => p.price)
  }

  /** GET /contract-active/{userId}: the user's active contract with the lowest id, if any. */
  function ActiveContract(contracts: seq<Contract>, u: UserId): (r: Option<Contract>)
    ensures r.Some? ==> r.value in contracts && ActiveOf(r.value, u)
    ensures r.None? <==> forall c :: c in contracts ==> !ActiveOf(c, u)
    ensures r.Some? ==> exists k :: (0 <= k < |contracts| && contracts[k] == r.value
                                      && forall i :: 0 <= i < k ==> !ActiveOf(contracts[i], u))
  {
    match FirstActiveIndex(contracts, u)
    case None => None
    case Some(k) => Some(contracts[k])
  }

  /** GET /contracts/{userId}: all of the user's contracts, most recently started first. */
  function ContractHistory(contracts: seq<Contract>, u: UserId): (r: seq<Contract>)
    ensures forall c :: multiset(r)[c] == if c.userId == u then multiset(contracts)[c] else 0
    ensures forall i, j :: 0 <= i < j < |r| ==> DayNumber(r[j].startedAt) <= DayNumber(r[i].startedAt)
  {
    SortBy(Filter(contracts, (c: Contract) => c.userId == u), (c: Contract) => -(DayNumber(c.startedAt) as real))
  }

  /**
   * GET /payments?user_id=u: 400 when the parameter is missing, is `0` (which
   * PHP reads as false) or names no user; otherwise the payments on the user's contracts, earliest due first.
   */
  function UserPayments(users: set<UserId>, contracts: seq<Contract>, payments: seq<Payment>, userId: Option<UserId>)
    : (r: Result<seq<Payment>, HttpError>)
    ensures r.Failure? <==> userId.None? || userId.value == 0 || userId.value !in users
    ensures r.Failure? ==> r.error == HttpError(400, InvalidUserParameter)
    ensures r.Success? ==> forall p :: (multiset(r.value)[p]
                                        == if PaysContractOf(contracts, p, userId.value) then multiset(payments)[p] else 0)
    ensures r.Success? ==> forall i, j :: 0 <= i < j < |r.value| ==> DayNumber(r.value[i].dueDate) <= DayNumber(r.value[j].dueDate)
  {
    match userId
    case None => Failure(HttpError(400, InvalidUserParameter))
    case Some(u) =>
      if u == 0 || u !in users then Failure(HttpError(400, InvalidUserParameter))
      else
        var owned := Filter(payments, (p: Payment) => PaysContractOf(contracts, p, u));
        Success(SortBy(owned, (p: Payment) => DayNumber(p.dueDate) as real))
  }

  /**
   * GET /credits?user_id=u: the `credited` payments on the user's contracts.
   * Without the parameter the query asks for contracts whose user is null, and
   * there are none.
   */
  function CreditedPayments(contracts: seq<Contract>, payments: seq<Payment>, userId: Option<UserId>): (r: seq<Payment>)
    ensures userId.None? ==> r == []
    ensures userId.Some? ==> forall p :: (multiset(r)[p]
                                          == if p.status == Credited && PaysContractOf(contracts, p, userId.value)
                                             then multiset(payments)[p] else 0)
  {
    match userId
    case None => []
    case Some(u) => Filter(payments, (p: Payment) => PaysContractOf(contracts, p, u) && p.status == Credited)
  }
}
