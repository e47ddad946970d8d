/**
 * Rules shared by both front-ends: the outcome of an operation, the balance
 * arithmetic of a deduction, and request rejection, which the web console and
 * both chat handlers implement identically.
 */
module LeaveRules {
  import opened Database

  /** What an operation reports back to the front-end that called it. */
  datatype Outcome =
    | Done                  // the change was committed
    | NotFoundOrProcessed   // no such record, or it is not in the state the operation acts on
    | InsufficientBalance   // the balance check failed; nothing changed
    | Unauthorized          // the caller lacks the role the handler checks; nothing changed
    | Fault                 // the source raises before its commit; nothing changed

  /** The leave kinds the approval code deducts for: the daily and the hourly label. */
  predicate DeductsBalance(kind: LeaveKind) {
    kind == Daily || kind == Hourly
  }

  /** The balance a request draws on: days for a daily request, hours otherwise. */
  function Balance(e: Employee, daily: bool): real {
    if daily then e.dailyBalance else e.hourlyBalance
  }

  /** The employee with the chosen balance lowered by q. */
  function Deduct(e: Employee, daily: bool, q: real): (d: Employee)
    ensures Balance(d, daily) == Balance(e, daily) - q
    ensures Balance(d, !daily) == Balance(e, !daily)
    ensures d.(dailyBalance := e.dailyBalance, hourlyBalance := e.hourlyBalance) == e
  {
    if daily then e.(dailyBalance := e.dailyBalance - q) else e.(hourlyBalance := e.hourlyBalance - q)
  }

  /** `after` is `before` with exactly one balance of employee eid lowered by exactly q. */
  ghost predicate LowersOneBalance(before: map<EmployeeId, Employee>, after: map<EmployeeId, Employee>,
                                   eid: EmployeeId, daily: bool, q: real) {
    eid in before && after == before[eid := Deduct(before[eid], daily, q)]
  }

  /** The invariant the balance checks protect: no balance is negative. */
  ghost predicate BalancesNonNegative(employees: map<EmployeeId, Employee>) {
    forall id :: id in employees ==> employees[id].dailyBalance >= 0.0 && employees[id].hourlyBalance >= 0.0
  }

  /** Monthly quotas are never negative (they default to 2 days and 4 hours and no operation here changes them). */
  ghost predicate QuotasNonNegative(employees: map<EmployeeId, Employee>) {
    forall id :: id in employees ==> employees[id].dailyQuota >= 0.0 && employees[id].hourlyQuota >= 0.0
  }

  /** Rejecting a leave request: only a pending request is rejected, and no balance changes. */
  ghost function AfterReject(s: Store, rid: RequestId): (r: (Store, Outcome))
    ensures r.1 == Done <==> rid in s.requests && s.requests[rid].status == Pending
    ensures r.1 != Done ==> r.0 == s && r.1 == NotFoundOrProcessed
    ensures r.0.employees == s.employees && r.0.holidays == s.holidays
    ensures r.0.nextEmployeeId == s.nextEmployeeId && r.0.nextRequestId == s.nextRequestId
    ensures r.0.requests.Keys == s.requests.Keys
    ensures r.1 == Done ==> r.0.requests[rid] == s.requests[rid].(status := Rejected)
    ensures forall other :: other in s.requests && other != rid ==> r.0.requests[other] == s.requests[other]
    ensures StoreValid(s) ==> StoreValid(r.0)
  {
    if rid in s.requests && s.requests[rid].status == Pending then
      (s.(requests := s.requests[rid := s.requests[rid].(status := Rejected)]), Done)
    else (s, NotFoundOrProcessed)
  }
}
