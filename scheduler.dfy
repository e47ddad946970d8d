/**
 * The monthly renewal job: on the first day of a month every approved
 * employee's two balances grow by that employee's monthly quotas, in one
 * transaction that either commits every change or rolls all of them back.
 */
module Scheduler {
  import opened Util
  import opened Database
  import opened LeaveRules

  /** The employees the renewal query selects. */
  function ApprovedIds(employees: map<EmployeeId, Employee>): (ids: set<EmployeeId>)
    ensures forall id :: id in ids <==> id in employees && employees[id].status == EmployeeApproved
  {
    set id | id in employees && employees[id].status == EmployeeApproved
  }

  /** One employee's renewal: each balance grows by its own monthly quota and nothing else changes. */
  function GrantMonthlyQuota(e: Employee): (g: Employee)
    ensures g.dailyBalance == e.dailyBalance + e.dailyQuota
    ensures g.hourlyBalance == e.hourlyBalance + e.hourlyQuota
    ensures g.(dailyBalance := e.dailyBalance, hourlyBalance := e.hourlyBalance) == e
  {
    e.(dailyBalance := e.dailyBalance + e.dailyQuota, hourlyBalance := e.hourlyBalance + e.hourlyQuota)
  }

  /** The employee table after a committed renewal. */
  ghost function RenewAll(employees: map<EmployeeId, Employee>): (r: map<EmployeeId, Employee>)
    ensures r.Keys == employees.Keys
    ensures forall id :: id in employees && employees[id].status == EmployeeApproved ==> r[id] == GrantMonthlyQuota(employees[id])
    ensures forall id :: id in employees && employees[id].status != EmployeeApproved ==> r[id] == employees[id]
  {
    map id | id in employees :: if employees[id].status == EmployeeApproved then GrantMonthlyQuota(employees[id]) else employees[id]
  }

  /**
   * The loop of the renewal job, over the approved employees in whatever
   * order the query returns them: it yields the renewed table and the
   * number of employees renewed.
   */
  method GrantAll(employees: map<EmployeeId, Employee>) returns (updated: map<EmployeeId, Employee>, count: nat)
    ensures updated == RenewAll(employees)
    ensures count == |ApprovedIds(employees)|
  {
    var todo := ApprovedIds(employees);
    ghost var done: set<EmployeeId> := {};
    updated := employees;
    count := 0;
    while todo != {}
      invariant todo !! done && todo + done == ApprovedIds(employees)
      invariant count == |done|
      invariant updated.Keys == employees.Keys
      invariant forall id :: id in employees ==>
        updated[id] == (if id in done then GrantMonthlyQuota(employees[id]) else employees[id])
      decreases |todo|
    {
      ghost var w := PickFrom(todo);
      var id :| id in todo;
      var employee := updated[id];
      employee := employee.(dailyBalance := employee.dailyBalance + employee.dailyQuota);
      employee := employee.(hourlyBalance := employee.hourlyBalance + employee.hourlyQuota);
      assert employee == GrantMonthlyQuota(employees[id]);
      updated := updated[id := employee];
      count := count + 1;
      done := done + {id};
      todo := todo - {id};
    }
    RenewedWhenAllDone(employees, updated, done);
  }

  /** A table in which exactly the approved employees have been granted their quotas is the renewed table. */
  lemma RenewedWhenAllDone(employees: map<EmployeeId, Employee>, updated: map<EmployeeId, Employee>, done: set<EmployeeId>)
    requires done == ApprovedIds(employees) && updated.Keys == employees.Keys
    requires forall id :: id in employees ==>
      updated[id] == (if id in done then GrantMonthlyQuota(employees[id]) else employees[id])
    ensures updated == RenewAll(employees)
  {
    forall id | id in employees
      ensures updated[id] == RenewAll(employees)[id]
    {
      assert id in done <==> employees[id].status == EmployeeApproved;
    }
  }

  /**
   * The renewal job's effect: nothing on any day but the first of the
   * month; on the first, the renewed table if the commit succeeds and the
   * unchanged store if it fails. The count is what the job logs for a
   * committed run.
   */
  ghost function AfterRenewal(s: Store, dayOfMonth: int, commitSucceeds: bool): (r: (Store, Option<nat>))
    ensures dayOfMonth != 1 || !commitSucceeds ==> r == (s, None)
    ensures dayOfMonth == 1 && commitSucceeds ==>
      r.0 == s.(employees := RenewAll(s.employees)) && r.1 == Some(|ApprovedIds(s.employees)|)
    ensures StoreValid(s) ==> StoreValid(r.0)
  {
    if dayOfMonth != 1 || !commitSucceeds then (s, None)
    else
      var renewed := RenewAll(s.employees);
      assert forall id :: id in renewed ==> renewed[id].telegramId == s.employees[id].telegramId;
      (s.(employees := renewed), Some(|ApprovedIds(s.employees)|))
  }

  /** The scheduled renewal job; the day of the month and the commit's success are inputs. */
  method RenewMonthlyLeaveBalance(db: LeaveDb, dayOfMonth: int, commitSucceeds: bool) returns (renewedCount: Option<nat>)
    modifies db
    ensures (db.Value(), renewedCount) == AfterRenewal(old(db.Value()), dayOfMonth, commitSucceeds)
  {
    if dayOfMonth != 1 {
      return None;
    }
    var updated, count := GrantAll(db.employees);
    if commitSucceeds {
      db.employees := updated;
      renewedCount := Some(count);
    } else {
      renewedCount := None;
    }
  }

  /** Renewal has no guard against a second run: two runs add each quota twice. */
  lemma RenewTwiceAddsTwice(employees: map<EmployeeId, Employee>, id: EmployeeId)
    requires id in employees && employees[id].status == EmployeeApproved
    ensures RenewAll(RenewAll(employees))[id].dailyBalance == employees[id].dailyBalance + 2.0 * employees[id].dailyQuota
    ensures RenewAll(RenewAll(employees))[id].hourlyBalance == employees[id].hourlyBalance + 2.0 * employees[id].hourlyQuota
  {
  }

  /** Renewal with non-negative quotas keeps every balance non-negative, and leaves the quotas as they were. */
  lemma RenewalKeepsBalancesNonNegative(employees: map<EmployeeId, Employee>)
    requires BalancesNonNegative(employees) && QuotasNonNegative(employees)
    ensures BalancesNonNegative(RenewAll(employees)) && QuotasNonNegative(RenewAll(employees))
  {
  }

  /** An approved employee with 0.5 days and 1 hour left and the default quotas ends with 2.5 days and 5 hours. */
  lemma RenewalExample()
    ensures
      var e := Employee(7, "A", Some("IT"), false, EmployeeApproved, 0.5, 1.0, DefaultDailyQuota, DefaultHourlyQuota);
      var r := RenewAll(map[1 := e])[1];
      r.dailyBalance == 2.5 && r.hourlyBalance == 5.0
  {
  }
}
