/**
 * The web console's leave logic: the day and hour counts it deducts, and the
 * admin actions approve, reject, delete, edit, approve-employee and direct
 * entry, each as a specification function on the store and a method that
 * updates the database session in place.
 */
module App {
  import opened Util
  import opened Calendar
  import opened Database
  import opened LeaveRules

  /** The approver label the web console records. */
  const WebApprover := "Admin (Web)"

  /** The note appended to the reason of a leave entered directly by the admin ("added by the administration"). */
  const AdminEntryNote := " [تمت الإضافة بواسطة الإدارة]"

  /** Walks the inclusive date range and counts the dates that are not Friday, Saturday or a holiday. */
  method CalculateLeaveDays(start: Date, end: Date, holidays: set<Date>) returns (days: nat)
    ensures days == WorkingDays(start, end, holidays)
  {
    days := 0;
    var current := start;
    while current <= end
      invariant start <= current
      invariant current <= end + 1 || current == start
      invariant days == WorkingDays(start, current - 1, holidays)
      decreases end - current
    {
      if Weekday(current) != Friday && Weekday(current) != Saturday && current !in holidays {
        days := days + 1;
      }
      current := current + 1;
    }
  }

  /** The hours of an hourly leave: 0 when either time is missing, otherwise the time difference in hours. */
  function LeaveHours(startTime: Option<TimeOfDay>, endTime: Option<TimeOfDay>): (h: real)
    ensures startTime == None || endTime == None ==> h == 0.0
    ensures startTime.Some? && endTime.Some? ==> h * 3600.0 == (endTime.value - startTime.value) as real
  {
    if startTime.None? || endTime.None? then 0.0
    else HoursBetween(startTime.value, endTime.value)
  }

  /** The quantity the web console deducts for a request: holiday-aware working days, or hours. */
  function WebQuantity(req: LeaveRequest, holidays: set<Date>): real {
    if req.kind == Daily then WorkingDays(req.startDate, req.endDate, holidays) as real
    else LeaveHours(req.startTime, req.endTime)
  }

  /**
   * Approving a leave request from the web console. Only a pending request is
   * acted on; a daily or hourly request also needs its owner and a balance at
   * least the quantity, which is then deducted from that one balance; the
   * request becomes approved with the web approver label.
   */
  ghost function AfterWebApprove(s: Store, rid: RequestId): (r: (Store, Outcome))
    ensures r.1 != Done ==> r.0 == s
    ensures r.1 == NotFoundOrProcessed <==> rid !in s.requests || s.requests[rid].status != Pending
    ensures r.1 == Fault <==>
      rid in s.requests && s.requests[rid].status == Pending && DeductsBalance(s.requests[rid].kind) &&
      s.requests[rid].employeeId !in s.employees
    ensures r.1 == InsufficientBalance <==>
      rid in s.requests && s.requests[rid].status == Pending && DeductsBalance(s.requests[rid].kind) &&
      s.requests[rid].employeeId in s.employees &&
      Balance(s.employees[s.requests[rid].employeeId], s.requests[rid].kind == Daily)
        < WebQuantity(s.requests[rid], HolidayCalendar(s.holidays))
    ensures r.1 == Done ==>
      rid in s.requests &&
      r.0.requests == s.requests[rid := s.requests[rid].(status := Approved, approvedBy := Some(WebApprover))] &&
      r.0.holidays == s.holidays && r.0.nextEmployeeId == s.nextEmployeeId && r.0.nextRequestId == s.nextRequestId
    ensures r.1 == Done && DeductsBalance(s.requests[rid].kind) ==>
      LowersOneBalance(s.employees, r.0.employees, s.requests[rid].employeeId, s.requests[rid].kind == Daily,
                       WebQuantity(s.requests[rid], HolidayCalendar(s.holidays)))
    ensures r.1 == Done && !DeductsBalance(s.requests[rid].kind) ==> r.0.employees == s.employees
    ensures StoreValid(s) ==> StoreValid(r.0)
  {
    if rid !in s.requests || s.requests[rid].status != Pending then (s, NotFoundOrProcessed)
    else
      var req := s.requests[rid];
      var approved := s.(requests := s.requests[rid := req.(status := Approved, approvedBy := Some(WebApprover))]);
      if !DeductsBalance(req.kind) then (approved, Done)
      else if req.employeeId !in s.employees then (s, Fault)
      else
        var daily := req.kind == Daily;
        var q := WebQuantity(req, HolidayCalendar(s.holidays));
        var e := s.employees[req.employeeId];
        if Balance(e, daily) < q then (s, InsufficientBalance)
        else (approved.(employees := s.employees[req.employeeId := Deduct(e, daily, q)]), Done)
  }

  /** The web console's approve action. */
  method ApproveRequest(db: LeaveDb, rid: RequestId) returns (outcome: Outcome)
    modifies db
    ensures (db.Value(), outcome) == AfterWebApprove(old(db.Value()), rid)
  {
    if rid !in db.requests || db.requests[rid].status != Pending {
      return NotFoundOrProcessed;
    }
    var req := db.requests[rid];
    var owner := req.employeeId;
    if req.kind == Daily {
      var days := CalculateLeaveDays(req.startDate, req.endDate, HolidayCalendar(db.holidays));
      if owner !in db.employees {
        return Fault;
      }
      var employee := db.employees[owner];
      if employee.dailyBalance < days as real {
        return InsufficientBalance;
      }
      db.employees := db.employees[owner := employee.(dailyBalance := employee.dailyBalance - days as real)];
    } else if req.kind == Hourly {
      var hours := LeaveHours(req.startTime, req.endTime);
      if owner !in db.employees {
        return Fault;
      }
      var employee := db.employees[owner];
      if employee.hourlyBalance < hours {
        return InsufficientBalance;
      }
      db.employees := db.employees[owner := employee.(hourlyBalance := employee.hourlyBalance - hours)];
    }
    db.requests := db.requests[rid := req.(status := Approved, approvedBy := Some(WebApprover))];
    outcome := Done;
  }

  /** The web console's reject action. */
  method RejectRequest(db: LeaveDb, rid: RequestId) returns (outcome: Outcome)
    modifies db
    ensures (db.Value(), outcome) == AfterReject(old(db.Value()), rid)
  {
    if rid in db.requests && db.requests[rid].status == Pending {
      db.requests := db.requests[rid := db.requests[rid].(status := Rejected)];
      outcome := Done;
    } else {
      outcome := NotFoundOrProcessed;
    }
  }

  /**
   * Deleting a request removes it whatever its status and gives back no
   * balance; a request whose owner row is gone raises on reading the
   * owner's chat id, before anything is deleted.
   */
  ghost function AfterDeleteRequest(s: Store, rid: RequestId): (r: (Store, Outcome))
    ensures r.1 == Done <==> rid in s.requests && s.requests[rid].employeeId in s.employees
    ensures r.1 == Fault <==> rid in s.requests && s.requests[rid].employeeId !in s.employees
    ensures r.1 != Done ==> r.0 == s
    ensures r.1 in {Done, Fault, NotFoundOrProcessed}
    ensures r.1 == Done ==> r.0.requests == s.requests - {rid}
    ensures rid !in s.requests ==> r.1 == NotFoundOrProcessed
    ensures OwnersExist(s) ==> r.0.requests == s.requests - {rid}
    ensures r.0.employees == s.employees && r.0.holidays == s.holidays
    ensures r.0.nextEmployeeId == s.nextEmployeeId && r.0.nextRequestId == s.nextRequestId
    ensures StoreValid(s) ==> StoreValid(r.0)
  {
    if rid !in s.requests then (s, NotFoundOrProcessed)
    else if s.requests[rid].employeeId !in s.employees then (s, Fault)
    else (s.(requests := s.requests - {rid}), Done)
  }

  /** The web console's delete action. */
  method DeleteRequest(db: LeaveDb, rid: RequestId) returns (outcome: Outcome)
    modifies db
    ensures (db.Value(), outcome) == AfterDeleteRequest(old(db.Value()), rid)
  {
    if rid !in db.requests {
      return NotFoundOrProcessed;
    }
    if db.requests[rid].employeeId !in db.employees {
      return Fault;
    }
    db.requests := db.requests - {rid};
    outcome := Done;
  }

  /** The fields of the edit form, already parsed. */
  datatype EditForm = EditForm(kind: LeaveKind, startDate: Date, endDate: Date,
                               startTime: TimeOfDay, endTime: TimeOfDay, reason: string)

  /**
   * Editing a request from the web console: its kind, dates, times and
   * reason are replaced; a daily request loses both times, any other kind
   * ends on its start date. Status, replacement fields and balances are
   * untouched, and the status is not checked.
   */
  ghost function AfterEdit(s: Store, rid: RequestId, f: EditForm): (r: (Store, Outcome))
    ensures r.1 == Done <==> rid in s.requests
    ensures r.1 != Done ==> r.0 == s && r.1 == NotFoundOrProcessed
    ensures r.0.employees == s.employees && r.0.holidays == s.holidays
    ensures r.0.nextEmployeeId == s.nextEmployeeId && r.0.nextRequestId == s.nextRequestId
    ensures r.0.requests.Keys == s.requests.Keys
    ensures forall other :: other in s.requests && other != rid ==> r.0.requests[other] == s.requests[other]
    ensures r.1 == Done ==>
      var before, after := s.requests[rid], r.0.requests[rid];
      && after.employeeId == before.employeeId && after.status == before.status
      && after.replacementId == before.replacementId && after.replacementStatus == before.replacementStatus
      && after.approvedBy == before.approvedBy
      && after.kind == f.kind && after.startDate == f.startDate && after.reason == f.reason
      && (f.kind == Daily ==> after.endDate == f.endDate && after.startTime == None && after.endTime == None)
      && (f.kind != Daily ==> after.endDate == f.startDate && after.startTime == Some(f.startTime) && after.endTime == Some(f.endTime))
    ensures StoreValid(s) ==> StoreValid(r.0)
  {
    if rid !in s.requests then (s, NotFoundOrProcessed)
    else
      var req := s.requests[rid];
      var edited :=
        if f.kind == Daily then
          req.(kind := f.kind, startDate := f.startDate, endDate := f.endDate, startTime := None, endTime := None, reason := f.reason)
        else
          req.(kind := f.kind, startDate := f.startDate, endDate := f.startDate,
               startTime := Some(f.startTime), endTime := Some(f.endTime), reason := f.reason);
      (s.(requests := s.requests[rid := edited]), Done)
  }

  /** The web console's edit action (the form submission). */
  method EditRequest(db: LeaveDb, rid: RequestId, f: EditForm) returns (outcome: Outcome)
    modifies db
    ensures (db.Value(), outcome) == AfterEdit(old(db.Value()), rid, f)
  {
    if rid !in db.requests {
      return NotFoundOrProcessed;
    }
    var req := db.requests[rid];
    req := req.(kind := f.kind, startDate := f.startDate);
    if f.kind == Daily {
      req := req.(endDate := f.endDate, startTime := None, endTime := None);
    } else {
      req := req.(endDate := req.startDate, startTime := Some(f.startTime), endTime := Some(f.endTime));
    }
    req := req.(reason := f.reason);
    db.requests := db.requests[rid := req];
    outcome := Done;
  }

  /**
   * Approving a pending employee from the web console: the status becomes
   * approved and both balances are set to the monthly quotas.
   */
  ghost function AfterApproveUserWeb(s: Store, eid: EmployeeId): (r: (Store, Outcome))
    ensures r.1 == Done <==> eid in s.employees && s.employees[eid].status == EmployeePending
    ensures r.1 != Done ==> r.0 == s && r.1 == NotFoundOrProcessed
    ensures r.0.requests == s.requests && r.0.holidays == s.holidays
    ensures r.0.nextEmployeeId == s.nextEmployeeId && r.0.nextRequestId == s.nextRequestId
    ensures r.0.employees.Keys == s.employees.Keys
    ensures forall other :: other in s.employees && other != eid ==> r.0.employees[other] == s.employees[other]
    ensures r.1 == Done ==>
      var before, after := s.employees[eid], r.0.employees[eid];
      && after.status == EmployeeApproved
      && after.dailyBalance == before.dailyQuota && after.hourlyBalance == before.hourlyQuota
      && after.(status := before.status, dailyBalance := before.dailyBalance, hourlyBalance := before.hourlyBalance) == before
    ensures StoreValid(s) ==> StoreValid(r.0)
  {
    if eid in s.employees && s.employees[eid].status == EmployeePending then
      var e := s.employees[eid];
      (s.(employees := s.employees[eid := e.(status := EmployeeApproved, dailyBalance := e.dailyQuota, hourlyBalance := e.hourlyQuota)]), Done)
    else (s, NotFoundOrProcessed)
  }

  /** The web console's approve-employee action. */
  method ApproveUserWeb(db: LeaveDb, eid: EmployeeId) returns (outcome: Outcome)
    modifies db
    ensures (db.Value(), outcome) == AfterApproveUserWeb(old(db.Value()), eid)
  {
    if eid in db.employees && db.employees[eid].status == EmployeePending {
      var user := db.employees[eid];
      user := user.(status := EmployeeApproved);
      user := user.(dailyBalance := user.dailyQuota, hourlyBalance := user.hourlyQuota);
      db.employees := db.employees[eid := user];
      outcome := Done;
    } else {
      outcome := NotFoundOrProcessed;
    }
  }

  /** The fields of the direct-entry form, already parsed; endDate is None when the field is left empty. */
  datatype AdminEntry = AdminEntry(employeeId: EmployeeId, kind: LeaveKind, startDate: Date, endDate: Option<Date>,
                                   startTime: TimeOfDay, endTime: TimeOfDay, reason: string, ignoreBalance: bool)

  /** The last date of a direct entry: the given end date for a daily leave, else the start date. */
  function EntryEnd(a: AdminEntry): Date {
    if a.kind == Daily then a.endDate.GetOr(a.startDate) else a.startDate
  }

  /** The quantity a direct entry deducts: holiday-aware working days, or the hours between the two times. */
  function EntryQuantity(a: AdminEntry, holidays: set<Date>): real {
    if a.kind == Daily then WorkingDays(a.startDate, EntryEnd(a), holidays) as real
    else HoursBetween(a.startTime, a.endTime)
  }

  /** The approved request a direct entry records. */
  function EntryRecord(a: AdminEntry): LeaveRequest {
    NewLeaveRequest(a.employeeId, a.kind, a.startDate, EntryEnd(a),
                    if a.kind == Daily then None else Some(a.startTime),
                    if a.kind == Daily then None else Some(a.endTime),
                    a.reason + AdminEntryNote, None)
      .(status := Approved, replacementStatus := NotRequired)
  }

  /**
   * Direct entry of a leave by the admin: the balance check is skipped when
   * ignoreBalance is set, but the quantity is deducted either way; the new
   * request is recorded already approved, with no replacement needed.
   */
  ghost function AfterAdminAddLeave(s: Store, a: AdminEntry): (r: (Store, Outcome))
    ensures r.1 != Done ==> r.0 == s
    ensures r.1 == Fault <==> a.employeeId !in s.employees
    ensures r.1 == InsufficientBalance <==>
      a.employeeId in s.employees && !a.ignoreBalance &&
      Balance(s.employees[a.employeeId], a.kind == Daily) < EntryQuantity(a, HolidayCalendar(s.holidays))
    ensures r.1 == Done ==>
      LowersOneBalance(s.employees, r.0.employees, a.employeeId, a.kind == Daily, EntryQuantity(a, HolidayCalendar(s.holidays)))
    ensures r.1 == Done && s.nextRequestId !in s.requests ==> r.0.requests.Keys == s.requests.Keys + {s.nextRequestId}
    ensures r.1 == Done ==>
      && r.0.requests == s.requests[s.nextRequestId := EntryRecord(a)]
      && r.0.requests[s.nextRequestId].status == Approved
      && r.0.requests[s.nextRequestId].replacementStatus == NotRequired
      && r.0.nextRequestId == s.nextRequestId + 1
      && r.0.holidays == s.holidays && r.0.nextEmployeeId == s.nextEmployeeId
    ensures r.1 in {Done, Fault, InsufficientBalance}
    ensures StoreValid(s) ==> StoreValid(r.0)
  {
    if a.employeeId !in s.employees then (s, Fault)
    else
      var e := s.employees[a.employeeId];
      var daily := a.kind == Daily;
      var q := EntryQuantity(a, HolidayCalendar(s.holidays));
      if !a.ignoreBalance && Balance(e, daily) < q then (s, InsufficientBalance)
      else
        (s.(employees := s.employees[a.employeeId := Deduct(e, daily, q)],
            requests := s.requests[s.nextRequestId := EntryRecord(a)],
            nextRequestId := s.nextRequestId + 1), Done)
  }

  /** The web console's direct-entry action. */
  method AdminAddLeave(db: LeaveDb, a: AdminEntry) returns (outcome: Outcome)
    modifies db
    ensures (db.Value(), outcome) == AfterAdminAddLeave(old(db.Value()), a)
  {
    var endDate := a.startDate;
    var startTime: Option<TimeOfDay> := None;
    var endTime: Option<TimeOfDay> := None;
    if a.kind == Daily {
      if a.endDate.Some? {
        endDate := a.endDate.value;
      }
      var days := CalculateLeaveDays(a.startDate, endDate, HolidayCalendar(db.holidays));
      if a.employeeId !in db.employees {
        return Fault;
      }
      var employee := db.employees[a.employeeId];
      if !a.ignoreBalance && employee.dailyBalance < days as real {
        return InsufficientBalance;
      }
      db.employees := db.employees[a.employeeId := employee.(dailyBalance := employee.dailyBalance - days as real)];
    } else {
      startTime, endTime := Some(a.startTime), Some(a.endTime);
      var hours := LeaveHours(startTime, endTime);
      if a.employeeId !in db.employees {
        return Fault;
      }
      var employee := db.employees[a.employeeId];
      if !a.ignoreBalance && employee.hourlyBalance < hours {
        return InsufficientBalance;
      }
      db.employees := db.employees[a.employeeId := employee.(hourlyBalance := employee.hourlyBalance - hours)];
    }
    var created := NewLeaveRequest(a.employeeId, a.kind, a.startDate, endDate, startTime, endTime,
                                   a.reason + AdminEntryNote, None)
                     .(status := Approved, replacementStatus := NotRequired);
    db.requests := db.requests[db.nextRequestId := created];
    db.nextRequestId := db.nextRequestId + 1;
    outcome := Done;
  }
}
