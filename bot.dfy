/**
 * The chat front-end's store operations: the role checks, the department
 * conflict check, the manager review filter, registration, record creation
 * at the end of the dialogue, the replacement employee's answer, and the
 * approve and reject actions of the two callback handlers.
 */
module Bot {
  import opened Util
  import opened Calendar
  import opened Database
  import opened LeaveRules
  import opened BotDialogue

  /** The chat user is an approved employee who is a manager. */
  ghost predicate IsManager(s: Store, tg: TelegramId) {
    exists id :: id in s.employees && s.employees[id].telegramId == tg &&
      s.employees[id].status == EmployeeApproved && s.employees[id].isManager
  }

  /** The chat user is an approved employee. */
  ghost predicate IsApprovedEmployee(s: Store, tg: TelegramId) {
    exists id :: id in s.employees && s.employees[id].telegramId == tg && s.employees[id].status == EmployeeApproved
  }

  /** The manager check, as the handlers run it: look the chat user up and test the row found. */
  method CheckManager(db: LeaveDb, tg: TelegramId) returns (b: bool)
    requires db.Valid()
    ensures b == IsManager(db.Value(), tg)
  {
    var found := FindByTelegramId(db.employees, tg);
    match found
    case None => b := false;
    case Some(id) =>
      b := db.employees[id].status == EmployeeApproved && db.employees[id].isManager;
  }

  /** The approved-employee check at the top of the menu callback handler. */
  method CheckApproved(db: LeaveDb, tg: TelegramId) returns (b: bool)
    requires db.Valid()
    ensures b == IsApprovedEmployee(db.Value(), tg)
  {
    var found := FindByTelegramId(db.employees, tg);
    match found
    case None => b := false;
    case Some(id) =>
      b := db.employees[id].status == EmployeeApproved;
  }

  /** The request's dates overlap the inclusive range; sharing a single day counts. */
  predicate Overlaps(req: LeaveRequest, start: Date, end: Date) {
    req.startDate <= end && req.endDate >= start
  }

  /** Request rid is an approved leave of another employee of department dept that overlaps the range. */
  predicate IsConflict(s: Store, eid: EmployeeId, dept: string, rid: RequestId, start: Date, end: Date)
    requires rid in s.requests
  {
    var req := s.requests[rid];
    && req.employeeId in s.employees
    && req.employeeId != eid
    && s.employees[req.employeeId].department == Some(dept)
    && req.status == Approved
    && Overlaps(req, start, end)
  }

  /** The requests the conflict query counts. */
  function ConflictingRequests(s: Store, eid: EmployeeId, dept: string, start: Date, end: Date): set<RequestId> {
    set rid | rid in s.requests && IsConflict(s, eid, dept, rid, start, end)
  }

  /**
   * The department conflict check: false for an unknown employee or one
   * without a department; otherwise true exactly when some approved leave
   * of a colleague in the same department overlaps the range.
   */
  function HasConflict(s: Store, eid: EmployeeId, start: Date, end: Date): (b: bool)
    ensures eid !in s.employees || s.employees[eid].department == None || s.employees[eid].department == Some("") ==> !b
    ensures eid in s.employees && s.employees[eid].department.Some? && s.employees[eid].department.value != "" ==>
      (b <==> exists rid :: rid in s.requests && IsConflict(s, eid, s.employees[eid].department.value, rid, start, end))
  {
    if eid !in s.employees then false
    else
      match s.employees[eid].department
      case None => false
      case Some(dept) =>
        if dept == "" then false
        else
          var conflicts := ConflictingRequests(s, eid, dept, start, end);
          assert forall rid :: rid in s.requests && IsConflict(s, eid, dept, rid, start, end) ==> rid in conflicts;
          |conflicts| > 0
  }

  /**
   * The conflict check as written: the query joins employees without
   * saying through which of the two foreign keys of a leave request (its
   * owner or its replacement) to join, which the mapper refuses, so for an
   * employee with a department it raises instead of counting. None stands
   * for the raise.
   */
  function HasConflictAsWritten(s: Store, eid: EmployeeId, start: Date, end: Date): (r: Option<bool>)
    ensures r == Some(false) <==> eid !in s.employees || s.employees[eid].department == None || s.employees[eid].department == Some("")
    ensures r != Some(false) ==> r == None
  {
    if eid !in s.employees then Some(false)
    else
      match s.employees[eid].department
      case None => Some(false)
      case Some(dept) => if dept == "" then Some(false) else None
  }

  /** The warning the reason step shows for a check: its only caller swallows a raise and warns of nothing. */
  function ConflictWarning(check: Option<bool>): (warn: bool)
    ensures warn <==> check == Some(true)
  {
    match check
    case None => false
    case Some(b) => b
  }

  /**
   * Where the written and the intended check part: an approved overlapping
   * leave of a colleague in the same department is a conflict, yet the
   * written check never produces a warning.
   */
  lemma ConflictWarningIsLost(s: Store, eid: EmployeeId, rid: RequestId, start: Date, end: Date)
    requires eid in s.employees && s.employees[eid].department.Some? && s.employees[eid].department.value != ""
    requires rid in s.requests && IsConflict(s, eid, s.employees[eid].department.value, rid, start, end)
    ensures HasConflict(s, eid, start, end)
    ensures !ConflictWarning(HasConflictAsWritten(s, eid, start, end))
  {
  }

  /** An approved leave of a colleague that ends on the first day of the range is a conflict. */
  lemma TouchingDayConflicts(s: Store, eid: EmployeeId, rid: RequestId, start: Date, end: Date)
    requires eid in s.employees && s.employees[eid].department.Some? && s.employees[eid].department.value != ""
    requires rid in s.requests && s.requests[rid].status == Approved
    requires s.requests[rid].employeeId in s.employees && s.requests[rid].employeeId != eid
    requires s.employees[s.requests[rid].employeeId].department == s.employees[eid].department
    requires s.requests[rid].startDate <= start == s.requests[rid].endDate && start <= end
    ensures HasConflict(s, eid, start, end)
  {
    assert IsConflict(s, eid, s.employees[eid].department.value, rid, start, end);
  }

  /** The employee's own approved leaves never count as conflicts. */
  lemma OwnLeavesNeverConflict(s: Store, eid: EmployeeId, start: Date, end: Date)
    requires forall rid :: rid in s.requests && s.requests[rid].status == Approved ==> s.requests[rid].employeeId == eid
    ensures !HasConflict(s, eid, start, end)
  {
  }

  /** The requests a manager is shown for review. */
  function ReviewSet(requests: map<RequestId, LeaveRequest>): set<RequestId> {
    set rid | rid in requests && requests[rid].status == Pending &&
      (requests[rid].replacementStatus == ReplacementAccepted || requests[rid].replacementStatus == NotRequired)
  }

  /** The review set is exactly the pending requests whose replacement accepted or was not required. */
  lemma ReviewSetMembers(requests: map<RequestId, LeaveRequest>, rid: RequestId)
    ensures rid in ReviewSet(requests) <==>
      rid in requests && requests[rid].status == Pending && requests[rid].replacementStatus in {ReplacementAccepted, NotRequired}
  {
  }

  /** A request still waiting for its replacement, or refused by it, is never shown for review. */
  lemma ReviewSetExcludesUnconfirmed(requests: map<RequestId, LeaveRequest>, rid: RequestId)
    requires rid in requests
    requires requests[rid].replacementStatus == AwaitingReplacement || requests[rid].replacementStatus == ReplacementRejected
    ensures rid !in ReviewSet(requests)
  {
  }

  // ---- Registration ----

  /** The row a registration adds: the first registrant is an approved manager, every later one a pending employee. */
  function Registrant(s: Store, tg: TelegramId, fullName: string, department: string): Employee {
    var first := s.employees == map[];
    NewEmployee(tg, fullName, Some(department)).(isManager := first, status := if first then EmployeeApproved else EmployeePending)
  }

  /**
   * Completing registration: a chat user already on file is not added
   * again; otherwise a new row is added under the next id, an approved
   * manager when the table was empty and a pending non-manager otherwise,
   * with zero balances and the default quotas.
   */
  ghost function AfterRegister(s: Store, tg: TelegramId, fullName: string, department: string): (r: (Store, Option<EmployeeId>))
    ensures (exists id :: id in s.employees && s.employees[id].telegramId == tg) ==> r.0 == s && r.1 == None
    ensures r.1.Some? ==>
      && r.1.value == s.nextEmployeeId && s.nextEmployeeId in r.0.employees
      && r.0 == s.(employees := s.employees[s.nextEmployeeId := r.0.employees[s.nextEmployeeId]], nextEmployeeId := s.nextEmployeeId + 1)
      && var e := r.0.employees[r.1.value];
         && e.telegramId == tg && e.fullName == fullName && e.department == Some(department)
         && (e.isManager <==> s.employees == map[]) && (e.status == EmployeeApproved <==> s.employees == map[])
         && e.dailyBalance == 0.0 && e.hourlyBalance == 0.0
         && e.dailyQuota == DefaultDailyQuota && e.hourlyQuota == DefaultHourlyQuota
    ensures r.1.None? <==> exists id :: id in s.employees && s.employees[id].telegramId == tg
    ensures StoreValid(s) ==> StoreValid(r.0)
  {
    if exists id :: id in s.employees && s.employees[id].telegramId == tg then (s, None)
    else
      (s.(employees := s.employees[s.nextEmployeeId := Registrant(s, tg, fullName, department)],
          nextEmployeeId := s.nextEmployeeId + 1), Some(s.nextEmployeeId))
  }

  /** The registration handler's store update, after the chat user has typed a department. */
  method Register(db: LeaveDb, tg: TelegramId, fullName: string, department: string) returns (newId: Option<EmployeeId>)
    requires db.Valid()
    modifies db
    ensures (db.Value(), newId) == AfterRegister(old(db.Value()), tg, fullName, department)
  {
    var existing := FindByTelegramId(db.employees, tg);
    if existing.Some? {
      return None;
    }
    var isFirst := |db.employees| == 0;
    var e := Employee(tg, fullName, Some(department), isFirst,
                      if isFirst then EmployeeApproved else EmployeePending,
                      0.0, 0.0, DefaultDailyQuota, DefaultHourlyQuota);
    newId := Some(db.nextEmployeeId);
    db.employees := db.employees[db.nextEmployeeId := e];
    db.nextEmployeeId := db.nextEmployeeId + 1;
  }

  // ---- Record creation at the end of the dialogue ----

  /** The request the dialogue's draft describes, for owner eid with the given statuses. */
  function DraftRecord(d: Draft, eid: EmployeeId, status: RequestStatus, repStatus: ReplacementStatus): LeaveRequest
    requires d.kind.Some? && d.startDate.Some? && d.endDate.Some? && d.reason.Some?
  {
    NewLeaveRequest(eid, d.kind.value, d.startDate.value, d.endDate.value, d.startTime, d.endTime,
                    d.reason.value, d.replacementId)
      .(status := status, replacementStatus := repStatus)
  }

  /**
   * Writing the draft as a new request under the next id; a draft missing
   * its type, a date or its reason raises before anything is written.
   */
  ghost function AfterCreateRecord(s: Store, d: Draft, eid: EmployeeId, status: RequestStatus, repStatus: ReplacementStatus)
    : (r: (Store, Option<RequestId>))
    ensures r.1.None? <==> d.kind == None || d.startDate == None || d.endDate == None || d.reason == None
    ensures r.1.None? ==> r.0 == s
    ensures r.1.Some? ==>
      && r.1.value == s.nextRequestId && s.nextRequestId in r.0.requests
      && r.0 == s.(requests := s.requests[s.nextRequestId := r.0.requests[s.nextRequestId]], nextRequestId := s.nextRequestId + 1)
      && var req := r.0.requests[s.nextRequestId];
         && req.employeeId == eid && req.status == status && req.replacementStatus == repStatus
         && Some(req.kind) == d.kind && Some(req.startDate) == d.startDate && Some(req.endDate) == d.endDate
         && req.startTime == d.startTime && req.endTime == d.endTime && Some(req.reason) == d.reason
         && req.replacementId == d.replacementId && req.approvedBy == None
    ensures StoreValid(s) && eid in s.employees ==> StoreValid(r.0)
  {
    if d.kind == None || d.startDate == None || d.endDate == None || d.reason == None then (s, None)
    else
      (s.(requests := s.requests[s.nextRequestId := DraftRecord(d, eid, status, repStatus)],
          nextRequestId := s.nextRequestId + 1), Some(s.nextRequestId))
  }

  /** Writing the dialogue's draft as a leave-request row. */
  method CreateRecord(db: LeaveDb, d: Draft, eid: EmployeeId, status: RequestStatus, repStatus: ReplacementStatus)
    returns (created: Option<RequestId>)
    modifies db
    ensures (db.Value(), created) == AfterCreateRecord(old(db.Value()), d, eid, status, repStatus)
  {
    if d.kind.None? || d.startDate.None? || d.endDate.None? || d.reason.None? {
      return None;
    }
    var req := DraftRecord(d, eid, status, repStatus);
    created := Some(db.nextRequestId);
    db.requests := db.requests[db.nextRequestId := req];
    db.nextRequestId := db.nextRequestId + 1;
  }

  /** Submitting without a replacement: the chat user's own row must exist; the request needs no replacement. */
  ghost function AfterSubmit(s: Store, d: Draft, tg: TelegramId): (r: (Store, Option<RequestId>))
    ensures LookupByTelegram(s.employees, tg) == None ==> r == (s, None)
    ensures LookupByTelegram(s.employees, tg).Some? ==>
      r == AfterCreateRecord(s, d, LookupByTelegram(s.employees, tg).value, Pending, NotRequired)
    ensures r.1.Some? ==> r.0.requests[r.1.value].status == Pending && r.0.requests[r.1.value].replacementStatus == NotRequired
    ensures StoreValid(s) ==> StoreValid(r.0)
  {
    match LookupByTelegram(s.employees, tg)
    case None => (s, None)
    case Some(eid) => AfterCreateRecord(s, d, eid, Pending, NotRequired)
  }

  /** A dialogue whose record was written ends and forgets its draft; one that raised stays as it was left. */
  function Settle(c: Dialogue, d: Draft, created: Option<RequestId>): Dialogue {
    if created.Some? then Dialogue(Ended, EmptyDraft) else Dialogue(c.step, d)
  }

  /** Submitting the finished dialogue as a request that needs no replacement. */
  method SubmitLeaveRequest(db: LeaveDb, conv: Conversation, tg: TelegramId) returns (created: Option<RequestId>)
    requires db.Valid()
    modifies db, conv
    ensures (db.Value(), created) == AfterSubmit(old(db.Value()), old(conv.draft), tg)
    ensures conv.Value() == Settle(old(conv.Value()), old(conv.draft), created)
  {
    var owner := FindByTelegramId(db.employees, tg);
    if owner.None? {
      return None;
    }
    created := CreateRecord(db, conv.draft, owner.value, Pending, NotRequired);
    if created.Some? {
      conv.draft := EmptyDraft;
      conv.step := Ended;
    }
  }

  /** Some approved employee other than the chat user exists to be chosen as a replacement. */
  ghost predicate HasCandidate(employees: map<EmployeeId, Employee>, tg: TelegramId) {
    exists id :: id in employees && employees[id].telegramId != tg && employees[id].status == EmployeeApproved
  }

  /** The colleagues offered as replacements: every approved employee other than the chat user. */
  function Candidates(employees: map<EmployeeId, Employee>, tg: TelegramId): (c: set<EmployeeId>)
    ensures c == {} <==> !HasCandidate(employees, tg)
  {
    var c := set id | id in employees && employees[id].telegramId != tg && employees[id].status == EmployeeApproved;
    assert forall id :: id in employees && employees[id].telegramId != tg && employees[id].status == EmployeeApproved ==> id in c;
    assert c != {} ==> HasCandidate(employees, tg) by {
      if c != {} {
        var w := PickFrom(c);
      }
    }
    c
  }

  /**
   * The reason step: the reason is kept; with no colleague to choose as a
   * replacement the request is submitted at once, otherwise the dialogue
   * asks for a replacement, and the last result is the conflict warning
   * shown on the way.
   */
  ghost function AfterEnterReason(s: Store, c: Dialogue, tg: TelegramId, reason: string)
    : (r: (Store, Dialogue, Option<RequestId>, bool))
    requires c.step == EnteringReason && StepInvariant(c)
    ensures r.2.Some? ==>
      r.2.value in r.0.requests && r.0.requests[r.2.value].replacementStatus == NotRequired && r.1 == Dialogue(Ended, EmptyDraft)
    ensures HasCandidate(s.employees, tg) ==>
      && r.0 == s && r.2 == None && r.1 == Dialogue(ChoosingReplacement, c.draft.(reason := Some(reason)))
      && (r.3 <==> (LookupByTelegram(s.employees, tg).Some? &&
                    HasConflict(s, LookupByTelegram(s.employees, tg).value, c.draft.startDate.value, c.draft.endDate.value)))
    ensures !HasCandidate(s.employees, tg) ==> !r.3 && (r.0, r.2) == AfterSubmit(s, c.draft.(reason := Some(reason)), tg)
    ensures StepInvariant(r.1)
    ensures StoreValid(s) ==> StoreValid(r.0)
  {
    var d := c.draft.(reason := Some(reason));
    if !HasCandidate(s.employees, tg) then
      var (s', created) := AfterSubmit(s, d, tg);
      (s', Settle(c, d, created), created, false)
    else
      var warn := match LookupByTelegram(s.employees, tg)
        case None => false
        case Some(eid) => HasConflict(s, eid, d.startDate.value, d.endDate.value);
      (s, Dialogue(ChoosingReplacement, d), None, warn)
  }

  /** The dialogue's reason step: the store and the conversation are updated in place. */
  method EnterReason(db: LeaveDb, conv: Conversation, tg: TelegramId, reason: string)
    returns (created: Option<RequestId>, conflictWarning: bool)
    requires db.Valid() && conv.Valid() && conv.step == EnteringReason
    modifies db, conv
    ensures (db.Value(), conv.Value(), created, conflictWarning) == AfterEnterReason(old(db.Value()), old(conv.Value()), tg, reason)
  {
    conv.draft := conv.draft.(reason := Some(reason));
    var candidates := Candidates(db.employees, tg);
    if candidates == {} {
      created := SubmitLeaveRequest(db, conv, tg);
      conflictWarning := false;
      return;
    }
    created := None;
    conflictWarning := false;
    var requester := FindByTelegramId(db.employees, tg);
    if requester.Some? {
      conflictWarning := HasConflict(db.Value(), requester.value, conv.draft.startDate.value, conv.draft.endDate.value);
    }
    conv.step := ChoosingReplacement;
  }

  /**
   * Naming a replacement: the request is written with replacement status
   * awaiting, and the dialogue ends; without the chat user's own row the
   * handler raises and nothing is written.
   */
  ghost function AfterNamedReplacement(s: Store, c: Dialogue, d: Draft, tg: TelegramId): (r: (Store, Dialogue, Option<RequestId>))
    ensures LookupByTelegram(s.employees, tg) == None ==> r == (s, Dialogue(c.step, d), None)
    ensures LookupByTelegram(s.employees, tg).Some? ==>
      (r.0, r.2) == AfterCreateRecord(s, d, LookupByTelegram(s.employees, tg).value, Pending, AwaitingReplacement)
    ensures r.2.Some? ==>
      (r.0.requests[r.2.value].status == Pending &&
       r.0.requests[r.2.value].replacementStatus == AwaitingReplacement && r.1 == Dialogue(Ended, EmptyDraft))
    ensures StoreValid(s) ==> StoreValid(r.0)
  {
    match LookupByTelegram(s.employees, tg)
    case None => (s, Dialogue(c.step, d), None)
    case Some(eid) =>
      var (s', created) := AfterCreateRecord(s, d, eid, Pending, AwaitingReplacement);
      (s', Settle(c, d, created), created)
  }

  /** The draft after the replacement choice (0 stands for "no replacement"). */
  function WithReplacement(d: Draft, choice: int): Draft {
    d.(replacementId := if choice == 0 then None else Some(choice))
  }

  /**
   * The replacement choice as the handler is written: choosing "no
   * replacement" hands the button press, instead of the chat update, to
   * the submission helper, which reads a user field the press does not
   * have, so it raises and no request is written.
   */
  ghost function AfterChooseReplacementAsWritten(s: Store, c: Dialogue, tg: TelegramId, choice: int)
    : (r: (Store, Dialogue, Option<RequestId>))
    ensures choice == 0 ==> r == (s, Dialogue(c.step, WithReplacement(c.draft, 0)), None)
    ensures choice != 0 ==> r == AfterNamedReplacement(s, c, WithReplacement(c.draft, choice), tg)
  {
    if choice == 0 then (s, Dialogue(c.step, WithReplacement(c.draft, 0)), None)
    else AfterNamedReplacement(s, c, WithReplacement(c.draft, choice), tg)
  }

  /**
   * The replacement choice as intended: "no replacement" submits a request
   * that needs none, any other choice writes one awaiting its replacement.
   */
  ghost function AfterChooseReplacement(s: Store, c: Dialogue, tg: TelegramId, choice: int)
    : (r: (Store, Dialogue, Option<RequestId>))
    ensures choice == 0 ==> (r.0, r.2) == AfterSubmit(s, WithReplacement(c.draft, 0), tg)
    ensures choice != 0 ==> r == AfterNamedReplacement(s, c, WithReplacement(c.draft, choice), tg)
    ensures r.2.Some? ==> r.0.requests[r.2.value].status == Pending && r.1 == Dialogue(Ended, EmptyDraft)
    ensures r.2.Some? ==>
      (r.0.requests[r.2.value].replacementStatus == AwaitingReplacement <==> choice != 0) &&
      (r.0.requests[r.2.value].replacementStatus == NotRequired <==> choice == 0) &&
      (r.0.requests[r.2.value].replacementId == None <==> choice == 0)
    ensures StoreValid(s) ==> StoreValid(r.0)
  {
    var d := WithReplacement(c.draft, choice);
    if choice == 0 then
      var (s', created) := AfterSubmit(s, d, tg);
      (s', Settle(c, d, created), created)
    else AfterNamedReplacement(s, c, d, tg)
  }

  /** Where the handler as written and as intended part: only the "no replacement" choice of a complete draft. */
  lemma NoReplacementChoiceIsLost(s: Store, c: Dialogue, tg: TelegramId)
    requires c.step == ChoosingReplacement && StepInvariant(c)
    requires LookupByTelegram(s.employees, tg).Some?
    ensures AfterChooseReplacementAsWritten(s, c, tg, 0).2 == None
    ensures AfterChooseReplacementAsWritten(s, c, tg, 0).0 == s
    ensures AfterChooseReplacement(s, c, tg, 0).2 == Some(s.nextRequestId)
    ensures forall choice :: choice != 0 ==>
      AfterChooseReplacementAsWritten(s, c, tg, choice) == AfterChooseReplacement(s, c, tg, choice)
  {
  }

  /** The replacement-choice step, with "no replacement" submitting the request (the corrected behaviour). */
  method ChooseReplacement(db: LeaveDb, conv: Conversation, tg: TelegramId, choice: int) returns (created: Option<RequestId>)
    requires db.Valid() && conv.Valid() && conv.step == ChoosingReplacement
    modifies db, conv
    ensures (db.Value(), conv.Value(), created) == AfterChooseReplacement(old(db.Value()), old(conv.Value()), tg, choice)
  {
    conv.draft := WithReplacement(conv.draft, choice);
    if choice == 0 {
      created := SubmitLeaveRequest(db, conv, tg);
      return;
    }
    var requester := FindByTelegramId(db.employees, tg);
    if requester.None? {
      return None;
    }
    created := CreateRecord(db, conv.draft, requester.value, Pending, AwaitingReplacement);
    if created.Some? {
      conv.draft := EmptyDraft;
      conv.step := Ended;
    }
  }

  // ---- The replacement employee's answer ----

  /**
   * The replacement employee's answer: accepting marks the replacement
   * accepted; refusing marks both the replacement and the request
   * rejected. Neither looks at the statuses the request had, and no
   * balance changes.
   */
  ghost function AfterReplacementResponse(s: Store, rid: RequestId, accept: bool): (r: (Store, Outcome))
    ensures r.1 == Done <==> rid in s.requests
    ensures r.1 != Done ==> r.0 == s && r.1 == NotFoundOrProcessed
    ensures r.0.employees == s.employees && r.0.holidays == s.holidays
    ensures r.0.nextEmployeeId == s.nextEmployeeId && r.0.nextRequestId == s.nextRequestId
    ensures r.0.requests.Keys == s.requests.Keys
    ensures forall other :: other in s.requests && other != rid ==> r.0.requests[other] == s.requests[other]
    ensures r.1 == Done && accept ==>
      r.0.requests[rid] == s.requests[rid].(replacementStatus := ReplacementAccepted)
    ensures r.1 == Done && !accept ==>
      r.0.requests[rid] == s.requests[rid].(replacementStatus := ReplacementRejected, status := Rejected)
    ensures StoreValid(s) ==> StoreValid(r.0)
  {
    if rid !in s.requests then (s, NotFoundOrProcessed)
    else if accept then (s.(requests := s.requests[rid := s.requests[rid].(replacementStatus := ReplacementAccepted)]), Done)
    else (s.(requests := s.requests[rid := s.requests[rid].(replacementStatus := ReplacementRejected, status := Rejected)]), Done)
  }

  /** The replacement employee's accept or refuse button. */
  method ReplacementResponse(db: LeaveDb, rid: RequestId, accept: bool) returns (outcome: Outcome)
    modifies db
    ensures (db.Value(), outcome) == AfterReplacementResponse(old(db.Value()), rid, accept)
  {
    if rid !in db.requests {
      return NotFoundOrProcessed;
    }
    var req := db.requests[rid];
    if accept {
      req := req.(replacementStatus := ReplacementAccepted);
    } else {
      req := req.(replacementStatus := ReplacementRejected);
      req := req.(status := Rejected);
    }
    db.requests := db.requests[rid := req];
    outcome := Done;
  }

  // ---- Approve and reject from the chat ----

  /** The quantity the chat handlers deduct: working days ignoring holidays, or hours; None where the hour count raises. */
  function BotQuantity(req: LeaveRequest): Option<real> {
    if req.kind == Daily then Some(WorkingDays(req.startDate, req.endDate, {}) as real)
    else if req.startTime.None? || req.endTime.None? then None
    else Some(HoursBetween(req.startTime.value, req.endTime.value))
  }

  /** The bot's own day count: the inclusive range minus Fridays and Saturdays; holidays are not consulted. */
  method CountWeekdays(start: Date, end: Date) returns (days: nat)
    ensures days == WorkingDays(start, end, {})
  {
    days := 0;
    var current := start;
    while current <= end
      invariant start <= current
      invariant current <= end + 1 || current == start
      invariant days == WorkingDays(start, current - 1, {})
      decreases end - current
    {
      if Weekday(current) != Friday && Weekday(current) != Saturday {
        days := days + 1;
      }
      current := current + 1;
    }
  }

  /**
   * Approving a leave request from the chat: only a pending request is
   * acted on; a daily or hourly one needs its owner, and an hourly one both
   * times, and a balance at least the quantity, which is then deducted
   * from that one balance. The approver is not recorded.
   */
  ghost function AfterBotApprove(s: Store, rid: RequestId): (r: (Store, Outcome))
    ensures r.1 != Done ==> r.0 == s
    ensures r.1 == NotFoundOrProcessed <==> rid !in s.requests || s.requests[rid].status != Pending
    ensures r.1 == Fault <==>
      rid in s.requests && s.requests[rid].status == Pending && DeductsBalance(s.requests[rid].kind) &&
      (s.requests[rid].employeeId !in s.employees || BotQuantity(s.requests[rid]).None?)
    ensures r.1 == InsufficientBalance <==>
      rid in s.requests && s.requests[rid].status == Pending && DeductsBalance(s.requests[rid].kind) &&
      s.requests[rid].employeeId in s.employees && BotQuantity(s.requests[rid]).Some? &&
      Balance(s.employees[s.requests[rid].employeeId], s.requests[rid].kind == Daily) < BotQuantity(s.requests[rid]).value
    ensures r.1 == Done ==>
      rid in s.requests &&
      r.0.requests == s.requests[rid := s.requests[rid].(status := Approved)] &&
      r.0.holidays == s.holidays && r.0.nextEmployeeId == s.nextEmployeeId && r.0.nextRequestId == s.nextRequestId
    ensures r.1 == Done && DeductsBalance(s.requests[rid].kind) ==>
      BotQuantity(s.requests[rid]).Some? &&
      LowersOneBalance(s.employees, r.0.employees, s.requests[rid].employeeId, s.requests[rid].kind == Daily,
                       BotQuantity(s.requests[rid]).value)
    ensures r.1 == Done && !DeductsBalance(s.requests[rid].kind) ==> r.0.employees == s.employees
    ensures r.1 in {Done, NotFoundOrProcessed, Fault, InsufficientBalance}
    ensures StoreValid(s) ==> StoreValid(r.0)
  {
    if rid !in s.requests || s.requests[rid].status != Pending then (s, NotFoundOrProcessed)
    else
      var req := s.requests[rid];
      var approved := s.(requests := s.requests[rid := req.(status := Approved)]);
      if !DeductsBalance(req.kind) then (approved, Done)
      else if req.employeeId !in s.employees || BotQuantity(req).None? then (s, Fault)
      else
        var daily := req.kind == Daily;
        var q := BotQuantity(req).value;
        var e := s.employees[req.employeeId];
        if Balance(e, daily) < q then (s, InsufficientBalance)
        else (approved.(employees := s.employees[req.employeeId := Deduct(e, daily, q)]), Done)
  }

  /** The approve branch both chat handlers share once their role check has passed. */
  method ApproveLeave(db: LeaveDb, rid: RequestId) returns (outcome: Outcome)
    modifies db
    ensures (db.Value(), outcome) == AfterBotApprove(old(db.Value()), rid)
  {
    if rid !in db.requests || db.requests[rid].status != Pending {
      return NotFoundOrProcessed;
    }
    var req := db.requests[rid];
    var owner := req.employeeId;
    if req.kind == Daily {
      var days := CountWeekdays(req.startDate, req.endDate);
      if owner !in db.employees {
        return Fault;
      }
      var emp := db.employees[owner];
      if emp.dailyBalance < days as real {
        return InsufficientBalance;
      }
      db.employees := db.employees[owner := emp.(dailyBalance := emp.dailyBalance - days as real)];
    } else if req.kind == Hourly {
      if req.startTime.None? || req.endTime.None? {
        return Fault;
      }
      var hours := HoursBetween(req.startTime.value, req.endTime.value);
      if owner !in db.employees {
        return Fault;
      }
      var emp := db.employees[owner];
      if emp.hourlyBalance < hours {
        return InsufficientBalance;
      }
      db.employees := db.employees[owner := emp.(hourlyBalance := emp.hourlyBalance - hours)];
    }
    db.requests := db.requests[rid := req.(status := Approved)];
    outcome := Done;
  }

  /** Approve from the menu callback handler, which checks only that the presser is an approved employee. */
  ghost function AfterButtonApprove(s: Store, tg: TelegramId, rid: RequestId): (r: (Store, Outcome))
    ensures r.1 == Unauthorized <==> !IsApprovedEmployee(s, tg)
    ensures r.1 == Unauthorized ==> r.0 == s
    ensures IsApprovedEmployee(s, tg) ==> r == AfterBotApprove(s, rid)
  {
    if !IsApprovedEmployee(s, tg) then (s, Unauthorized) else AfterBotApprove(s, rid)
  }

  /** The menu callback handler's approve button. */
  method ButtonApprove(db: LeaveDb, tg: TelegramId, rid: RequestId) returns (outcome: Outcome)
    requires db.Valid()
    modifies db
    ensures (db.Value(), outcome) == AfterButtonApprove(old(db.Value()), tg, rid)
  {
    var ok := CheckApproved(db, tg);
    if !ok {
      return Unauthorized;
    }
    outcome := ApproveLeave(db, rid);
  }

  /** Approve from the global admin handler, which checks that the presser is a manager. */
  ghost function AfterGlobalApprove(s: Store, tg: TelegramId, rid: RequestId): (r: (Store, Outcome))
    ensures r.1 == Unauthorized <==> !IsManager(s, tg)
    ensures r.1 == Unauthorized ==> r.0 == s
    ensures IsManager(s, tg) ==> r == AfterBotApprove(s, rid)
  {
    if !IsManager(s, tg) then (s, Unauthorized) else AfterBotApprove(s, rid)
  }

  /** The global admin handler's approve button. */
  method GlobalApprove(db: LeaveDb, tg: TelegramId, rid: RequestId) returns (outcome: Outcome)
    requires db.Valid()
    modifies db
    ensures (db.Value(), outcome) == AfterGlobalApprove(old(db.Value()), tg, rid)
  {
    var ok := CheckManager(db, tg);
    if !ok {
      return Unauthorized;
    }
    outcome := ApproveLeave(db, rid);
  }

  /** The reject branch both chat handlers share once their role check has passed. */
  method RejectLeave(db: LeaveDb, rid: RequestId) returns (outcome: Outcome)
    modifies db
    ensures (db.Value(), outcome) == AfterReject(old(db.Value()), rid)
  {
    if rid in db.requests && db.requests[rid].status == Pending {
      db.requests := db.requests[rid := db.requests[rid].(status := Rejected)];
      outcome := Done;
    } else {
      outcome := NotFoundOrProcessed;
    }
  }

  /** Reject from the menu callback handler. */
  ghost function AfterButtonReject(s: Store, tg: TelegramId, rid: RequestId): (r: (Store, Outcome))
    ensures r.1 == Unauthorized <==> !IsApprovedEmployee(s, tg)
    ensures r.1 == Unauthorized ==> r.0 == s
    ensures IsApprovedEmployee(s, tg) ==> r == AfterReject(s, rid)
  {
    if !IsApprovedEmployee(s, tg) then (s, Unauthorized) else AfterReject(s, rid)
  }

  /** The menu callback handler's reject button. */
  method ButtonReject(db: LeaveDb, tg: TelegramId, rid: RequestId) returns (outcome: Outcome)
    requires db.Valid()
    modifies db
    ensures (db.Value(), outcome) == AfterButtonReject(old(db.Value()), tg, rid)
  {
    var ok := CheckApproved(db, tg);
    if !ok {
      return Unauthorized;
    }
    outcome := RejectLeave(db, rid);
  }

  /** Reject from the global admin handler. */
  ghost function AfterGlobalReject(s: Store, tg: TelegramId, rid: RequestId): (r: (Store, Outcome))
    ensures r.1 == Unauthorized <==> !IsManager(s, tg)
    ensures r.1 == Unauthorized ==> r.0 == s
    ensures IsManager(s, tg) ==> r == AfterReject(s, rid)
  {
    if !IsManager(s, tg) then (s, Unauthorized) else AfterReject(s, rid)
  }

  /** The global admin handler's reject button. */
  method GlobalReject(db: LeaveDb, tg: TelegramId, rid: RequestId) returns (outcome: Outcome)
    requires db.Valid()
    modifies db
    ensures (db.Value(), outcome) == AfterGlobalReject(old(db.Value()), tg, rid)
  {
    var ok := CheckManager(db, tg);
    if !ok {
      return Unauthorized;
    }
    outcome := RejectLeave(db, rid);
  }

  /**
   * Approving a pending employee from the chat: only a manager may, and
   * only the status changes; unlike the web console, no balance is seeded.
   */
  ghost function AfterApproveUserBot(s: Store, tg: TelegramId, eid: EmployeeId): (r: (Store, Outcome))
    ensures r.1 == Unauthorized <==> !IsManager(s, tg)
    ensures r.1 == Done <==> IsManager(s, tg) && eid in s.employees && s.employees[eid].status == EmployeePending
    ensures r.1 != Done ==> r.0 == s
    ensures r.1 == Done ==> r.0 == s.(employees := s.employees[eid := s.employees[eid].(status := EmployeeApproved)])
    ensures StoreValid(s) ==> StoreValid(r.0)
  {
    if !IsManager(s, tg) then (s, Unauthorized)
    else if eid in s.employees && s.employees[eid].status == EmployeePending then
      (s.(employees := s.employees[eid := s.employees[eid].(status := EmployeeApproved)]), Done)
    else (s, NotFoundOrProcessed)
  }

  /** The global admin handler's approve-employee button. */
  method ApproveUserBot(db: LeaveDb, tg: TelegramId, eid: EmployeeId) returns (outcome: Outcome)
    requires db.Valid()
    modifies db
    ensures (db.Value(), outcome) == AfterApproveUserBot(old(db.Value()), tg, eid)
  {
    var ok := CheckManager(db, tg);
    if !ok {
      return Unauthorized;
    }
    if eid in db.employees && db.employees[eid].status == EmployeePending {
      db.employees := db.employees[eid := db.employees[eid].(status := EmployeeApproved)];
      outcome := Done;
    } else {
      outcome := NotFoundOrProcessed;
    }
  }
}
