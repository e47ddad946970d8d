/**
 * The store under every operation of both front-ends and the renewal job:
 * the invariants they keep together, the gating of the review list, and
 * where the three approve copies agree and where they part.
 */
module Lifecycle {
  import opened Util
  import opened Calendar
  import opened Database
  import opened LeaveRules
  import opened BotDialogue
  import App
  import Bot
  import Scheduler

  /** Every store-changing action of the two front-ends and the renewal job. */
  datatype Op =
    | WebApprove(rid: RequestId)
    | WebReject(rid: RequestId)
    | WebDelete(rid: RequestId)
    | WebEdit(rid: RequestId, form: App.EditForm)
    | WebApproveUser(eid: EmployeeId)
    | AdminAdd(entry: App.AdminEntry)
    | Register(tg: TelegramId, fullName: string, department: string)
    | ReasonGiven(dialogue: Dialogue, tg: TelegramId, reason: string)
    | ReplacementChosen(dialogue: Dialogue, tg: TelegramId, choice: int)
    | ReplacementAnswer(rid: RequestId, accept: bool)
    | ButtonApprove(tg: TelegramId, rid: RequestId)
    | GlobalApprove(tg: TelegramId, rid: RequestId)
    | ButtonReject(tg: TelegramId, rid: RequestId)
    | GlobalReject(tg: TelegramId, rid: RequestId)
    | BotApproveUser(tg: TelegramId, eid: EmployeeId)
    | Renewal(dayOfMonth: int, commitSucceeds: bool)

  /**
   * Who can reach the chat steps that write a request: a dialogue that
   * keeps its step invariant (as every replayed dialogue does), of an
   * approved employee (only they get the new-leave button, and approval is
   * never withdrawn).
   */
  ghost predicate ChatGate(s: Store, c: Dialogue, tg: TelegramId) {
    StepInvariant(c) && Bot.IsApprovedEmployee(s, tg)
  }

  /** A request as the chat writes it: pending, unapproved, with a checked range and, for an hourly leave, both times in order. */
  predicate ChatRecord(req: LeaveRequest) {
    && req.status == Pending && req.approvedBy == None
    && (req.kind == Daily || req.kind == Hourly)
    && req.startDate <= req.endDate
    && (req.kind == Hourly ==>
          req.endDate == req.startDate && req.startTime.Some? && req.endTime.Some? && req.startTime.value < req.endTime.value)
    && (req.replacementStatus == NotRequired || req.replacementStatus == AwaitingReplacement)
  }

  /**
   * The reason step and the replacement choice, behind the chat's gates
   * (each at its own step, and the replacement among the offered
   * colleagues or "none", 0): either nothing is written, or one new
   * request under the next id; no employee, holiday or other request
   * changes.
   */
  ghost function AfterChatStep(s: Store, op: Op): (r: Store)
    requires op.ReasonGiven? || op.ReplacementChosen?
    ensures r.employees == s.employees && r.holidays == s.holidays && r.nextEmployeeId == s.nextEmployeeId
    ensures r == s || (r.nextRequestId == s.nextRequestId + 1 && s.nextRequestId in r.requests &&
                       r.requests == s.requests[s.nextRequestId := r.requests[s.nextRequestId]] &&
                       ChatRecord(r.requests[s.nextRequestId]))
    ensures !ChatGate(s, op.dialogue, op.tg) ==> r == s
    ensures StoreValid(s) ==> StoreValid(r)
  {
    match op
    case ReasonGiven(c, tg, reason) =>
      if c.step == EnteringReason && ChatGate(s, c, tg) then
        assert RangeChecked(c.draft.(reason := Some(reason)));
        Bot.AfterEnterReason(s, c, tg, reason).0
      else s
    case ReplacementChosen(c, tg, choice) =>
      if c.step == ChoosingReplacement && ChatGate(s, c, tg) && (choice == 0 || choice in Bot.Candidates(s.employees, tg)) then
        assert RangeChecked(Bot.WithReplacement(c.draft, choice));
        Bot.AfterChooseReplacement(s, c, tg, choice).0
      else s
  }

  /** The store after one operation, whatever its outcome. */
  ghost function Apply(s: Store, op: Op): Store {
    match op
    case WebApprove(rid) => App.AfterWebApprove(s, rid).0
    case WebReject(rid) => AfterReject(s, rid).0
    case WebDelete(rid) => App.AfterDeleteRequest(s, rid).0
    case WebEdit(rid, f) => App.AfterEdit(s, rid, f).0
    case WebApproveUser(eid) => App.AfterApproveUserWeb(s, eid).0
    case AdminAdd(a) => App.AfterAdminAddLeave(s, a).0
    case Register(tg, n, d) => Bot.AfterRegister(s, tg, n, d).0
    case ReasonGiven(_, _, _) => AfterChatStep(s, op)
    case ReplacementChosen(_, _, _) => AfterChatStep(s, op)
    case ReplacementAnswer(rid, accept) => Bot.AfterReplacementResponse(s, rid, accept).0
    case ButtonApprove(tg, rid) => Bot.AfterButtonApprove(s, tg, rid).0
    case GlobalApprove(tg, rid) => Bot.AfterGlobalApprove(s, tg, rid).0
    case ButtonReject(tg, rid) => Bot.AfterButtonReject(s, tg, rid).0
    case GlobalReject(tg, rid) => Bot.AfterGlobalReject(s, tg, rid).0
    case BotApproveUser(tg, eid) => Bot.AfterApproveUserBot(s, tg, eid).0
    case Renewal(day, ok) => Scheduler.AfterRenewal(s, day, ok).0
  }

  /** The store after a sequence of operations. */
  ghost function Run(s: Store, ops: seq<Op>): Store
    decreases |ops|
  {
    if ops == [] then s else Run(Apply(s, ops[0]), ops[1..])
  }

  /** Every operation keeps the schema's constraints and the key counters. */
  lemma ApplyKeepsValid(s: Store, op: Op)
    requires StoreValid(s)
    ensures StoreValid(Apply(s, op))
  {
  }

  /** The constraints hold after any sequence of operations. */
  lemma {:induction false} RunKeepsValid(s: Store, ops: seq<Op>)
    requires StoreValid(s)
    ensures StoreValid(Run(s, ops))
    decreases |ops|
  {
    if ops != [] {
      ApplyKeepsValid(s, ops[0]);
      RunKeepsValid(Apply(s, ops[0]), ops[1..]);
    }
  }

  /** A request that has been approved or rejected is never pending again. */
  lemma DecidedStaysDecided(s: Store, op: Op, rid: RequestId)
    requires StoreValid(s)
    requires rid in s.requests && s.requests[rid].status != Pending
    ensures rid in Apply(s, op).requests ==> Apply(s, op).requests[rid].status != Pending
  {
  }

  /** The operations that may move a balance: approvals, direct entry, approving an employee on the web, renewal. */
  predicate MovesBalances(op: Op) {
    op.WebApprove? || op.ButtonApprove? || op.GlobalApprove? || op.AdminAdd? || op.WebApproveUser? || op.Renewal?
  }

  /** Both balances of every employee are as they were. */
  ghost predicate SameBalances(before: map<EmployeeId, Employee>, after: map<EmployeeId, Employee>) {
    forall id :: id in before ==>
      (id in after && after[id].dailyBalance == before[id].dailyBalance && after[id].hourlyBalance == before[id].hourlyBalance)
  }

  /** Rejecting, deleting, editing, registering, submitting and the replacement's answer never touch a balance. */
  lemma OtherOperationsKeepBalances(s: Store, op: Op)
    requires StoreValid(s)
    requires !MovesBalances(op)
    ensures SameBalances(s.employees, Apply(s, op).employees)
  {
  }

  /** An approval of a request that is absent or no longer pending changes nothing, on every copy. */
  lemma ApprovalOnlyActsOnPending(s: Store, op: Op)
    requires op.WebApprove? || op.ButtonApprove? || op.GlobalApprove?
    requires op.rid !in s.requests || s.requests[op.rid].status != Pending
    ensures Apply(s, op) == s
  {
  }

  /** Approving twice deducts once: the second approve of the same request changes nothing. */
  lemma SecondApproveChangesNothing(s: Store, first: Op, second: Op)
    requires first.WebApprove? || first.ButtonApprove? || first.GlobalApprove?
    requires second.WebApprove? || second.ButtonApprove? || second.GlobalApprove?
    requires first.rid == second.rid && first.rid in s.requests
    requires Apply(s, first) != s
    ensures Apply(Apply(s, first), second) == Apply(s, first)
  {
  }

  /** An operation other than direct entry with the override set keeps every balance non-negative. */
  predicate GuardedOp(op: Op) {
    !(op.AdminAdd? && op.entry.ignoreBalance)
  }

  /**
   * No overdraft: while the override is not used, the balance checks keep
   * every balance non-negative, given non-negative quotas, which no
   * operation changes.
   */
  lemma ApplyKeepsNoOverdraft(s: Store, op: Op)
    requires BalancesNonNegative(s.employees) && QuotasNonNegative(s.employees)
    requires GuardedOp(op)
    ensures BalancesNonNegative(Apply(s, op).employees) && QuotasNonNegative(Apply(s, op).employees)
  {
    if op.Renewal? {
      Scheduler.RenewalKeepsBalancesNonNegative(s.employees);
    }
  }

  /** No sequence of guarded operations drives a balance below zero. */
  lemma {:induction false} RunKeepsNoOverdraft(s: Store, ops: seq<Op>)
    requires BalancesNonNegative(s.employees) && QuotasNonNegative(s.employees)
    requires forall i :: 0 <= i < |ops| ==> GuardedOp(ops[i])
    ensures BalancesNonNegative(Run(s, ops).employees)
    decreases |ops|
  {
    if ops != [] {
      ApplyKeepsNoOverdraft(s, ops[0]);
      RunKeepsNoOverdraft(Apply(s, ops[0]), ops[1..]);
    }
  }

  /** A one-employee store: balances b days and h hours, default quotas, a department. */
  function OneEmployee(tg: TelegramId, manager: bool, b: real, h: real): Employee {
    Employee(tg, "E", Some("IT"), manager, EmployeeApproved, b, h, DefaultDailyQuota, DefaultHourlyQuota)
  }

  /** With the override set, direct entry overdraws: a one-day leave on an empty balance leaves -1 day. */
  lemma OverrideCanOverdraw()
    ensures
      var s := Store(map[1 := OneEmployee(10, false, 0.0, 0.0)], map[], map[], 2, 1);
      var a := App.AdminEntry(1, Daily, 738886, None, 0, 0, "r", true);
      var r := App.AfterAdminAddLeave(s, a);
      r.1 == Done && r.0.employees[1].dailyBalance == -1.0
  {
    assert WorkingDays(738886, 738886, {}) == 1 by {
      assert WorkingDays(738886, 738885, {}) == 0;
    }
  }

  /** A request whose replacement has not answered, or refused, stays off the review list until the replacement accepts. */
  lemma ReviewGate(s: Store, op: Op, rid: RequestId)
    requires StoreValid(s)
    requires rid in s.requests && rid !in Bot.ReviewSet(s.requests)
    requires !(op.ReplacementAnswer? && op.rid == rid && op.accept)
    ensures rid !in Bot.ReviewSet(Apply(s, op).requests)
  {
  }

  /**
   * The replacement gate is only the review list's filter: no approve copy
   * reads the replacement status, so a request still awaiting its
   * replacement is approved like any other.
   */
  lemma ApproveIgnoresReplacementStatus(s: Store, rid: RequestId, x: ReplacementStatus)
    requires rid in s.requests
    ensures
      var t := s.(requests := s.requests[rid := s.requests[rid].(replacementStatus := x)]);
      App.AfterWebApprove(t, rid).1 == App.AfterWebApprove(s, rid).1 && Bot.AfterBotApprove(t, rid).1 == Bot.AfterBotApprove(s, rid).1
  {
  }

  /** The replacement's acceptance puts a pending request on the review list. */
  lemma AcceptanceRevealsRequest(s: Store, rid: RequestId)
    requires rid in s.requests && s.requests[rid].status == Pending
    ensures rid in Bot.ReviewSet(Apply(s, ReplacementAnswer(rid, true)).requests)
  {
  }

  /** A request the replacement refused never reaches the review list, whatever happens afterwards. */
  lemma {:induction false} RefusedNeverReviewed(s: Store, ops: seq<Op>, rid: RequestId)
    requires StoreValid(s)
    requires rid in s.requests && s.requests[rid].status == Rejected
    ensures rid !in Bot.ReviewSet(Run(s, ops).requests)
    decreases |ops|
  {
    if ops != [] {
      var next := Apply(s, ops[0]);
      ApplyKeepsValid(s, ops[0]);
      DecidedStaysDecided(s, ops[0], rid);
      RejectedStaysRejected(s, ops[0], rid);
      if rid in next.requests {
        RefusedNeverReviewed(next, ops[1..], rid);
      } else {
        NeverReturns(next, ops[1..], rid);
      }
    }
  }

  /** A rejected request stays rejected: only the replacement's refusal writes a status besides the approvals, and that one writes Rejected. */
  lemma RejectedStaysRejected(s: Store, op: Op, rid: RequestId)
    requires StoreValid(s)
    requires rid in s.requests && s.requests[rid].status == Rejected
    ensures rid in Apply(s, op).requests ==> Apply(s, op).requests[rid].status == Rejected
  {
  }

  /** A request id that is gone stays gone: new requests take fresh ids. */
  lemma {:induction false} NeverReturns(s: Store, ops: seq<Op>, rid: RequestId)
    requires StoreValid(s)
    requires rid !in s.requests && rid < s.nextRequestId
    ensures rid !in Run(s, ops).requests
    decreases |ops|
  {
    if ops != [] {
      ApplyKeepsValid(s, ops[0]);
      ApplyKeepsGoneGone(s, ops[0], rid);
      NeverReturns(Apply(s, ops[0]), ops[1..], rid);
    }
  }

  /** One operation neither brings back a removed request id nor lowers the request counter. */
  lemma ApplyKeepsGoneGone(s: Store, op: Op, rid: RequestId)
    requires StoreValid(s)
    requires rid !in s.requests && rid < s.nextRequestId
    ensures rid !in Apply(s, op).requests && rid < Apply(s, op).nextRequestId
  {
  }

  /** The replacement's refusal also rejects a request that was already approved, and gives no balance back. */
  lemma RefusalRevokesApproval(s: Store, rid: RequestId)
    requires rid in s.requests && s.requests[rid].status == Approved
    ensures Apply(s, ReplacementAnswer(rid, false)).requests[rid].status == Rejected
    ensures Apply(s, ReplacementAnswer(rid, false)).employees == s.employees
  {
  }

  /** Deleting a request gives back nothing it deducted. */
  lemma DeleteNeverRefunds(s: Store, rid: RequestId)
    ensures Apply(s, WebDelete(rid)).employees == s.employees
    ensures rid in s.requests && s.requests[rid].employeeId in s.employees ==> rid !in Apply(s, WebDelete(rid)).requests
  {
  }

  /** Every hourly request starts and ends on the same day. */
  ghost predicate HourlyRequestsSingleDay(s: Store) {
    forall rid :: rid in s.requests && s.requests[rid].kind == Hourly ==> s.requests[rid].endDate == s.requests[rid].startDate
  }

  /**
   * Every path that writes dates keeps hourly requests to one day: the
   * dialogue asks an hourly leave for one date, direct entry and the edit
   * form end any non-daily request on its start date.
   */
  lemma ApplyKeepsHourlySingleDay(s: Store, op: Op)
    requires HourlyRequestsSingleDay(s)
    ensures HourlyRequestsSingleDay(Apply(s, op))
  {
  }

  /** Hourly requests stay single-day under any sequence of operations. */
  lemma {:induction false} RunKeepsHourlySingleDay(s: Store, ops: seq<Op>)
    requires HourlyRequestsSingleDay(s)
    ensures HourlyRequestsSingleDay(Run(s, ops))
    decreases |ops|
  {
    if ops != [] {
      ApplyKeepsHourlySingleDay(s, ops[0]);
      RunKeepsHourlySingleDay(Apply(s, ops[0]), ops[1..]);
    }
  }

  /** No declared holiday falls in the request's range. */
  ghost predicate NoHolidayInRange(s: Store, req: LeaveRequest) {
    forall x :: x in HolidayCalendar(s.holidays) ==> x < req.startDate || x > req.endDate
  }

  /**
   * The web and chat approvals agree, apart from the approver label, on a
   * daily request with no holiday in its range and on an hourly request
   * with both times.
   */
  lemma WebAndBotApproveAgree(s: Store, rid: RequestId)
    requires rid in s.requests
    requires s.requests[rid].kind == Daily ==> NoHolidayInRange(s, s.requests[rid])
    requires s.requests[rid].kind == Hourly ==> s.requests[rid].startTime.Some? && s.requests[rid].endTime.Some?
    ensures App.AfterWebApprove(s, rid).1 == Bot.AfterBotApprove(s, rid).1
    ensures App.AfterWebApprove(s, rid).0.employees == Bot.AfterBotApprove(s, rid).0.employees
    ensures App.AfterWebApprove(s, rid).1 == Done ==>
      App.AfterWebApprove(s, rid).0.requests ==
      Bot.AfterBotApprove(s, rid).0.requests[rid := Bot.AfterBotApprove(s, rid).0.requests[rid].(approvedBy := Some(App.WebApprover))]
  {
    var req := s.requests[rid];
    if req.kind == Daily {
      HolidaysOutsideRangeIgnored(req.startDate, req.endDate, {}, HolidayCalendar(s.holidays));
      assert {} + HolidayCalendar(s.holidays) == HolidayCalendar(s.holidays);
    }
  }

  /** Holidays only ever lower the web console's day count below the chat's. */
  lemma WebCountsNoMoreDays(req: LeaveRequest, holidays: set<Date>)
    requires req.kind == Daily
    ensures App.WebQuantity(req, holidays) <= Bot.BotQuantity(req).value
  {
    WorkingDaysAntitone(req.startDate, req.endDate, {}, holidays);
  }

  /** A one-day request on a declared holiday: the web console deducts nothing, the chat deducts one day. */
  lemma HolidaySplitsTheCopies()
    ensures
      var req := LeaveRequest(1, Daily, 738886, 738886, None, None, "r", Pending, None, NotRequired, None);
      var s := Store(map[1 := OneEmployee(10, true, 2.0, 4.0)], map[5 := req], map[3 := Holiday("H", 738886)], 2, 6);
      && App.AfterWebApprove(s, 5).0.employees[1].dailyBalance == 2.0
      && Bot.AfterBotApprove(s, 5).0.employees[1].dailyBalance == 1.0
  {
    var holidays := map[3 := Holiday("H", 738886)];
    assert HolidayCalendar(holidays) == {738886} by {
      assert holidays[3].date == 738886;
    }
    assert WorkingDays(738886, 738885, {}) == 0;
    assert WorkingDays(738886, 738886, {}) == 1;
    assert WorkingDays(738886, 738885, {738886}) == 0;
    assert WorkingDays(738886, 738886, {738886}) == 0;
  }

  /** An hourly request without its times: the web console approves it for 0 hours, the chat handlers raise. */
  lemma MissingTimesSplitTheCopies(s: Store, rid: RequestId)
    requires rid in s.requests && s.requests[rid].status == Pending && s.requests[rid].kind == Hourly
    requires s.requests[rid].employeeId in s.employees && s.employees[s.requests[rid].employeeId].hourlyBalance >= 0.0
    requires s.requests[rid].startTime == None
    ensures App.AfterWebApprove(s, rid).1 == Done
    ensures App.AfterWebApprove(s, rid).0.employees == s.employees[s.requests[rid].employeeId := s.employees[s.requests[rid].employeeId]]
    ensures Bot.AfterBotApprove(s, rid) == (s, Fault)
  {
  }

  /** The menu handler lets any approved employee approve a leave; the global handler requires a manager. */
  lemma MenuApproveSkipsManagerCheck()
    ensures
      var req := LeaveRequest(1, Hourly, 738886, 738886, Some(32400), Some(36000), "r", Pending, None, NotRequired, None);
      var s := Store(map[1 := OneEmployee(10, false, 2.0, 4.0), 2 := OneEmployee(20, false, 2.0, 4.0)], map[5 := req], map[], 3, 6);
      && Bot.AfterButtonApprove(s, 20, 5).1 == Done
      && Bot.AfterGlobalApprove(s, 20, 5).1 == Unauthorized
  {
    var s := Store(map[1 := OneEmployee(10, false, 2.0, 4.0), 2 := OneEmployee(20, false, 2.0, 4.0)],
                   map[5 := LeaveRequest(1, Hourly, 738886, 738886, Some(32400), Some(36000), "r", Pending, None, NotRequired, None)],
                   map[], 3, 6);
    assert s.employees[2].telegramId == 20 && s.employees[2].status == EmployeeApproved;
    assert Bot.IsApprovedEmployee(s, 20);
  }

  /** Approving an employee from the web console seeds both balances from the quotas; the chat leaves them as they were. */
  lemma OnlyTheWebSeedsBalances(s: Store, tg: TelegramId, eid: EmployeeId)
    requires Bot.IsManager(s, tg)
    requires eid in s.employees && s.employees[eid].status == EmployeePending
    ensures Apply(s, WebApproveUser(eid)).employees[eid].dailyBalance == s.employees[eid].dailyQuota
    ensures Apply(s, WebApproveUser(eid)).employees[eid].hourlyBalance == s.employees[eid].hourlyQuota
    ensures Apply(s, BotApproveUser(tg, eid)).employees[eid].dailyBalance == s.employees[eid].dailyBalance
    ensures Apply(s, BotApproveUser(tg, eid)).employees[eid].hourlyBalance == s.employees[eid].hourlyBalance
    ensures Apply(s, BotApproveUser(tg, eid)).employees[eid].status == EmployeeApproved
  {
  }

  /**
   * An edit may give an hourly request an end time before its start time;
   * approving it then deducts a negative number of hours, raising the
   * balance.
   */
  lemma ReversedTimesRaiseBalance()
    ensures
      var req := LeaveRequest(1, Daily, 738886, 738887, None, None, "r", Pending, None, NotRequired, None);
      var s := Store(map[1 := OneEmployee(10, false, 2.0, 4.0)], map[5 := req], map[], 2, 6);
      var edited := Apply(s, WebEdit(5, App.EditForm(Hourly, 738886, 738886, 36000, 32400, "r")));
      Apply(edited, WebApprove(5)).employees[1].hourlyBalance == 5.0
  {
  }

  /** The dialogue of an employee who asked, from a fresh conversation on Monday 2024-01-01, for a daily leave on Monday and Tuesday. */
  function MondayTuesdayDialogue(): (c: Dialogue)
    ensures c.step == EnteringReason && StepInvariant(c)
    ensures c.draft == Draft(Some(Daily), Some(738886), Some(738887), None, None, None, None)
  {
    var c0 := StartNewLeave(Dialogue(MainMenu, EmptyDraft));
    var c1 := ChooseLeaveType(c0, true);
    var c2 := EnterStartDate(c1, Some(738886), 738886);
    EnterEndDate(c2, Some(738887))
  }

  /** The scenario's employees once both are approved: the manager with zero balances, the employee seeded with the defaults. */
  function ScenarioEmployees(): map<EmployeeId, Employee> {
    map[1 := Employee(100, "M", Some("IT"), true, EmployeeApproved, 0.0, 0.0, DefaultDailyQuota, DefaultHourlyQuota),
        2 := Employee(200, "E", Some("IT"), false, EmployeeApproved, 2.0, 4.0, DefaultDailyQuota, DefaultHourlyQuota)]
  }

  /** The scenario's dialogue once the reason is given and a replacement is asked for. */
  function ScenarioChoosing(): Dialogue {
    Dialogue(ChoosingReplacement, Draft(Some(Daily), Some(738886), Some(738887), None, None, Some("trip"), None))
  }

  /** The scenario's request, awaiting the manager as its replacement. */
  function ScenarioRequest(): LeaveRequest {
    LeaveRequest(2, Daily, 738886, 738887, None, None, "trip", Pending, Some(1), AwaitingReplacement, None)
  }

  /** Registration and the web approval: the manager is approved at once, the employee once seeded. */
  lemma ScenarioSetUp()
    ensures
      var s0 := Store(map[], map[], map[], 1, 1);
      var s1 := Apply(s0, Register(100, "M", "IT"));
      var s2 := Apply(s1, Register(200, "E", "IT"));
      && 1 in s1.employees && s1.employees[1].isManager
      && 2 in s2.employees && s2.employees[2].status == EmployeePending
      && Apply(s2, WebApproveUser(2)) == Store(ScenarioEmployees(), map[], map[], 3, 1)
  {
    var s0 := Store(map[], map[], map[], 1, 1);
    var s1 := Apply(s0, Register(100, "M", "IT"));
    assert s1.employees == map[1 := Bot.Registrant(s0, 100, "M", "IT")];
    var s2 := Apply(s1, Register(200, "E", "IT"));
    assert s1.employees[1].telegramId != 200;
    assert s2.employees == s1.employees[2 := Bot.Registrant(s1, 200, "E", "IT")];
  }

  /** The reason step: the manager is a colleague to offer, so nothing is written and a replacement is asked for. */
  lemma ScenarioReasonStep()
    ensures Apply(Store(ScenarioEmployees(), map[], map[], 3, 1), ReasonGiven(MondayTuesdayDialogue(), 200, "trip"))
            == Store(ScenarioEmployees(), map[], map[], 3, 1)
    ensures Bot.AfterEnterReason(Store(ScenarioEmployees(), map[], map[], 3, 1), MondayTuesdayDialogue(), 200, "trip").1
            == ScenarioChoosing()
  {
    var s3 := Store(ScenarioEmployees(), map[], map[], 3, 1);
    assert s3.employees[1].telegramId != 200 && s3.employees[1].status == EmployeeApproved;
    assert Bot.HasCandidate(s3.employees, 200);
  }

  /** Naming the manager as the replacement writes the request under id 1. */
  lemma ScenarioReplacementStep()
    ensures Apply(Store(ScenarioEmployees(), map[], map[], 3, 1), ReplacementChosen(ScenarioChoosing(), 200, 1))
            == Store(ScenarioEmployees(), map[1 := ScenarioRequest()], map[], 3, 2)
  {
    var s3 := Store(ScenarioEmployees(), map[], map[], 3, 1);
    assert s3.employees[2].telegramId == 200 && s3.employees[2].status == EmployeeApproved;
    LookupFindsUnique(s3.employees, 200, 2);
    assert Bot.IsApprovedEmployee(s3, 200);
    assert s3.employees[1].telegramId != 200 && s3.employees[1].status == EmployeeApproved;
    assert 1 in Bot.Candidates(s3.employees, 200);
  }

  /** The request waits for the manager's answer; once accepted it is reviewed, and approving it uses up both days. */
  lemma ScenarioReview()
    ensures 1 !in Bot.ReviewSet(map[1 := ScenarioRequest()])
    ensures Apply(Store(ScenarioEmployees(), map[1 := ScenarioRequest()], map[], 3, 2), ReplacementAnswer(1, true))
            == Store(ScenarioEmployees(), map[1 := ScenarioRequest().(replacementStatus := ReplacementAccepted)], map[], 3, 2)
    ensures 1 in Bot.ReviewSet(map[1 := ScenarioRequest().(replacementStatus := ReplacementAccepted)])
    ensures
      var s7 := Apply(Store(ScenarioEmployees(), map[1 := ScenarioRequest().(replacementStatus := ReplacementAccepted)], map[], 3, 2),
                      GlobalApprove(100, 1));
      && 1 in s7.requests && s7.requests[1].status == Approved
      && 2 in s7.employees && s7.employees[2].dailyBalance == 0.0
  {
    var s6 := Store(ScenarioEmployees(), map[1 := ScenarioRequest().(replacementStatus := ReplacementAccepted)], map[], 3, 2);
    assert s6.employees[1].telegramId == 100 && s6.employees[1].status == EmployeeApproved && s6.employees[1].isManager;
    assert Bot.IsManager(s6, 100);
    assert WorkingDays(738886, 738885, {}) == 0;
    assert WorkingDays(738886, 738886, {}) == 1;
    assert WorkingDays(738886, 738887, {}) == 2;
  }

  /**
   * From an empty database: the first registrant becomes the manager, the
   * second waits for approval and is approved on the web with the default
   * two days. The second asks for Monday and Tuesday; the manager is the
   * one colleague to offer, so the dialogue asks for a replacement and
   * nothing is written yet. Naming the manager writes the request, which
   * stays off the review list until the manager accepts; the manager's
   * approval from the chat then uses up both days.
   */
  lemma MondayTuesdayScenario()
    ensures
      var s0 := Store(map[], map[], map[], 1, 1);
      var s1 := Apply(s0, Register(100, "M", "IT"));
      var s2 := Apply(s1, Register(200, "E", "IT"));
      var s3 := Apply(s2, WebApproveUser(2));
      var c := MondayTuesdayDialogue();
      var s4 := Apply(s3, ReasonGiven(c, 200, "trip"));
      var c4 := Bot.AfterEnterReason(s3, c, 200, "trip").1;
      var s5 := Apply(s4, ReplacementChosen(c4, 200, 1));
      var s6 := Apply(s5, ReplacementAnswer(1, true));
      var s7 := Apply(s6, GlobalApprove(100, 1));
      && 1 in s1.employees && s1.employees[1].isManager
      && 2 in s2.employees && s2.employees[2].status == EmployeePending
      && 2 in s3.employees && s3.employees[2].dailyBalance == 2.0
      && s4 == s3 && c4.step == ChoosingReplacement && c4.draft.reason == Some("trip")
      && 1 in s5.requests && s5.requests[1].replacementId == Some(1) && 1 !in Bot.ReviewSet(s5.requests)
      && 1 in Bot.ReviewSet(s6.requests)
      && 1 in s7.requests && s7.requests[1].status == Approved
      && 2 in s7.employees && s7.employees[2].dailyBalance == 0.0
  {
    ScenarioSetUp();
    ScenarioReasonStep();
    ScenarioReplacementStep();
    ScenarioReview();
  }
}
