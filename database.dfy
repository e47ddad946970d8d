/**
 * The persistent records (employees, leave requests, holidays) with their
 * column defaults and uniqueness constraints, the URL masking helper, and the
 * in-memory store that stands for the database session.
 */
module Database {
  import opened Util
  import opened Calendar

  type EmployeeId = int
  type RequestId = int
  type HolidayId = int
  /** The opaque messaging handle that identifies an employee to the chat front-end. */
  type TelegramId = int

  datatype EmployeeStatus = EmployeePending | EmployeeApproved

  /**
   * The leave_type column. The two front-ends only ever write the daily or the
   * hourly label; any other value is kept as OtherKind, which the approval and
   * edit code treat through their fall-through branches.
   */
  datatype LeaveKind = Daily | Hourly | OtherKind(name: string)

  datatype RequestStatus = Pending | Approved | Rejected

  datatype ReplacementStatus = AwaitingReplacement | ReplacementAccepted | ReplacementRejected | NotRequired

  datatype Employee = Employee(
    telegramId: TelegramId,
    fullName: string,
    department: Option<string>,
    isManager: bool,
    status: EmployeeStatus,
    dailyBalance: real,
    hourlyBalance: real,
    dailyQuota: real,
    hourlyQuota: real)

  datatype LeaveRequest = LeaveRequest(
    employeeId: EmployeeId,
    kind: LeaveKind,
    startDate: Date,
    endDate: Date,
    startTime: Option<TimeOfDay>,
    endTime: Option<TimeOfDay>,
    reason: string,
    status: RequestStatus,
    replacementId: Option<EmployeeId>,
    replacementStatus: ReplacementStatus,
    approvedBy: Option<string>)

  datatype Holiday = Holiday(name: string, date: Date)

  const DefaultDailyQuota: real := 2.0
  const DefaultHourlyQuota: real := 4.0

  /** An employee row created with only its required columns: every other column takes its default. */
  function NewEmployee(telegramId: TelegramId, fullName: string, department: Option<string>): (e: Employee)
    ensures e.telegramId == telegramId && e.fullName == fullName && e.department == department
    ensures e.status == EmployeePending && !e.isManager
    ensures e.dailyBalance == 0.0 && e.hourlyBalance == 0.0
    ensures e.dailyQuota == 2.0 && e.hourlyQuota == 4.0
  {
    Employee(telegramId, fullName, department, false, EmployeePending, 0.0, 0.0, DefaultDailyQuota, DefaultHourlyQuota)
  }

  /** A leave-request row created without status columns: both statuses default to pending. */
  function NewLeaveRequest(employeeId: EmployeeId, kind: LeaveKind, startDate: Date, endDate: Date,
                           startTime: Option<TimeOfDay>, endTime: Option<TimeOfDay>, reason: string,
                           replacementId: Option<EmployeeId>): (r: LeaveRequest)
    ensures r.status == Pending && r.replacementStatus == AwaitingReplacement && r.approvedBy == None
    ensures r.employeeId == employeeId && r.kind == kind && r.reason == reason && r.replacementId == replacementId
    ensures r.startDate == startDate && r.endDate == endDate && r.startTime == startTime && r.endTime == endTime
  {
    LeaveRequest(employeeId, kind, startDate, endDate, startTime, endTime, reason, Pending, replacementId, AwaitingReplacement, None)
  }

  /** The unique constraint on employees.telegram_id. */
  ghost predicate TelegramIdsUnique(employees: map<EmployeeId, Employee>) {
    forall a, b :: a in employees && b in employees && a != b ==> employees[a].telegramId != employees[b].telegramId
  }

  /** The unique constraint on holidays.date. */
  ghost predicate HolidayDatesUnique(holidays: map<HolidayId, Holiday>) {
    forall a, b :: a in holidays && b in holidays && a != b ==> holidays[a].date != holidays[b].date
  }

  /** The set of holiday dates the day count consults. */
  function HolidayCalendar(holidays: map<HolidayId, Holiday>): set<Date> {
    set id | id in holidays :: holidays[id].date
  }

  /** Because holiday dates are unique, the calendar holds one date per holiday row. */
  lemma {:induction false} HolidayCalendarSize(holidays: map<HolidayId, Holiday>)
    requires HolidayDatesUnique(holidays)
    ensures |HolidayCalendar(holidays)| == |holidays|
    decreases |holidays|
  {
    if holidays == map[] {
      assert HolidayCalendar(holidays) == {};
    } else {
      var id := PickKey(holidays);
      var rest := holidays - {id};
      assert rest.Keys == holidays.Keys - {id};
      assert |rest| == |holidays| - 1;
      HolidayCalendarSize(rest);
      forall d ensures d in HolidayCalendar(holidays) <==> d in HolidayCalendar(rest) + {holidays[id].date} {
        if d in HolidayCalendar(holidays) {
          var k :| k in holidays && holidays[k].date == d;
          if k != id { assert k in rest; }
        }
      }
      assert HolidayCalendar(holidays) == HolidayCalendar(rest) + {holidays[id].date};
      assert holidays[id].date !in HolidayCalendar(rest);
    }
  }

  /** Some key of a non-empty map. */
  ghost function PickKey<K, V>(m: map<K, V>): (k: K)
    requires m != map[]
    ensures k in m
  {
    var k :| k in m.Keys; k
  }

  /** The employee whose messaging handle is given, found as `filter_by(telegram_id=...).first()` finds it. */
  ghost function LookupByTelegram(employees: map<EmployeeId, Employee>, tg: TelegramId): (r: Option<EmployeeId>)
    ensures r.Some? ==> r.value in employees && employees[r.value].telegramId == tg
    ensures r.None? ==> forall id :: id in employees ==> employees[id].telegramId != tg
  {
    if exists id :: id in employees && employees[id].telegramId == tg then
      var id :| id in employees && employees[id].telegramId == tg; Some(id)
    else None
  }

  /** Under the uniqueness constraint the lookup finds the one matching row. */
  lemma LookupFindsUnique(employees: map<EmployeeId, Employee>, tg: TelegramId, id: EmployeeId)
    requires TelegramIdsUnique(employees)
    requires id in employees && employees[id].telegramId == tg
    ensures LookupByTelegram(employees, tg) == Some(id)
  {
  }

  /** Executable form of the lookup by messaging handle. */
  method FindByTelegramId(employees: map<EmployeeId, Employee>, tg: TelegramId) returns (r: Option<EmployeeId>)
    requires TelegramIdsUnique(employees)
    ensures r == LookupByTelegram(employees, tg)
  {
    if exists id :: id in employees && employees[id].telegramId == tg {
      var id :| id in employees && employees[id].telegramId == tg;
      LookupFindsUnique(employees, tg, id);
      r := Some(id);
    } else {
      r := None;
    }
  }

  /** The part of a string after its last '@' (all of it when there is none). */
  function AfterLastAt(s: string): (r: string)
    ensures '@' !in r
    ensures |r| <= |s| && r == s[|s| - |r|..]
    ensures r == s || s[|s| - |r| - 1] == '@'
  {
    if s == [] then []
    else if s[|s| - 1] == '@' then []
    else
      var rest := AfterLastAt(s[..|s| - 1]);
      assert s[|s| - |rest| - 1..] == s[..|s| - 1][|s| - 1 - |rest|..] + [s[|s| - 1]];
      rest + [s[|s| - 1]]
  }

  /** A database URL reduced to its host/database part for logging. */
  function MaskUrl(url: Option<string>): (r: string)
    ensures url == None || url == Some("") ==> r == "None"
    ensures url.Some? && url.value != "" ==>
      '@' !in r && |r| <= |url.value| && r == url.value[|url.value| - |r|..] &&
      (r == url.value || url.value[|url.value| - |r| - 1] == '@')
  {
    match url
    case None => "None"
    case Some(u) => if u == "" then "None" else AfterLastAt(u)
  }

  /** Masking keeps a URL that has no '@' whole. */
  lemma MaskUrlWithoutAt(u: string)
    requires u != "" && '@' !in u
    ensures MaskUrl(Some(u)) == u
  {
  }

  /** Masking drops the credentials before the last '@'. */
  lemma MaskUrlExample()
    ensures MaskUrl(Some("u:p@db")) == "db"
  {
  }

  /** The whole database: the three tables, keyed by primary key, and the next free primary keys. */
  datatype Store = Store(
    employees: map<EmployeeId, Employee>,
    requests: map<RequestId, LeaveRequest>,
    holidays: map<HolidayId, Holiday>,
    nextEmployeeId: EmployeeId,
    nextRequestId: RequestId)

  /**
   * Every request's owner exists: employee_id is a non-null foreign key, and
   * deleting an employee nulls the key of its requests, which the database
   * refuses, so an owner with requests cannot be deleted.
   */
  ghost predicate OwnersExist(s: Store) {
    forall rid :: rid in s.requests ==> s.requests[rid].employeeId in s.employees
  }

  /** The schema's constraints, plus: every primary key in use is below the next one handed out. */
  ghost predicate StoreValid(s: Store) {
    && TelegramIdsUnique(s.employees)
    && HolidayDatesUnique(s.holidays)
    && OwnersExist(s)
    && (forall id :: id in s.employees ==> id < s.nextEmployeeId)
    && (forall id :: id in s.requests ==> id < s.nextRequestId)
  }

  /** The database session: tables the front-ends read and update in place. */
  class LeaveDb {
    var employees: map<EmployeeId, Employee>
    var requests: map<RequestId, LeaveRequest>
    var holidays: map<HolidayId, Holiday>
    var nextEmployeeId: EmployeeId
    var nextRequestId: RequestId

    function Value(): Store
      reads this
    {
      Store(employees, requests, holidays, nextEmployeeId, nextRequestId)
    }

    ghost predicate Valid()
      reads this
    {
      StoreValid(Value())
    }

    /** An empty database. */
    constructor ()
      ensures Valid()
      ensures employees == map[] && requests == map[] && holidays == map[]
    {
      employees, requests, holidays := map[], map[], map[];
      nextEmployeeId, nextRequestId := 1, 1;
    }
  }
}
