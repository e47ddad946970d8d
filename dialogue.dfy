/**
 * The chat dialogue that collects a leave request: the step the conversation
 * is in and the draft it has gathered so far (the per-user scratch data of
 * the chat front-end), with the date and time checks each step applies.
 * Parsing the user's text is outside the model: each step receives the
 * parsed value, or None when the text did not parse.
 */
module BotDialogue {
  import opened Util
  import opened Calendar
  import opened Database

  datatype Step =
    | MainMenu
    | ChoosingType
    | EnteringStartDate
    | EnteringEndDate
    | EnteringStartTime
    | EnteringEndTime
    | EnteringReason
    | ChoosingReplacement
    | Ended

  /** The values gathered so far; a None field is a key not yet written. */
  datatype Draft = Draft(
    kind: Option<LeaveKind>,
    startDate: Option<Date>,
    endDate: Option<Date>,
    startTime: Option<TimeOfDay>,
    endTime: Option<TimeOfDay>,
    reason: Option<string>,
    replacementId: Option<EmployeeId>)

  const EmptyDraft := Draft(None, None, None, None, None, None, None)

  datatype Dialogue = Dialogue(step: Step, draft: Draft)

  /** The checks a draft has passed once its dates and times are all entered. */
  predicate RangeChecked(d: Draft) {
    && d.kind.Some? && d.startDate.Some? && d.endDate.Some?
    && d.startDate.value <= d.endDate.value
    && (d.kind.value == Hourly ==>
          d.endDate == d.startDate && d.startTime.Some? && d.endTime.Some? && d.startTime.value < d.endTime.value)
  }

  /** What each step may rely on having been gathered before it. */
  ghost predicate StepInvariant(c: Dialogue) {
    && (c.draft.kind == None || c.draft.kind == Some(Daily) || c.draft.kind == Some(Hourly))
    && (c.step == EnteringStartDate ==> c.draft.kind.Some?)
    && (c.step == EnteringEndDate ==> c.draft.kind == Some(Daily) && c.draft.startDate.Some?)
    && (c.step == EnteringStartTime ==>
          c.draft.kind == Some(Hourly) && c.draft.startDate.Some? && c.draft.endDate == c.draft.startDate)
    && (c.step == EnteringEndTime ==>
          c.draft.kind == Some(Hourly) && c.draft.startDate.Some? && c.draft.endDate == c.draft.startDate &&
          c.draft.startTime.Some?)
    && (c.step == EnteringReason ==> RangeChecked(c.draft))
    && (c.step == ChoosingReplacement ==> RangeChecked(c.draft) && c.draft.reason.Some?)
  }

  /** Opening the new-leave dialogue from the main menu; the draft is not cleared. */
  function StartNewLeave(c: Dialogue): (r: Dialogue)
    requires c.step == MainMenu
    ensures r.step == ChoosingType && r.draft == c.draft
    ensures StepInvariant(c) ==> StepInvariant(r)
  {
    c.(step := ChoosingType)
  }

  /** Cancelling the dialogue from any step ends it and clears the draft. */
  function CancelLeave(c: Dialogue): (r: Dialogue)
    ensures r.step == Ended && r.draft == EmptyDraft
    ensures StepInvariant(r)
  {
    Dialogue(Ended, EmptyDraft)
  }

  /** Restarting with the start command returns to the main menu and keeps the draft. */
  function Restart(c: Dialogue): (r: Dialogue)
    ensures r.step == MainMenu && r.draft == c.draft
    ensures StepInvariant(c) ==> StepInvariant(r)
  {
    c.(step := MainMenu)
  }

  /** Choosing the leave type records it and asks for the (start) date. */
  function ChooseLeaveType(c: Dialogue, daily: bool): (r: Dialogue)
    requires c.step == ChoosingType
    ensures r.step == EnteringStartDate
    ensures r.draft == c.draft.(kind := Some(if daily then Daily else Hourly))
    ensures StepInvariant(c) ==> StepInvariant(r)
  {
    Dialogue(EnteringStartDate, c.draft.(kind := Some(if daily then Daily else Hourly)))
  }

  /**
   * The start date step: an unparsed date or one before today leaves the
   * dialogue where it is; otherwise the date is kept, an hourly request
   * also takes it as its end date and moves on to the start time, and a
   * daily request moves on to the end date.
   */
  function EnterStartDate(c: Dialogue, parsed: Option<Date>, today: Date): (r: Dialogue)
    requires c.step == EnteringStartDate && StepInvariant(c)
    ensures parsed == None || parsed.value < today ==> r == c
    ensures parsed.Some? && parsed.value >= today ==>
      && r.draft.startDate == parsed
      && (c.draft.kind == Some(Hourly) ==>
            r.step == EnteringStartTime && r.draft == c.draft.(startDate := parsed, endDate := parsed))
      && (c.draft.kind != Some(Hourly) ==>
            r.step == EnteringEndDate && r.draft == c.draft.(startDate := parsed))
    ensures StepInvariant(r)
  {
    match parsed
    case None => c
    case Some(day) =>
      if day < today then c
      else if c.draft.kind == Some(Hourly) then Dialogue(EnteringStartTime, c.draft.(startDate := parsed, endDate := parsed))
      else Dialogue(EnteringEndDate, c.draft.(startDate := parsed))
  }

  /** The end date step of a daily request: an unparsed date or one before the start date is refused. */
  function EnterEndDate(c: Dialogue, parsed: Option<Date>): (r: Dialogue)
    requires c.step == EnteringEndDate && StepInvariant(c)
    ensures parsed == None || parsed.value < c.draft.startDate.value ==> r == c
    ensures parsed.Some? && parsed.value >= c.draft.startDate.value ==>
      r == Dialogue(EnteringReason, c.draft.(endDate := parsed))
    ensures StepInvariant(r)
  {
    match parsed
    case None => c
    case Some(day) =>
      if day < c.draft.startDate.value then c
      else Dialogue(EnteringReason, c.draft.(endDate := parsed))
  }

  /** The start time step of an hourly request: any parsed time is accepted. */
  function EnterStartTime(c: Dialogue, parsed: Option<TimeOfDay>): (r: Dialogue)
    requires c.step == EnteringStartTime && StepInvariant(c)
    ensures parsed == None ==> r == c
    ensures parsed.Some? ==> r == Dialogue(EnteringEndTime, c.draft.(startTime := parsed))
    ensures StepInvariant(r)
  {
    if parsed.None? then c else Dialogue(EnteringEndTime, c.draft.(startTime := parsed))
  }

  /** The end time step of an hourly request: an unparsed time or one not after the start time is refused. */
  function EnterEndTime(c: Dialogue, parsed: Option<TimeOfDay>): (r: Dialogue)
    requires c.step == EnteringEndTime && StepInvariant(c)
    ensures parsed == None || parsed.value <= c.draft.startTime.value ==> r == c
    ensures parsed.Some? && parsed.value > c.draft.startTime.value ==>
      r == Dialogue(EnteringReason, c.draft.(endTime := parsed))
    ensures StepInvariant(r)
  {
    match parsed
    case None => c
    case Some(t) =>
      if t <= c.draft.startTime.value then c
      else Dialogue(EnteringReason, c.draft.(endTime := parsed))
  }

  /** One user action that does not touch the database. */
  datatype Event =
    | NewLeave
    | Cancel
    | StartCommand
    | PickType(daily: bool)
    | StartDateGiven(parsedDate: Option<Date>, today: Date)
    | EndDateGiven(parsedDate: Option<Date>)
    | StartTimeGiven(parsedTime: Option<TimeOfDay>)
    | EndTimeGiven(parsedTime: Option<TimeOfDay>)

  /** Dispatch by step: an action the current step has no handler for leaves the dialogue unchanged. */
  ghost function Handle(c: Dialogue, e: Event): (r: Dialogue)
    requires StepInvariant(c)
    ensures StepInvariant(r)
  {
    match e
    case NewLeave => if c.step == MainMenu then StartNewLeave(c) else c
    case Cancel => CancelLeave(c)
    case StartCommand => Restart(c)
    case PickType(daily) => if c.step == ChoosingType then ChooseLeaveType(c, daily) else c
    case StartDateGiven(p, today) => if c.step == EnteringStartDate then EnterStartDate(c, p, today) else c
    case EndDateGiven(p) => if c.step == EnteringEndDate then EnterEndDate(c, p) else c
    case StartTimeGiven(p) => if c.step == EnteringStartTime then EnterStartTime(c, p) else c
    case EndTimeGiven(p) => if c.step == EnteringEndTime then EnterEndTime(c, p) else c
  }

  /** The dialogue after a sequence of user actions. */
  ghost function Replay(c: Dialogue, events: seq<Event>): Dialogue
    requires StepInvariant(c)
    decreases |events|
  {
    if events == [] then c else Replay(Handle(c, events[0]), events[1..])
  }

  /**
   * Whatever the user does, a dialogue that reaches the reason step holds a
   * range-checked daily or hourly draft: the checks cannot be bypassed.
   */
  lemma {:induction false} ReplayKeepsInvariant(c: Dialogue, events: seq<Event>)
    requires StepInvariant(c)
    ensures StepInvariant(Replay(c, events))
    ensures Replay(c, events).step == EnteringReason ==> RangeChecked(Replay(c, events).draft)
    decreases |events|
  {
    if events != [] {
      ReplayKeepsInvariant(Handle(c, events[0]), events[1..]);
    }
  }

  /**
   * The draft is cleared only on cancel and on submission, so a daily
   * request entered after an abandoned hourly one still carries the hourly
   * request's times when it reaches the reason step.
   */
  lemma StaleTimesSurvive()
    ensures
      var hourly := Dialogue(EnteringReason, Draft(Some(Hourly), Some(738886), Some(738886), Some(32400), Some(36000), None, None));
      var daily := EnterEndDate(EnterStartDate(ChooseLeaveType(StartNewLeave(Restart(hourly)), true), Some(738887), 738886), Some(738888));
      daily.step == EnteringReason && daily.draft.kind == Some(Daily) && daily.draft.startTime == Some(32400)
  {
  }

  /** The conversation of one chat user. */
  class Conversation {
    var step: Step
    var draft: Draft

    function Value(): Dialogue
      reads this
    {
      Dialogue(step, draft)
    }

    ghost predicate Valid()
      reads this
    {
      StepInvariant(Value())
    }

    /** A fresh conversation: main menu, empty draft. */
    constructor ()
      ensures Value() == Dialogue(MainMenu, EmptyDraft) && Valid()
    {
      step, draft := MainMenu, EmptyDraft;
    }

    /** The new-leave button of the main menu. */
    method Open()
      requires step == MainMenu
      modifies this
      ensures Value() == StartNewLeave(old(Value()))
    {
      step := ChoosingType;
    }

    /** The cancel button. */
    method Abort()
      modifies this
      ensures Value() == CancelLeave(old(Value()))
    {
      draft := EmptyDraft;
      step := Ended;
    }

    /** The leave-type buttons. */
    method SetType(daily: bool)
      requires step == ChoosingType
      modifies this
      ensures Value() == ChooseLeaveType(old(Value()), daily)
    {
      draft := draft.(kind := Some(if daily then Daily else Hourly));
      step := EnteringStartDate;
    }

    /** The start-date message handler. */
    method GiveStartDate(parsed: Option<Date>, today: Date)
      requires step == EnteringStartDate && Valid()
      modifies this
      ensures Value() == EnterStartDate(old(Value()), parsed, today)
    {
      if parsed.None? || parsed.value < today {
        return;
      }
      draft := draft.(startDate := parsed);
      if draft.kind == Some(Hourly) {
        draft := draft.(endDate := parsed);
        step := EnteringStartTime;
      } else {
        step := EnteringEndDate;
      }
    }

    /** The end-date message handler. */
    method GiveEndDate(parsed: Option<Date>)
      requires step == EnteringEndDate && Valid()
      modifies this
      ensures Value() == EnterEndDate(old(Value()), parsed)
    {
      if parsed.None? || parsed.value < draft.startDate.value {
        return;
      }
      draft := draft.(endDate := parsed);
      step := EnteringReason;
    }

    /** The start-time message handler. */
    method GiveStartTime(parsed: Option<TimeOfDay>)
      requires step == EnteringStartTime && Valid()
      modifies this
      ensures Value() == EnterStartTime(old(Value()), parsed)
    {
      if parsed.Some? {
        draft := draft.(startTime := parsed);
        step := EnteringEndTime;
      }
    }

    /** The end-time message handler. */
    method GiveEndTime(parsed: Option<TimeOfDay>)
      requires step == EnteringEndTime && Valid()
      modifies this
      ensures Value() == EnterEndTime(old(Value()), parsed)
    {
      if parsed.None? || parsed.value <= draft.startTime.value {
        return;
      }
      draft := draft.(endTime := parsed);
      step := EnteringReason;
    }
  }
}
