# Leave-request engine of leave-bot, modelled in Dafny

leave-bot manages employee leave in two front-ends over one database:

- a Flask web console for the administrator (`app.py`);
- a Telegram bot for employees and managers (`bot.py`).

A scheduled job (`scheduler.py`) renews balances every month. `database.py` defines the records.

## What is modelled

**The store.** `Database.Store` holds the three tables (employees, leave requests, holidays) keyed by primary key, plus the next free keys. `Database.LeaveDb` is the database session: a class whose map fields the operations update in place.

**Record shapes and constraints.** Records keep their column defaults. `StoreValid` is the schema's constraints: unique messaging ids, unique holiday dates, and a non-null owner on every request.

**Calendar.** A date is its day number; the weekend is Friday and Saturday. `Calendar.WorkingDays` is the leave-day count. The loops of both front-ends (`App.CalculateLeaveDays`, `Bot.CountWeekdays`) are proved equal to it.

**Operations.** Each operation of the two front-ends and of the renewal job appears twice:

- as a specification function `AfterX(store, …)` that returns the new store and an `Outcome`, with contracts for every error path;
- as a method on `LeaveDb` whose `ensures` ties the new session state to that function.

**The chat dialogue.** The dialogue that gathers a request is the class `BotDialogue.Conversation`. Its fields are the step and the draft, which the bot keeps as per-user scratch data. Each handler is a step function. A lemma shows that the range checks cannot be bypassed.

**Lifecycle.** `Lifecycle.Apply` runs every store-changing action. The lemmas over sequences of actions cover:

- the constraints, and no overdraft unless the override is used;
- decisions are final;
- hourly requests stay on one date;
- the review list's replacement gate;
- exactly where the three approve copies (web, chat menu, chat global handler) agree and where they differ.

**Inputs instead of effects.** Several things the source takes from outside become parameters:

- "Today" and the day of the month.
- Parsed dates and times: a `None` stands for text that did not parse.
- The success of the renewal commit.

**Error paths.** A Python exception raised before a commit leaves the store unchanged; the model reports it as `Fault`, or as `None` where the source returns nothing.

## Model

| member | source | states |
|---|---|---|
| Calendar.Weekday | app.py:98 | the weekday number lies in 0..6 (Monday = 0, Friday = 4, Saturday = 5) |
| Calendar.WorkingDays | app.py:92-101 | the leave-day count of an inclusive range never exceeds its number of calendar days, and is 0 for an empty range |
| Calendar.WorkingDaysIsCardinality | app.py:92-101 | the count equals the size of the set of dates in the range that are neither Friday, Saturday nor a holiday |
| Calendar.WorkingDaySetMembers | app.py:98 | a date is counted exactly when it lies in the range, is not a weekend day and is not a holiday |
| Calendar.WorkingDaysAntitone | app.py:93-99 | more holidays never give more leave days |
| Calendar.AddedHolidayRemovesOneDay | app.py:98 | a new holiday on a weekday inside the range removes exactly one leave day |
| Calendar.HolidaysOutsideRangeIgnored | app.py:97-100 | holidays outside the range do not change the count |
| Calendar.WeekendHolidaysIgnored | app.py:98 | holidays that fall on a Friday or Saturday do not change the count |
| Calendar.WorkingDaysSplit | app.py:97-100 | the count over a range is the sum of the counts of its two parts |
| Calendar.WeekdaysOfAWeek | app.py:98 | seven consecutive dates advance the weekday number by one each |
| Calendar.WeekHasFiveWeekdays | app.py:97-100 | any seven consecutive dates, no holidays, hold five leave days |
| Calendar.FirstWeekOf2024 | app.py:97-100 | 2024-01-01 is a Monday and its week has five leave days |
| Calendar.HoursBetween | app.py:103-108 | the hour count times 3600 is the difference in seconds, and lies strictly between -24 and 24 |
| Calendar.HoursPositiveIffLater | app.py:106-108 | the hour count is positive exactly when the end is later, and zero exactly when the times are equal |
| Calendar.HoursAdditive | app.py:106-108 | hour counts add up over consecutive intervals |
| Calendar.HoursExample | app.py:106-108 | 09:00 to 13:30 is 4.5 hours |
| Database.NewEmployee | database.py:7-19 | a new employee is pending, not a manager, with zero balances and quotas of 2 days and 4 hours |
| Database.NewLeaveRequest | database.py:23-36 | a new request is pending, its replacement status is pending, it has no approver, and every given column is kept; the chat and direct entry build their rows from it and then set both statuses |
| Database.HolidayCalendarSize | database.py:48-53 | with unique holiday dates, the calendar holds exactly one date per holiday row |
| Database.LookupByTelegram | database.py:10 | the lookup returns an employee with that messaging id, or None only when no employee has it |
| Database.LookupFindsUnique | database.py:10 | under the unique constraint the lookup finds the one matching employee |
| Database.FindByTelegramId | bot.py:475 | the executable lookup returns what the specification lookup returns |
| Database.AfterLastAt | database.py:66 | the result is a suffix of the input without '@', and is either the whole input or starts right after an '@' |
| Database.MaskUrl | database.py:63-68 | a missing or empty URL gives "None"; otherwise the result is the part after the last '@' |
| Database.MaskUrlWithoutAt | database.py:66 | a URL without '@' is kept whole |
| Database.MaskUrlExample | database.py:66 | "u:p@db" is masked to "db" |
| Database.LeaveDb.constructor | database.py:7-53 | an empty database satisfies the schema's constraints |
| LeaveRules.Deduct | app.py:131-144 | the chosen balance drops by exactly the quantity; the other balance and every other column are unchanged |
| LeaveRules.AfterReject | app.py:158-164 | only an existing pending request is rejected; otherwise nothing changes; no balance and no other request changes |
| App.CalculateLeaveDays | app.py:92-101 | the loop's count equals the holiday-aware working-day count |
| App.LeaveHours | app.py:103-108 | 0 when either time is missing; otherwise the hour count times 3600 is the difference in seconds |
| App.AfterWebApprove | app.py:122-147 | a missing or non-pending request changes nothing; with the owner missing, or the balance below the quantity, nothing changes; on success exactly one balance drops by exactly the working days or hours, and the request becomes approved by "Admin (Web)"; the constraints are kept |
| App.ApproveRequest | app.py:122-147 | the session after the web approve action is the one the specification gives |
| App.RejectRequest | app.py:158-164 | the session after the web reject action is the one the rejection rule gives |
| App.AfterDeleteRequest | app.py:169-179 | an existing request is removed whatever its status; one whose owner row is missing raises on reading the owner's chat id and nothing is deleted; employees and their balances are unchanged |
| App.DeleteRequest | app.py:169-179 | the session after the web delete action is the one the specification gives |
| App.AfterEdit | app.py:198-218 | an edit to a daily request clears both times; any other kind ends on its start date with both times set; status, replacement fields, owner and balances are untouched |
| App.EditRequest | app.py:205-218 | the session after the edit form is submitted is the one the specification gives |
| App.AfterApproveUserWeb | app.py:246-255 | only a pending employee is approved; both balances are set to that employee's quotas and nothing else changes |
| App.ApproveUserWeb | app.py:246-255 | the session after the web approve-employee action is the one the specification gives |
| App.AfterAdminAddLeave | app.py:418-474 | a missing employee changes nothing; without the override an insufficient balance creates nothing; otherwise exactly one balance drops by the quantity, even with the override, and a new approved request needing no replacement is added under the next id |
| App.AdminAddLeave | app.py:418-474 | the session after direct entry is the one the specification gives |
| BotDialogue.StartNewLeave | bot.py:178-193 | the dialogue moves from the main menu to the type choice and keeps its draft |
| BotDialogue.CancelLeave | bot.py:195-203 | cancelling ends the dialogue with an empty draft |
| BotDialogue.Restart | bot.py:104-123 | the start command returns to the main menu without clearing the draft |
| BotDialogue.ChooseLeaveType | bot.py:205-217 | the chosen type is recorded and the dialogue asks for the start date |
| BotDialogue.EnterStartDate | bot.py:219-247 | an unparsed date or one before today leaves the dialogue unchanged; an hourly request also takes the date as its end date and asks for the start time; a daily request asks for the end date |
| BotDialogue.EnterEndDate | bot.py:249-269 | an unparsed end date or one before the start date is refused; otherwise it is kept and the reason is asked for |
| BotDialogue.EnterStartTime | bot.py:271-280 | any parsed start time is kept and the end time is asked for |
| BotDialogue.EnterEndTime | bot.py:282-294 | an unparsed end time or one not after the start time is refused; otherwise it is kept and the reason is asked for |
| BotDialogue.Handle | bot.py:723-753 | dispatching any action by step keeps the dialogue's step invariant |
| BotDialogue.ReplayKeepsInvariant | bot.py:219-294 | whatever the user does, a dialogue at the reason step holds a daily or hourly draft whose dates are ordered and, for an hourly request, whose end date equals the start date and whose end time is after the start time |
| BotDialogue.StaleTimesSurvive | bot.py:104-123 | a daily request entered after an abandoned hourly one still carries the old times at the reason step |
| BotDialogue.Conversation.constructor | bot.py:723-753 | a new conversation is at the main menu with an empty draft |
| BotDialogue.Conversation.Open | bot.py:178-193 | the new-leave button updates the conversation as the step function says |
| BotDialogue.Conversation.Abort | bot.py:195-203 | the cancel button updates the conversation as the step function says |
| BotDialogue.Conversation.SetType | bot.py:205-217 | the type buttons update the conversation as the step function says |
| BotDialogue.Conversation.GiveStartDate | bot.py:219-247 | the start-date handler updates the conversation as the step function says |
| BotDialogue.Conversation.GiveEndDate | bot.py:249-269 | the end-date handler updates the conversation as the step function says |
| BotDialogue.Conversation.GiveStartTime | bot.py:271-280 | the start-time handler updates the conversation as the step function says |
| BotDialogue.Conversation.GiveEndTime | bot.py:282-294 | the end-time handler updates the conversation as the step function says |
| Bot.CheckManager | bot.py:35-37 | the check is true exactly when some approved employee with that messaging id is a manager |
| Bot.CheckApproved | bot.py:475-480 | the check is true exactly when some employee with that messaging id is approved |
| Bot.HasConflict | bot.py:39-54 | false for an unknown employee or one without a department; otherwise true exactly when an approved request of another employee of the same department overlaps the range |
| Bot.HasConflictAsWritten | bot.py:39-54 | as written, the check answers false for an unknown employee or one without a department, and otherwise raises, because the join names neither of the two foreign keys to employees |
| Bot.ConflictWarning | bot.py:309-314 | the reason step warns exactly when the check answers true; a raise is swallowed and warns of nothing |
| Bot.ConflictWarningIsLost | bot.py:45-52 | an approved overlapping leave of a colleague in the same department is a conflict for the intended check, yet the written check never warns |
| Bot.TouchingDayConflicts | bot.py:45-52 | a colleague's approved leave ending on the first day of the range is a conflict |
| Bot.OwnLeavesNeverConflict | bot.py:47 | the employee's own approved leaves never count as conflicts |
| Bot.ReviewSetMembers | bot.py:523-531 | the review list is exactly the pending requests whose replacement accepted or was not required |
| Bot.ReviewSetExcludesUnconfirmed | bot.py:523-531 | a request awaiting its replacement, or refused by it, is not on the review list |
| Bot.AfterRegister | bot.py:132-174 | a messaging id already on file adds nothing; otherwise one employee is added under the next id, an approved manager exactly when the table was empty, with zero balances and default quotas; the constraints are kept |
| Bot.Register | bot.py:132-174 | the session after registration is the one the specification gives |
| Bot.AfterCreateRecord | bot.py:405-420 | a draft missing its type, a date or its reason writes nothing; otherwise one request with the draft's columns and the given statuses is added under the next id |
| Bot.CreateRecord | bot.py:405-420 | the session after record creation is the one the specification gives |
| Bot.AfterSubmit | bot.py:422-441 | without the chat user's own row nothing is written; otherwise the draft is written as pending, needing no replacement |
| Bot.SubmitLeaveRequest | bot.py:422-441 | session and conversation after submission are those the specification gives; a written request ends the dialogue and clears the draft |
| Bot.Candidates | bot.py:300-302 | the replacement candidates are empty exactly when no other approved employee exists |
| Bot.AfterEnterReason | bot.py:296-319 | with no candidate the request is submitted at once, needing no replacement; otherwise nothing is written, the dialogue asks for a replacement, and the warning is the conflict check's answer |
| Bot.EnterReason | bot.py:296-319 | the session and conversation after the reason step are those the specification gives |
| Bot.AfterNamedReplacement | bot.py:334-361 | without the chat user's own row nothing is written; otherwise the request is written pending, awaiting its replacement, and the dialogue ends |
| Bot.AfterChooseReplacementAsWritten | bot.py:321-332 | as the handler is written, choosing "no replacement" writes nothing; any other choice writes a request awaiting its replacement |
| Bot.AfterChooseReplacement | bot.py:321-361 | as intended, "no replacement" writes a request needing none, and any other choice writes one awaiting the chosen replacement |
| Bot.NoReplacementChoiceIsLost | bot.py:329-332 | the handler as written and as intended differ only on the "no replacement" choice, where the written handler loses the request |
| Bot.ChooseReplacement | bot.py:321-361 | the session and conversation after the replacement choice are those the corrected specification gives |
| Bot.AfterReplacementResponse | bot.py:363-403 | accepting marks the replacement accepted; refusing marks the replacement and the request rejected; the prior statuses are not checked and no balance changes |
| Bot.ReplacementResponse | bot.py:363-403 | the session after the replacement's answer is the one the specification gives |
| Bot.CountWeekdays | bot.py:562-570 | the chat's loop count equals the working-day count with no holidays |
| Bot.AfterBotApprove | bot.py:551-590 | a missing or non-pending request changes nothing; a missing owner or a missing hourly time raises and changes nothing; an insufficient balance changes nothing; on success exactly one balance drops by the holiday-blind day count or the hours, and the request becomes approved with no approver recorded |
| Bot.ApproveLeave | bot.py:660-691 | the session after the chat approve branch is the one the specification gives |
| Bot.AfterButtonApprove | bot.py:469-480 | the menu handler refuses exactly a presser who is not an approved employee, and otherwise approves as the chat approve branch does |
| Bot.ButtonApprove | bot.py:551-590 | the session after the menu handler's approve button is the one the specification gives |
| Bot.AfterGlobalApprove | bot.py:634-636 | the global handler refuses exactly a presser who is not a manager, and otherwise approves as the chat approve branch does |
| Bot.GlobalApprove | bot.py:660-691 | the session after the global handler's approve button is the one the specification gives |
| Bot.RejectLeave | bot.py:693-702 | the session after the chat reject branch is the one the rejection rule gives |
| Bot.AfterButtonReject | bot.py:592-599 | the menu handler refuses exactly a presser who is not an approved employee, and otherwise rejects as the rejection rule does |
| Bot.ButtonReject | bot.py:592-599 | the session after the menu handler's reject button is the one the specification gives |
| Bot.AfterGlobalReject | bot.py:693-702 | the global handler refuses exactly a presser who is not a manager, and otherwise rejects as the rejection rule does |
| Bot.GlobalReject | bot.py:693-702 | the session after the global handler's reject button is the one the specification gives |
| Bot.AfterApproveUserBot | bot.py:638-647 | only a manager may act; only a pending employee is approved, and only the status changes |
| Bot.ApproveUserBot | bot.py:638-647 | the session after the chat approve-employee button is the one the specification gives |
| Scheduler.ApprovedIds | scheduler.py:31 | the renewal query selects exactly the approved employees |
| Scheduler.GrantMonthlyQuota | scheduler.py:36-37 | each balance grows by its own monthly quota and nothing else changes |
| Scheduler.RenewAll | scheduler.py:31-37 | approved employees are renewed, every other employee is unchanged, and no employee is added or removed |
| Scheduler.GrantAll | scheduler.py:31-43 | the loop yields the renewed table, and its count is the number of approved employees |
| Scheduler.AfterRenewal | scheduler.py:18-50 | nothing changes unless it is the first of the month and the commit succeeds; then the whole table is renewed at once and the count is reported |
| Scheduler.RenewMonthlyLeaveBalance | scheduler.py:18-50 | the session after the renewal job is the one the specification gives |
| Scheduler.RenewTwiceAddsTwice | scheduler.py:24-37 | two runs add each quota twice: there is no guard against a second run |
| Scheduler.RenewalKeepsBalancesNonNegative | scheduler.py:36-37 | with non-negative quotas, renewal keeps every balance non-negative |
| Scheduler.RenewalExample | scheduler.py:36-37 | 0.5 days and 1 hour with the default quotas become 2.5 days and 5 hours |
| Lifecycle.ApplyKeepsValid | database.py:10-53 | every operation keeps the schema's constraints |
| Lifecycle.RunKeepsValid | database.py:10-53 | every sequence of operations keeps the schema's constraints |
| Lifecycle.DecidedStaysDecided | app.py:125-127 | an approved or rejected request never becomes pending again |
| Lifecycle.AfterChatStep | bot.py:296-361 | behind the chat's gates (an approved employee, a dialogue that keeps its step invariant, an offered replacement or none), the reason step and the replacement choice write at most one new request under the next id: pending, unapproved, with ordered dates and, when hourly, one date and ordered times; no employee, holiday or other request changes |
| Lifecycle.OtherOperationsKeepBalances | app.py:158-218 | reject, delete, edit, registration, the chat's reason and replacement steps and the replacement's answer never move a balance |
| Lifecycle.ApprovalOnlyActsOnPending | app.py:125-127 | on every approve copy, a missing or non-pending request changes nothing |
| Lifecycle.SecondApproveChangesNothing | app.py:125-127 | approving the same request twice, through any copies, deducts once |
| Lifecycle.ApplyKeepsNoOverdraft | app.py:131-144 | every operation except the override keeps every balance non-negative |
| Lifecycle.RunKeepsNoOverdraft | app.py:131-144 | no sequence of operations without the override drives a balance below zero |
| Lifecycle.OverrideCanOverdraw | app.py:441-447 | with the override, a one-day entry on an empty balance leaves -1 day |
| Lifecycle.ReviewGate | bot.py:523-531 | a request not on the review list goes on it only through its replacement's acceptance |
| Lifecycle.ApproveIgnoresReplacementStatus | bot.py:551-590 | no approve copy reads the replacement status |
| Lifecycle.AcceptanceRevealsRequest | bot.py:376-378 | the replacement's acceptance puts a pending request on the review list |
| Lifecycle.RefusedNeverReviewed | bot.py:388-391 | a request the replacement refused never reaches the review list again |
| Lifecycle.RejectedStaysRejected | app.py:125-127 | a rejected request is never given another status by any operation |
| Lifecycle.ApplyKeepsGoneGone | database.py:25 | one operation neither brings back a removed request id nor lowers the request counter |
| Lifecycle.NeverReturns | database.py:25 | a deleted request id is never reused |
| Lifecycle.RefusalRevokesApproval | bot.py:388-391 | a refusal rejects even an approved request and gives no balance back |
| Lifecycle.DeleteNeverRefunds | app.py:169-179 | deleting a request gives back nothing it deducted, and a request whose owner exists is gone afterwards |
| Lifecycle.ApplyKeepsHourlySingleDay | bot.py:219-247 | every operation keeps each hourly request on a single date: the dialogue asks an hourly leave for one date, and direct entry and the edit form end any non-daily request on its start date |
| Lifecycle.RunKeepsHourlySingleDay | bot.py:219-247 | hourly requests stay single-day under any sequence of operations |
| Lifecycle.WebAndBotApproveAgree | bot.py:660-691 | web and chat approvals agree, apart from the approver label, when no holiday falls in a daily request's range and an hourly request has both times |
| Lifecycle.WebCountsNoMoreDays | bot.py:562-570 | the web console never deducts more days than the chat |
| Lifecycle.HolidaySplitsTheCopies | bot.py:562-570 | a one-day leave on a holiday costs nothing on the web and one day in the chat |
| Lifecycle.MissingTimesSplitTheCopies | bot.py:576-578 | an hourly request without times is approved for 0 hours on the web and raises in the chat |
| Lifecycle.MenuApproveSkipsManagerCheck | bot.py:475-480 | a non-manager approves through the menu handler and is refused by the global handler |
| Lifecycle.OnlyTheWebSeedsBalances | bot.py:638-647 | the web approval of an employee seeds both balances from the quotas; the chat's changes only the status |
| Lifecycle.ReversedTimesRaiseBalance | app.py:213-215 | an edit with the end time before the start time makes a later approval raise the hourly balance |
| Lifecycle.MondayTuesdayScenario | bot.py:296-378 | from an empty database: the first registrant is the manager, the second is seeded on approval; the second's reason step, with the manager to offer, writes nothing and asks for a replacement; naming the manager writes a request kept off the review list until the manager accepts; the approval then uses up both days |

## Where the code and the design differ

Where the repository's design description and its code differ, the model follows the code:

- **The replacement's answer is unguarded.** No prior status is checked. A refusal also rejects a request that was already approved, and gives no balance back (`Lifecycle.RefusalRevokesApproval`).
- **Approval ignores the replacement.** No approve copy checks the replacement status; only the review list filters on it (`Lifecycle.ApproveIgnoresReplacementStatus`).
- **Employee approval differs by front-end.** The chat's approval of an employee changes only the status and seeds no balance (`Lifecycle.OnlyTheWebSeedsBalances`).
- **The chat's approve differs from the web's.**
  - It records no approver.
  - Its day count ignores holidays.
  - It raises on an hourly request without times (`Lifecycle.MissingTimesSplitTheCopies`).
- **The menu skips the manager check.** The menu handler lets any approved employee approve or reject; only the global handler checks for a manager (`Lifecycle.MenuApproveSkipsManagerCheck`).
- **Drafts leak between requests.** The draft is cleared only on cancel and on submission, so stale times can reach a daily request (`BotDialogue.StaleTimesSurvive`).
- **Balances can rise or go negative.**
  - Direct entry with the override can overdraw (`Lifecycle.OverrideCanOverdraw`).
  - An edit can store an end time before the start time; a later approval then raises the hourly balance (`Lifecycle.ReversedTimesRaiseBalance`).
- **Edits are unguarded.** Editing does not check the status, so an approved request can be edited after its deduction.
- **Owners cannot be deleted.** Every request's owner exists (`Database.OwnersExist`). The owner key is a non-null foreign key, so deleting an employee who owns requests is refused.

## Findings

| source | as written | input that shows it | evidently intended | confidence | as-written member | corrected member |
|---|---|---|---|---|---|---|
| bot.py:329-332 | choosing "no replacement" passes the button press, not the chat update, to `submit_leave_request`, which reads `effective_user` at bot.py:424; a callback query has no such field, so the handler raises and no request is written | a complete draft, at least one other approved employee, and the "no replacement" button (`rep_0`) | the request is submitted as pending with replacement status not required | not executed | Bot.AfterChooseReplacementAsWritten | Bot.AfterChooseReplacement |

| bot.py:45 | the conflict query joins employees without an on-clause while a leave request has two foreign keys to employees (database.py:26 and 34); the mapper cannot choose between them and raises, and the `try` at bot.py:309-314 logs the error, so the warning is never shown | an employee with a department, another approved employee to offer as replacement, and an approved overlapping leave of a colleague in the same department | the join goes through the request's owner and the warning is shown | not executed | Bot.HasConflictAsWritten | Bot.HasConflict |

`Bot.NoReplacementChoiceIsLost` proves that the first pair differ exactly on the "no replacement" choice. `Bot.ChooseReplacement` is proved against the corrected version. `Bot.ConflictWarningIsLost` exhibits the second: a real conflict that the written check never reports. `Bot.AfterEnterReason` uses the corrected check.

## Left out

- **Notifications.** All messages, keyboards and notifications (`send_message`, `notify_managers`, `send_notification`) are transport, so they are not modelled. The model treats every notification after a commit as succeeding. As a result, the dialogue state is cleared after submission even where a notification would raise.
- **Handler dispatch.** The conversation handler's registration and fallbacks (bot.py:714-765) are framework dispatch. The model does not cover:
  - which handler receives a callback in which state (for example, the menu state's handler also receives employee-approval and replacement callbacks);
  - the `0` returned by the replacement handler;
  - the registration dialogue's own states. `BotDialogue.Restart` always returns to the main menu.
- **The `/cancel` command.** It only ends the conversation and does not clear the draft; only the cancel button (`BotDialogue.CancelLeave`) is modelled.
- **Web plumbing.** Flask routing, rendering, flash messages and basic authentication are request plumbing. So are CSV export, reports and bulk delete.
- **Concurrency and timing.** The bot and scheduler threads, the polling loop and the schedule registration are left out. So is the manual renewal in `scheduler.py`'s main block, which repeats the loop without the day check.
- **Parsing.** Dates and times are parsed by `dateparser` and `strptime`; parsed values are inputs and a failed parse is `None`.
- **Inputs instead of reads.** `date.today()` and `datetime.now().day` are parameters.
- **Floating point.** Balances are exact reals rather than floats.
- **Resolution of times.** Times of day are whole seconds; microseconds are not modelled, and neither is date overflow at the end of the calendar.
- **Operations not modelled.** These are plain record updates or deletions outside the leave rules:
  - rejecting an employee (web and chat);
  - editing or adding an employee on the web;
  - adding and deleting holidays;
  - the balance and my-requests views.
- **Engine setup.** Database engine setup, migrations and helper scripts are left out.
- **The approved-employee gate of the dialogue.** `BotDialogue.Handle` has no store, so it cannot check that the presser of the new-leave button is an approved employee (bot.py:476-479). The check is applied where the dialogue writes to the store: `Lifecycle.Apply` runs the reason and replacement steps only behind `Lifecycle.ChatGate`. Being approved at those steps stands in for being approved when the dialogue was opened. No operation of the model withdraws an approval, so every run the code allows is a run of the model.
- **Who answers for the replacement.** The replacement handler does not check who pressed the button, and the model has no presser for it either.
