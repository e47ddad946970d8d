/**
 * Calendar arithmetic used for leave quantities: dates as day numbers, the
 * fixed Friday/Saturday weekend, the holiday calendar, and time-of-day
 * differences expressed in hours.
 */
module Calendar {

  /** A calendar date as its proleptic Gregorian ordinal (1 is 0001-01-01, a Monday). */
  type Date = int

  /** A time of day as seconds since midnight. */
  type TimeOfDay = t: int | 0 <= t < 86400

  const Friday := 4
  const Saturday := 5

  /** The weekday number of a date, Monday = 0 ... Sunday = 6. */
  function Weekday(d: Date): (w: int)
    ensures 0 <= w < 7
  {
    (d + 6) % 7
  }

  /** The deployment's weekend: Friday and Saturday. */
  predicate IsWeekend(d: Date) {
    Weekday(d) == Friday || Weekday(d) == Saturday
  }

  /** A date counts as a leave day when it is neither a weekend day nor a holiday. */
  predicate IsWorkingDay(d: Date, holidays: set<Date>) {
    !IsWeekend(d) && d !in holidays
  }

  /** The number of calendar dates in the inclusive range; 0 when the range is empty. */
  function CalendarDays(start: Date, end: Date): nat {
    if end < start then 0 else end - start + 1
  }

  /** The set of leave days in the inclusive range. */
  ghost function WorkingDaySet(start: Date, end: Date, holidays: set<Date>): set<Date> {
    set d | start <= d <= end && IsWorkingDay(d, holidays)
  }

  /**
   * The number of working days in the inclusive range [start, end], counted
   * from the last date backwards; it never exceeds the calendar length.
   */
  function WorkingDays(start: Date, end: Date, holidays: set<Date>): (n: nat)
    ensures n <= CalendarDays(start, end)
    decreases end - start
  {
    if end < start then 0
    else WorkingDays(start, end - 1, holidays) + (if IsWorkingDay(end, holidays) then 1 else 0)
  }

  /** The recursive count is the size of the set of leave days in the range. */
  lemma {:induction false} WorkingDaysIsCardinality(start: Date, end: Date, holidays: set<Date>)
    ensures WorkingDays(start, end, holidays) == |WorkingDaySet(start, end, holidays)|
    decreases end - start
  {
    if end < start {
      assert WorkingDaySet(start, end, holidays) == {};
    } else {
      WorkingDaysIsCardinality(start, end - 1, holidays);
      var before := WorkingDaySet(start, end - 1, holidays);
      if IsWorkingDay(end, holidays) {
        assert WorkingDaySet(start, end, holidays) == before + {end};
        assert end !in before;
      } else {
        assert WorkingDaySet(start, end, holidays) == before;
      }
    }
  }

  /** A date is counted exactly when it lies in the range and is a working day. */
  lemma WorkingDaySetMembers(start: Date, end: Date, holidays: set<Date>, d: Date)
    ensures d in WorkingDaySet(start, end, holidays) <==> start <= d <= end && !IsWeekend(d) && d !in holidays
  {
  }

  /** More holidays never give more leave days. */
  lemma {:induction false} WorkingDaysAntitone(start: Date, end: Date, fewer: set<Date>, more: set<Date>)
    requires fewer <= more
    ensures WorkingDays(start, end, more) <= WorkingDays(start, end, fewer)
    decreases end - start
  {
    if end >= start {
      WorkingDaysAntitone(start, end - 1, fewer, more);
    }
  }

  /** Declaring one more holiday on a weekday inside the range removes exactly one leave day. */
  lemma {:induction false} AddedHolidayRemovesOneDay(start: Date, end: Date, holidays: set<Date>, h: Date)
    requires start <= h <= end && !IsWeekend(h) && h !in holidays
    ensures WorkingDays(start, end, holidays + {h}) == WorkingDays(start, end, holidays) - 1
    decreases end - start
  {
    if h < end {
      AddedHolidayRemovesOneDay(start, end - 1, holidays, h);
    } else {
      HolidaysOutsideRangeIgnored(start, end - 1, holidays, {h});
    }
  }

  /** Holidays outside the range do not change the count. */
  lemma {:induction false} HolidaysOutsideRangeIgnored(start: Date, end: Date, holidays: set<Date>, extra: set<Date>)
    requires forall x :: x in extra ==> x < start || x > end
    ensures WorkingDays(start, end, holidays + extra) == WorkingDays(start, end, holidays)
    decreases end - start
  {
    if end >= start {
      HolidaysOutsideRangeIgnored(start, end - 1, holidays, extra);
    }
  }

  /** Holidays that fall on a weekend do not change the count. */
  lemma {:induction false} WeekendHolidaysIgnored(start: Date, end: Date, holidays: set<Date>, extra: set<Date>)
    requires forall x :: x in extra ==> IsWeekend(x)
    ensures WorkingDays(start, end, holidays + extra) == WorkingDays(start, end, holidays)
    decreases end - start
  {
    if end >= start {
      WeekendHolidaysIgnored(start, end - 1, holidays, extra);
    }
  }

  /** The count over a range splits at any interior point. */
  lemma {:induction false} WorkingDaysSplit(start: Date, mid: Date, end: Date, holidays: set<Date>)
    requires start - 1 <= mid <= end
    ensures WorkingDays(start, end, holidays) == WorkingDays(start, mid, holidays) + WorkingDays(mid + 1, end, holidays)
    decreases end - mid
  {
    if mid < end {
      WorkingDaysSplit(start, mid, end - 1, holidays);
    }
  }

  /** Seven consecutive dates cover every weekday number exactly once. */
  lemma WeekdaysOfAWeek(start: Date, k: int)
    requires 0 <= k < 7
    ensures Weekday(start + k) == (Weekday(start) + k) % 7
  {
  }

  /** Any seven consecutive dates hold exactly five weekdays. */
  lemma WeekHasFiveWeekdays(start: Date)
    ensures WorkingDays(start, start + 6, {}) == 5
  {
    var w := Weekday(start);
    WeekdaysOfAWeek(start, 1); WeekdaysOfAWeek(start, 2); WeekdaysOfAWeek(start, 3);
    WeekdaysOfAWeek(start, 4); WeekdaysOfAWeek(start, 5); WeekdaysOfAWeek(start, 6);
    var c0 := if IsWorkingDay(start, {}) then 1 else 0;
    var c1 := if IsWorkingDay(start + 1, {}) then 1 else 0;
    var c2 := if IsWorkingDay(start + 2, {}) then 1 else 0;
    var c3 := if IsWorkingDay(start + 3, {}) then 1 else 0;
    var c4 := if IsWorkingDay(start + 4, {}) then 1 else 0;
    var c5 := if IsWorkingDay(start + 5, {}) then 1 else 0;
    var c6 := if IsWorkingDay(start + 6, {}) then 1 else 0;
    assert c0 + c1 + c2 + c3 + c4 + c5 + c6 == 5;
    assert WorkingDays(start, start, {}) == c0;
    assert WorkingDays(start, start + 1, {}) == c0 + c1;
    assert WorkingDays(start, start + 2, {}) == c0 + c1 + c2;
    assert WorkingDays(start, start + 3, {}) == c0 + c1 + c2 + c3;
    assert WorkingDays(start, start + 4, {}) == c0 + c1 + c2 + c3 + c4;
    assert WorkingDays(start, start + 5, {}) == c0 + c1 + c2 + c3 + c4 + c5;
  }

  /** 2024-01-01 (a Monday) to 2024-01-07 (a Sunday), no holidays: five leave days. */
  lemma FirstWeekOf2024()
    ensures Weekday(738886) == 0
    ensures WorkingDays(738886, 738892, {}) == 5
  {
    WeekHasFiveWeekdays(738886);
  }

  /**
   * The signed length of the interval between two times of the same day, in
   * hours: the difference in seconds divided by 3600.
   */
  function HoursBetween(start: TimeOfDay, end: TimeOfDay): (h: real)
    ensures h * 3600.0 == (end - start) as real
    ensures -24.0 < h < 24.0
  {
    (end - start) as real / 3600.0
  }

  /** The hour count is positive exactly when the end lies after the start. */
  lemma HoursPositiveIffLater(start: TimeOfDay, end: TimeOfDay)
    ensures HoursBetween(start, end) > 0.0 <==> end > start
    ensures HoursBetween(start, end) == 0.0 <==> end == start
  {
  }

  /** Hour counts add up over consecutive intervals. */
  lemma HoursAdditive(a: TimeOfDay, b: TimeOfDay, c: TimeOfDay)
    ensures HoursBetween(a, b) + HoursBetween(b, c) == HoursBetween(a, c)
  {
  }

  /** 09:00 to 13:30 is four and a half hours. */
  lemma HoursExample()
    ensures HoursBetween(9 * 3600, 13 * 3600 + 30 * 60) == 4.5
  {
  }
}
