/** The next-run-time calculator of apps/utils/reminder_calculator.py.
    "Now" is an explicit parameter (the source reads the UTC clock), and
    every timestamp is a UTC instant. */
module ReminderCalculator {
  import opened Wrappers
  import opened Calendar

  datatype Frequency = Once | Daily | Weekly | Monthly

  datatype WeekdayName = Monday | Tuesday | Wednesday | Thursday | Friday | Saturday | Sunday

  /** The `weekday_map` table: Monday is 0, as in `date.weekday()`. */
  function WeekdayIndex(w: WeekdayName): (i: int)
    ensures 0 <= i < 7
  {
    match w
    case Monday => 0
    case Tuesday => 1
    case Wednesday => 2
    case Thursday => 3
    case Friday => 4
    case Saturday => 5
    case Sunday => 6
  }

  function CalculateOnce(specificDate: Option<Date>, t: TimeOfDay, now: DateTime): (r: Option<DateTime>)
    requires ValidDateTime(now) && ValidTime(t)
    requires specificDate.Some? ==> ValidDate(specificDate.value)
    ensures r.Some? ==> ValidDateTime(r.value)
  {
    if specificDate.None? then None
    else
      var next := Combine(specificDate.value, t);
      if After(next, now) then Some(next) else None
  }

  function CalculateDaily(t: TimeOfDay, now: DateTime): (r: DateTime)
    requires ValidDateTime(now) && ValidTime(t)
    ensures ValidDateTime(r)
  {
    var todayRun := Combine(now.date, t);
    if After(todayRun, now) then todayRun else Combine(NextDay(now.date), t)
  }

  /** The number of days from `now`'s weekday forward to `target`, in 0..6
      (Python's `%` on a positive modulus is never negative, like Dafny's). */
  function DaysUntil(target: WeekdayName, now: DateTime): (k: nat)
    requires ValidDate(now.date)
    ensures k < 7
  {
    (WeekdayIndex(target) - Weekday(now.date)) % 7
  }

  function CalculateWeekly(weekday: Option<WeekdayName>, t: TimeOfDay, now: DateTime): (r: Option<DateTime>)
    requires ValidDateTime(now) && ValidTime(t)
    ensures r.Some? ==> ValidDateTime(r.value)
  {
    if weekday.None? then None
    else
      var nextDate := AddDays(now.date, DaysUntil(weekday.value, now));
      var nextDt := Combine(nextDate, t);
      if !After(nextDt, now) then Some(Combine(AddDays(nextDate, 7), t)) else Some(nextDt)
  }

  function CalculateMonthly(dayOfMonth: Option<int>, t: TimeOfDay, now: DateTime): (r: Option<DateTime>)
    requires ValidDateTime(now) && ValidTime(t)
    ensures r.Some? ==> ValidDateTime(r.value)
  {
    if dayOfMonth.None? || dayOfMonth.value == 0 then None
    else
      var thisMonth := ReplaceDay(now.date, dayOfMonth.value);
      if thisMonth.Some? && After(Combine(thisMonth.value, t), now) then
        Some(Combine(thisMonth.value, t))
      else
        match ReplaceDay(FirstOfNextMonth(now.date), dayOfMonth.value)
        case Some(d) => Some(Combine(d, t))
        case None => None
  }

  /** `calculate_next_run_at`: dispatch on the frequency. */
  function CalculateNextRunAt(frequency: Frequency, t: TimeOfDay, weekday: Option<WeekdayName>,
                              dayOfMonth: Option<int>, specificDate: Option<Date>,
                              now: DateTime): (r: Option<DateTime>)
    requires ValidDateTime(now) && ValidTime(t)
    requires specificDate.Some? ==> ValidDate(specificDate.value)
    ensures r.Some? ==> ValidDateTime(r.value)
  {
    match frequency
    case Once => CalculateOnce(specificDate, t, now)
    case Daily => Some(CalculateDaily(t, now))
    case Weekly => CalculateWeekly(weekday, t, now)
    case Monthly => CalculateMonthly(dayOfMonth, t, now)
  }

  // ---------------------------------------------------------------------
  // Properties

  /** Any date strictly later than now's date gives a strictly later instant,
      whatever the two times of day. */
  lemma LaterDateIsAfter(d: Date, t: TimeOfDay, now: DateTime)
    requires ValidDateTime(now) && ValidTime(t) && ValidDate(d)
    requires Ordinal(d) > Ordinal(now.date)
    ensures After(Combine(d, t), now)
  {
  }

  /** once: the specific date at the reminder time, only when strictly in the
      future; a past one-shot reminder is never bumped forward. */
  lemma OnceIsExactOrNothing(specificDate: Option<Date>, t: TimeOfDay, now: DateTime)
    requires ValidDateTime(now) && ValidTime(t)
    requires specificDate.Some? ==> ValidDate(specificDate.value)
    ensures var r := CalculateOnce(specificDate, t, now);
      && (specificDate.None? ==> r.None?)
      && (specificDate.Some? ==>
            (r.Some? <==> After(Combine(specificDate.value, t), now))
            && (r.Some? ==> r.value.date == specificDate.value && r.value.time == t))
  {
  }

  /** daily: today at the reminder time if that is still ahead, else
      tomorrow; the result is strictly after now and at most one day later. */
  lemma DailyIsNextOccurrence(t: TimeOfDay, now: DateTime)
    requires ValidDateTime(now) && ValidTime(t)
    ensures var r := CalculateDaily(t, now);
      && r.time == t
      && After(r, now)
      && Instant(r) - Instant(now) <= MicrosPerDay
      && (r.date == now.date <==> After(Combine(now.date, t), now))
      && (r.date != now.date ==> r.date == NextDay(now.date))
  {
    NextDayOrdinal(now.date);
    var r := CalculateDaily(t, now);
    if r.date != now.date {
      assert Ordinal(r.date) == Ordinal(now.date) + 1;
    }
  }

  /** weekly: the result falls on the requested weekday, strictly after now
      and at most seven days later. */
  lemma WeeklyOnRequestedDay(w: WeekdayName, t: TimeOfDay, now: DateTime)
    requires ValidDateTime(now) && ValidTime(t)
    ensures var r := CalculateWeekly(Some(w), t, now);
      && r.Some? && r.value.time == t
      && Weekday(r.value.date) == WeekdayIndex(w)
      && After(r.value, now)
      && Instant(r.value) - Instant(now) <= 7 * MicrosPerDay
  {
    var k := DaysUntil(w, now);
    var nextDate := AddDays(now.date, k);
    WeeklyCandidate(w, now);
    var r := CalculateWeekly(Some(w), t, now);
    if !After(Combine(nextDate, t), now) {
      assert k == 0 by {
        if k > 0 { LaterDateIsAfter(nextDate, t, now); }
      }
      var later := AddDays(nextDate, 7);
      AddDaysOrdinal(nextDate, 7);
      AddDaysWeekday(nextDate, 7);
      assert Weekday(later) == WeekdayIndex(w) by {
        AddSevenKeepsResidue(Weekday(nextDate));
      }
      assert r.value.date == later;
      assert Ordinal(later) == Ordinal(now.date) + 7;
      LaterDateIsAfter(later, t, now);
    } else {
      assert r.value.date == nextDate;
    }
  }

  /** The first candidate date: `k` days ahead, on the requested weekday. */
  lemma WeeklyCandidate(w: WeekdayName, now: DateTime)
    requires ValidDate(now.date)
    ensures var k := DaysUntil(w, now);
      && Ordinal(AddDays(now.date, k)) == Ordinal(now.date) + k
      && Weekday(AddDays(now.date, k)) == WeekdayIndex(w)
      && (k == 0 <==> Weekday(now.date) == WeekdayIndex(w))
  {
    var k := DaysUntil(w, now);
    AddDaysOrdinal(now.date, k);
    AddDaysWeekday(now.date, k);
    WeekdayArithmetic(Weekday(now.date), WeekdayIndex(w), k);
  }

  lemma AddSevenKeepsResidue(a: int)
    requires 0 <= a < 7
    ensures (a + 7) % 7 == a
  {
  }

  lemma WeekdayArithmetic(cur: int, target: int, k: int)
    requires 0 <= cur < 7 && 0 <= target < 7 && k == (target - cur) % 7
    ensures (cur + k) % 7 == target && (cur + k + 7) % 7 == target
    ensures k == 0 <==> cur == target
  {
  }

  /** weekly, requested weekday is today and the time has passed: exactly
      now's date plus seven days, not zero and not fourteen. */
  lemma WeeklySameDayPassed(w: WeekdayName, t: TimeOfDay, now: DateTime)
    requires ValidDateTime(now) && ValidTime(t)
    requires Weekday(now.date) == WeekdayIndex(w)
    requires !After(Combine(now.date, t), now)
    ensures CalculateWeekly(Some(w), t, now) == Some(Combine(AddDays(now.date, 7), t))
  {
    var k := DaysUntil(w, now);
    WeekdayArithmetic(Weekday(now.date), WeekdayIndex(w), k);
    assert AddDays(now.date, k) == now.date;
  }

  /** weekly gives the earliest occurrence: no instant on the requested
      weekday at the reminder time lies strictly between now and the result. */
  lemma WeeklyIsEarliest(w: WeekdayName, t: TimeOfDay, now: DateTime, x: DateTime)
    requires ValidDateTime(now) && ValidTime(t) && ValidDate(x.date)
    requires x.time == t && Weekday(x.date) == WeekdayIndex(w) && After(x, now)
    ensures var r := CalculateWeekly(Some(w), t, now);
      r.Some? && Instant(r.value) <= Instant(x)
  {
    var nextDate := AddDays(now.date, DaysUntil(w, now));
    WeeklyGrid(w, now, x.date);
    EarliestOnGrid(Ordinal(now.date), Ordinal(nextDate), Ordinal(x.date), MicrosOfDay(t), MicrosOfDay(now.time));
  }

  /** The first weekly candidate lies within a week of now, a week before
      the fallback, and any other date on its weekday is a multiple of
      seven days away from it. */
  lemma WeeklyGrid(w: WeekdayName, now: DateTime, d: Date)
    requires ValidDate(now.date) && ValidDate(d) && Weekday(d) == WeekdayIndex(w)
    ensures var next := AddDays(now.date, DaysUntil(w, now));
      var o, oc, ox := Ordinal(now.date), Ordinal(next), Ordinal(d);
      && o <= oc < o + 7
      && (ox == oc || ox >= oc + 7 || ox <= oc - 7)
      && Ordinal(AddDays(next, 7)) == oc + 7
  {
    var next := AddDays(now.date, DaysUntil(w, now));
    WeeklyCandidate(w, now);
    SameWeekdayGap(d, next);
    AddDaysOrdinal(next, 7);
  }

  /** Two dates on the same weekday are the same day or at least a week apart. */
  lemma SameWeekdayGap(a: Date, b: Date)
    requires ValidDate(a) && ValidDate(b) && Weekday(a) == Weekday(b)
    ensures Ordinal(a) == Ordinal(b) || Ordinal(a) >= Ordinal(b) + 7 || Ordinal(a) <= Ordinal(b) - 7
  {
    CongruentGap(Ordinal(a), Ordinal(b));
  }

  /** On a grid of days seven apart, the first grid day whose instant (at a
      fixed time of day) is after now is no later than any grid day after now. */
  lemma EarliestOnGrid(o: int, oc: int, ox: int, mt: int, mn: int)
    requires o <= oc < o + 7
    requires ox == oc || ox >= oc + 7 || ox <= oc - 7
    requires 0 <= mt < 86_400_000_000 && 0 <= mn < 86_400_000_000
    requires ox * 86_400_000_000 + mt > o * 86_400_000_000 + mn
    ensures oc * 86_400_000_000 + mt <= o * 86_400_000_000 + mn ==> ox >= oc + 7
    ensures oc * 86_400_000_000 + mt > o * 86_400_000_000 + mn ==> ox >= oc
  {
  }

  /** Two integers with the same residue mod 7 are equal or at least 7 apart. */
  lemma CongruentGap(a: int, b: int)
    requires (a + 6) % 7 == (b + 6) % 7
    ensures a == b || a >= b + 7 || a <= b - 7
  {
    var qa, qb := (a + 6) / 7, (b + 6) / 7;
    assert a + 6 == 7 * qa + (a + 6) % 7;
    assert b + 6 == 7 * qb + (b + 6) % 7;
    assert a - b == 7 * (qa - qb);
  }

  /** monthly: the current month's day when it exists and is still ahead. */
  lemma MonthlyThisMonth(dom: int, t: TimeOfDay, now: DateTime)
    requires ValidDateTime(now) && ValidTime(t)
    requires 1 <= dom <= DaysInMonth(now.date.year, now.date.month)
    requires After(Combine(Date(now.date.year, now.date.month, dom), t), now)
    ensures CalculateMonthly(Some(dom), t, now) == Some(Combine(Date(now.date.year, now.date.month, dom), t))
  {
  }

  /** monthly: otherwise that day of the next month (December rolls to January
      of the next year), or nothing when the next month lacks the day. The
      day is never clamped to the month's last day. */
  lemma MonthlyNextMonth(dom: int, t: TimeOfDay, now: DateTime)
    requires ValidDateTime(now) && ValidTime(t) && dom != 0
    requires !(1 <= dom <= DaysInMonth(now.date.year, now.date.month)
               && After(Combine(Date(now.date.year, now.date.month, dom), t), now))
    ensures var r := CalculateMonthly(Some(dom), t, now);
      var ny := if now.date.month == 12 then now.date.year + 1 else now.date.year;
      var nm := if now.date.month == 12 then 1 else now.date.month + 1;
      && (r.Some? <==> 1 <= dom <= DaysInMonth(ny, nm))
      && (r.Some? ==> r.value == Combine(Date(ny, nm, dom), t))
  {
  }

  /** monthly results always carry the requested day and are in the future. */
  lemma MonthlyNeverClamps(dom: int, t: TimeOfDay, now: DateTime)
    requires ValidDateTime(now) && ValidTime(t)
    ensures var r := CalculateMonthly(Some(dom), t, now);
      r.Some? ==> r.value.date.day == dom && r.value.time == t && After(r.value, now)
  {
    var r := CalculateMonthly(Some(dom), t, now);
    if r.Some? && !After(r.value, now) {
      var n := FirstOfNextMonth(now.date);
      assert r.value.date == Date(n.year, n.month, dom);
      NextMonthIsLater(now.date, dom);
    }
  }

  lemma NextMonthIsLater(d: Date, dom: int)
    requires ValidDate(d)
    requires ValidDate(Date(FirstOfNextMonth(d).year, FirstOfNextMonth(d).month, dom))
    ensures Ordinal(Date(FirstOfNextMonth(d).year, FirstOfNextMonth(d).month, dom)) > Ordinal(d)
  {
    if d.month == 12 {
      OrdinalBelowNextYear(d);
    } else {
      DaysBeforeMonthGap(d.year, d.month, d.month + 1);
    }
  }

  /** Day 31 requested in February falls on the 31st of March: a month that
      really has a 31st, never a silently adjusted February or April day. */
  lemma MonthlyThirtyFirstFromFebruary(t: TimeOfDay, now: DateTime)
    requires ValidDateTime(now) && ValidTime(t) && now.date.month == 2
    ensures CalculateMonthly(Some(31), t, now) == Some(Combine(Date(now.date.year, 3, 31), t))
  {
  }

  /** Day 31 requested on the 31st of January once its time has passed: the
      day is missing in February, so there is no next run at all. */
  lemma MonthlyMissingNextMonthDay(t: TimeOfDay, now: DateTime)
    requires ValidDateTime(now) && ValidTime(t)
    requires now.date.month == 1 && now.date.day == 31
    requires !After(Combine(now.date, t), now)
    ensures CalculateMonthly(Some(31), t, now) == None
  {
  }

  /** A missing companion field gives no next run: no date for once, no
      weekday for weekly, None or 0 for monthly. */
  lemma MissingCompanionGivesNone(t: TimeOfDay, now: DateTime)
    requires ValidDateTime(now) && ValidTime(t)
    ensures CalculateNextRunAt(Once, t, None, None, None, now) == None
    ensures forall dom: Option<int> :: CalculateNextRunAt(Weekly, t, None, dom, None, now) == None
    ensures CalculateNextRunAt(Monthly, t, None, None, None, now) == None
    ensures CalculateNextRunAt(Monthly, t, None, Some(0), None, now) == None
  {
  }

  /** Every non-null next run is strictly after now and is at the requested
      time of day. */
  lemma NextRunIsFutureAtRequestedTime(frequency: Frequency, t: TimeOfDay, weekday: Option<WeekdayName>,
                                       dayOfMonth: Option<int>, specificDate: Option<Date>, now: DateTime)
    requires ValidDateTime(now) && ValidTime(t)
    requires specificDate.Some? ==> ValidDate(specificDate.value)
    ensures var r := CalculateNextRunAt(frequency, t, weekday, dayOfMonth, specificDate, now);
      r.Some? ==> After(r.value, now) && r.value.time == t
  {
    match frequency
    case Once =>
    case Daily => DailyIsNextOccurrence(t, now);
    case Weekly => if weekday.Some? { WeeklyOnRequestedDay(weekday.value, t, now); }
    case Monthly => if dayOfMonth.Some? { MonthlyNeverClamps(dayOfMonth.value, t, now); }
  }
}
