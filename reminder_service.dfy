/**
 * `ReminderService`: create, read, partially update, delete, pause and resume
 * reminders on top of the reminder table, with the memory table consulted for
 * ownership of the reminded memory and the calculator setting `next_run_at`.
 *
 * The clock is a parameter: `now` is the instant the calculator reads. The
 * creation timestamp of a new row is a parameter as well.
 */
module ReminderService {
  import opened Wrappers
  import opened Calendar
  import opened Sequences
  import opened ReminderCalculator
  import opened ReminderSchema
  import opened ReminderStore
  import opened Exceptions
  import MemoryStore

  const ReminderNotFound: string := "Reminder not found."
  const MemoryNotFound: string := "Memory not found."

  /**
   * How `update_reminder` can fail: with an application error, or with the
   * error that a null in a NOT NULL column raises. The second is not an
   * `AppException` and reaches the client as an unhandled server error.
   */
  datatype UpdateError = Rejected(error: AppException) | NullColumn

  /** What the calculator needs of a stored reminder: a real time of day and, if any, a real date. */
  predicate Schedulable(r: Reminder) {
    ValidTime(r.time) && (r.specificDate.Some? ==> ValidDate(r.specificDate.value))
  }

  /** `reminder.next_run_at = calculate_next_run_at(...)` from the reminder's own fields. */
  function Reschedule(r: Reminder, now: DateTime): (s: Reminder)
    requires Schedulable(r) && ValidDateTime(now)
    ensures s == r.(nextRunAt := s.nextRunAt)
    ensures s.nextRunAt == CalculateNextRunAt(r.frequency, r.time, r.weekday, r.dayOfMonth, r.specificDate, now)
  {
    r.(nextRunAt := CalculateNextRunAt(r.frequency, r.time, r.weekday, r.dayOfMonth, r.specificDate, now))
  }

  /** The row `create_reminder` builds before the database assigns its id. */
  function NewReminder(data: ReminderCreate, userId: Option<int>, now: DateTime, createdAt: int): (r: Reminder)
    requires WellFormedCreate(data) && ValidDateTime(now)
    ensures Schedulable(r) && r.status == Active && r.userId == userId
    ensures r.memoryId == data.memoryId && r.frequency == data.frequency && r.weekday == data.weekday
      && r.dayOfMonth == data.dayOfMonth && r.specificDate == data.specificDate && r.time == data.time
    ensures r.nextRunAt == CalculateNextRunAt(data.frequency, data.time, data.weekday, data.dayOfMonth, data.specificDate, now)
  {
    Reschedule(Reminder(0, data.memoryId, data.frequency, data.weekday, data.dayOfMonth, data.specificDate,
                        data.time, None, Active, userId, createdAt), now)
  }

  /**
   * Whether the update gives an explicit null to one of the three columns the
   * table declares NOT NULL. `setattr` copies that null onto the row, and the
   * update then cannot complete: a null time makes `datetime.combine` raise,
   * and a null frequency or status is refused when the row is flushed.
   */
  predicate NullsRequiredColumn(u: ReminderUpdate) {
    u.frequency == Set(None) || u.time == Set(None) || u.status == Set(None)
  }

  /** `setattr(reminder, key, value)` for every field the update request set. */
  function ApplyUpdate(r: Reminder, u: ReminderUpdate): (m: Reminder)
    requires !NullsRequiredColumn(u)
    ensures Schedulable(r) && UpdateFieldsOk(u) ==> Schedulable(m)
  {
    r.(frequency := if u.frequency.Set? then u.frequency.value.value else r.frequency,
       weekday := if u.weekday.Set? then u.weekday.value else r.weekday,
       dayOfMonth := if u.dayOfMonth.Set? then u.dayOfMonth.value else r.dayOfMonth,
       specificDate := if u.specificDate.Set? then u.specificDate.value else r.specificDate,
       time := if u.time.Set? then u.time.value.value else r.time,
       status := if u.status.Set? then u.status.value.value else r.status)
  }

  /**
   * An update copies exactly the fields it set: an unset field keeps the
   * stored value, a set one replaces it (a null companion included), and the
   * id, owner, memory, schedule and creation time are never touched.
   */
  lemma ApplyUpdateFields(r: Reminder, u: ReminderUpdate)
    requires !NullsRequiredColumn(u)
    ensures var m := ApplyUpdate(r, u);
      m.id == r.id && m.memoryId == r.memoryId && m.userId == r.userId
      && m.createdAt == r.createdAt && m.nextRunAt == r.nextRunAt
      && (u.frequency.Unset? ==> m.frequency == r.frequency)
      && (u.frequency.Set? ==> Some(m.frequency) == u.frequency.value)
      && (u.weekday.Unset? ==> m.weekday == r.weekday)
      && (u.weekday.Set? ==> m.weekday == u.weekday.value)
      && (u.dayOfMonth.Unset? ==> m.dayOfMonth == r.dayOfMonth)
      && (u.dayOfMonth.Set? ==> m.dayOfMonth == u.dayOfMonth.value)
      && (u.specificDate.Unset? ==> m.specificDate == r.specificDate)
      && (u.specificDate.Set? ==> m.specificDate == u.specificDate.value)
      && (u.time.Unset? ==> m.time == r.time)
      && (u.time.Set? ==> Some(m.time) == u.time.value)
      && (u.status.Unset? ==> m.status == r.status)
      && (u.status.Set? ==> Some(m.status) == u.status.value)
  {
  }

  /** An empty update changes no field at all. */
  lemma EmptyUpdateIsIdentity(r: Reminder)
    ensures ApplyUpdate(r, ReminderUpdate(Unset, Unset, Unset, Unset, Unset, Unset)) == r
  {
  }

  /**
   * An accepted daily or weekly reminder is always scheduled; a monthly one is
   * scheduled at least whenever its day exists in the next month.
   */
  lemma AcceptedRecurringIsScheduled(data: ReminderCreate, now: DateTime)
    requires WellFormedCreate(data) && ValidDateTime(now)
    ensures data.frequency == Daily || data.frequency == Weekly ==>
      CalculateNextRunAt(data.frequency, data.time, data.weekday, data.dayOfMonth, data.specificDate, now).Some?
    ensures (data.frequency == Monthly
             && data.dayOfMonth.value <= DaysInMonth(FirstOfNextMonth(now.date).year, FirstOfNextMonth(now.date).month))
      ==> CalculateNextRunAt(data.frequency, data.time, data.weekday, data.dayOfMonth, data.specificDate, now).Some?
  {
    if data.frequency == Weekly {
      WeeklyOnRequestedDay(data.weekday.value, data.time, now);
    }
  }

  class ReminderService {
    const reminders: ReminderStore.ReminderRepository
    const memories: MemoryStore.MemoryRepository

    ghost predicate Valid()
      reads this, reminders, memories
    {
      reminders.Valid() && memories.Valid()
      && forall i :: 0 <= i < |reminders.rows| ==> Schedulable(reminders.rows[i])
    }

    constructor (reminders: ReminderStore.ReminderRepository, memories: MemoryStore.MemoryRepository)
      requires reminders.Valid() && memories.Valid()
      requires forall i :: 0 <= i < |reminders.rows| ==> Schedulable(reminders.rows[i])
      ensures Valid() && this.reminders == reminders && this.memories == memories
    {
      this.reminders := reminders;
      this.memories := memories;
    }

    /** `get_reminder`: the visible reminder, or NotFound. */
    method GetReminder(id: int, userId: Option<int>) returns (r: Result<Reminder, AppException>)
      requires Valid()
      ensures reminders.GetById(id, userId).Some? ==> r == Success(reminders.GetById(id, userId).value)
      ensures reminders.GetById(id, userId).None? ==> r == Failure(NotFoundError(Some(ReminderNotFound)))
    {
      var found := reminders.GetById(id, userId);
      if found.None? {
        return Failure(NotFoundError(Some(ReminderNotFound)));
      }
      r := Success(found.value);
    }

    /** `get_reminders`: `get_all` with no memory filter. */
    method GetReminders(userId: Option<int>, status: Option<ReminderStatus>, limit: nat, offset: nat)
      returns (rs: seq<Reminder>)
      requires Valid()
      ensures rs == reminders.GetAll(userId, status, None, limit, offset)
    {
      rs := reminders.GetAll(userId, status, None, limit, offset);
    }

    /**
     * `create_reminder`: NotFound when the memory is missing or not the
     * caller's; otherwise one new row whose `next_run_at` is the calculator's
     * answer for the request's own fields.
     */
    method CreateReminder(data: ReminderCreate, userId: Option<int>, now: DateTime, createdAt: int)
      returns (r: Result<Reminder, AppException>)
      requires Valid() && WellFormedCreate(data) && ValidDateTime(now)
      modifies reminders
      ensures Valid()
      ensures memories.GetById(data.memoryId, userId).None? ==>
        r == Failure(NotFoundError(Some(MemoryNotFound))) && reminders.rows == old(reminders.rows)
        && reminders.nextId == old(reminders.nextId)
      ensures memories.GetById(data.memoryId, userId).Some? ==>
        r == Success(NewReminder(data, userId, now, createdAt).(id := old(reminders.nextId)))
        && reminders.rows == old(reminders.rows) + [r.value]
      ensures r.Success? ==>
        r.value.nextRunAt == CalculateNextRunAt(data.frequency, data.time, data.weekday, data.dayOfMonth, data.specificDate, now)
    {
      var memory := memories.GetById(data.memoryId, userId);
      if memory.None? {
        return Failure(NotFoundError(Some(MemoryNotFound)));
      }
      var saved := reminders.Create(NewReminder(data, userId, now, createdAt));
      r := Success(saved);
    }

    /**
     * `update_reminder`: NotFound for a missing or foreign id; otherwise the
     * set fields are copied onto the stored row and `next_run_at` is
     * recomputed from the merged row. An explicit null for the frequency, the
     * time or the status makes the update fail and leaves the table as it was.
     */
    method UpdateReminder(id: int, data: ReminderUpdate, userId: Option<int>, now: DateTime)
      returns (r: Result<Reminder, UpdateError>)
      requires Valid() && UpdateFieldsOk(data) && ValidDateTime(now)
      modifies reminders
      ensures Valid()
      ensures old(reminders.GetById(id, userId)).None? ==>
        r == Failure(Rejected(NotFoundError(Some(ReminderNotFound))))
        && reminders.rows == old(reminders.rows) && reminders.nextId == old(reminders.nextId)
      ensures old(reminders.GetById(id, userId)).Some? && NullsRequiredColumn(data) ==>
        r == Failure(NullColumn)
        && reminders.rows == old(reminders.rows) && reminders.nextId == old(reminders.nextId)
      ensures old(reminders.GetById(id, userId)).Some? && !NullsRequiredColumn(data) ==>
        var stored := old(reminders.GetById(id, userId)).value;
        r == Success(Reschedule(ApplyUpdate(stored, data), now))
        && reminders.rows == ReplaceBy(old(reminders.rows), r.value, ReminderId)
        && reminders.nextId == old(reminders.nextId)
    {
      var found := reminders.GetById(id, userId);
      if found.None? {
        return Failure(Rejected(NotFoundError(Some(ReminderNotFound))));
      }
      if NullsRequiredColumn(data) {
        return Failure(NullColumn);
      }
      var merged := Reschedule(ApplyUpdate(found.value, data), now);
      reminders.Update(merged);
      r := Success(merged);
    }

    /** `delete_reminder`: NotFound for a missing or foreign id; otherwise exactly that row goes. */
    method DeleteReminder(id: int, userId: Option<int>) returns (r: Result<(), AppException>)
      requires Valid()
      modifies reminders
      ensures Valid()
      ensures old(reminders.GetById(id, userId)).None? ==>
        r == Failure(NotFoundError(Some(ReminderNotFound))) && reminders.rows == old(reminders.rows)
        && reminders.nextId == old(reminders.nextId)
      ensures old(reminders.GetById(id, userId)).Some? ==>
        r == Success(()) && reminders.rows == Filter(old(reminders.rows), (x: Reminder) => x.id != id)
        && reminders.GetById(id, None).None? && reminders.nextId == old(reminders.nextId)
    {
      var found := reminders.GetById(id, userId);
      if found.None? {
        return Failure(NotFoundError(Some(ReminderNotFound)));
      }
      reminders.Delete(found.value);
      r := Success(());
    }

    /** `pause_reminder`: only the status changes, to PAUSED; `next_run_at` is kept. */
    method PauseReminder(id: int, userId: Option<int>) returns (r: Result<Reminder, AppException>)
      requires Valid()
      modifies reminders
      ensures Valid()
      ensures old(reminders.GetById(id, userId)).None? ==>
        r == Failure(NotFoundError(Some(ReminderNotFound))) && reminders.rows == old(reminders.rows)
        && reminders.nextId == old(reminders.nextId)
      ensures old(reminders.GetById(id, userId)).Some? ==>
        r == Success(old(reminders.GetById(id, userId)).value.(status := Paused))
        && reminders.rows == ReplaceBy(old(reminders.rows), r.value, ReminderId)
        && reminders.nextId == old(reminders.nextId)
    {
      var found := reminders.GetById(id, userId);
      if found.None? {
        return Failure(NotFoundError(Some(ReminderNotFound)));
      }
      var paused := found.value.(status := Paused);
      reminders.Update(paused);
      r := Success(paused);
    }

    /** `resume_reminder`: the status becomes ACTIVE and `next_run_at` is recomputed. */
    method ResumeReminder(id: int, userId: Option<int>, now: DateTime) returns (r: Result<Reminder, AppException>)
      requires Valid() && ValidDateTime(now)
      modifies reminders
      ensures Valid()
      ensures old(reminders.GetById(id, userId)).None? ==>
        r == Failure(NotFoundError(Some(ReminderNotFound))) && reminders.rows == old(reminders.rows)
        && reminders.nextId == old(reminders.nextId)
      ensures old(reminders.GetById(id, userId)).Some? ==>
        r == Success(Reschedule(old(reminders.GetById(id, userId)).value.(status := Active), now))
        && reminders.rows == ReplaceBy(old(reminders.rows), r.value, ReminderId)
        && reminders.nextId == old(reminders.nextId)
    {
      var found := reminders.GetById(id, userId);
      if found.None? {
        return Failure(NotFoundError(Some(ReminderNotFound)));
      }
      var resumed := Reschedule(found.value.(status := Active), now);
      reminders.Update(resumed);
      r := Success(resumed);
    }
  }

  /** Replacing a row by id keeps every row schedulable when the new one is. */
  lemma ReplaceSchedulable(rows: seq<Reminder>, x: Reminder)
    requires forall i :: 0 <= i < |rows| ==> Schedulable(rows[i])
    requires Schedulable(x)
    ensures forall i :: 0 <= i < |ReplaceBy(rows, x, ReminderId)| ==> Schedulable(ReplaceBy(rows, x, ReminderId)[i])
  {
  }
}
