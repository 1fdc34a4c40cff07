/**
 * The reminder table: the `Reminder` record and `ReminderRepository`, whose
 * queries are functions over the stored rows and whose create/update/delete
 * change them.
 */
module ReminderStore {
  import opened Wrappers
  import opened Calendar
  import opened Sequences
  import opened ReminderCalculator
  import opened ReminderSchema

  /** One `reminder` row. `createdAt` is an instant in microseconds. */
  datatype Reminder = Reminder(
    id: int, memoryId: int, frequency: Frequency, weekday: Option<WeekdayName>,
    dayOfMonth: Option<int>, specificDate: Option<Date>, time: TimeOfDay,
    nextRunAt: Option<DateTime>, status: ReminderStatus, userId: Option<int>, createdAt: int)

  function ReminderId(r: Reminder): int { r.id }

  function Newness(r: Reminder): real { r.createdAt as real }

  predicate OwnedBy(r: Reminder, userId: Option<int>) {
    userId.None? || r.userId == userId
  }

  /** The filters of `get_all`, each applied only when given. */
  predicate Matches(r: Reminder, userId: Option<int>, status: Option<ReminderStatus>, memoryId: Option<int>) {
    OwnedBy(r, userId)
    && (status.None? || r.status == status.value)
    && (memoryId.None? || r.memoryId == memoryId.value)
  }

  /** `next_run_at <= now AND status = 'active'`; a null `next_run_at` never compares true. */
  predicate IsDue(r: Reminder, now: DateTime) {
    r.nextRunAt.Some? && NotLater(r.nextRunAt.value, now) && r.status == Active
  }

  function FindReminder(rows: seq<Reminder>, id: int, userId: Option<int>): (r: Option<Reminder>)
    ensures r.Some? ==> r.value in rows && r.value.id == id && OwnedBy(r.value, userId)
    ensures r.None? ==> forall i :: 0 <= i < |rows| ==> !(rows[i].id == id && OwnedBy(rows[i], userId))
  {
    FirstMatch(rows, (r: Reminder) => r.id == id && OwnedBy(r, userId))
  }

  /** The rows `get_all` pages through: every reminder that passes the filters, newest first. */
  function Matching(rows: seq<Reminder>, userId: Option<int>, status: Option<ReminderStatus>,
                    memoryId: Option<int>): (s: seq<Reminder>)
    ensures forall x :: x in s <==> x in rows && Matches(x, userId, status, memoryId)
    ensures forall x :: multiset(s)[x] == if Matches(x, userId, status, memoryId) then multiset(rows)[x] else 0
    ensures forall i, j :: 0 <= i < j < |s| ==> s[i].createdAt >= s[j].createdAt
  {
    var p := (r: Reminder) => Matches(r, userId, status, memoryId);
    SortedFilterMembers(rows, p, Newness);
    SortDesc(Filter(rows, p), Newness)
  }

  function AllReminders(rows: seq<Reminder>, userId: Option<int>, status: Option<ReminderStatus>,
                        memoryId: Option<int>, limit: nat, offset: nat): seq<Reminder>
  {
    Page(Matching(rows, userId, status, memoryId), offset, limit)
  }

  /** `get_due_reminders(limit=100)`: the rows in table order that are due, at most `limit`. */
  function DueReminders(rows: seq<Reminder>, now: DateTime, limit: nat): seq<Reminder>
  {
    Take(Filter(rows, (r: Reminder) => IsDue(r, now)), limit)
  }

  const DefaultListLimit: nat := 100

  // ---------------------------------------------------------------------------
  // Properties of the queries.

  /** With a user given, another owner's reminder is invisible; without one, any owner's row is found. */
  lemma FindReminderOwnership(rows: seq<Reminder>, i: nat, u: int)
    requires UniqueBy(rows, ReminderId) && i < |rows|
    ensures rows[i].userId != Some(u) ==> FindReminder(rows, rows[i].id, Some(u)).None?
    ensures FindReminder(rows, rows[i].id, None) == Some(rows[i])
    ensures rows[i].userId == Some(u) ==> FindReminder(rows, rows[i].id, Some(u)) == Some(rows[i])
  {
    FindByUniqueKey(rows, ReminderId, i, (r: Reminder) => r.id == rows[i].id && OwnedBy(r, None));
    if rows[i].userId == Some(u) {
      FindByUniqueKey(rows, ReminderId, i, (r: Reminder) => r.id == rows[i].id && OwnedBy(r, Some(u)));
    }
  }

  lemma AllRemindersSpec(rows: seq<Reminder>, userId: Option<int>, status: Option<ReminderStatus>,
                         memoryId: Option<int>, limit: nat, offset: nat)
    ensures var r := AllReminders(rows, userId, status, memoryId, limit, offset);
      |r| <= limit
      && (forall i :: 0 <= i < |r| ==> r[i] in rows && Matches(r[i], userId, status, memoryId))
      && (forall i, j :: 0 <= i < j < |r| ==> r[i].createdAt >= r[j].createdAt)
  {
    var s := Matching(rows, userId, status, memoryId);
    var r := Page(s, offset, limit);
    forall i | 0 <= i < |r|
      ensures r[i] in rows && Matches(r[i], userId, status, memoryId)
    {
      assert r[i] == s[offset + i];
    }
    forall i, j | 0 <= i < j < |r|
      ensures r[i].createdAt >= r[j].createdAt
    {
      assert r[i] == s[offset + i] && r[j] == s[offset + j];
    }
  }

  /**
   * Nothing that matches is lost: every matching reminder has a place in the
   * newest-first list, and it is on the page whenever that place falls within
   * the window the offset and the limit select.
   */
  lemma AllRemindersComplete(rows: seq<Reminder>, userId: Option<int>, status: Option<ReminderStatus>,
                             memoryId: Option<int>, limit: nat, offset: nat, x: Reminder)
    requires x in rows && Matches(x, userId, status, memoryId)
    ensures var s := Matching(rows, userId, status, memoryId);
      var r := AllReminders(rows, userId, status, memoryId, limit, offset);
      exists k :: 0 <= k < |s| && s[k] == x && (offset <= k < offset + limit ==> x in r)
  {
    var s := Matching(rows, userId, status, memoryId);
    var r := AllReminders(rows, userId, status, memoryId, limit, offset);
    var k :| 0 <= k < |s| && s[k] == x;
    if offset <= k < offset + limit {
      assert r[k - offset] == x;
    }
  }

  /**
   * Only due rows are returned, at most `limit` of them, and a due row is
   * left out only when the limit has been reached.
   */
  lemma DueRemindersSpec(rows: seq<Reminder>, now: DateTime, limit: nat)
    ensures var r := DueReminders(rows, now, limit);
      |r| <= limit
      && (forall i :: 0 <= i < |r| ==> r[i] in rows && IsDue(r[i], now))
      && (forall i :: 0 <= i < |rows| && IsDue(rows[i], now) && rows[i] !in r ==> |r| == limit)
  {
    var f := Filter(rows, (r: Reminder) => IsDue(r, now));
    var r := Take(f, limit);
    forall i | 0 <= i < |rows| && IsDue(rows[i], now) && rows[i] !in r
      ensures |r| == limit
    {
      FilterKeeps(rows, (r: Reminder) => IsDue(r, now), i);
      var k :| 0 <= k < |f| && f[k] == rows[i];
      assert k >= |r|;
    }
  }

  /** Paused or completed reminders, and reminders never scheduled, are never due. */
  lemma NeverDue(rows: seq<Reminder>, now: DateTime, limit: nat, x: Reminder)
    requires x.status != Active || x.nextRunAt.None?
    ensures x !in DueReminders(rows, now, limit)
  {
    DueRemindersSpec(rows, now, limit);
  }

  // ---------------------------------------------------------------------------
  // The repository object.

  class ReminderRepository {
    var rows: seq<Reminder>
    var nextId: int

    ghost predicate Valid()
      reads this
    {
      UniqueBy(rows, ReminderId) && (forall i :: 0 <= i < |rows| ==> 1 <= rows[i].id < nextId) && nextId >= 1
    }

    constructor ()
      ensures Valid() && rows == [] && nextId == 1
    {
      rows := [];
      nextId := 1;
    }

    function GetById(id: int, userId: Option<int>): (r: Option<Reminder>)
      reads this
      ensures r == FindReminder(rows, id, userId)
    {
      FindReminder(rows, id, userId)
    }

    function GetAll(userId: Option<int>, status: Option<ReminderStatus>, memoryId: Option<int>,
                    limit: nat, offset: nat): (r: seq<Reminder>)
      reads this
      ensures r == AllReminders(rows, userId, status, memoryId, limit, offset)
    {
      AllReminders(rows, userId, status, memoryId, limit, offset)
    }

    function GetDueReminders(now: DateTime, limit: nat): (r: seq<Reminder>)
      reads this
      ensures r == DueReminders(rows, now, limit)
    {
      DueReminders(rows, now, limit)
    }

    /** `create`: the database assigns the next id and the row joins the table. */
    method Create(r: Reminder) returns (saved: Reminder)
      requires Valid()
      modifies this
      ensures Valid()
      ensures saved == r.(id := old(nextId)) && rows == old(rows) + [saved]
      ensures nextId == old(nextId) + 1
      ensures GetById(saved.id, None) == Some(saved)
    {
      saved := r.(id := nextId);
      rows := rows + [saved];
      nextId := nextId + 1;
      FindReminderOwnership(rows, |rows| - 1, 0);
    }

    /** `update`: the stored row with the same id is overwritten. */
    method Update(r: Reminder)
      requires Valid()
      modifies this
      ensures Valid() && nextId == old(nextId)
      ensures rows == ReplaceBy(old(rows), r, ReminderId)
    {
      ReplaceKeepsUnique(rows, r, ReminderId);
      rows := ReplaceBy(rows, r, ReminderId);
    }

    /** `delete`: the row with that id goes; every other row stays, in order. */
    method Delete(r: Reminder)
      requires Valid()
      modifies this
      ensures Valid() && nextId == old(nextId)
      ensures rows == Filter(old(rows), (x: Reminder) => x.id != r.id)
      ensures GetById(r.id, None).None?
    {
      FilterKeepsUnique(rows, ReminderId, (x: Reminder) => x.id != r.id);
      rows := Filter(rows, (x: Reminder) => x.id != r.id);
    }
  }
}
