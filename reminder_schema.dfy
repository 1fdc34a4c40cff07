/**
 * Request validation for reminders: the `ReminderCreate` and `ReminderUpdate`
 * payloads, their field bounds and defaults, and the model validator that
 * demands the companion field each frequency needs.
 *
 * A request is given as it arrives (an omitted `time` is `None`); validation
 * either rejects it with the first failure or yields the typed payload.
 * Field-level checks (`day_of_month` in 1..31, a real calendar date and time)
 * run before the model validator, as they do in pydantic.
 */
module ReminderSchema {
  import opened Wrappers
  import opened Calendar
  import opened ReminderCalculator

  datatype ReminderStatus = Active | Paused | Completed

  /** One field of a partial update: left out of the request, or given (possibly as null). */
  datatype Patch<T> = Unset | Set(value: T)

  datatype SchemaError =
    | DayOfMonthOutOfRange
    | InvalidDate
    | InvalidTime
    | MissingWeekday
    | MissingDayOfMonth
    | MissingSpecificDate

  /** A create request as received; `time` is `None` when the client omitted it. */
  datatype CreateRequest = CreateRequest(
    memoryId: int, frequency: Frequency, weekday: Option<WeekdayName>,
    dayOfMonth: Option<int>, specificDate: Option<Date>, time: Option<TimeOfDay>)

  /** A validated create payload, with the default time filled in. */
  datatype ReminderCreate = ReminderCreate(
    memoryId: int, frequency: Frequency, weekday: Option<WeekdayName>,
    dayOfMonth: Option<int>, specificDate: Option<Date>, time: TimeOfDay)

  /**
   * An update request. Every field is optional with a null default, so each
   * one may be left out or given, and a given one may be an explicit null.
   */
  datatype ReminderUpdate = ReminderUpdate(
    frequency: Patch<Option<Frequency>>, weekday: Patch<Option<WeekdayName>>,
    dayOfMonth: Patch<Option<int>>, specificDate: Patch<Option<Date>>,
    time: Patch<Option<TimeOfDay>>, status: Patch<Option<ReminderStatus>>)

  const DefaultTime: TimeOfDay := TimeOfDay(9, 0, 0, 0)

  const MinDayOfMonth: int := 1
  const MaxDayOfMonth: int := 31

  predicate DayInRange(d: Option<int>) {
    d.Some? ==> MinDayOfMonth <= d.value <= MaxDayOfMonth
  }

  /** The field-level checks of a create request. */
  predicate CreateFieldsOk(q: CreateRequest) {
    DayInRange(q.dayOfMonth)
    && (q.specificDate.Some? ==> ValidDate(q.specificDate.value))
    && (q.time.Some? ==> ValidTime(q.time.value))
  }

  /** Whether the companion field that `f` needs is present. */
  predicate CompanionPresent(f: Frequency, weekday: Option<WeekdayName>,
                             dayOfMonth: Option<int>, specificDate: Option<Date>)
  {
    match f
    case Weekly => weekday.Some?
    case Monthly => dayOfMonth.Some?
    case Once => specificDate.Some?
    case Daily => true
  }

  function CompanionError(f: Frequency, weekday: Option<WeekdayName>,
                          dayOfMonth: Option<int>, specificDate: Option<Date>): (r: Option<SchemaError>)
    ensures r.None? <==> CompanionPresent(f, weekday, dayOfMonth, specificDate)
  {
    if f == Weekly && weekday.None? then Some(MissingWeekday)
    else if f == Monthly && dayOfMonth.None? then Some(MissingDayOfMonth)
    else if f == Once && specificDate.None? then Some(MissingSpecificDate)
    else None
  }

  /** A well-formed create payload: what every accepted request produces. */
  predicate WellFormedCreate(c: ReminderCreate) {
    DayInRange(c.dayOfMonth)
    && (c.specificDate.Some? ==> ValidDate(c.specificDate.value))
    && ValidTime(c.time)
    && CompanionPresent(c.frequency, c.weekday, c.dayOfMonth, c.specificDate)
  }

  function ValidateCreate(q: CreateRequest): (r: Result<ReminderCreate, SchemaError>)
    ensures r.Success? ==> WellFormedCreate(r.value)
    ensures r.Success? ==> r.value.time == q.time.GetOr(DefaultTime)
    ensures r.Success? ==>
      r.value.memoryId == q.memoryId && r.value.frequency == q.frequency
      && r.value.weekday == q.weekday && r.value.dayOfMonth == q.dayOfMonth
      && r.value.specificDate == q.specificDate
  {
    if !DayInRange(q.dayOfMonth) then Failure(DayOfMonthOutOfRange)
    else if q.specificDate.Some? && !ValidDate(q.specificDate.value) then Failure(InvalidDate)
    else if q.time.Some? && !ValidTime(q.time.value) then Failure(InvalidTime)
    else
      match CompanionError(q.frequency, q.weekday, q.dayOfMonth, q.specificDate)
      case Some(e) => Failure(e)
      case None =>
        Success(ReminderCreate(q.memoryId, q.frequency, q.weekday, q.dayOfMonth,
                               q.specificDate, q.time.GetOr(DefaultTime)))
  }

  /** A patched field counts as present only when it is set to a non-null value. */
  function Given<T>(p: Patch<Option<T>>): Option<T> {
    if p.Set? then p.value else None
  }

  /** The field-level checks of an update request. */
  predicate UpdateFieldsOk(u: ReminderUpdate) {
    DayInRange(Given(u.dayOfMonth))
    && (Given(u.specificDate).Some? ==> ValidDate(Given(u.specificDate).value))
    && (Given(u.time).Some? ==> ValidTime(Given(u.time).value))
  }

  function ValidateUpdate(u: ReminderUpdate): (r: Result<ReminderUpdate, SchemaError>)
    ensures r.Success? ==> r.value == u && UpdateFieldsOk(u)
    ensures r.Success? && Given(u.frequency).Some? ==>
      CompanionPresent(Given(u.frequency).value, Given(u.weekday), Given(u.dayOfMonth), Given(u.specificDate))
  {
    if !DayInRange(Given(u.dayOfMonth)) then Failure(DayOfMonthOutOfRange)
    else if Given(u.specificDate).Some? && !ValidDate(Given(u.specificDate).value) then Failure(InvalidDate)
    else if Given(u.time).Some? && !ValidTime(Given(u.time).value) then Failure(InvalidTime)
    else if Given(u.frequency).None? then Success(u)
    else
      match CompanionError(Given(u.frequency).value, Given(u.weekday), Given(u.dayOfMonth), Given(u.specificDate))
      case Some(e) => Failure(e)
      case None => Success(u)
  }

  // ---------------------------------------------------------------------------
  // Properties of the validators.

  /** A create request is accepted exactly when its fields pass and its frequency's companion is there. */
  lemma CreateAcceptedIff(q: CreateRequest)
    ensures ValidateCreate(q).Success?
      <==> CreateFieldsOk(q) && CompanionPresent(q.frequency, q.weekday, q.dayOfMonth, q.specificDate)
  {
  }

  /** Which companion error each frequency produces when its field is missing. */
  lemma CreateMissingCompanion(q: CreateRequest)
    requires CreateFieldsOk(q)
    ensures q.frequency == Weekly && q.weekday.None? ==> ValidateCreate(q) == Failure(MissingWeekday)
    ensures q.frequency == Monthly && q.dayOfMonth.None? ==> ValidateCreate(q) == Failure(MissingDayOfMonth)
    ensures q.frequency == Once && q.specificDate.None? ==> ValidateCreate(q) == Failure(MissingSpecificDate)
    ensures q.frequency == Daily ==> ValidateCreate(q).Success?
  {
  }

  /** A day of month outside 1..31 is refused by both validators. */
  lemma DayOfMonthBounds(q: CreateRequest, u: ReminderUpdate)
    ensures q.dayOfMonth.Some? && !(1 <= q.dayOfMonth.value <= 31) ==>
      ValidateCreate(q) == Failure(DayOfMonthOutOfRange)
    ensures u.dayOfMonth.Set? && u.dayOfMonth.value.Some? && !(1 <= u.dayOfMonth.value.value <= 31) ==>
      ValidateUpdate(u) == Failure(DayOfMonthOutOfRange)
  {
  }

  /** An omitted time becomes 09:00 on an accepted create request. */
  lemma CreateDefaultTime(q: CreateRequest)
    requires q.time.None? && ValidateCreate(q).Success?
    ensures ValidateCreate(q).value.time == TimeOfDay(9, 0, 0, 0)
  {
  }

  /**
   * Without a frequency, left out or given as null, the update passes whatever
   * companions it carries or lacks.
   */
  lemma UpdateWithoutFrequencyPasses(u: ReminderUpdate)
    requires Given(u.frequency).None? && UpdateFieldsOk(u)
    ensures ValidateUpdate(u) == Success(u)
  {
  }

  /**
   * With a frequency, the companion must be in the payload itself and set to a
   * non-null value: an update with frequency weekly whose weekday is left out
   * or given as null is refused, whatever the stored reminder holds.
   */
  lemma UpdateChecksPayloadCompanion(u: ReminderUpdate)
    requires Given(u.frequency).Some? && UpdateFieldsOk(u)
    ensures ValidateUpdate(u).Success?
      <==> CompanionPresent(Given(u.frequency).value, Given(u.weekday), Given(u.dayOfMonth), Given(u.specificDate))
    ensures Given(u.frequency).value == Weekly && (u.weekday.Unset? || u.weekday.value.None?) ==>
      ValidateUpdate(u) == Failure(MissingWeekday)
  {
  }

  /** A companion that does not belong to the frequency is never a reason to refuse. */
  lemma ExtraCompanionsAccepted(q: CreateRequest, w: WeekdayName, d: int, sd: Date)
    requires CreateFieldsOk(q) && 1 <= d <= 31 && ValidDate(sd)
    requires CompanionPresent(q.frequency, q.weekday, q.dayOfMonth, q.specificDate)
    ensures ValidateCreate(q.(weekday := Some(w), dayOfMonth := Some(d), specificDate := Some(sd))).Success?
  {
  }
}
