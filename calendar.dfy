/** Proleptic Gregorian calendar arithmetic in the style of Python's
    `datetime`: dates are (year, month, day), `Ordinal` is `date.toordinal()`
    (0001-01-01 is day 1), `Weekday` is `date.weekday()` (Monday is 0).
    Every timestamp of the model denotes a UTC instant. */
module Calendar {
  import opened Wrappers

  const MicrosPerDay: int := 86_400_000_000

  datatype Date = Date(year: int, month: int, day: int)

  datatype TimeOfDay = TimeOfDay(hour: int, minute: int, second: int, micro: int)

  datatype DateTime = DateTime(date: Date, time: TimeOfDay)

  predicate IsLeap(y: int) {
    y % 4 == 0 && (y % 100 != 0 || y % 400 == 0)
  }

  function DaysInMonth(y: int, m: int): (n: int)
    requires 1 <= m <= 12
    ensures 28 <= n <= 31
  {
    if m == 2 then (if IsLeap(y) then 29 else 28)
    else if m == 4 || m == 6 || m == 9 || m == 11 then 30
    else 31
  }

  predicate ValidDate(d: Date) {
    1 <= d.year && 1 <= d.month <= 12 && 1 <= d.day <= DaysInMonth(d.year, d.month)
  }

  predicate ValidTime(t: TimeOfDay) {
    0 <= t.hour < 24 && 0 <= t.minute < 60 && 0 <= t.second < 60 && 0 <= t.micro < 1_000_000
  }

  predicate ValidDateTime(x: DateTime) {
    ValidDate(x.date) && ValidTime(x.time)
  }

  /** Days of the year before the first of month `m`. */
  function DaysBeforeMonth(y: int, m: int): int
    requires 1 <= m <= 12
  {
    var base := [0, 31, 59, 90, 120, 151, 181, 212, 243, 273, 304, 334][m - 1];
    if m > 2 && IsLeap(y) then base + 1 else base
  }

  /** Days before January 1st of year `y`, counted year by year from 0001. */
  function DaysBeforeYear(y: int): int
    requires y >= 1
    decreases y
  {
    if y == 1 then 0 else DaysBeforeYear(y - 1) + (if IsLeap(y - 1) then 366 else 365)
  }

  function Ordinal(d: Date): int
    requires ValidDate(d)
  {
    DaysBeforeYear(d.year) + DaysBeforeMonth(d.year, d.month) + d.day
  }

  function Weekday(d: Date): (w: int)
    requires ValidDate(d)
    ensures 0 <= w < 7
  {
    (Ordinal(d) + 6) % 7
  }

  function MicrosOfDay(t: TimeOfDay): int {
    ((t.hour * 60 + t.minute) * 60 + t.second) * 1_000_000 + t.micro
  }

  /** The instant a UTC date-time denotes, in microseconds. */
  function Instant(x: DateTime): int
    requires ValidDate(x.date)
  {
    Ordinal(x.date) * MicrosPerDay + MicrosOfDay(x.time)
  }

  /** `a > b` on aware datetimes. */
  predicate After(a: DateTime, b: DateTime)
    requires ValidDate(a.date) && ValidDate(b.date)
  {
    Instant(a) > Instant(b)
  }

  /** `a <= b` on aware datetimes; both sides are real calendar dates, as every Python datetime is. */
  predicate NotLater(a: DateTime, b: DateTime) {
    ValidDate(a.date) && ValidDate(b.date) && Instant(a) <= Instant(b)
  }

  /** `datetime.combine(d, t, tzinfo=UTC)` */
  function Combine(d: Date, t: TimeOfDay): (x: DateTime)
    ensures x.date == d && x.time == t
  {
    DateTime(d, t)
  }

  /** `d + timedelta(days=1)` */
  function NextDay(d: Date): (n: Date)
    requires ValidDate(d)
    ensures ValidDate(n)
  {
    if d.day < DaysInMonth(d.year, d.month) then Date(d.year, d.month, d.day + 1)
    else if d.month < 12 then Date(d.year, d.month + 1, 1)
    else Date(d.year + 1, 1, 1)
  }

  /** `d + timedelta(days=k)` */
  function AddDays(d: Date, k: nat): (n: Date)
    requires ValidDate(d)
    ensures ValidDate(n)
    decreases k
  {
    if k == 0 then d else AddDays(NextDay(d), k - 1)
  }

  /** `date.replace(day=day)` succeeds exactly when the day exists in that month. */
  function ReplaceDay(d: Date, day: int): (r: Option<Date>)
    requires ValidDate(d)
    ensures r.Some? <==> 1 <= day <= DaysInMonth(d.year, d.month)
    ensures r.Some? ==> ValidDate(r.value) && r.value == Date(d.year, d.month, day)
  {
    if 1 <= day <= DaysInMonth(d.year, d.month) then Some(Date(d.year, d.month, day))
    else None
  }

  /** The first day of the month after `d`'s, December rolling into January. */
  function FirstOfNextMonth(d: Date): (n: Date)
    requires ValidDate(d)
    ensures ValidDate(n) && n.day == 1
    ensures d.month == 12 ==> n.year == d.year + 1 && n.month == 1
    ensures d.month < 12 ==> n.year == d.year && n.month == d.month + 1
  {
    if d.month == 12 then Date(d.year + 1, 1, 1) else Date(d.year, d.month + 1, 1)
  }

  lemma DivStep4(y: int)
    requires y >= 1
    ensures y / 4 - (y - 1) / 4 == if y % 4 == 0 then 1 else 0
  {
  }

  lemma DivStep100(y: int)
    requires y >= 1
    ensures y / 100 - (y - 1) / 100 == if y % 100 == 0 then 1 else 0
  {
  }

  lemma DivStep400(y: int)
    requires y >= 1
    ensures y / 400 - (y - 1) / 400 == if y % 400 == 0 then 1 else 0
  {
  }

  /** The year-by-year count agrees with `datetime`'s closed form
      `365 * k + k // 4 - k // 100 + k // 400` for `k = y - 1`. */
  lemma {:induction false} DaysBeforeYearClosedForm(y: int)
    requires y >= 1
    ensures var k := y - 1; DaysBeforeYear(y) == 365 * k + k / 4 - k / 100 + k / 400
    decreases y
  {
    if y > 1 {
      var k := y - 1;
      DaysBeforeYearClosedForm(k);
      DivStep4(k);
      DivStep100(k);
      DivStep400(k);
      LeapDivisors(k);
    }
  }

  /** A multiple of 400 is a multiple of 100, and a multiple of 100 one of 4. */
  lemma LeapDivisors(y: int)
    ensures y % 400 == 0 ==> y % 100 == 0
    ensures y % 100 == 0 ==> y % 4 == 0
  {
    if y % 400 == 0 {
      var m := 4 * (y / 400);
      assert y == 100 * m;
      MultipleOf100(y, m);
    }
    if y % 100 == 0 {
      var m := 25 * (y / 100);
      assert y == 4 * m;
      MultipleOf4(y, m);
    }
  }

  lemma MultipleOf100(y: int, m: int)
    requires y == 100 * m
    ensures y % 100 == 0
  {
  }

  lemma MultipleOf4(y: int, m: int)
    requires y == 4 * m
    ensures y % 4 == 0
  {
  }

  lemma NextDayOrdinal(d: Date)
    requires ValidDate(d)
    ensures Ordinal(NextDay(d)) == Ordinal(d) + 1
  {
  }

  lemma {:induction false} AddDaysOrdinal(d: Date, k: nat)
    requires ValidDate(d)
    ensures Ordinal(AddDays(d, k)) == Ordinal(d) + k
    decreases k
  {
    if k > 0 {
      NextDayOrdinal(d);
      AddDaysOrdinal(NextDay(d), k - 1);
    }
  }

  lemma AddDaysWeekday(d: Date, k: nat)
    requires ValidDate(d)
    ensures Weekday(AddDays(d, k)) == (Weekday(d) + k) % 7
  {
    AddDaysOrdinal(d, k);
    ModSevenShift(Ordinal(d) + 6, k);
  }

  lemma ModSevenShift(a: int, k: int)
    ensures (a + k) % 7 == (a % 7 + k) % 7
  {
    var q := a / 7;
    assert a == 7 * q + a % 7;
    assert a + k == 7 * q + (a % 7 + k);
  }

  /** Valid dates with the same ordinal are the same date. */
  lemma OrdinalInjective(a: Date, b: Date)
    requires ValidDate(a) && ValidDate(b)
    requires Ordinal(a) == Ordinal(b)
    ensures a == b
  {
    if a.year < b.year {
      DaysBeforeYearMonotone(a.year + 1, b.year);
      OrdinalBelowNextYear(a);
      assert false;
    } else if b.year < a.year {
      DaysBeforeYearMonotone(b.year + 1, a.year);
      OrdinalBelowNextYear(b);
      assert false;
    } else if a.month != b.month {
      if a.month < b.month {
        DaysBeforeMonthGap(a.year, a.month, b.month);
      } else {
        DaysBeforeMonthGap(a.year, b.month, a.month);
      }
    }
  }

  lemma {:induction false} DaysBeforeYearMonotone(x: int, y: int)
    requires 1 <= x <= y
    ensures DaysBeforeYear(x) <= DaysBeforeYear(y)
    decreases y - x
  {
    if x < y {
      DaysBeforeYearMonotone(x + 1, y);
    }
  }

  lemma OrdinalBelowNextYear(d: Date)
    requires ValidDate(d)
    ensures Ordinal(d) <= DaysBeforeYear(d.year + 1)
  {
  }

  lemma DaysBeforeMonthGap(y: int, m1: int, m2: int)
    requires 1 <= m1 < m2 <= 12
    ensures DaysBeforeMonth(y, m1) + DaysInMonth(y, m1) <= DaysBeforeMonth(y, m2)
  {
  }
}
