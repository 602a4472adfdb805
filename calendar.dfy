/**
 * Proleptic Gregorian calendar arithmetic: what pandas' Timestamp exposes as
 * `.hour`, `.dayofweek` and `.month`, computed from a structured date record.
 */
module Calendar {

  /** A date and time of day, as parsed from timestamp text. */
  datatype DateTime = DateTime(year: int, month: int, day: int, hour: int, minute: int, second: int)

  predicate IsLeapYear(y: int) {
    y % 4 == 0 && (y % 100 != 0 || y % 400 == 0)
  }

  function DaysInMonth(y: int, m: int): (n: int)
    requires 1 <= m <= 12
    ensures 28 <= n <= 31
    ensures m == 2 ==> (n == 29 <==> IsLeapYear(y))
  {
    if m == 2 then (if IsLeapYear(y) then 29 else 28)
    else if m == 4 || m == 6 || m == 9 || m == 11 then 30
    else 31
  }

  predicate IsValid(d: DateTime) {
    && 1 <= d.month <= 12
    && 1 <= d.day <= DaysInMonth(d.year, d.month)
    && 0 <= d.hour < 24
    && 0 <= d.minute < 60
    && 0 <= d.second < 60
  }

  /** A timestamp that names a real instant (what a parsed pandas Timestamp is). */
  type Timestamp = d: DateTime | IsValid(d) witness DateTime(1970, 1, 1, 0, 0, 0)

  /** Days from 0000-03-01 to March 1 of the March-based year `y`. */
  function YearStart(y: int): int {
    365 * y + y / 4 - y / 100 + y / 400
  }

  /** Days from March 1 to the first day of the `mp`-th month counted from March. */
  function MonthStart(mp: int): int
    requires 0 <= mp < 12
  {
    (153 * mp + 2) / 5
  }

  /**
   * Days from 1970-01-01 to the given civil date (Hinnant's days_from_civil);
   * Dafny's `/` by a positive constant rounds down, as the algorithm needs.
   */
  function DaysFromCivil(y: int, m: int, d: int): int
    requires 1 <= m <= 12
  {
    var yy := if m <= 2 then y - 1 else y;
    var mp := if m > 2 then m - 3 else m + 9;
    YearStart(yy) + MonthStart(mp) + d - 1 - 719468
  }

  function DayNumber(t: Timestamp): int {
    DaysFromCivil(t.year, t.month, t.day)
  }

  /** pandas `dayofweek`: 0 = Monday .. 6 = Sunday; 1970-01-01 was a Thursday (3). */
  function DayOfWeek(t: Timestamp): (w: int)
    ensures 0 <= w <= 6
  {
    (DayNumber(t) + 3) % 7
  }

  /** Seconds since 1970-01-01 00:00:00: the order in which timestamps sort. */
  function Instant(t: Timestamp): int {
    ((DayNumber(t) * 24 + t.hour) * 60 + t.minute) * 60 + t.second
  }

  /** The same time of day on the following calendar day. */
  function NextDay(t: Timestamp): (u: Timestamp)
    ensures u.hour == t.hour && u.minute == t.minute && u.second == t.second
  {
    if t.day < DaysInMonth(t.year, t.month) then
      DateTime(t.year, t.month, t.day + 1, t.hour, t.minute, t.second)
    else if t.month < 12 then
      DateTime(t.year, t.month + 1, 1, t.hour, t.minute, t.second)
    else
      DateTime(t.year + 1, 1, 1, t.hour, t.minute, t.second)
  }

  /** A March-based year has 366 days exactly when the February it ends with is a leap February. */
  lemma {:induction false} YearLength(y: int)
    ensures YearStart(y + 1) - YearStart(y) == if IsLeapYear(y + 1) then 366 else 365
  {
    assert (y + 1) / 4 - y / 4 == if (y + 1) % 4 == 0 then 1 else 0;
    assert (y + 1) / 100 - y / 100 == if (y + 1) % 100 == 0 then 1 else 0;
    assert (y + 1) / 400 - y / 400 == if (y + 1) % 400 == 0 then 1 else 0;
    assert (y + 1) % 100 == 0 ==> (y + 1) % 4 == 0;
    assert (y + 1) % 400 == 0 ==> (y + 1) % 100 == 0;
  }

  /** The month starts of the March-based year, month by month. */
  lemma MonthStartTable(mp: int)
    requires 0 <= mp < 11
    ensures MonthStart(mp + 1) - MonthStart(mp) == [31, 30, 31, 30, 31, 31, 30, 31, 30, 31, 31][mp]
  {
    if mp == 0 {} else if mp == 1 {} else if mp == 2 {} else if mp == 3 {} else if mp == 4 {}
    else if mp == 5 {} else if mp == 6 {} else if mp == 7 {} else if mp == 8 {} else if mp == 9 {}
    else {}
  }

  /** From the last day of a month other than February and December to the first of the next. */
  lemma {:induction false} NextMonthStart(y: int, m: int)
    requires 1 <= m < 12 && m != 2
    ensures DaysFromCivil(y, m + 1, 1) == DaysFromCivil(y, m, DaysInMonth(y, m)) + 1
  {
    var mp := if m > 2 then m - 3 else m + 9;
    MonthStartTable(mp);
  }

  /** From February's last day to March 1, which starts the next March-based year. */
  lemma {:induction false} MarchFirst(y: int)
    ensures DaysFromCivil(y, 3, 1) == DaysFromCivil(y, 2, DaysInMonth(y, 2)) + 1
  {
    YearLength(y - 1);
    assert MonthStart(11) == 337;
  }

  /** From December 31 to January 1, both in the same March-based year. */
  lemma NewYear(y: int)
    ensures DaysFromCivil(y + 1, 1, 1) == DaysFromCivil(y, 12, 31) + 1
  {
    assert MonthStart(9) == 275 && MonthStart(10) == 306;
  }

  /** The day number advances by exactly one from any date to the next one. */
  lemma {:induction false} NextDayIsOneDayLater(t: Timestamp)
    ensures DayNumber(NextDay(t)) == DayNumber(t) + 1
  {
    if t.day < DaysInMonth(t.year, t.month) {
    } else if t.month == 2 {
      MarchFirst(t.year);
    } else if t.month < 12 {
      NextMonthStart(t.year, t.month);
    } else {
      NewYear(t.year);
    }
  }

  /** Consecutive calendar days have consecutive weekdays, Sunday (6) wrapping to Monday (0). */
  lemma DayOfWeekAdvances(t: Timestamp)
    ensures DayOfWeek(NextDay(t)) == (DayOfWeek(t) + 1) % 7
  {
    NextDayIsOneDayLater(t);
    WeekdaySuccessor(DayNumber(t) + 3);
  }

  /** Adding one to a day count moves its weekday on by one, modulo the week. */
  lemma WeekdaySuccessor(n: int)
    ensures (n + 1) % 7 == (n % 7 + 1) % 7
  {
    var q, k := n / 7, n % 7;
    assert n == 7 * q + k;
    if k + 1 < 7 {
      assert n + 1 == 7 * q + (k + 1);
    } else {
      assert n + 1 == 7 * (q + 1);
    }
  }

  /** The anchor of the weekday numbering: 1970-01-01 is day 0 and a Thursday. */
  lemma EpochIsThursday()
    ensures DayNumber(DateTime(1970, 1, 1, 0, 0, 0)) == 0
    ensures DayOfWeek(DateTime(1970, 1, 1, 0, 0, 0)) == 3
  {
  }

  /** 2025-12-07 was a Sunday. */
  lemma December7th2025IsSunday()
    ensures DayOfWeek(DateTime(2025, 12, 7, 15, 0, 0)) == 6
  {
  }
}
