/** Naive UTC timestamps as the database stores them, and the quota windows cut out of them. */
module Calendar {

  const MICROS_PER_SECOND: int := 1_000_000
  const MICROS_PER_DAY: int := 86_400 * MICROS_PER_SECOND

  predicate IsLeap(year: int) {
    year % 4 == 0 && (year % 100 != 0 || year % 400 == 0)
  }

  function DaysInMonth(year: int, month: int): (n: int) {
    if month == 2 then (if IsLeap(year) then 29 else 28)
    else if month == 4 || month == 6 || month == 9 || month == 11 then 30
    else 31
  }

  datatype Date = Date(year: int, month: int, day: int) {
    predicate Valid() {
      1 <= month <= 12 && 1 <= day <= DaysInMonth(year, month)
    }
  }

  datatype Stamp = Stamp(date: Date, micros: int) {
    predicate Valid() {
      date.Valid() && 0 <= micros < MICROS_PER_DAY
    }
  }

  /** A timestamp that exists on the calendar. */
  type DateTime = t: Stamp | t.Valid() witness Stamp(Date(1970, 1, 1), 0)

  predicate DateBefore(a: Date, b: Date) {
    a.year < b.year
    || (a.year == b.year && (a.month < b.month || (a.month == b.month && a.day < b.day)))
  }

  /** Field by field comparison, most significant field first. */
  predicate Before(a: DateTime, b: DateTime) {
    DateBefore(a.date, b.date) || (a.date == b.date && a.micros < b.micros)
  }

  predicate AtOrAfter(a: DateTime, b: DateTime) {
    !Before(a, b)
  }

  function NextDay(d: Date): (n: Date)
    requires d.Valid()
    ensures n.Valid() && DateBefore(d, n)
  {
    if d.day < DaysInMonth(d.year, d.month) then d.(day := d.day + 1)
    else if d.month < 12 then Date(d.year, d.month + 1, 1)
    else Date(d.year + 1, 1, 1)
  }

  function PreviousDay(d: Date): (n: Date)
    requires d.Valid()
    ensures n.Valid() && NextDay(n) == d
  {
    if d.day > 1 then d.(day := d.day - 1)
    else if d.month > 1 then Date(d.year, d.month - 1, DaysInMonth(d.year, d.month - 1))
    else Date(d.year - 1, 12, 31)
  }

  function AddDays(d: Date, n: int): (r: Date)
    requires d.Valid()
    ensures r.Valid()
    ensures n > 0 ==> DateBefore(d, r)
    ensures n == 0 ==> r == d
    ensures n < 0 ==> DateBefore(r, d)
    decreases if n < 0 then -n else n
  {
    if n == 0 then d
    else if n > 0 then AddDays(NextDay(d), n - 1)
    else AddDays(PreviousDay(d), n + 1)
  }

  /** `t` plus a whole number of seconds, on either side of zero. */
  function AddSeconds(t: DateTime, seconds: int): (r: DateTime)
    ensures seconds > 0 ==> Before(t, r)
    ensures seconds == 0 ==> r == t
    ensures seconds < 0 ==> Before(r, t)
  {
    var micros := t.micros + seconds * MICROS_PER_SECOND;
    Stamp(AddDays(t.date, micros / MICROS_PER_DAY), micros % MICROS_PER_DAY)
  }

  // ----- the calendar counted in days

  /** Days before the first of January of a year, counted from a fixed day. */
  function DaysBeforeYear(year: int): int {
    365 * year + (year - 1) / 4 - (year - 1) / 100 + (year - 1) / 400
  }

  function DaysBeforeMonth(year: int, month: int): int
    requires 1 <= month <= 12
  {
    [0, 31, 59, 90, 120, 151, 181, 212, 243, 273, 304, 334][month - 1] + if month > 2 && IsLeap(year) then 1 else 0
  }

  function DayNumber(d: Date): int
    requires d.Valid()
  {
    DaysBeforeYear(d.year) + DaysBeforeMonth(d.year, d.month) + d.day
  }

  /** Microseconds from a fixed instant. */
  function Instant(t: DateTime): int {
    DayNumber(t.date) * MICROS_PER_DAY + t.micros
  }

  lemma FourthYears(year: int)
    ensures year / 4 == (year - 1) / 4 + if year % 4 == 0 then 1 else 0
  {
  }

  lemma HundredthYears(year: int)
    ensures year / 100 == (year - 1) / 100 + if year % 100 == 0 then 1 else 0
  {
  }

  lemma FourHundredthYears(year: int)
    ensures year / 400 == (year - 1) / 400 + if year % 400 == 0 then 1 else 0
    ensures year % 400 == 0 ==> year % 100 == 0
    ensures year % 100 == 0 ==> year % 4 == 0
  {
  }

  lemma YearLength(year: int)
    ensures DaysBeforeYear(year + 1) == DaysBeforeYear(year) + if IsLeap(year) then 366 else 365
  {
    FourthYears(year);
    HundredthYears(year);
    FourHundredthYears(year);
  }

  lemma NextDayIsOneLater(d: Date)
    requires d.Valid()
    ensures DayNumber(NextDay(d)) == DayNumber(d) + 1
  {
    YearLength(d.year);
  }

  lemma {:induction false} AddDaysCounts(d: Date, n: int)
    requires d.Valid()
    ensures DayNumber(AddDays(d, n)) == DayNumber(d) + n
    decreases if n < 0 then -n else n
  {
    if n > 0 {
      NextDayIsOneLater(d);
      AddDaysCounts(NextDay(d), n - 1);
    } else if n < 0 {
      NextDayIsOneLater(PreviousDay(d));
      AddDaysCounts(PreviousDay(d), n + 1);
    }
  }

  /** Adding seconds moves a time by exactly so many of them. */
  lemma AddSecondsMoves(t: DateTime, seconds: int)
    ensures Instant(AddSeconds(t, seconds)) == Instant(t) + seconds * 1_000_000
  {
    var micros := t.micros + seconds * MICROS_PER_SECOND;
    AddDaysCounts(t.date, micros / MICROS_PER_DAY);
    assert micros == micros / MICROS_PER_DAY * MICROS_PER_DAY + micros % MICROS_PER_DAY;
  }

  lemma {:induction false} YearsInOrder(a: int, b: int)
    requires a < b
    ensures DaysBeforeYear(a) + (if IsLeap(a) then 366 else 365) <= DaysBeforeYear(b)
    decreases b - a
  {
    YearLength(a);
    if a + 1 < b {
      YearsInOrder(a + 1, b);
    }
  }

  lemma DatesInOrder(a: Date, b: Date)
    requires a.Valid() && b.Valid() && DateBefore(a, b)
    ensures DayNumber(a) < DayNumber(b)
  {
    if a.year < b.year {
      YearsInOrder(a.year, b.year);
    }
  }

  /** Comparing field by field is comparing instants. */
  lemma BeforeMeansEarlier(a: DateTime, b: DateTime)
    ensures Before(a, b) <==> Instant(a) < Instant(b)
  {
    if DateBefore(a.date, b.date) {
      DatesInOrder(a.date, b.date);
    } else if DateBefore(b.date, a.date) {
      DatesInOrder(b.date, a.date);
    }
  }

  /** A UTC calendar day or a UTC calendar month. */
  datatype Window = Day(date: Date) | Month(year: int, month: int) {
    predicate Contains(t: DateTime) {
      match this
      case Day(d) => t.date == d
      case Month(y, m) => t.date.year == y && t.date.month == m
    }

    predicate EndsBefore(t: DateTime) {
      match this
      case Day(d) => DateBefore(d, t.date)
      case Month(y, m) => y < t.date.year || (y == t.date.year && m < t.date.month)
    }
  }

  function DayOf(t: DateTime): (w: Window)
    ensures w.Contains(t)
  {
    Day(t.date)
  }

  function MonthOf(t: DateTime): (w: Window)
    ensures w.Contains(t)
  {
    Month(t.date.year, t.date.month)
  }

  /** First instant of the day and of the month that `now` lies in. */
  function DailyMonthlyBounds(now: DateTime): (r: (DateTime, DateTime))
    ensures AtOrAfter(r.0, r.1) && AtOrAfter(now, r.0)
  {
    (Stamp(now.date, 0), Stamp(Date(now.date.year, now.date.month, 1), 0))
  }

  /** The two bounds split time exactly: at or after a bound means in its window or later than all of it. */
  lemma BoundsCutWindows(now: DateTime, t: DateTime)
    ensures AtOrAfter(t, DailyMonthlyBounds(now).0) <==> DayOf(now).Contains(t) || DayOf(now).EndsBefore(t)
    ensures AtOrAfter(t, DailyMonthlyBounds(now).1) <==> MonthOf(now).Contains(t) || MonthOf(now).EndsBefore(t)
  {
  }

  lemma BeforeIsTransitive(a: DateTime, b: DateTime, c: DateTime)
    requires AtOrAfter(b, a) && AtOrAfter(c, b)
    ensures AtOrAfter(c, a)
  {
  }
}
