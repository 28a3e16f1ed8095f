/**
 * Calendar days as pandas sees a `Date` column: a proleptic Gregorian
 * (year, month, day) with no time of day.  `DayNumber` counts days from
 * 1970-01-01 (the pandas epoch), which fixes the chronological order and
 * the day of the week (Monday = 0, as `Series.dt.dayofweek`).
 */
module Calendar {

  datatype Civil = Civil(year: int, month: int, day: int)

  predicate IsLeapYear(y: int) {
    y % 4 == 0 && (y % 100 != 0 || y % 400 == 0)
  }

  function DaysInMonth(y: int, m: int): (n: int)
    ensures 28 <= n <= 31
    ensures m == 2 ==> (n == 29 <==> IsLeapYear(y))
  {
    if m == 2 then (if IsLeapYear(y) then 29 else 28)
    else if m == 4 || m == 6 || m == 9 || m == 11 then 30
    else 31
  }

  predicate ValidCivil(c: Civil) {
    1 <= c.month <= 12 && 1 <= c.day <= DaysInMonth(c.year, c.month)
  }

  /** A real calendar day. */
  type Date = c: Civil | ValidCivil(c) witness Civil(1970, 1, 1)

  function YearLength(y: int): int {
    if IsLeapYear(y) then 366 else 365
  }

  /** Leap years among the years before `y`, counted relative to year 0. */
  function LeapYearsBefore(y: int): int {
    (y - 1) / 4 - (y - 1) / 100 + (y - 1) / 400
  }

  /** Days from 1970-01-01 to January 1st of year `y`. */
  function DaysBeforeYear(y: int): int {
    365 * (y - 1970) + LeapYearsBefore(y) - LeapYearsBefore(1970)
  }

  /** Days from January 1st of year `y` to the first day of month `m`. */
  function DaysBeforeMonth(y: int, m: int): int {
    var leap := if m > 2 && IsLeapYear(y) then 1 else 0;
    leap +
    if m <= 1 then 0 else if m == 2 then 31 else if m == 3 then 59
    else if m == 4 then 90 else if m == 5 then 120 else if m == 6 then 151
    else if m == 7 then 181 else if m == 8 then 212 else if m == 9 then 243
    else if m == 10 then 273 else if m == 11 then 304 else 334
  }

  /** Days since 1970-01-01 (negative before it). */
  function DayNumber(d: Date): int {
    DaysBeforeYear(d.year) + DaysBeforeMonth(d.year, d.month) + d.day - 1
  }

  /** Day of the week, Monday = 0 ... Sunday = 6; 1970-01-01 was a Thursday. */
  function DayOfWeek(d: Date): (w: int)
    ensures 0 <= w < 7
  {
    (DayNumber(d) + 3) % 7
  }

  /** Chronological order: the order pandas sorts a datetime column in. */
  predicate Before(a: Date, b: Date) {
    DayNumber(a) < DayNumber(b)
  }

  /** Order of (year, month, day) triples, field by field. */
  predicate LexBefore(a: Civil, b: Civil) {
    a.year < b.year ||
    (a.year == b.year && (a.month < b.month || (a.month == b.month && a.day < b.day)))
  }

  /** Stepping from `y - 1` to `y` crosses a multiple of `n` exactly when `y` is one. */
  lemma DivStep(y: int, n: int)
    requires n == 4 || n == 100 || n == 400
    ensures y / n - (y - 1) / n == if y % n == 0 then 1 else 0
  {
  }

  lemma LeapYearStep(y: int)
    ensures LeapYearsBefore(y + 1) - LeapYearsBefore(y) == if IsLeapYear(y) then 1 else 0
  {
    DivStep(y, 4);
    DivStep(y, 100);
    DivStep(y, 400);
  }

  lemma YearStep(y: int)
    ensures DaysBeforeYear(y + 1) == DaysBeforeYear(y) + YearLength(y)
  {
    LeapYearStep(y);
  }

  lemma MonthStep(y: int, m: int)
    requires 1 <= m < 12
    ensures DaysBeforeMonth(y, m + 1) == DaysBeforeMonth(y, m) + DaysInMonth(y, m)
  {
  }

  /** The day of the year, counted from 0, stays below the year's length. */
  lemma DayOfYearBounds(d: Date)
    ensures 0 <= DaysBeforeMonth(d.year, d.month) + d.day - 1 < YearLength(d.year)
  {
  }

  lemma {:induction false} YearsAreOrdered(y1: int, y2: int)
    requires y1 < y2
    ensures DaysBeforeYear(y1) + YearLength(y1) <= DaysBeforeYear(y2)
    decreases y2 - y1
  {
    YearStep(y1);
    if y1 + 1 < y2 {
      YearsAreOrdered(y1 + 1, y2);
    }
  }

  lemma MonthsAreOrdered(y: int, m1: int, m2: int)
    requires 1 <= m1 < m2 <= 12
    ensures DaysBeforeMonth(y, m1) + DaysInMonth(y, m1) <= DaysBeforeMonth(y, m2)
  {
  }

  /** Chronological order is the field-by-field order of (year, month, day). */
  lemma ChronologicalIsLexicographic(a: Date, b: Date)
    ensures Before(a, b) <==> LexBefore(a, b)
  {
    DayOfYearBounds(a);
    DayOfYearBounds(b);
    if a.year < b.year {
      YearsAreOrdered(a.year, b.year);
    } else if b.year < a.year {
      YearsAreOrdered(b.year, a.year);
    } else if a.month < b.month {
      MonthsAreOrdered(a.year, a.month, b.month);
    } else if b.month < a.month {
      MonthsAreOrdered(a.year, b.month, a.month);
    }
  }

  /** Two dates with the same day number are the same date. */
  lemma DayNumberInjective(a: Date, b: Date)
    requires DayNumber(a) == DayNumber(b)
    ensures a == b
  {
    ChronologicalIsLexicographic(a, b);
    ChronologicalIsLexicographic(b, a);
  }

  lemma WeekdayShift(n: int, k: int)
    ensures (n + 7 * k) % 7 == n % 7
    ensures (n + 1) % 7 == (n % 7 + 1) % 7
  {
  }

  /** `date + timedelta(days=1)`: the next calendar day. */
  function NextDay(d: Date): (r: Date)
    ensures DayNumber(r) == DayNumber(d) + 1
  {
    if d.day < DaysInMonth(d.year, d.month) then
      Civil(d.year, d.month, d.day + 1)
    else if d.month < 12 then
      MonthStep(d.year, d.month);
      Civil(d.year, d.month + 1, 1)
    else
      YearStep(d.year);
      Civil(d.year + 1, 1, 1)
  }

  /** The next day comes right after `d`: no date lies strictly between, and it
      falls on the following weekday. */
  lemma NextDayIsSuccessor(d: Date)
    ensures Before(d, NextDay(d))
    ensures forall e: Date :: Before(d, e) ==> !Before(e, NextDay(d))
    ensures DayOfWeek(NextDay(d)) == (DayOfWeek(d) + 1) % 7
  {
    WeekdayShift(DayNumber(d) + 3, 0);
  }

  /** `Timestamp.is_quarter_end`: the last day of March, June, September or December. */
  predicate IsQuarterEnd(d: Date) {
    d.month % 3 == 0 && d.day == DaysInMonth(d.year, d.month)
  }

  /** Quarter ends are exactly 31 Mar, 30 Jun, 30 Sep and 31 Dec, whatever the year. */
  lemma QuarterEndDates(d: Date)
    ensures IsQuarterEnd(d) <==>
      (d.month, d.day) in {(3, 31), (6, 30), (9, 30), (12, 31)}
  {
  }

  /** The options-expiration heuristic: a Friday whose day of the month is 15..21. */
  predicate IsOpex(d: Date) {
    DayOfWeek(d) == 4 && 15 <= d.day <= 21
  }

  /** An OPEX date is the third Friday of its month: the Fridays one and two weeks
      earlier fall in the same month, the one three weeks earlier does not. */
  lemma OpexIsThirdFriday(d: Date)
    requires IsOpex(d)
    ensures ValidCivil(Civil(d.year, d.month, d.day - 7)) && DayOfWeek(Civil(d.year, d.month, d.day - 7)) == 4
    ensures ValidCivil(Civil(d.year, d.month, d.day - 14)) && DayOfWeek(Civil(d.year, d.month, d.day - 14)) == 4
    ensures !ValidCivil(Civil(d.year, d.month, d.day - 21))
  {
    var w1: Date := Civil(d.year, d.month, d.day - 7);
    var w2: Date := Civil(d.year, d.month, d.day - 14);
    assert DayNumber(w1) + 3 == DayNumber(d) + 3 + 7 * -1;
    assert DayNumber(w2) + 3 == DayNumber(d) + 3 + 7 * -2;
    WeekdayShift(DayNumber(w1) + 3, 1);
    WeekdayShift(DayNumber(w2) + 3, 2);
  }

  /** 19 January 2024 was a Friday and that month's options expiration. */
  lemma January19th2024IsOpex()
    ensures IsOpex(Civil(2024, 1, 19))
    ensures !IsOpex(Civil(2024, 1, 12))
  {
  }
}
