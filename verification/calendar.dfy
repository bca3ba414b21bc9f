/** The part of JavaScript's `Date` the application relies on, over local
    calendar dates: a date is (full year, zero-based month as `getMonth()`
    returns it, day of month as `getDate()` returns it), and a day number counts
    days since 1970-01-01 in the proleptic Gregorian calendar. Comparing two
    local-midnight instants is comparing their day numbers. */
module Calendar {

  predicate IsLeap(y: int) {
    y % 4 == 0 && (y % 100 != 0 || y % 400 == 0)
  }

  /** `new Date(y, m0 + 1, 0).getDate()`. */
  function DaysInMonth(y: int, m0: int): (n: int)
    requires 0 <= m0 < 12
    ensures 28 <= n <= 31
    ensures n == 29 <==> m0 == 1 && IsLeap(y)
  {
    if m0 == 1 then (if IsLeap(y) then 29 else 28)
    else if m0 == 3 || m0 == 5 || m0 == 8 || m0 == 10 then 30
    else 31
  }

  /** Days of year `y` before the first of month `m0`. */
  function DaysBeforeMonth(y: int, m0: int): int
    requires 0 <= m0 <= 12
  {
    if m0 == 0 then 0 else DaysBeforeMonth(y, m0 - 1) + DaysInMonth(y, m0 - 1)
  }

  /** Length of year `y` in days. */
  function YearDays(y: int): int {
    if IsLeap(y) then 366 else 365
  }

  /** Day number of January 1st of year `y`: 1970 starts at day 0, and each
      year starts one year length after the one before. */
  function YearStart(y: int): int
    decreases if y >= 1970 then y - 1970 else 1970 - y
  {
    if y == 1970 then 0
    else if y > 1970 then YearStart(y - 1) + YearDays(y - 1)
    else YearStart(y + 1) - YearDays(y)
  }

  /** The day number of `new Date(y, m0, d)` at local midnight. The day may lie
      outside the month: JavaScript rolls it over into the neighbouring months,
      and so does this linear formula. */
  function DayNumber(y: int, m0: int, d: int): int
    requires 0 <= m0 < 12
  {
    YearStart(y) + DaysBeforeMonth(y, m0) + d - 1
  }

  datatype Date = Date(year: int, month: int, day: int)
  {
    predicate Valid() {
      0 <= month < 12 && 1 <= day <= DaysInMonth(year, month)
    }
  }

  /** A date a JavaScript `Date` can report through its local getters. */
  type CalDate = d: Date | d.Valid() witness Date(1970, 0, 1)

  function Num(d: CalDate): int {
    DayNumber(d.year, d.month, d.day)
  }

  /** `getDay()`: 0 is Sunday; 1970-01-01 was a Thursday. */
  function Weekday(dn: int): (w: int)
    ensures 0 <= w < 7
  {
    (dn + 4) % 7
  }

  lemma EpochIsDayZero()
    ensures Num(Date(1970, 0, 1)) == 0
    ensures Weekday(0) == 4
  {
  }

  /** A year has 366 days exactly when it is a leap year. */
  lemma {:induction false} YearLength(y: int)
    ensures YearStart(y + 1) - YearStart(y) == (if IsLeap(y) then 366 else 365)
  {
    if y + 1 == 1970 {
      assert YearStart(y) == YearStart(y + 1) - YearDays(y);
    }
  }

  lemma {:induction false} DaysBeforeYearEnd(y: int)
    ensures DaysBeforeMonth(y, 12) == YearStart(y + 1) - YearStart(y)
  {
    YearLength(y);
    var f := if IsLeap(y) then 1 else 0;
    assert DaysBeforeMonth(y, 1) == 31;
    assert DaysBeforeMonth(y, 2) == 59 + f;
    assert DaysBeforeMonth(y, 3) == 90 + f;
    assert DaysBeforeMonth(y, 4) == 120 + f;
    assert DaysBeforeMonth(y, 5) == 151 + f;
    assert DaysBeforeMonth(y, 6) == 181 + f;
    assert DaysBeforeMonth(y, 7) == 212 + f;
    assert DaysBeforeMonth(y, 8) == 243 + f;
    assert DaysBeforeMonth(y, 9) == 273 + f;
    assert DaysBeforeMonth(y, 10) == 304 + f;
    assert DaysBeforeMonth(y, 11) == 334 + f;
    assert DaysBeforeMonth(y, 12) == 365 + f;
  }

  lemma {:induction false} DaysBeforeMonotone(y: int, a: int, b: int)
    requires 0 <= a <= b <= 12
    ensures DaysBeforeMonth(y, b) - DaysBeforeMonth(y, a) >= 28 * (b - a)
    decreases b - a
  {
    if a < b {
      DaysBeforeMonotone(y, a, b - 1);
    }
  }

  lemma {:induction false} YearStartMonotone(a: int, b: int)
    requires a <= b
    ensures YearStart(b) - YearStart(a) >= 365 * (b - a)
    decreases b - a
  {
    if a < b {
      YearStartMonotone(a, b - 1);
      YearLength(b - 1);
    }
  }

  /** A valid date's day number lies inside its month and its year. */
  lemma DayNumberBounds(d: CalDate)
    ensures DayNumber(d.year, d.month, 1) <= Num(d) < DayNumber(d.year, d.month, 1) + DaysInMonth(d.year, d.month)
    ensures YearStart(d.year) <= Num(d) < YearStart(d.year + 1)
  {
    DaysBeforeMonotone(d.year, 0, d.month);
    DaysBeforeMonotone(d.year, d.month + 1, 12);
    assert DaysBeforeMonth(d.year, d.month + 1) == DaysBeforeMonth(d.year, d.month) + DaysInMonth(d.year, d.month);
    DaysBeforeYearEnd(d.year);
  }

  /** A date of an earlier year has a smaller day number. */
  lemma EarlierYear(a: CalDate, b: CalDate)
    requires a.year < b.year
    ensures Num(a) < Num(b)
  {
    DayNumberBounds(a);
    DayNumberBounds(b);
    YearStartMonotone(a.year + 1, b.year);
  }

  /** A date of an earlier month of the same year has a smaller day number. */
  lemma EarlierMonth(a: CalDate, b: CalDate)
    requires a.year == b.year && a.month < b.month
    ensures Num(a) < Num(b)
  {
    assert DaysBeforeMonth(a.year, a.month + 1) == DaysBeforeMonth(a.year, a.month) + DaysInMonth(a.year, a.month);
    DaysBeforeMonotone(a.year, a.month + 1, b.month);
  }

  /** Distinct calendar dates have distinct day numbers, and the order of day
      numbers is the chronological order of (year, month, day). */
  lemma {:induction false} NumInjective(a: CalDate, b: CalDate)
    ensures Num(a) == Num(b) <==> a == b
    ensures Num(a) < Num(b) <==>
              (a.year < b.year || (a.year == b.year && (a.month < b.month || (a.month == b.month && a.day < b.day))))
  {
    if a.year < b.year {
      EarlierYear(a, b);
    } else if b.year < a.year {
      EarlierYear(b, a);
    } else if a.month < b.month {
      EarlierMonth(a, b);
    } else if b.month < a.month {
      EarlierMonth(b, a);
    }
  }

  /** December is the last 31 days before the next year starts. */
  lemma DecemberSpan(y: int)
    ensures DayNumber(y + 1, 0, 1) - DayNumber(y, 11, 1) == 31
  {
    DaysBeforeYearEnd(y);
    assert DaysBeforeMonth(y, 12) == DaysBeforeMonth(y, 11) + 31;
  }

  /** Within a year, a month starts as many days after the previous one as
      that one has. */
  lemma MonthSpan(y: int, m0: int)
    requires 1 <= m0 < 12
    ensures DayNumber(y, m0, 1) - DayNumber(y, m0 - 1, 1) == DaysInMonth(y, m0 - 1)
  {
  }

  /** The month before the one containing (y, m0), wrapping January to December
      of the previous year. */
  function PrevMonth(y: int, m0: int): (r: (int, int))
    requires 0 <= m0 < 12
    ensures 0 <= r.1 < 12
    ensures DayNumber(y, m0, 1) - DayNumber(r.0, r.1, 1) == DaysInMonth(r.0, r.1)
  {
    if m0 == 0 then
      DecemberSpan(y - 1);
      (y - 1, 11)
    else
      MonthSpan(y, m0);
      (y, m0 - 1)
  }

  /** The month after the one containing (y, m0), wrapping December to January
      of the next year. */
  function NextMonth(y: int, m0: int): (r: (int, int))
    requires 0 <= m0 < 12
    ensures 0 <= r.1 < 12
    ensures DayNumber(r.0, r.1, 1) - DayNumber(y, m0, 1) == DaysInMonth(y, m0)
  {
    if m0 == 11 then
      DecemberSpan(y);
      (y + 1, 0)
    else
      MonthSpan(y, m0 + 1);
      (y, m0 + 1)
  }

  /** The month before the month after is the month itself. */
  lemma NextThenPrev(y: int, m0: int)
    requires 0 <= m0 < 12
    ensures var n := NextMonth(y, m0);
            PrevMonth(n.0, n.1) == (y, m0)
  {
  }

  /** `new Date(y, m0, k)` for a day `k` at most three past the end of the
      month: a date early in the next month. */
  function DayPastEnd(y: int, m0: int, k: int): (r: CalDate)
    requires 0 <= m0 < 12 && DaysInMonth(y, m0) < k <= DaysInMonth(y, m0) + 3
    ensures Num(r) == DayNumber(y, m0, k)
  {
    var next := NextMonth(y, m0);
    RollOver(y, m0, k);
    Date(next.0, next.1, k - DaysInMonth(y, m0))
  }

  /** A day `k` past the end of a month is day `k - length` of the next one,
      as `new Date(y, m, k)` rolls it over. */
  lemma RollOver(y: int, m0: int, k: int)
    requires 0 <= m0 < 12 && DaysInMonth(y, m0) < k <= DaysInMonth(y, m0) + 3
    ensures var next := NextMonth(y, m0);
            && Date(next.0, next.1, k - DaysInMonth(y, m0)).Valid()
            && DayNumber(next.0, next.1, k - DaysInMonth(y, m0)) == DayNumber(y, m0, k)
  {
    var next := NextMonth(y, m0);
    assert DaysInMonth(next.0, next.1) >= 28;
  }
}
