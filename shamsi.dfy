/**
 * The Solar Hijri (Shamsi) month arithmetic behind the admin order list's
 * "this month" and "last month" date filters (orders/views.py).
 */
module Shamsi {
  datatype ShamsiDate = ShamsiDate(year: int, month: int, day: int)

  predicate IsMonth(m: int)
  {
    1 <= m <= 12
  }

  /** Days in month `m`: 31 for the first six, 30 for the next five, 29 or 30 for Esfand. */
  function MonthLength(m: int, leap: bool): (r: nat)
    requires IsMonth(m)
    ensures 1 <= m <= 6 ==> r == 31
    ensures 7 <= m <= 11 ==> r == 30
    ensures m == 12 ==> r == (if leap then 30 else 29)
  {
    if m <= 6 then 31 else if m <= 11 then 30 else if leap then 30 else 29
  }

  /** Days in the first `k` months of a year. */
  function DaysBefore(k: int, leap: bool): nat
    requires 0 <= k <= 12
  {
    if k == 0 then 0 else DaysBefore(k - 1, leap) + MonthLength(k, leap)
  }

  /** The twelve months make a year of 365 days, or 366 in a leap year. */
  lemma YearLength(leap: bool)
    ensures DaysBefore(12, leap) == if leap then 366 else 365
  {
    assert DaysBefore(1, leap) == 31;
    assert DaysBefore(2, leap) == 62;
    assert DaysBefore(3, leap) == 93;
    assert DaysBefore(4, leap) == 124;
    assert DaysBefore(5, leap) == 155;
    assert DaysBefore(6, leap) == 186;
    assert DaysBefore(7, leap) == 216;
    assert DaysBefore(8, leap) == 246;
    assert DaysBefore(9, leap) == 276;
    assert DaysBefore(10, leap) == 306;
    assert DaysBefore(11, leap) == 336;
  }

  /** The month before (year, m): month 12 of the previous year when m is 1. */
  function PreviousMonth(year: int, m: int): (r: (int, int))
    requires IsMonth(m)
    ensures IsMonth(r.1)
    ensures m == 1 ==> r == (year - 1, 12)
    ensures m > 1 ==> r == (year, m - 1)
  {
    if m == 1 then (year - 1, 12) else (year, m - 1)
  }

  function NextMonth(year: int, m: int): (r: (int, int))
    requires IsMonth(m)
    ensures IsMonth(r.1)
  {
    if m == 12 then (year + 1, 1) else (year, m + 1)
  }

  /** Stepping back a month and forward again returns to the same month, and the other way round. */
  lemma PreviousNextInverse(year: int, m: int)
    requires IsMonth(m)
    ensures var p := PreviousMonth(year, m); NextMonth(p.0, p.1) == (year, m)
    ensures var n := NextMonth(year, m); PreviousMonth(n.0, n.1) == (year, m)
  {
  }

  /** First and last day of a month, as the filter bounds them. */
  function MonthBounds(year: int, m: int, leap: bool): (r: (ShamsiDate, ShamsiDate))
    requires IsMonth(m)
    ensures r.0 == ShamsiDate(year, m, 1)
    ensures r.1.year == year && r.1.month == m && r.1.day == MonthLength(m, leap)
  {
    (ShamsiDate(year, m, 1), ShamsiDate(year, m, MonthLength(m, leap)))
  }

  predicate ValidDate(d: ShamsiDate, leap: bool)
  {
    IsMonth(d.month) && 1 <= d.day <= MonthLength(d.month, leap)
  }

  predicate NotAfter(a: ShamsiDate, b: ShamsiDate)
  {
    a.year < b.year || (a.year == b.year && (a.month < b.month || (a.month == b.month && a.day <= b.day)))
  }

  /** A valid date falls within a month's bounds exactly when it is in that month. */
  lemma WithinBoundsIffSameMonth(d: ShamsiDate, year: int, m: int, leap: bool)
    requires IsMonth(m) && ValidDate(d, leap)
    ensures var b := MonthBounds(year, m, leap);
      (NotAfter(b.0, d) && NotAfter(d, b.1)) <==> (d.year == year && d.month == m)
  {
  }

  /** The "this month" filter's bounds; `leap` is whether the current year is leap. */
  function ThisMonthRange(today: ShamsiDate, leap: bool): (r: (ShamsiDate, ShamsiDate))
    requires IsMonth(today.month)
    ensures r == MonthBounds(today.year, today.month, leap)
  {
    MonthBounds(today.year, today.month, leap)
  }

  /**
   * The "last month" filter's bounds. `isLeap` answers for a year; the filter
   * asks it about the year the previous month lies in.
   */
  function LastMonthRange(today: ShamsiDate, isLeap: int -> bool): (r: (ShamsiDate, ShamsiDate))
    requires IsMonth(today.month)
    ensures today.month == 1 ==>
      r.0 == ShamsiDate(today.year - 1, 12, 1) && r.1.day == (if isLeap(today.year - 1) then 30 else 29)
    ensures today.month > 1 ==> r == MonthBounds(today.year, today.month - 1, isLeap(today.year))
  {
    var p := PreviousMonth(today.year, today.month);
    MonthBounds(p.0, p.1, isLeap(p.0))
  }

  /** The last-month range ends on the day before this month's range starts. */
  lemma LastMonthAdjoinsThisMonth(today: ShamsiDate, isLeap: int -> bool)
    requires IsMonth(today.month)
    ensures var last := LastMonthRange(today, isLeap);
      var p := PreviousMonth(today.year, today.month);
      NextMonth(last.1.year, last.1.month) == (today.year, today.month)
      && last.1.day == MonthLength(p.1, isLeap(p.0))
  {
  }
}
