/**
 * Calendar values as integer tuples. Months are numbered 0..11, as
 * `Date.prototype.getMonth` returns them; the Gregorian leap-year rule applies.
 */
module Calendar {

  datatype Day = Day(year: int, month: int, day: int)
  datatype Month = Month(year: int, month: int)

  /** A local wall-clock instant: a calendar day and the milliseconds into it. */
  datatype Instant = Instant(day: Day, millis: int)

  function MonthOf(d: Day): Month {
    Month(d.year, d.month)
  }

  predicate ValidMonth(m: Month) {
    0 <= m.month < 12
  }

  /** Months counted consecutively: January of year 0 is 0. */
  function MonthOrd(m: Month): int {
    12 * m.year + m.month
  }

  function MonthFromOrd(k: int): (m: Month)
    ensures ValidMonth(m) && MonthOrd(m) == k
  {
    Month(k / 12, k % 12)
  }

  lemma MonthOrdInjective(a: Month, b: Month)
    requires ValidMonth(a) && ValidMonth(b) && MonthOrd(a) == MonthOrd(b)
    ensures a == b
  {
  }

  predicate IsLeap(y: int) {
    y % 4 == 0 && (y % 100 != 0 || y % 400 == 0)
  }

  function DaysIn(m: Month): (n: int)
    requires ValidMonth(m)
    ensures 28 <= n <= 31
  {
    if m.month == 1 then (if IsLeap(m.year) then 29 else 28)
    else if m.month == 3 || m.month == 5 || m.month == 8 || m.month == 10 then 30
    else 31
  }

  predicate ValidDay(d: Day) {
    ValidMonth(MonthOf(d)) && 1 <= d.day <= DaysIn(MonthOf(d))
  }

  predicate ValidInstant(t: Instant) {
    ValidDay(t.day) && 0 <= t.millis < 86400000
  }

  /** Chronological order of days. */
  predicate DayLt(a: Day, b: Day) {
    a.year < b.year
    || (a.year == b.year && a.month < b.month)
    || (a.year == b.year && a.month == b.month && a.day < b.day)
  }

  predicate DayLe(a: Day, b: Day) {
    DayLt(a, b) || a == b
  }

  /** Chronological order of instants (`a < b` on two `Date` objects). */
  predicate Before(a: Instant, b: Instant) {
    DayLt(a.day, b.day) || (a.day == b.day && a.millis < b.millis)
  }

  /** The earlier of two days also has the earlier (or the same) month. */
  lemma DayLeMonth(a: Day, b: Day)
    requires ValidDay(a) && ValidDay(b) && DayLe(a, b)
    ensures MonthOrd(MonthOf(a)) <= MonthOrd(MonthOf(b))
  {
  }

  /**
   * `d.setMonth(d.getMonth() + k)`: move `k` months forward keeping the day of
   * the month; a day past the end of the target month rolls over into the next
   * month, as `Date` does (31 December plus 2 months is 2 or 3 March).
   */
  function AddMonths(d: Day, k: nat): (r: Day)
    requires ValidDay(d)
    ensures ValidDay(r)
    ensures var target := MonthOrd(MonthOf(d)) + k;
      if d.day <= DaysIn(MonthFromOrd(target)) then
        MonthOrd(MonthOf(r)) == target && r.day == d.day
      else
        MonthOrd(MonthOf(r)) == target + 1 && r.day == d.day - DaysIn(MonthFromOrd(target))
  {
    var target := MonthFromOrd(MonthOrd(MonthOf(d)) + k);
    if d.day <= DaysIn(target) then
      Day(target.year, target.month, d.day)
    else
      var next := MonthFromOrd(MonthOrd(target) + 1);
      Day(next.year, next.month, d.day - DaysIn(target))
  }

  /** Moving forward by at least one month gives a strictly later day. */
  lemma AddMonthsLater(d: Day, k: nat)
    requires ValidDay(d) && k >= 1
    ensures DayLt(d, AddMonths(d, k))
  {
    var r := AddMonths(d, k);
    assert MonthOrd(MonthOf(r)) > MonthOrd(MonthOf(d));
  }

  /** Up to day 28 no month overflows: the result is the same day `k` months on. */
  lemma AddMonthsNoOverflow(d: Day, k: nat)
    requires ValidDay(d) && d.day <= 28
    ensures AddMonths(d, k) == Day(MonthFromOrd(MonthOrd(MonthOf(d)) + k).year,
                                   MonthFromOrd(MonthOrd(MonthOf(d)) + k).month, d.day)
  {
  }
}
