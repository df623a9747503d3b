/** Calendar dates of the proleptic Gregorian calendar, as Python's `datetime.date`
    represents them: comparison is by (year, month, day), and subtraction counts days. */
module Dates {

  datatype Date = Date(year: int, month: int, day: int)

  predicate IsLeap(y: int) {
    y % 4 == 0 && (y % 100 != 0 || y % 400 == 0)
  }

  function DaysInMonth(y: int, m: int): int
    requires 1 <= m <= 12
  {
    if m == 2 then (if IsLeap(y) then 29 else 28)
    else if m == 4 || m == 6 || m == 9 || m == 11 then 30
    else 31
  }

  /** `datetime.date` accepts years 1 to 9999 and only days that exist. */
  predicate Valid(d: Date) {
    1 <= d.year <= 9999 && 1 <= d.month <= 12 && 1 <= d.day <= DaysInMonth(d.year, d.month)
  }

  /** Python's `<` on dates: lexicographic on (year, month, day). */
  predicate Before(a: Date, b: Date) {
    a.year < b.year || (a.year == b.year && (a.month < b.month || (a.month == b.month && a.day < b.day)))
  }

  function DaysInYear(y: int): int {
    if IsLeap(y) then 366 else 365
  }

  /** Days in the months of year `y` before month `m`. */
  function DaysBeforeMonth(y: int, m: int): (r: int)
    requires 1 <= m <= 12
    ensures 0 <= r <= 31 * (m - 1)
    decreases m
  {
    if m == 1 then 0 else DaysBeforeMonth(y, m - 1) + DaysInMonth(y, m - 1)
  }

  /** Days in the years from 1 up to, not including, `y`. */
  function DaysBeforeYear(y: int): int
    requires y >= 1
  {
    var p := y - 1;
    365 * p + p / 4 - p / 100 + p / 400
  }

  /** `date.toordinal()`: day 1 is 1 January of year 1. */
  function Ordinal(d: Date): int
    requires Valid(d)
  {
    DaysBeforeYear(d.year) + DaysBeforeMonth(d.year, d.month) + d.day
  }

  /** The day after `d`. */
  function Next(d: Date): (r: Date)
    requires Valid(d) && (d.year < 9999 || !(d.month == 12 && d.day == 31))
    ensures Valid(r)
  {
    if d.day < DaysInMonth(d.year, d.month) then Date(d.year, d.month, d.day + 1)
    else if d.month < 12 then Date(d.year, d.month + 1, 1)
    else Date(d.year + 1, 1, 1)
  }

  /** Going from `p` to `p + 1` raises `p / k` exactly when `k` divides `p + 1`. */
  lemma DivStep(p: int, k: int)
    requires p >= 0 && (k == 4 || k == 100 || k == 400)
    ensures (p + 1) / k - p / k == (if (p + 1) % k == 0 then 1 else 0)
  {
    if k == 4 {
      assert p == 4 * (p / 4) + p % 4;
    } else if k == 100 {
      assert p == 100 * (p / 100) + p % 100;
    } else {
      assert p == 400 * (p / 400) + p % 400;
    }
  }

  lemma LeapCount(p: int)
    requires p >= 0
    ensures (p + 1) / 4 - (p + 1) / 100 + (p + 1) / 400 - (p / 4 - p / 100 + p / 400)
            == (if IsLeap(p + 1) then 1 else 0)
  {
    var q := p + 1;
    DivStep(p, 4);
    DivStep(p, 100);
    DivStep(p, 400);
    var a, b, c := (if q % 4 == 0 then 1 else 0), (if q % 100 == 0 then 1 else 0), (if q % 400 == 0 then 1 else 0);
    assert (p + 1) / 4 - p / 4 == a && (p + 1) / 100 - p / 100 == b && (p + 1) / 400 - p / 400 == c;
    DivisorChain(q);
    assert a - b + c == (if IsLeap(q) then 1 else 0);
  }

  /** Every multiple of 400 is a multiple of 100, and every multiple of 100 a multiple of 4. */
  lemma DivisorChain(q: int)
    ensures q % 100 == 0 ==> q % 4 == 0
    ensures q % 400 == 0 ==> q % 100 == 0
  {
    if q % 100 == 0 {
      assert q == 4 * (25 * (q / 100));
    }
    if q % 400 == 0 {
      assert q == 100 * (4 * (q / 400));
    }
  }

  lemma DaysBeforeYearStep(y: int)
    requires y >= 1
    ensures DaysBeforeYear(y + 1) == DaysBeforeYear(y) + DaysInYear(y)
  {
    LeapCount(y - 1);
  }

  lemma {:induction false} DaysBeforeMonthBound(y: int, m: int)
    requires 1 <= m <= 12
    ensures DaysBeforeMonth(y, m) + DaysInMonth(y, m) <= DaysInYear(y)
    ensures m == 12 ==> DaysBeforeMonth(y, m) + DaysInMonth(y, m) == DaysInYear(y)
    decreases 12 - m
  {
    if m < 12 {
      DaysBeforeMonthBound(y, m + 1);
    } else {
      assert DaysBeforeMonth(y, 12) == 334 + (if IsLeap(y) then 1 else 0);
    }
  }

  /** The ordinal counts days: the next day's ordinal is one more. */
  lemma NextOrdinal(d: Date)
    requires Valid(d) && d.year < 9999
    ensures Ordinal(Next(d)) == Ordinal(d) + 1
  {
    if d.day == DaysInMonth(d.year, d.month) && d.month == 12 {
      DaysBeforeYearStep(d.year);
      DaysBeforeMonthBound(d.year, 12);
    }
  }

  /** Later months of the same year start later. */
  lemma {:induction false} MonthStartsIncrease(y: int, m1: int, m2: int)
    requires 1 <= m1 < m2 <= 12
    ensures DaysBeforeMonth(y, m1) + DaysInMonth(y, m1) <= DaysBeforeMonth(y, m2)
    decreases m2 - m1
  {
    if m1 + 1 < m2 {
      MonthStartsIncrease(y, m1 + 1, m2);
    }
  }

  /** Later years start after every day of earlier years. */
  lemma {:induction false} YearStartsIncrease(y1: int, y2: int)
    requires 1 <= y1 < y2
    ensures DaysBeforeYear(y1) + DaysInYear(y1) <= DaysBeforeYear(y2)
    decreases y2 - y1
  {
    DaysBeforeYearStep(y1);
    if y1 + 1 < y2 {
      YearStartsIncrease(y1 + 1, y2);
      DaysBeforeYearStep(y1 + 1);
    }
  }

  /** The ordinal is strictly increasing in the date order, so subtracting dates agrees
      with comparing them. */
  lemma OrdinalMonotone(a: Date, b: Date)
    requires Valid(a) && Valid(b) && Before(a, b)
    ensures Ordinal(a) < Ordinal(b)
  {
    if a.year < b.year {
      DaysBeforeMonthBound(a.year, a.month);
      YearStartsIncrease(a.year, b.year);
    } else if a.month < b.month {
      MonthStartsIncrease(a.year, a.month, b.month);
    }
  }

  /** Two valid dates with the same ordinal are the same date. */
  lemma OrdinalInjective(a: Date, b: Date)
    requires Valid(a) && Valid(b) && Ordinal(a) == Ordinal(b)
    ensures a == b
  {
    if Before(a, b) {
      OrdinalMonotone(a, b);
    } else if Before(b, a) {
      OrdinalMonotone(b, a);
    }
  }
}
