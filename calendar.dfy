/**
  Calendar arithmetic on the proleptic Gregorian calendar, as Python's
  `datetime` and `calendar` modules do it: the leap-year rule, month
  lengths, shifting a date by whole months with the day clamped, and the
  count of days and seconds since 0001-01-01 00:00:00.
*/
module CalendarMath {
  import opened Options

  /** The range of years a Python `date` can hold. */
  const MIN_YEAR := 1
  const MAX_YEAR := 9999

  const SECONDS_PER_DAY := 86400

  datatype Date = Date(year: int, month: int, day: int)

  /** A naive local date and time, to the second. */
  datatype DateTime = DateTime(date: Date, hour: int, minute: int, second: int)

  predicate IsLeapYear(year: int) {
    year % 4 == 0 && (year % 100 != 0 || year % 400 == 0)
  }

  /** `calendar.monthrange(year, month)[1]`. */
  function DaysInMonth(year: int, month: int): (n: int)
    requires 1 <= month <= 12
    ensures 28 <= n <= 31
  {
    if month == 2 then (if IsLeapYear(year) then 29 else 28)
    else if month == 4 || month == 6 || month == 9 || month == 11 then 30
    else 31
  }

  predicate ValidDate(d: Date) {
    MIN_YEAR <= d.year <= MAX_YEAR && 1 <= d.month <= 12 && 1 <= d.day <= DaysInMonth(d.year, d.month)
  }

  predicate ValidDateTime(t: DateTime) {
    ValidDate(t.date) && 0 <= t.hour < 24 && 0 <= t.minute < 60 && 0 <= t.second < 60
  }

  /** Months counted from January of year 0; consecutive months differ by one. */
  function MonthIndex(year: int, month: int): int {
    year * 12 + (month - 1)
  }

  function Min(a: int, b: int): int {
    if a <= b then a else b
  }

  /**
    `add_months(base, n)`: the date `n` months after `base` (before it when
    `n` is negative), the day clamped to the length of the target month.
    `None` where `date.replace` raises because the year leaves 1..9999.
  */
  function AddMonths(base: Date, n: int): (r: Option<Date>)
    requires ValidDate(base)
    ensures r.Some? <==> MIN_YEAR <= (MonthIndex(base.year, base.month) + n) / 12 <= MAX_YEAR
    ensures r.Some? ==> ValidDate(r.value)
    ensures r.Some? ==> MonthIndex(r.value.year, r.value.month) == MonthIndex(base.year, base.month) + n
    ensures r.Some? ==> r.value.day == Min(base.day, DaysInMonth(r.value.year, r.value.month))
  {
    var month0 := base.month - 1 + n;
    var year := base.year + month0 / 12;
    var month := month0 % 12 + 1;
    var day := Min(base.day, DaysInMonth(year, month));
    if MIN_YEAR <= year <= MAX_YEAR then Some(Date(year, month, day)) else None
  }

  /** A month index determines its year and month. */
  lemma MonthIndexInjective(y1: int, m1: int, y2: int, m2: int)
    requires 1 <= m1 <= 12 && 1 <= m2 <= 12
    requires MonthIndex(y1, m1) == MonthIndex(y2, m2)
    ensures y1 == y2 && m1 == m2
  {
  }

  /** The year and month with a given month index. */
  function MonthOf(index: int): (ym: (int, int))
    ensures 1 <= ym.1 <= 12 && MonthIndex(ym.0, ym.1) == index
  {
    (index / 12, index % 12 + 1)
  }

  /** `MonthOf` inverts `MonthIndex`. */
  lemma MonthOfIndex(year: int, month: int)
    requires 1 <= month <= 12
    ensures MonthOf(MonthIndex(year, month)) == (year, month)
  {
    var ym := MonthOf(MonthIndex(year, month));
    MonthIndexInjective(ym.0, ym.1, year, month);
  }

  /** Shifting by zero months is the identity. */
  lemma AddZeroMonths(base: Date)
    requires ValidDate(base)
    ensures AddMonths(base, 0) == Some(base)
  {
    assert (base.month - 1) / 12 == 0 && (base.month - 1) % 12 == base.month - 1;
  }

  /** Shifts compose on the month: `a` then `b` months lands in the same month as `a + b`. */
  lemma AddMonthsCompose(base: Date, a: int, b: int)
    requires ValidDate(base)
    requires AddMonths(base, a).Some? && AddMonths(AddMonths(base, a).value, b).Some?
    ensures AddMonths(base, a + b).Some?
    ensures AddMonths(AddMonths(base, a).value, b).value.year == AddMonths(base, a + b).value.year
    ensures AddMonths(AddMonths(base, a).value, b).value.month == AddMonths(base, a + b).value.month
  {
    var mid := AddMonths(base, a).value;
    var two := AddMonths(mid, b).value;
    assert MonthIndex(two.year, two.month) == MonthIndex(base.year, base.month) + a + b;
    assert MonthIndex(base.year, base.month) + (a + b) == MonthIndex(two.year, two.month);
  }

  /** A day that exists in every month survives a round trip unchanged. */
  lemma AddMonthsInverse(base: Date, n: int)
    requires ValidDate(base) && base.day <= 28
    requires AddMonths(base, n).Some?
    ensures AddMonths(AddMonths(base, n).value, -n) == Some(base)
  {
    var there := AddMonths(base, n).value;
    var back := AddMonths(there, -n);
    assert back.Some?;
    MonthIndexInjective(back.value.year, back.value.month, base.year, base.month);
  }

  /** January 31 plus one month clamps to the end of February: 2024 is a leap year, 2023 is not. */
  lemma EndOfJanuaryPlusOneMonth()
    ensures AddMonths(Date(2024, 1, 31), 1) == Some(Date(2024, 2, 29))
    ensures AddMonths(Date(2023, 1, 31), 1) == Some(Date(2023, 2, 28))
  {
    assert IsLeapYear(2024) && !IsLeapYear(2023);
    assert DaysInMonth(2024, 2) == 29 && DaysInMonth(2023, 2) == 28;
  }

  /** Days in the months of `year` before `month`. */
  function DaysBeforeMonth(year: int, month: int): (n: nat)
    requires 1 <= month <= 13
    decreases month
  {
    if month == 1 then 0 else DaysBeforeMonth(year, month - 1) + DaysInMonth(year, month - 1)
  }

  /** The month lengths add up to 365 days, 366 in a leap year. */
  lemma YearLength(year: int)
    ensures DaysBeforeMonth(year, 13) == if IsLeapYear(year) then 366 else 365
  {
  }

  /** Days from 0001-01-01 to the start of `year`. */
  function DaysBeforeYear(year: int): int {
    var y := year - 1;
    365 * y + y / 4 - y / 100 + y / 400
  }

  /** Days since 0001-01-01 (a Monday), which is day 0. */
  function DayNumber(d: Date): int
    requires 1 <= d.month <= 12
  {
    DaysBeforeYear(d.year) + DaysBeforeMonth(d.year, d.month) + d.day - 1
  }

  /** Seconds since 0001-01-01 00:00:00. */
  function ToSeconds(t: DateTime): int
    requires 1 <= t.date.month <= 12
  {
    DayNumber(t.date) * SECONDS_PER_DAY + t.hour * 3600 + t.minute * 60 + t.second
  }

  /** The last second a Python `datetime` can hold, 9999-12-31 23:59:59. */
  const MAX_SECONDS := 315_537_897_599

  lemma MaxSecondsIsLastSecond()
    ensures ToSeconds(DateTime(Date(MAX_YEAR, 12, 31), 23, 59, 59)) == MAX_SECONDS
  {
    DaysBeforeNextYear(MAX_YEAR);
  }

  /** `weekday()` of the day holding second `s`: 0 is Monday, 6 is Sunday. */
  function Weekday(s: int): (w: int)
    ensures 0 <= w < 7
  {
    (s / SECONDS_PER_DAY) % 7
  }

  /** The day numbering agrees with the civil calendar: 2024-01-06 was a Saturday. */
  lemma WeekdayAnchor()
    ensures Weekday(ToSeconds(DateTime(Date(2024, 1, 6), 0, 0, 0))) == 5
  {
    assert DaysBeforeYear(2024) == 738885;
  }

  /** Each new year advances the day count by the length of the year before it. */
  lemma DaysBeforeNextYear(year: int)
    ensures DaysBeforeYear(year + 1) == DaysBeforeYear(year) + DaysBeforeMonth(year, 13)
  {
    YearLength(year);
    DivStep(year, 4);
    DivStep(year, 100);
    DivStep(year, 400);
    DivisorsOfCenturies(year);
    var fours, hundreds, four_hundreds := year / 4 - (year - 1) / 4, year / 100 - (year - 1) / 100, year / 400 - (year - 1) / 400;
    assert DaysBeforeYear(year + 1) == DaysBeforeYear(year) + 365 + fours - hundreds + four_hundreds;
  }

  lemma DivisorsOfCenturies(x: int)
    ensures x % 100 == 0 ==> x % 4 == 0
    ensures x % 400 == 0 ==> x % 100 == 0
  {
    CenturyDivisibleByFour(x);
    EraDivisibleByCentury(x);
  }

  lemma CenturyDivisibleByFour(x: int)
    ensures x % 100 == 0 ==> x % 4 == 0
  {
    if x % 100 == 0 {
      var centuries := x / 100;
      assert x == 4 * (25 * centuries);
    }
  }

  lemma EraDivisibleByCentury(x: int)
    ensures x % 400 == 0 ==> x % 100 == 0
  {
    if x % 400 == 0 {
      var eras := x / 400;
      assert x == 100 * (4 * eras);
    }
  }

  lemma DivStep(x: int, k: int)
    requires k == 4 || k == 100 || k == 400
    ensures x / k - (x - 1) / k == if x % k == 0 then 1 else 0
  {
    if k == 4 {
      assert x / 4 - (x - 1) / 4 == if x % 4 == 0 then 1 else 0;
    } else if k == 100 {
      assert x / 100 - (x - 1) / 100 == if x % 100 == 0 then 1 else 0;
    } else {
      assert x / 400 - (x - 1) / 400 == if x % 400 == 0 then 1 else 0;
    }
  }

  /** Later years start later: at least 365 days per year in between. */
  lemma {:induction false} DaysBeforeYearMonotonic(a: int, b: int)
    requires a <= b
    ensures DaysBeforeYear(a) + 365 * (b - a) <= DaysBeforeYear(b)
    decreases b - a
  {
    if a < b {
      DaysBeforeYearMonotonic(a, b - 1);
      DaysBeforeNextYear(b - 1);
      YearLength(b - 1);
      var earlier, last := DaysBeforeYear(b - 1), DaysBeforeMonth(b - 1, 13);
      assert DaysBeforeYear(a) + 365 * (b - 1 - a) <= earlier;
      assert DaysBeforeYear(b) == earlier + last && last >= 365;
    }
  }

  lemma {:induction false} DaysBeforeMonthBound(year: int, month: int)
    requires 1 <= month <= 12
    ensures DaysBeforeMonth(year, month) + DaysInMonth(year, month) <= DaysBeforeMonth(year, 13)
    decreases 12 - month
  {
    if month < 12 {
      DaysBeforeMonthBound(year, month + 1);
    }
  }

  /** Every valid date and time lies between 0001-01-01 00:00:00 and 9999-12-31 23:59:59. */
  lemma ToSecondsInRange(t: DateTime)
    requires ValidDateTime(t)
    ensures 0 <= ToSeconds(t) <= MAX_SECONDS
  {
    var y := t.date.year;
    DaysBeforeYearMonotonic(1, y);
    DaysBeforeYearMonotonic(y + 1, MAX_YEAR + 1);
    DaysBeforeNextYear(y);
    DaysBeforeNextYear(MAX_YEAR);
    DaysBeforeMonthBound(y, t.date.month);
    assert DayNumber(t.date) <= DaysBeforeYear(MAX_YEAR + 1) - 1;
    LastDayOfYear(MAX_YEAR);
    MaxSecondsIsLastSecond();
  }

  /** December 31 is the day before the next year starts. */
  lemma LastDayOfYear(year: int)
    ensures DayNumber(Date(year, 12, 31)) == DaysBeforeYear(year + 1) - 1
  {
    DaysBeforeNextYear(year);
    assert DaysBeforeMonth(year, 13) == DaysBeforeMonth(year, 12) + 31;
  }
}
