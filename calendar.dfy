/**
 * The proleptic Gregorian calendar as integer day numbers (days since
 * 1970-01-01), shared by the three expiration classifiers. The JavaScript
 * `Date` constructor is modelled by `MakeDay` of section 21.4.1.28 of
 * ECMA-262 (month overflow rolls into the year, day 0 is the last day of the
 * previous month) together with the two-digit-year rule of the constructor.
 * Time is local time without daylight-saving shifts.
 */
module Calendar {

  const MsPerDay: int := 86_400_000

  /** Days from 0000-01-01 to 1970-01-01. */
  const EpochOffset: int := 719_528

  predicate IsLeapYear(y: int) {
    y % 4 == 0 && (y % 100 != 0 || y % 400 == 0)
  }

  function DaysInYear(y: int): int {
    if IsLeapYear(y) then 366 else 365
  }

  function DaysInMonth(y: int, m: int): (n: int)
    requires 1 <= m <= 12
    ensures 28 <= n <= 31
    ensures n == 29 <==> m == 2 && IsLeapYear(y)
  {
    if m == 2 then (if IsLeapYear(y) then 29 else 28)
    else if m == 4 || m == 6 || m == 9 || m == 11 then 30
    else 31
  }

  /** Days in the months of year `y` before month `m` (month 13 stands for the whole year). */
  function DaysBeforeMonth(y: int, m: int): int
    requires 1 <= m <= 13
  {
    [0, 31, 59, 90, 120, 151, 181, 212, 243, 273, 304, 334, 365][m - 1]
      + (if m > 2 && IsLeapYear(y) then 1 else 0)
  }

  /** Each month starts where the previous one ends. */
  lemma MonthStep(y: int, m: int)
    requires 1 <= m <= 12
    ensures DaysBeforeMonth(y, m + 1) == DaysBeforeMonth(y, m) + DaysInMonth(y, m)
  {
  }

  /** The twelve months fill the year exactly. */
  lemma MonthsFillYear(y: int)
    ensures DaysBeforeMonth(y, 13) == DaysInYear(y)
  {
  }

  /** Leap years in [0, y) when y >= 0 (negated count below zero). */
  function LeapYearsBefore(y: int): int {
    (y + 3) / 4 - (y + 99) / 100 + (y + 399) / 400
  }

  /** Days from 0000-01-01 to the first day of year `y`. */
  function DaysBeforeYear(y: int): int {
    365 * y + LeapYearsBefore(y)
  }

  lemma StepBy4(y: int)
    ensures (y + 4) / 4 - (y + 3) / 4 == (if y % 4 == 0 then 1 else 0)
  {
  }

  lemma StepBy100(y: int)
    ensures (y + 100) / 100 - (y + 99) / 100 == (if y % 100 == 0 then 1 else 0)
  {
  }

  lemma StepBy400(y: int)
    ensures (y + 400) / 400 - (y + 399) / 400 == (if y % 400 == 0 then 1 else 0)
  {
  }

  /** Consecutive years start DaysInYear apart: the closed form agrees with the leap-year rule. */
  lemma {:induction false} YearStep(y: int)
    ensures DaysBeforeYear(y + 1) == DaysBeforeYear(y) + DaysInYear(y)
  {
    StepBy4(y);
    StepBy100(y);
    StepBy400(y);
    assert LeapYearsBefore(y + 1) == (y + 4) / 4 - (y + 100) / 100 + (y + 400) / 400;
    if y % 400 == 0 {
      CenturyOfFourCenturies(y);
    }
    if y % 100 == 0 {
      LeapOfCentury(y);
    }
  }

  /** A multiple of 400 is a multiple of 100. */
  lemma CenturyOfFourCenturies(y: int)
    requires y % 400 == 0
    ensures y % 100 == 0
  {
    assert y == 100 * (4 * (y / 400));
  }

  /** A multiple of 100 is a multiple of 4. */
  lemma LeapOfCentury(y: int)
    requires y % 100 == 0
    ensures y % 4 == 0
  {
    assert y == 4 * (25 * (y / 100));
  }

  /** Day number (days since 1970-01-01) of day `d` of month `m` of year `y`; `d` may run past the month. */
  function DayNumber(y: int, m: int, d: int): int
    requires 1 <= m <= 12
  {
    DaysBeforeYear(y) + DaysBeforeMonth(y, m) + d - 1 - EpochOffset
  }

  lemma EpochIsDayZero()
    ensures DayNumber(1970, 1, 1) == 0
  {
  }

  /** The last calendar day of month `m` of year `y`. */
  function LastDayOfMonth(y: int, m: int): int
    requires 1 <= m <= 12
  {
    DayNumber(y, m, DaysInMonth(y, m))
  }

  /** The day after the last day of a month is the first day of the next month, rolling December into January. */
  lemma {:induction false} NextMonthStart(y: int, m: int)
    requires 1 <= m <= 12
    ensures LastDayOfMonth(y, m) + 1 == (if m == 12 then DayNumber(y + 1, 1, 1) else DayNumber(y, m + 1, 1))
  {
    MonthStep(y, m);
    if m == 12 {
      MonthsFillYear(y);
      YearStep(y);
    }
  }

  /** Later months end later. */
  lemma {:induction false} LastDayMonotone(y: int, m: int, y2: int, m2: int)
    requires 1 <= m <= 12 && 1 <= m2 <= 12
    requires y < y2 || (y == y2 && m <= m2)
    ensures LastDayOfMonth(y, m) <= LastDayOfMonth(y2, m2)
    decreases y2 - y, m2
  {
    if y == y2 {
      if m < m2 {
        LastDayMonotone(y, m, y2, m2 - 1);
        NextMonthStart(y2, m2 - 1);
      }
    } else if m2 > 1 {
      LastDayMonotone(y, m, y2, m2 - 1);
      NextMonthStart(y2, m2 - 1);
    } else {
      LastDayMonotone(y, m, y2 - 1, 12);
      NextMonthStart(y2 - 1, 12);
    }
  }

  /** A day of a month lies between its first and last day. */
  lemma DayWithinMonth(y: int, m: int, d: int)
    requires 1 <= m <= 12 && 1 <= d <= DaysInMonth(y, m)
    ensures DayNumber(y, m, 1) <= DayNumber(y, m, d) <= LastDayOfMonth(y, m)
  {
  }

  /** The year the `Date` constructor uses: 0..99 stand for 1900..1999. */
  function JsFullYear(y: int): (r: int)
    ensures 0 <= y <= 99 ==> r == 1900 + y
    ensures !(0 <= y <= 99) ==> r == y
  {
    if 0 <= y <= 99 then 1900 + y else y
  }

  /** ECMAScript MakeDay: month indexes from 0 and overflows into the year; `date` counts from 1. */
  function MakeDay(year: int, month: int, date: int): int {
    DayNumber(year + month / 12, month % 12 + 1, 1) + date - 1
  }

  /** `new Date(y, m - 1, 1)` is the first day of month m. */
  lemma MakeDayFirst(y: int, m: int)
    requires 1 <= m <= 12
    ensures MakeDay(y, m - 1, 1) == DayNumber(y, m, 1)
  {
    assert (m - 1) / 12 == 0 && (m - 1) % 12 + 1 == m;
  }

  /** `new Date(y, m, 0)` is the last day of month m, December included. */
  lemma {:induction false} MakeDayLast(y: int, m: int)
    requires 1 <= m <= 12
    ensures MakeDay(y, m, 0) == LastDayOfMonth(y, m)
  {
    NextMonthStart(y, m);
    if m == 12 {
      assert m / 12 == 1 && m % 12 + 1 == 1;
    } else {
      assert m / 12 == 0 && m % 12 + 1 == m + 1;
    }
  }

  /** Math.ceil(ms / MsPerDay). */
  function CeilDays(ms: int): (r: int)
    ensures (r - 1) * MsPerDay < ms <= r * MsPerDay
  {
    -((-ms) / MsPerDay)
  }

  /** The ceiling of a whole number of days plus a part of a day. */
  lemma CeilDaysOfSum(k: int, rest: int)
    requires -MsPerDay < rest <= 0
    ensures CeilDays(k * MsPerDay + rest) == k
  {
  }
}
