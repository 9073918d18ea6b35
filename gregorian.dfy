/**
 * The Gregorian side of the calendar: the leap-year rule and month lengths of
 * the calendar's companion object, and a day numbering built from them that
 * stands in for the lenient date arithmetic of the platform calendar.
 *
 * Months are 0-based (January is 0), as the platform calendar counts them.
 * Day 0 is 1901-01-01, the first day of the calendar's range.
 */
module Gregorian {
  import opened KotlinInt
  import opened CalendarTables

  /** `isGregorianLeapYear`: divisible by 4, except centuries, except every fourth century. */
  predicate IsGregorianLeapYear(year: int)
  {
    var isLeap := Rem(year, 4) == 0;
    var isLeap := if Rem(year, 100) == 0 then false else isLeap;
    if Rem(year, 400) == 0 then true else isLeap
  }

  /** Kotlin's remainder is zero exactly when the Euclidean one is. */
  lemma RemZero(a: int, b: int)
    requires b > 0
    ensures Rem(a, b) == 0 <==> a % b == 0
  {
    if a >= 0 {
      AgreeOnNatural(a, b);
    } else {
      RemOfNegative(a, b);
    }
  }

  /** The rule the three assignments implement, for every year including negative ones. */
  lemma LeapYearRule(year: int)
    ensures IsGregorianLeapYear(year) <==> (year % 4 == 0 && year % 100 != 0) || year % 400 == 0
  {
    RemZero(year, 4);
    RemZero(year, 100);
    RemZero(year, 400);
  }

  /** The leap rule repeats every 400 years. */
  lemma LeapYearPeriod(year: int)
    ensures IsGregorianLeapYear(year + 400) == IsGregorianLeapYear(year)
  {
    LeapYearRule(year);
    LeapYearRule(year + 400);
    assert (year + 400) % 4 == year % 4;
    assert (year + 400) % 100 == year % 100;
    assert (year + 400) % 400 == year % 400;
  }

  /**
   * `IsGregorianLeapYear` as the month and year lengths consult it: behind
   * one recursive step, so that a proof about day numbers meets the rule
   * only where it asks for it (`LeapYearIs`). On a known year it evaluates.
   */
  predicate LeapYear(y: int)
  {
    LeapYearAfter(y, 1)
  }

  predicate LeapYearAfter(y: int, hops: nat)
    decreases hops, y
  {
    if hops == 0 then IsGregorianLeapYear(y) else LeapYearAfter(y, hops - 1)
  }

  lemma {:induction false} LeapYearAfterIs(y: int, hops: nat)
    ensures LeapYearAfter(y, hops) == IsGregorianLeapYear(y)
    decreases hops
  {
    if hops > 0 {
      LeapYearAfterIs(y, hops - 1);
    }
  }

  /** The leap test the lengths use is `isGregorianLeapYear`. */
  lemma LeapYearIs(y: int)
    ensures LeapYear(y) == IsGregorianLeapYear(y)
  {
    LeapYearAfterIs(y, 1);
  }

  /**
   * `daysInGregorianMonth`: the table entry, one more for February (month 1)
   * of a leap year. The month indexes the table, so it must be 0..11.
   */
  function DaysInGregorianMonth(y: int, m: int): (d: int)
    requires 0 <= m < 12
    ensures 28 <= d <= 31
    ensures d == 29 <==> m == 1 && LeapYear(y)
    ensures d == 28 <==> m == 1 && !LeapYear(y)
    ensures m != 1 ==> d == (if m == 3 || m == 5 || m == 8 || m == 10 then 30 else 31)
  {
    var d := GregorianMonthDays[m];
    if m == 1 && LeapYear(y) then d + 1 else d
  }

  /** Days in Gregorian year `y`. */
  function YearLength(y: int): int
  {
    if LeapYear(y) then 366 else 365
  }

  /** Days of year `y` before the first of month `m`, 0 <= m <= 12. */
  function DaysBeforeMonth(y: int, m: int): (n: int)
    requires 0 <= m <= 12
    ensures 0 <= n <= 31 * m
    decreases m
  {
    if m == 0 then 0 else DaysBeforeMonth(y, m - 1) + DaysInGregorianMonth(y, m - 1)
  }

  /** The twelve months make up the year. */
  lemma MonthsMakeYear(y: int)
    ensures DaysBeforeMonth(y, 12) == YearLength(y)
  {
  }

  /** Months start in order: a later month starts at least 28 days later per month between. */
  lemma {:induction false} DaysBeforeMonthGrows(y: int, m1: int, m2: int)
    requires 0 <= m1 <= m2 <= 12
    ensures DaysBeforeMonth(y, m2) >= DaysBeforeMonth(y, m1) + 28 * (m2 - m1)
    decreases m2 - m1
  {
    if m1 < m2 {
      DaysBeforeMonthGrows(y, m1, m2 - 1);
    }
  }

  /** Days from 1901-01-01 to the first of January of year `y` (negative before 1901). */
  function DaysBeforeYear(y: int): int
    decreases if y >= 1901 then y - 1901 else 1901 - y
  {
    if y == 1901 then 0
    else if y > 1901 then DaysBeforeYear(PreviousYear(y)) + YearLength(PreviousYear(y))
    else DaysBeforeYear(NextYear(y)) - YearLength(y)
  }

  /** Consecutive years: one year's length apart. */
  lemma YearStep(y: int)
    ensures DaysBeforeYear(y + 1) == DaysBeforeYear(y) + YearLength(y)
  {
  }

  /** A later year starts later, by at least 365 days per year between. */
  lemma {:induction false} LaterYearStartsLater(y1: int, y2: int)
    requires y1 <= y2
    ensures DaysBeforeYear(y2) >= DaysBeforeYear(y1) + 365 * (y2 - y1)
    decreases y2 - y1
  {
    if y1 < y2 {
      LaterYearStartsLater(y1, y2 - 1);
      YearStep(y2 - 1);
    }
  }

  /** Within 1901-2000 a year is long exactly when divisible by 4: years `y + 1` to `y + 4` of a block. */
  lemma BlockYears(y: int, t: int)
    requires 1 <= t <= 24 && y == 1896 + 4 * t
    ensures YearLength(y + 1) == 365 && YearLength(y + 2) == 365 && YearLength(y + 3) == 365
    ensures YearLength(y + 4) == 366
  {
    LeapYearIs(y + 1);
    LeapYearIs(y + 2);
    LeapYearIs(y + 3);
    LeapYearIs(y + 4);
    LeapYearRule(y + 1);
    LeapYearRule(y + 2);
    LeapYearRule(y + 3);
    LeapYearRule(y + 4);
    assert y + 4 == 4 * (475 + t);
    assert (y + 4) % 100 == 4 * t;
  }

  /** Every four years from 1901 on, up to 1997, add 1461 days. */
  lemma {:induction false} FourYearBlocks(t: int)
    requires 0 <= t <= 24
    ensures DaysBeforeYear(1901 + 4 * t) == 1461 * t
  {
    if t > 0 {
      FourYearBlocks(t - 1);
      var y := 1897 + 4 * t;
      BlockYears(y - 1, t);
      YearStep(y);
      YearStep(y + 1);
      YearStep(y + 2);
      YearStep(y + 3);
    }
  }

  /** 2000-01-01 is day 36159: 99 years, 24 of them leap years. */
  lemma DaysBefore2000()
    ensures DaysBeforeYear(2000) == 36159
  {
    FourYearBlocks(24);
    LeapYearIs(1997);
    LeapYearIs(1998);
    LeapYearIs(1999);
    LeapYearRule(1997);
    LeapYearRule(1998);
    LeapYearRule(1999);
    YearStep(1997);
    YearStep(1998);
    YearStep(1999);
  }

  /** Within 2001-2096 a year is long exactly when divisible by 4: years `y + 1` to `y + 4` of a block. */
  lemma LaterBlockYears(y: int, t: int)
    requires 1 <= t <= 24 && y == 1996 + 4 * t
    ensures YearLength(y + 1) == 365 && YearLength(y + 2) == 365 && YearLength(y + 3) == 365
    ensures YearLength(y + 4) == 366
  {
    LeapYearIs(y + 1);
    LeapYearIs(y + 2);
    LeapYearIs(y + 3);
    LeapYearIs(y + 4);
    LeapYearRule(y + 1);
    LeapYearRule(y + 2);
    LeapYearRule(y + 3);
    LeapYearRule(y + 4);
    assert y + 4 == 4 * (500 + t);
    assert (y + 4) % 100 == 4 * t;
  }

  /** Every four years from 2001 on, up to 2097, add 1461 days. */
  lemma {:induction false} LaterFourYearBlocks(t: int)
    requires 0 <= t <= 24
    ensures DaysBeforeYear(2001 + 4 * t) == DaysBeforeYear(2001) + 1461 * t
  {
    if t > 0 {
      LaterFourYearBlocks(t - 1);
      var y := 1997 + 4 * t;
      LaterBlockYears(y - 1, t);
      YearStep(y);
      YearStep(y + 1);
      YearStep(y + 2);
      YearStep(y + 3);
    }
  }

  /** 2100-01-01 is day 72684: 2000 is a leap year (divisible by 400), and so is every fourth year after it. */
  lemma DaysBefore2100()
    ensures DaysBeforeYear(2100) == 72684
  {
    DaysBefore2000();
    LeapYearIs(2000);
    LeapYearRule(2000);
    YearStep(2000);
    LaterFourYearBlocks(24);
    LeapYearIs(2097);
    LeapYearIs(2098);
    LeapYearIs(2099);
    LeapYearRule(2097);
    LeapYearRule(2098);
    LeapYearRule(2099);
    YearStep(2097);
    YearStep(2098);
    YearStep(2099);
  }

  /** A date of the Gregorian calendar: year, 0-based month, day of the month. */
  datatype Date = Date(year: int, month: int, day: int)

  /** A date whose month and day exist. */
  predicate IsDate(g: Date)
  {
    0 <= g.month < 12 && 1 <= g.day <= DaysInGregorianMonth(g.year, g.month)
  }

  /**
   * The day number of `g` counted from 1901-01-01; a day past the end of its
   * month counts on into the next ones, as the lenient platform calendar does.
   */
  function DayNumber(g: Date): int
    requires 0 <= g.month < 12
  {
    DaysBeforeYear(g.year) + DaysBeforeMonth(g.year, g.month) + g.day - 1
  }

  /** The year holding day `n`, searching upwards from year `y`. */
  function YearFrom(n: int, y: int): (r: int)
    requires DaysBeforeYear(y) <= n
    ensures r >= y
    ensures DaysBeforeYear(r) <= n < DaysBeforeYear(r + 1)
    decreases n - DaysBeforeYear(y)
  {
    YearStep(y);
    if n < DaysBeforeYear(NextYear(y)) then y else YearFrom(n, NextYear(y))
  }

  /** The year holding day `n`, searching downwards from the year before `y`. */
  function YearUntil(n: int, y: int): (r: int)
    requires n < DaysBeforeYear(y)
    ensures r < y
    ensures DaysBeforeYear(r) <= n < DaysBeforeYear(r + 1)
    decreases DaysBeforeYear(y) - n
  {
    YearStep(PreviousYear(y));
    if DaysBeforeYear(PreviousYear(y)) <= n then PreviousYear(y) else YearUntil(n, PreviousYear(y))
  }

  /** The year holding day `n`. */
  function YearOf(n: int): (r: int)
    ensures DaysBeforeYear(r) <= n < DaysBeforeYear(r + 1)
  {
    if n >= 0 then YearFrom(n, 1901) else YearUntil(n, 1901)
  }

  /** The month of year `y` holding day `k` of the year, searching from month `m`. */
  function MonthFrom(y: int, k: int, m: int): (r: int)
    requires 0 <= m < 12 && DaysBeforeMonth(y, m) <= k < YearLength(y)
    ensures m <= r < 12
    ensures DaysBeforeMonth(y, r) <= k < DaysBeforeMonth(y, r + 1)
    decreases 12 - m
  {
    MonthsMakeYear(y);
    if k < DaysBeforeMonth(y, m + 1) then m else MonthFrom(y, k, m + 1)
  }

  /** The date of day number `n`. */
  function FromDayNumber(n: int): (g: Date)
    ensures IsDate(g)
    ensures DayNumber(g) == n
  {
    DateOfDayAfter(n, 1)
  }

  /**
   * The search behind `FromDayNumber`: the year holding day `n`, then the
   * month. The recursive step keeps the search out of proofs that need only
   * the contract; on a known day number it evaluates.
   */
  function DateOfDayAfter(n: int, hops: nat): (g: Date)
    ensures IsDate(g)
    ensures DayNumber(g) == n
    decreases hops, n
  {
    if hops > 0 then DateOfDayAfter(n, hops - 1)
    else
      var y := YearOf(n);
      YearStep(y);
      var m := MonthFrom(y, n - DaysBeforeYear(y), 0);
      Date(y, m, n - DaysBeforeYear(y) - DaysBeforeMonth(y, m) + 1)
  }

  /** Only one year's span holds a given day. */
  lemma YearOfUnique(n: int, y: int)
    requires DaysBeforeYear(y) <= n < DaysBeforeYear(y + 1)
    ensures YearOf(n) == y
  {
    var r := YearOf(n);
    if r < y {
      LaterYearStartsLater(r + 1, y);
    } else if y < r {
      LaterYearStartsLater(y + 1, r);
    }
  }

  /** Only one month's span holds a given day of the year. */
  lemma MonthUnique(y: int, k: int, m: int, r: int)
    requires 0 <= m < 12 && 0 <= r < 12
    requires DaysBeforeMonth(y, m) <= k < DaysBeforeMonth(y, m + 1)
    requires DaysBeforeMonth(y, r) <= k < DaysBeforeMonth(y, r + 1)
    ensures m == r
  {
    if m < r {
      DaysBeforeMonthGrows(y, m + 1, r);
    } else if r < m {
      DaysBeforeMonthGrows(y, r + 1, m);
    }
  }

  /** A valid date lies in its own year's span of day numbers. */
  lemma DateWithinYear(g: Date)
    requires IsDate(g)
    ensures DaysBeforeYear(g.year) <= DayNumber(g) < DaysBeforeYear(g.year + 1)
    ensures DaysBeforeMonth(g.year, g.month) <= DayNumber(g) - DaysBeforeYear(g.year)
                                             < DaysBeforeMonth(g.year, g.month + 1)
  {
    MonthsMakeYear(g.year);
    DaysBeforeMonthGrows(g.year, g.month + 1, 12);
    YearStep(g.year);
  }

  /** A valid date is recovered from its day number: the numbering is one to one. */
  lemma DateRoundTrip(g: Date)
    requires IsDate(g)
    ensures FromDayNumber(DayNumber(g)) == g
  {
    DayNumberInjective(g, FromDayNumber(DayNumber(g)));
  }

  /** Two valid dates with the same day number are in the same year. */
  lemma DayNumberFixesYear(g: Date, r: Date)
    requires IsDate(g) && IsDate(r) && DayNumber(g) == DayNumber(r)
    ensures g.year == r.year
  {
    DateWithinYear(g);
    DateWithinYear(r);
    YearOfUnique(DayNumber(g), g.year);
    YearOfUnique(DayNumber(g), r.year);
  }

  /** Two valid dates with the same day number are the same date. */
  lemma DayNumberInjective(g: Date, r: Date)
    requires IsDate(g) && IsDate(r) && DayNumber(g) == DayNumber(r)
    ensures g == r
  {
    DayNumberFixesYear(g, r);
    DateWithinYear(g);
    DateWithinYear(r);
    MonthUnique(g.year, DayNumber(g) - DaysBeforeYear(g.year), g.month, r.month);
  }

  /**
   * The date the lenient platform calendar settles fields on: a month out of
   * range moves the year, a day out of range moves the month.
   */
  function Normalize(g: Date): (r: Date)
    ensures IsDate(r)
  {
    var first := Date(g.year + g.month / 12, g.month % 12, 1);
    FromDayNumber(DayNumber(first) + g.day - 1)
  }

  /** A date whose month is in range settles on the date of its day number. */
  lemma NormalizeInRange(g: Date)
    requires 0 <= g.month < 12
    ensures Normalize(g) == FromDayNumber(DayNumber(g))
  {
    assert g.month / 12 == 0 && g.month % 12 == g.month;
    var first := Date(g.year + g.month / 12, g.month % 12, 1);
    assert first == Date(g.year, g.month, 1);
    assert DayNumber(first) + g.day - 1 == DayNumber(g);
  }

  /** Settling changes no valid date. */
  lemma NormalizeKeepsDate(g: Date)
    requires IsDate(g)
    ensures Normalize(g) == g
  {
    NormalizeInRange(g);
    DateRoundTrip(g);
  }

  /** Settling keeps the day number of a date whose month is in range, even when its day overflows. */
  lemma NormalizeKeepsDayNumber(g: Date)
    requires 0 <= g.month < 12
    ensures DayNumber(Normalize(g)) == DayNumber(g)
  {
    NormalizeInRange(g);
  }

  /** Settling twice is settling once. */
  lemma NormalizeIdempotent(g: Date)
    ensures Normalize(Normalize(g)) == Normalize(g)
  {
    NormalizeKeepsDate(Normalize(g));
  }

  /** Moving `amount` days from `g` (the platform calendar's `add(DATE, amount)`). */
  function AddDays(g: Date, amount: int): (r: Date)
    ensures IsDate(r)
  {
    FromDayNumber(DayNumber(Normalize(g)) + amount)
  }

  /** Adding days moves the day number by exactly that many days. */
  lemma AddDaysShifts(g: Date, amount: int)
    ensures DayNumber(AddDays(g, amount)) == DayNumber(Normalize(g)) + amount
  {
  }

  /** Adding days and then adding them back returns to the settled date. */
  lemma AddDaysBack(g: Date, amount: int)
    ensures AddDays(AddDays(g, amount), -amount) == Normalize(g)
  {
    var r := AddDays(g, amount);
    NormalizeKeepsDate(r);
    var h := Normalize(g);
    assert DayNumber(r) - amount == DayNumber(h);
    DateRoundTrip(h);
  }

  /** Adding days moves the day number by exactly that many days, and adding back returns. */
  lemma AddDaysMoves(g: Date, amount: int)
    ensures DayNumber(AddDays(g, amount)) == DayNumber(Normalize(g)) + amount
    ensures AddDays(AddDays(g, amount), -amount) == Normalize(g)
  {
    AddDaysShifts(g, amount);
    AddDaysBack(g, amount);
  }

  /** The weekday of day `n` as the platform numbers it, Sunday 1 to Saturday 7; 1901-01-01 was a Tuesday. */
  function DayOfWeek(n: int): (w: int)
    ensures 1 <= w <= 7
    ensures n == 0 ==> w == 3
  {
    (n + 2) % 7 + 1
  }

  /** The weekday repeats every seven days and moves by one each day. */
  lemma WeekCycle(n: int)
    ensures DayOfWeek(n + 7) == DayOfWeek(n)
    ensures DayOfWeek(n + 1) == (if DayOfWeek(n) == 7 then 1 else DayOfWeek(n) + 1)
  {
  }
}
