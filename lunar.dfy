/**
 * The lunar side of the calendar: month lengths read from the packed table,
 * the successor of a month, the month loops of `add` and `roll`, and a day
 * numbering of lunar dates that the conversion proofs rest on.
 *
 * A Chinese month is an `int`: 1 to 12 for a regular month, -k for the leap
 * month that follows month k.
 */
module LunarMonths {
  import opened KotlinInt
  import opened CalendarTables
  import opened Wrappers

  /** Index of Chinese year `y` in the month table (year minus 1900). */
  function YearIndex(y: int): int
  {
    y - BaseChineseYear + BaseIndex
  }

  /** The years the table covers; a lookup for any other year is out of bounds. */
  predicate InTable(y: int)
  {
    0 <= YearIndex(y) <= 200
  }

  /** Bit `l` of `v`, Kotlin's `v shr l and 0x01 == 1` on a non-negative value. */
  predicate Bit(v: nat, l: nat)
  {
    if l == 0 then v % 2 == 1 else Bit(v / 2, l - 1)
  }

  /** Whether year index `i` appears in `bigLeapMonthYears` at position `j` or later. */
  predicate ListedFrom(i: int, j: nat)
    decreases |BigLeapMonthYears| - j, i
  {
    j < |BigLeapMonthYears| && (BigLeapMonthYears[j] == i || ListedFrom(i, j + 1))
  }

  /**
   * Whether table year `i` is listed, read after `hops` idle steps, which keep
   * a proof about an arbitrary year from walking the list.
   */
  predicate ListedAfter(i: int, hops: nat)
    decreases hops, i
  {
    if hops == 0 then ListedFrom(i, 0) else ListedAfter(i, hops - 1)
  }

  lemma {:induction false} ListedAfterIs(i: int, hops: nat)
    ensures ListedAfter(i, hops) == ListedFrom(i, 0)
    decreases hops
  {
    if hops > 0 {
      ListedAfterIs(i, hops - 1);
    }
  }

  /** Whether the leap month of Chinese year `y` has 30 days. */
  predicate BigLeapYear(y: int)
  {
    ListedAfter(YearIndex(y), 2)
  }

  /** `ListedFrom` is membership in the rest of the list. */
  lemma {:induction false} ListedFromIsMembership(i: int, j: nat)
    requires j <= |BigLeapMonthYears|
    ensures ListedFrom(i, j) <==> i in BigLeapMonthYears[j..]
    decreases |BigLeapMonthYears| - j, i
  {
    if j < |BigLeapMonthYears| {
      ListedFromIsMembership(i, j + 1);
      assert BigLeapMonthYears[j..] == [BigLeapMonthYears[j]] + BigLeapMonthYears[j + 1..];
    }
  }

  /** The year has a long leap month exactly when its index is listed. */
  lemma BigLeapYearIsListed(y: int)
    ensures BigLeapYear(y) <==> YearIndex(y) in BigLeapMonthYears
  {
    ListedFromIsMembership(YearIndex(y), 0);
    ListedAfterIs(YearIndex(y), 2);
    assert BigLeapMonthYears[0..] == BigLeapMonthYears;
  }

  /**
   * The high nibble of the second byte of table year `i`, `shr 4 and 0x0f`,
   * which for a byte is the quotient by 16: the regular month the leap month
   * follows. It is read after `hops` idle steps, which keep a proof about an
   * arbitrary year from decoding every year at once.
   */
  function LeapMonthAfter(i: int, hops: nat): (r: int)
    requires 0 <= i <= 200
    ensures 0 <= r < 16
    decreases hops, i
  {
    if hops == 0 then MonthByte(2 * i + 1) / 16 else LeapMonthAfter(i, hops - 1)
  }

  /** Whether regular month `m` of table year `i` has 29 days, read after `hops` idle steps. */
  predicate ShortMonthAfter(i: int, m: int, hops: nat)
    requires 0 <= i <= 200 && 1 <= m <= 12
    decreases hops, i
  {
    if hops == 0 then
      (if m <= 8 then Bit(MonthByte(2 * i), m - 1) else Bit(MonthByte(2 * i + 1), m - 9))
    else ShortMonthAfter(i, m, hops - 1)
  }

  /** The regular month that the leap month of year `y` follows, 0 when there is none. */
  function LeapMonth(y: int): (r: int)
    requires InTable(y)
    ensures 0 <= r < 16
  {
    LeapMonthAfter(YearIndex(y), 2)
  }

  /** Whether regular month `m` of year `y` has 29 days rather than 30: its bit in the table. */
  predicate ShortMonth(y: int, m: int)
    requires InTable(y) && 1 <= m <= 12
  {
    ShortMonthAfter(YearIndex(y), m, 2)
  }

  /** The steps reach the nibble of year `i`. */
  lemma {:induction false} LeapMonthAfterDecodes(i: int, hops: nat)
    requires 0 <= i <= 200
    ensures LeapMonthAfter(i, hops) == MonthByte(2 * i + 1) / 16
    decreases hops
  {
    if hops > 0 {
      LeapMonthAfterDecodes(i, hops - 1);
    }
  }

  /** The steps reach the bit of month `m` of year `i`. */
  lemma {:induction false} ShortMonthAfterDecodes(i: int, m: int, hops: nat)
    requires 0 <= i <= 200 && 1 <= m <= 12
    ensures ShortMonthAfter(i, m, hops)
        == if m <= 8 then Bit(MonthByte(2 * i), m - 1) else Bit(MonthByte(2 * i + 1), m - 9)
    decreases hops
  {
    if hops > 0 {
      ShortMonthAfterDecodes(i, m, hops - 1);
    }
  }

  /**
   * The length of month `m` of Chinese year `y`: 29 or 30 for a regular
   * month, and for any other `m` the length of the leap month when `|m|` is
   * the leap month's number, otherwise 0. As the table is read, `m == 0` in a
   * year without a leap month yields a length too.
   */
  function MonthLength(y: int, m: int): (d: int)
    requires InTable(y)
    ensures d == 0 || d == 29 || d == 30
    ensures 1 <= m <= 12 ==> d != 0
    ensures !(1 <= m <= 12) ==> (d != 0 <==> Abs(m) == LeapMonth(y))
    ensures !(1 <= m <= 12) && d != 0 ==> (d == 30 <==> BigLeapYear(y))
  {
    if 1 <= m <= 12 then (if ShortMonth(y, m) then 29 else 30)
    else if LeapMonth(y) != Abs(m) then 0
    else if BigLeapYear(y) then 30
    else 29
  }

  /** The length of a regular month as `daysInChineseMonth` reads it from the bytes. */
  lemma RegularLengthDecoded(y: int, m: int)
    requires InTable(y) && 1 <= m <= 12
    ensures MonthLength(y, m) == if (if m <= 8 then Bit(MonthByte(2 * YearIndex(y)), m - 1)
                                     else Bit(MonthByte(2 * YearIndex(y) + 1), m - 9))
                                  then 29 else 30
  {
    ShortMonthAfterDecodes(YearIndex(y), m, 2);
  }

  /** The length of any other month as `daysInChineseMonth` reads it from the bytes. */
  lemma LeapLengthDecoded(y: int, m: int)
    requires InTable(y) && !(1 <= m <= 12)
    ensures MonthLength(y, m) == if (MonthByte(2 * YearIndex(y) + 1) / 16) % 16 != Abs(m) then 0
                                  else if BigLeapYear(y) then 30 else 29
  {
    LeapMonthAfterDecodes(YearIndex(y), 2);
  }

  /**
   * `daysInChineseMonth`: the table lookup with the search of the list of
   * years whose leap month is long. The year must be in the table.
   */
  method DaysInChineseMonth(y: int, m: int) returns (d: int)
    requires InTable(y)
    ensures d == MonthLength(y, m)
  {
    var index := YearIndex(y);
    d := 30;
    if 1 <= m <= 12 {
      RegularLengthDecoded(y, m);
    } else {
      LeapLengthDecoded(y, m);
    }
    if 1 <= m && m <= 8 {
      var v := MonthByte(2 * index);
      var l := m - 1;
      if Bit(v, l) {
        d := 29;
      }
    } else if 9 <= m && m <= 12 {
      var v := MonthByte(2 * index + 1);
      var l := m - 9;
      if Bit(v, l) {
        d := 29;
      }
    } else {
      var v := MonthByte(2 * index + 1);
      v := (v / 16) % 16;
      if v != Abs(m) {
        d := 0;
      } else {
        d := 29;
        ListedAfterIs(index, 2);
        var i := 0;
        while i < |BigLeapMonthYears|
          invariant 0 <= i <= |BigLeapMonthYears|
          invariant d == 29 || d == 30
          invariant d == 30 ==> BigLeapYear(y)
          invariant d == 29 ==> (BigLeapYear(y) <==> ListedFrom(index, i))
        {
          if BigLeapMonthYears[i] == index {
            d := 30;
            break;
          }
          i := i + 1;
        }
      }
    }
  }

  /**
   * `nextChineseMonth`: the month after `m`. After a regular month comes its
   * leap month when the table says so, otherwise the next regular month;
   * after month 12 (or its leap month) comes month 1. Only a positive `m`
   * reads the table.
   */
  function NextChineseMonth(y: int, m: int): (n: int)
    requires m > 0 ==> InTable(y)
    ensures n != 0 && n != 13
    ensures Abs(m) <= 12 ==> 1 <= Abs(n) <= 12
    ensures n < 0 ==> m > 0 && n == -m && LeapMonth(y) == m
    ensures n > 0 ==> n == (if Abs(m) == 12 then 1 else Abs(m) + 1)
  {
    var n := if m > 0 && LeapMonth(y) == m then -m else Abs(m) + 1;
    if n == 13 then 1 else n
  }

  /** Whether `m` names a month that year `y` actually has. */
  predicate ValidMonth(y: int, m: int)
  {
    InTable(y) && 1 <= Abs(m) <= 12 && MonthLength(y, m) != 0
  }

  /** The year that follows month `m` of year `y` is in: the next one when the month is 1. */
  function NextMonthYear(y: int, m: int): int
    requires m > 0 ==> InTable(y)
  {
    if NextChineseMonth(y, m) == 1 then y + 1 else y
  }

  /**
   * The month loop of `add(CHINESE_MONTH, amount)`: `amount` steps of
   * `nextChineseMonth`, moving to the next year whenever month 1 is reached.
   * A step from a positive month of a year outside the table fails.
   */
  function AddMonths(y: int, m: int, amount: int): (r: Option<(int, int)>)
    ensures r.None? ==> amount > 0
    decreases amount, y, m
  {
    if amount <= 0 then Some((y, m))
    else if m > 0 && !InTable(y) then None
    else AddMonths(NextMonthYear(y, m), NextChineseMonth(y, m), amount - 1)
  }

  /**
   * The `add` loop moves the year forward by at most one per step and,
   * from a month numbered 1..12 in magnitude, stays on such months.
   */
  lemma {:induction false} AddMonthsBounds(y: int, m: int, amount: int)
    ensures var r := AddMonths(y, m, amount);
            r.Some? ==> y <= r.value.0 <= y + (if amount > 0 then amount else 0)
                        && (1 <= Abs(m) <= 12 ==> 1 <= Abs(r.value.1) <= 12)
    decreases amount, y, m
  {
    if amount > 0 && !(m > 0 && !InTable(y)) {
      AddMonthsBounds(NextMonthYear(y, m), NextChineseMonth(y, m), amount - 1);
    }
  }

  /** The month loop of `roll(CHINESE_MONTH, amount)`: the same steps without the year change. */
  function RollMonths(y: int, m: int, amount: int): (r: Option<int>)
    ensures amount <= 0 ==> r == Some(m)
    ensures r.None? <==> !InTable(y) && amount >= (if m > 0 then 1 else 2)
    ensures r.Some? && 1 <= Abs(m) <= 12 ==> 1 <= Abs(r.value) <= 12
    decreases amount, y, m
  {
    if amount <= 0 then Some(m)
    else if m > 0 && !InTable(y) then None
    else RollMonths(y, NextChineseMonth(y, m), amount - 1)
  }

  /** From a regular month followed by its leap month, `add` steps into the leap month. */
  lemma AddMonthsIntoLeap(y: int, k: int, j: int)
    requires InTable(y) && 1 <= k <= 12 && LeapMonth(y) == k && j >= 1
    ensures AddMonths(y, k, j) == AddMonths(y, -k, j - 1)
    ensures RollMonths(y, k, j) == RollMonths(y, -k, j - 1)
  {
  }

  /** From leap month -k, k < 12, `add` steps into regular month k + 1 of the same year. */
  lemma AddMonthsAfterLeap(y: int, k: int, j: int)
    requires 1 <= k <= 11 && j >= 1
    ensures AddMonths(y, -k, j) == AddMonths(y, k + 1, j - 1)
    ensures RollMonths(y, -k, j) == RollMonths(y, k + 1, j - 1)
  {
  }

  /** From leap month 12, one step of `add` reaches month 1 of the next year. */
  lemma AddMonthsAfterLeapTwelfth(y: int, j: int)
    requires j == 1
    ensures AddMonths(y, -12, j) == Some((y + 1, 1))
    ensures RollMonths(y, -12, j) == Some(1)
  {
  }

  /** From month 12 without a leap month, one step of `add` reaches month 1 of the next year. */
  lemma AddMonthsAfterTwelfth(y: int, j: int)
    requires InTable(y) && LeapMonth(y) != 12 && j == 1
    ensures AddMonths(y, 12, j) == Some((y + 1, 1))
    ensures RollMonths(y, 12, j) == Some(1)
  {
  }

  /** From month k < 12 without a leap month, `add` steps into month k + 1 of the same year. */
  lemma AddMonthsAfterRegular(y: int, k: int, j: int)
    requires InTable(y) && 1 <= k <= 11 && LeapMonth(y) != k && j >= 1
    ensures AddMonths(y, k, j) == AddMonths(y, k + 1, j - 1)
    ensures RollMonths(y, k, j) == RollMonths(y, k + 1, j - 1)
  {
  }

  /** Number of months in year `y`: twelve, and one more when it has a leap month. */
  function MonthsInYear(y: int): (n: int)
    requires InTable(y)
    ensures n == 12 || n == 13
  {
    if 1 <= LeapMonth(y) <= 12 then 13 else 12
  }

  /** Steps from regular month `k` of year `y` to month 1 of the next year. */
  function StepsToNewYear(y: int, k: int): int
    requires InTable(y)
  {
    13 - k + (if k <= LeapMonth(y) <= 12 then 1 else 0)
  }

  /** Month k + 1 is one step, or two across a leap month, closer to the new year than month k. */
  lemma StepsFromNextMonth(y: int, k: int)
    requires InTable(y) && 1 <= k <= 11
    ensures StepsToNewYear(y, k) == StepsToNewYear(y, k + 1) + (if LeapMonth(y) == k then 2 else 1)
  {
  }

  /**
   * From regular month `k`, every step short of `StepsToNewYear` stays in
   * year `y` on a month the year has, and that many steps reach month 1 of
   * year `y + 1`.
   */
  lemma {:induction false} AddMonthsToNewYear(y: int, k: int, j: int)
    requires InTable(y) && 1 <= k <= 12 && 0 <= j <= StepsToNewYear(y, k)
    ensures AddMonths(y, k, j).Some?
    ensures j == StepsToNewYear(y, k) ==> AddMonths(y, k, j).value == (y + 1, 1)
    ensures j < StepsToNewYear(y, k) ==>
      AddMonths(y, k, j).value.0 == y && ValidMonth(y, AddMonths(y, k, j).value.1)
  {
    AddMonthsWithinYear(y, k, j);
    if j < StepsToNewYear(y, k) {
      MonthOfYearValid(y, AddMonths(y, k, j).value.1);
    }
  }

  /** A regular month, or the leap month the table names, is a month the year has. */
  lemma MonthOfYearValid(y: int, m: int)
    requires InTable(y) && 1 <= Abs(m) <= 12 && (m < 0 ==> -m == LeapMonth(y))
    ensures ValidMonth(y, m)
  {
  }

  /** `AddMonthsToNewYear` with the month reached described by its number alone. */
  lemma {:induction false} AddMonthsWithinYear(y: int, k: int, j: int)
    requires InTable(y) && 1 <= k <= 12 && 0 <= j <= StepsToNewYear(y, k)
    ensures AddMonths(y, k, j).Some?
    ensures j == StepsToNewYear(y, k) ==> AddMonths(y, k, j).value == (y + 1, 1)
    ensures j < StepsToNewYear(y, k) ==> AddMonths(y, k, j).value.0 == y
    ensures j < StepsToNewYear(y, k) ==> var m := AddMonths(y, k, j).value.1;
      1 <= Abs(m) <= 12 && (m < 0 ==> -m == LeapMonth(y))
    decreases 12 - k
  {
    if j == 0 {
    } else if LeapMonth(y) == k {
      AddMonthsIntoLeap(y, k, j);
      if j == 1 {
      } else if k == 12 {
        AddMonthsAfterLeapTwelfth(y, j - 1);
      } else {
        AddMonthsAfterLeap(y, k, j - 1);
        StepsFromNextMonth(y, k);
        AddMonthsWithinYear(y, k + 1, j - 2);
      }
    } else if k == 12 {
      AddMonthsAfterTwelfth(y, j);
    } else {
      AddMonthsAfterRegular(y, k, j);
      StepsFromNextMonth(y, k);
      AddMonthsWithinYear(y, k + 1, j - 1);
    }
  }

  /**
   * `add(CHINESE_MONTH, n)` from month 1 returns to month 1, of the next
   * year, after exactly as many steps as the year has months.
   */
  lemma YearOfMonths(y: int)
    requires InTable(y)
    ensures AddMonths(y, 1, MonthsInYear(y)) == Some((y + 1, 1))
    ensures forall j :: 0 <= j < MonthsInYear(y) ==>
      AddMonths(y, 1, j).Some? && AddMonths(y, 1, j).value.0 == y
  {
    assert StepsToNewYear(y, 1) == MonthsInYear(y);
    AddMonthsToNewYear(y, 1, MonthsInYear(y));
    forall j | 0 <= j < MonthsInYear(y)
      ensures AddMonths(y, 1, j).Some? && AddMonths(y, 1, j).value.0 == y
    {
      AddMonthsToNewYear(y, 1, j);
    }
  }

  /** `roll` and `add` visit the same months; `roll` never changes the year. */
  lemma {:induction false} RollIsAddWithoutYear(y: int, m: int, amount: int)
    requires InTable(y) && 1 <= m <= 12 && 0 <= amount <= StepsToNewYear(y, m)
    ensures RollMonths(y, m, amount).Some? && AddMonths(y, m, amount).Some?
    ensures RollMonths(y, m, amount).value == AddMonths(y, m, amount).value.1
    decreases 12 - m
  {
    if amount == 0 {
    } else if LeapMonth(y) == m {
      AddMonthsIntoLeap(y, m, amount);
      if amount == 1 {
      } else if m == 12 {
        AddMonthsAfterLeapTwelfth(y, amount - 1);
      } else {
        AddMonthsAfterLeap(y, m, amount - 1);
        StepsFromNextMonth(y, m);
        RollIsAddWithoutYear(y, m + 1, amount - 2);
      }
    } else if m == 12 {
      AddMonthsAfterTwelfth(y, amount);
    } else {
      AddMonthsAfterRegular(y, m, amount);
      StepsFromNextMonth(y, m);
      RollIsAddWithoutYear(y, m + 1, amount - 1);
    }
  }

  // ---------------------------------------------------------------------
  // Lunar day numbers.

  /** Position of a month in its year: regular month k at 2k, its leap month at 2k + 1. */
  function Slot(m: int): int
  {
    if m > 0 then 2 * m else 2 * -m + 1
  }

  /**
   * The month at position `s`, 2 <= s <= 25, worked out after `hops` idle
   * steps, which keep a proof about an arbitrary position from dividing.
   */
  function MonthAtAfter(s: int, hops: nat): int
    decreases hops, s
  {
    if hops == 0 then (if s % 2 == 0 then s / 2 else -(s / 2)) else MonthAtAfter(s, hops - 1)
  }

  /** The month at position `s`, 2 <= s <= 25. */
  function MonthAt(s: int): int
  {
    MonthAtAfter(s, 2)
  }

  lemma {:induction false} MonthAtAfterIs(s: int, hops: nat)
    ensures MonthAtAfter(s, hops) == if s % 2 == 0 then s / 2 else -(s / 2)
    decreases hops
  {
    if hops > 0 {
      MonthAtAfterIs(s, hops - 1);
    }
  }

  /** The position of a month holds that month. */
  lemma MonthAtSlotIs(m: int)
    requires m != 0
    ensures MonthAt(Slot(m)) == m
  {
    MonthAtAfterIs(Slot(m), 2);
  }

  /** Length of the month at position `s`; 0 for a leap position the year does not use. */
  function SlotLength(y: int, s: int): (d: int)
    requires InTable(y)
    ensures d >= 0
  {
    MonthLength(y, MonthAt(s))
  }

  /**
   * The position before `s`. `DaysBefore` steps through it, which keeps the
   * verifier from adding up a known year month by month.
   */
  function PreviousSlot(s: int): int { s - 1 }

  /** Days in year `y` before the month at position `s`. */
  function DaysBefore(y: int, s: int): (n: int)
    requires InTable(y) && 2 <= s <= 26
    ensures n >= 0
    decreases s, y
  {
    if s == 2 then 0 else DaysBefore(y, PreviousSlot(s)) + SlotLength(y, PreviousSlot(s))
  }

  /** Days in Chinese year `y`. */
  function LunarYearLength(y: int): (n: int)
    requires InTable(y)
    ensures n >= 0
  {
    DaysBefore(y, 26)
  }

  /** Day number of the first day of Chinese year `y`, counting from 1900/1/1 as day 0. */
  function LunarYearStart(y: int): int
    requires 1900 <= y <= 2101
    decreases y - 1900, 0
  {
    if y == 1900 then 0 else MonthStart(PreviousYear(y), 26)
  }

  /**
   * Day number of the first day of the month at position `s` of year `y`;
   * position 26 is the first day of the next year.
   */
  function MonthStart(y: int, s: int): int
    requires InTable(y) && 2 <= s <= 26
    decreases y - 1900, 1
  {
    LunarYearStart(y) + DaysBefore(y, s)
  }

  /** Day number of lunar date `y`/`m`/`d`, counting from 1900/1/1. */
  function LunarDay(y: int, m: int, d: int): int
    requires InTable(y) && 1 <= Abs(m) <= 12
  {
    MonthStart(y, Slot(m)) + d - 1
  }

  /** A lunar date that names a month the year has and a day within it. */
  predicate IsLunarDate(y: int, m: int, d: int)
  {
    ValidMonth(y, m) && 1 <= d <= MonthLength(y, m)
  }

  /** Month positions of all years in one sequence: position `s` of year `y` is number `Ordinal(y, s)`. */
  function Ordinal(y: int, s: int): int
  {
    (y - 1900) * 24 + s - 2
  }

  /** One step of `DaysBefore`. */
  lemma DaysBeforeStep(y: int, s: int)
    requires InTable(y) && 2 <= s <= 25
    ensures DaysBefore(y, s + 1) == DaysBefore(y, s) + SlotLength(y, s)
  {
  }

  /** One step of `LunarYearStart`. */
  lemma YearStartStep(y: int)
    requires InTable(y)
    ensures LunarYearStart(y + 1) == LunarYearStart(y) + LunarYearLength(y)
  {
  }

  /** Within a year, each month starts when the one at the previous position ends. */
  lemma SlotStartWithin(y: int, s: int)
    requires InTable(y) && 3 <= s <= 25
    ensures MonthStart(y, s) == MonthStart(y, s - 1) + SlotLength(y, s - 1)
  {
    DaysBeforeStep(y, s - 1);
  }

  /** The first month of a year starts when the last position of the year before ends. */
  lemma SlotStartOfYear(y: int)
    requires InTable(y) && InTable(y - 1)
    ensures MonthStart(y, 2) == MonthStart(y - 1, 25) + SlotLength(y - 1, 25)
  {
    DaysBeforeStep(y - 1, 25);
    YearStartStep(y - 1);
  }

  /** A position is determined by its ordinal. */
  lemma OrdinalInjective(y1: int, s1: int, y2: int, s2: int)
    requires 2 <= s1 <= 25 && 2 <= s2 <= 25 && Ordinal(y1, s1) == Ordinal(y2, s2)
    ensures y1 == y2 && s1 == s2
  {
    assert (y2 - y1) * 24 == s1 - s2;
  }

  /** Position 25 of the year before is the position before the first one of year `y`. */
  lemma PreviousOfFirstSlot(y: int) returns (py: int, ps: int)
    requires InTable(y) && Ordinal(y, 2) > 0
    ensures InTable(py) && 2 <= ps <= 25 && Ordinal(py, ps) == Ordinal(y, 2) - 1
    ensures MonthStart(y, 2) == MonthStart(py, ps) + SlotLength(py, ps)
  {
    py, ps := y - 1, 25;
    SlotStartOfYear(y);
  }

  /** Within a year the position before `s` is `s - 1`. */
  lemma PreviousOfLaterSlot(y: int, s: int) returns (py: int, ps: int)
    requires InTable(y) && 3 <= s <= 25
    ensures InTable(py) && 2 <= ps <= 25 && Ordinal(py, ps) == Ordinal(y, s) - 1
    ensures MonthStart(y, s) == MonthStart(py, ps) + SlotLength(py, ps)
  {
    py, ps := y, s - 1;
    SlotStartWithin(y, s);
  }

  /** The month before position (y, s) ends where the month at (y, s) starts. */
  lemma PreviousSlotEnds(y: int, s: int) returns (py: int, ps: int)
    requires InTable(y) && 2 <= s <= 25 && Ordinal(y, s) > 0
    ensures InTable(py) && 2 <= ps <= 25 && Ordinal(py, ps) == Ordinal(y, s) - 1
    ensures MonthStart(y, s) == MonthStart(py, ps) + SlotLength(py, ps)
  {
    if s == 2 {
      py, ps := PreviousOfFirstSlot(y);
    } else {
      py, ps := PreviousOfLaterSlot(y, s);
    }
  }

  /**
   * Months at later positions start later: by at least the length of every
   * month from position (y1, s1) up to (y2, s2).
   */
  lemma {:induction false} LaterSlotStartsLater(y1: int, s1: int, y2: int, s2: int)
    requires InTable(y1) && InTable(y2) && 2 <= s1 <= 25 && 2 <= s2 <= 25
    requires Ordinal(y1, s1) < Ordinal(y2, s2)
    ensures MonthStart(y1, s1) + SlotLength(y1, s1) <= MonthStart(y2, s2)
    decreases Ordinal(y2, s2) - Ordinal(y1, s1)
  {
    var py, ps := PreviousSlotEnds(y2, s2);
    if Ordinal(y1, s1) < Ordinal(py, ps) {
      LaterSlotStartsLater(y1, s1, py, ps);
    } else {
      OrdinalInjective(y1, s1, py, ps);
    }
  }

  /** A lunar date's day number lies within its month. */
  lemma DayWithinMonth(y: int, m: int, d: int)
    requires IsLunarDate(y, m, d)
    ensures 2 <= Slot(m) <= 25 && MonthAt(Slot(m)) == m
    ensures MonthStart(y, Slot(m)) <= LunarDay(y, m, d) < MonthStart(y, Slot(m)) + SlotLength(y, Slot(m))
  {
    MonthAtSlotIs(m);
  }

  /**
   * Distinct lunar dates have distinct day numbers: the day number
   * determines year, month and day.
   */
  lemma LunarDayInjective(y1: int, m1: int, d1: int, y2: int, m2: int, d2: int)
    requires IsLunarDate(y1, m1, d1) && IsLunarDate(y2, m2, d2)
    requires LunarDay(y1, m1, d1) == LunarDay(y2, m2, d2)
    ensures y1 == y2 && m1 == m2 && d1 == d2
  {
    DayWithinMonth(y1, m1, d1);
    DayWithinMonth(y2, m2, d2);
    var s1, s2 := Slot(m1), Slot(m2);
    if Ordinal(y1, s1) < Ordinal(y2, s2) {
      LaterSlotStartsLater(y1, s1, y2, s2);
    } else if Ordinal(y2, s2) < Ordinal(y1, s1) {
      LaterSlotStartsLater(y2, s2, y1, s1);
    }
    OrdinalInjective(y1, s1, y2, s2);
  }

  /** Positions of a regular month, its leap month and the next regular month. */
  lemma LeapSlots(m: int)
    requires 1 <= m <= 12
    ensures Slot(-m) == Slot(m) + 1 && MonthAt(Slot(m)) == m && MonthAt(Slot(m) + 1) == -m
    ensures m < 12 ==> Slot(m + 1) == Slot(m) + 2 && Slot(m + 1) == Slot(-m) + 1
  {
    MonthAtSlotIs(m);
    MonthAtSlotIs(-m);
  }

  /** Every regular month of a year in the table is a month the year has. */
  lemma RegularMonthValid(y: int, m: int)
    requires InTable(y) && 1 <= m <= 12
    ensures ValidMonth(y, m)
  {
  }

  /** The leap month the table names is a month the year has. */
  lemma LeapMonthValid(y: int, m: int)
    requires InTable(y) && 1 <= m <= 12 && LeapMonth(y) == m
    ensures ValidMonth(y, -m)
  {
  }

  /** A leap month starts when the regular month it follows ends. */
  lemma LeapMonthStart(y: int, m: int)
    requires InTable(y) && 1 <= m <= 12 && LeapMonth(y) == m
    ensures LunarDay(y, -m, 1) == LunarDay(y, m, 1) + MonthLength(y, m)
  {
    LeapSlots(m);
    SlotStartWithin(y, Slot(m) + 1);
  }

  /** The leap position after a month without a leap month is empty. */
  lemma EmptyLeapSlot(y: int, m: int)
    requires InTable(y) && 1 <= m <= 12 && LeapMonth(y) != m
    ensures SlotLength(y, Slot(m) + 1) == 0
  {
    LeapSlots(m);
  }

  /** Across an empty position, the month two positions on starts when the month at `s` ends. */
  lemma SlotStartAcrossEmpty(y: int, s: int)
    requires InTable(y) && 2 <= s <= 23 && SlotLength(y, s + 1) == 0
    ensures MonthStart(y, s + 2) == MonthStart(y, s) + SlotLength(y, s)
  {
    SlotStartWithin(y, s + 1);
    SlotStartWithin(y, s + 2);
  }

  /** The first day of a month is the start of its position, and its length that position's. */
  lemma MonthAtSlot(y: int, m: int)
    requires InTable(y) && 1 <= Abs(m) <= 12
    ensures LunarDay(y, m, 1) == MonthStart(y, Slot(m))
    ensures MonthLength(y, m) == SlotLength(y, Slot(m))
  {
    MonthAtSlotIs(m);
  }

  /** Without a leap month in between, month m + 1 starts when month m ends. */
  lemma RegularMonthStart(y: int, m: int)
    requires InTable(y) && 1 <= m <= 11 && LeapMonth(y) != m
    ensures LunarDay(y, m + 1, 1) == LunarDay(y, m, 1) + MonthLength(y, m)
  {
    LeapSlots(m);
    EmptyLeapSlot(y, m);
    SlotStartAcrossEmpty(y, Slot(m));
    MonthAtSlot(y, m);
    MonthAtSlot(y, m + 1);
  }

  /** Without a leap month 12, the next year starts when month 12 ends. */
  lemma NewYearAfterTwelfth(y: int)
    requires InTable(y) && InTable(y + 1) && LeapMonth(y) != 12
    ensures LunarDay(y + 1, 1, 1) == LunarDay(y, 12, 1) + MonthLength(y, 12)
  {
    EmptyLeapSlot(y, 12);
    SlotStartWithin(y, 25);
    SlotStartOfYear(y + 1);
    MonthAtSlot(y, 12);
    MonthAtSlot(y + 1, 1);
  }

  /** The regular month after a leap month starts when the leap month ends. */
  lemma MonthAfterLeapStart(y: int, m: int)
    requires ValidMonth(y, -m) && 1 <= m <= 11
    ensures LunarDay(y, m + 1, 1) == LunarDay(y, -m, 1) + MonthLength(y, -m)
  {
    LeapSlots(m);
    SlotStartWithin(y, Slot(-m) + 1);
    MonthAtSlot(y, -m);
    MonthAtSlot(y, m + 1);
  }

  /** The next year starts when a leap month 12 ends. */
  lemma NewYearAfterLeapTwelfth(y: int)
    requires ValidMonth(y, -12) && InTable(y + 1)
    ensures LunarDay(y + 1, 1, 1) == LunarDay(y, -12, 1) + MonthLength(y, -12)
  {
    LeapSlots(12);
    SlotStartOfYear(y + 1);
  }

  /**
   * The partner of `nextChineseMonth`: from a month the year has, the next
   * month is one the (possibly next) year has, and it starts exactly one
   * month length later.
   */
  lemma NextMonthFollows(y: int, m: int)
    requires ValidMonth(y, m) && InTable(NextMonthYear(y, m))
    ensures ValidMonth(NextMonthYear(y, m), NextChineseMonth(y, m))
    ensures LunarDay(NextMonthYear(y, m), NextChineseMonth(y, m), 1)
         == LunarDay(y, m, 1) + MonthLength(y, m)
  {
    if m > 0 && LeapMonth(y) == m {
      assert NextChineseMonth(y, m) == -m && NextMonthYear(y, m) == y;
      LeapMonthValid(y, m);
      LeapMonthStart(y, m);
    } else if m > 0 && m < 12 {
      assert NextChineseMonth(y, m) == m + 1 && NextMonthYear(y, m) == y;
      RegularMonthValid(y, m + 1);
      RegularMonthStart(y, m);
    } else if m > 0 {
      assert NextChineseMonth(y, m) == 1 && NextMonthYear(y, m) == y + 1;
      RegularMonthValid(y + 1, 1);
      NewYearAfterTwelfth(y);
    } else if m > -12 {
      assert NextChineseMonth(y, m) == -m + 1 && NextMonthYear(y, m) == y;
      RegularMonthValid(y, -m + 1);
      MonthAfterLeapStart(y, -m);
    } else {
      assert NextChineseMonth(y, m) == 1 && NextMonthYear(y, m) == y + 1;
      RegularMonthValid(y + 1, 1);
      NewYearAfterLeapTwelfth(y);
    }
  }
}
