/**
 * The lengths of the Chinese years as the packed month table gives them:
 * the days `daysInChineseMonth` gives the months of a year add up to twelve
 * 30-day months, less one day per bit set in the year's two bytes, plus the
 * leap month; and the start of a year is the sum of the years before it.
 */
module LunarYears {
  import opened KotlinInt
  import opened CalendarTables
  import opened LunarMonths

  /** The set bits of `v` below bit `n`, bit by bit as `daysInChineseMonth` tests them. */
  function BitCount(v: nat, n: nat): nat
  {
    if n == 0 then 0 else BitCount(v, n - 1) + (if Bit(v, n - 1) then 1 else 0)
  }

  /** Bit `l` of `v` as a number. */
  function BitValue(v: nat, l: nat): nat
  {
    if Bit(v, l) then 1 else 0
  }

  /** Four bits `d0`..`d3` written out below a quotient `q`: the count is their sum. */
  lemma NibbleDigits(v: nat, q: nat, d0: nat, d1: nat, d2: nat, d3: nat)
    requires d0 <= 1 && d1 <= 1 && d2 <= 1 && d3 <= 1
    requires v == d0 + 2 * d1 + 4 * d2 + 8 * d3 + 16 * q
    ensures BitCount(v, 4) == d0 + d1 + d2 + d3
  {
    var v1, v2, v3 := d1 + 2 * d2 + 4 * d3 + 8 * q, d2 + 2 * d3 + 4 * q, d3 + 2 * q;
    assert v / 2 == v1 && v1 / 2 == v2 && v2 / 2 == v3;
    assert Bit(v, 0) == (d0 == 1) && Bit(v1, 0) == (d1 == 1) && Bit(v2, 0) == (d2 == 1) && Bit(v3, 0) == (d3 == 1);
    assert Bit(v, 3) == Bit(v1, 2) == Bit(v2, 1) == Bit(v3, 0);
    assert Bit(v, 2) == Bit(v1, 1) == Bit(v2, 0);
    assert Bit(v, 1) == Bit(v1, 0);
    assert BitCount(v, 4) == BitCount(v, 3) + BitValue(v, 3);
    assert BitCount(v, 3) == BitCount(v, 2) + BitValue(v, 2);
    assert BitCount(v, 2) == BitCount(v, 1) + BitValue(v, 1);
    assert BitCount(v, 1) == BitValue(v, 0);
  }

  /** A byte written out as its eight bits `d0`..`d7`: the count is their sum. */
  lemma ByteDigits(v: nat, d0: nat, d1: nat, d2: nat, d3: nat, d4: nat, d5: nat, d6: nat, d7: nat)
    requires d0 <= 1 && d1 <= 1 && d2 <= 1 && d3 <= 1 && d4 <= 1 && d5 <= 1 && d6 <= 1 && d7 <= 1
    requires v == d0 + 2 * d1 + 4 * d2 + 8 * d3 + 16 * (d4 + 2 * d5 + 4 * d6 + 8 * d7)
    ensures BitCount(v, 8) == d0 + d1 + d2 + d3 + d4 + d5 + d6 + d7
  {
    var h := d4 + 2 * d5 + 4 * d6 + 8 * d7;
    var v1, v2, v3 := d1 + 2 * d2 + 4 * d3 + 8 * h, d2 + 2 * d3 + 4 * h, d3 + 2 * h;
    assert v / 2 == v1 && v1 / 2 == v2 && v2 / 2 == v3 && v3 / 2 == h;
    NibbleDigits(v, h, d0, d1, d2, d3);
    NibbleDigits(h, 0, d4, d5, d6, d7);
    assert Bit(v, 7) == Bit(v1, 6) == Bit(v2, 5) == Bit(v3, 4) == Bit(h, 3);
    assert Bit(v, 6) == Bit(v1, 5) == Bit(v2, 4) == Bit(v3, 3) == Bit(h, 2);
    assert Bit(v, 5) == Bit(v1, 4) == Bit(v2, 3) == Bit(v3, 2) == Bit(h, 1);
    assert Bit(v, 4) == Bit(v1, 3) == Bit(v2, 2) == Bit(v3, 1) == Bit(h, 0);
    assert BitCount(h, 4) == BitCount(h, 3) + BitValue(h, 3);
    assert BitCount(h, 3) == BitCount(h, 2) + BitValue(h, 2);
    assert BitCount(h, 2) == BitCount(h, 1) + BitValue(h, 1);
    assert BitCount(h, 1) == BitValue(h, 0);
    assert BitCount(v, 8) == BitCount(v, 7) + BitValue(v, 7);
    assert BitCount(v, 7) == BitCount(v, 6) + BitValue(v, 6);
    assert BitCount(v, 6) == BitCount(v, 5) + BitValue(v, 5);
    assert BitCount(v, 5) == BitCount(v, 4) + BitValue(v, 4);
  }

  /** The table years whose leap month has 30 days, written out. */
  predicate LongLeap(i: int)
  {
    i == 6 || i == 14 || i == 19 || i == 25 || i == 33 || i == 36 || i == 38 || i == 41 || i == 44 || i == 52
    || i == 55 || i == 79 || i == 117 || i == 136 || i == 147 || i == 150 || i == 155 || i == 158 || i == 185 || i == 193
  }

  /**
   * Days of table year `i`: twelve 30-day months less one per short month
   * (bits 0 to 7 of the first byte, bits 0 to 3 of the second), plus the
   * leap month named by the high nibble of the second byte.
   */
  function TableYearLength(i: int): int
    requires 0 <= i <= 200
  {
    var b0, b1 := MonthByte(2 * i), MonthByte(2 * i + 1);
    var leap := b1 / 16;
    360 - BitCount(b0, 8) - BitCount(b1, 4) + (if leap == 0 || leap > 12 then 0 else if LongLeap(i) then 30 else 29)
  }

  /**
   * `TableYearLength(i)` after `hops` idle steps, which keep a proof about an
   * arbitrary span from reading the table.
   */
  function YearLengthAfter(i: int, hops: nat): int
    requires 0 <= i <= 200
    decreases hops
  {
    if hops == 0 then TableYearLength(i) else YearLengthAfter(i, hops - 1)
  }

  lemma {:induction false} YearLengthAfterIs(i: int, hops: nat)
    requires 0 <= i <= 200
    ensures YearLengthAfter(i, hops) == TableYearLength(i)
    decreases hops
  {
    if hops > 0 {
      YearLengthAfterIs(i, hops - 1);
    }
  }

  /** Days of the table years `i` to `j - 1`. */
  function TableSpan(i: int, j: int): int
    requires 0 <= i <= j <= 201
    decreases j - i
  {
    if i == j then 0 else YearLengthAfter(i, 2) + TableSpan(i + 1, j)
  }

  // ---------------------------------------------------------------------
  // Year lengths.

  /** Days of the regular months before position `s` (even) of year `y`. */
  function RegularDays(y: int, s: int): int
    requires InTable(y) && 2 <= s <= 26
  {
    if s <= 3 then 0 else RegularDays(y, s - 2) + SlotLength(y, s - 2)
  }

  /** Days of the leap months before position `s` (even) of year `y`; at most one has any. */
  function LeapDays(y: int, s: int): int
    requires InTable(y) && 2 <= s <= 26
  {
    if s <= 3 then 0 else LeapDays(y, s - 2) + SlotLength(y, s - 1)
  }

  /** Two steps of `DaysBefore`. */
  lemma PairStep(y: int, t: int)
    requires InTable(y) && 2 <= t <= 24
    ensures DaysBefore(y, t + 1 + 1) == DaysBefore(y, t) + SlotLength(y, t) + SlotLength(y, t + 1)
  {
    DaysBeforeStep(y, t);
    DaysBeforeStep(y, t + 1);
  }

  lemma {:induction false} DaysBeforeSplit(y: int, k: int, s: int)
    requires InTable(y) && 0 <= k <= 12 && s == 2 * k + 2
    ensures DaysBefore(y, s) == RegularDays(y, s) + LeapDays(y, s)
  {
    if k > 0 {
      DaysBeforeSplit(y, k - 1, s - 2);
      PairStep(y, s - 2);
    }
  }

  /** The leap months before month `k + 1` add the leap month's length when it falls there. */
  lemma {:induction false} LeapDaysAre(y: int, k: int, s: int)
    requires InTable(y) && 0 <= k <= 12 && s == 2 * k + 2
    ensures LeapDays(y, s) == if 1 <= LeapMonth(y) <= k then (if BigLeapYear(y) then 30 else 29) else 0
  {
    if k > 0 {
      LeapDaysAre(y, k - 1, s - 2);
      MonthAtSlotIs(-k);
    }
  }

  /** The regular months before month `k + 1` are 30 days each, less one per bit set in the table. */
  lemma {:induction false} RegularDaysAre(y: int, k: int, s: int)
    requires InTable(y) && 0 <= k <= 12 && s == 2 * k + 2
    ensures var i := YearIndex(y);
            RegularDays(y, s) == 30 * k - BitCount(MonthByte(2 * i), if k < 8 then k else 8)
                                 - (if k > 8 then BitCount(MonthByte(2 * i + 1), k - 8) else 0)
  {
    if k > 0 {
      RegularDaysAre(y, k - 1, s - 2);
      MonthAtSlotIs(k);
      RegularLengthDecoded(y, k);
    }
  }

  /** The leap month of a year, as the bytes and the list of long leap months give it. */
  lemma LeapYearFromTable(y: int)
    requires InTable(y)
    ensures var i := YearIndex(y);
            var leap := MonthByte(2 * i + 1) / 16;
            LeapDays(y, 26) == if leap == 0 || leap > 12 then 0 else if LongLeap(i) then 30 else 29
  {
    var i := YearIndex(y);
    LeapDaysAre(y, 12, 26);
    LeapMonthAfterDecodes(i, 2);
    BigLeapYearIsListed(y);
  }

  /** A year's length is the one the bytes give. */
  lemma YearLengthFromTable(y: int)
    requires InTable(y)
    ensures LunarYearLength(y) == TableYearLength(YearIndex(y))
  {
    DaysBeforeSplit(y, 12, 26);
    RegularDaysAre(y, 12, 26);
    LeapYearFromTable(y);
  }

  /** Splitting a span. */
  lemma {:induction false} TableSpanSplit(i: int, j: int, k: int)
    requires 0 <= i <= j <= k <= 201
    ensures TableSpan(i, k) == TableSpan(i, j) + TableSpan(j, k)
    decreases j - i
  {
    if i < j {
      TableSpanSplit(i + 1, j, k);
    }
  }

  /** Chinese year `1900 + n` starts after the table years before it. */
  lemma {:induction false} LunarYearStartIs(n: int)
    requires 0 <= n <= 201
    ensures LunarYearStart(1900 + n) == TableSpan(0, n)
  {
    if n > 0 {
      LunarYearStartIs(n - 1);
      YearStartStep(1900 + n - 1);
      YearLengthFromTable(1900 + n - 1);
      TableSpanSplit(0, n - 1, n);
      YearLengthAfterIs(n - 1, 2);
    }
  }
}
