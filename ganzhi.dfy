/**
 * The sexagenary (GanZhi) labels of a month and of a day: a heavenly stem
 * from the ten `ganData` names and an earthly branch from one of the two
 * orderings of the twelve branch names. Integer division and remainder
 * are Kotlin's, truncating toward zero.
 *
 * The month label goes through the object's `correctionIndex`, which only
 * some years overwrite; the day label is a closed formula in the year's
 * century, the year within the century, the month and the day.
 */
module GanZhi {
  import opened KotlinInt
  import opened Wrappers

  /** `ganData`: the ten heavenly stems. */
  const GanNames: seq<string> := ["甲", "乙", "丙", "丁", "戊", "己", "庚", "辛", "壬", "癸"]

  /** `zhiDataMonth`: the twelve earthly branches starting from 寅, the branch of the first month. */
  const MonthBranchNames: seq<string> := ["寅", "卯", "辰", "巳", "午", "未", "申", "酉", "戌", "亥", "子", "丑"]

  /** `zhiDataDay`: the twelve earthly branches starting from 子. */
  const DayBranchNames: seq<string> := ["子", "丑", "寅", "卯", "辰", "巳", "午", "未", "申", "酉", "戌", "亥"]

  // ---------------------------------------------------------------------
  // The month label.

  /** The values `correctionIndex` is ever given: the initial 0 and the five corrections. */
  predicate ValidCorrection(c: int)
  {
    c == -8 || c == -6 || c == -4 || c == -2 || c == 0
  }

  /** `gan` of `getGanZhiMonth`: `((year % 5) - 2) * 2 - 2`, plus 10 when negative. */
  function MonthGan(year: int): (gan: int)
    ensures year >= 0 ==> gan == 0 || gan == 2 || gan == 4 || gan == 6 || gan == 8
    ensures year < 0 ==> gan == -4 || gan == -2 || gan == 0 || gan == 2 || gan == 4
  {
    RemBounds(year, 5);
    var gan := (Rem(year, 5) - 2) * 2 - 2;
    if gan < 0 then gan + 10 else gan
  }

  /**
   * `correctionIndex` after the `when` of `getGanZhiMonth`, given its value
   * `previous` before: -8, -6, -4, -2 or 0 for `gan` 0..4 (and 5..9), and
   * unchanged for any other `gan`.
   */
  function CorrectionAfter(year: int, previous: int): (c: int)
    ensures c == previous || ValidCorrection(c)
    ensures ValidCorrection(previous) ==> ValidCorrection(c)
  {
    var gan := MonthGan(year);
    if gan == 0 || gan == 5 then -8
    else if gan == 1 || gan == 6 then -6
    else if gan == 2 || gan == 7 then -4
    else if gan == 3 || gan == 8 then -2
    else if gan == 4 || gan == 9 then 0
    else previous
  }

  /** `ganIndex` as written: the month from 0 plus the correction, plus 10 when negative. */
  function MonthGanIndexAsWritten(month: int, correction: int): (i: int)
    ensures 0 <= month < 12 && ValidCorrection(correction) ==>
              0 <= i < 12 && (i >= 10 <==> correction == 0 && month >= 10)
  {
    var ganIndex := month + correction;
    if ganIndex < 0 then ganIndex + 10 else ganIndex
  }

  /**
   * `getGanZhiMonth(year, _month)` as written, once `correctionIndex` is
   * `correction`: the stem at `ganIndex` and the branch at `_month - 1`,
   * or None where either index is outside its list.
   */
  function GanZhiMonthAsWritten(month1: int, correction: int): (r: Option<string>)
    ensures r.Some? ==> 1 <= month1 <= 12 && |r.value| == 2 && r.value[1] == MonthBranchNames[month1 - 1][0]
    ensures ValidCorrection(correction) && 1 <= month1 <= 12 ==> (r.None? <==> correction == 0 && month1 >= 11)
  {
    var month := month1 - 1;
    var ganIndex := MonthGanIndexAsWritten(month, correction);
    if 0 <= ganIndex < |GanNames| && 0 <= month < |MonthBranchNames| then
      Some(GanNames[ganIndex] + MonthBranchNames[month])
    else None
  }

  /** `ganIndex` wrapped into the ten stems from both sides. */
  function MonthGanIndex(month: int, correction: int): (i: int)
    ensures 0 <= month < 12 && ValidCorrection(correction) ==> 0 <= i < 10
  {
    var ganIndex := MonthGanIndexAsWritten(month, correction);
    if ganIndex >= 10 then ganIndex - 10 else ganIndex
  }

  /** The month label with the stem index wrapped into the ten stems; None only for a month outside 1..12. */
  function GanZhiMonth(month1: int, correction: int): (r: Option<string>)
  {
    var month := month1 - 1;
    var ganIndex := MonthGanIndex(month, correction);
    if 0 <= ganIndex < |GanNames| && 0 <= month < |MonthBranchNames| then
      Some(GanNames[ganIndex] + MonthBranchNames[month])
    else None
  }

  /** The object `GanZhiCalendar`, whose one piece of state is `correctionIndex`. */
  class GanZhiCalendar {
    var correctionIndex: int

    constructor ()
      ensures correctionIndex == 0
    {
      correctionIndex := 0;
    }

    /**
     * `getGanZhiMonth(year, _month)`: compute `gan` from `year % 5`,
     * overwrite `correctionIndex` when `gan` is one of the five cases, then
     * label month `_month` with the stem at `_month - 1` plus the correction,
     * wrapped only when negative; None where an index leaves its list.
     */
    method GetGanZhiMonth(year: int, month1: int) returns (r: Option<string>)
      modifies this
      ensures correctionIndex == CorrectionAfter(year, old(correctionIndex))
      ensures ValidCorrection(old(correctionIndex)) ==> ValidCorrection(correctionIndex)
      ensures r == GanZhiMonthAsWritten(month1, correctionIndex)
    {
      var month := month1 - 1;
      UpdateCorrection(year);
      var ganIndex := month + correctionIndex;
      if ganIndex < 0 {
        ganIndex := ganIndex + 10;
      }
      if 0 <= ganIndex < |GanNames| && 0 <= month < |MonthBranchNames| {
        r := Some(GanNames[ganIndex] + MonthBranchNames[month]);
      } else {
        r := None;
      }
    }

    /** The `when` of `getGanZhiMonth`: `correctionIndex` set from `gan`, or left as it was. */
    method UpdateCorrection(year: int)
      modifies this
      ensures correctionIndex == CorrectionAfter(year, old(correctionIndex))
    {
      var gan := (Rem(year, 5) - 2) * 2 - 2;
      if gan < 0 {
        gan := gan + 10;
      }
      assert gan == MonthGan(year);
      if gan == 0 || gan == 5 {
        correctionIndex := -8;
      } else if gan == 1 || gan == 6 {
        correctionIndex := -6;
      } else if gan == 2 || gan == 7 {
        correctionIndex := -4;
      } else if gan == 3 || gan == 8 {
        correctionIndex := -2;
      } else if gan == 4 || gan == 9 {
        correctionIndex := 0;
      }
    }
  }

  /** Every year from 0 on takes one of the five cases, so the correction does not depend on the one before. */
  lemma CorrectionAssigned(year: int, p: int, q: int)
    requires year >= 0
    ensures CorrectionAfter(year, p) == CorrectionAfter(year, q)
    ensures ValidCorrection(CorrectionAfter(year, p))
  {
  }

  /** A negative year with `year % 5` of -3 or -4 leaves `correctionIndex` as the previous call set it. */
  lemma CorrectionStale(year: int, p: int)
    requires Rem(year, 5) == -3 || Rem(year, 5) == -4
    ensures CorrectionAfter(year, p) == p
  {
  }

  /** Any other year does set it. */
  lemma CorrectionSet(year: int, p: int, q: int)
    requires Rem(year, 5) != -3 && Rem(year, 5) != -4
    ensures CorrectionAfter(year, p) == CorrectionAfter(year, q)
  {
    RemBounds(year, 5);
  }

  /** From year 0 on, the correction repeats every five years, and with it the month labels. */
  lemma {:induction false} CorrectionPeriod(year: int, p: int)
    requires year >= 0
    ensures CorrectionAfter(year + 5, p) == CorrectionAfter(year, p)
  {
    AgreeOnNatural(year, 5);
    AgreeOnNatural(year + 5, 5);
  }

  /** Every month 1..12 gets a two-character label ending in its branch; no other month gets one. */
  lemma MonthLabel(month1: int, c: int)
    requires ValidCorrection(c)
    ensures GanZhiMonth(month1, c).Some? <==> 1 <= month1 <= 12
    ensures 1 <= month1 <= 12 ==>
              GanZhiMonth(month1, c).value == GanNames[MonthGanIndex(month1 - 1, c)] + MonthBranchNames[month1 - 1]
              && |GanZhiMonth(month1, c).value| == 2
  {
  }

  /** The first month is a 寅 month and the eleventh a 子 month. */
  lemma FirstAndEleventhMonth(c: int)
    requires ValidCorrection(c)
    ensures GanZhiMonth(1, c).Some? && GanZhiMonth(1, c).value[1] == '寅'
    ensures GanZhiMonth(11, c).Some? && GanZhiMonth(11, c).value[1] == '子'
  {
  }

  /** From one month to the next within the year, the stem moves on by one, 癸 wrapping to 甲. */
  lemma MonthStemAdvances(month: int, c: int)
    requires 0 <= month < 11 && ValidCorrection(c)
    ensures MonthGanIndex(month + 1, c) == (MonthGanIndex(month, c) + 1) % 10
  {
  }

  /**
   * As written, the stem index runs past the last stem exactly when the
   * correction is 0, that is for years with `year % 5 == 0`, in months 11 and 12.
   */
  lemma MonthAsWrittenFails(year: int, month1: int, p: int)
    requires year >= 0 && 1 <= month1 <= 12
    ensures GanZhiMonthAsWritten(month1, CorrectionAfter(year, p)).None?
            <==> Rem(year, 5) == 0 && (month1 == 11 || month1 == 12)
  {
    RemBounds(year, 5);
  }

  /** November 2020 as written: `ganIndex` is 10, one past the last stem. */
  lemma November2020AsWritten(p: int)
    ensures CorrectionAfter(2020, p) == 0
    ensures MonthGanIndexAsWritten(10, CorrectionAfter(2020, p)) == 10
    ensures GanZhiMonthAsWritten(11, CorrectionAfter(2020, p)) == None
  {
    AgreeOnNatural(2020, 5);
  }

  /** Wherever the label as written exists, the wrapped label is the same. */
  lemma MonthWrapAgrees(month1: int, c: int)
    requires GanZhiMonthAsWritten(month1, c).Some?
    ensures GanZhiMonth(month1, c) == GanZhiMonthAsWritten(month1, c)
  {
  }

  // ---------------------------------------------------------------------
  // The day label.

  /** `G` of `ganZhiDay`, from the century, the year in the century, the month as given and the day. */
  function DayStemNumber(year: int, month: int, day: int): (g: int)
    ensures year >= 0 && month >= -1 ==>
              g == 4 * (year / 100) + year / 400 + 5 * (year % 100) + (year % 100) / 4 + 3 * (month + 1) / 5 + day + 3
  {
    var c, y := Quot(year, 100), Rem(year, 100);
    CenturyTermsEuclidean(year);
    MonthTermEuclidean(month);
    4 * c + Quot(c, 4) + 5 * y + Quot(y, 4) + Quot(3 * (month + 1), 5) + day + 3
  }

  /** For a year from 0 on, the century terms of `G` with Kotlin's operators are the Euclidean ones, `c / 4` being `year / 400`. */
  lemma CenturyTermsEuclidean(year: int)
    ensures year >= 0 ==>
              Quot(year, 100) == year / 100 && Rem(year, 100) == year % 100
              && Quot(Quot(year, 100), 4) == year / 400 && Quot(Rem(year, 100), 4) == (year % 100) / 4
  {
    if year >= 0 {
      AgreeOnNatural(year, 100);
      var c, y := year / 100, year % 100;
      AgreeOnNatural(c, 4);
      AgreeOnNatural(y, 4);
      DivModUnique(year, 400, c / 4, 100 * (c % 4) + y);
    }
  }

  /** From month -1 on, the month term of `G` with Kotlin's `/` is the Euclidean one. */
  lemma MonthTermEuclidean(month: int)
    ensures month >= -1 ==> Quot(3 * (month + 1), 5) == 3 * (month + 1) / 5
  {
    if month >= -1 {
      AgreeOnNatural(3 * (month + 1), 5);
    }
  }

  /** `Z` of `ganZhiDay`: January and February count as months 13 and 14, and an even month adds 6. */
  function DayBranchNumber(year: int, month: int, day: int): (z: int)
    ensures month >= 3 ==>
              z == DayStemNumber(year, month, day) + 4 * Quot(year, 100) + 4 + (if Rem(month, 2) == 0 then 6 else 0)
  {
    var c, y := Quot(year, 100), Rem(year, 100);
    var m := if month < 3 then month + 12 else month;
    var dayIndex := if Rem(month, 2) == 0 then 6 else 0;
    8 * c + Quot(c, 4) + 5 * y + Quot(y, 4) + Quot(3 * (m + 1), 5) + day + 7 + dayIndex
  }

  /**
   * `ganZhiDay(year, month, day)` as written: the stem at `G % 10 - 1` and
   * the branch at `Z % 12 - 1`, or None where either index is outside its list.
   */
  function GanZhiDayAsWritten(year: int, month: int, day: int): (r: Option<string>)
    ensures r.Some? ==> |r.value| == 2
  {
    var ganIndex := Rem(DayStemNumber(year, month, day), 10) - 1;
    var zhiIndex := Rem(DayBranchNumber(year, month, day), 12) - 1;
    if 0 <= ganIndex < |GanNames| && 0 <= zhiIndex < |DayBranchNames| then
      Some(GanNames[ganIndex] + DayBranchNames[zhiIndex])
    else None
  }

  /** The day label with both indexes counted cyclically: `G` one less modulo 10, `Z` one less modulo 12. */
  function GanZhiDay(year: int, month: int, day: int): (r: string)
    ensures |r| == 2
  {
    var ganIndex := (DayStemNumber(year, month, day) - 1) % 10;
    var zhiIndex := (DayBranchNumber(year, month, day) - 1) % 12;
    GanNames[ganIndex] + DayBranchNames[zhiIndex]
  }

  /** As written the label is missing exactly when `G % 10` or `Z % 12` is 0 or negative. */
  lemma DayAsWrittenFails(year: int, month: int, day: int)
    ensures GanZhiDayAsWritten(year, month, day).None?
            <==> Rem(DayStemNumber(year, month, day), 10) <= 0 || Rem(DayBranchNumber(year, month, day), 12) <= 0
  {
    RemBounds(DayStemNumber(year, month, day), 10);
    RemBounds(DayBranchNumber(year, month, day), 12);
  }

  /** 2000-01-01 as written: `G` is 90, so the stem index is -1. */
  lemma FirstDayOf2000AsWritten()
    ensures DayStemNumber(2000, 1, 1) == 90
    ensures GanZhiDayAsWritten(2000, 1, 1) == None
    ensures GanZhiDay(2000, 1, 1)[0] == '癸'
  {
    assert DayStemNumber(2000, 1, 1) == 4 * 20 + 5 + 0 + 0 + 1 + 1 + 3;
    AgreeOnNatural(90, 10);
  }

  /** Wherever the label as written exists, the cyclic label is the same. */
  lemma DayCyclicAgrees(year: int, month: int, day: int)
    requires GanZhiDayAsWritten(year, month, day).Some?
    ensures GanZhiDay(year, month, day) == GanZhiDayAsWritten(year, month, day).value
  {
    var g, z := DayStemNumber(year, month, day), DayBranchNumber(year, month, day);
    RemBounds(g, 10);
    RemBounds(z, 12);
    AgreeOnNatural(g, 10);
    AgreeOnNatural(z, 12);
    DivModUnique(g - 1, 10, g / 10, g % 10 - 1);
    DivModUnique(z - 1, 12, z / 12, z % 12 - 1);
  }

  /** Ten days on, the stem is the same; twelve days on, the branch is the same. */
  lemma DayCycles(year: int, month: int, day: int)
    ensures GanZhiDay(year, month, day + 10)[0] == GanZhiDay(year, month, day)[0]
    ensures GanZhiDay(year, month, day + 12)[1] == GanZhiDay(year, month, day)[1]
  {
    var g, z := DayStemNumber(year, month, day), DayBranchNumber(year, month, day);
    assert DayStemNumber(year, month, day + 10) - 1 == (g - 1) + 10 * 1;
    assert DayBranchNumber(year, month, day + 12) - 1 == (z - 1) + 12 * 1;
    DivModUnique((g - 1) + 10, 10, (g - 1) / 10 + 1, (g - 1) % 10);
    DivModUnique((z - 1) + 12, 12, (z - 1) / 12 + 1, (z - 1) % 12);
  }

  /** Sixty days on, the whole label is the same. */
  lemma DaySexagenary(year: int, month: int, day: int)
    ensures GanZhiDay(year, month, day + 60) == GanZhiDay(year, month, day)
  {
    var g, z := DayStemNumber(year, month, day), DayBranchNumber(year, month, day);
    assert DayStemNumber(year, month, day + 60) - 1 == (g - 1) + 10 * 6;
    assert DayBranchNumber(year, month, day + 60) - 1 == (z - 1) + 12 * 5;
    DivModUnique((g - 1) + 60, 10, (g - 1) / 10 + 6, (g - 1) % 10);
    DivModUnique((z - 1) + 60, 12, (z - 1) / 12 + 5, (z - 1) % 12);
  }

  /**
   * The branch counts January and February as months 13 and 14, while the
   * stem uses the month as given: the branch of month 1 (2) is that of
   * month 13 (14), while the stem's `G` of month 13 is 7 more than that of
   * month 1, and of month 14 8 more than that of month 2.
   */
  lemma OnlyBranchShiftsEarlyMonths(year: int, day: int)
    ensures DayBranchNumber(year, 1, day) == DayBranchNumber(year, 13, day)
    ensures DayBranchNumber(year, 2, day) == DayBranchNumber(year, 14, day)
    ensures DayStemNumber(year, 13, day) == DayStemNumber(year, 1, day) + 7
    ensures DayStemNumber(year, 14, day) == DayStemNumber(year, 2, day) + 8
  {
    AgreeOnNatural(6, 5);
    AgreeOnNatural(9, 5);
    AgreeOnNatural(42, 5);
    AgreeOnNatural(45, 5);
    AgreeOnNatural(1, 2);
    AgreeOnNatural(2, 2);
    AgreeOnNatural(13, 2);
    AgreeOnNatural(14, 2);
  }
}
