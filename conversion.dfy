/**
 * Conversion between the Gregorian and the Chinese date, as the calendar's
 * `computeChineseFields` and `computeGregorianFields` perform it, stated as
 * functions of the fields they read.
 *
 * Gregorian to Chinese counts the days from one of two anchors (1901-01-01,
 * which is 1900/11/11, and 2000-01-01, which is 1999/11/25), adds them to
 * the anchor's Chinese day and then carries whole months forward.
 *
 * Chinese to Gregorian clamps the fields, seeds the Gregorian fields with a
 * nearby date, converts that seed, walks month by month to the requested
 * month and moves the Gregorian date by the days walked.
 */
module Conversion {
  import opened KotlinInt
  import opened CalendarTables
  import opened Wrappers
  import opened LunarMonths
  import opened Gregorian
  import opened AnchorSpan

  /** The three Chinese fields: year, month (negative for a leap month) and day, whatever they hold. */
  datatype Lunar = Lunar(year: int, month: int, day: int)

  /** Fields that name a day the calendar has. */
  predicate ValidLunar(l: Lunar)
  {
    IsLunarDate(l.year, l.month, l.day)
  }

  /** The Gregorian anchor used for Gregorian year `gy`. */
  function AnchorDate(gy: int): (g: Date)
    ensures IsDate(g) && g.month == 0 && g.day == 1
  {
    if gy < 2000 then Date(BaseYear, BaseMonth - 1, BaseDate) else Date(BaseYear + 99, 0, 1)
  }

  /** The Chinese date of the anchor used for Gregorian year `gy`. */
  function AnchorLunar(gy: int): (l: Lunar)
    ensures ValidLunar(l)
  {
    if gy < 2000 then Lunar(BaseChineseYear, BaseChineseMonth, BaseChineseDate)
    else Lunar(BaseChineseYear + 99, 11, 25)
  }

  /** The Chinese day number of the anchor used for Gregorian year `gy`. */
  function AnchorDay(gy: int): int
  {
    var a := AnchorLunar(gy);
    LunarDay(a.year, a.month, a.day)
  }

  /** Chinese day number minus Gregorian day number at the anchor used for Gregorian year `gy`. */
  function AnchorOffset(gy: int): int
  {
    AnchorDay(gy) - DayNumber(AnchorDate(gy))
  }

  /**
   * The two anchors describe the same correspondence: the anchor of every
   * year has the offset of the first one, that is, the 99 Chinese years
   * between the anchors span as many days in the table as the Gregorian
   * years between them do.
   */
  predicate AnchorsAgree()
  {
    forall gy :: 1901 <= gy <= 2100 ==> AnchorOffset(gy) == AnchorOffset(1901)
  }

  /**
   * The anchors agree: 1900/11/11 is Chinese day 310 and 1999/11/25 is
   * Chinese day 36469, 36159 days later, and 2000-01-01 is 36159 days after
   * 1901-01-01.
   */
  lemma AnchorsAgreeHolds()
    ensures AnchorsAgree()
  {
    FirstAnchorOffset();
    SecondAnchorOffset();
  }

  lemma FirstAnchorOffset()
    ensures AnchorOffset(1901) == 310
  {
    AnchorDays();
  }

  lemma SecondAnchorOffset()
    ensures forall gy :: 2000 <= gy ==> AnchorOffset(gy) == 310
  {
    AnchorDays();
    DaysBefore2000();
  }

  /** Days of year `y` before Gregorian month `m` as the month loop adds them: none before January. */
  function MonthsBefore(y: int, m: int): (n: int)
    requires m < 12
    ensures n >= 0
  {
    if m <= 0 then 0 else DaysBeforeMonth(y, m)
  }

  /** `daysDiff`: days from the anchor to the Gregorian fields `g`, whose month may be -1. */
  function DaysDiff(g: Date): int
    requires g.month < 12
  {
    var a := AnchorDate(g.year);
    DaysBeforeYear(g.year) - DaysBeforeYear(a.year) + MonthsBefore(g.year, g.month) + g.day - a.day
  }

  /** For a month in range the count is the distance in day numbers. */
  lemma DaysDiffIsDistance(g: Date)
    requires 0 <= g.month < 12
    ensures DaysDiff(g) == DayNumber(g) - DayNumber(AnchorDate(g.year))
  {
  }

  /** A date on or after its anchor year is no earlier than the anchor. */
  lemma DaysDiffNonNegative(g: Date)
    requires g.month < 12 && 1901 <= g.year
    ensures g.day >= 1 ==> DaysDiff(g) >= 0
  {
    LaterYearStartsLater(AnchorDate(g.year).year, g.year);
  }

  /**
   * The loop of `computeChineseFields` that carries surplus days into the
   * following months. Stepping past the last table year fails.
   */
  function Settle(l: Lunar): (r: Option<Lunar>)
    requires ValidMonth(l.year, l.month)
    ensures r.Some? ==> ValidMonth(r.value.year, r.value.month)
    ensures r.Some? ==> r.value.day <= MonthLength(r.value.year, r.value.month)
    ensures r.Some? && l.day >= 1 ==> r.value.day >= 1
    ensures r.Some? ==> LunarDay(r.value.year, r.value.month, r.value.day) == LunarDay(l.year, l.month, l.day)
    decreases l.day
  {
    var len := MonthLength(l.year, l.month);
    if l.day <= len then Some(l)
    else
      var ny, nm := NextMonthYear(l.year, l.month), NextChineseMonth(l.year, l.month);
      if !InTable(ny) then None
      else
        NextMonthFollows(l.year, l.month);
        Settle(Lunar(ny, nm, l.day - len))
  }

  /**
   * `computeChineseFields` on Gregorian fields `g` with Chinese fields
   * `current`: a year outside 1901..2100 keeps `current`; otherwise the
   * Chinese date `DaysDiff(g)` days after the anchor's, or None where the
   * month loop runs off the table.
   */
  function ChineseFieldsOf(g: Date, current: Lunar): (r: Option<Lunar>)
    requires g.month < 12
    ensures !(1901 <= g.year <= 2100) ==> r == Some(current)
    ensures 1901 <= g.year <= 2100 && r.Some? && g.day >= 1 ==> ValidLunar(r.value)
    ensures 1901 <= g.year <= 2100 && r.Some? ==> ValidMonth(r.value.year, r.value.month)
  {
    if g.year < 1901 || g.year > 2100 then Some(current)
    else
      var a := AnchorLunar(g.year);
      DaysDiffNonNegative(g);
      Settle(Lunar(a.year, a.month, a.day + DaysDiff(g)))
  }

  /** In 1901..2100 a converted date is `DaysDiff(g)` Chinese days after the anchor's Chinese date. */
  lemma ChineseFieldsDay(g: Date, current: Lunar)
    requires 1901 <= g.year <= 2100 && g.month < 12
    ensures var r := ChineseFieldsOf(g, current);
            r.Some? ==> LunarDay(r.value.year, r.value.month, r.value.day) == AnchorDay(g.year) + DaysDiff(g)
  {
  }

  /** In 1901..2100 the conversion is the carrying of the anchor's Chinese date moved by `DaysDiff(g)` days. */
  lemma ChineseFieldsCarry(g: Date, current: Lunar)
    requires 1901 <= g.year <= 2100 && g.month < 12
    ensures var a := AnchorLunar(g.year);
            ValidMonth(a.year, a.month) && ChineseFieldsOf(g, current) == Settle(Lunar(a.year, a.month, a.day + DaysDiff(g)))
  {
  }

  /** Fields that already name a day of their month need no carrying. */
  lemma SettleKeeps(l: Lunar)
    requires ValidLunar(l)
    ensures Settle(l) == Some(l)
  {
  }

  /** Each anchor date lies in range and is the anchor of its own year. */
  lemma AnchorIsOwn(gy: int)
    ensures var g := AnchorDate(gy);
            1901 <= g.year <= 2100 && AnchorDate(g.year) == g && AnchorLunar(g.year) == AnchorLunar(gy)
  {
  }

  /** A date that is its year's anchor is no days after it. */
  lemma NoDaysAfterAnchor(g: Date)
    requires g.month < 12 && AnchorDate(g.year) == g
    ensures DaysDiff(g) == 0
  {
  }

  /** An anchor date converts to its anchor's Chinese date. */
  lemma AnchorConverts(gy: int, current: Lunar)
    ensures ChineseFieldsOf(AnchorDate(gy), current) == Some(AnchorLunar(gy))
  {
    AnchorIsOwn(gy);
    NoDaysAfterAnchor(AnchorDate(gy));
    SettleKeeps(AnchorLunar(gy));
  }

  /** 1901-01-01 converts to 1900/11/11, the anchor it counts from. */
  lemma FirstAnchorConverts(current: Lunar)
    ensures ChineseFieldsOf(Date(1901, 0, 1), current) == Some(Lunar(1900, 11, 11))
  {
    AnchorConverts(1901, current);
  }

  /** 2000-01-01 converts to 1999/11/25, the anchor it counts from. */
  lemma SecondAnchorConverts(current: Lunar)
    ensures ChineseFieldsOf(Date(2000, 0, 1), current) == Some(Lunar(1999, 11, 25))
  {
    AnchorConverts(2000, current);
  }

  /**
   * A date in range converts to the one Chinese date whose day number is
   * the Gregorian day number shifted by a constant: the conversion does not
   * depend on which anchor was used.
   */
  lemma ConversionIsShift(g: Date, current: Lunar)
    requires 0 <= g.month < 12 && 1901 <= g.year <= 2100
    requires ChineseFieldsOf(g, current).Some?
    ensures var r := ChineseFieldsOf(g, current).value;
            LunarDay(r.year, r.month, r.day) == AnchorOffset(1901) + DayNumber(g)
  {
    DaysDiffIsDistance(g);
    AnchorsAgreeHolds();
    assert AnchorOffset(g.year) == AnchorOffset(1901);
  }

  // ---------------------------------------------------------------------
  // Chinese to Gregorian.

  /** The Chinese date `computeGregorianFields` aims at, after clamping and snapping. */
  datatype Target = TooEarly | TooLate | Within(y: int, m: int, d: int)

  /** Year clamped to 1899..2101. */
  function ClampYear(y: int): int
  {
    if y < 1900 then 1899 else if y > 2100 then 2101 else y
  }

  /** Month clamped to -12..12. */
  function ClampMonth(m: int): int
  {
    if m < -12 then -12 else if m > 12 then 12 else m
  }

  /** Day clamped to 1..30. */
  function ClampDay(d: int): int
  {
    if d < 1 then 1 else if d > 30 then 30 else d
  }

  /** The composite `y * 10000 + |m| * 100 + d` used to compare a date with the ends of the range. */
  function DateInt(y: int, m: int, d: int): int
  {
    y * 10000 + Abs(m) * 100 + d
  }

  /**
   * The target of `computeGregorianFields`: before 1900/11/11 and after
   * 2100/12/1 the range's ends; otherwise a month the year lacks becomes
   * the regular month of that number and the day is cut to the month's
   * length.
   */
  function TargetOf(l: Lunar): (t: Target)
    ensures var y, m, d := ClampYear(l.year), ClampMonth(l.month), ClampDay(l.day);
            (t == TooEarly <==> DateInt(y, m, d) < 19001111)
            && (t == TooLate <==> DateInt(y, m, d) > 21001201)
    ensures t.Within? ==> InTable(t.y) && t.y == l.year && Abs(t.m) <= 12 && 0 <= t.d <= 30
    ensures t.Within? && MonthLength(t.y, t.m) != 0 ==> 1 <= t.d <= MonthLength(t.y, t.m)
    ensures t.Within? && ValidMonth(l.year, l.month) ==> t.m == l.month
  {
    var y, m, d := ClampYear(l.year), ClampMonth(l.month), ClampDay(l.day);
    var dateint := DateInt(y, m, d);
    if dateint < 19001111 then TooEarly
    else if dateint > 21001201 then TooLate
    else
      var m := if Abs(m) > 12 then 12 else m;
      var m := if MonthLength(y, m) == 0 then -m else m;
      var days := MonthLength(y, m);
      Within(y, m, if d > days then days else d)
  }

  /** Where the month walk of `computeGregorianFields` ends. */
  datatype Walked = Reached(amount: int) | WalkFailed | WalkHangs

  /**
   * The walk from Chinese month `cy`/`cm` to month `ty`/`tm`, adding up the
   * lengths of the months passed to `amount`. It fails when it reads a year
   * outside the table, and never ends from a month beyond 12, whose
   * successors only grow.
   */
  function Walk(cy: int, cm: int, ty: int, tm: int, amount: int): (w: Walked)
    requires Abs(tm) <= 12
    ensures cy == ty && cm == tm ==> w == Reached(amount)
    ensures w.Reached? ==> w.amount >= amount
    ensures w.WalkHangs? ==> Abs(cm) > 12
    decreases if Abs(cm) <= 12 then 2101 - cy else 0, 26 - Slot(cm), ty, tm, amount
  {
    if cy == ty && cm == tm then Reached(amount)
    else if !InTable(cy) then WalkFailed
    else if Abs(cm) > 12 then WalkHangs
    else
      Walk(NextMonthYear(cy, cm), NextChineseMonth(cy, cm), ty, tm, amount + MonthLength(cy, cm))
  }

  /**
   * A walk from a month the calendar has that reaches its target passes only
   * through months the calendar has: the target is one of them and starts
   * exactly the walked days later.
   */
  lemma {:induction false} WalkArrives(cy: int, cm: int, ty: int, tm: int, amount: int)
    requires Abs(tm) <= 12 && InTable(ty) && ValidMonth(cy, cm)
    requires Walk(cy, cm, ty, tm, amount).Reached?
    ensures ValidMonth(ty, tm)
    ensures LunarDay(ty, tm, 1) == LunarDay(cy, cm, 1) + Walk(cy, cm, ty, tm, amount).amount - amount
    decreases 2101 - cy, 26 - Slot(cm)
  {
    if !(cy == ty && cm == tm) {
      var ny, nm := NextMonthYear(cy, cm), NextChineseMonth(cy, cm);
      if InTable(ny) {
        NextMonthFollows(cy, cm);
        WalkArrives(ny, nm, ty, tm, amount + MonthLength(cy, cm));
      } else {
        assert false;
      }
    }
  }

  /** What `computeGregorianFields` leaves behind: the Gregorian date and the Chinese fields. */
  datatype Converted = Converted(greg: Date, chinese: Lunar) | ConversionFailed | ConversionHangs

  /** The last `computeChineseFields` of the conversion, from Gregorian date `g`. */
  function Finish(g: Date, fields: Lunar): (r: Converted)
    requires 0 <= g.month < 12
    ensures !r.ConversionHangs?
    ensures r.Converted? ==> r.greg == g
  {
    match ChineseFieldsOf(g, fields)
    case None => ConversionFailed
    case Some(l) => Converted(g, l)
  }

  /**
   * The approach from a seed date: convert the seed, walk to the target
   * month, then move the seed by the days walked plus the target day minus
   * the seed's Chinese day. The result holds the moved date and the Chinese
   * fields the walk leaves.
   */
  function Approach(seed: Date, current: Lunar, y: int, m: int, d: int): (r: Converted)
    requires seed.month < 12 && Abs(m) <= 12
    ensures r.Converted? ==> IsDate(r.greg)
  {
    match ChineseFieldsOf(seed, current)
    case None => ConversionFailed
    case Some(l0) =>
      match Walk(l0.year, l0.month, y, m, 0)
      case WalkFailed => ConversionFailed
      case WalkHangs => ConversionHangs
      case Reached(walked) => Converted(AddDays(seed, walked + d - l0.day), Lunar(y, m, l0.day))
  }

  /** An approach whose seed has no Chinese fields fails. */
  lemma ApproachWithoutFields(seed: Date, current: Lunar, y: int, m: int, d: int)
    requires seed.month < 12 && Abs(m) <= 12
    requires ChineseFieldsOf(seed, current).None?
    ensures Approach(seed, current, y, m, d) == ConversionFailed
  {
  }

  /** An approach whose seed has Chinese fields `l0` ends as the walk from `l0` ends. */
  lemma ApproachWalks(seed: Date, current: Lunar, y: int, m: int, d: int, l0: Lunar)
    requires seed.month < 12 && Abs(m) <= 12
    requires ChineseFieldsOf(seed, current) == Some(l0)
    ensures var w := Walk(l0.year, l0.month, y, m, 0);
            Approach(seed, current, y, m, d)
            == if w.Reached? then Converted(AddDays(seed, w.amount + d - l0.day), Lunar(y, m, l0.day))
               else if w.WalkFailed? then ConversionFailed else ConversionHangs
  {
  }

  /** The conversion from a seed date: the approach, then one more conversion of the date reached. */
  function FromSeed(seed: Date, current: Lunar, y: int, m: int, d: int): (r: Converted)
    requires seed.month < 12 && Abs(m) <= 12
    ensures r.Converted? ==> IsDate(r.greg)
  {
    var a := Approach(seed, current, y, m, d);
    if a.Converted? then Finish(a.greg, a.chinese) else a
  }

  /** The seed as written: the target's year, the Gregorian month numbered like the Chinese one, the day. */
  function SeedAsWritten(y: int, m: int, d: int): (g: Date)
    ensures 1 <= Abs(m) <= 12 ==> g.year == y && g.month == Abs(m) - 1 && 0 <= g.month < 12
    ensures 1 <= Abs(m) <= 12 && 1 <= d <= 28 ==> IsDate(g)
  {
    Date(y, Abs(m) - 1, d)
  }

  /**
   * `computeGregorianFields` as written. A target in 1900 seeds the fields
   * with a Gregorian date in 1900, which `computeChineseFields` ignores, so
   * the walk starts from the stale Chinese fields.
   */
  function GregorianFieldsAsWritten(current: Lunar): (r: Converted)
    ensures r.Converted? ==> IsDate(r.greg)
  {
    match TargetOf(current)
    case TooEarly => Finish(Date(1901, 0, 1), current)
    case TooLate => Finish(Date(2100, 11, 31), current)
    case Within(y, m, d) => FromSeed(SeedAsWritten(y, m, d), current, y, m, d)
  }

  /** The seed with the 1900 case moved to the first day the conversion covers. */
  function Seed(y: int, m: int, d: int): (g: Date)
    ensures 1901 <= y <= 2100 ==> g == SeedAsWritten(y, m, d)
    ensures y <= 1900 ==> g == Date(1901, 0, 1)
  {
    if y < 1901 then Date(BaseYear, BaseMonth - 1, BaseDate) else SeedAsWritten(y, m, d)
  }

  /** `computeGregorianFields` with the seed of a 1900 target moved to 1901-01-01, the first day the tables cover. */
  function GregorianFieldsOf(current: Lunar): (r: Converted)
    ensures r.Converted? ==> IsDate(r.greg)
  {
    match TargetOf(current)
    case TooEarly => Finish(Date(1901, 0, 1), current)
    case TooLate => Finish(Date(2100, 11, 31), current)
    case Within(y, m, d) => FromSeed(Seed(y, m, d), current, y, m, d)
  }

  /** Fields before the range snap to 1901-01-01, which is 1900/11/11. */
  lemma TooEarlySnaps(current: Lunar)
    requires TargetOf(current) == TooEarly
    ensures GregorianFieldsOf(current) == Converted(Date(1901, 0, 1), Lunar(1900, 11, 11))
  {
    FirstAnchorConverts(current);
  }

  /**
   * Fields after the range snap to 2100-12-31: the conversion does not run
   * forever, and when it succeeds the Chinese fields are a valid date that
   * describes 2100-12-31, Chinese day 73358 (36889 days after 1999/11/25).
   */
  lemma TooLateSnaps(current: Lunar)
    requires TargetOf(current) == TooLate
    ensures var c := GregorianFieldsOf(current);
            !c.ConversionHangs?
            && (c.Converted? ==>
                  c.greg == Date(2100, 11, 31) && ValidLunar(c.chinese)
                  && LunarDay(c.chinese.year, c.chinese.month, c.chinese.day) == 73358
                  && ChineseFieldsOf(c.greg, c.chinese) == Some(c.chinese))
  {
    var c := GregorianFieldsOf(current);
    if c.Converted? {
      LastDayDiff();
      SecondAnchorOffset();
      AnchorDays();
      ChineseFieldsIgnoreStale(c.greg, current, c.chinese);
    }
  }

  /** 2100-12-31 is 36889 days after 2000-01-01. */
  lemma LastDayDiff()
    ensures DaysDiff(Date(2100, 11, 31)) == 36889
  {
    DaysBefore2000();
    DaysBefore2100();
  }

  /** The seed converts, the walk reaches the target and the final conversion stays in range. */
  predicate ConversionSucceeds(current: Lunar)
  {
    var c := GregorianFieldsOf(current);
    TargetOf(current).Within? && c.Converted? && 1901 <= c.greg.year <= 2100
  }

  /** The conversion of the Gregorian fields ignores the Chinese fields when the year is in range. */
  lemma ChineseFieldsIgnoreStale(g: Date, c1: Lunar, c2: Lunar)
    requires g.month < 12 && 1901 <= g.year <= 2100
    ensures ChineseFieldsOf(g, c1) == ChineseFieldsOf(g, c2)
  {
  }

  /** A successful conversion from a seed converted the seed, walked to the target and moved the seed. */
  lemma FromSeedParts(seed: Date, current: Lunar, y: int, m: int, d: int) returns (l0: Lunar, walked: int)
    requires seed.month < 12 && Abs(m) <= 12
    requires FromSeed(seed, current, y, m, d).Converted?
    ensures ChineseFieldsOf(seed, current) == Some(l0)
    ensures Walk(l0.year, l0.month, y, m, 0) == Reached(walked)
    ensures FromSeed(seed, current, y, m, d) == Finish(AddDays(seed, walked + d - l0.day), Lunar(y, m, l0.day))
  {
    l0 := ChineseFieldsOf(seed, current).value;
    walked := Walk(l0.year, l0.month, y, m, 0).amount;
  }

  /**
   * Moving the seed by the walked days plus the day's offset lands on the
   * Gregorian day whose Chinese day number is that of the target.
   */
  lemma MovedSeedLands(seed: Date, l0: Lunar, walked: int, y: int, m: int, d: int)
    requires 0 <= seed.month < 12 && 1901 <= seed.year <= 2100
    requires ValidMonth(l0.year, l0.month) && ValidMonth(y, m)
    requires LunarDay(l0.year, l0.month, l0.day) == AnchorDay(seed.year) + DaysDiff(seed)
    requires LunarDay(y, m, 1) == LunarDay(l0.year, l0.month, 1) + walked
    ensures var g := AddDays(seed, walked + d - l0.day);
            1901 <= g.year <= 2100 ==> AnchorDay(g.year) + DaysDiff(g) == LunarDay(y, m, d)
  {
    var g := AddDays(seed, walked + d - l0.day);
    AddDaysMoves(seed, walked + d - l0.day);
    NormalizeKeepsDayNumber(seed);
    DaysDiffIsDistance(seed);
    DaysDiffIsDistance(g);
    AnchorsAgreeHolds();
    assert AnchorOffset(seed.year) == AnchorOffset(1901);
    if 1901 <= g.year <= 2100 {
      assert AnchorOffset(g.year) == AnchorOffset(1901);
    }
  }

  /**
   * The round trip of `computeGregorianFields`: when the conversion
   * succeeds, the Gregorian date found converts back to the clamped target,
   * which is also what the Chinese fields then hold.
   */
  lemma RoundTrip(current: Lunar)
    requires ConversionSucceeds(current)
    ensures var t, c := TargetOf(current), GregorianFieldsOf(current);
            c.chinese == Lunar(t.y, t.m, t.d) && ValidLunar(c.chinese)
            && ChineseFieldsOf(c.greg, current) == Some(c.chinese)
  {
    var t := TargetOf(current);
    var y, m, d := t.y, t.m, t.d;
    var seed := Seed(y, m, d);
    var l0, walked := FromSeedParts(seed, current, y, m, d);
    WalkArrives(l0.year, l0.month, y, m, 0);
    assert 0 <= seed.month;
    MovedSeedLands(seed, l0, walked, y, m, d);
    var g := AddDays(seed, walked + d - l0.day);
    var l := ChineseFieldsOf(g, Lunar(y, m, l0.day)).value;
    LunarDayInjective(l.year, l.month, l.day, y, m, d);
    ChineseFieldsIgnoreStale(g, current, Lunar(y, m, l0.day));
  }

  /**
   * Outside a target in 1900 the seed as written is the corrected one, so
   * `computeGregorianFields` as written and corrected agree.
   */
  lemma AsWrittenAgrees(current: Lunar)
    requires TargetOf(current).Within? ==> TargetOf(current).y != 1900
    ensures GregorianFieldsAsWritten(current) == GregorianFieldsOf(current)
  {
  }

  /**
   * The round trip of `computeGregorianFields` as written, for a target
   * after 1900: when the conversion lands in the range, the Gregorian date
   * found converts back to the clamped target, which the Chinese fields
   * then hold.
   */
  lemma RoundTripAsWritten(current: Lunar)
    requires TargetOf(current).Within? && TargetOf(current).y != 1900
    requires var c := GregorianFieldsAsWritten(current); c.Converted? && 1901 <= c.greg.year <= 2100
    ensures var t, c := TargetOf(current), GregorianFieldsAsWritten(current);
            c.chinese == Lunar(t.y, t.m, t.d) && ValidLunar(c.chinese)
            && ChineseFieldsOf(c.greg, current) == Some(c.chinese)
  {
    AsWrittenAgrees(current);
    RoundTrip(current);
  }

  /** Moving a valid date by no days leaves it where it is. */
  lemma AddNoDays(g: Date)
    requires IsDate(g)
    ensures AddDays(g, 0) == g
  {
    NormalizeKeepsDate(g);
    DateRoundTrip(g);
  }

  /**
   * A Chinese date of 1900 that the range accepts (1900/11/11 or later) is
   * in the eleventh or twelfth month and is its own target.
   */
  lemma TargetIn1900(c: Lunar)
    requires c.year == 1900 && ValidLunar(c) && DateInt(c.year, c.month, c.day) >= 19001111
    ensures 11 <= c.month <= 12
    ensures TargetOf(c) == Within(c.year, c.month, c.day)
  {
  }

  /**
   * The 1900 case as written: every Chinese date of 1900 from 1900/11/11 on
   * comes out as the Gregorian date of the same month number and day in
   * 1900, before 1901-01-01, although 1901-01-01 is 1900/11/11
   * (`FirstAnchorConverts`).
   */
  lemma SeedYear1900Misplaces(c: Lunar)
    requires c.year == 1900 && ValidLunar(c) && DateInt(c.year, c.month, c.day) >= 19001111
    ensures GregorianFieldsAsWritten(c) == Converted(Date(1900, c.month - 1, c.day), c)
    ensures DayNumber(GregorianFieldsAsWritten(c).greg) < DayNumber(Date(1901, 0, 1))
  {
    TargetIn1900(c);
    var seed := SeedAsWritten(c.year, c.month, c.day);
    assert Walk(c.year, c.month, c.year, c.month, 0) == Reached(0);
    AddNoDays(seed);
    DateWithinYear(seed);
  }

  /**
   * In a year without a leap eleventh month, day 11 of the eleventh month
   * comes no later than any later date of the eleventh or twelfth month.
   */
  lemma EleventhElevenFirst(l: Lunar)
    requires ValidLunar(l) && 11 <= l.month <= 12 && (l.month == 11 ==> l.day >= 11)
    requires LeapMonth(l.year) != 11
    ensures LunarDay(l.year, 11, 11) <= LunarDay(l.year, l.month, l.day)
  {
    if l.month == 12 {
      NextMonthFollows(l.year, 11);
    }
  }

  /**
   * Moving the seed by the walked days plus the day's offset does not move
   * it backwards when the target day comes no earlier than the seed's
   * Chinese day.
   */
  lemma LandsNotBefore(seed: Date, l0: Lunar, walked: int, y: int, m: int, d: int)
    requires 0 <= seed.month < 12
    requires ValidMonth(l0.year, l0.month) && ValidMonth(y, m)
    requires LunarDay(y, m, 1) == LunarDay(l0.year, l0.month, 1) + walked
    requires LunarDay(l0.year, l0.month, l0.day) <= LunarDay(y, m, d)
    ensures DayNumber(AddDays(seed, walked + d - l0.day)) >= DayNumber(seed)
  {
    AddDaysMoves(seed, walked + d - l0.day);
    NormalizeKeepsDayNumber(seed);
  }

  /**
   * A successful conversion from a seed lands no earlier than the seed when
   * the target day comes no earlier than the seed's Chinese day.
   */
  lemma FromSeedNotBefore(seed: Date, current: Lunar, y: int, m: int, d: int)
    requires 0 <= seed.month < 12 && Abs(m) <= 12 && InTable(y)
    requires FromSeed(seed, current, y, m, d).Converted?
    requires ChineseFieldsOf(seed, current).Some?
    requires var l0 := ChineseFieldsOf(seed, current).value;
             ValidMonth(l0.year, l0.month) && ValidMonth(y, m)
             && LunarDay(l0.year, l0.month, l0.day) <= LunarDay(y, m, d)
    ensures DayNumber(FromSeed(seed, current, y, m, d).greg) >= DayNumber(seed)
  {
    var l0, walked := FromSeedParts(seed, current, y, m, d);
    WalkArrives(l0.year, l0.month, y, m, 0);
    LandsNotBefore(seed, l0, walked, y, m, d);
  }

  /**
   * With the corrected seed the same dates start from 1901-01-01, which
   * converts to 1900/11/11.
   */
  lemma SeedYear1900Corrected(c: Lunar)
    requires c.year == 1900 && ValidLunar(c) && DateInt(c.year, c.month, c.day) >= 19001111
    ensures Seed(c.year, c.month, c.day) == Date(1901, 0, 1)
    ensures ChineseFieldsOf(Date(1901, 0, 1), c) == Some(Lunar(1900, 11, 11))
  {
    FirstAnchorConverts(c);
  }

  /**
   * With the corrected seed, a conversion of such a 1900 date that succeeds
   * lands on or after 1901-01-01, inside the range the tables cover.
   */
  lemma SeedYear1900Lands(c: Lunar)
    requires c.year == 1900 && ValidLunar(c) && DateInt(c.year, c.month, c.day) >= 19001111
    ensures GregorianFieldsOf(c).Converted? ==> DayNumber(GregorianFieldsOf(c).greg) >= DayNumber(Date(1901, 0, 1))
  {
    TargetIn1900(c);
    if GregorianFieldsOf(c).Converted? {
      FirstAnchorConverts(c);
      EleventhElevenFirst(c);
      FromSeedNotBefore(Date(1901, 0, 1), c, c.year, c.month, c.day);
    }
  }
}
