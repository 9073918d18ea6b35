/**
 * What the calendar's freshness protocol guarantees, proved about the
 * functions of `CalendarSpec`.
 */
module CalendarProperties {
  import opened KotlinInt
  import opened CalendarTables
  import opened Wrappers
  import opened LunarMonths
  import opened Gregorian
  import opened SolarTerms
  import opened Conversion
  import opened ChineseDays
  import opened CalendarSpec

  // ---------------------------------------------------------------------
  // The flag invariant.

  /** Under the invariant the terms are computed from a real month, which always has table rows. */
  lemma TermsNeverFail(s: State)
    requires IsDate(s.greg)
    ensures ComputeTerms(s).status == Done
  {
  }

  /**
   * `computeIfNeed` keeps the invariant and leaves the side about to be
   * used up to date: before a Gregorian field the Chinese fields are no
   * longer pending, before a Chinese field the Gregorian fields are a date
   * unless the Chinese ones were written last, and a terms field always
   * finds its terms computed.
   */
  lemma ComputeIfNeedKeepsWf(s: State, field: int)
    requires Wf(s)
    ensures var r := ComputeIfNeed(s, field);
            Wf(r.state)
            && (IsChineseField(field) ==> r.status != Hangs)
            && (r.status == Done && !IsChineseField(field) ==> !r.state.lastSetChinese)
            && (r.status == Done && IsChineseField(field) ==> (r.state.lastSetChinese || r.state.chineseComputed))
            && (r.status == Done && IsTermsField(field) ==> r.state.termsComputed)
  {
    if IsChineseField(field) {
      RefreshChineseKeepsWf(s);
      var a := RefreshChinese(s);
      if a.status == Done && IsTermsField(field) {
        RefreshTermsKeepsWf(a.state);
      }
    } else {
      RefreshGregorianKeepsWf(s);
    }
  }

  lemma RefreshChineseKeepsWf(s: State)
    requires Wf(s)
    ensures var r := RefreshChinese(s);
            Wf(r.state) && (r.status == Done ==> (r.state.lastSetChinese || r.state.chineseComputed))
  {
  }

  lemma RefreshTermsKeepsWf(s: State)
    requires Wf(s) && (s.lastSetChinese || s.chineseComputed)
    ensures var r := RefreshTerms(s);
            Wf(r.state) && r.status == Done && r.state.termsComputed
            && (r.state.lastSetChinese || r.state.chineseComputed)
  {
    TermsNeverFail(s);
  }

  lemma RefreshGregorianKeepsWf(s: State)
    requires Wf(s)
    ensures var r := RefreshGregorian(s);
            Wf(r.state) && (r.status == Done ==> !r.state.lastSetChinese)
  {
  }

  /** `set` keeps the invariant, and the flags say which side it wrote. */
  lemma SetKeepsWf(s: State, field: int, value: int)
    requires Wf(s)
    requires IsChineseField(field) || field == FieldYear || field == FieldMonth || field == FieldDate
    ensures var r := Set(s, field, value);
            Wf(r.state)
            && (r.status == Done ==> r.state.lastSetChinese == IsChineseField(field)
                                     && !r.state.fieldsSet && !r.state.chineseComputed && !r.state.termsComputed)
  {
    ComputeIfNeedKeepsWf(s, field);
  }

  /** `get`, including the reads `CHINESE_TERM_OR_DATE` makes, keeps the invariant. */
  lemma GetKeepsWf(s: State, field: int)
    requires Wf(s) && (IsChineseField(field) || IsGregorianField(field))
    ensures Wf(Get(s, field).state)
    decreases if field == FieldTermOrDate then 2 else 0, 0
  {
    ComputeIfNeedKeepsWf(s, field);
    var c := ComputeIfNeed(s, field);
    if c.status == Done && field == FieldTermOrDate {
      TermOrDateKeepsWf(c.state);
    }
  }

  lemma TermOrDateKeepsWf(s: State)
    requires Wf(s)
    ensures Wf(TermOrDate(s).state)
    decreases 1, 4
  {
    GetKeepsWf(s, FieldDate);
    if Get(s, FieldDate).status == Done {
      SectionalStageKeepsWf(Get(s, FieldDate));
    }
  }

  lemma SectionalStageKeepsWf(date: Reading)
    requires Wf(date.state)
    ensures Wf(SectionalStage(date).state)
    decreases 1, 3
  {
    GetKeepsWf(date.state, FieldSectionalTerm);
    var sectional := Get(date.state, FieldSectionalTerm);
    if sectional.status == Done && date.value != sectional.value {
      PrincipalStageKeepsWf(sectional.state);
    }
  }

  lemma PrincipalStageKeepsWf(s: State)
    requires Wf(s)
    ensures Wf(PrincipalStage(s).state)
    decreases 1, 2
  {
    GetKeepsWf(s, FieldDate);
    if Get(s, FieldDate).status == Done {
      PrincipalCompareKeepsWf(Get(s, FieldDate));
    }
  }

  lemma PrincipalCompareKeepsWf(date: Reading)
    requires Wf(date.state)
    ensures Wf(PrincipalCompare(date).state)
    decreases 1, 1
  {
    GetKeepsWf(date.state, FieldPrincipleTerm);
    var principle := Get(date.state, FieldPrincipleTerm);
    if principle.status == Done && date.value != principle.value {
      GetKeepsWf(principle.state, FieldChineseDate);
    }
  }

  /** `add` keeps the invariant. */
  lemma AddKeepsWf(s: State, field: int, amount: int)
    requires Wf(s) && (IsChineseField(field) || field == FieldDate)
    ensures Wf(Add(s, field, amount).state)
  {
    ComputeIfNeedKeepsWf(s, field);
  }

  /** `roll` keeps the invariant. */
  lemma RollKeepsWf(s: State, field: int, amount: int)
    requires Wf(s) && IsChineseField(field)
    ensures Wf(Roll(s, field, amount).state)
  {
    ComputeIfNeedKeepsWf(s, field);
  }

  // ---------------------------------------------------------------------
  // Writing and reading.

  /** A Chinese field written with `set` reads back as written, and the read changes nothing. */
  lemma SetThenGet(s: State, field: int, value: int)
    requires IsWritableChineseField(field)
    requires Set(s, field, value).status == Done
    ensures var t := Set(s, field, value).state;
            Get(t, field) == Reading(t, Done, value)
  {
  }

  /** Writing a Chinese field other than year, month and day raises, after `computeIfNeed`. */
  lemma SetOtherChineseFieldRaises(s: State, field: int, value: int)
    requires IsChineseField(field) && !IsWritableChineseField(field)
    ensures var c := ComputeIfNeed(s, field);
            Set(s, field, value) == (if c.status == Done then Outcome(c.state, Unsupported) else c)
  {
  }

  /** The Chinese fields describe the Gregorian date whenever the calendar says they do. */
  predicate Fresh(s: State)
  {
    s.chineseComputed ==> Consistent(s)
  }

  /** Converting the Gregorian fields yields fields that describe them. */
  lemma ComputedChineseConsistent(s: State)
    requires IsDate(s.greg)
    requires ComputeChinese(s).status == Done
    ensures Consistent(ComputeChinese(s).state)
  {
    var l := ChineseFieldsOf(s.greg, s.chinese).value;
    if 1901 <= s.greg.year <= 2100 {
      ChineseFieldsIgnoreStale(s.greg, s.chinese, l);
    }
  }

  /**
   * Before a Chinese field, `computeIfNeed` leaves Chinese fields that
   * describe the Gregorian date, unless the Chinese fields were written last.
   */
  lemma ChineseReadIsFresh(s: State, field: int)
    requires Wf(s) && Fresh(s) && IsChineseField(field) && !s.lastSetChinese
    requires ComputeIfNeed(s, field).status == Done
    ensures Consistent(ComputeIfNeed(s, field).state)
  {
    if !s.chineseComputed {
      ComputedChineseConsistent(Complete(s));
    }
  }

  /**
   * After a Gregorian write, reading a Chinese field converts the written
   * date, completed: the value read is the year of the Chinese date of the
   * normalised Gregorian fields.
   */
  lemma GregorianWriteThenChineseRead(s: State, field: int, value: int)
    requires Wf(s) && (field == FieldYear || field == FieldMonth || field == FieldDate)
    requires Set(s, field, value).status == Done
    ensures var t := Set(s, field, value).state;
            var r := Get(t, FieldChineseYear);
            r.status == Done ==>
              r.state.greg == Normalize(t.greg) && Consistent(r.state) && r.value == r.state.chinese.year
  {
    var t := Set(s, field, value).state;
    SetKeepsWf(s, field, value);
    if Get(t, FieldChineseYear).status == Done {
      ChineseReadIsFresh(t, FieldChineseYear);
    }
  }

  /**
   * After a Chinese write, reading a Gregorian field converts the Chinese
   * fields: the Gregorian date is the one `computeGregorianFields` as
   * written finds, the Chinese fields describe it, and when the target lies
   * after 1900 and the conversion lands in the range they hold the clamped
   * date that was aimed at.
   */
  lemma ChineseWriteThenGregorianRead(s: State, field: int, value: int)
    requires Wf(s) && IsWritableChineseField(field)
    requires Set(s, field, value).status == Done
    ensures var t := Set(s, field, value).state;
            var r := Get(t, FieldYear);
            r.status == Done ==>
              r.state.greg == GregorianFieldsAsWritten(t.chinese).greg && Consistent(r.state)
              && r.state.chineseComputed && !r.state.lastSetChinese
              && r.value == r.state.greg.year
    ensures var t := Set(s, field, value).state;
            var r := Get(t, FieldYear);
            var target, c := TargetOf(t.chinese), GregorianFieldsAsWritten(t.chinese);
            target.Within? && target.y != 1900 && c.Converted? && 1901 <= c.greg.year <= 2100 ==>
              r.status == Done && r.state.chinese == Lunar(target.y, target.m, target.d)
  {
    var t := Set(s, field, value).state;
    SetKeepsWf(s, field, value);
    var c := GregorianFieldsAsWritten(t.chinese);
    if c.Converted? {
      CompleteKeepsDate(ComputeGregorian(t).state);
      ConvertedConsistent(t.chinese);
      var target := TargetOf(t.chinese);
      if target.Within? && target.y != 1900 && 1901 <= c.greg.year <= 2100 {
        RoundTripAsWritten(t.chinese);
      }
    }
  }

  /** The Chinese fields a conversion leaves describe the Gregorian date it finds. */
  lemma ConvertedConsistent(current: Lunar)
    requires GregorianFieldsAsWritten(current).Converted?
    ensures var c := GregorianFieldsAsWritten(current);
            IsDate(c.greg) && ChineseFieldsOf(c.greg, c.chinese) == Some(c.chinese)
  {
    match TargetOf(current)
    case TooEarly =>
      FinishConsistent(Date(1901, 0, 1), current);
    case TooLate =>
      FinishConsistent(Date(2100, 11, 31), current);
    case Within(y, m, d) =>
      var seed := SeedAsWritten(y, m, d);
      var l0, walked := FromSeedParts(seed, current, y, m, d);
      FinishConsistent(AddDays(seed, walked + d - l0.day), Lunar(y, m, l0.day));
  }

  /** The last step of the conversion: fields converted from a date describe that date. */
  lemma FinishConsistent(g: Date, fields: Lunar)
    requires 0 <= g.month < 12
    requires ChineseFieldsOf(g, fields).Some?
    ensures var l := ChineseFieldsOf(g, fields).value;
            ChineseFieldsOf(g, l) == Some(l)
  {
    if 1901 <= g.year <= 2100 {
      ChineseFieldsIgnoreStale(g, fields, ChineseFieldsOf(g, fields).value);
    }
  }

  // ---------------------------------------------------------------------
  // Derived fields.

  /** Numbers divisible by both 10 and 12 are divisible by 60. */
  lemma CommonMultiple(d: int)
    requires d % 10 == 0 && d % 12 == 0
    ensures d % 60 == 0
  {
    var k := d / 10;
    assert d == 10 * k;
    var q, r := k / 6, k % 6;
    assert k == 6 * q + r && 0 <= r < 6;
    assert d == 60 * q + 10 * r;
    DivModUnique(d, 12, 5 * q + (10 * r) / 12, (10 * r) % 12);
    assert r == 0;
    DivModUnique(d, 60, q, 0);
  }

  /**
   * The sexagenary cycle: from year 4 on, two years have the same stem and
   * the same branch exactly when they are a multiple of 60 years apart.
   */
  lemma SexagenaryCycle(y1: int, y2: int)
    requires y1 >= 4 && y2 >= 4
    ensures StemOf(y1) == StemOf(y2) && BranchOf(y1) == BranchOf(y2) <==> (y1 - y2) % 60 == 0
  {
    if StemOf(y1) == StemOf(y2) && BranchOf(y1) == BranchOf(y2) {
      SameCycleApart(y1, y2);
    }
    if (y1 - y2) % 60 == 0 {
      ApartSameCycle(y1, y2);
    }
  }

  /** Same stem and branch: a multiple of 60 years apart. */
  lemma SameCycleApart(y1: int, y2: int)
    requires y1 >= 4 && y2 >= 4
    requires StemOf(y1) == StemOf(y2) && BranchOf(y1) == BranchOf(y2)
    ensures (y1 - y2) % 60 == 0
  {
    AgreeOnNatural(y1 - 4, 10);
    AgreeOnNatural(y1 - 4, 12);
    AgreeOnNatural(y2 - 4, 10);
    AgreeOnNatural(y2 - 4, 12);
    SameRemainder(y1 - 4, y2 - 4, 10);
    SameRemainder(y1 - 4, y2 - 4, 12);
    assert (y1 - 4) - (y2 - 4) == y1 - y2;
    CommonMultiple(y1 - y2);
  }

  /** A multiple of 60 years apart: same stem and branch. */
  lemma ApartSameCycle(y1: int, y2: int)
    requires y1 >= 4 && y2 >= 4
    requires (y1 - y2) % 60 == 0
    ensures StemOf(y1) == StemOf(y2) && BranchOf(y1) == BranchOf(y2)
  {
    AgreeOnNatural(y1 - 4, 10);
    AgreeOnNatural(y1 - 4, 12);
    AgreeOnNatural(y2 - 4, 10);
    AgreeOnNatural(y2 - 4, 12);
    var q := (y1 - y2) / 60;
    assert y1 - 4 == (y2 - 4) + 10 * (6 * q);
    assert y1 - 4 == (y2 - 4) + 12 * (5 * q);
    ShiftRemainder(y2 - 4, 10, 6 * q);
    ShiftRemainder(y2 - 4, 12, 5 * q);
  }

  /** Equal remainders mean a difference divisible by the divisor. */
  lemma SameRemainder(a: int, b: int, n: int)
    requires n > 0 && a % n == b % n
    ensures (a - b) % n == 0
  {
    DivModUnique(a - b, n, a / n - b / n, 0);
  }

  /** Adding a multiple of the divisor keeps the remainder. */
  lemma ShiftRemainder(a: int, n: int, k: int)
    requires n > 0
    ensures (a + n * k) % n == a % n
  {
    DivModUnique(a + n * k, n, a / n + k, a % n);
  }

  /** The stem, branch and zodiac of a year repeat after 60 years. */
  lemma StemBranchPeriod(y: int)
    requires y >= 4
    ensures StemOf(y + 60) == StemOf(y) && BranchOf(y + 60) == BranchOf(y)
  {
    SexagenaryCycle(y + 60, y);
  }

  /**
   * With the Chinese side up to date (written last, or converted), the text
   * of the year is its stem name, its branch name and 年; from year 4 on
   * both names exist.
   */
  lemma YearText(s: State)
    requires s.lastSetChinese || s.chineseComputed
    requires s.chinese.year >= 4
    ensures GetChinese(s, FieldChineseYear)
         == Rendering(s, Done, StemNames[StemOf(s.chinese.year)] + BranchNames[BranchOf(s.chinese.year)] + "年")
  {
  }

  /**
   * With the Chinese side up to date, the text of a month the calendar has
   * is its name and 月, with 闰 in front for a leap month.
   */
  lemma MonthText(s: State)
    requires s.lastSetChinese || s.chineseComputed
    requires 1 <= Abs(s.chinese.month) <= 12
    ensures GetChinese(s, FieldChineseMonth)
         == Rendering(s, Done, (if s.chinese.month > 0 then "" else "闰") + ChineseMonthNames[Abs(s.chinese.month)] + "月")
  {
  }

  // ---------------------------------------------------------------------
  // CHINESE_TERM_OR_DATE.

  /** Both sides and the terms are up to date and the Gregorian fields are complete. */
  predicate Settled(s: State)
  {
    !s.lastSetChinese && s.chineseComputed && s.termsComputed && s.fieldsSet && IsDate(s.greg)
  }

  /** On a settled calendar, `get` computes nothing and changes nothing. */
  lemma GetSettled(s: State, field: int)
    requires Settled(s) && field != FieldTermOrDate && (IsChineseField(field) || IsGregorianField(field))
    ensures Get(s, field).state == s && Get(s, field).status == Done
  {
    CompleteKeepsDate(s);
  }

  /**
   * On a settled calendar `CHINESE_TERM_OR_DATE` picks, in this order: the
   * sectional term if today is its day, the principal term if today is its
   * day, the month if the Chinese day is 1, else the day.
   */
  lemma TermOrDateOrder(s: State)
    requires Settled(s)
    ensures Get(s, FieldTermOrDate)
         == Reading(s, Done,
                    if s.greg.day == s.sectional then FieldSectionalTerm
                    else if s.greg.day == s.principle then FieldPrincipleTerm
                    else if s.chinese.day == 1 then FieldChineseMonth
                    else FieldChineseDate)
  {
    GetSettled(s, FieldDate);
    var date := Get(s, FieldDate);
    assert date == Reading(s, Done, s.greg.day);
    GetSettled(s, FieldSectionalTerm);
    assert Get(s, FieldSectionalTerm) == Reading(s, Done, s.sectional);
    if s.greg.day != s.sectional {
      PrincipalStageSettled(s);
    }
  }

  /** The principal term stage on a settled calendar. */
  lemma PrincipalStageSettled(s: State)
    requires Settled(s)
    ensures PrincipalStage(s)
         == Reading(s, Done,
                    if s.greg.day == s.principle then FieldPrincipleTerm
                    else if s.chinese.day == 1 then FieldChineseMonth
                    else FieldChineseDate)
  {
    GetSettled(s, FieldDate);
    assert Get(s, FieldDate) == Reading(s, Done, s.greg.day);
    PrincipalCompareSettled(s);
  }

  /** The principal term comparison on a settled calendar. */
  lemma PrincipalCompareSettled(s: State)
    requires Settled(s)
    ensures PrincipalCompare(Reading(s, Done, s.greg.day))
         == Reading(s, Done,
                    if s.greg.day == s.principle then FieldPrincipleTerm
                    else if s.chinese.day == 1 then FieldChineseMonth
                    else FieldChineseDate)
  {
    GetSettled(s, FieldPrincipleTerm);
    assert Get(s, FieldPrincipleTerm) == Reading(s, Done, s.principle);
    if s.greg.day != s.principle {
      DayStageSettled(s);
    }
  }

  /** The last stage on a settled calendar: month on the first day, otherwise day. */
  lemma DayStageSettled(s: State)
    requires Settled(s)
    ensures DayStage(s) == Reading(s, Done, if s.chinese.day == 1 then FieldChineseMonth else FieldChineseDate)
  {
    GetSettled(s, FieldChineseDate);
    assert Get(s, FieldChineseDate) == Reading(s, Done, s.chinese.day);
  }

  // ---------------------------------------------------------------------
  // add and roll.

  /**
   * `add` and `roll` of the Chinese month agree on the month reached within
   * the year; `roll` keeps the year and `add` moves to the next one on
   * reaching month 1.
   */
  lemma AddAndRollMonth(s: State, amount: int)
    requires ComputeIfNeed(s, FieldChineseMonth).status == Done
    requires var l := ComputeIfNeed(s, FieldChineseMonth).state.chinese;
             InTable(l.year) && 1 <= l.month <= 12 && 0 <= amount <= StepsToNewYear(l.year, l.month)
    ensures var l := ComputeIfNeed(s, FieldChineseMonth).state.chinese;
            var a, r := Add(s, FieldChineseMonth, amount), Roll(s, FieldChineseMonth, amount);
            a.status == Done && r.status == Done
            && a.state.chinese.month == r.state.chinese.month
            && r.state.chinese.year == l.year
            && a.state.chinese.year == (if amount == StepsToNewYear(l.year, l.month) then l.year + 1 else l.year)
            && a.state.chinese.day == l.day && r.state.chinese.day == l.day
  {
    var l := ComputeIfNeed(s, FieldChineseMonth).state.chinese;
    RollIsAddWithoutYear(l.year, l.month, amount);
    AddMonthsWithinYear(l.year, l.month, amount);
  }

  /** `add` and `roll` of the Chinese day never finish normally. */
  lemma ChineseDateNeverDone(s: State, amount: int)
    ensures Add(s, FieldChineseDate, amount).status != Done
    ensures Roll(s, FieldChineseDate, amount).status != Done
  {
  }

  /**
   * `add(CHINESE_DATE)` raises only after moving a valid date forward by
   * `amount` days; the flags stay as `computeIfNeed` left them, so a
   * calendar whose Chinese fields counted as converted still says so.
   */
  lemma AddChineseDateMoves(s: State, amount: int)
    requires ComputeIfNeed(s, FieldChineseDate).status == Done
    requires ValidLunar(ComputeIfNeed(s, FieldChineseDate).state.chinese)
    ensures var t := ComputeIfNeed(s, FieldChineseDate).state;
            var r := Add(s, FieldChineseDate, amount);
            r.status == Unsupported ==>
              r.state == t.(chinese := r.state.chinese) && ValidLunar(r.state.chinese)
              && LunarDay(r.state.chinese.year, r.state.chinese.month, r.state.chinese.day)
                 == LunarDay(t.chinese.year, t.chinese.month, t.chinese.day) + (if amount < 0 then 0 else amount)
  {
    AddChineseDaysMoves(ComputeIfNeed(s, FieldChineseDate).state.chinese, amount);
  }

  /**
   * `roll(CHINESE_DATE)` raises after counting the day on modulo the
   * month's length, leaving year and month alone.
   */
  lemma RollChineseDateCycles(s: State, amount: int)
    requires ComputeIfNeed(s, FieldChineseDate).status == Done
    requires ValidLunar(ComputeIfNeed(s, FieldChineseDate).state.chinese) && amount >= 0
    ensures var l := ComputeIfNeed(s, FieldChineseDate).state.chinese;
            var r := Roll(s, FieldChineseDate, amount);
            r.status == Unsupported
            && r.state.chinese == l.(day := (l.day - 1 + amount) % MonthLength(l.year, l.month) + 1)
  {
    var l := ComputeIfNeed(s, FieldChineseDate).state.chinese;
    RollDayCycles(l.day, MonthLength(l.year, l.month), amount);
  }
}
