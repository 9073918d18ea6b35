/**
 * `ChineseCalendar` itself: the object whose fields the operations update
 * in place. Every method is proved to do what the function of the same
 * operation in `CalendarSpec` says to the calendar's state, read off the
 * fields by `Snapshot`. When a method stops inside a computation (an index
 * error or a loop that cannot end) it only promises its status.
 */
module Calendar {
  import opened KotlinInt
  import opened CalendarTables
  import opened Wrappers
  import opened LunarMonths
  import opened Gregorian
  import opened SolarTerms
  import opened Conversion
  import opened ChineseDays
  import opened CalendarSpec

  class ChineseCalendar {
    /** The platform calendar's year, 0-based month and day fields. */
    var greg: Date
    var chineseYear: int
    var chineseMonth: int
    var chineseDate: int
    var sectionalTerm: int
    var principleTerm: int
    var areFieldsSet: bool
    var areChineseFieldsComputed: bool
    var areSolarTermsComputed: bool
    var lastSetChinese: bool

    /** The calendar's state as the functions of `CalendarSpec` take it. */
    function Snapshot(): State
      reads this
    {
      State(greg, Lunar(chineseYear, chineseMonth, chineseDate), sectionalTerm, principleTerm,
            areFieldsSet, areChineseFieldsComputed, areSolarTermsComputed, lastSetChinese)
    }

    /**
     * The calendar for Gregorian year `y`, 0-based month `m` and day `d`:
     * the fields as given, not yet normalised, and nothing computed.
     */
    constructor (y: int, m: int, d: int)
      ensures Snapshot() == State(Date(y, m, d), Lunar(0, 0, 0), 0, 0, false, false, false, false)
    {
      greg := Date(y, m, d);
      chineseYear, chineseMonth, chineseDate := 0, 0, 0;
      sectionalTerm, principleTerm := 0, 0;
      areFieldsSet, areChineseFieldsComputed, areSolarTermsComputed, lastSetChinese := false, false, false, false;
    }

    // -------------------------------------------------------------------
    // What the platform calendar does for the calendar.

    /** The platform's `complete()`: normalise the Gregorian fields and mark them set. */
    method PlatformComplete()
      modifies this
      ensures Snapshot() == Complete(old(Snapshot()))
    {
      greg := Normalize(greg);
      areFieldsSet := true;
    }

    /**
     * The platform's `set(y, m, d)`, which writes each field through the
     * calendar's own `set`. The Chinese fields are never the last written
     * when the conversion calls it, so each write only stores the field and
     * clears the flags.
     */
    method SetGregorianDate(y: int, m: int, d: int)
      requires !lastSetChinese
      modifies this
      ensures Snapshot() == GregorianWritten(old(Snapshot()).(greg := Date(y, m, d), fieldsSet := false))
    {
      greg := Date(y, m, d);
      areFieldsSet, areChineseFieldsComputed, areSolarTermsComputed, lastSetChinese := false, false, false, false;
    }

    /** Write the three "up to date" flags. */
    method SetFlags(fieldsSet: bool, chineseComputed: bool, termsComputed: bool)
      modifies this
      ensures Snapshot() == old(Snapshot()).(fieldsSet := fieldsSet, chineseComputed := chineseComputed,
                                             termsComputed := termsComputed)
    {
      areFieldsSet, areChineseFieldsComputed, areSolarTermsComputed := fieldsSet, chineseComputed, termsComputed;
    }

    /** The platform's `add(DATE, amount)`: move the date and recompute the fields. */
    method PlatformAddDays(amount: int)
      modifies this
      ensures Snapshot() == old(Snapshot()).(greg := AddDays(old(greg), amount), fieldsSet := true)
    {
      greg := AddDays(greg, amount);
      areFieldsSet := true;
    }

    // -------------------------------------------------------------------
    // The conversions.

    /**
     * `computeChineseFields`: count the days from the anchor to the
     * Gregorian fields, add them to the anchor's Chinese day, and carry the
     * surplus through the following months.
     */
    method ComputeChineseFields() returns (status: Status)
      requires greg.month < 12
      modifies this
      ensures var r := ComputeChinese(old(Snapshot()));
              status == r.status && (status == Done ==> Snapshot() == r.state)
    {
      var gregorianYear, gregorianMonth, gregorianDate := greg.year, greg.month + 1, greg.day;
      if gregorianYear < 1901 || gregorianYear > 2100 {
        return Done;
      }
      ghost var s0 := Snapshot();
      ChineseFieldsCarry(s0.greg, s0.chinese);
      CountFromAnchor();
      status := CarryDays();
    }

    /**
     * The counting half of `computeChineseFields`: the Chinese fields set to
     * the anchor's Chinese date with the days from the anchor added to its day.
     */
    method CountFromAnchor()
      requires 1901 <= greg.year <= 2100 && greg.month < 12
      modifies this
      ensures var a := AnchorLunar(old(greg).year);
              Snapshot() == old(Snapshot()).(chinese := Lunar(a.year, a.month, a.day + DaysDiff(old(greg))))
    {
      var gregorianYear, gregorianMonth, gregorianDate := greg.year, greg.month + 1, greg.day;
      var startYear, startMonth, startDate := SetAnchor(gregorianYear);
      var daysDiff := DaysFromAnchor(gregorianYear, gregorianMonth, gregorianDate, startYear, startMonth, startDate);
      chineseDate := chineseDate + daysDiff;
    }

    /**
     * The anchor of `computeChineseFields`: the Gregorian date counted from
     * (month numbered from 1), with the Chinese fields set to its Chinese date.
     */
    method SetAnchor(gregorianYear: int) returns (startYear: int, startMonth: int, startDate: int)
      modifies this
      ensures Date(startYear, startMonth - 1, startDate) == AnchorDate(gregorianYear)
      ensures Snapshot() == old(Snapshot()).(chinese := AnchorLunar(gregorianYear))
    {
      if gregorianYear < 2000 {
        startYear, startMonth, startDate := BaseYear, BaseMonth, BaseDate;
        chineseYear, chineseMonth, chineseDate := BaseChineseYear, BaseChineseMonth, BaseChineseDate;
      } else {
        startYear, startMonth, startDate := BaseYear + 99, 1, 1;
        chineseYear, chineseMonth, chineseDate := BaseChineseYear + 99, 11, 25;
      }
    }

    /**
     * The counting loops of `computeChineseFields`: the days from the anchor
     * date (`startYear`, `startMonth`, `startDate`, month numbered from 1) to
     * the date (`gregorianYear`, `gregorianMonth`, `gregorianDate`), whole
     * years first, then whole months of the last year, then days.
     */
    method DaysFromAnchor(gregorianYear: int, gregorianMonth: int, gregorianDate: int,
                          startYear: int, startMonth: int, startDate: int) returns (daysDiff: int)
      requires 1901 <= gregorianYear <= 2100 && gregorianMonth <= 12
      requires Date(startYear, startMonth - 1, startDate) == AnchorDate(gregorianYear)
      ensures daysDiff == DaysDiff(Date(gregorianYear, gregorianMonth - 1, gregorianDate))
    {
      var yearDays := YearDaysFrom(startYear, gregorianYear);
      var monthDays := MonthDaysBefore(gregorianYear, gregorianMonth, startMonth);
      daysDiff := yearDays + monthDays + gregorianDate - startDate;
    }

    /** The year loop of `computeChineseFields`: 366 days for each leap year from `startYear` up to `gregorianYear`, 365 for the others. */
    method YearDaysFrom(startYear: int, gregorianYear: int) returns (daysDiff: int)
      requires startYear <= gregorianYear
      ensures daysDiff == DaysBeforeYear(gregorianYear) - DaysBeforeYear(startYear)
    {
      daysDiff := 0;
      var i := startYear;
      while i < gregorianYear
        invariant startYear <= i <= gregorianYear
        invariant daysDiff == DaysBeforeYear(i) - DaysBeforeYear(startYear)
      {
        YearStep(i);
        LeapYearIs(i);
        if IsGregorianLeapYear(i) {
          daysDiff := daysDiff + 366;
        } else {
          daysDiff := daysDiff + 365;
        }
        i := i + 1;
      }
    }

    /**
     * The month loop of `computeChineseFields`: the lengths of the months
     * from `startMonth` (which is 1) before month `gregorianMonth`, both
     * numbered from 1; none when `gregorianMonth` is 1 or less.
     */
    method MonthDaysBefore(gregorianYear: int, gregorianMonth: int, startMonth: int) returns (daysDiff: int)
      requires gregorianMonth <= 12 && startMonth == 1
      ensures daysDiff == MonthsBefore(gregorianYear, gregorianMonth - 1)
    {
      daysDiff := 0;
      var i := startMonth;
      while i < gregorianMonth
        invariant 1 <= i <= (if gregorianMonth >= 1 then gregorianMonth else 1)
        invariant daysDiff == DaysBeforeMonth(gregorianYear, i - 1)
      {
        daysDiff := daysDiff + DaysInGregorianMonth(gregorianYear, i - 1);
        i := i + 1;
      }
    }

    /**
     * The carrying loop of `computeChineseFields`: while the Chinese day
     * exceeds its month's length, subtract the length and step to the next
     * month; stepping past the last table year fails.
     */
    method CarryDays() returns (status: Status)
      requires ValidMonth(chineseYear, chineseMonth)
      modifies this
      ensures var r := Settle(old(Snapshot()).chinese);
              status == (if r.Some? then Done else IndexOutOfBounds)
              && (status == Done ==> Snapshot() == old(Snapshot()).(chinese := r.value))
    {
      ghost var s0 := Snapshot();
      var lastDate := DaysInChineseMonth(chineseYear, chineseMonth);
      while chineseDate > lastDate
        invariant ValidMonth(chineseYear, chineseMonth) && lastDate == MonthLength(chineseYear, chineseMonth)
        invariant Settle(Lunar(chineseYear, chineseMonth, chineseDate)) == Settle(s0.chinese)
        invariant Snapshot() == s0.(chinese := Lunar(chineseYear, chineseMonth, chineseDate))
        decreases chineseDate
      {
        status, lastDate := CarryOneMonth(lastDate);
        if status != Done {
          return;
        }
      }
      return Done;
    }

    /** One pass of the carrying loop: the month's days off, on to the next month and its length. */
    method CarryOneMonth(lastDate: int) returns (status: Status, nextLast: int)
      requires ValidMonth(chineseYear, chineseMonth) && lastDate == MonthLength(chineseYear, chineseMonth)
      requires chineseDate > lastDate
      modifies this
      ensures var l := old(Snapshot()).chinese;
              var next := Lunar(NextMonthYear(l.year, l.month), NextChineseMonth(l.year, l.month), l.day - lastDate);
              status == (if InTable(next.year) then Done else IndexOutOfBounds)
              && (status == Done ==> Snapshot() == old(Snapshot()).(chinese := next)
                                     && ValidMonth(next.year, next.month) && nextLast == MonthLength(next.year, next.month)
                                     && Settle(next) == Settle(l) && 0 < next.day < l.day)
    {
      ghost var y, m := chineseYear, chineseMonth;
      chineseDate := chineseDate - lastDate;
      StepMonth();
      if !InTable(chineseYear) {
        return IndexOutOfBounds, 0;
      }
      NextMonthFollows(y, m);
      status := Done;
      nextLast := DaysInChineseMonth(chineseYear, chineseMonth);
    }

    /** `computeSolarTerms`: the term days of the Gregorian year and month, 1901..2100 only. */
    method ComputeSolarTerms() returns (status: Status)
      modifies this
      ensures var r := ComputeTerms(old(Snapshot()));
              status == r.status && (status == Done ==> Snapshot() == r.state)
    {
      var gregorianYear, gregorianMonth := greg.year, greg.month;
      if gregorianYear < 1901 || gregorianYear > 2100 {
        return Done;
      }
      var sectional := SectionalTerm(gregorianYear, gregorianMonth);
      if sectional.None? {
        return IndexOutOfBounds;
      }
      sectionalTerm := sectional.value;
      var principle := PrincipalTerm(gregorianYear, gregorianMonth);
      if principle.None? {
        return IndexOutOfBounds;
      }
      principleTerm := principle.value;
      return Done;
    }

    /**
     * `computeGregorianFields`: reach the Gregorian date of the Chinese
     * fields, then convert it once more.
     */
    method ComputeGregorianFields() returns (status: Status)
      modifies this
      ensures var r := ComputeGregorian(old(Snapshot()));
              status == r.status && (!Crashed(status) ==> Snapshot() == r.state)
    {
      ghost var s0 := Snapshot();
      status := Converge();
      if status != Done {
        return;
      }
      ComputeGregorianInSteps(s0);
      status := ComputeChineseFields();
    }

    /**
     * The first part of `computeGregorianFields`: snap the Chinese fields
     * to the ends of the range, or to a month and day the year has and
     * approach that date from a seed.
     */
    method Converge() returns (status: Status)
      modifies this
      ensures var r := Converging(old(Snapshot()));
              status == r.status && (!Crashed(status) ==> Snapshot() == r.state)
    {
      MarkConverting();
      var target := SnapTarget();
      match target
      case TooEarly =>
        SnapTo(1901, 0, 1);
        status := Done;
      case TooLate =>
        SnapTo(2100, 11, 31);
        status := Done;
      case Within(y, m, d) =>
        status := ApproachFromSeed(y, m, d);
    }

    /** The flags `computeGregorianFields` writes before it starts: both sides taken as computed, the Gregorian side as set last. */
    method MarkConverting()
      modifies this
      ensures Snapshot() == old(Snapshot()).(chineseComputed := true, fieldsSet := true, lastSetChinese := false)
    {
      areChineseFieldsComputed := true;
      areFieldsSet := true;
      lastSetChinese := false;
    }

    /**
     * The clamping and snapping of `computeGregorianFields`: year, month
     * and day clamped, compared with the ends of the range through
     * `y * 10000 + |m| * 100 + d`, and inside it a month the year lacks
     * replaced by the regular month of that number and the day cut to the
     * month's length.
     */
    method SnapTarget() returns (target: Target)
      ensures target == TargetOf(Lunar(chineseYear, chineseMonth, chineseDate))
    {
      var y, m, d := chineseYear, chineseMonth, chineseDate;
      if y < 1900 {
        y := 1899;
      } else if y > 2100 {
        y := 2101;
      }
      if m < -12 {
        m := -12;
      } else if m > 12 {
        m := 12;
      }
      if d < 1 {
        d := 1;
      } else if d > 30 {
        d := 30;
      }

      var dateint := y * 10000 + Abs(m) * 100 + d;
      if dateint < 19001111 {
        return TooEarly;
      } else if dateint > 21001201 {
        return TooLate;
      }
      if Abs(m) > 12 {
        m := 12;
      }
      var days := DaysInChineseMonth(y, m);
      if days == 0 {
        m := -m;
        days := DaysInChineseMonth(y, m);
      }
      if d > days {
        d := days;
      }
      return Within(y, m, d);
    }

    /** Set the Gregorian fields to a date of the range's ends and complete them. */
    method SnapTo(y: int, m: int, d: int)
      requires IsDate(Date(y, m, d)) && !lastSetChinese
      modifies this
      ensures Snapshot() == Converting(old(Snapshot()), Date(y, m, d))
    {
      SetGregorianDate(y, m, d);
      NormalizeKeepsDate(greg);
      PlatformComplete();
    }

    /**
     * The part of `computeGregorianFields` between the snapping and the
     * last conversion: seed the Gregorian fields with the target's year,
     * the Gregorian month numbered like the Chinese one and the day, convert
     * the seed, walk the months to the target adding up their lengths, and
     * move the date by the days walked plus the target day minus the
     * seed's Chinese day.
     */
    method ApproachFromSeed(y: int, m: int, d: int) returns (status: Status)
      requires Abs(m) <= 12 && !lastSetChinese
      modifies this
      ensures var a := Approach(SeedAsWritten(y, m, d), old(Snapshot()).chinese, y, m, d);
              status == (if a.Converted? then Done else if a.ConversionFailed? then IndexOutOfBounds else Hangs)
              && (status == Done ==> Snapshot() == Converting(old(Snapshot()), a.greg).(chinese := a.chinese))
    {
      ghost var s0 := Snapshot();
      ghost var seed := SeedAsWritten(y, m, d);
      status := StartFromSeed(y, m, d);
      if status != Done {
        ApproachWithoutFields(seed, s0.chinese, y, m, d);
        return;
      }
      status := WalkAndMove(y, m, d, seed, s0.chinese);
    }

    /**
     * The second half of the approach, from the seed date and its Chinese
     * fields: walk to the target month, then move the Gregorian date by the
     * days walked plus the target day less the Chinese day.
     */
    method WalkAndMove(y: int, m: int, d: int, ghost seed: Date, ghost current: Lunar) returns (status: Status)
      requires seed.month < 12 && Abs(m) <= 12
      requires greg == seed && ChineseFieldsOf(seed, current) == Some(Lunar(chineseYear, chineseMonth, chineseDate))
      modifies this
      ensures var a := Approach(seed, current, y, m, d);
              status == (if a.Converted? then Done else if a.ConversionFailed? then IndexOutOfBounds else Hangs)
              && (status == Done ==> Snapshot() == old(Snapshot()).(greg := a.greg, fieldsSet := true, chinese := a.chinese))
    {
      ApproachWalks(seed, current, y, m, d, Lunar(chineseYear, chineseMonth, chineseDate));
      var amount;
      status, amount := WalkTo(y, m);
      if status == Done {
        PlatformAddDays(amount + d - chineseDate);
      }
    }

    /** The first half of the approach: set the seed date and compute its Chinese fields. */
    method StartFromSeed(y: int, m: int, d: int) returns (status: Status)
      requires Abs(m) <= 12 && !lastSetChinese
      modifies this
      ensures var c := ComputeChinese(GregorianWritten(old(Snapshot()).(greg := SeedAsWritten(y, m, d), fieldsSet := false)));
              status == c.status && (status == Done ==> Snapshot() == c.state)
    {
      SetGregorianDate(y, Abs(m) - 1, d);
      status := ComputeChineseFields();
    }

    /**
     * The walk of the approach: step month by month from the current Chinese
     * month to month `m` of year `y`, adding up the lengths of the months passed.
     */
    method WalkTo(y: int, m: int) returns (status: Status, amount: int)
      requires Abs(m) <= 12
      modifies this
      ensures var w := Walk(old(chineseYear), old(chineseMonth), y, m, 0);
              status == (if w.Reached? then Done else if w.WalkFailed? then IndexOutOfBounds else Hangs)
              && (status == Done ==> amount == w.amount && Snapshot() == old(Snapshot()).(chinese := Lunar(y, m, old(chineseDate))))
    {
      ghost var s0 := Snapshot();
      amount := 0;
      while chineseYear != y || chineseMonth != m
        invariant Walk(chineseYear, chineseMonth, y, m, amount) == Walk(s0.chinese.year, s0.chinese.month, y, m, 0)
        invariant Snapshot() == s0.(chinese := Lunar(chineseYear, chineseMonth, s0.chinese.day))
        decreases if Abs(chineseMonth) <= 12 then 2101 - chineseYear else 0, 26 - Slot(chineseMonth)
      {
        if !InTable(chineseYear) {
          return IndexOutOfBounds, amount;
        }
        if Abs(chineseMonth) > 12 {
          return Hangs, amount;
        }
        var len := DaysInChineseMonth(chineseYear, chineseMonth);
        amount := amount + len;
        StepMonth();
      }
      status := Done;
    }

    /** One step of the walk: the next Chinese month, and the next year after the twelfth. */
    method StepMonth()
      requires chineseMonth > 0 ==> InTable(chineseYear)
      modifies this
      ensures Snapshot() == old(Snapshot()).(chinese := Lunar(NextMonthYear(old(chineseYear), old(chineseMonth)),
                                                             NextChineseMonth(old(chineseYear), old(chineseMonth)), old(chineseDate)))
    {
      chineseMonth := NextChineseMonth(chineseYear, chineseMonth);
      if chineseMonth == 1 {
        chineseYear := chineseYear + 1;
      }
    }

    // -------------------------------------------------------------------
    // computeIfNeed and the operations.

    /**
     * `computeIfNeed(field)`: bring the side about to be used up to date
     * from the other one.
     */
    method ComputeIfNeed(field: int) returns (status: Status)
      modifies this
      ensures var r := CalendarSpec.ComputeIfNeed(old(Snapshot()), field);
              status == r.status && (!Crashed(status) ==> Snapshot() == r.state)
    {
      if IsChineseField(field) {
        status := RefreshChinese();
        if status == Done && IsTermsField(field) {
          status := RefreshTerms();
        }
      } else {
        status := RefreshGregorian();
      }
    }

    /** The Chinese half of `computeIfNeed`: convert the completed Gregorian fields when needed. */
    method RefreshChinese() returns (status: Status)
      modifies this
      ensures var r := CalendarSpec.RefreshChinese(old(Snapshot()));
              status == r.status && (!Crashed(status) ==> Snapshot() == r.state)
    {
      if !lastSetChinese && !areChineseFieldsComputed {
        PlatformComplete();
        status := ComputeChineseFields();
        if status != Done {
          return;
        }
        SetFlags(true, true, false);
      }
      status := Done;
    }

    /** The terms step of `computeIfNeed`: look the terms up when they are stale. */
    method RefreshTerms() returns (status: Status)
      modifies this
      ensures var r := CalendarSpec.RefreshTerms(old(Snapshot()));
              status == r.status && (!Crashed(status) ==> Snapshot() == r.state)
    {
      if !areSolarTermsComputed {
        status := ComputeSolarTerms();
        if status != Done {
          return;
        }
        areSolarTermsComputed := true;
      }
      status := Done;
    }

    /** The Gregorian half of `computeIfNeed`: convert the Chinese fields back when they were written last. */
    method RefreshGregorian() returns (status: Status)
      modifies this
      ensures var r := CalendarSpec.RefreshGregorian(old(Snapshot()));
              status == r.status && (!Crashed(status) ==> Snapshot() == r.state)
    {
      if lastSetChinese && !areFieldsSet {
        ghost var s0 := Snapshot();
        status := ComputeGregorianFields();
        if status != Done {
          return;
        }
        PlatformComplete();
        SetFlags(true, true, false);
      }
      status := Done;
    }

    /** `set(field, value)` for a Chinese field or the Gregorian year, month or day. */
    method Set(field: int, value: int) returns (status: Status)
      requires IsChineseField(field) || field == FieldYear || field == FieldMonth || field == FieldDate
      modifies this
      ensures var r := CalendarSpec.Set(old(Snapshot()), field, value);
              status == r.status && (!Crashed(status) ==> Snapshot() == r.state)
    {
      status := ComputeIfNeed(field);
      if status != Done {
        return;
      }
      status := WriteField(field, value);
    }

    /** The write of `set` once `computeIfNeed` is done; a Chinese field other than year, month and day raises. */
    method WriteField(field: int, value: int) returns (status: Status)
      requires IsChineseField(field) || field == FieldYear || field == FieldMonth || field == FieldDate
      modifies this
      ensures var r := CalendarSpec.WriteField(old(Snapshot()), field, value);
              status == r.status && (!Crashed(status) ==> Snapshot() == r.state)
    {
      status := Done;
      if IsChineseField(field) {
        if field == FieldChineseYear {
          chineseYear := value;
        } else if field == FieldChineseMonth {
          chineseMonth := value;
        } else if field == FieldChineseDate {
          chineseDate := value;
        } else {
          return Unsupported;
        }
        lastSetChinese := true;
      } else {
        if field == FieldYear {
          greg := greg.(year := value);
        } else if field == FieldMonth {
          greg := greg.(month := value);
        } else {
          greg := greg.(day := value);
        }
        lastSetChinese := false;
      }
      areFieldsSet, areChineseFieldsComputed, areSolarTermsComputed := false, false, false;
    }

    /**
     * `get(field)` for a Chinese field or a Gregorian field the model
     * covers. `CHINESE_TERM_OR_DATE` compares the readings of other fields,
     * each through `get` again.
     */
    method Get(field: int) returns (status: Status, value: int)
      requires IsChineseField(field) || IsGregorianField(field)
      modifies this
      ensures var r := CalendarSpec.Get(old(Snapshot()), field);
              status == r.status && (!Crashed(status) ==> Snapshot() == r.state && value == r.value)
      decreases if field == FieldTermOrDate then 1 else 0, 0
    {
      value := 0;
      status := ComputeIfNeed(field);
      if status != Done {
        return;
      }
      if !IsChineseField(field) {
        PlatformComplete();
        value := if field == FieldYear then greg.year
                 else if field == FieldMonth then greg.month
                 else if field == FieldDate then greg.day
                 else DayOfWeek(DayNumber(greg));
        return;
      }
      if field == FieldChineseYear {
        value := chineseYear;
      } else if field == FieldChineseMonth {
        value := chineseMonth;
      } else if field == FieldChineseDate {
        value := chineseDate;
      } else if field == FieldSectionalTerm {
        value := sectionalTerm;
      } else if field == FieldPrincipleTerm {
        value := principleTerm;
      } else if field == FieldHeavenlyStem {
        value := Rem(chineseYear - 4, 10) + 1;
      } else if field == FieldEarthlyBranch || field == FieldZodiac {
        value := Rem(chineseYear - 4, 12) + 1;
      } else {
        status, value := TermOrDate();
      }
    }

    /**
     * The `CHINESE_TERM_OR_DATE` branch of `get`: today's date against the
     * sectional term day, then against the principal term day, then the
     * Chinese day against 1, each field read through `get`.
     */
    method TermOrDate() returns (status: Status, value: int)
      modifies this
      ensures var r := CalendarSpec.TermOrDate(old(Snapshot()));
              status == r.status && (!Crashed(status) ==> Snapshot() == r.state && value == r.value)
      decreases 0, 5
    {
      var date;
      status, date := Get(FieldDate);
      if status != Done {
        return status, 0;
      }
      status, value := SectionalStage(date);
    }

    /** Today's date against the sectional term day. */
    method SectionalStage(date: int) returns (status: Status, value: int)
      modifies this
      ensures var r := CalendarSpec.SectionalStage(Reading(old(Snapshot()), Done, date));
              status == r.status && (!Crashed(status) ==> Snapshot() == r.state && value == r.value)
      decreases 0, 4
    {
      var term;
      status, term := Get(FieldSectionalTerm);
      if status != Done {
        return status, 0;
      }
      if date == term {
        return Done, FieldSectionalTerm;
      }
      status, value := PrincipalStage();
    }

    /** Today's date, read again, for the principal term comparison. */
    method PrincipalStage() returns (status: Status, value: int)
      modifies this
      ensures var r := CalendarSpec.PrincipalStage(old(Snapshot()));
              status == r.status && (!Crashed(status) ==> Snapshot() == r.state && value == r.value)
      decreases 0, 3
    {
      var date;
      status, date := Get(FieldDate);
      if status != Done {
        return status, 0;
      }
      status, value := PrincipalCompare(date);
    }

    /** Today's date against the principal term day. */
    method PrincipalCompare(date: int) returns (status: Status, value: int)
      modifies this
      ensures var r := CalendarSpec.PrincipalCompare(Reading(old(Snapshot()), Done, date));
              status == r.status && (!Crashed(status) ==> Snapshot() == r.state && value == r.value)
      decreases 0, 2
    {
      var term;
      status, term := Get(FieldPrincipleTerm);
      if status != Done {
        return status, 0;
      }
      if date == term {
        return Done, FieldPrincipleTerm;
      }
      status, value := DayStage();
    }

    /** The month on the first Chinese day, otherwise the day. */
    method DayStage() returns (status: Status, value: int)
      modifies this
      ensures var r := CalendarSpec.DayStage(old(Snapshot()));
              status == r.status && (!Crashed(status) ==> Snapshot() == r.state && value == r.value)
      decreases 0, 1
    {
      var day;
      status, day := Get(FieldChineseDate);
      if status != Done {
        return status, 0;
      }
      value := if day == 1 then FieldChineseMonth else FieldChineseDate;
    }

    // -------------------------------------------------------------------
    // add and roll.

    /**
     * `add(field, amount)` for a Chinese field or the Gregorian day: the
     * Chinese year moves by `amount`, the month and day step `amount` times,
     * the day's loop is followed by a raise.
     */
    method Add(field: int, amount: int) returns (status: Status)
      requires IsChineseField(field) || field == FieldDate
      modifies this
      ensures var r := CalendarSpec.Add(old(Snapshot()), field, amount);
              status == r.status && (!Crashed(status) ==> Snapshot() == r.state)
    {
      status := ComputeIfNeed(field);
      if status != Done {
        return;
      }
      status := AddField(field, amount);
    }

    /** The addition of `add`, once `computeIfNeed` is done. */
    method AddField(field: int, amount: int) returns (status: Status)
      requires IsChineseField(field) || field == FieldDate
      modifies this
      ensures var r := CalendarSpec.AddField(old(Snapshot()), field, amount);
              status == r.status && (!Crashed(status) ==> Snapshot() == r.state)
    {
      if !IsChineseField(field) {
        PlatformAddDays(amount);
        lastSetChinese, areChineseFieldsComputed, areSolarTermsComputed := false, false, false;
        return Done;
      }
      if field == FieldChineseYear {
        chineseYear := chineseYear + amount;
      } else if field == FieldChineseMonth {
        status := AddMonthLoop(amount);
        if status != Done {
          return;
        }
      } else if field == FieldChineseDate {
        status := AddDayLoop(amount);
        if status != Done {
          return;
        }
        return Unsupported;
      } else {
        return Unsupported;
      }
      MarkChineseWritten();
      status := Done;
    }

    /** The flags `add`, `roll` and `set` write after a Chinese field changed. */
    method MarkChineseWritten()
      modifies this
      ensures Snapshot() == ChineseWritten(old(Snapshot()))
    {
      lastSetChinese := true;
      areFieldsSet, areChineseFieldsComputed, areSolarTermsComputed := false, false, false;
    }

    /** The month loop of `add`: `amount` steps to the next Chinese month, into the next year after the twelfth. */
    method AddMonthLoop(amount: int) returns (status: Status)
      modifies this
      ensures var r := AddMonths(old(chineseYear), old(chineseMonth), amount);
              status == (if r.Some? then Done else IndexOutOfBounds)
              && (status == Done ==> Snapshot() == old(Snapshot()).(chinese := Lunar(r.value.0, r.value.1, old(chineseDate))))
    {
      ghost var s0 := Snapshot();
      var i := 0;
      while i < amount
        invariant AddMonths(chineseYear, chineseMonth, amount - i) == AddMonths(s0.chinese.year, s0.chinese.month, amount)
        invariant Snapshot() == s0.(chinese := Lunar(chineseYear, chineseMonth, s0.chinese.day))
        decreases amount - i
      {
        if chineseMonth > 0 && !InTable(chineseYear) {
          return IndexOutOfBounds;
        }
        StepMonth();
        i := i + 1;
      }
      status := Done;
    }

    /**
     * The day loop of `add`: the month's length is read first, then the day
     * goes up `amount` times, starting the next month on day 1 whenever it
     * passes the length.
     */
    method AddDayLoop(amount: int) returns (status: Status)
      modifies this
      ensures var r := AddChineseDays(old(Snapshot()).chinese, amount);
              status == (if r.Some? then Done else IndexOutOfBounds)
              && (status == Done ==> Snapshot() == old(Snapshot()).(chinese := r.value))
    {
      ghost var s0 := Snapshot();
      if !InTable(chineseYear) {
        return IndexOutOfBounds;
      }
      var maxDate := DaysInChineseMonth(chineseYear, chineseMonth);
      var i := 0;
      while i < amount
        invariant DayLoop(Lunar(chineseYear, chineseMonth, chineseDate), maxDate, amount - i) == AddChineseDays(s0.chinese, amount)
        invariant Snapshot() == s0.(chinese := Lunar(chineseYear, chineseMonth, chineseDate))
        decreases amount - i
      {
        status, maxDate := NextDay(maxDate);
        if status != Done {
          return;
        }
        i := i + 1;
      }
      status := Done;
    }

    /** One pass of the day loop of `add`. */
    method NextDay(maxDate: int) returns (status: Status, nextMax: int)
      modifies this
      ensures var r := DayStep(old(Snapshot()).chinese, maxDate);
              status == (if r.Some? then Done else IndexOutOfBounds)
              && (status == Done ==> Snapshot() == old(Snapshot()).(chinese := r.value.0) && nextMax == r.value.1)
    {
      chineseDate := chineseDate + 1;
      nextMax := maxDate;
      if chineseDate > maxDate {
        chineseDate := 1;
        if chineseMonth > 0 && !InTable(chineseYear) {
          return IndexOutOfBounds, maxDate;
        }
        StepMonth();
        if !InTable(chineseYear) {
          return IndexOutOfBounds, maxDate;
        }
        nextMax := DaysInChineseMonth(chineseYear, chineseMonth);
      }
      status := Done;
    }

    /**
     * `roll(field, amount)` for a Chinese field: as `add`, except that the
     * month steps keep the year and the day stays inside its month.
     */
    method Roll(field: int, amount: int) returns (status: Status)
      requires IsChineseField(field)
      modifies this
      ensures var r := CalendarSpec.Roll(old(Snapshot()), field, amount);
              status == r.status && (!Crashed(status) ==> Snapshot() == r.state)
    {
      status := ComputeIfNeed(field);
      if status != Done {
        return;
      }
      status := RollField(field, amount);
    }

    /** The roll of `roll`, once `computeIfNeed` is done. */
    method RollField(field: int, amount: int) returns (status: Status)
      requires IsChineseField(field)
      modifies this
      ensures var r := CalendarSpec.RollField(old(Snapshot()), field, amount);
              status == r.status && (!Crashed(status) ==> Snapshot() == r.state)
    {
      if field == FieldChineseYear {
        chineseYear := chineseYear + amount;
      } else if field == FieldChineseMonth {
        status := RollMonthLoop(amount);
        if status != Done {
          return;
        }
      } else if field == FieldChineseDate {
        status := RollDayLoop(amount);
        if status != Done {
          return;
        }
        return Unsupported;
      } else {
        return Unsupported;
      }
      MarkChineseWritten();
      status := Done;
    }

    /** The month loop of `roll`: `amount` steps to the next Chinese month, the year left alone. */
    method RollMonthLoop(amount: int) returns (status: Status)
      modifies this
      ensures var r := RollMonths(old(chineseYear), old(chineseMonth), amount);
              status == (if r.Some? then Done else IndexOutOfBounds)
              && (status == Done ==> Snapshot() == old(Snapshot()).(chinese := old(Snapshot()).chinese.(month := r.value)))
    {
      ghost var s0 := Snapshot();
      var i := 0;
      while i < amount
        invariant RollMonths(chineseYear, chineseMonth, amount - i) == RollMonths(s0.chinese.year, s0.chinese.month, amount)
        invariant Snapshot() == s0.(chinese := s0.chinese.(month := chineseMonth))
        decreases amount - i
      {
        if chineseMonth > 0 && !InTable(chineseYear) {
          return IndexOutOfBounds;
        }
        chineseMonth := NextChineseMonth(chineseYear, chineseMonth);
        i := i + 1;
      }
      status := Done;
    }

    /** The day loop of `roll`: the month's length read once, then `amount` steps falling back to day 1. */
    method RollDayLoop(amount: int) returns (status: Status)
      modifies this
      ensures status == (if InTable(old(chineseYear)) then Done else IndexOutOfBounds)
      ensures status == Done ==>
                Snapshot() == old(Snapshot()).(chinese := old(Snapshot()).chinese.(day :=
                  RollDay(old(chineseDate), MonthLength(old(chineseYear), old(chineseMonth)), amount)))
    {
      ghost var s0 := Snapshot();
      if !InTable(chineseYear) {
        return IndexOutOfBounds;
      }
      var maxDate := DaysInChineseMonth(chineseYear, chineseMonth);
      var i := 0;
      while i < amount
        invariant RollDay(chineseDate, maxDate, amount - i) == RollDay(s0.chinese.day, maxDate, amount)
        invariant Snapshot() == s0.(chinese := s0.chinese.(day := chineseDate))
        decreases amount - i
      {
        chineseDate := chineseDate + 1;
        if chineseDate > maxDate {
          chineseDate := 1;
        }
        i := i + 1;
      }
      status := Done;
    }

    // -------------------------------------------------------------------
    // getChinese.

    /**
     * `getChinese(field)`: the Chinese text of a Chinese field or of the
     * weekday, each name an index into its list; the year is the texts of
     * its stem and branch, and `CHINESE_TERM_OR_DATE` the text of the field
     * it answers.
     */
    method GetChinese(field: int) returns (status: Status, text: string)
      modifies this
      ensures var r := CalendarSpec.GetChinese(old(Snapshot()), field);
              status == r.status && (!Crashed(status) ==> Snapshot() == r.state && text == r.text)
      decreases if field == FieldTermOrDate then 2 else if field == FieldChineseYear then 1 else 0, 1
    {
      text := "";
      status := ComputeIfNeed(field);
      if status != Done {
        return;
      }
      if field == FieldChineseYear {
        status, text := ChineseYearText();
      } else if field == FieldChineseMonth {
        var m := chineseMonth;
        if !(0 <= Abs(m) < |ChineseMonthNames|) {
          return IndexOutOfBounds, "";
        }
        text := (if m > 0 then "" else "闰") + ChineseMonthNames[Abs(m)] + "月";
      } else if field == FieldChineseDate {
        status, text := NameAt(chineseDate, ChineseDateNames);
      } else if field == FieldSectionalTerm || field == FieldPrincipleTerm {
        var month;
        status, month := Get(FieldMonth);
        if status != Done {
          return status, "";
        }
        status, text := NameAt(month, if field == FieldSectionalTerm then SectionalTermNames else PrincipleTermNames);
      } else if field == FieldHeavenlyStem || field == FieldEarthlyBranch || field == FieldZodiac || field == FieldDayOfWeek {
        var index;
        status, index := Get(field);
        if status != Done {
          return status, "";
        }
        status, text := NameAt(index, if field == FieldHeavenlyStem then StemNames
                                      else if field == FieldEarthlyBranch then BranchNames
                                      else if field == FieldZodiac then AnimalNames
                                      else ChineseWeekNames);
      } else if field == FieldTermOrDate {
        var option;
        status, option := Get(FieldTermOrDate);
        if status != Done {
          return status, "";
        }
        status, text := GetChinese(option);
      } else {
        status := Unsupported;
      }
    }

    /** The year's text: the stem's text, the branch's text, then 年. */
    method ChineseYearText() returns (status: Status, text: string)
      modifies this
      ensures var stem := CalendarSpec.GetChinese(old(Snapshot()), FieldHeavenlyStem);
              var branch := CalendarSpec.GetChinese(stem.state, FieldEarthlyBranch);
              var r := if stem.status != Done then stem
                       else if branch.status != Done then branch
                       else Rendering(branch.state, Done, stem.text + branch.text + "年");
              status == r.status && (!Crashed(status) ==> Snapshot() == r.state && text == r.text)
      decreases 1, 0
    {
      var stem, branch;
      status, stem := GetChinese(FieldHeavenlyStem);
      if status != Done {
        return status, stem;
      }
      status, branch := GetChinese(FieldEarthlyBranch);
      if status != Done {
        return status, branch;
      }
      text := stem + branch + "年";
    }

    /** Entry `index` of `names`, or an index error. */
    static method NameAt(index: int, names: seq<string>) returns (status: Status, text: string)
      ensures status == (if 0 <= index < |names| then Done else IndexOutOfBounds)
      ensures status == Done ==> text == names[index]
    {
      if 0 <= index < |names| {
        return Done, names[index];
      }
      return IndexOutOfBounds, "";
    }
  }
}
