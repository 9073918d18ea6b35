/**
 * The state machine of `ChineseCalendar` as pure functions of its state.
 *
 * The calendar keeps the Gregorian fields of the platform calendar it
 * extends, its own Chinese fields and two solar-term days, and four flags
 * that say which side is up to date. Every public operation first runs
 * `computeIfNeed`, which brings the side about to be read or written up to
 * date from the other one, and then reads or writes a field.
 *
 * Each operation is a function from a `State` to the new state and a
 * `Status`: done, IllegalArgumentException (`Unsupported`), an index out of
 * bounds in a table or a name list, or a loop that never ends. After an
 * index error or a hang the state is left as it was before the failing
 * step; the calendar's own state at that point is not modelled.
 */
module CalendarSpec {
  import opened KotlinInt
  import opened CalendarTables
  import opened Wrappers
  import opened LunarMonths
  import opened Gregorian
  import opened SolarTerms
  import opened Conversion
  import opened ChineseDays

  // ---------------------------------------------------------------------
  // Field numbers: those of the platform calendar that the model covers,
  // and the calendar's own.

  const FieldYear := 1
  const FieldMonth := 2
  const FieldDate := 5
  const FieldDayOfWeek := 7
  const FieldChineseYear := 801
  const FieldChineseMonth := 802
  const FieldChineseDate := 803
  const FieldSectionalTerm := 804
  const FieldPrincipleTerm := 805
  const FieldHeavenlyStem := 806
  const FieldEarthlyBranch := 807
  const FieldZodiac := 808
  const FieldTermOrDate := 888

  /** `isChineseField`: the nine fields the calendar answers itself. */
  predicate IsChineseField(field: int)
  {
    field == FieldChineseYear || field == FieldChineseMonth || field == FieldChineseDate
    || field == FieldSectionalTerm || field == FieldPrincipleTerm || field == FieldHeavenlyStem
    || field == FieldEarthlyBranch || field == FieldZodiac || field == FieldTermOrDate
  }

  /** `isChineseTermsField`: the fields that need the solar terms. */
  predicate IsTermsField(field: int)
  {
    field == FieldSectionalTerm || field == FieldPrincipleTerm || field == FieldTermOrDate
  }

  /** The three Chinese fields that can be written. */
  predicate IsWritableChineseField(field: int)
  {
    field == FieldChineseYear || field == FieldChineseMonth || field == FieldChineseDate
  }

  /** The Gregorian fields the model reads. */
  predicate IsGregorianField(field: int)
  {
    field == FieldYear || field == FieldMonth || field == FieldDate || field == FieldDayOfWeek
  }

  // ---------------------------------------------------------------------
  // State and results.

  datatype Status = Done | Unsupported | IndexOutOfBounds | Hangs

  /** Whether an operation stopped inside a computation rather than finishing or refusing. */
  predicate Crashed(status: Status)
  {
    status == IndexOutOfBounds || status == Hangs
  }

  /**
   * The calendar's state: the Gregorian fields (month 0-based, possibly not
   * yet normalised), the Chinese fields, the two term days, and the flags
   * `areFieldsSet`, `areChineseFieldsComputed`, `areSolarTermsComputed` and
   * `lastSetChinese`.
   */
  datatype State = State(greg: Date, chinese: Lunar, sectional: int, principle: int,
                         fieldsSet: bool, chineseComputed: bool, termsComputed: bool,
                         lastSetChinese: bool)

  datatype Outcome = Outcome(state: State, status: Status)
  datatype Reading = Reading(state: State, status: Status, value: int)
  datatype Rendering = Rendering(state: State, status: Status, text: string)

  /**
   * The two facts the flags keep: whichever side was last written or
   * converted, the Gregorian fields are normalised; and after a Chinese
   * write the Gregorian fields are marked stale.
   */
  predicate Wf(s: State)
  {
    (s.lastSetChinese || s.chineseComputed ==> IsDate(s.greg))
    && (s.lastSetChinese ==> !s.fieldsSet)
  }

  /** The Chinese fields are the conversion of the Gregorian date. */
  predicate Consistent(s: State)
  {
    IsDate(s.greg) && ChineseFieldsOf(s.greg, s.chinese) == Some(s.chinese)
  }

  // ---------------------------------------------------------------------
  // The steps `computeIfNeed` is made of.

  /** The platform calendar's `complete`: the Gregorian fields normalised and marked set. */
  function Complete(s: State): (r: State)
    ensures IsDate(r.greg) && r.fieldsSet
  {
    s.(greg := Normalize(s.greg), fieldsSet := true)
  }

  /** Completing fields that already name a date changes only the flag. */
  lemma CompleteKeepsDate(s: State)
    requires IsDate(s.greg)
    ensures Complete(s) == s.(fieldsSet := true)
  {
    NormalizeKeepsDate(s.greg);
  }

  /** `computeChineseFields` on the Gregorian fields as they stand (month below 12). */
  function ComputeChinese(s: State): (r: Outcome)
    requires s.greg.month < 12
    ensures r.status == Done || r.status == IndexOutOfBounds
    ensures r.state == s.(chinese := r.state.chinese)
    ensures !(1901 <= s.greg.year <= 2100) ==> r == Outcome(s, Done)
    ensures r.status == Done && 1901 <= s.greg.year <= 2100 && s.greg.day >= 1 ==> ValidLunar(r.state.chinese)
  {
    match ChineseFieldsOf(s.greg, s.chinese)
    case None => Outcome(s, IndexOutOfBounds)
    case Some(l) => Outcome(s.(chinese := l), Done)
  }

  /** `computeSolarTerms`: the two term days of the Gregorian year and month, for 1901..2100 only. */
  function ComputeTerms(s: State): (r: Outcome)
    ensures r.status != Unsupported && r.status != Hangs
    ensures r.state.greg == s.greg && r.state.chinese == s.chinese
  {
    var y, m := s.greg.year, s.greg.month;
    if y < 1901 || y > 2100 then Outcome(s, Done)
    else
      match (SectionalTermDay(y, m), PrincipalTermDay(y, m))
      case (Some(a), Some(b)) => Outcome(s.(sectional := a, principle := b), Done)
      case _ => Outcome(s, IndexOutOfBounds)
  }

  /**
   * `computeGregorianFields`: the Gregorian date of the Chinese fields
   * as the conversion finds it from the seed as written, the Chinese fields
   * that date converts back to, and the flags the `set` calls inside it
   * leave.
   */
  function ComputeGregorian(s: State): (r: Outcome)
    ensures r.status != Unsupported
    ensures r.status == Done ==> IsDate(r.state.greg) && !r.state.lastSetChinese
  {
    match GregorianFieldsAsWritten(s.chinese)
    case Converted(g, l) =>
      Outcome(s.(greg := g, chinese := l, fieldsSet := true, chineseComputed := false,
                 termsComputed := false, lastSetChinese := false), Done)
    case ConversionFailed => Outcome(s, IndexOutOfBounds)
    case ConversionHangs => Outcome(s, Hangs)
  }

  /** The flags the `set` calls inside `computeGregorianFields` leave, with Gregorian date `g`. */
  function Converting(s: State, g: Date): State
  {
    s.(greg := g, fieldsSet := true, chineseComputed := false, termsComputed := false, lastSetChinese := false)
  }

  /**
   * `computeGregorianFields` up to its last `computeChineseFields`: the
   * range's ends for a target outside it, otherwise the date the approach
   * from the seed reaches and the Chinese fields the walk leaves.
   */
  function Converging(s: State): (r: Outcome)
    ensures r.status != Unsupported
    ensures r.status == Done ==> IsDate(r.state.greg)
  {
    match TargetOf(s.chinese)
    case TooEarly => Outcome(Converting(s, Date(1901, 0, 1)), Done)
    case TooLate => Outcome(Converting(s, Date(2100, 11, 31)), Done)
    case Within(y, m, d) =>
      match Approach(SeedAsWritten(y, m, d), s.chinese, y, m, d)
      case Converted(g, l) => Outcome(Converting(s, g).(chinese := l), Done)
      case ConversionFailed => Outcome(s, IndexOutOfBounds)
      case ConversionHangs => Outcome(s, Hangs)
  }

  /** `computeGregorianFields` is the approach followed by one more conversion. */
  lemma ComputeGregorianInSteps(s: State)
    ensures var a := Converging(s);
            ComputeGregorian(s)
            == if a.status != Done then a
               else
                 var c := ComputeChinese(a.state);
                 if c.status == Done then c else Outcome(s, c.status)
  {
  }

  /**
   * `computeIfNeed(field)`. Before a Chinese field, convert the Gregorian
   * fields unless the Chinese ones were written last or are already
   * converted, and compute the terms when the field needs them and they
   * are stale. Before any other field, convert the Chinese fields when they
   * were written last and the Gregorian ones are stale.
   */
  function ComputeIfNeed(s: State, field: int): (r: Outcome)
    ensures r.status != Unsupported
  {
    if IsChineseField(field) then
      var a := RefreshChinese(s);
      if a.status == Done && IsTermsField(field) then RefreshTerms(a.state) else a
    else RefreshGregorian(s)
  }

  /** Before a Chinese field: convert the completed Gregorian fields unless they are already converted or stale. */
  function RefreshChinese(s: State): (r: Outcome)
    ensures r.status != Unsupported && r.status != Hangs
  {
    if !s.lastSetChinese && !s.chineseComputed then
      var c := ComputeChinese(Complete(s));
      if c.status == Done
      then Outcome(c.state.(fieldsSet := true, chineseComputed := true, termsComputed := false), Done)
      else c
    else Outcome(s, Done)
  }

  /** Before a terms field: look the solar terms up unless they are already computed. */
  function RefreshTerms(s: State): (r: Outcome)
    ensures r.status != Unsupported && r.status != Hangs
  {
    if !s.termsComputed then
      var t := ComputeTerms(s);
      if t.status == Done then Outcome(t.state.(termsComputed := true), Done) else t
    else Outcome(s, Done)
  }

  /** Before a Gregorian field: convert the Chinese fields back when they were written last. */
  function RefreshGregorian(s: State): (r: Outcome)
    ensures r.status != Unsupported
  {
    if s.lastSetChinese && !s.fieldsSet then
      var c := ComputeGregorian(s);
      if c.status == Done
      then Outcome(Complete(c.state).(fieldsSet := true, chineseComputed := true, termsComputed := false), Done)
      else c
    else Outcome(s, Done)
  }

  /** The flags after a Chinese field has been written. */
  function ChineseWritten(s: State): State
  {
    s.(lastSetChinese := true, fieldsSet := false, chineseComputed := false, termsComputed := false)
  }

  /** The flags after a Gregorian field has been written. */
  function GregorianWritten(s: State): State
  {
    s.(lastSetChinese := false, chineseComputed := false, termsComputed := false)
  }

  // ---------------------------------------------------------------------
  // The operations.

  /**
   * `set(field, value)` for a Chinese field or the Gregorian year, month
   * or day. Writing any Chinese field but the year, month and day raises.
   */
  function Set(s: State, field: int, value: int): (r: Outcome)
    requires IsChineseField(field) || field == FieldYear || field == FieldMonth || field == FieldDate
    ensures IsChineseField(field) && !IsWritableChineseField(field) ==> r.status != Done
    ensures r.status == Done ==>
              (r.state.lastSetChinese <==> IsChineseField(field))
              && (field == FieldChineseYear ==> r.state.chinese.year == value)
              && (field == FieldChineseMonth ==> r.state.chinese.month == value)
              && (field == FieldChineseDate ==> r.state.chinese.day == value)
              && (field == FieldYear ==> r.state.greg.year == value)
              && (field == FieldMonth ==> r.state.greg.month == value)
              && (field == FieldDate ==> r.state.greg.day == value)
  {
    var c := ComputeIfNeed(s, field);
    if c.status != Done then c else WriteField(c.state, field, value)
  }

  /**
   * The write itself, once `computeIfNeed` is done: a Chinese field marks
   * the Chinese side as written last, a Gregorian one the Gregorian side.
   */
  function WriteField(t: State, field: int, value: int): (r: Outcome)
    requires IsChineseField(field) || field == FieldYear || field == FieldMonth || field == FieldDate
    ensures r.status == Done <==> IsWritableChineseField(field) || !IsChineseField(field)
    ensures r.status != Done ==> r == Outcome(t, Unsupported)
  {
    if field == FieldChineseYear then Outcome(ChineseWritten(t.(chinese := t.chinese.(year := value))), Done)
    else if field == FieldChineseMonth then Outcome(ChineseWritten(t.(chinese := t.chinese.(month := value))), Done)
    else if field == FieldChineseDate then Outcome(ChineseWritten(t.(chinese := t.chinese.(day := value))), Done)
    else if IsChineseField(field) then Outcome(t, Unsupported)
    else
      var g := if field == FieldYear then t.greg.(year := value)
               else if field == FieldMonth then t.greg.(month := value)
               else t.greg.(day := value);
      Outcome(GregorianWritten(t.(greg := g, fieldsSet := false)), Done)
  }

  /** Heavenly stem number of Chinese year `y`: `(y - 4) % 10 + 1` with Kotlin's remainder. */
  function StemOf(y: int): (n: int)
    ensures y >= 4 ==> 1 <= n <= 10 && n == (y - 4) % 10 + 1
    ensures y < 4 ==> -8 <= n <= 1
  {
    RemBounds(y - 4, 10);
    if y >= 4 then AgreeOnNatural(y - 4, 10); Rem(y - 4, 10) + 1 else Rem(y - 4, 10) + 1
  }

  /** Earthly branch (and zodiac) number of Chinese year `y`: `(y - 4) % 12 + 1`. */
  function BranchOf(y: int): (n: int)
    ensures y >= 4 ==> 1 <= n <= 12 && n == (y - 4) % 12 + 1
    ensures y < 4 ==> -10 <= n <= 1
  {
    RemBounds(y - 4, 12);
    if y >= 4 then AgreeOnNatural(y - 4, 12); Rem(y - 4, 12) + 1 else Rem(y - 4, 12) + 1
  }

  /**
   * `get(field)` for a Chinese field or a Gregorian field the model covers.
   * A Gregorian read completes the Gregorian fields first.
   */
  function Get(s: State, field: int): (r: Reading)
    requires IsChineseField(field) || IsGregorianField(field)
    ensures field == FieldTermOrDate && r.status == Done ==> IsTermOrDateAnswer(r.value)
    ensures field == FieldMonth && r.status == Done ==> 0 <= r.value < 12
    ensures field == FieldDayOfWeek && r.status == Done ==> 1 <= r.value <= 7
    decreases if field == FieldTermOrDate then 2 else 0, 0
  {
    var c := ComputeIfNeed(s, field);
    if c.status != Done then Reading(c.state, c.status, 0)
    else if field == FieldTermOrDate then TermOrDate(c.state)
    else ReadField(c.state, field)
  }

  /**
   * Reading a field once `computeIfNeed` is done: a Chinese field as
   * stored, a Gregorian one from the completed Gregorian fields, which
   * are all the read changes.
   */
  function ReadField(t: State, field: int): (r: Reading)
    requires (IsChineseField(field) || IsGregorianField(field)) && field != FieldTermOrDate
    ensures r.status == Done && r.state == (if IsChineseField(field) then t else Complete(t))
    ensures field == FieldMonth ==> 0 <= r.value < 12
    ensures field == FieldDayOfWeek ==> 1 <= r.value <= 7
  {
    if !IsChineseField(field) then
      var u := Complete(t);
      Reading(u, Done,
              if field == FieldYear then u.greg.year
              else if field == FieldMonth then u.greg.month
              else if field == FieldDate then u.greg.day
              else DayOfWeek(DayNumber(u.greg)))
    else if field == FieldChineseYear then Reading(t, Done, t.chinese.year)
    else if field == FieldChineseMonth then Reading(t, Done, t.chinese.month)
    else if field == FieldChineseDate then Reading(t, Done, t.chinese.day)
    else if field == FieldSectionalTerm then Reading(t, Done, t.sectional)
    else if field == FieldPrincipleTerm then Reading(t, Done, t.principle)
    else if field == FieldHeavenlyStem then Reading(t, Done, StemOf(t.chinese.year))
    else Reading(t, Done, BranchOf(t.chinese.year))
  }

  /** The readings `CHINESE_TERM_OR_DATE` may answer with. */
  predicate IsTermOrDateAnswer(value: int)
  {
    value == FieldSectionalTerm || value == FieldPrincipleTerm
    || value == FieldChineseMonth || value == FieldChineseDate
  }

  /**
   * The `CHINESE_TERM_OR_DATE` reading after its own `computeIfNeed`: the
   * sectional term when today is its day, else the principal term when
   * today is its day, else the month when the Chinese day is 1, else the
   * day. Each comparison reads its fields with `get`, in the source's
   * order; the stages below take one comparison each.
   */
  function TermOrDate(s: State): (r: Reading)
    ensures r.status == Done ==> IsTermOrDateAnswer(r.value)
    decreases 1, 4
  {
    var date := Get(s, FieldDate);
    if date.status != Done then date else SectionalStage(date)
  }

  /** Today's date against the sectional term day. */
  function SectionalStage(date: Reading): (r: Reading)
    ensures r.status == Done ==> IsTermOrDateAnswer(r.value)
    decreases 1, 3
  {
    var sectional := Get(date.state, FieldSectionalTerm);
    if sectional.status != Done then sectional
    else if date.value == sectional.value then Reading(sectional.state, Done, FieldSectionalTerm)
    else PrincipalStage(sectional.state)
  }

  /** Today's date, read again, for the principal term comparison. */
  function PrincipalStage(s: State): (r: Reading)
    ensures r.status == Done ==> IsTermOrDateAnswer(r.value)
    decreases 1, 2
  {
    var date := Get(s, FieldDate);
    if date.status != Done then date else PrincipalCompare(date)
  }

  /** Today's date against the principal term day. */
  function PrincipalCompare(date: Reading): (r: Reading)
    ensures r.status == Done ==> IsTermOrDateAnswer(r.value)
    decreases 1, 1
  {
    var principle := Get(date.state, FieldPrincipleTerm);
    if principle.status != Done then principle
    else if date.value == principle.value then Reading(principle.state, Done, FieldPrincipleTerm)
    else DayStage(principle.state)
  }

  /** The month on the first Chinese day, otherwise the day. */
  function DayStage(s: State): (r: Reading)
    ensures r.status == Done ==> IsTermOrDateAnswer(r.value)
    decreases 1, 0
  {
    var day := Get(s, FieldChineseDate);
    if day.status != Done then day
    else Reading(day.state, Done, if day.value == 1 then FieldChineseMonth else FieldChineseDate)
  }

  /**
   * `add(field, amount)` for a Chinese field or the Gregorian day. The year
   * moves by `amount`; the month loop is `AddMonths`; the day loop runs and
   * then the call raises; other Chinese fields raise.
   */
  function Add(s: State, field: int, amount: int): (r: Outcome)
    requires IsChineseField(field) || field == FieldDate
    ensures IsChineseField(field) && field != FieldChineseYear && field != FieldChineseMonth ==> r.status != Done
    ensures var t := ComputeIfNeed(s, field).state;
            r.status == Done ==>
              (field == FieldChineseYear ==> r.state.chinese == t.chinese.(year := t.chinese.year + amount))
              && (field == FieldChineseMonth ==>
                    AddMonths(t.chinese.year, t.chinese.month, amount) == Some((r.state.chinese.year, r.state.chinese.month))
                    && r.state.chinese.day == t.chinese.day)
              && (field == FieldDate ==> r.state.greg == AddDays(t.greg, amount) && r.state.chinese == t.chinese)
  {
    var c := ComputeIfNeed(s, field);
    if c.status != Done then c else AddField(c.state, field, amount)
  }

  /** The addition itself, once `computeIfNeed` is done. */
  function AddField(t: State, field: int, amount: int): (r: Outcome)
    requires IsChineseField(field) || field == FieldDate
    ensures r.status != Hangs
    ensures r.status == Done <==>
              !IsChineseField(field) || field == FieldChineseYear
              || (field == FieldChineseMonth && AddMonths(t.chinese.year, t.chinese.month, amount).Some?)
  {
    if !IsChineseField(field) then
      Outcome(GregorianWritten(t.(greg := AddDays(t.greg, amount), fieldsSet := true)), Done)
    else if field == FieldChineseYear then
      Outcome(ChineseWritten(t.(chinese := t.chinese.(year := t.chinese.year + amount))), Done)
    else if field == FieldChineseMonth then
      match AddMonths(t.chinese.year, t.chinese.month, amount)
      case None => Outcome(t, IndexOutOfBounds)
      case Some((y, m)) => Outcome(ChineseWritten(t.(chinese := Lunar(y, m, t.chinese.day))), Done)
    else if field == FieldChineseDate then
      match AddChineseDays(t.chinese, amount)
      case None => Outcome(t, IndexOutOfBounds)
      case Some(l) => Outcome(t.(chinese := l), Unsupported)
    else Outcome(t, Unsupported)
  }

  /**
   * `roll(field, amount)` for a Chinese field: as `Add`, except that the
   * month loop never changes the year and the day loop stays in its month.
   */
  function Roll(s: State, field: int, amount: int): (r: Outcome)
    requires IsChineseField(field)
    ensures field != FieldChineseYear && field != FieldChineseMonth ==> r.status != Done
    ensures var t := ComputeIfNeed(s, field).state;
            r.status == Done ==>
              (field == FieldChineseYear ==> r.state.chinese == t.chinese.(year := t.chinese.year + amount))
              && (field == FieldChineseMonth ==>
                    RollMonths(t.chinese.year, t.chinese.month, amount) == Some(r.state.chinese.month)
                    && r.state.chinese == t.chinese.(month := r.state.chinese.month))
  {
    var c := ComputeIfNeed(s, field);
    if c.status != Done then c else RollField(c.state, field, amount)
  }

  /** The roll itself, once `computeIfNeed` is done. */
  function RollField(t: State, field: int, amount: int): (r: Outcome)
    requires IsChineseField(field)
    ensures r.status != Hangs
    ensures r.status == Done <==>
              field == FieldChineseYear
              || (field == FieldChineseMonth && RollMonths(t.chinese.year, t.chinese.month, amount).Some?)
  {
    if field == FieldChineseYear then
      Outcome(ChineseWritten(t.(chinese := t.chinese.(year := t.chinese.year + amount))), Done)
    else if field == FieldChineseMonth then
      match RollMonths(t.chinese.year, t.chinese.month, amount)
      case None => Outcome(t, IndexOutOfBounds)
      case Some(m) => Outcome(ChineseWritten(t.(chinese := t.chinese.(month := m))), Done)
    else if field == FieldChineseDate then
      if !InTable(t.chinese.year) then Outcome(t, IndexOutOfBounds)
      else
        var maxDate := MonthLength(t.chinese.year, t.chinese.month);
        Outcome(t.(chinese := t.chinese.(day := RollDay(t.chinese.day, maxDate, amount))), Unsupported)
    else Outcome(t, Unsupported)
  }

  /** A name looked up by a reading: the reading's failure, an index error, or the name. */
  function NameOf(read: Reading, names: seq<string>): (r: Rendering)
    ensures r.state == read.state
    ensures r.status == Done <==> read.status == Done && 0 <= read.value < |names|
  {
    if read.status != Done then Rendering(read.state, read.status, "")
    else if 0 <= read.value < |names| then Rendering(read.state, Done, names[read.value])
    else Rendering(read.state, IndexOutOfBounds, "")
  }

  /**
   * `getChinese(field)`: the Chinese text of a Chinese field or the weekday.
   * The year is its stem and branch; a leap month is marked 闰; the terms
   * are named by the Gregorian month; every name is an index into a list.
   */
  function GetChinese(s: State, field: int): (r: Rendering)
    ensures r.status == Done ==> IsChineseField(field) || field == FieldDayOfWeek
    ensures r.status == Done && (field == FieldHeavenlyStem || field == FieldEarthlyBranch) ==> |r.text| <= 1
    ensures r.status == Done && field == FieldChineseYear ==> 1 <= |r.text| <= 3 && r.text[|r.text| - 1] == '年'
    ensures r.status == Done && field == FieldChineseMonth ==> 1 <= |r.text| && r.text[|r.text| - 1] == '月'
    decreases if field == FieldTermOrDate then 2 else if field == FieldChineseYear then 1 else 0
  {
    var c := ComputeIfNeed(s, field);
    if c.status != Done then Rendering(c.state, c.status, "")
    else
      var t := c.state;
      if field == FieldChineseYear then
        var stem := GetChinese(t, FieldHeavenlyStem);
        if stem.status != Done then stem
        else
          var branch := GetChinese(stem.state, FieldEarthlyBranch);
          if branch.status != Done then branch
          else Rendering(branch.state, Done, stem.text + branch.text + "年")
      else if field == FieldChineseMonth then
        var m := t.chinese.month;
        var name := NameOf(Reading(t, Done, Abs(m)), ChineseMonthNames);
        if name.status != Done then name
        else Rendering(t, Done, (if m > 0 then "" else "闰") + name.text + "月")
      else if field == FieldChineseDate then NameOf(Reading(t, Done, t.chinese.day), ChineseDateNames)
      else if field == FieldSectionalTerm then NameOf(Get(t, FieldMonth), SectionalTermNames)
      else if field == FieldPrincipleTerm then NameOf(Get(t, FieldMonth), PrincipleTermNames)
      else if field == FieldHeavenlyStem then NameOf(Get(t, field), StemNames)
      else if field == FieldEarthlyBranch then NameOf(Get(t, field), BranchNames)
      else if field == FieldZodiac then NameOf(Get(t, field), AnimalNames)
      else if field == FieldDayOfWeek then NameOf(Get(t, field), ChineseWeekNames)
      else if field == FieldTermOrDate then
        var option := Get(t, FieldTermOrDate);
        if option.status != Done then Rendering(option.state, option.status, "")
        else GetChinese(option.state, option.value)
      else Rendering(t, Unsupported, "")
  }
}
