/**
 * The day loops of `add(CHINESE_DATE, amount)` and `roll(CHINESE_DATE, amount)`.
 * The calendar runs each loop and then raises IllegalArgumentException, so
 * their effect survives only as the moved Chinese fields.
 */
module ChineseDays {
  import opened KotlinInt
  import opened Wrappers
  import opened LunarMonths
  import opened Conversion

  /**
   * One pass of the loop of `add(CHINESE_DATE)` from fields `l`, where
   * `maxDate` is the month length last read: the next day, and past
   * `maxDate` day 1 of the next month together with its length. A table
   * read for a year outside the table fails.
   */
  function DayStep(l: Lunar, maxDate: int): (r: Option<(Lunar, int)>)
  {
    if l.day + 1 <= maxDate then Some((l.(day := l.day + 1), maxDate))
    else if l.month > 0 && !InTable(l.year) then None
    else
      var ny, nm := NextMonthYear(l.year, l.month), NextChineseMonth(l.year, l.month);
      if !InTable(ny) then None else Some((Lunar(ny, nm, 1), MonthLength(ny, nm)))
  }

  /** The loop of `add(CHINESE_DATE)`: `amount` passes of `DayStep`, stopping at the first failure. */
  function DayLoop(l: Lunar, maxDate: int, amount: int): (r: Option<Lunar>)
    ensures amount <= 0 ==> r == Some(l)
    ensures r.Some? ==> l.year <= r.value.year && (InTable(l.year) ==> InTable(r.value.year))
    decreases amount
  {
    if amount <= 0 then Some(l)
    else
      match DayStep(l, maxDate)
      case None => None
      case Some((next, nextMax)) => DayLoop(next, nextMax, amount - 1)
  }

  /** `add(CHINESE_DATE, amount)` before it raises: the first length read, then the loop. */
  function AddChineseDays(l: Lunar, amount: int): (r: Option<Lunar>)
    ensures r.Some? ==> InTable(l.year) && InTable(r.value.year) && l.year <= r.value.year
    ensures InTable(l.year) && amount <= 0 ==> r == Some(l)
  {
    if !InTable(l.year) then None else DayLoop(l, MonthLength(l.year, l.month), amount)
  }

  /**
   * From a day the calendar has, every step of the loop lands on the next
   * day the calendar has: the loop moves the day number by exactly `amount`.
   */
  lemma {:induction false} DayLoopMoves(l: Lunar, amount: int)
    requires ValidLunar(l)
    ensures var r := DayLoop(l, MonthLength(l.year, l.month), amount);
            r.Some? ==> ValidLunar(r.value)
                        && LunarDay(r.value.year, r.value.month, r.value.day)
                           == LunarDay(l.year, l.month, l.day) + (if amount < 0 then 0 else amount)
    decreases amount
  {
    var len := MonthLength(l.year, l.month);
    if amount > 0 && DayStep(l, len).Some? {
      var next := DayStep(l, len).value.0;
      if l.day + 1 <= len {
        DayLoopMoves(next, amount - 1);
      } else {
        NextMonthFollows(l.year, l.month);
        RegularMonthValid(next.year, 1);
        DayLoopMoves(next, amount - 1);
      }
    }
  }

  /** `add(CHINESE_DATE, amount)` on a valid date moves it `amount` days on, to a valid date. */
  lemma AddChineseDaysMoves(l: Lunar, amount: int)
    requires ValidLunar(l)
    ensures var r := AddChineseDays(l, amount);
            r.Some? ==> ValidLunar(r.value)
                        && LunarDay(r.value.year, r.value.month, r.value.day)
                           == LunarDay(l.year, l.month, l.day) + (if amount < 0 then 0 else amount)
  {
    DayLoopMoves(l, amount);
  }

  /**
   * The loop of `roll(CHINESE_DATE)`: the day goes up by one `amount` times
   * and falls back to 1 whenever it passes `maxDate`.
   */
  function RollDay(d: int, maxDate: int, amount: int): (r: int)
    ensures amount <= 0 ==> r == d
    ensures amount > 0 && d >= 1 && maxDate >= 1 ==> 1 <= r <= maxDate
    decreases amount
  {
    if amount <= 0 then d else RollDay(if d + 1 > maxDate then 1 else d + 1, maxDate, amount - 1)
  }

  /**
   * Within a month of `maxDate` days, rolling `amount` days is counting on
   * modulo the month length: the day stays inside the month.
   */
  lemma {:induction false} RollDayCycles(d: int, maxDate: int, amount: int)
    requires 1 <= d <= maxDate && amount >= 0
    ensures RollDay(d, maxDate, amount) == (d - 1 + amount) % maxDate + 1
    ensures 1 <= RollDay(d, maxDate, amount) <= maxDate
    decreases amount
  {
    if amount > 0 {
      var next := if d + 1 > maxDate then 1 else d + 1;
      RollDayCycles(next, maxDate, amount - 1);
      if d + 1 > maxDate {
        var x := amount - 1;
        assert d - 1 + amount == x + maxDate;
        DivModUnique(x + maxDate, maxDate, x / maxDate + 1, x % maxDate);
      }
    }
  }
}
