# MetaphysicsCode calendar core in Dafny

This project models the lunisolar calendar engine of MetaphysicsCode: the
`ChineseCalendar` class and its companion tables, the sexagenary month and
day labels of `GanZhiCalendar`, and `IndexServer.getChineseNumber`, which
writes the digits of a date in Chinese numerals.

`ChineseCalendar` is a `GregorianCalendar` that also keeps a Chinese date
(year, month with negative numbers for leap months, day) and the days of
the month's two solar terms. Three flags say which side was written last
and which side is up to date. Every `set`, `get`, `add`, `roll` and
`getChinese` first runs `computeIfNeed`, which converts whichever side is
stale. Chinese to Gregorian goes through `computeGregorianFields`, and
Gregorian to Chinese through `computeChineseFields`. Both are driven by
the packed month-length table of 1900–2100, the list of years whose leap
month has 30 days, and the two solar-term tables.

Modules, file by file:

- `wrappers.dfy` (`Wrappers`): `Option`.
- `kotlin_int.dfy` (`KotlinInt`):
  - Kotlin's truncating `/` and `%`.
  - `Math.abs`.
- `tables.dfy` (`CalendarTables`): the constants and tables of the companion object, as bytes.
- `gregorian.dfy` (`Gregorian`):
  - `isGregorianLeapYear` and `daysInGregorianMonth`.
  - The platform calendar's `complete()`, `add(DATE, n)` and `DAY_OF_WEEK`, modelled as a day numbering of the proleptic Gregorian calendar.
- `lunar.dfy` (`LunarMonths`):
  - `daysInChineseMonth`, including its loop over `bigLeapMonthYears`, which is a `method`.
  - `nextChineseMonth`.
  - The month loops of `add` and `roll`.
  - A day numbering of the Chinese calendar that the table defines.
- `solar_terms.dfy` (`SolarTerms`): `sectionalTerm` and `principleTerm`, as methods with their search loops, proved against functions.
- `chinese_days.dfy` (`ChineseDays`): the day loops of `add(CHINESE_DATE)` and `roll(CHINESE_DATE)`.
- `conversion.dfy` (`Conversion`): `computeChineseFields` and `computeGregorianFields` as functions of the fields. `computeGregorianFields` appears twice: as written, which the calendar runs, and with the seed of a 1900 target corrected (see Findings). Their properties are the anchors, the shift, and the round trip.
- `calendar_spec.dfy` (`CalendarSpec`): the calendar's state as a record, and every operation of the class as a function from state to state, status and value.
- `calendar_props.dfy` (`CalendarProperties`): properties of those functions. They cover the invariant, set-then-get, freshness, the term-or-date order, and the sexagenary cycle.
- `chinese_calendar.dfy` (`Calendar`): the class `ChineseCalendar`.
  - It has the fields of the source.
  - Each method changes them in place with the Kotlin's loops. `computeGregorianFields` seeds as the Kotlin does, 1900 included.
  - Each method's `ensures` ties its status, value and new state to the `CalendarSpec` function.
- `ganzhi.dfy` (`GanZhi`):
  - The object `GanZhiCalendar`, as a class with its `correctionIndex` field and the method `GetGanZhiMonth`.
  - The pure `ganZhiDay`.
- `index_server.dfy` (`IndexServer`): `getChineseNumber` as a loop, proved against a recursive function.

How operations end is modelled by `CalendarSpec.Status`:

- `Done` is a normal return.
- `Unsupported` is the `IllegalArgumentException` the source throws for a field it does not handle.
  - `add(CHINESE_DATE)` and `roll(CHINESE_DATE)` throw this after their loop has already run.
- `IndexOutOfBounds` is an array index outside a table. This happens for a Chinese year outside 1900–2100, or a name index outside its list.
- `Hangs` is the month walk of `computeGregorianFields` never reaching its target.

In these places the model follows the code:

- **Stem number of `ganZhiDay`:** the code computes `G` from the month as given. Only the branch number `Z` uses `month + 12` for January and February.
- **Day label indexes:** the code indexes with `G % 10 - 1` and `Z % 12 - 1`.
- **Year clamp:** `computeGregorianFields` clamps the year to 1899..2101.
- **Seed:** `computeGregorianFields` seeds with the Gregorian date (year, |month| - 1, day), also for a target in 1900, and the calendar model does the same.
- **State after a throw:** `add`/`roll` of `CHINESE_DATE` change the fields before throwing, so a failure is not free of side effects.

## Model

| member | source | states |
|---|---|---|
| KotlinInt.Abs | src/main/kotlin/clwater/metaphysics/utils/ChineseCalendar.kt:364 | `Math.abs` is `x` or `-x`, never negative, and `x` itself for `x >= 0` |
| KotlinInt.RemBounds | src/main/kotlin/clwater/metaphysics/utils/ChineseCalendar.kt:123-124 | Kotlin's `%` keeps the dividend's sign and stays below the divisor in magnitude |
| KotlinInt.AgreeOnNatural | src/main/kotlin/clwater/metaphysics/utils/ChineseCalendar.kt:557 | for a non-negative dividend and positive divisor Kotlin's `/` and `%` equal the Euclidean ones |
| KotlinInt.RemOfNegative | src/main/kotlin/clwater/metaphysics/utils/ChineseCalendar.kt:123-124 | for a negative dividend Kotlin's remainder is the Euclidean one minus the divisor, unless it is 0 |
| CalendarTables.SolarTermTablesShape | src/main/kotlin/clwater/metaphysics/utils/ChineseCalendar.kt:685-688 | both term tables have twelve month rows, and each sectional row has nine block starts |
| CalendarTables.MonthByteAfterIs | src/main/kotlin/clwater/metaphysics/utils/ChineseCalendar.kt:691 | reading byte `k` of the packed month table by stepping reaches entry `k` of the table |
| Gregorian.RemZero | src/main/kotlin/clwater/metaphysics/utils/ChineseCalendar.kt:510-522 | the divisibility tests `year % n == 0` mean the same with Kotlin's and Euclidean remainder, negative years included |
| Gregorian.LeapYearRule | src/main/kotlin/clwater/metaphysics/utils/ChineseCalendar.kt:510-522 | the three assignments give a leap year exactly when divisible by 4 and not by 100, or divisible by 400 |
| Gregorian.LeapYearPeriod | src/main/kotlin/clwater/metaphysics/utils/ChineseCalendar.kt:510-522 | the leap rule repeats every 400 years |
| Gregorian.LeapYearIs | src/main/kotlin/clwater/metaphysics/utils/ChineseCalendar.kt:437-443 | the year lengths of the day counting use `isGregorianLeapYear` |
| Gregorian.DaysInGregorianMonth | src/main/kotlin/clwater/metaphysics/utils/ChineseCalendar.kt:531-537 | 28..31 days; 29 exactly for February of a leap year, 28 exactly for February otherwise, 30 for April, June, September and November, 31 for the rest |
| Gregorian.DaysBeforeMonth | src/main/kotlin/clwater/metaphysics/utils/ChineseCalendar.kt:446-448 | the days of the months before month `m` are between 0 and 31 per month |
| Gregorian.MonthsMakeYear | src/main/kotlin/clwater/metaphysics/utils/ChineseCalendar.kt:437-448 | the twelve month lengths add up to the 365 or 366 days the year loop counts |
| Gregorian.DaysBeforeMonthGrows | src/main/kotlin/clwater/metaphysics/utils/ChineseCalendar.kt:446-448 | a later month starts at least 28 days per month later |
| Gregorian.YearStep | src/main/kotlin/clwater/metaphysics/utils/ChineseCalendar.kt:437-443 | consecutive years start one year's length apart, 366 days for a leap year and 365 otherwise |
| Gregorian.LaterYearStartsLater | src/main/kotlin/clwater/metaphysics/utils/ChineseCalendar.kt:437-443 | a later year starts at least 365 days per year later |
| Gregorian.DaysBefore2000 | src/main/kotlin/clwater/metaphysics/utils/ChineseCalendar.kt:437-443 | the year loop counts 36159 days from 1901 to 2000 |
| Gregorian.DaysBefore2100 | src/main/kotlin/clwater/metaphysics/utils/ChineseCalendar.kt:437-443 | the year loop counts 72684 days from 1901 to 2100 |
| Gregorian.FromDayNumber | src/main/kotlin/clwater/metaphysics/utils/ChineseCalendar.kt:316 | every day number has a valid date whose day number it is |
| Gregorian.DateRoundTrip | src/main/kotlin/clwater/metaphysics/utils/ChineseCalendar.kt:316 | a valid date is recovered from its day number |
| Gregorian.DayNumberInjective | src/main/kotlin/clwater/metaphysics/utils/ChineseCalendar.kt:316 | two valid dates with the same day number are equal |
| Gregorian.Normalize | src/main/kotlin/clwater/metaphysics/utils/ChineseCalendar.kt:316 | `complete()` always leaves a valid date |
| Gregorian.NormalizeInRange | src/main/kotlin/clwater/metaphysics/utils/ChineseCalendar.kt:316 | fields whose month is in range settle on the date of their day number, however far the day overflows |
| Gregorian.NormalizeKeepsDate | src/main/kotlin/clwater/metaphysics/utils/ChineseCalendar.kt:329 | completing a valid date changes nothing |
| Gregorian.NormalizeKeepsDayNumber | src/main/kotlin/clwater/metaphysics/utils/ChineseCalendar.kt:316 | completing keeps the day number of fields whose month is in range |
| Gregorian.NormalizeIdempotent | src/main/kotlin/clwater/metaphysics/utils/ChineseCalendar.kt:316 | completing twice is completing once |
| Gregorian.AddDays | src/main/kotlin/clwater/metaphysics/utils/ChineseCalendar.kt:396 | `add(DATE, amount)` always gives a valid date |
| Gregorian.AddDaysShifts | src/main/kotlin/clwater/metaphysics/utils/ChineseCalendar.kt:396 | `add(DATE, amount)` moves the day number by exactly `amount` |
| Gregorian.AddDaysBack | src/main/kotlin/clwater/metaphysics/utils/ChineseCalendar.kt:396 | adding `amount` days and then `-amount` days returns to the completed date |
| Gregorian.AddDaysMoves | src/main/kotlin/clwater/metaphysics/utils/ChineseCalendar.kt:396 | the shift and the return together, as the conversion uses them |
| Gregorian.DayOfWeek | src/main/kotlin/clwater/metaphysics/utils/ChineseCalendar.kt:241 | the weekday is 1 (Sunday) to 7 (Saturday), and 1901-01-01 is a Tuesday (3) |
| Gregorian.WeekCycle | src/main/kotlin/clwater/metaphysics/utils/ChineseCalendar.kt:241 | the weekday repeats every 7 days and advances by one each day, Saturday wrapping to Sunday |
| LunarMonths.ListedFromIsMembership | src/main/kotlin/clwater/metaphysics/utils/ChineseCalendar.kt:630-635 | the search of `bigLeapMonthYears` from position `j` finds the index exactly when it occurs there |
| LunarMonths.BigLeapYearIsListed | src/main/kotlin/clwater/metaphysics/utils/ChineseCalendar.kt:630-635 | a year's leap month is long exactly when its index is in `bigLeapMonthYears` |
| LunarMonths.LeapMonth | src/main/kotlin/clwater/metaphysics/utils/ChineseCalendar.kt:624-625 | the leap month number, the high nibble of the year's second byte, is 0..15 |
| LunarMonths.MonthLength | src/main/kotlin/clwater/metaphysics/utils/ChineseCalendar.kt:605-639 | a month has 0, 29 or 30 days; a regular month never 0; another month is nonzero exactly when its magnitude is the year's leap month, and then 30 days exactly in a listed year |
| LunarMonths.RegularLengthDecoded | src/main/kotlin/clwater/metaphysics/utils/ChineseCalendar.kt:611-622 | a regular month has 29 days exactly when its bit (months 1–8 in the first byte, 9–12 in the second) is set |
| LunarMonths.LeapLengthDecoded | src/main/kotlin/clwater/metaphysics/utils/ChineseCalendar.kt:623-637 | any other month number has 0 days unless its magnitude is the high nibble, then 30 if the year is listed, else 29 |
| LunarMonths.DaysInChineseMonth | src/main/kotlin/clwater/metaphysics/utils/ChineseCalendar.kt:605-639 | the method, with its loop over `bigLeapMonthYears`, returns the month's length as the table defines it |
| LunarMonths.NextChineseMonth | src/main/kotlin/clwater/metaphysics/utils/ChineseCalendar.kt:648-662 | the next month is never 0 or 13; it is the leap month `-m` only after regular month `m` that the table names; otherwise the regular month after `abs(m)`, 12 wrapping to 1 |
| LunarMonths.AddMonthsIntoLeap | src/main/kotlin/clwater/metaphysics/utils/ChineseCalendar.kt:155-160 | from regular month `k` whose leap month follows, the `add` and `roll` loops step into leap month `-k` |
| LunarMonths.AddMonthsAfterLeap | src/main/kotlin/clwater/metaphysics/utils/ChineseCalendar.kt:155-160 | from leap month `-k`, `k < 12`, the loops step to regular month `k + 1` |
| LunarMonths.AddMonthsAfterLeapTwelfth | src/main/kotlin/clwater/metaphysics/utils/ChineseCalendar.kt:155-160 | from leap month 12, one step of `add` reaches month 1 of the next year, and `roll` reaches month 1 |
| LunarMonths.AddMonthsAfterTwelfth | src/main/kotlin/clwater/metaphysics/utils/ChineseCalendar.kt:155-160 | from month 12 without a leap twelfth month, one step of `add` reaches month 1 of the next year |
| LunarMonths.AddMonthsAfterRegular | src/main/kotlin/clwater/metaphysics/utils/ChineseCalendar.kt:155-160 | from month `k < 12` without a leap month after it, the loops step to month `k + 1` of the same year |
| LunarMonths.AddMonths | src/main/kotlin/clwater/metaphysics/utils/ChineseCalendar.kt:155-160 | the `add` month loop fails only when it takes a step |
| LunarMonths.AddMonthsBounds | src/main/kotlin/clwater/metaphysics/utils/ChineseCalendar.kt:155-160 | the `add` month loop moves the year forward by at most one per step and, from a month 1..12 in magnitude, ends on such a month |
| LunarMonths.RollMonths | src/main/kotlin/clwater/metaphysics/utils/ChineseCalendar.kt:198-200 | the `roll` month loop takes no step for `amount <= 0`; it fails exactly outside the table when it has a step to take from a positive month (two from a leap month); from a month 1..12 in magnitude it ends on such a month |
| LunarMonths.MonthsInYear | src/main/kotlin/clwater/metaphysics/utils/ChineseCalendar.kt:648-662 | a year has 12 months, 13 when the table names a leap month |
| LunarMonths.StepsFromNextMonth | src/main/kotlin/clwater/metaphysics/utils/ChineseCalendar.kt:648-662 | month `k + 1` is one step closer to the new year than month `k`, two across a leap month |
| LunarMonths.AddMonthsToNewYear | src/main/kotlin/clwater/metaphysics/utils/ChineseCalendar.kt:155-160 | from regular month `k`, the `add` loop reaches month 1 of the next year after exactly the months left in the year, and before that stays in the year |
| LunarMonths.MonthOfYearValid | src/main/kotlin/clwater/metaphysics/utils/ChineseCalendar.kt:605-639 | a regular month, or the leap month the table names, has a nonzero length |
| LunarMonths.AddMonthsWithinYear | src/main/kotlin/clwater/metaphysics/utils/ChineseCalendar.kt:155-160 | the months the `add` loop passes before the new year are months of the same year |
| LunarMonths.YearOfMonths | src/main/kotlin/clwater/metaphysics/utils/ChineseCalendar.kt:155-160 | from month 1, 12 or 13 steps of `nextChineseMonth` (13 with a leap month) return to month 1 of the next year, and every earlier step stays in the year |
| LunarMonths.RollIsAddWithoutYear | src/main/kotlin/clwater/metaphysics/utils/ChineseCalendar.kt:155-200 | `roll` and `add` of the Chinese month visit the same months; `roll` never changes the year |
| LunarMonths.LunarDayInjective | src/main/kotlin/clwater/metaphysics/utils/ChineseCalendar.kt:605-662 | two valid Chinese dates with the same day number are the same date |
| LunarMonths.RegularMonthValid | src/main/kotlin/clwater/metaphysics/utils/ChineseCalendar.kt:611-622 | every regular month of a year in the table exists |
| LunarMonths.LeapMonthValid | src/main/kotlin/clwater/metaphysics/utils/ChineseCalendar.kt:623-637 | the leap month the table names exists |
| LunarMonths.LeapMonthStart | src/main/kotlin/clwater/metaphysics/utils/ChineseCalendar.kt:648-656 | a leap month starts when the regular month it follows ends |
| LunarMonths.RegularMonthStart | src/main/kotlin/clwater/metaphysics/utils/ChineseCalendar.kt:648-662 | without a leap month between, month `m + 1` starts when month `m` ends |
| LunarMonths.NewYearAfterTwelfth | src/main/kotlin/clwater/metaphysics/utils/ChineseCalendar.kt:648-662 | without a leap twelfth month, the next year starts when month 12 ends |
| LunarMonths.MonthAfterLeapStart | src/main/kotlin/clwater/metaphysics/utils/ChineseCalendar.kt:648-662 | the regular month after a leap month starts when the leap month ends |
| LunarMonths.NewYearAfterLeapTwelfth | src/main/kotlin/clwater/metaphysics/utils/ChineseCalendar.kt:648-662 | the next year starts when a leap twelfth month ends |
| LunarMonths.NextMonthFollows | src/main/kotlin/clwater/metaphysics/utils/ChineseCalendar.kt:456-463 | the month `nextChineseMonth` gives (with the year bumped at month 1) exists and starts the day the current month ends |
| SolarTerms.Bracket | src/main/kotlin/clwater/metaphysics/utils/ChineseCalendar.kt:552-556 | the block search stops at the first start greater than the relative year, after passing only starts not greater than it |
| SolarTerms.BracketUnique | src/main/kotlin/clwater/metaphysics/utils/ChineseCalendar.kt:552-556 | that block is the only position with that property |
| SolarTerms.SectionalRowShape | src/main/kotlin/clwater/metaphysics/utils/ChineseCalendar.kt:685-686 | each sectional row has a start past year 200 that every relative year stops at, and four day columns for each block reached |
| SolarTerms.PrincipalRowShape | src/main/kotlin/clwater/metaphysics/utils/ChineseCalendar.kt:687-688 | the same shape for the principal rows |
| SolarTerms.ColumnFits | src/main/kotlin/clwater/metaphysics/utils/ChineseCalendar.kt:557 | the column `4 * index + ry % 4` lies inside the day row |
| SolarTerms.SectionalTermDay | src/main/kotlin/clwater/metaphysics/utils/ChineseCalendar.kt:546-568 | 0 outside 1901..2100; inside, a value exactly for months 0..11, on day 3..9 |
| SolarTerms.PrincipalTermDay | src/main/kotlin/clwater/metaphysics/utils/ChineseCalendar.kt:577-596 | 0 outside 1901..2100; inside, a value exactly for months 0..11, on day 18..24 |
| SolarTerms.FindBlock | src/main/kotlin/clwater/metaphysics/utils/ChineseCalendar.kt:552-556 | the `while` loop returns the block the search defines |
| SolarTerms.SectionalFound | src/main/kotlin/clwater/metaphysics/utils/ChineseCalendar.kt:552-557 | for a year in range the sectional search stops inside the row and the column it reads exists |
| SolarTerms.PrincipalFound | src/main/kotlin/clwater/metaphysics/utils/ChineseCalendar.kt:583-588 | the same for the principal search |
| SolarTerms.SectionalTerm | src/main/kotlin/clwater/metaphysics/utils/ChineseCalendar.kt:546-568 | the method, its search loop and the three overrides, returns the sectional term day |
| SolarTerms.PrincipalTerm | src/main/kotlin/clwater/metaphysics/utils/ChineseCalendar.kt:577-596 | the method, its search loop and the two overrides, returns the principal term day |
| SolarTerms.SectionalBeforePrincipal | src/main/kotlin/clwater/metaphysics/utils/ChineseCalendar.kt:546-596 | within a month the sectional term comes at least 9 days before the principal term |
| SolarTerms.SectionalFourYearCycle | src/main/kotlin/clwater/metaphysics/utils/ChineseCalendar.kt:557 | inside one block and away from the overrides, the sectional term repeats four years later |
| SolarTerms.PrincipalFourYearCycle | src/main/kotlin/clwater/metaphysics/utils/ChineseCalendar.kt:588 | the same for the principal term |
| ChineseDays.DayLoopMoves | src/main/kotlin/clwater/metaphysics/utils/ChineseCalendar.kt:161-173 | from a valid Chinese date, the day loop that finishes ends on a valid date exactly `amount` days later (none for `amount <= 0`) |
| ChineseDays.DayLoop | src/main/kotlin/clwater/metaphysics/utils/ChineseCalendar.kt:161-173 | the day loop takes no step for `amount <= 0`, never moves the year back, and stays in the table when it starts there |
| ChineseDays.AddChineseDays | src/main/kotlin/clwater/metaphysics/utils/ChineseCalendar.kt:161-174 | `add(CHINESE_DATE)` moves a date only from a table year to a table year no earlier, and leaves it alone for `amount <= 0` |
| ChineseDays.AddChineseDaysMoves | src/main/kotlin/clwater/metaphysics/utils/ChineseCalendar.kt:161-174 | `add(CHINESE_DATE, amount)` moves a valid date `amount` days on before it throws |
| ChineseDays.RollDayCycles | src/main/kotlin/clwater/metaphysics/utils/ChineseCalendar.kt:201-208 | the roll loop leaves day `(d - 1 + amount) mod maxDate + 1`, within 1..maxDate |
| ChineseDays.RollDay | src/main/kotlin/clwater/metaphysics/utils/ChineseCalendar.kt:201-208 | the roll loop leaves the day alone for `amount <= 0` and otherwise within 1..maxDate |
| Conversion.AnchorDate | src/main/kotlin/clwater/metaphysics/utils/ChineseCalendar.kt:413-432 | the anchor is a valid 1 January |
| Conversion.AnchorLunar | src/main/kotlin/clwater/metaphysics/utils/ChineseCalendar.kt:413-432 | the anchor's Chinese date is a valid date |
| Conversion.AnchorsAgreeHolds | src/main/kotlin/clwater/metaphysics/utils/ChineseCalendar.kt:413-432 | the two anchors describe one correspondence: the anchor of every year from 1901 to 2100 has the offset of 1901's |
| Conversion.FirstAnchorOffset | src/main/kotlin/clwater/metaphysics/utils/ChineseCalendar.kt:416-422 | 1900/11/11 is Chinese day 310 and 1901-01-01 Gregorian day 0, an offset of 310 |
| Conversion.SecondAnchorOffset | src/main/kotlin/clwater/metaphysics/utils/ChineseCalendar.kt:423-432 | for every year from 2000 on, the anchor 1999/11/25 against 2000-01-01 has the same offset, 310 |
| Conversion.MonthsBefore | src/main/kotlin/clwater/metaphysics/utils/ChineseCalendar.kt:446-448 | the month loop adds a non-negative number of days |
| Conversion.DaysDiffIsDistance | src/main/kotlin/clwater/metaphysics/utils/ChineseCalendar.kt:434-451 | `daysDiff` is the distance in days from the anchor to the Gregorian date |
| Conversion.DaysDiffNonNegative | src/main/kotlin/clwater/metaphysics/utils/ChineseCalendar.kt:434-451 | a date in the anchor's year or later is no days before the anchor |
| Conversion.Settle | src/main/kotlin/clwater/metaphysics/utils/ChineseCalendar.kt:455-463 | the carrying loop, when it ends, leaves an existing month, a day within it, and the same Chinese day number |
| Conversion.ChineseFieldsOf | src/main/kotlin/clwater/metaphysics/utils/ChineseCalendar.kt:404-465 | outside 1901..2100 the Chinese fields are left alone; inside, a result names an existing month, and a valid date when the Gregorian day is at least 1 |
| Conversion.ChineseFieldsDay | src/main/kotlin/clwater/metaphysics/utils/ChineseCalendar.kt:404-465 | inside 1901..2100 a result's Chinese day number is the anchor's plus `daysDiff` |
| Conversion.ChineseFieldsCarry | src/main/kotlin/clwater/metaphysics/utils/ChineseCalendar.kt:404-465 | inside 1901..2100 the conversion is the carrying of the anchor's date with `daysDiff` added to its day |
| Conversion.SettleKeeps | src/main/kotlin/clwater/metaphysics/utils/ChineseCalendar.kt:455-463 | fields that already name a day of their month are not carried |
| Conversion.AnchorIsOwn | src/main/kotlin/clwater/metaphysics/utils/ChineseCalendar.kt:413-432 | each anchor lies in 1901..2100 and is the anchor of its own year |
| Conversion.NoDaysAfterAnchor | src/main/kotlin/clwater/metaphysics/utils/ChineseCalendar.kt:434-451 | `daysDiff` of an anchor is 0 |
| Conversion.AnchorConverts | src/main/kotlin/clwater/metaphysics/utils/ChineseCalendar.kt:404-465 | an anchor converts to its anchor's Chinese date |
| Conversion.FirstAnchorConverts | src/main/kotlin/clwater/metaphysics/utils/ChineseCalendar.kt:416-422 | 1901-01-01 converts to 1900/11/11 |
| Conversion.SecondAnchorConverts | src/main/kotlin/clwater/metaphysics/utils/ChineseCalendar.kt:423-432 | 2000-01-01 converts to 1999/11/25 |
| Conversion.ConversionIsShift | src/main/kotlin/clwater/metaphysics/utils/ChineseCalendar.kt:404-465 | converted dates are the Gregorian day number shifted by the anchor's offset |
| Conversion.TargetOf | src/main/kotlin/clwater/metaphysics/utils/ChineseCalendar.kt:348-382 | the clamping: below `19001111` too early, above `21001201` too late, otherwise the year unchanged, the month snapped to one the year has and the day cut to its length |
| Conversion.WalkArrives | src/main/kotlin/clwater/metaphysics/utils/ChineseCalendar.kt:386-393 | a walk that reaches the target month has added exactly the days between the two months' first days |
| Conversion.Walk | src/main/kotlin/clwater/metaphysics/utils/ChineseCalendar.kt:386-393 | a walk that starts on its target reaches it with nothing added; a walk that reaches its target never adds a negative total; only a month beyond 12 in magnitude makes it hang |
| Conversion.Finish | src/main/kotlin/clwater/metaphysics/utils/ChineseCalendar.kt:398 | the final `computeChineseFields` never hangs and keeps the Gregorian date |
| Conversion.Approach | src/main/kotlin/clwater/metaphysics/utils/ChineseCalendar.kt:383-396 | an approach that succeeds leaves a valid Gregorian date |
| Conversion.ApproachWithoutFields | src/main/kotlin/clwater/metaphysics/utils/ChineseCalendar.kt:383-384 | an approach whose seed yields no Chinese fields fails |
| Conversion.ApproachWalks | src/main/kotlin/clwater/metaphysics/utils/ChineseCalendar.kt:383-396 | an approach from fields `l0` moves the seed by the walked days plus `d - l0.day`, or fails or hangs as the walk does |
| Conversion.FromSeed | src/main/kotlin/clwater/metaphysics/utils/ChineseCalendar.kt:383-398 | a conversion from a seed that succeeds leaves a valid date |
| Conversion.GregorianFieldsAsWritten | src/main/kotlin/clwater/metaphysics/utils/ChineseCalendar.kt:340-399 | `computeGregorianFields` as written, which the calendar runs, leaves a valid date when it succeeds |
| Conversion.SeedAsWritten | src/main/kotlin/clwater/metaphysics/utils/ChineseCalendar.kt:383 | for a month 1..12 in magnitude the seed is year `y` with Gregorian month index `abs(m) - 1`, and a valid date for days 1..28 |
| Conversion.Seed | src/main/kotlin/clwater/metaphysics/utils/ChineseCalendar.kt:383 | the corrected seed: the seed as written for 1901..2100, and 1901-01-01 for a target in 1900 or earlier |
| Conversion.GregorianFieldsOf | src/main/kotlin/clwater/metaphysics/utils/ChineseCalendar.kt:340-399 | `computeGregorianFields` with the corrected seed (the corrected half of the first finding) leaves a valid date when it succeeds |
| Conversion.TooEarlySnaps | src/main/kotlin/clwater/metaphysics/utils/ChineseCalendar.kt:365-367 | fields before the range give 1901-01-01 and 1900/11/11 |
| Conversion.TooLateSnaps | src/main/kotlin/clwater/metaphysics/utils/ChineseCalendar.kt:368-370 | fields after the range never hang; when they convert, the date is 2100-12-31 and the Chinese fields are the valid date of Chinese day 73358 that 2100-12-31 converts to |
| Conversion.LastDayDiff | src/main/kotlin/clwater/metaphysics/utils/ChineseCalendar.kt:434-451 | `daysDiff` of 2100-12-31 from the anchor 2000-01-01 is 36889 days |
| Conversion.ChineseFieldsIgnoreStale | src/main/kotlin/clwater/metaphysics/utils/ChineseCalendar.kt:404-465 | for a year in range the conversion does not depend on the old Chinese fields |
| Conversion.FromSeedParts | src/main/kotlin/clwater/metaphysics/utils/ChineseCalendar.kt:383-398 | a successful conversion converted the seed, walked to the target month, moved the date and converted it once more |
| Conversion.MovedSeedLands | src/main/kotlin/clwater/metaphysics/utils/ChineseCalendar.kt:386-398 | the moved seed's Chinese date has the day number of the target |
| Conversion.RoundTrip | src/main/kotlin/clwater/metaphysics/utils/ChineseCalendar.kt:340-399 | when the corrected conversion succeeds in range, the Gregorian date found converts back to the clamped target, which the Chinese fields hold |
| Conversion.AsWrittenAgrees | src/main/kotlin/clwater/metaphysics/utils/ChineseCalendar.kt:383-384 | unless the target is in 1900, the conversion as written and the corrected one give the same result |
| Conversion.RoundTripAsWritten | src/main/kotlin/clwater/metaphysics/utils/ChineseCalendar.kt:340-399 | as written, for a target after 1900 that converts in range, the Gregorian date found converts back to the clamped target, which the Chinese fields hold |
| Conversion.AddNoDays | src/main/kotlin/clwater/metaphysics/utils/ChineseCalendar.kt:396 | adding 0 days leaves a valid date alone |
| Conversion.TargetIn1900 | src/main/kotlin/clwater/metaphysics/utils/ChineseCalendar.kt:348-371 | a valid 1900 date from 1900/11/11 on is in month 11 or 12 and is its own target |
| Conversion.SeedYear1900Misplaces | src/main/kotlin/clwater/metaphysics/utils/ChineseCalendar.kt:383-384 | as written, such a date comes out as the Gregorian date in 1900 with the same month number and day, before 1901-01-01 |
| Conversion.LandsNotBefore | src/main/kotlin/clwater/metaphysics/utils/ChineseCalendar.kt:386-396 | the date move does not go backwards when the target day is no earlier than the seed's Chinese day |
| Conversion.FromSeedNotBefore | src/main/kotlin/clwater/metaphysics/utils/ChineseCalendar.kt:383-398 | then a successful conversion lands no earlier than the seed |
| Conversion.SeedYear1900Corrected | src/main/kotlin/clwater/metaphysics/utils/ChineseCalendar.kt:383-384 | with the corrected seed a 1900 date starts from 1901-01-01, which converts to 1900/11/11 |
| Conversion.SeedYear1900Lands | src/main/kotlin/clwater/metaphysics/utils/ChineseCalendar.kt:383-398 | with the corrected seed a successful conversion of such a date lands on or after 1901-01-01 |
| CalendarSpec.Complete | src/main/kotlin/clwater/metaphysics/utils/ChineseCalendar.kt:316 | `complete()` leaves a valid date and marks the fields set |
| CalendarSpec.CompleteKeepsDate | src/main/kotlin/clwater/metaphysics/utils/ChineseCalendar.kt:329 | completing a valid date only sets the flag |
| CalendarSpec.ComputeTerms | src/main/kotlin/clwater/metaphysics/utils/ChineseCalendar.kt:470-479 | `computeSolarTerms` never throws an unsupported field and never hangs, and it leaves both dates alone |
| CalendarSpec.ComputeChinese | src/main/kotlin/clwater/metaphysics/utils/ChineseCalendar.kt:404-465 | `computeChineseFields` ends normally or with an index error and changes only the Chinese fields; outside 1901..2100 it changes nothing; inside, a normal end on a Gregorian day from 1 leaves a valid Chinese date |
| CalendarSpec.ComputeGregorian | src/main/kotlin/clwater/metaphysics/utils/ChineseCalendar.kt:340-399 | `computeGregorianFields`, with the seed as written, when it finishes leaves a valid Gregorian date with the Gregorian side marked as set last |
| CalendarSpec.Converging | src/main/kotlin/clwater/metaphysics/utils/ChineseCalendar.kt:340-397 | the part before the last conversion, from the seed as written, when it finishes leaves a valid Gregorian date |
| CalendarSpec.ComputeGregorianInSteps | src/main/kotlin/clwater/metaphysics/utils/ChineseCalendar.kt:340-399 | `computeGregorianFields` is the approach followed by one more `computeChineseFields` |
| CalendarSpec.ComputeIfNeed | src/main/kotlin/clwater/metaphysics/utils/ChineseCalendar.kt:313-335 | `computeIfNeed` never throws an unsupported field |
| CalendarSpec.RefreshChinese | src/main/kotlin/clwater/metaphysics/utils/ChineseCalendar.kt:314-321 | the Chinese branch neither throws an unsupported field nor hangs |
| CalendarSpec.RefreshTerms | src/main/kotlin/clwater/metaphysics/utils/ChineseCalendar.kt:322-325 | the terms branch neither throws an unsupported field nor hangs |
| CalendarSpec.RefreshGregorian | src/main/kotlin/clwater/metaphysics/utils/ChineseCalendar.kt:326-334 | the Gregorian branch never throws an unsupported field |
| CalendarSpec.Set | src/main/kotlin/clwater/metaphysics/utils/ChineseCalendar.kt:88-108 | writing a Chinese field other than year, month and day never ends normally; a normal end marks the Chinese side as written last exactly for a Chinese field, and the written field holds the value |
| CalendarSpec.WriteField | src/main/kotlin/clwater/metaphysics/utils/ChineseCalendar.kt:91-107 | the write succeeds exactly for the Chinese year, month and day and for non-Chinese fields; any other Chinese field throws and changes nothing |
| CalendarSpec.Get | src/main/kotlin/clwater/metaphysics/utils/ChineseCalendar.kt:110-140 | `CHINESE_TERM_OR_DATE` answers with one of the four fields; the month read is 0..11 and the weekday 1..7 |
| CalendarSpec.ReadField | src/main/kotlin/clwater/metaphysics/utils/ChineseCalendar.kt:113-124 | a read after `computeIfNeed` succeeds, changes nothing for a Chinese field and completes the fields for a Gregorian one |
| CalendarSpec.TermOrDate | src/main/kotlin/clwater/metaphysics/utils/ChineseCalendar.kt:125-137 | the answer is one of sectional term, principal term, month and day |
| CalendarSpec.SectionalStage | src/main/kotlin/clwater/metaphysics/utils/ChineseCalendar.kt:127-128 | the stage's answer is one of the four |
| CalendarSpec.PrincipalStage | src/main/kotlin/clwater/metaphysics/utils/ChineseCalendar.kt:129 | the stage's answer is one of the four |
| CalendarSpec.PrincipalCompare | src/main/kotlin/clwater/metaphysics/utils/ChineseCalendar.kt:129-130 | the stage's answer is one of the four |
| CalendarSpec.DayStage | src/main/kotlin/clwater/metaphysics/utils/ChineseCalendar.kt:131-135 | the stage's answer is one of the four |
| CalendarSpec.Add | src/main/kotlin/clwater/metaphysics/utils/ChineseCalendar.kt:142-183 | `add` of a Chinese field other than year and month never ends normally; a normal end moves the Chinese year by `amount`, or the Chinese month as the month loop does keeping the day, or the Gregorian date by `amount` days keeping the Chinese fields |
| CalendarSpec.AddField | src/main/kotlin/clwater/metaphysics/utils/ChineseCalendar.kt:145-183 | never hangs; finishes normally exactly for the Gregorian day, the Chinese year, and a Chinese month step that stays in the table |
| CalendarSpec.Roll | src/main/kotlin/clwater/metaphysics/utils/ChineseCalendar.kt:185-218 | `roll` of a Chinese field other than year and month never ends normally; a normal end moves the year by `amount`, or the month as the roll loop does with year and day kept |
| CalendarSpec.RollField | src/main/kotlin/clwater/metaphysics/utils/ChineseCalendar.kt:188-218 | never hangs; finishes normally exactly for the Chinese year and a Chinese month roll that stays in the table |
| CalendarSpec.NameOf | src/main/kotlin/clwater/metaphysics/utils/ChineseCalendar.kt:235-241 | a name is found exactly when the reading succeeded and indexes the list; the state is the reading's |
| CalendarSpec.StemOf | src/main/kotlin/clwater/metaphysics/utils/ChineseCalendar.kt:123 | from year 4 on the stem number is `(y - 4) % 10 + 1`, within 1..10; before year 4 it is -8..1 |
| CalendarSpec.BranchOf | src/main/kotlin/clwater/metaphysics/utils/ChineseCalendar.kt:124 | from year 4 on the branch number is `(y - 4) % 12 + 1`, within 1..12; before year 4 it is -10..1 |
| CalendarSpec.GetChinese | src/main/kotlin/clwater/metaphysics/utils/ChineseCalendar.kt:226-245 | text only for a Chinese field or the weekday; a stem or branch is at most one character; a year is one to three characters ending in 年; a month ends in 月 |
| CalendarProperties.TermsNeverFail | src/main/kotlin/clwater/metaphysics/utils/ChineseCalendar.kt:470-479 | for a valid Gregorian date the terms lookup always succeeds |
| CalendarProperties.ComputeIfNeedKeepsWf | src/main/kotlin/clwater/metaphysics/utils/ChineseCalendar.kt:313-335 | `computeIfNeed` keeps the invariant and leaves the side about to be used up to date |
| CalendarProperties.RefreshChineseKeepsWf | src/main/kotlin/clwater/metaphysics/utils/ChineseCalendar.kt:314-321 | the Chinese branch keeps the invariant |
| CalendarProperties.RefreshTermsKeepsWf | src/main/kotlin/clwater/metaphysics/utils/ChineseCalendar.kt:322-325 | the terms branch keeps the invariant |
| CalendarProperties.RefreshGregorianKeepsWf | src/main/kotlin/clwater/metaphysics/utils/ChineseCalendar.kt:326-334 | the Gregorian branch keeps the invariant |
| CalendarProperties.SetKeepsWf | src/main/kotlin/clwater/metaphysics/utils/ChineseCalendar.kt:88-108 | `set` keeps the invariant, and the flags record which side was written |
| CalendarProperties.GetKeepsWf | src/main/kotlin/clwater/metaphysics/utils/ChineseCalendar.kt:110-140 | `get` keeps the invariant |
| CalendarProperties.TermOrDateKeepsWf | src/main/kotlin/clwater/metaphysics/utils/ChineseCalendar.kt:125-137 | the nested reads of `CHINESE_TERM_OR_DATE` keep the invariant |
| CalendarProperties.SectionalStageKeepsWf | src/main/kotlin/clwater/metaphysics/utils/ChineseCalendar.kt:127-128 | the first stage keeps the invariant |
| CalendarProperties.PrincipalStageKeepsWf | src/main/kotlin/clwater/metaphysics/utils/ChineseCalendar.kt:129 | the second stage keeps the invariant |
| CalendarProperties.PrincipalCompareKeepsWf | src/main/kotlin/clwater/metaphysics/utils/ChineseCalendar.kt:129-130 | the comparison keeps the invariant |
| CalendarProperties.AddKeepsWf | src/main/kotlin/clwater/metaphysics/utils/ChineseCalendar.kt:142-183 | `add` keeps the invariant |
| CalendarProperties.RollKeepsWf | src/main/kotlin/clwater/metaphysics/utils/ChineseCalendar.kt:185-218 | `roll` keeps the invariant |
| CalendarProperties.SetThenGet | src/main/kotlin/clwater/metaphysics/utils/ChineseCalendar.kt:88-120 | a Chinese year, month or day written with `set` reads back as written, and the read changes nothing |
| CalendarProperties.SetOtherChineseFieldRaises | src/main/kotlin/clwater/metaphysics/utils/ChineseCalendar.kt:89-97 | writing a derived Chinese field throws after `computeIfNeed` and changes nothing more |
| CalendarProperties.ComputedChineseConsistent | src/main/kotlin/clwater/metaphysics/utils/ChineseCalendar.kt:404-465 | converting the Gregorian fields yields Chinese fields that describe them |
| CalendarProperties.ChineseReadIsFresh | src/main/kotlin/clwater/metaphysics/utils/ChineseCalendar.kt:313-321 | before a Chinese field, unless the Chinese side was written last, the Chinese fields describe the Gregorian date |
| CalendarProperties.GregorianWriteThenChineseRead | src/main/kotlin/clwater/metaphysics/utils/ChineseCalendar.kt:88-118 | after a Gregorian write, the Chinese year read is that of the completed written date |
| CalendarProperties.ChineseWriteThenGregorianRead | src/main/kotlin/clwater/metaphysics/utils/ChineseCalendar.kt:313-334 | after a Chinese write, a Gregorian read converts with the seed as written: the date is the conversion's and the Chinese fields describe it; for a target after 1900 that converts in range the Chinese fields hold the clamped target |
| CalendarProperties.ConvertedConsistent | src/main/kotlin/clwater/metaphysics/utils/ChineseCalendar.kt:340-399 | the Chinese fields `computeGregorianFields` as written leaves describe the Gregorian date it finds |
| CalendarProperties.FinishConsistent | src/main/kotlin/clwater/metaphysics/utils/ChineseCalendar.kt:398 | fields converted from a date describe that date |
| CalendarProperties.SexagenaryCycle | src/main/kotlin/clwater/metaphysics/utils/ChineseCalendar.kt:123-124 | from year 4 on, two years share stem and branch exactly when they are a multiple of 60 apart |
| CalendarProperties.SameCycleApart | src/main/kotlin/clwater/metaphysics/utils/ChineseCalendar.kt:123-124 | same stem and branch implies a multiple of 60 years apart |
| CalendarProperties.ApartSameCycle | src/main/kotlin/clwater/metaphysics/utils/ChineseCalendar.kt:123-124 | a multiple of 60 years apart implies the same stem and branch |
| CalendarProperties.StemBranchPeriod | src/main/kotlin/clwater/metaphysics/utils/ChineseCalendar.kt:123-124 | stem, branch and zodiac repeat after 60 years |
| CalendarProperties.YearText | src/main/kotlin/clwater/metaphysics/utils/ChineseCalendar.kt:230 | with the Chinese side up to date, the year's text is the stem name, the branch name and 年 |
| CalendarProperties.MonthText | src/main/kotlin/clwater/metaphysics/utils/ChineseCalendar.kt:231-234 | a month's text is its name and 月, with 闰 in front for a leap month |
| CalendarProperties.GetSettled | src/main/kotlin/clwater/metaphysics/utils/ChineseCalendar.kt:110-124 | on a settled calendar `get` succeeds and changes nothing |
| CalendarProperties.TermOrDateOrder | src/main/kotlin/clwater/metaphysics/utils/ChineseCalendar.kt:125-137 | on a settled calendar: sectional term if today is its day, else principal term if today is its day, else month on Chinese day 1, else day |
| CalendarProperties.PrincipalStageSettled | src/main/kotlin/clwater/metaphysics/utils/ChineseCalendar.kt:129 | the principal stage on a settled calendar reads today's date and changes nothing |
| CalendarProperties.PrincipalCompareSettled | src/main/kotlin/clwater/metaphysics/utils/ChineseCalendar.kt:129-130 | the comparison on a settled calendar picks the principal term exactly on its day |
| CalendarProperties.DayStageSettled | src/main/kotlin/clwater/metaphysics/utils/ChineseCalendar.kt:131-135 | month on the first Chinese day, day otherwise |
| CalendarProperties.AddAndRollMonth | src/main/kotlin/clwater/metaphysics/utils/ChineseCalendar.kt:153-200 | `add` and `roll` of the Chinese month reach the same month; `roll` keeps the year |
| CalendarProperties.ChineseDateNeverDone | src/main/kotlin/clwater/metaphysics/utils/ChineseCalendar.kt:161-210 | `add` and `roll` of `CHINESE_DATE` never return normally |
| CalendarProperties.AddChineseDateMoves | src/main/kotlin/clwater/metaphysics/utils/ChineseCalendar.kt:161-174 | `add(CHINESE_DATE)` throws only after moving a valid date `amount` days on, with the flags left as `computeIfNeed` set them |
| CalendarProperties.RollChineseDateCycles | src/main/kotlin/clwater/metaphysics/utils/ChineseCalendar.kt:201-209 | `roll(CHINESE_DATE)` throws after cycling the day within the month's length, year and month unchanged |
| Calendar.ChineseCalendar.constructor | src/main/kotlin/clwater/metaphysics/utils/ChineseCalendar.kt:67 | the Gregorian fields as given, nothing computed |
| Calendar.ChineseCalendar.PlatformComplete | src/main/kotlin/clwater/metaphysics/utils/ChineseCalendar.kt:316 | the state becomes `Complete` of the old state |
| Calendar.ChineseCalendar.SetGregorianDate | src/main/kotlin/clwater/metaphysics/utils/ChineseCalendar.kt:383 | the Gregorian fields are set, the flags cleared, nothing else changes |
| Calendar.ChineseCalendar.SetFlags | src/main/kotlin/clwater/metaphysics/utils/ChineseCalendar.kt:318-320 | the three flags take the given values, nothing else changes |
| Calendar.ChineseCalendar.PlatformAddDays | src/main/kotlin/clwater/metaphysics/utils/ChineseCalendar.kt:396 | the Gregorian date becomes `AddDays` of the old one |
| Calendar.ChineseCalendar.ComputeChineseFields | src/main/kotlin/clwater/metaphysics/utils/ChineseCalendar.kt:404-465 | status and new state are those of `CalendarSpec.ComputeChinese` |
| Calendar.ChineseCalendar.CountFromAnchor | src/main/kotlin/clwater/metaphysics/utils/ChineseCalendar.kt:413-453 | the Chinese fields become the anchor's date with `daysDiff` added to the day |
| Calendar.ChineseCalendar.SetAnchor | src/main/kotlin/clwater/metaphysics/utils/ChineseCalendar.kt:413-432 | returns the anchor's Gregorian date and sets the Chinese fields to its Chinese date |
| Calendar.ChineseCalendar.DaysFromAnchor | src/main/kotlin/clwater/metaphysics/utils/ChineseCalendar.kt:434-451 | the three loops return `DaysDiff` of the date |
| Calendar.ChineseCalendar.YearDaysFrom | src/main/kotlin/clwater/metaphysics/utils/ChineseCalendar.kt:437-443 | the year loop returns the days between the first days of the two years |
| Calendar.ChineseCalendar.MonthDaysBefore | src/main/kotlin/clwater/metaphysics/utils/ChineseCalendar.kt:446-448 | the month loop returns the days of the year's months before the date's month |
| Calendar.ChineseCalendar.CarryDays | src/main/kotlin/clwater/metaphysics/utils/ChineseCalendar.kt:455-463 | the carrying loop ends as `Settle` does |
| Calendar.ChineseCalendar.CarryOneMonth | src/main/kotlin/clwater/metaphysics/utils/ChineseCalendar.kt:457-462 | one pass: the month's days off the day, the next month and its length, or an index error |
| Calendar.ChineseCalendar.ComputeSolarTerms | src/main/kotlin/clwater/metaphysics/utils/ChineseCalendar.kt:470-479 | status and new state are those of `CalendarSpec.ComputeTerms` |
| Calendar.ChineseCalendar.ComputeGregorianFields | src/main/kotlin/clwater/metaphysics/utils/ChineseCalendar.kt:340-399 | status and new state are those of `CalendarSpec.ComputeGregorian` |
| Calendar.ChineseCalendar.Converge | src/main/kotlin/clwater/metaphysics/utils/ChineseCalendar.kt:340-397 | status and new state are those of `CalendarSpec.Converging` |
| Calendar.ChineseCalendar.MarkConverting | src/main/kotlin/clwater/metaphysics/utils/ChineseCalendar.kt:344-346 | both sides marked computed and the Gregorian side as set last |
| Calendar.ChineseCalendar.SnapTarget | src/main/kotlin/clwater/metaphysics/utils/ChineseCalendar.kt:348-382 | returns `TargetOf` of the Chinese fields, changing nothing |
| Calendar.ChineseCalendar.SnapTo | src/main/kotlin/clwater/metaphysics/utils/ChineseCalendar.kt:366-370 | the Gregorian fields become the given date, completed |
| Calendar.ChineseCalendar.ApproachFromSeed | src/main/kotlin/clwater/metaphysics/utils/ChineseCalendar.kt:383-396 | status and new state are those of `Conversion.Approach` from the seed as written |
| Calendar.ChineseCalendar.WalkAndMove | src/main/kotlin/clwater/metaphysics/utils/ChineseCalendar.kt:386-396 | the walk and the date move end as `Approach` does from the seed's fields |
| Calendar.ChineseCalendar.StartFromSeed | src/main/kotlin/clwater/metaphysics/utils/ChineseCalendar.kt:383-384 | the seed as written is set and its Chinese fields computed |
| Calendar.ChineseCalendar.WalkTo | src/main/kotlin/clwater/metaphysics/utils/ChineseCalendar.kt:386-393 | the month walk ends as `Conversion.Walk` does, with the days it added |
| Calendar.ChineseCalendar.StepMonth | src/main/kotlin/clwater/metaphysics/utils/ChineseCalendar.kt:389-392 | the next Chinese month, and the next year on month 1 |
| Calendar.ChineseCalendar.ComputeIfNeed | src/main/kotlin/clwater/metaphysics/utils/ChineseCalendar.kt:313-335 | status and new state are those of `CalendarSpec.ComputeIfNeed` |
| Calendar.ChineseCalendar.RefreshChinese | src/main/kotlin/clwater/metaphysics/utils/ChineseCalendar.kt:314-321 | as `CalendarSpec.RefreshChinese` |
| Calendar.ChineseCalendar.RefreshTerms | src/main/kotlin/clwater/metaphysics/utils/ChineseCalendar.kt:322-325 | as `CalendarSpec.RefreshTerms` |
| Calendar.ChineseCalendar.RefreshGregorian | src/main/kotlin/clwater/metaphysics/utils/ChineseCalendar.kt:326-334 | as `CalendarSpec.RefreshGregorian` |
| Calendar.ChineseCalendar.Set | src/main/kotlin/clwater/metaphysics/utils/ChineseCalendar.kt:88-108 | status and new state are those of `CalendarSpec.Set` |
| Calendar.ChineseCalendar.WriteField | src/main/kotlin/clwater/metaphysics/utils/ChineseCalendar.kt:91-107 | as `CalendarSpec.WriteField` |
| Calendar.ChineseCalendar.Get | src/main/kotlin/clwater/metaphysics/utils/ChineseCalendar.kt:110-140 | status, value and new state are those of `CalendarSpec.Get` |
| Calendar.ChineseCalendar.TermOrDate | src/main/kotlin/clwater/metaphysics/utils/ChineseCalendar.kt:125-137 | as `CalendarSpec.TermOrDate` |
| Calendar.ChineseCalendar.SectionalStage | src/main/kotlin/clwater/metaphysics/utils/ChineseCalendar.kt:127-128 | as `CalendarSpec.SectionalStage` |
| Calendar.ChineseCalendar.PrincipalStage | src/main/kotlin/clwater/metaphysics/utils/ChineseCalendar.kt:129 | as `CalendarSpec.PrincipalStage` |
| Calendar.ChineseCalendar.PrincipalCompare | src/main/kotlin/clwater/metaphysics/utils/ChineseCalendar.kt:129-130 | as `CalendarSpec.PrincipalCompare` |
| Calendar.ChineseCalendar.DayStage | src/main/kotlin/clwater/metaphysics/utils/ChineseCalendar.kt:131-135 | as `CalendarSpec.DayStage` |
| Calendar.ChineseCalendar.Add | src/main/kotlin/clwater/metaphysics/utils/ChineseCalendar.kt:142-183 | status and new state are those of `CalendarSpec.Add` |
| Calendar.ChineseCalendar.AddField | src/main/kotlin/clwater/metaphysics/utils/ChineseCalendar.kt:145-183 | as `CalendarSpec.AddField` |
| Calendar.ChineseCalendar.MarkChineseWritten | src/main/kotlin/clwater/metaphysics/utils/ChineseCalendar.kt:179-182 | the flags of a Chinese write |
| Calendar.ChineseCalendar.AddMonthLoop | src/main/kotlin/clwater/metaphysics/utils/ChineseCalendar.kt:155-160 | the month and year reached are `AddMonths`, or an index error exactly when it is None |
| Calendar.ChineseCalendar.AddDayLoop | src/main/kotlin/clwater/metaphysics/utils/ChineseCalendar.kt:161-173 | the date reached is `AddChineseDays`, or an index error exactly when it is None |
| Calendar.ChineseCalendar.NextDay | src/main/kotlin/clwater/metaphysics/utils/ChineseCalendar.kt:164-172 | one pass of the day loop, as `ChineseDays.DayStep` |
| Calendar.ChineseCalendar.Roll | src/main/kotlin/clwater/metaphysics/utils/ChineseCalendar.kt:185-218 | status and new state are those of `CalendarSpec.Roll` |
| Calendar.ChineseCalendar.RollField | src/main/kotlin/clwater/metaphysics/utils/ChineseCalendar.kt:188-218 | as `CalendarSpec.RollField` |
| Calendar.ChineseCalendar.RollMonthLoop | src/main/kotlin/clwater/metaphysics/utils/ChineseCalendar.kt:198-200 | the month reached is `RollMonths`, or an index error exactly when it is None |
| Calendar.ChineseCalendar.RollDayLoop | src/main/kotlin/clwater/metaphysics/utils/ChineseCalendar.kt:201-209 | an index error exactly outside the table, otherwise the day is `RollDay` of the old one |
| Calendar.ChineseCalendar.GetChinese | src/main/kotlin/clwater/metaphysics/utils/ChineseCalendar.kt:226-245 | status, text and new state are those of `CalendarSpec.GetChinese` |
| Calendar.ChineseCalendar.ChineseYearText | src/main/kotlin/clwater/metaphysics/utils/ChineseCalendar.kt:230 | the stem's text, then the branch's text, then 年 |
| Calendar.ChineseCalendar.NameAt | src/main/kotlin/clwater/metaphysics/utils/ChineseCalendar.kt:235-241 | the name at the index, or an index error exactly outside the list |
| GanZhi.MonthGan | src/main/kotlin/clwater/metaphysics/utils/GanZhiCalendar.kt:14-17 | `gan` is even, 0..8 for a year from 0 on, -4..4 for a negative year |
| GanZhi.MonthGanIndex | src/main/kotlin/clwater/metaphysics/utils/GanZhiCalendar.kt:26-29 | with the wrap added, the stem index of a month 0..11 is 0..9 |
| GanZhi.CorrectionAfter | src/main/kotlin/clwater/metaphysics/utils/GanZhiCalendar.kt:14-24 | the correction after the `when` is the previous one or one of the five, and a valid correction stays valid |
| GanZhi.MonthGanIndexAsWritten | src/main/kotlin/clwater/metaphysics/utils/GanZhiCalendar.kt:26-29 | as written, for months 0..11 and a valid correction, the index is 0..11, and 10 or 11 exactly for correction 0 and months 10 and 11 |
| GanZhi.GanZhiMonthAsWritten | src/main/kotlin/clwater/metaphysics/utils/GanZhiCalendar.kt:26-32 | as written a label exists only for months 1..12, has two characters with the month's branch second; for a valid correction it is missing exactly when the correction is 0 and the month is 11 or 12 |
| GanZhi.GanZhiCalendar.constructor | src/main/kotlin/clwater/metaphysics/utils/GanZhiCalendar.kt:8 | `correctionIndex` starts at 0 |
| GanZhi.GanZhiCalendar.GetGanZhiMonth | src/main/kotlin/clwater/metaphysics/utils/GanZhiCalendar.kt:11-33 | `correctionIndex` becomes `CorrectionAfter(year, old)` and a valid correction stays valid; the label is `GanZhiMonthAsWritten` of the month and the new correction, the index wrapped only when negative |
| GanZhi.GanZhiCalendar.UpdateCorrection | src/main/kotlin/clwater/metaphysics/utils/GanZhiCalendar.kt:14-24 | the `when` sets `correctionIndex` to `CorrectionAfter(year, old)` |
| GanZhi.CorrectionAssigned | src/main/kotlin/clwater/metaphysics/utils/GanZhiCalendar.kt:14-24 | for years from 0 on the correction does not depend on the previous call, and is one of the five |
| GanZhi.CorrectionStale | src/main/kotlin/clwater/metaphysics/utils/GanZhiCalendar.kt:14-24 | for a negative year with `year % 5` of -3 or -4 no branch matches and the previous correction stays |
| GanZhi.CorrectionSet | src/main/kotlin/clwater/metaphysics/utils/GanZhiCalendar.kt:14-24 | for every other year the correction does not depend on the previous call |
| GanZhi.CorrectionPeriod | src/main/kotlin/clwater/metaphysics/utils/GanZhiCalendar.kt:14-24 | from year 0 on the correction repeats every 5 years |
| GanZhi.MonthLabel | src/main/kotlin/clwater/metaphysics/utils/GanZhiCalendar.kt:26-32 | a label exists exactly for months 1..12; it is the stem name at the wrapped index followed by the month's branch, two characters |
| GanZhi.FirstAndEleventhMonth | src/main/kotlin/clwater/metaphysics/utils/GanZhiCalendar.kt:30 | the first month's branch is 寅 and the eleventh's 子 |
| GanZhi.MonthStemAdvances | src/main/kotlin/clwater/metaphysics/utils/GanZhiCalendar.kt:26-30 | within a year the stem moves on by one each month, 癸 wrapping to 甲 |
| GanZhi.MonthAsWrittenFails | src/main/kotlin/clwater/metaphysics/utils/GanZhiCalendar.kt:26-30 | as written, for years from 0 on, the index leaves the stem list exactly when `year % 5 == 0` and the month is 11 or 12 |
| GanZhi.November2020AsWritten | src/main/kotlin/clwater/metaphysics/utils/GanZhiCalendar.kt:26-30 | as written, `getGanZhiMonth(2020, 11)` computes `ganIndex` 10 and has no label |
| GanZhi.MonthWrapAgrees | src/main/kotlin/clwater/metaphysics/utils/GanZhiCalendar.kt:26-30 | wherever the label as written exists, the wrapped label is the same |
| GanZhi.GanZhiDay | src/main/kotlin/clwater/metaphysics/utils/GanZhiCalendar.kt:36-61 | the day label with cyclic indexes always exists and has two characters |
| GanZhi.DayStemNumber | src/main/kotlin/clwater/metaphysics/utils/GanZhiCalendar.kt:38-44 | for a year from 0 and a month from -1 on, `G` is the formula with floor division, `c / 4` being `year / 400` |
| GanZhi.CenturyTermsEuclidean | src/main/kotlin/clwater/metaphysics/utils/GanZhiCalendar.kt:38-44 | for a year from 0 on, Kotlin's century and year-in-century terms are the Euclidean ones |
| GanZhi.MonthTermEuclidean | src/main/kotlin/clwater/metaphysics/utils/GanZhiCalendar.kt:44 | from month -1 on, the month term `3 * (m + 1) / 5` is the Euclidean one |
| GanZhi.DayBranchNumber | src/main/kotlin/clwater/metaphysics/utils/GanZhiCalendar.kt:46-53 | from March on, `Z` is `G` plus `4 * c + 4`, plus 6 for an even month |
| GanZhi.GanZhiDayAsWritten | src/main/kotlin/clwater/metaphysics/utils/GanZhiCalendar.kt:57 | as written, a label that exists has two characters |
| GanZhi.DayAsWrittenFails | src/main/kotlin/clwater/metaphysics/utils/GanZhiCalendar.kt:57 | as written, the label is missing exactly when `G % 10` or `Z % 12` is 0 or negative |
| GanZhi.FirstDayOf2000AsWritten | src/main/kotlin/clwater/metaphysics/utils/GanZhiCalendar.kt:44-57 | for 2000-01-01 `G` is 90, so as written there is no label, and the cyclic stem is 癸 |
| GanZhi.DayCyclicAgrees | src/main/kotlin/clwater/metaphysics/utils/GanZhiCalendar.kt:57 | wherever the label as written exists, the cyclic label is the same |
| GanZhi.DayCycles | src/main/kotlin/clwater/metaphysics/utils/GanZhiCalendar.kt:44-57 | within a month the stem repeats every 10 days and the branch every 12 |
| GanZhi.DaySexagenary | src/main/kotlin/clwater/metaphysics/utils/GanZhiCalendar.kt:44-57 | within a month the label repeats every 60 days |
| GanZhi.OnlyBranchShiftsEarlyMonths | src/main/kotlin/clwater/metaphysics/utils/GanZhiCalendar.kt:44-53 | `Z` treats January and February as months 13 and 14 while `G` does not: the branch numbers agree, and the stem numbers differ by 7 and 8 |
| IndexServer.DigitName | src/main/kotlin/clwater/metaphysics/Routing/IndexServer.kt:86-97 | a digit adds one character, any other character nothing; the numeral is the digit's entry in 〇一二…九 |
| IndexServer.NumeralValue | src/main/kotlin/clwater/metaphysics/Routing/IndexServer.kt:86-97 | reading a numeral back: defined exactly on the ten numerals, giving the digit whose name it is |
| IndexServer.Digits | src/main/kotlin/clwater/metaphysics/Routing/IndexServer.kt:85-98 | the digits of a text, all digits, no more than the text's length |
| IndexServer.ChineseNumber | src/main/kotlin/clwater/metaphysics/Routing/IndexServer.kt:82-99 | the result is no longer than the input |
| IndexServer.ArabicNumber | src/main/kotlin/clwater/metaphysics/Routing/IndexServer.kt:82-99 | reading numerals back gives no more characters than it reads |
| IndexServer.GetChineseNumber | src/main/kotlin/clwater/metaphysics/Routing/IndexServer.kt:82-99 | the loop over the characters returns `ChineseNumber` of the text |
| IndexServer.ChineseNumberAppend | src/main/kotlin/clwater/metaphysics/Routing/IndexServer.kt:85-98 | converting a concatenation is concatenating the conversions |
| IndexServer.ArabicNumberAppend | src/main/kotlin/clwater/metaphysics/Routing/IndexServer.kt:85-98 | reading back a concatenation is concatenating the readings |
| IndexServer.ReadBack | src/main/kotlin/clwater/metaphysics/Routing/IndexServer.kt:82-99 | reading the result back gives exactly the digits of the input |
| IndexServer.NumeralReadsBack | src/main/kotlin/clwater/metaphysics/Routing/IndexServer.kt:86-97 | one character's numeral reads back as that character when it is a digit, as nothing otherwise |
| IndexServer.DigitNameInTable | src/main/kotlin/clwater/metaphysics/Routing/IndexServer.kt:86-97 | each digit's numeral is its entry in 〇一二…九 |
| IndexServer.NumeralCount | src/main/kotlin/clwater/metaphysics/Routing/IndexServer.kt:82-99 | one numeral per digit of the input |
| IndexServer.OnlyNumerals | src/main/kotlin/clwater/metaphysics/Routing/IndexServer.kt:82-99 | the result holds numerals only |
| IndexServer.DigitsOfDigitText | src/main/kotlin/clwater/metaphysics/Routing/IndexServer.kt:85-98 | a text of digits only is its own digits |
| IndexServer.OnlyDigitsMatter | src/main/kotlin/clwater/metaphysics/Routing/IndexServer.kt:87-97 | characters other than digits leave no trace |
| IndexServer.SameNumeralsIffSameDigits | src/main/kotlin/clwater/metaphysics/Routing/IndexServer.kt:82-99 | two texts give the same result exactly when they hold the same digits |
| IndexServer.DigitTextRoundTrip | src/main/kotlin/clwater/metaphysics/Routing/IndexServer.kt:82-99 | a digit-only text is recovered from its numerals, one numeral per digit |
| IndexServer.Year2019 | src/main/kotlin/clwater/metaphysics/Routing/IndexServer.kt:82-99 | `2019` is written 二〇一九 |

## Left out

- The platform `GregorianCalendar` is modelled only as far as the core uses it: a proleptic Gregorian day numbering with 1901-01-01 as day 0, `complete()`, `add(DATE, n)` and `DAY_OF_WEEK`. The following are not modelled:
  - the Julian cutover;
  - time of day and time zones;
  - lenient handling of fields other than year, month and day;
  - `set` for Gregorian fields other than `YEAR`, `MONTH` and `DATE`;
  - `add` for Gregorian fields other than `DATE`;
  - `roll` of any Gregorian field.
- The constructors that read the clock, a `Date` or another `Calendar`, and the `isChinese` constructor, are left out. The clock is I/O, and the `isChinese` constructor is three `set` calls that `Calendar.ChineseCalendar.Set` covers.
- `toString`, `simpleGregorianDateString`, `simpleChineseDateString` and `chineseDateString` are left out. They only concatenate `get` and `getChinese`.
- Kotlin's 32-bit `Int` overflow is not modelled. Every table year keeps the arithmetic far below 2^31, and outside the tables the source throws first.
- The state after an `ArrayIndexOutOfBoundsException` inside a computation is left unspecified. Methods promise their state only when the status is not a crash.
- Conversion.RoundTripAsWritten: leaves out targets in 1900, for which the conversion as written does not round-trip (see Findings).
- CalendarProperties.ChineseWriteThenGregorianRead: the target is the clamped Chinese date only for targets after 1900 that convert in range, for the same reason.
- Conversion.TooLateSnaps: does not prove that the conversion of 2100-12-31 succeeds, only what it gives when it does.
- CalendarSpec.Add: covers `add` of the Chinese fields and of the Gregorian `DATE`; `add(YEAR)` and `add(MONTH)`, which go to the platform calendar, are not modelled.
- Calendar.ChineseCalendar.Add: the same fields as `CalendarSpec.Add`; `add(YEAR)` and `add(MONTH)` are not modelled.
- Evaluating the whole 402-byte table is beyond the verifier's budget, so these properties over the whole 1901–2100 table are not proved:
  - every year has 353..385 days;
  - the month walk of `computeGregorianFields` always reaches its target;
  - no conversion in range leaves the table.
- `Calendar.ChineseCalendar.ComputeGregorianFields` models a walk that never reaches its target as the status `Hangs`. It does not model non-termination itself.
- `GanZhi.GanZhiDay` and `GanZhi.GanZhiMonth`: they state the labels the formulas give, not that these are the historically correct sexagenary day or month. The model does not say whether the `ganZhiDay` formula matches the traditional calendar.
- The two `println` calls in `ganZhiDay` write to standard output and are left out.
- The unused `baseMonth` array of `GanZhiCalendar` is left out.
- `IndexServer`: only `getChineseNumber` is modelled. The HTTP routing, the template model, the date and file helpers of the page, and `getChineseWeek` are web glue outside the calendar core.

## Findings

| source | as written | input that shows it | evidently intended | confidence | as-written member | corrected member |
|---|---|---|---|---|---|---|
| src/main/kotlin/clwater/metaphysics/utils/ChineseCalendar.kt:383-384 | `computeGregorianFields` seeds the Gregorian fields with year `y`. For `y == 1900` the seed is in 1900, and `computeChineseFields` ignores it, so the walk starts from the stale Chinese fields. | Chinese 1900/11/11 (or any 1900 date from 1900/11/11 on): comes out as Gregorian 1900-11-11 (month index 10), before 1901-01-01, which is itself 1900/11/11 | seed 1900 dates at 1901-01-01, the first day the tables cover | high (not executed) | Conversion.SeedYear1900Misplaces | Conversion.SeedYear1900Lands |
| src/main/kotlin/clwater/metaphysics/utils/GanZhiCalendar.kt:26-30 | `ganIndex` is wrapped only when negative. With correction 0 (`year % 5 == 0`), months 11 and 12 index `ganData[10]` and `ganData[11]`. | `getGanZhiMonth(2020, 11)`: `ganIndex` is 10, out of bounds | also wrap `ganIndex >= 10` by subtracting 10 | high (not executed) | GanZhi.November2020AsWritten | GanZhi.MonthLabel |
| src/main/kotlin/clwater/metaphysics/utils/GanZhiCalendar.kt:57 | the indexes are `G % 10 - 1` and `Z % 12 - 1`, which are -1 when `G % 10 == 0` or `Z % 12 == 0` | `ganZhiDay(2000, 1, 1)`: `G` is 90, so the index is -1 | count cyclically, remainder 0 meaning the tenth stem and twelfth branch: `(G - 1) mod 10`, `(Z - 1) mod 12` | high (not executed) | GanZhi.FirstDayOf2000AsWritten | GanZhi.DayCyclicAgrees |

The calendar model (`CalendarSpec`, `Calendar.ChineseCalendar` and `GanZhi.GanZhiCalendar.GetGanZhiMonth`) runs the code as written. The corrected members define the evidently intended behaviour, and their properties are proved beside it.
