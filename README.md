# laravel-date-scopes, modelled in Dafny

A model of the date scopes of the laravel-date-scopes package: the Eloquent
query scopes `ofLast7Days()`, `ofYesterday()`, `monthToDate()` and their
siblings, which restrict a query to the rows whose created-at column lies
in a range of calendar periods counted back from an anchor instant.

The model has these modules:

- `Calendar` (calendar.dfy): the proleptic Gregorian calendar at one-second
  resolution. An instant is a `DateTime` of year, month, day, hour, minute
  and second. `Seconds` places it on a timeline that starts at 0001-01-01
  00:00:00, a Monday. `MonthIndex` numbers its month as 12 * year + month - 1.
  `FromSeconds` and `FromDayNumber` invert these, and the round trips are
  proved.
- `Units` (units.dfy): the eleven units a scope can count in (second to
  millennium). For each unit it defines the three Carbon operations the
  calculator calls:
  - `StartOf`, the first second of the period that holds an instant;
  - `EndOf`, the last second of that period;
  - `Sub`, moving back n units. Seconds to weeks subtract a fixed number of
    seconds. Months and longer count months and clamp the day to the
    target month, as Carbon's `sub…NoOverflow` does.

  Periods are numbered by `PeriodIndex`. `StartOfIsFirst` and `EndOfIsLast`
  show that the bounds are the first and the last instant of the period.
  `Sub` is shown to move exactly n periods back.
- `DateRanges` (date_range.dfy): the string-backed `DateRange` enum and its
  conversion from the configured string.
- `DateScopes` (date_scopes.dfy): `scopeOfLastUnit`, the range calculator
  (`OfLastUnit`, `LastUnitRange`), the fixed-length unit table, the choice
  of mode and of column, and `whereBetween` as a filter over a sequence of
  instants (`Where`). The central theorem is `RangeMembership`:
  - an exclusive range holds exactly the instants of the `value` periods
    before the anchor's period;
  - an inclusive range holds exactly those of the `value` periods that end
    with the anchor's period.
- `Presets` (presets.dfy): the named scopes, grouped by how they delegate.
  - `CurrentPeriod` covers `ofJustNow` and `ofToday`.
  - `PreviousPeriod` covers `ofLastSecond` … `ofLastMillennium`.
  - `FixedCount` covers `ofLast15Seconds` … `ofLast4Quarters`.
  - `General` covers `ofLastSeconds(n)` … `ofLastMillenniums(n)`.
  - `ToNow` covers `secondToNow` … `millenniumToDate`.

  `Exists` says which unit and count combinations the package defines.
  `BindingOf` states what each scope passes on to `ofLastUnit`.
- `Fixture` (fixture.dfy): the 29 created-at values of the test suite and
  its clock, stopped at 2023-03-31 13:15:15. Each count the suite expects
  is stated as a lemma, such as `Fixture.OfToday`: the number of rows the
  scope selects.

The clock (`now()`) is a field of `Env`, passed as a parameter. The
`config()` lookups are the fields of `Config` in that same `Env`. The
model's `CREATED_AT` constant, which a model class may override, is
`Env.createdAt`.

The plural and fixed-count scopes take the caller's `customRange`. The
singular `ofLast…` scopes, `ofJustNow`, `ofToday` and the to-now scopes
force their own mode (`Presets.BindingOf`).

## Model

| member | source | states |
|---|---|---|
| DateRanges.From | src/DateRange.php:23-27 | a string converts to the case whose backing value it is, and to nothing when it is neither "inclusive" nor "exclusive" |
| DateRanges.FromValue | src/DateRange.php:23-27 | converting a case to its backing value and back gives the same case |
| DateRanges.FromRefuses | src/DateRange.php:23-27 | conversion fails exactly for the strings other than the two backing values |
| Calendar.DaysInMonth | src/DateScopes.php:129-130 | every month has 28 to 31 days (the month lengths the no-overflow subtraction clamps to) |
| Calendar.YearOfDay | src/DateScopes.php:133 | the year found for a day number is the one whose days contain it |
| Calendar.MonthOfDay | src/DateScopes.php:133 | the month found for a day of the year is the one whose days contain it, between 1 and 12 |
| Calendar.FromDayNumber | src/DateScopes.php:133 | builds the valid date at midnight with the given day number |
| Calendar.FromSeconds | src/DateScopes.php:133 | builds the valid instant with the given position on the timeline |
| Calendar.YearOfDayUnique | src/DateScopes.php:133 | a year containing a day number is the year found for it |
| Calendar.MonthOfDayUnique | src/DateScopes.php:133 | a month containing a day of the year is the month found for it |
| Calendar.FromDayNumberOfDayNumber | src/DateScopes.php:133 | the date rebuilt from a valid date's day number is that date at midnight |
| Calendar.FromSecondsOfSeconds | src/DateScopes.php:133 | the instant rebuilt from a valid instant's seconds is that instant (round trip) |
| Calendar.DaysBeforeYearStep | src/DateScopes.php:135-144 | the days before the next year are the days before this year plus its length |
| Calendar.DaysBeforeYearMonotone | src/DateScopes.php:135-144 | a later year starts at least 365 days later |
| Calendar.MonthStartDayOf | src/DateScopes.php:135-144 | the first day of a date's month is the date's day number minus its day of month plus one |
| Calendar.MonthStartDayMonotone | src/DateScopes.php:135-144 | a later month starts after the whole of an earlier month |
| Calendar.SecondsByMonth | src/DateScopes.php:135-144 | an instant is its month's first second plus an offset smaller than the month |
| Calendar.SecondsOrder | src/DateScopes.php:154 | comparing instants by seconds is comparing them field by field, year first |
| Calendar.SecondsInjective | src/DateScopes.php:154 | two valid instants with the same seconds are the same instant |
| Units.IsFixedLength | src/DateScopes.php:129 | second, minute, hour, day and week, the units subtracted on the timeline; DateScopes.FixedLengthTable proves it agrees with the string table |
| Units.PeriodSplit | src/DateScopes.php:126-127 | every position is its period's start plus a rest smaller than one period |
| Units.PeriodShift | src/DateScopes.php:129-130 | moving a position back by n periods' length moves its period number back by n |
| Units.SecondsRests | src/DateScopes.php:126-127 | the rest of an instant in a minute, hour, day and week is its seconds, minutes and seconds, time of day, and days since Monday plus time of day |
| Units.MonthRests | src/DateScopes.php:126-127 | the rest of a month index in a quarter, year, decade, century and millennium is the months since the period's first month |
| Units.StartOf | src/DateScopes.php:126 | startOf<Unit>: a valid instant at the first position of the period holding dt, at midnight on the first of a month for month-based units |
| Units.StartOfByTime | src/DateScopes.php:126 | startOf for seconds to weeks: the first second of dt's period |
| Units.StartOfByMonth | src/DateScopes.php:126 | startOf for months to millenniums: midnight on the first day of the period's first month |
| Units.EndOf | src/DateScopes.php:127 | endOf<Unit>: a valid instant at the last position of the period holding dt, 23:59:59 on the last day of a month for month-based units |
| Units.EndOfByTime | src/DateScopes.php:127 | endOf for seconds to weeks: the last second of dt's period |
| Units.EndOfByMonth | src/DateScopes.php:127 | endOf for months to millenniums: 23:59:59 on the last day of the period's last month |
| Units.StartOfIsFirst | src/DateScopes.php:126 | an instant is at or after StartOf(dt) exactly when its period is dt's period or a later one |
| Units.EndOfIsLast | src/DateScopes.php:127 | an instant is at or before EndOf(dt) exactly when its period is dt's period or an earlier one |
| Units.StartOrder | src/DateScopes.php:126 | comparing with a period's start by seconds agrees with comparing positions |
| Units.EndOrder | src/DateScopes.php:127 | comparing with a period's end by seconds agrees with comparing positions |
| Units.SamePeriodSameBounds | src/DateScopes.php:126-127 | instants in the same period have the same start and the same end |
| Units.SamePeriodSameStart | src/DateScopes.php:126 | instants in the same period have the same start |
| Units.SamePeriodSameEnd | src/DateScopes.php:127 | instants in the same period have the same end |
| Units.BoundsInOwnPeriod | src/DateScopes.php:126-127 | a period's start and end lie in that period, and taking start (end) twice changes nothing |
| Units.SubMonthsNoOverflow | src/DateScopes.php:129-130 | sub<Unit>sNoOverflow: k months earlier, same time of day, the day clamped to the target month's length |
| Units.Sub | src/DateScopes.php:129-131 | subtracting n units moves the position back by n periods' length and the period number back by exactly n; fixed-length units keep the time of the timeline, the others clamp the day |
| DateScopes.LastUnitRange | src/DateScopes.php:135-144 | the from/to pair of both branches; both bounds are valid instants |
| DateScopes.RangeMembership | src/DateScopes.php:135-144 | an instant is in the exclusive range iff its period is one of the value periods before the anchor's, and in the inclusive range iff it is one of the value periods ending with the anchor's |
| DateScopes.RangeOrdered | src/DateScopes.php:135-144 | with a count of at least 1, from is not after to |
| DateScopes.RangeAligned | src/DateScopes.php:135-144 | from is the start of a period and to the end of one |
| DateScopes.ExclusiveEndsBeforeAnchorPeriod | src/DateScopes.php:135-139 | an exclusive range ends before the anchor's period starts and never holds the anchor |
| DateScopes.InclusiveHoldsAnchor | src/DateScopes.php:140-144 | an inclusive range holds the anchor, ends at the end of its period, and with count 1 is exactly that period |
| DateScopes.ExclusiveIsInclusiveOfPrevious | src/DateScopes.php:135-144 | the exclusive range equals the inclusive range of the same count anchored one unit earlier |
| DateScopes.Contains | src/DateScopes.php:154 | the closed interval of whereBetween: an instant passes when it is neither before from nor after to |
| DateScopes.ContainsIsBetween | src/DateScopes.php:154 | passing the filter is exactly BETWEEN on datetime values: from is not later than x and x not later than to, comparing year, month, day, hour, minute, second in turn |
| Calendar.SecondsOrderIsFieldOrder | src/DateScopes.php:154 | ordering valid instants on the timeline is ordering them field by field, year first |
| DateScopes.Where | src/DateScopes.php:154 | whereBetween: every instant kept is from the input and lies between the bounds, never more than it was given |
| DateScopes.WhereComplete | src/DateScopes.php:154 | whereBetween drops nothing: every instant of the input between the bounds is kept |
| DateScopes.InPeriods | src/DateScopes.php:154 | selection by period number: never more instants than it was given |
| DateScopes.InPeriodsSound | src/DateScopes.php:154 | every instant InPeriods keeps is from the input and has its period in [lo, hi] |
| DateScopes.InPeriodsComplete | src/DateScopes.php:154 | every instant of the input with its period in [lo, hi] is kept |
| DateScopes.Window | src/DateScopes.php:135-144 | the periods a range covers: value of them, ending just before the anchor's period (exclusive) or with it (inclusive) |
| DateScopes.WhereIsInWindow | src/DateScopes.php:135-154 | filtering by the range keeps exactly the instants whose period lies in the range's window of value periods |
| DateScopes.FixedLengthTable | src/DateScopes.php:96-102 | a unit's name is in the fixed-length table exactly for second, minute, hour, day and week, and no two units share a name |
| DateScopes.ResolveColumn | src/DateScopes.php:150-152 | an explicit column wins; else a custom CREATED_AT; else the configured created_column |
| DateScopes.Anchor | src/DateScopes.php:133 | `$startFrom ?? now()`: the given start, else the current instant, valid whenever both are |
| DateScopes.ChosenRange | src/DateScopes.php:124 | the mode passed wins; otherwise the configured default, converted as the enum converts it |
| DateScopes.OfLastUnit | src/DateScopes.php:112-155 | a count below 1 is refused first, then a default range that does not convert; otherwise the scope filters the resolved column by the range of the chosen mode around the given start or the current instant |
| DateScopes.OfLastUnitSucceeds | src/DateScopes.php:112-155 | a count of at least 1 with a mode given or a valid default always yields a scope |
| DateScopes.ExplicitRangeOverridesDefault | src/DateScopes.php:124 | with a mode passed, the result does not depend on the configured default |
| DateScopes.DefaultRangeUsed | src/DateScopes.php:124 | without a mode, the configured default behaves exactly as if it had been passed |
| Presets.NamedCounts | src/DateScopes.php:160-234 | the counts that have a scope of their own: every one is at least 2, and years and longer units have none (src/DateScopes.php:242-271) |
| Presets.Exists | src/DateScopes.php:158-285 | which scopes the trait defines: every previous-period, general and to-now scope, current-period ones for seconds and days, fixed-count ones only with a named count of at least 2 |
| Presets.FixedCountScopes | src/DateScopes.php:160-234 | there are 26 fixed-count scopes: 4 per unit for seconds, minutes, hours, days and months, 3 for weeks and quarters |
| Presets.BindingOf | src/DateScopes.php:158-285 | each scope keeps its unit; only general scopes take the count from the caller; forced modes come with count 1; only to-now scopes drop the start, and they force inclusive |
| Presets.Apply | src/DateScopes.php:158-285 | a scope is refused with invalidValue exactly when its bound count is below 1; one that forces its mode never fails; the column is always the resolved one |
| Presets.ApplyComputes | src/DateScopes.php:158-285 | a scope succeeds exactly when its count is positive and it has a mode, and then its range is LastUnitRange of its unit, count, anchor and mode |
| Presets.OnlyGeneralRefused | src/DateScopes.php:165-168 | among existing scopes only the general ones can be refused, exactly for counts below 1 |
| Presets.FixedCountIsGeneral | src/DateScopes.php:160-163 | ofLast15Seconds and its siblings answer every call as the general scope with that count |
| Presets.ForcedModeIgnoresDefault | src/DateScopes.php:171 | a scope that forces its mode ignores both the caller's mode and the configured default |
| Presets.ToNowIgnoresStart | src/DateScopes.php:275-285 | the to-now and to-date scopes are anchored at the current instant whatever start is given |
| Presets.InclusivePresetIsCurrentPeriod | src/DateScopes.php:195 | ofJustNow, ofToday and the to-now scopes cover exactly the anchor's period, anchor included |
| Presets.ExclusivePresetIsPreviousPeriod | src/DateScopes.php:196 | ofLastSecond, ofYesterday, ofLastWeek and the other singular scopes cover exactly the period before the anchor's, anchor excluded |
| Fixture.Row | tests/DataScopesTest.php:16-44 | each of the 29 created-at values is a valid instant at the tabulated seconds and month index |
| Fixture.RowsOfLastHour | tests/DataScopesTest.php:16-23 | rows 0 to 7 are valid instants at their tabulated positions |
| Fixture.RowsOfLastDays | tests/DataScopesTest.php:24-30 | rows 8 to 14 are valid instants at their tabulated positions |
| Fixture.RowsOfLastWeeks | tests/DataScopesTest.php:31-35 | rows 15 to 19 are valid instants at their tabulated positions |
| Fixture.RowsOfLastYears | tests/DataScopesTest.php:36-40 | rows 20 to 24 are valid instants at their tabulated positions |
| Fixture.OldestRows | tests/DataScopesTest.php:41-43 | rows 25 to 27 are valid instants at their tabulated positions |
| Fixture.FirstDayRow | tests/DataScopesTest.php:44 | row 28 is a valid instant at its tabulated position |
| Fixture.TestNowIsOneInstant | tests/DataScopesTest.php:12-13 | the test clock's positions describe 2023-03-31 13:15:15 and no other instant |
| Fixture.Rows | tests/DataScopesTest.php:10-46 | the fixture has 29 valid instants, row k at its tabulated positions |
| Fixture.CountPeriods | tests/DataScopesTest.php:10-46 | counts at most the rows it looks at |
| Fixture.InPeriodsOfRows | tests/DataScopesTest.php:10-46 | the rows from k on whose period lies in [lo, hi] are as many as the tables count |
| Fixture.InPeriodsOfAllRows | tests/DataScopesTest.php:10-46 | the same for the whole fixture |
| Fixture.SelectedInWindow | tests/DataScopesTest.php:10-46 | a scope that is not refused selects as many rows as lie in its window of periods |
| Fixture.OfJustNow | tests/DataScopesTest.php:67 | CurrentPeriod(Second), with the clock at 2023-03-31 13:15:15 and the default range exclusive, selects 1 of the 29 rows |
| Fixture.OfJustNowCount | tests/DataScopesTest.php:67 | 1 rows lie in the window of CurrentPeriod(Second)'s periods counted back from the test clock |
| Fixture.OfLastSecond | tests/DataScopesTest.php:68 | PreviousPeriod(Second), with the clock at 2023-03-31 13:15:15 and the default range exclusive, selects 1 of the 29 rows |
| Fixture.OfLastSecondCount | tests/DataScopesTest.php:68 | 1 rows lie in the window of PreviousPeriod(Second)'s periods counted back from the test clock |
| Fixture.OfLast15Seconds | tests/DataScopesTest.php:69 | FixedCount(Second, 15), with the clock at 2023-03-31 13:15:15 and the default range exclusive, selects 2 of the 29 rows |
| Fixture.OfLast15SecondsCount | tests/DataScopesTest.php:69 | 2 rows lie in the window of FixedCount(Second, 15)'s periods counted back from the test clock |
| Fixture.OfLast30Seconds | tests/DataScopesTest.php:70 | FixedCount(Second, 30), with the clock at 2023-03-31 13:15:15 and the default range exclusive, selects 3 of the 29 rows |
| Fixture.OfLast30SecondsCount | tests/DataScopesTest.php:70 | 3 rows lie in the window of FixedCount(Second, 30)'s periods counted back from the test clock |
| Fixture.OfLast45Seconds | tests/DataScopesTest.php:71 | FixedCount(Second, 45), with the clock at 2023-03-31 13:15:15 and the default range exclusive, selects 4 of the 29 rows |
| Fixture.OfLast45SecondsCount | tests/DataScopesTest.php:71 | 4 rows lie in the window of FixedCount(Second, 45)'s periods counted back from the test clock |
| Fixture.OfLast60Seconds | tests/DataScopesTest.php:72 | FixedCount(Second, 60), with the clock at 2023-03-31 13:15:15 and the default range exclusive, selects 5 of the 29 rows |
| Fixture.OfLast60SecondsCount | tests/DataScopesTest.php:72 | 5 rows lie in the window of FixedCount(Second, 60)'s periods counted back from the test clock |
| Fixture.OfLastSeconds120 | tests/DataScopesTest.php:73 | General(Second, 120), with the clock at 2023-03-31 13:15:15 and the default range exclusive, selects 6 of the 29 rows |
| Fixture.OfLastSeconds120Count | tests/DataScopesTest.php:73 | 6 rows lie in the window of General(Second, 120)'s periods counted back from the test clock |
| Fixture.OfLastMinute | tests/DataScopesTest.php:77 | PreviousPeriod(Minute), with the clock at 2023-03-31 13:15:15 and the default range exclusive, selects 3 of the 29 rows |
| Fixture.OfLastMinuteCount | tests/DataScopesTest.php:77 | 3 rows lie in the window of PreviousPeriod(Minute)'s periods counted back from the test clock |
| Fixture.OfLast15Minutes | tests/DataScopesTest.php:78 | FixedCount(Minute, 15), with the clock at 2023-03-31 13:15:15 and the default range exclusive, selects 4 of the 29 rows |
| Fixture.OfLast15MinutesCount | tests/DataScopesTest.php:78 | 4 rows lie in the window of FixedCount(Minute, 15)'s periods counted back from the test clock |
| Fixture.OfLast30Minutes | tests/DataScopesTest.php:79 | FixedCount(Minute, 30), with the clock at 2023-03-31 13:15:15 and the default range exclusive, selects 5 of the 29 rows |
| Fixture.OfLast30MinutesCount | tests/DataScopesTest.php:79 | 5 rows lie in the window of FixedCount(Minute, 30)'s periods counted back from the test clock |
| Fixture.OfLast45Minutes | tests/DataScopesTest.php:80 | FixedCount(Minute, 45), with the clock at 2023-03-31 13:15:15 and the default range exclusive, selects 6 of the 29 rows |
| Fixture.OfLast45MinutesCount | tests/DataScopesTest.php:80 | 6 rows lie in the window of FixedCount(Minute, 45)'s periods counted back from the test clock |
| Fixture.OfLast60Minutes | tests/DataScopesTest.php:81 | FixedCount(Minute, 60), with the clock at 2023-03-31 13:15:15 and the default range exclusive, selects 7 of the 29 rows |
| Fixture.OfLast60MinutesCount | tests/DataScopesTest.php:81 | 7 rows lie in the window of FixedCount(Minute, 60)'s periods counted back from the test clock |
| Fixture.OfLastMinutes120 | tests/DataScopesTest.php:82 | General(Minute, 120), with the clock at 2023-03-31 13:15:15 and the default range exclusive, selects 8 of the 29 rows |
| Fixture.OfLastMinutes120Count | tests/DataScopesTest.php:82 | 8 rows lie in the window of General(Minute, 120)'s periods counted back from the test clock |
| Fixture.OfLastHour | tests/DataScopesTest.php:86 | PreviousPeriod(Hour), with the clock at 2023-03-31 13:15:15 and the default range exclusive, selects 3 of the 29 rows |
| Fixture.OfLastHourCount | tests/DataScopesTest.php:86 | 3 rows lie in the window of PreviousPeriod(Hour)'s periods counted back from the test clock |
| Fixture.OfLast6Hours | tests/DataScopesTest.php:87 | FixedCount(Hour, 6), with the clock at 2023-03-31 13:15:15 and the default range exclusive, selects 4 of the 29 rows |
| Fixture.OfLast6HoursCount | tests/DataScopesTest.php:87 | 4 rows lie in the window of FixedCount(Hour, 6)'s periods counted back from the test clock |
| Fixture.OfLast12Hours | tests/DataScopesTest.php:88 | FixedCount(Hour, 12), with the clock at 2023-03-31 13:15:15 and the default range exclusive, selects 5 of the 29 rows |
| Fixture.OfLast12HoursCount | tests/DataScopesTest.php:88 | 5 rows lie in the window of FixedCount(Hour, 12)'s periods counted back from the test clock |
| Fixture.OfLast18Hours | tests/DataScopesTest.php:89 | FixedCount(Hour, 18), with the clock at 2023-03-31 13:15:15 and the default range exclusive, selects 6 of the 29 rows |
| Fixture.OfLast18HoursCount | tests/DataScopesTest.php:89 | 6 rows lie in the window of FixedCount(Hour, 18)'s periods counted back from the test clock |
| Fixture.OfLast24Hours | tests/DataScopesTest.php:90 | FixedCount(Hour, 24), with the clock at 2023-03-31 13:15:15 and the default range exclusive, selects 7 of the 29 rows |
| Fixture.OfLast24HoursCount | tests/DataScopesTest.php:90 | 7 rows lie in the window of FixedCount(Hour, 24)'s periods counted back from the test clock |
| Fixture.OfLastHours48 | tests/DataScopesTest.php:91 | General(Hour, 48), with the clock at 2023-03-31 13:15:15 and the default range exclusive, selects 8 of the 29 rows |
| Fixture.OfLastHours48Count | tests/DataScopesTest.php:91 | 8 rows lie in the window of General(Hour, 48)'s periods counted back from the test clock |
| Fixture.OfToday | tests/DataScopesTest.php:95 | CurrentPeriod(Day), with the clock at 2023-03-31 13:15:15 and the default range exclusive, selects 12 of the 29 rows |
| Fixture.OfTodayCount | tests/DataScopesTest.php:95 | 12 rows lie in the window of CurrentPeriod(Day)'s periods counted back from the test clock |
| Fixture.OfYesterday | tests/DataScopesTest.php:96 | PreviousPeriod(Day), with the clock at 2023-03-31 13:15:15 and the default range exclusive, selects 2 of the 29 rows |
| Fixture.OfYesterdayCount | tests/DataScopesTest.php:96 | 2 rows lie in the window of PreviousPeriod(Day)'s periods counted back from the test clock |
| Fixture.OfLast7Days | tests/DataScopesTest.php:97 | FixedCount(Day, 7), with the clock at 2023-03-31 13:15:15 and the default range exclusive, selects 3 of the 29 rows |
| Fixture.OfLast7DaysCount | tests/DataScopesTest.php:97 | 3 rows lie in the window of FixedCount(Day, 7)'s periods counted back from the test clock |
| Fixture.OfLast14Days | tests/DataScopesTest.php:98 | FixedCount(Day, 14), with the clock at 2023-03-31 13:15:15 and the default range exclusive, selects 5 of the 29 rows |
| Fixture.OfLast14DaysCount | tests/DataScopesTest.php:98 | 5 rows lie in the window of FixedCount(Day, 14)'s periods counted back from the test clock |
| Fixture.OfLast21Days | tests/DataScopesTest.php:99 | FixedCount(Day, 21), with the clock at 2023-03-31 13:15:15 and the default range exclusive, selects 6 of the 29 rows |
| Fixture.OfLast21DaysCount | tests/DataScopesTest.php:99 | 6 rows lie in the window of FixedCount(Day, 21)'s periods counted back from the test clock |
| Fixture.OfLast30Days | tests/DataScopesTest.php:100 | FixedCount(Day, 30), with the clock at 2023-03-31 13:15:15 and the default range exclusive, selects 7 of the 29 rows |
| Fixture.OfLast30DaysCount | tests/DataScopesTest.php:100 | 7 rows lie in the window of FixedCount(Day, 30)'s periods counted back from the test clock |
| Fixture.OfLastDays48 | tests/DataScopesTest.php:101 | General(Day, 48), with the clock at 2023-03-31 13:15:15 and the default range exclusive, selects 8 of the 29 rows |
| Fixture.OfLastDays48Count | tests/DataScopesTest.php:101 | 8 rows lie in the window of General(Day, 48)'s periods counted back from the test clock |
| Fixture.OfLastWeek | tests/DataScopesTest.php:105 | PreviousPeriod(Week), with the clock at 2023-03-31 13:15:15 and the default range exclusive, selects 1 of the 29 rows |
| Fixture.OfLastWeekCount | tests/DataScopesTest.php:105 | 1 rows lie in the window of PreviousPeriod(Week)'s periods counted back from the test clock |
| Fixture.OfLast2Weeks | tests/DataScopesTest.php:106 | FixedCount(Week, 2), with the clock at 2023-03-31 13:15:15 and the default range exclusive, selects 2 of the 29 rows |
| Fixture.OfLast2WeeksCount | tests/DataScopesTest.php:106 | 2 rows lie in the window of FixedCount(Week, 2)'s periods counted back from the test clock |
| Fixture.OfLast3Weeks | tests/DataScopesTest.php:107 | FixedCount(Week, 3), with the clock at 2023-03-31 13:15:15 and the default range exclusive, selects 3 of the 29 rows |
| Fixture.OfLast3WeeksCount | tests/DataScopesTest.php:107 | 3 rows lie in the window of FixedCount(Week, 3)'s periods counted back from the test clock |
| Fixture.OfLast4Weeks | tests/DataScopesTest.php:108 | FixedCount(Week, 4), with the clock at 2023-03-31 13:15:15 and the default range exclusive, selects 4 of the 29 rows |
| Fixture.OfLast4WeeksCount | tests/DataScopesTest.php:108 | 4 rows lie in the window of FixedCount(Week, 4)'s periods counted back from the test clock |
| Fixture.OfLastWeeks8 | tests/DataScopesTest.php:109 | General(Week, 8), with the clock at 2023-03-31 13:15:15 and the default range exclusive, selects 5 of the 29 rows |
| Fixture.OfLastWeeks8Count | tests/DataScopesTest.php:109 | 5 rows lie in the window of General(Week, 8)'s periods counted back from the test clock |
| Fixture.OfLastMonth | tests/DataScopesTest.php:113 | PreviousPeriod(Month), with the clock at 2023-03-31 13:15:15 and the default range exclusive, selects 1 of the 29 rows |
| Fixture.OfLastMonthCount | tests/DataScopesTest.php:113 | 1 rows lie in the window of PreviousPeriod(Month)'s periods counted back from the test clock |
| Fixture.OfLast3Months | tests/DataScopesTest.php:114 | FixedCount(Month, 3), with the clock at 2023-03-31 13:15:15 and the default range exclusive, selects 2 of the 29 rows |
| Fixture.OfLast3MonthsCount | tests/DataScopesTest.php:114 | 2 rows lie in the window of FixedCount(Month, 3)'s periods counted back from the test clock |
| Fixture.OfLast6Months | tests/DataScopesTest.php:115 | FixedCount(Month, 6), with the clock at 2023-03-31 13:15:15 and the default range exclusive, selects 3 of the 29 rows |
| Fixture.OfLast6MonthsCount | tests/DataScopesTest.php:115 | 3 rows lie in the window of FixedCount(Month, 6)'s periods counted back from the test clock |
| Fixture.OfLast9Months | tests/DataScopesTest.php:116 | FixedCount(Month, 9), with the clock at 2023-03-31 13:15:15 and the default range exclusive, selects 4 of the 29 rows |
| Fixture.OfLast9MonthsCount | tests/DataScopesTest.php:116 | 4 rows lie in the window of FixedCount(Month, 9)'s periods counted back from the test clock |
| Fixture.OfLast12Months | tests/DataScopesTest.php:117 | FixedCount(Month, 12), with the clock at 2023-03-31 13:15:15 and the default range exclusive, selects 5 of the 29 rows |
| Fixture.OfLast12MonthsCount | tests/DataScopesTest.php:117 | 5 rows lie in the window of FixedCount(Month, 12)'s periods counted back from the test clock |
| Fixture.OfLastMonths24 | tests/DataScopesTest.php:118 | General(Month, 24), with the clock at 2023-03-31 13:15:15 and the default range exclusive, selects 6 of the 29 rows |
| Fixture.OfLastMonths24Count | tests/DataScopesTest.php:118 | 6 rows lie in the window of General(Month, 24)'s periods counted back from the test clock |
| Fixture.OfLastQuarter | tests/DataScopesTest.php:122 | PreviousPeriod(Quarter), with the clock at 2023-03-31 13:15:15 and the default range exclusive, selects 1 of the 29 rows |
| Fixture.OfLastQuarterCount | tests/DataScopesTest.php:122 | 1 rows lie in the window of PreviousPeriod(Quarter)'s periods counted back from the test clock |
| Fixture.OfLast2Quarters | tests/DataScopesTest.php:123 | FixedCount(Quarter, 2), with the clock at 2023-03-31 13:15:15 and the default range exclusive, selects 2 of the 29 rows |
| Fixture.OfLast2QuartersCount | tests/DataScopesTest.php:123 | 2 rows lie in the window of FixedCount(Quarter, 2)'s periods counted back from the test clock |
| Fixture.OfLast3Quarters | tests/DataScopesTest.php:124 | FixedCount(Quarter, 3), with the clock at 2023-03-31 13:15:15 and the default range exclusive, selects 3 of the 29 rows |
| Fixture.OfLast3QuartersCount | tests/DataScopesTest.php:124 | 3 rows lie in the window of FixedCount(Quarter, 3)'s periods counted back from the test clock |
| Fixture.OfLast4Quarters | tests/DataScopesTest.php:125 | FixedCount(Quarter, 4), with the clock at 2023-03-31 13:15:15 and the default range exclusive, selects 4 of the 29 rows |
| Fixture.OfLast4QuartersCount | tests/DataScopesTest.php:125 | 4 rows lie in the window of FixedCount(Quarter, 4)'s periods counted back from the test clock |
| Fixture.OfLastQuarters8 | tests/DataScopesTest.php:126 | General(Quarter, 8), with the clock at 2023-03-31 13:15:15 and the default range exclusive, selects 5 of the 29 rows |
| Fixture.OfLastQuarters8Count | tests/DataScopesTest.php:126 | 5 rows lie in the window of General(Quarter, 8)'s periods counted back from the test clock |
| Fixture.OfLastYear | tests/DataScopesTest.php:130 | PreviousPeriod(Year), with the clock at 2023-03-31 13:15:15 and the default range exclusive, selects 4 of the 29 rows |
| Fixture.OfLastYearCount | tests/DataScopesTest.php:130 | 4 rows lie in the window of PreviousPeriod(Year)'s periods counted back from the test clock |
| Fixture.OfLastYears2 | tests/DataScopesTest.php:131 | General(Year, 2), with the clock at 2023-03-31 13:15:15 and the default range exclusive, selects 5 of the 29 rows |
| Fixture.OfLastYears2Count | tests/DataScopesTest.php:131 | 5 rows lie in the window of General(Year, 2)'s periods counted back from the test clock |
| Fixture.OfLastDecade | tests/DataScopesTest.php:135 | PreviousPeriod(Decade), with the clock at 2023-03-31 13:15:15 and the default range exclusive, selects 1 of the 29 rows |
| Fixture.OfLastDecadeCount | tests/DataScopesTest.php:135 | 1 rows lie in the window of PreviousPeriod(Decade)'s periods counted back from the test clock |
| Fixture.OfLastDecades2 | tests/DataScopesTest.php:136 | General(Decade, 2), with the clock at 2023-03-31 13:15:15 and the default range exclusive, selects 2 of the 29 rows |
| Fixture.OfLastDecades2Count | tests/DataScopesTest.php:136 | 2 rows lie in the window of General(Decade, 2)'s periods counted back from the test clock |
| Fixture.OfLastCentury | tests/DataScopesTest.php:140 | PreviousPeriod(Century), with the clock at 2023-03-31 13:15:15 and the default range exclusive, selects 1 of the 29 rows |
| Fixture.OfLastCenturyCount | tests/DataScopesTest.php:140 | 1 rows lie in the window of PreviousPeriod(Century)'s periods counted back from the test clock |
| Fixture.OfLastCenturies2 | tests/DataScopesTest.php:141 | General(Century, 2), with the clock at 2023-03-31 13:15:15 and the default range exclusive, selects 2 of the 29 rows |
| Fixture.OfLastCenturies2Count | tests/DataScopesTest.php:141 | 2 rows lie in the window of General(Century, 2)'s periods counted back from the test clock |
| Fixture.OfLastMillennium | tests/DataScopesTest.php:145 | PreviousPeriod(Millennium), with the clock at 2023-03-31 13:15:15 and the default range exclusive, selects 2 of the 29 rows |
| Fixture.OfLastMillenniumCount | tests/DataScopesTest.php:145 | 2 rows lie in the window of PreviousPeriod(Millennium)'s periods counted back from the test clock |
| Fixture.OfLastMillenniums2 | tests/DataScopesTest.php:146 | General(Millennium, 2), with the clock at 2023-03-31 13:15:15 and the default range exclusive, selects 3 of the 29 rows |
| Fixture.OfLastMillenniums2Count | tests/DataScopesTest.php:146 | 3 rows lie in the window of General(Millennium, 2)'s periods counted back from the test clock |
| Fixture.SecondToNow | tests/DataScopesTest.php:150 | ToNow(Second), with the clock at 2023-03-31 13:15:15 and the default range exclusive, selects 1 of the 29 rows |
| Fixture.MinuteToNow | tests/DataScopesTest.php:151 | ToNow(Minute), with the clock at 2023-03-31 13:15:15 and the default range exclusive, selects 3 of the 29 rows |
| Fixture.MinuteToNowCount | tests/DataScopesTest.php:151 | 3 rows lie in the window of ToNow(Minute)'s periods counted back from the test clock |
| Fixture.HourToNow | tests/DataScopesTest.php:152 | ToNow(Hour), with the clock at 2023-03-31 13:15:15 and the default range exclusive, selects 7 of the 29 rows |
| Fixture.HourToNowCount | tests/DataScopesTest.php:152 | 7 rows lie in the window of ToNow(Hour)'s periods counted back from the test clock |
| Fixture.DayToNow | tests/DataScopesTest.php:153 | ToNow(Day), with the clock at 2023-03-31 13:15:15 and the default range exclusive, selects 12 of the 29 rows |
| Fixture.WeekToDate | tests/DataScopesTest.php:154 | ToNow(Week), with the clock at 2023-03-31 13:15:15 and the default range exclusive, selects 15 of the 29 rows |
| Fixture.WeekToDateCount | tests/DataScopesTest.php:154 | 15 rows lie in the window of ToNow(Week)'s periods counted back from the test clock |
| Fixture.MonthToDate | tests/DataScopesTest.php:155 | ToNow(Month), with the clock at 2023-03-31 13:15:15 and the default range exclusive, selects 19 of the 29 rows |
| Fixture.MonthToDateCount | tests/DataScopesTest.php:155 | 19 rows lie in the window of ToNow(Month)'s periods counted back from the test clock |
| Fixture.QuarterToDate | tests/DataScopesTest.php:156 | ToNow(Quarter), with the clock at 2023-03-31 13:15:15 and the default range exclusive, selects 20 of the 29 rows |
| Fixture.QuarterToDateCount | tests/DataScopesTest.php:156 | 20 rows lie in the window of ToNow(Quarter)'s periods counted back from the test clock |
| Fixture.YearToDate | tests/DataScopesTest.php:157 | ToNow(Year), with the clock at 2023-03-31 13:15:15 and the default range exclusive, selects 20 of the 29 rows |
| Fixture.YearToDateCount | tests/DataScopesTest.php:157 | 20 rows lie in the window of ToNow(Year)'s periods counted back from the test clock |
| Fixture.DecadeToDate | tests/DataScopesTest.php:158 | ToNow(Decade), with the clock at 2023-03-31 13:15:15 and the default range exclusive, selects 25 of the 29 rows |
| Fixture.DecadeToDateCount | tests/DataScopesTest.php:158 | 25 rows lie in the window of ToNow(Decade)'s periods counted back from the test clock |
| Fixture.CenturyToDate | tests/DataScopesTest.php:159 | ToNow(Century), with the clock at 2023-03-31 13:15:15 and the default range exclusive, selects 26 of the 29 rows |
| Fixture.CenturyToDateCount | tests/DataScopesTest.php:159 | 26 rows lie in the window of ToNow(Century)'s periods counted back from the test clock |
| Fixture.MillenniumToDate | tests/DataScopesTest.php:160 | ToNow(Millennium), with the clock at 2023-03-31 13:15:15 and the default range exclusive, selects 26 of the 29 rows |
| Fixture.MillenniumToDateCount | tests/DataScopesTest.php:160 | 26 rows lie in the window of ToNow(Millennium)'s periods counted back from the test clock |
| Fixture.InclusiveDefaultOfLast15Minutes | tests/DataScopesTest.php:166 | FixedCount(Minute, 15), with the clock at 2023-03-31 13:15:15 and the default range inclusive, selects 7 of the 29 rows |
| Fixture.InclusiveOfLast15MinutesCount | tests/DataScopesTest.php:166 | 7 rows lie in the window of FixedCount(Minute, 15)'s periods counted back from the test clock |
| Fixture.InclusiveDefaultOfLast12Hours | tests/DataScopesTest.php:167 | FixedCount(Hour, 12), with the clock at 2023-03-31 13:15:15 and the default range inclusive, selects 11 of the 29 rows |
| Fixture.InclusiveOfLast12HoursCount | tests/DataScopesTest.php:167 | 11 rows lie in the window of FixedCount(Hour, 12)'s periods counted back from the test clock |
| Fixture.InclusiveDefaultOfLast21Days | tests/DataScopesTest.php:168 | FixedCount(Day, 21), with the clock at 2023-03-31 13:15:15 and the default range inclusive, selects 17 of the 29 rows |
| Fixture.InclusiveOfLast21DaysCount | tests/DataScopesTest.php:168 | 17 rows lie in the window of FixedCount(Day, 21)'s periods counted back from the test clock |
| Fixture.InclusiveDefaultOfLast3Weeks | tests/DataScopesTest.php:169 | FixedCount(Week, 3), with the clock at 2023-03-31 13:15:15 and the default range inclusive, selects 17 of the 29 rows |
| Fixture.InclusiveOfLast3WeeksCount | tests/DataScopesTest.php:169 | 17 rows lie in the window of FixedCount(Week, 3)'s periods counted back from the test clock |
| Fixture.InclusiveDefaultOfLast12Months | tests/DataScopesTest.php:170 | FixedCount(Month, 12), with the clock at 2023-03-31 13:15:15 and the default range inclusive, selects 23 of the 29 rows |
| Fixture.InclusiveOfLast12MonthsCount | tests/DataScopesTest.php:170 | 23 rows lie in the window of FixedCount(Month, 12)'s periods counted back from the test clock |
| Fixture.InclusiveDefaultOfLastQuarters8 | tests/DataScopesTest.php:171 | General(Quarter, 8), with the clock at 2023-03-31 13:15:15 and the default range inclusive, selects 24 of the 29 rows |
| Fixture.InclusiveOfLastQuarters8Count | tests/DataScopesTest.php:171 | 24 rows lie in the window of General(Quarter, 8)'s periods counted back from the test clock |
| Fixture.InclusiveDefaultOfLastYear | tests/DataScopesTest.php:172 | PreviousPeriod(Year), with the clock at 2023-03-31 13:15:15 and the default range inclusive, selects 4 of the 29 rows |
| Fixture.InclusiveDefaultOfLastDecade | tests/DataScopesTest.php:173 | PreviousPeriod(Decade), with the clock at 2023-03-31 13:15:15 and the default range inclusive, selects 1 of the 29 rows |
| Fixture.InclusiveDefaultOfLastCentury | tests/DataScopesTest.php:174 | PreviousPeriod(Century), with the clock at 2023-03-31 13:15:15 and the default range inclusive, selects 1 of the 29 rows |
| Fixture.InclusiveDefaultOfLastMillennium | tests/DataScopesTest.php:175 | PreviousPeriod(Millennium), with the clock at 2023-03-31 13:15:15 and the default range inclusive, selects 2 of the 29 rows |
| Fixture.InclusiveArgumentOfLast15Minutes | tests/DataScopesTest.php:179 | FixedCount(Minute, 15) called with inclusive mode, with the clock at 2023-03-31 13:15:15 and the default range exclusive, selects 7 of the 29 rows |
| Fixture.InclusiveArgumentOfLast12Hours | tests/DataScopesTest.php:180 | FixedCount(Hour, 12) called with inclusive mode, with the clock at 2023-03-31 13:15:15 and the default range exclusive, selects 11 of the 29 rows |
| Fixture.InclusiveArgumentOfLast21Days | tests/DataScopesTest.php:181 | FixedCount(Day, 21) called with inclusive mode, with the clock at 2023-03-31 13:15:15 and the default range exclusive, selects 17 of the 29 rows |
| Fixture.InclusiveArgumentOfLast3Weeks | tests/DataScopesTest.php:182 | FixedCount(Week, 3) called with inclusive mode, with the clock at 2023-03-31 13:15:15 and the default range exclusive, selects 17 of the 29 rows |
| Fixture.InclusiveArgumentOfLast12Months | tests/DataScopesTest.php:183 | FixedCount(Month, 12) called with inclusive mode, with the clock at 2023-03-31 13:15:15 and the default range exclusive, selects 23 of the 29 rows |
| Fixture.InclusiveArgumentOfLastQuarters8 | tests/DataScopesTest.php:184 | General(Quarter, 8) called with inclusive mode, with the clock at 2023-03-31 13:15:15 and the default range exclusive, selects 24 of the 29 rows |

## Left out

- Query building: the Eloquent builder, the `whereBetween` SQL and the database are not modelled. The model filters a sequence of instants by the same closed interval.
- Parsing of `$startFrom`. `CarbonImmutable::parse` accepts any parseable value. The model takes an already valid `DateTime`, or none.
- Run-time method names: `'startOf'.ucfirst($dateUnit)` and its siblings are modelled as functions over the `Unit` datatype. A unit string outside the eleven Carbon units, which would fail at run time, is not modelled.
- Time zones, daylight-saving changes and sub-second precision. Instants are whole seconds in one fixed zone. Carbon's `endOf…` ends at .999999 seconds; the model ends at the last whole second. That makes no difference to a filter on whole-second values.
- Loading the configuration from the environment (`env(...)`) and the service provider are not modelled. The configuration is a parameter, and `DefaultConfig` is the shipped default.
- The exception types are not modelled. `DateException::invalidValue()` and the `ValueError` of `DateRange::from` are the error values `InvalidValue` and `NotADateRange`.
- Decades, centuries and millenniums before year 1. Carbon's `startOfDecade` and its siblings use PHP's truncating `%`, and the model uses Dafny's Euclidean `%`. The two agree for every year from 1 on, which covers all the fixture's values.
- Presets: the 61 named scope methods (the trait's 62 `scope…` methods less `scopeOfLastUnit`) are modelled as the five families of `Presets.Preset`, with `Exists` naming the unit and count combinations that have a method. `BindingOf` gives each family its delegation.
- The "inclusive fluent" test (tests/DataScopesTest.php:178-185), read as text: as written, `ofLast15Minutes(DateRange::INCLUSIVE)` passes the enum case positionally as `$startFrom` (src/DateScopes.php:172) and leaves `$customRange` null. What `CarbonImmutable::parse` makes of an enum case is outside this model. The `Fixture.InclusiveArgument…` lemmas model the call the test's title describes, `Call(None, Some(Inclusive), None)`.
- Integer width: `$value` is a 64-bit PHP `int`, and Carbon handles a bounded range of years. The model's counts and years are unbounded. So a count too large for Carbon, such as `ofLastSeconds(PHP_INT_MAX)`, which fails or misbehaves in PHP, gives an ordinary range in the model.
- Week start: weeks begin on Monday, Carbon's default. A different first day of the week configured in Carbon, or taken from its locale, is not modelled.
- Fixture: the clock is described by its position, that is its seconds and month index (`AtTestNow`), and not written as a literal date. `TestNowIsOneInstant` proves the two descriptions name the same instant.
