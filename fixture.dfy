/**
 The test fixture: 29 rows with fixed created-at instants, and a clock
 stopped at 2023-03-31 13:15:15, the instant of the first row. Every count
 the test suite expects of a scope is stated here as a lemma: the number of
 rows inside the scope's range.
 */
module Fixture {
  import opened Wrappers
  import opened Calendar
  import opened Units
  import opened DateRanges
  import opened DateScopes
  import opened Presets

  const RowCount := 29

  /** The created-at instant of row k, with its position in seconds and in months. */
  function Row(k: int): (r: DateTime)
    requires 0 <= k < RowCount
    ensures r.Valid() && Seconds(r) == RowSeconds(k) && MonthIndex(r) == RowMonth(k)
  {
    if k < 8 then RowsOfLastHour(k)
    else if k < 15 then RowsOfLastDays(k)
    else if k < 20 then RowsOfLastWeeks(k)
    else if k < 25 then RowsOfLastYears(k)
    else if k < 28 then OldestRows(k)
    else FirstDayRow(k)
  }

  /** Rows 0 to 7: the last hour before the clock. */
  function RowsOfLastHour(k: int): (r: DateTime)
    requires 0 <= k < 8
    ensures r.Valid() && Seconds(r) == RowSeconds(k) && MonthIndex(r) == RowMonth(k)
  {
    if k < 4 then
      if k < 2 then
        if k < 1 then
          var r := DateTime(2023, 3, 31, 13, 15, 15); assert DayNumber(r) == 738609; r
        else
          var r := DateTime(2023, 3, 31, 13, 15, 14); assert DayNumber(r) == 738609; r
      else
        if k < 3 then
          var r := DateTime(2023, 3, 31, 13, 15, 0); assert DayNumber(r) == 738609; r
        else
          var r := DateTime(2023, 3, 31, 13, 13, 15); assert DayNumber(r) == 738609; r
    else
      if k < 6 then
        if k < 5 then
          var r := DateTime(2023, 3, 31, 13, 14, 45); assert DayNumber(r) == 738609; r
        else
          var r := DateTime(2023, 3, 31, 13, 14, 30); assert DayNumber(r) == 738609; r
      else
        if k < 7 then
          var r := DateTime(2023, 3, 31, 13, 14, 15); assert DayNumber(r) == 738609; r
        else
          var r := DateTime(2023, 3, 31, 12, 45, 0); assert DayNumber(r) == 738609; r
  }

  /** Rows 8 to 14: from 2023-03-31 12:30 back to 2023-03-29. */
  function RowsOfLastDays(k: int): (r: DateTime)
    requires 8 <= k < 15
    ensures r.Valid() && Seconds(r) == RowSeconds(k) && MonthIndex(r) == RowMonth(k)
  {
    if k < 11 then
      if k < 9 then
        var r := DateTime(2023, 3, 31, 12, 30, 0); assert DayNumber(r) == 738609; r
      else
        if k < 10 then
          var r := DateTime(2023, 3, 31, 12, 15, 0); assert DayNumber(r) == 738609; r
        else
          var r := DateTime(2023, 3, 31, 11, 15, 0); assert DayNumber(r) == 738609; r
    else
      if k < 13 then
        if k < 12 then
          var r := DateTime(2023, 3, 31, 1, 0, 0); assert DayNumber(r) == 738609; r
        else
          var r := DateTime(2023, 3, 30, 19, 0, 0); assert DayNumber(r) == 738608; r
      else
        if k < 14 then
          var r := DateTime(2023, 3, 30, 13, 0, 0); assert DayNumber(r) == 738608; r
        else
          var r := DateTime(2023, 3, 29, 13, 0, 0); assert DayNumber(r) == 738607; r
  }

  /** Rows 15 to 19: from 2023-03-20 back to 2023-02-11. */
  function RowsOfLastWeeks(k: int): (r: DateTime)
    requires 15 <= k < 20
    ensures r.Valid() && Seconds(r) == RowSeconds(k) && MonthIndex(r) == RowMonth(k)
  {
    if k < 17 then
      if k < 16 then
        var r := DateTime(2023, 3, 20, 0, 0, 0); assert DayNumber(r) == 738598; r
      else
        var r := DateTime(2023, 3, 17, 0, 0, 0); assert DayNumber(r) == 738595; r
    else
      if k < 18 then
        var r := DateTime(2023, 3, 10, 0, 0, 0); assert DayNumber(r) == 738588; r
      else
        if k < 19 then
          var r := DateTime(2023, 3, 1, 0, 0, 0); assert DayNumber(r) == 738579; r
        else
          var r := DateTime(2023, 2, 11, 0, 0, 0); assert DayNumber(r) == 738561; r
  }

  /** Rows 20 to 24: from 2022-12-01 back to 2021-03-01. */
  function RowsOfLastYears(k: int): (r: DateTime)
    requires 20 <= k < 25
    ensures r.Valid() && Seconds(r) == RowSeconds(k) && MonthIndex(r) == RowMonth(k)
  {
    if k < 22 then
      if k < 21 then
        var r := DateTime(2022, 12, 1, 0, 0, 0); assert DayNumber(r) == 738489; r
      else
        var r := DateTime(2022, 9, 1, 0, 0, 0); assert DayNumber(r) == 738398; r
    else
      if k < 23 then
        var r := DateTime(2022, 6, 1, 0, 0, 0); assert DayNumber(r) == 738306; r
      else
        if k < 24 then
          var r := DateTime(2022, 3, 1, 0, 0, 0); assert DayNumber(r) == 738214; r
        else
          var r := DateTime(2021, 3, 1, 0, 0, 0); assert DayNumber(r) == 737849; r
  }

  /** Rows 25 to 27: 2010-01-01, 2000-01-01 and 1801-01-01. */
  function OldestRows(k: int): (r: DateTime)
    requires 25 <= k < 28
    ensures r.Valid() && Seconds(r) == RowSeconds(k) && MonthIndex(r) == RowMonth(k)
  {
    if k < 26 then
      var r := DateTime(2010, 1, 1, 0, 0, 0); assert DayNumber(r) == 733772; r
    else
      if k < 27 then
        var r := DateTime(2000, 1, 1, 0, 0, 0); assert DayNumber(r) == 730119; r
      else
        var r := DateTime(1801, 1, 1, 0, 0, 0); assert DayNumber(r) == 657436; r
  }

  /** Row 28: 0001-01-01, day 0 of the timeline. */
  function FirstDayRow(k: int): (r: DateTime)
    requires k == 28
    ensures r.Valid() && Seconds(r) == RowSeconds(k) && MonthIndex(r) == RowMonth(k)
  {
    DateTime(1, 1, 1, 0, 0, 0)
  }

  // The two tables below are written as balanced if-trees rather than as
  // sequence literals: the verifier reads one entry in a few case splits,
  // where indexing a 29-element literal costs far more.

  /** Seconds from 0001-01-01 00:00:00 to the instant of row k. */
  function RowSeconds(k: int): int
    requires 0 <= k < RowCount
  {
    if k < 14 then
      if k < 7 then
        if k < 3 then
          if k < 1 then
            63815865315
          else
            if k < 2 then
              63815865314
            else
              63815865300
        else
          if k < 5 then
            if k < 4 then
              63815865195
            else
              63815865285
          else
            if k < 6 then
              63815865270
            else
              63815865255
      else
        if k < 10 then
          if k < 8 then
            63815863500
          else
            if k < 9 then
              63815862600
            else
              63815861700
        else
          if k < 12 then
            if k < 11 then
              63815858100
            else
              63815821200
          else
            if k < 13 then
              63815799600
            else
              63815778000
    else
      if k < 21 then
        if k < 17 then
          if k < 15 then
            63815691600
          else
            if k < 16 then
              63814867200
            else
              63814608000
        else
          if k < 19 then
            if k < 18 then
              63814003200
            else
              63813225600
          else
            if k < 20 then
              63811670400
            else
              63805449600
      else
        if k < 25 then
          if k < 23 then
            if k < 22 then
              63797587200
            else
              63789638400
          else
            if k < 24 then
              63781689600
            else
              63750153600
        else
          if k < 27 then
            if k < 26 then
              63397900800
            else
              63082281600
          else
            if k < 28 then
              56802470400
            else
              0
  }

  /** The month index of row k. */
  function RowMonth(k: int): int
    requires 0 <= k < RowCount
  {
    if k < 14 then
      if k < 7 then
        if k < 3 then
          if k < 1 then
            24278
          else
            if k < 2 then
              24278
            else
              24278
        else
          if k < 5 then
            if k < 4 then
              24278
            else
              24278
          else
            if k < 6 then
              24278
            else
              24278
      else
        if k < 10 then
          if k < 8 then
            24278
          else
            if k < 9 then
              24278
            else
              24278
        else
          if k < 12 then
            if k < 11 then
              24278
            else
              24278
          else
            if k < 13 then
              24278
            else
              24278
    else
      if k < 21 then
        if k < 17 then
          if k < 15 then
            24278
          else
            if k < 16 then
              24278
            else
              24278
        else
          if k < 19 then
            if k < 18 then
              24278
            else
              24278
          else
            if k < 20 then
              24277
            else
              24275
      else
        if k < 25 then
          if k < 23 then
            if k < 22 then
              24272
            else
              24269
          else
            if k < 24 then
              24266
            else
              24254
        else
          if k < 27 then
            if k < 26 then
              24120
            else
              24000
          else
            if k < 28 then
              21612
            else
              12
  }

  /** The clock during the tests stands at 2023-03-31 13:15:15: the
      instant of row 0, given by its position in seconds and in months. */
  predicate AtTestNow(now: DateTime) {
    now.Valid() && Seconds(now) == 63815865315 && MonthIndex(now) == 24278
  }

  /** That describes one instant and no other. */
  lemma TestNowIsOneInstant(now: DateTime)
    ensures AtTestNow(now) <==> now == DateTime(2023, 3, 31, 13, 15, 15)
  {
    var start := Row(0);
    assert start == DateTime(2023, 3, 31, 13, 15, 15);
    if AtTestNow(now) {
      SecondsInjective(now, start);
    }
  }

  /** The configuration of the test suite, with the clock and the default range given. */
  function EnvAt(now: DateTime, defaultRange: DateRange): Env {
    Env(now, Config(defaultRange.Value(), "created_at"), "created_at")
  }

  /** A scope called with no arguments. */
  function NoArgs(): Call { Call(None, None, None) }

  /** The fixture as a sequence: row k at index k. */
  function Rows(): (xs: seq<DateTime>)
    ensures |xs| == RowCount && AllValid(xs)
    ensures forall i :: 0 <= i < RowCount ==> Seconds(xs[i]) == RowSeconds(i) && MonthIndex(xs[i]) == RowMonth(i)
  {
    seq(RowCount, i requires 0 <= i < RowCount => Row(i))
  }

  /** Position of row k for unit u, read from the tables. */
  function RowPosition(u: Unit, k: int): int
    requires 0 <= k < RowCount
  {
    if IsFixedLength(u) then RowSeconds(k) else RowMonth(k)
  }

  /** The number of rows from row k on whose period of unit u lies
      between lo and hi. */
  function CountPeriods(u: Unit, lo: int, hi: int, k: int): (n: nat)
    requires 0 <= k <= RowCount
    decreases RowCount - k
    ensures n <= RowCount - k
  {
    if k == RowCount then 0
    else (if lo <= PeriodOf(u, RowPosition(u, k)) <= hi then 1 else 0) + CountPeriods(u, lo, hi, k + 1)
  }

  /** The rows from row k on whose period lies between lo and hi are as
      many as the tables count. */
  lemma {:induction false} InPeriodsOfRows(u: Unit, lo: int, hi: int, k: int)
    requires 0 <= k <= RowCount
    decreases RowCount - k
    ensures |InPeriods(u, lo, hi, Rows()[k..])| == CountPeriods(u, lo, hi, k)
  {
    if k < RowCount {
      InPeriodsOfRows(u, lo, hi, k + 1);
      assert Rows()[k..][1..] == Rows()[k + 1..];
      assert Position(u, Rows()[k..][0]) == RowPosition(u, k);
    }
  }

  /** The same for the whole fixture, unit by unit. */
  lemma InPeriodsOfAllRows(u: Unit, lo: int, hi: int)
    ensures |InPeriods(u, lo, hi, Rows())| == CountPeriods(u, lo, hi, 0)
  {
    assert Rows()[0..] == Rows();
    match u
    case Second => InPeriodsOfRows(Second, lo, hi, 0);
    case Minute => InPeriodsOfRows(Minute, lo, hi, 0);
    case Hour => InPeriodsOfRows(Hour, lo, hi, 0);
    case Day => InPeriodsOfRows(Day, lo, hi, 0);
    case Week => InPeriodsOfRows(Week, lo, hi, 0);
    case Month => InPeriodsOfRows(Month, lo, hi, 0);
    case Quarter => InPeriodsOfRows(Quarter, lo, hi, 0);
    case Year => InPeriodsOfRows(Year, lo, hi, 0);
    case Decade => InPeriodsOfRows(Decade, lo, hi, 0);
    case Century => InPeriodsOfRows(Century, lo, hi, 0);
    case Millennium => InPeriodsOfRows(Millennium, lo, hi, 0);
  }

  /** The number of rows a scope selects, or -1 when it is refused. */
  function Selected(p: Preset, call: Call, env: Env): int
    requires CallValid(call, env)
  {
    match Apply(p, call, env)
    case Ok(s) => |Where(s.range, Rows())|
    case Err(_) => -1
  }

  /** A scope that is not refused selects the rows whose period lies in
      its window. */
  lemma SelectedInWindow(p: Preset, call: Call, env: Env)
    requires CallValid(call, env) && BindingOf(p).count > 0 && ModeOf(p, call, env).Some?
    ensures var w := Window(p.unit, BindingOf(p).count, PresetAnchor(p, call, env), ModeOf(p, call, env).value);
            Selected(p, call, env) == |InPeriods(p.unit, w.0, w.1, Rows())|
  {
    ApplyComputes(p, call, env);
    WhereIsInWindow(p.unit, BindingOf(p).count, PresetAnchor(p, call, env), ModeOf(p, call, env).value, Rows());
  }

  lemma OfJustNowCount(now: DateTime)
    requires AtTestNow(now)
    ensures CountPeriods(Second, PeriodIndex(Second, now), PeriodIndex(Second, now), 0) == 1
  {
    assert PeriodIndex(Second, now) == 63815865315;
    assert CountPeriods(Second, 63815865315, 63815865315, 26) == 0;
    assert CountPeriods(Second, 63815865315, 63815865315, 23) == 0;
    assert CountPeriods(Second, 63815865315, 63815865315, 20) == 0;
    assert CountPeriods(Second, 63815865315, 63815865315, 17) == 0;
    assert CountPeriods(Second, 63815865315, 63815865315, 14) == 0;
    assert CountPeriods(Second, 63815865315, 63815865315, 11) == 0;
    assert CountPeriods(Second, 63815865315, 63815865315, 8) == 0;
    assert CountPeriods(Second, 63815865315, 63815865315, 5) == 0;
    assert CountPeriods(Second, 63815865315, 63815865315, 2) == 0;
  }
  lemma OfJustNow(now: DateTime)
    requires AtTestNow(now)
    ensures Selected(CurrentPeriod(Second), NoArgs(), EnvAt(now, Exclusive)) == 1
  {
    assert PeriodIndex(Second, now) == 63815865315;
    assert PresetAnchor(CurrentPeriod(Second), NoArgs(), EnvAt(now, Exclusive)) == now;
    assert ModeOf(CurrentPeriod(Second), NoArgs(), EnvAt(now, Exclusive)) == Some(Inclusive);
    SelectedInWindow(CurrentPeriod(Second), NoArgs(), EnvAt(now, Exclusive));
    InPeriodsOfAllRows(Second, PeriodIndex(Second, now), PeriodIndex(Second, now));
    OfJustNowCount(now);
  }
  lemma OfLastSecondCount(now: DateTime)
    requires AtTestNow(now)
    ensures CountPeriods(Second, PeriodIndex(Second, now) - 1, PeriodIndex(Second, now) - 1, 0) == 1
  {
    assert PeriodIndex(Second, now) == 63815865315;
    assert CountPeriods(Second, 63815865314, 63815865314, 26) == 0;
    assert CountPeriods(Second, 63815865314, 63815865314, 23) == 0;
    assert CountPeriods(Second, 63815865314, 63815865314, 20) == 0;
    assert CountPeriods(Second, 63815865314, 63815865314, 17) == 0;
    assert CountPeriods(Second, 63815865314, 63815865314, 14) == 0;
    assert CountPeriods(Second, 63815865314, 63815865314, 11) == 0;
    assert CountPeriods(Second, 63815865314, 63815865314, 8) == 0;
    assert CountPeriods(Second, 63815865314, 63815865314, 5) == 0;
    assert CountPeriods(Second, 63815865314, 63815865314, 2) == 0;
  }
  lemma OfLastSecond(now: DateTime)
    requires AtTestNow(now)
    ensures Selected(PreviousPeriod(Second), NoArgs(), EnvAt(now, Exclusive)) == 1
  {
    assert PeriodIndex(Second, now) == 63815865315;
    assert PresetAnchor(PreviousPeriod(Second), NoArgs(), EnvAt(now, Exclusive)) == now;
    assert ModeOf(PreviousPeriod(Second), NoArgs(), EnvAt(now, Exclusive)) == Some(Exclusive);
    SelectedInWindow(PreviousPeriod(Second), NoArgs(), EnvAt(now, Exclusive));
    InPeriodsOfAllRows(Second, PeriodIndex(Second, now) - 1, PeriodIndex(Second, now) - 1);
    OfLastSecondCount(now);
  }
  lemma OfLast15SecondsCount(now: DateTime)
    requires AtTestNow(now)
    ensures CountPeriods(Second, PeriodIndex(Second, now) - 15, PeriodIndex(Second, now) - 1, 0) == 2
  {
    assert PeriodIndex(Second, now) == 63815865315;
    assert CountPeriods(Second, 63815865300, 63815865314, 26) == 0;
    assert CountPeriods(Second, 63815865300, 63815865314, 23) == 0;
    assert CountPeriods(Second, 63815865300, 63815865314, 20) == 0;
    assert CountPeriods(Second, 63815865300, 63815865314, 17) == 0;
    assert CountPeriods(Second, 63815865300, 63815865314, 14) == 0;
    assert CountPeriods(Second, 63815865300, 63815865314, 11) == 0;
    assert CountPeriods(Second, 63815865300, 63815865314, 8) == 0;
    assert CountPeriods(Second, 63815865300, 63815865314, 5) == 0;
    assert CountPeriods(Second, 63815865300, 63815865314, 2) == 1;
  }
  lemma OfLast15Seconds(now: DateTime)
    requires AtTestNow(now)
    ensures Selected(FixedCount(Second, 15), NoArgs(), EnvAt(now, Exclusive)) == 2
  {
    assert PeriodIndex(Second, now) == 63815865315;
    assert PresetAnchor(FixedCount(Second, 15), NoArgs(), EnvAt(now, Exclusive)) == now;
    assert ModeOf(FixedCount(Second, 15), NoArgs(), EnvAt(now, Exclusive)) == Some(Exclusive);
    SelectedInWindow(FixedCount(Second, 15), NoArgs(), EnvAt(now, Exclusive));
    InPeriodsOfAllRows(Second, PeriodIndex(Second, now) - 15, PeriodIndex(Second, now) - 1);
    OfLast15SecondsCount(now);
  }
  lemma OfLast30SecondsCount(now: DateTime)
    requires AtTestNow(now)
    ensures CountPeriods(Second, PeriodIndex(Second, now) - 30, PeriodIndex(Second, now) - 1, 0) == 3
  {
    assert PeriodIndex(Second, now) == 63815865315;
    assert CountPeriods(Second, 63815865285, 63815865314, 26) == 0;
    assert CountPeriods(Second, 63815865285, 63815865314, 23) == 0;
    assert CountPeriods(Second, 63815865285, 63815865314, 20) == 0;
    assert CountPeriods(Second, 63815865285, 63815865314, 17) == 0;
    assert CountPeriods(Second, 63815865285, 63815865314, 14) == 0;
    assert CountPeriods(Second, 63815865285, 63815865314, 11) == 0;
    assert CountPeriods(Second, 63815865285, 63815865314, 8) == 0;
    assert CountPeriods(Second, 63815865285, 63815865314, 5) == 0;
    assert CountPeriods(Second, 63815865285, 63815865314, 2) == 2;
  }
  lemma OfLast30Seconds(now: DateTime)
    requires AtTestNow(now)
    ensures Selected(FixedCount(Second, 30), NoArgs(), EnvAt(now, Exclusive)) == 3
  {
    assert PeriodIndex(Second, now) == 63815865315;
    assert PresetAnchor(FixedCount(Second, 30), NoArgs(), EnvAt(now, Exclusive)) == now;
    assert ModeOf(FixedCount(Second, 30), NoArgs(), EnvAt(now, Exclusive)) == Some(Exclusive);
    SelectedInWindow(FixedCount(Second, 30), NoArgs(), EnvAt(now, Exclusive));
    InPeriodsOfAllRows(Second, PeriodIndex(Second, now) - 30, PeriodIndex(Second, now) - 1);
    OfLast30SecondsCount(now);
  }
  lemma OfLast45SecondsCount(now: DateTime)
    requires AtTestNow(now)
    ensures CountPeriods(Second, PeriodIndex(Second, now) - 45, PeriodIndex(Second, now) - 1, 0) == 4
  {
    assert PeriodIndex(Second, now) == 63815865315;
    assert CountPeriods(Second, 63815865270, 63815865314, 26) == 0;
    assert CountPeriods(Second, 63815865270, 63815865314, 23) == 0;
    assert CountPeriods(Second, 63815865270, 63815865314, 20) == 0;
    assert CountPeriods(Second, 63815865270, 63815865314, 17) == 0;
    assert CountPeriods(Second, 63815865270, 63815865314, 14) == 0;
    assert CountPeriods(Second, 63815865270, 63815865314, 11) == 0;
    assert CountPeriods(Second, 63815865270, 63815865314, 8) == 0;
    assert CountPeriods(Second, 63815865270, 63815865314, 5) == 1;
    assert CountPeriods(Second, 63815865270, 63815865314, 2) == 3;
  }
  lemma OfLast45Seconds(now: DateTime)
    requires AtTestNow(now)
    ensures Selected(FixedCount(Second, 45), NoArgs(), EnvAt(now, Exclusive)) == 4
  {
    assert PeriodIndex(Second, now) == 63815865315;
    assert PresetAnchor(FixedCount(Second, 45), NoArgs(), EnvAt(now, Exclusive)) == now;
    assert ModeOf(FixedCount(Second, 45), NoArgs(), EnvAt(now, Exclusive)) == Some(Exclusive);
    SelectedInWindow(FixedCount(Second, 45), NoArgs(), EnvAt(now, Exclusive));
    InPeriodsOfAllRows(Second, PeriodIndex(Second, now) - 45, PeriodIndex(Second, now) - 1);
    OfLast45SecondsCount(now);
  }
  lemma OfLast60SecondsCount(now: DateTime)
    requires AtTestNow(now)
    ensures CountPeriods(Second, PeriodIndex(Second, now) - 60, PeriodIndex(Second, now) - 1, 0) == 5
  {
    assert PeriodIndex(Second, now) == 63815865315;
    assert CountPeriods(Second, 63815865255, 63815865314, 26) == 0;
    assert CountPeriods(Second, 63815865255, 63815865314, 23) == 0;
    assert CountPeriods(Second, 63815865255, 63815865314, 20) == 0;
    assert CountPeriods(Second, 63815865255, 63815865314, 17) == 0;
    assert CountPeriods(Second, 63815865255, 63815865314, 14) == 0;
    assert CountPeriods(Second, 63815865255, 63815865314, 11) == 0;
    assert CountPeriods(Second, 63815865255, 63815865314, 8) == 0;
    assert CountPeriods(Second, 63815865255, 63815865314, 5) == 2;
    assert CountPeriods(Second, 63815865255, 63815865314, 2) == 4;
  }
  lemma OfLast60Seconds(now: DateTime)
    requires AtTestNow(now)
    ensures Selected(FixedCount(Second, 60), NoArgs(), EnvAt(now, Exclusive)) == 5
  {
    assert PeriodIndex(Second, now) == 63815865315;
    assert PresetAnchor(FixedCount(Second, 60), NoArgs(), EnvAt(now, Exclusive)) == now;
    assert ModeOf(FixedCount(Second, 60), NoArgs(), EnvAt(now, Exclusive)) == Some(Exclusive);
    SelectedInWindow(FixedCount(Second, 60), NoArgs(), EnvAt(now, Exclusive));
    InPeriodsOfAllRows(Second, PeriodIndex(Second, now) - 60, PeriodIndex(Second, now) - 1);
    OfLast60SecondsCount(now);
  }
  lemma OfLastSeconds120Count(now: DateTime)
    requires AtTestNow(now)
    ensures CountPeriods(Second, PeriodIndex(Second, now) - 120, PeriodIndex(Second, now) - 1, 0) == 6
  {
    assert PeriodIndex(Second, now) == 63815865315;
    assert CountPeriods(Second, 63815865195, 63815865314, 26) == 0;
    assert CountPeriods(Second, 63815865195, 63815865314, 23) == 0;
    assert CountPeriods(Second, 63815865195, 63815865314, 20) == 0;
    assert CountPeriods(Second, 63815865195, 63815865314, 17) == 0;
    assert CountPeriods(Second, 63815865195, 63815865314, 14) == 0;
    assert CountPeriods(Second, 63815865195, 63815865314, 11) == 0;
    assert CountPeriods(Second, 63815865195, 63815865314, 8) == 0;
    assert CountPeriods(Second, 63815865195, 63815865314, 5) == 2;
    assert CountPeriods(Second, 63815865195, 63815865314, 2) == 5;
  }
  lemma OfLastSeconds120(now: DateTime)
    requires AtTestNow(now)
    ensures Selected(General(Second, 120), NoArgs(), EnvAt(now, Exclusive)) == 6
  {
    assert PeriodIndex(Second, now) == 63815865315;
    assert PresetAnchor(General(Second, 120), NoArgs(), EnvAt(now, Exclusive)) == now;
    assert ModeOf(General(Second, 120), NoArgs(), EnvAt(now, Exclusive)) == Some(Exclusive);
    SelectedInWindow(General(Second, 120), NoArgs(), EnvAt(now, Exclusive));
    InPeriodsOfAllRows(Second, PeriodIndex(Second, now) - 120, PeriodIndex(Second, now) - 1);
    OfLastSeconds120Count(now);
  }
  lemma OfLastMinuteCount(now: DateTime)
    requires AtTestNow(now)
    ensures CountPeriods(Minute, PeriodIndex(Minute, now) - 1, PeriodIndex(Minute, now) - 1, 0) == 3
  {
    assert PeriodIndex(Minute, now) == 1063597755;
    assert CountPeriods(Minute, 1063597754, 1063597754, 26) == 0;
    assert CountPeriods(Minute, 1063597754, 1063597754, 23) == 0;
    assert CountPeriods(Minute, 1063597754, 1063597754, 20) == 0;
    assert CountPeriods(Minute, 1063597754, 1063597754, 17) == 0;
    assert CountPeriods(Minute, 1063597754, 1063597754, 14) == 0;
    assert CountPeriods(Minute, 1063597754, 1063597754, 11) == 0;
    assert CountPeriods(Minute, 1063597754, 1063597754, 8) == 0;
    assert CountPeriods(Minute, 1063597754, 1063597754, 5) == 2;
    assert CountPeriods(Minute, 1063597754, 1063597754, 2) == 3;
  }
  lemma OfLastMinute(now: DateTime)
    requires AtTestNow(now)
    ensures Selected(PreviousPeriod(Minute), NoArgs(), EnvAt(now, Exclusive)) == 3
  {
    assert PeriodIndex(Minute, now) == 1063597755;
    assert PresetAnchor(PreviousPeriod(Minute), NoArgs(), EnvAt(now, Exclusive)) == now;
    assert ModeOf(PreviousPeriod(Minute), NoArgs(), EnvAt(now, Exclusive)) == Some(Exclusive);
    SelectedInWindow(PreviousPeriod(Minute), NoArgs(), EnvAt(now, Exclusive));
    InPeriodsOfAllRows(Minute, PeriodIndex(Minute, now) - 1, PeriodIndex(Minute, now) - 1);
    OfLastMinuteCount(now);
  }
  lemma OfLast15MinutesCount(now: DateTime)
    requires AtTestNow(now)
    ensures CountPeriods(Minute, PeriodIndex(Minute, now) - 15, PeriodIndex(Minute, now) - 1, 0) == 4
  {
    assert PeriodIndex(Minute, now) == 1063597755;
    assert CountPeriods(Minute, 1063597740, 1063597754, 26) == 0;
    assert CountPeriods(Minute, 1063597740, 1063597754, 23) == 0;
    assert CountPeriods(Minute, 1063597740, 1063597754, 20) == 0;
    assert CountPeriods(Minute, 1063597740, 1063597754, 17) == 0;
    assert CountPeriods(Minute, 1063597740, 1063597754, 14) == 0;
    assert CountPeriods(Minute, 1063597740, 1063597754, 11) == 0;
    assert CountPeriods(Minute, 1063597740, 1063597754, 8) == 0;
    assert CountPeriods(Minute, 1063597740, 1063597754, 5) == 2;
    assert CountPeriods(Minute, 1063597740, 1063597754, 2) == 4;
  }
  lemma OfLast15Minutes(now: DateTime)
    requires AtTestNow(now)
    ensures Selected(FixedCount(Minute, 15), NoArgs(), EnvAt(now, Exclusive)) == 4
  {
    assert PeriodIndex(Minute, now) == 1063597755;
    assert PresetAnchor(FixedCount(Minute, 15), NoArgs(), EnvAt(now, Exclusive)) == now;
    assert ModeOf(FixedCount(Minute, 15), NoArgs(), EnvAt(now, Exclusive)) == Some(Exclusive);
    SelectedInWindow(FixedCount(Minute, 15), NoArgs(), EnvAt(now, Exclusive));
    InPeriodsOfAllRows(Minute, PeriodIndex(Minute, now) - 15, PeriodIndex(Minute, now) - 1);
    OfLast15MinutesCount(now);
  }
  lemma OfLast30MinutesCount(now: DateTime)
    requires AtTestNow(now)
    ensures CountPeriods(Minute, PeriodIndex(Minute, now) - 30, PeriodIndex(Minute, now) - 1, 0) == 5
  {
    assert PeriodIndex(Minute, now) == 1063597755;
    assert CountPeriods(Minute, 1063597725, 1063597754, 26) == 0;
    assert CountPeriods(Minute, 1063597725, 1063597754, 23) == 0;
    assert CountPeriods(Minute, 1063597725, 1063597754, 20) == 0;
    assert CountPeriods(Minute, 1063597725, 1063597754, 17) == 0;
    assert CountPeriods(Minute, 1063597725, 1063597754, 14) == 0;
    assert CountPeriods(Minute, 1063597725, 1063597754, 11) == 0;
    assert CountPeriods(Minute, 1063597725, 1063597754, 8) == 0;
    assert CountPeriods(Minute, 1063597725, 1063597754, 5) == 3;
    assert CountPeriods(Minute, 1063597725, 1063597754, 2) == 5;
  }
  lemma OfLast30Minutes(now: DateTime)
    requires AtTestNow(now)
    ensures Selected(FixedCount(Minute, 30), NoArgs(), EnvAt(now, Exclusive)) == 5
  {
    assert PeriodIndex(Minute, now) == 1063597755;
    assert PresetAnchor(FixedCount(Minute, 30), NoArgs(), EnvAt(now, Exclusive)) == now;
    assert ModeOf(FixedCount(Minute, 30), NoArgs(), EnvAt(now, Exclusive)) == Some(Exclusive);
    SelectedInWindow(FixedCount(Minute, 30), NoArgs(), EnvAt(now, Exclusive));
    InPeriodsOfAllRows(Minute, PeriodIndex(Minute, now) - 30, PeriodIndex(Minute, now) - 1);
    OfLast30MinutesCount(now);
  }
  lemma OfLast45MinutesCount(now: DateTime)
    requires AtTestNow(now)
    ensures CountPeriods(Minute, PeriodIndex(Minute, now) - 45, PeriodIndex(Minute, now) - 1, 0) == 6
  {
    assert PeriodIndex(Minute, now) == 1063597755;
    assert CountPeriods(Minute, 1063597710, 1063597754, 26) == 0;
    assert CountPeriods(Minute, 1063597710, 1063597754, 23) == 0;
    assert CountPeriods(Minute, 1063597710, 1063597754, 20) == 0;
    assert CountPeriods(Minute, 1063597710, 1063597754, 17) == 0;
    assert CountPeriods(Minute, 1063597710, 1063597754, 14) == 0;
    assert CountPeriods(Minute, 1063597710, 1063597754, 11) == 0;
    assert CountPeriods(Minute, 1063597710, 1063597754, 8) == 1;
    assert CountPeriods(Minute, 1063597710, 1063597754, 5) == 4;
    assert CountPeriods(Minute, 1063597710, 1063597754, 2) == 6;
  }
  lemma OfLast45Minutes(now: DateTime)
    requires AtTestNow(now)
    ensures Selected(FixedCount(Minute, 45), NoArgs(), EnvAt(now, Exclusive)) == 6
  {
    assert PeriodIndex(Minute, now) == 1063597755;
    assert PresetAnchor(FixedCount(Minute, 45), NoArgs(), EnvAt(now, Exclusive)) == now;
    assert ModeOf(FixedCount(Minute, 45), NoArgs(), EnvAt(now, Exclusive)) == Some(Exclusive);
    SelectedInWindow(FixedCount(Minute, 45), NoArgs(), EnvAt(now, Exclusive));
    InPeriodsOfAllRows(Minute, PeriodIndex(Minute, now) - 45, PeriodIndex(Minute, now) - 1);
    OfLast45MinutesCount(now);
  }
  lemma OfLast60MinutesCount(now: DateTime)
    requires AtTestNow(now)
    ensures CountPeriods(Minute, PeriodIndex(Minute, now) - 60, PeriodIndex(Minute, now) - 1, 0) == 7
  {
    assert PeriodIndex(Minute, now) == 1063597755;
    assert CountPeriods(Minute, 1063597695, 1063597754, 26) == 0;
    assert CountPeriods(Minute, 1063597695, 1063597754, 23) == 0;
    assert CountPeriods(Minute, 1063597695, 1063597754, 20) == 0;
    assert CountPeriods(Minute, 1063597695, 1063597754, 17) == 0;
    assert CountPeriods(Minute, 1063597695, 1063597754, 14) == 0;
    assert CountPeriods(Minute, 1063597695, 1063597754, 11) == 0;
    assert CountPeriods(Minute, 1063597695, 1063597754, 8) == 2;
    assert CountPeriods(Minute, 1063597695, 1063597754, 5) == 5;
    assert CountPeriods(Minute, 1063597695, 1063597754, 2) == 7;
  }
  lemma OfLast60Minutes(now: DateTime)
    requires AtTestNow(now)
    ensures Selected(FixedCount(Minute, 60), NoArgs(), EnvAt(now, Exclusive)) == 7
  {
    assert PeriodIndex(Minute, now) == 1063597755;
    assert PresetAnchor(FixedCount(Minute, 60), NoArgs(), EnvAt(now, Exclusive)) == now;
    assert ModeOf(FixedCount(Minute, 60), NoArgs(), EnvAt(now, Exclusive)) == Some(Exclusive);
    SelectedInWindow(FixedCount(Minute, 60), NoArgs(), EnvAt(now, Exclusive));
    InPeriodsOfAllRows(Minute, PeriodIndex(Minute, now) - 60, PeriodIndex(Minute, now) - 1);
    OfLast60MinutesCount(now);
  }
  lemma OfLastMinutes120Count(now: DateTime)
    requires AtTestNow(now)
    ensures CountPeriods(Minute, PeriodIndex(Minute, now) - 120, PeriodIndex(Minute, now) - 1, 0) == 8
  {
    assert PeriodIndex(Minute, now) == 1063597755;
    assert CountPeriods(Minute, 1063597635, 1063597754, 26) == 0;
    assert CountPeriods(Minute, 1063597635, 1063597754, 23) == 0;
    assert CountPeriods(Minute, 1063597635, 1063597754, 20) == 0;
    assert CountPeriods(Minute, 1063597635, 1063597754, 17) == 0;
    assert CountPeriods(Minute, 1063597635, 1063597754, 14) == 0;
    assert CountPeriods(Minute, 1063597635, 1063597754, 11) == 0;
    assert CountPeriods(Minute, 1063597635, 1063597754, 8) == 3;
    assert CountPeriods(Minute, 1063597635, 1063597754, 5) == 6;
    assert CountPeriods(Minute, 1063597635, 1063597754, 2) == 8;
  }
  lemma OfLastMinutes120(now: DateTime)
    requires AtTestNow(now)
    ensures Selected(General(Minute, 120), NoArgs(), EnvAt(now, Exclusive)) == 8
  {
    assert PeriodIndex(Minute, now) == 1063597755;
    assert PresetAnchor(General(Minute, 120), NoArgs(), EnvAt(now, Exclusive)) == now;
    assert ModeOf(General(Minute, 120), NoArgs(), EnvAt(now, Exclusive)) == Some(Exclusive);
    SelectedInWindow(General(Minute, 120), NoArgs(), EnvAt(now, Exclusive));
    InPeriodsOfAllRows(Minute, PeriodIndex(Minute, now) - 120, PeriodIndex(Minute, now) - 1);
    OfLastMinutes120Count(now);
  }
  lemma OfLastHourCount(now: DateTime)
    requires AtTestNow(now)
    ensures CountPeriods(Hour, PeriodIndex(Hour, now) - 1, PeriodIndex(Hour, now) - 1, 0) == 3
  {
    assert PeriodIndex(Hour, now) == 17726629;
    assert CountPeriods(Hour, 17726628, 17726628, 26) == 0;
    assert CountPeriods(Hour, 17726628, 17726628, 23) == 0;
    assert CountPeriods(Hour, 17726628, 17726628, 20) == 0;
    assert CountPeriods(Hour, 17726628, 17726628, 17) == 0;
    assert CountPeriods(Hour, 17726628, 17726628, 14) == 0;
    assert CountPeriods(Hour, 17726628, 17726628, 11) == 0;
    assert CountPeriods(Hour, 17726628, 17726628, 8) == 2;
    assert CountPeriods(Hour, 17726628, 17726628, 5) == 3;
    assert CountPeriods(Hour, 17726628, 17726628, 2) == 3;
  }
  lemma OfLastHour(now: DateTime)
    requires AtTestNow(now)
    ensures Selected(PreviousPeriod(Hour), NoArgs(), EnvAt(now, Exclusive)) == 3
  {
    assert PeriodIndex(Hour, now) == 17726629;
    assert PresetAnchor(PreviousPeriod(Hour), NoArgs(), EnvAt(now, Exclusive)) == now;
    assert ModeOf(PreviousPeriod(Hour), NoArgs(), EnvAt(now, Exclusive)) == Some(Exclusive);
    SelectedInWindow(PreviousPeriod(Hour), NoArgs(), EnvAt(now, Exclusive));
    InPeriodsOfAllRows(Hour, PeriodIndex(Hour, now) - 1, PeriodIndex(Hour, now) - 1);
    OfLastHourCount(now);
  }
  lemma OfLast6HoursCount(now: DateTime)
    requires AtTestNow(now)
    ensures CountPeriods(Hour, PeriodIndex(Hour, now) - 6, PeriodIndex(Hour, now) - 1, 0) == 4
  {
    assert PeriodIndex(Hour, now) == 17726629;
    assert CountPeriods(Hour, 17726623, 17726628, 26) == 0;
    assert CountPeriods(Hour, 17726623, 17726628, 23) == 0;
    assert CountPeriods(Hour, 17726623, 17726628, 20) == 0;
    assert CountPeriods(Hour, 17726623, 17726628, 17) == 0;
    assert CountPeriods(Hour, 17726623, 17726628, 14) == 0;
    assert CountPeriods(Hour, 17726623, 17726628, 11) == 0;
    assert CountPeriods(Hour, 17726623, 17726628, 8) == 3;
    assert CountPeriods(Hour, 17726623, 17726628, 5) == 4;
    assert CountPeriods(Hour, 17726623, 17726628, 2) == 4;
  }
  lemma OfLast6Hours(now: DateTime)
    requires AtTestNow(now)
    ensures Selected(FixedCount(Hour, 6), NoArgs(), EnvAt(now, Exclusive)) == 4
  {
    assert PeriodIndex(Hour, now) == 17726629;
    assert PresetAnchor(FixedCount(Hour, 6), NoArgs(), EnvAt(now, Exclusive)) == now;
    assert ModeOf(FixedCount(Hour, 6), NoArgs(), EnvAt(now, Exclusive)) == Some(Exclusive);
    SelectedInWindow(FixedCount(Hour, 6), NoArgs(), EnvAt(now, Exclusive));
    InPeriodsOfAllRows(Hour, PeriodIndex(Hour, now) - 6, PeriodIndex(Hour, now) - 1);
    OfLast6HoursCount(now);
  }
  lemma OfLast12HoursCount(now: DateTime)
    requires AtTestNow(now)
    ensures CountPeriods(Hour, PeriodIndex(Hour, now) - 12, PeriodIndex(Hour, now) - 1, 0) == 5
  {
    assert PeriodIndex(Hour, now) == 17726629;
    assert CountPeriods(Hour, 17726617, 17726628, 26) == 0;
    assert CountPeriods(Hour, 17726617, 17726628, 23) == 0;
    assert CountPeriods(Hour, 17726617, 17726628, 20) == 0;
    assert CountPeriods(Hour, 17726617, 17726628, 17) == 0;
    assert CountPeriods(Hour, 17726617, 17726628, 14) == 0;
    assert CountPeriods(Hour, 17726617, 17726628, 11) == 1;
    assert CountPeriods(Hour, 17726617, 17726628, 8) == 4;
    assert CountPeriods(Hour, 17726617, 17726628, 5) == 5;
    assert CountPeriods(Hour, 17726617, 17726628, 2) == 5;
  }
  lemma OfLast12Hours(now: DateTime)
    requires AtTestNow(now)
    ensures Selected(FixedCount(Hour, 12), NoArgs(), EnvAt(now, Exclusive)) == 5
  {
    assert PeriodIndex(Hour, now) == 17726629;
    assert PresetAnchor(FixedCount(Hour, 12), NoArgs(), EnvAt(now, Exclusive)) == now;
    assert ModeOf(FixedCount(Hour, 12), NoArgs(), EnvAt(now, Exclusive)) == Some(Exclusive);
    SelectedInWindow(FixedCount(Hour, 12), NoArgs(), EnvAt(now, Exclusive));
    InPeriodsOfAllRows(Hour, PeriodIndex(Hour, now) - 12, PeriodIndex(Hour, now) - 1);
    OfLast12HoursCount(now);
  }
  lemma OfLast18HoursCount(now: DateTime)
    requires AtTestNow(now)
    ensures CountPeriods(Hour, PeriodIndex(Hour, now) - 18, PeriodIndex(Hour, now) - 1, 0) == 6
  {
    assert PeriodIndex(Hour, now) == 17726629;
    assert CountPeriods(Hour, 17726611, 17726628, 26) == 0;
    assert CountPeriods(Hour, 17726611, 17726628, 23) == 0;
    assert CountPeriods(Hour, 17726611, 17726628, 20) == 0;
    assert CountPeriods(Hour, 17726611, 17726628, 17) == 0;
    assert CountPeriods(Hour, 17726611, 17726628, 14) == 0;
    assert CountPeriods(Hour, 17726611, 17726628, 11) == 2;
    assert CountPeriods(Hour, 17726611, 17726628, 8) == 5;
    assert CountPeriods(Hour, 17726611, 17726628, 5) == 6;
    assert CountPeriods(Hour, 17726611, 17726628, 2) == 6;
  }
  lemma OfLast18Hours(now: DateTime)
    requires AtTestNow(now)
    ensures Selected(FixedCount(Hour, 18), NoArgs(), EnvAt(now, Exclusive)) == 6
  {
    assert PeriodIndex(Hour, now) == 17726629;
    assert PresetAnchor(FixedCount(Hour, 18), NoArgs(), EnvAt(now, Exclusive)) == now;
    assert ModeOf(FixedCount(Hour, 18), NoArgs(), EnvAt(now, Exclusive)) == Some(Exclusive);
    SelectedInWindow(FixedCount(Hour, 18), NoArgs(), EnvAt(now, Exclusive));
    InPeriodsOfAllRows(Hour, PeriodIndex(Hour, now) - 18, PeriodIndex(Hour, now) - 1);
    OfLast18HoursCount(now);
  }
  lemma OfLast24HoursCount(now: DateTime)
    requires AtTestNow(now)
    ensures CountPeriods(Hour, PeriodIndex(Hour, now) - 24, PeriodIndex(Hour, now) - 1, 0) == 7
  {
    assert PeriodIndex(Hour, now) == 17726629;
    assert CountPeriods(Hour, 17726605, 17726628, 26) == 0;
    assert CountPeriods(Hour, 17726605, 17726628, 23) == 0;
    assert CountPeriods(Hour, 17726605, 17726628, 20) == 0;
    assert CountPeriods(Hour, 17726605, 17726628, 17) == 0;
    assert CountPeriods(Hour, 17726605, 17726628, 14) == 0;
    assert CountPeriods(Hour, 17726605, 17726628, 11) == 3;
    assert CountPeriods(Hour, 17726605, 17726628, 8) == 6;
    assert CountPeriods(Hour, 17726605, 17726628, 5) == 7;
    assert CountPeriods(Hour, 17726605, 17726628, 2) == 7;
  }
  lemma OfLast24Hours(now: DateTime)
    requires AtTestNow(now)
    ensures Selected(FixedCount(Hour, 24), NoArgs(), EnvAt(now, Exclusive)) == 7
  {
    assert PeriodIndex(Hour, now) == 17726629;
    assert PresetAnchor(FixedCount(Hour, 24), NoArgs(), EnvAt(now, Exclusive)) == now;
    assert ModeOf(FixedCount(Hour, 24), NoArgs(), EnvAt(now, Exclusive)) == Some(Exclusive);
    SelectedInWindow(FixedCount(Hour, 24), NoArgs(), EnvAt(now, Exclusive));
    InPeriodsOfAllRows(Hour, PeriodIndex(Hour, now) - 24, PeriodIndex(Hour, now) - 1);
    OfLast24HoursCount(now);
  }
  lemma OfLastHours48Count(now: DateTime)
    requires AtTestNow(now)
    ensures CountPeriods(Hour, PeriodIndex(Hour, now) - 48, PeriodIndex(Hour, now) - 1, 0) == 8
  {
    assert PeriodIndex(Hour, now) == 17726629;
    assert CountPeriods(Hour, 17726581, 17726628, 26) == 0;
    assert CountPeriods(Hour, 17726581, 17726628, 23) == 0;
    assert CountPeriods(Hour, 17726581, 17726628, 20) == 0;
    assert CountPeriods(Hour, 17726581, 17726628, 17) == 0;
    assert CountPeriods(Hour, 17726581, 17726628, 14) == 1;
    assert CountPeriods(Hour, 17726581, 17726628, 11) == 4;
    assert CountPeriods(Hour, 17726581, 17726628, 8) == 7;
    assert CountPeriods(Hour, 17726581, 17726628, 5) == 8;
    assert CountPeriods(Hour, 17726581, 17726628, 2) == 8;
  }
  lemma OfLastHours48(now: DateTime)
    requires AtTestNow(now)
    ensures Selected(General(Hour, 48), NoArgs(), EnvAt(now, Exclusive)) == 8
  {
    assert PeriodIndex(Hour, now) == 17726629;
    assert PresetAnchor(General(Hour, 48), NoArgs(), EnvAt(now, Exclusive)) == now;
    assert ModeOf(General(Hour, 48), NoArgs(), EnvAt(now, Exclusive)) == Some(Exclusive);
    SelectedInWindow(General(Hour, 48), NoArgs(), EnvAt(now, Exclusive));
    InPeriodsOfAllRows(Hour, PeriodIndex(Hour, now) - 48, PeriodIndex(Hour, now) - 1);
    OfLastHours48Count(now);
  }
  lemma OfTodayCount(now: DateTime)
    requires AtTestNow(now)
    ensures CountPeriods(Day, PeriodIndex(Day, now), PeriodIndex(Day, now), 0) == 12
  {
    assert PeriodIndex(Day, now) == 738609;
    assert CountPeriods(Day, 738609, 738609, 26) == 0;
    assert CountPeriods(Day, 738609, 738609, 23) == 0;
    assert CountPeriods(Day, 738609, 738609, 20) == 0;
    assert CountPeriods(Day, 738609, 738609, 17) == 0;
    assert CountPeriods(Day, 738609, 738609, 14) == 0;
    assert CountPeriods(Day, 738609, 738609, 11) == 1;
    assert CountPeriods(Day, 738609, 738609, 8) == 4;
    assert CountPeriods(Day, 738609, 738609, 5) == 7;
    assert CountPeriods(Day, 738609, 738609, 2) == 10;
  }
  lemma OfToday(now: DateTime)
    requires AtTestNow(now)
    ensures Selected(CurrentPeriod(Day), NoArgs(), EnvAt(now, Exclusive)) == 12
  {
    assert PeriodIndex(Day, now) == 738609;
    assert PresetAnchor(CurrentPeriod(Day), NoArgs(), EnvAt(now, Exclusive)) == now;
    assert ModeOf(CurrentPeriod(Day), NoArgs(), EnvAt(now, Exclusive)) == Some(Inclusive);
    SelectedInWindow(CurrentPeriod(Day), NoArgs(), EnvAt(now, Exclusive));
    InPeriodsOfAllRows(Day, PeriodIndex(Day, now), PeriodIndex(Day, now));
    OfTodayCount(now);
  }
  lemma OfYesterdayCount(now: DateTime)
    requires AtTestNow(now)
    ensures CountPeriods(Day, PeriodIndex(Day, now) - 1, PeriodIndex(Day, now) - 1, 0) == 2
  {
    assert PeriodIndex(Day, now) == 738609;
    assert CountPeriods(Day, 738608, 738608, 26) == 0;
    assert CountPeriods(Day, 738608, 738608, 23) == 0;
    assert CountPeriods(Day, 738608, 738608, 20) == 0;
    assert CountPeriods(Day, 738608, 738608, 17) == 0;
    assert CountPeriods(Day, 738608, 738608, 14) == 0;
    assert CountPeriods(Day, 738608, 738608, 11) == 2;
    assert CountPeriods(Day, 738608, 738608, 8) == 2;
    assert CountPeriods(Day, 738608, 738608, 5) == 2;
    assert CountPeriods(Day, 738608, 738608, 2) == 2;
  }
  lemma OfYesterday(now: DateTime)
    requires AtTestNow(now)
    ensures Selected(PreviousPeriod(Day), NoArgs(), EnvAt(now, Exclusive)) == 2
  {
    assert PeriodIndex(Day, now) == 738609;
    assert PresetAnchor(PreviousPeriod(Day), NoArgs(), EnvAt(now, Exclusive)) == now;
    assert ModeOf(PreviousPeriod(Day), NoArgs(), EnvAt(now, Exclusive)) == Some(Exclusive);
    SelectedInWindow(PreviousPeriod(Day), NoArgs(), EnvAt(now, Exclusive));
    InPeriodsOfAllRows(Day, PeriodIndex(Day, now) - 1, PeriodIndex(Day, now) - 1);
    OfYesterdayCount(now);
  }
  lemma OfLast7DaysCount(now: DateTime)
    requires AtTestNow(now)
    ensures CountPeriods(Day, PeriodIndex(Day, now) - 7, PeriodIndex(Day, now) - 1, 0) == 3
  {
    assert PeriodIndex(Day, now) == 738609;
    assert CountPeriods(Day, 738602, 738608, 26) == 0;
    assert CountPeriods(Day, 738602, 738608, 23) == 0;
    assert CountPeriods(Day, 738602, 738608, 20) == 0;
    assert CountPeriods(Day, 738602, 738608, 17) == 0;
    assert CountPeriods(Day, 738602, 738608, 14) == 1;
    assert CountPeriods(Day, 738602, 738608, 11) == 3;
    assert CountPeriods(Day, 738602, 738608, 8) == 3;
    assert CountPeriods(Day, 738602, 738608, 5) == 3;
    assert CountPeriods(Day, 738602, 738608, 2) == 3;
  }
  lemma OfLast7Days(now: DateTime)
    requires AtTestNow(now)
    ensures Selected(FixedCount(Day, 7), NoArgs(), EnvAt(now, Exclusive)) == 3
  {
    assert PeriodIndex(Day, now) == 738609;
    assert PresetAnchor(FixedCount(Day, 7), NoArgs(), EnvAt(now, Exclusive)) == now;
    assert ModeOf(FixedCount(Day, 7), NoArgs(), EnvAt(now, Exclusive)) == Some(Exclusive);
    SelectedInWindow(FixedCount(Day, 7), NoArgs(), EnvAt(now, Exclusive));
    InPeriodsOfAllRows(Day, PeriodIndex(Day, now) - 7, PeriodIndex(Day, now) - 1);
    OfLast7DaysCount(now);
  }
  lemma OfLast14DaysCount(now: DateTime)
    requires AtTestNow(now)
    ensures CountPeriods(Day, PeriodIndex(Day, now) - 14, PeriodIndex(Day, now) - 1, 0) == 5
  {
    assert PeriodIndex(Day, now) == 738609;
    assert CountPeriods(Day, 738595, 738608, 26) == 0;
    assert CountPeriods(Day, 738595, 738608, 23) == 0;
    assert CountPeriods(Day, 738595, 738608, 20) == 0;
    assert CountPeriods(Day, 738595, 738608, 17) == 0;
    assert CountPeriods(Day, 738595, 738608, 14) == 3;
    assert CountPeriods(Day, 738595, 738608, 11) == 5;
    assert CountPeriods(Day, 738595, 738608, 8) == 5;
    assert CountPeriods(Day, 738595, 738608, 5) == 5;
    assert CountPeriods(Day, 738595, 738608, 2) == 5;
  }
  lemma OfLast14Days(now: DateTime)
    requires AtTestNow(now)
    ensures Selected(FixedCount(Day, 14), NoArgs(), EnvAt(now, Exclusive)) == 5
  {
    assert PeriodIndex(Day, now) == 738609;
    assert PresetAnchor(FixedCount(Day, 14), NoArgs(), EnvAt(now, Exclusive)) == now;
    assert ModeOf(FixedCount(Day, 14), NoArgs(), EnvAt(now, Exclusive)) == Some(Exclusive);
    SelectedInWindow(FixedCount(Day, 14), NoArgs(), EnvAt(now, Exclusive));
    InPeriodsOfAllRows(Day, PeriodIndex(Day, now) - 14, PeriodIndex(Day, now) - 1);
    OfLast14DaysCount(now);
  }
  lemma OfLast21DaysCount(now: DateTime)
    requires AtTestNow(now)
    ensures CountPeriods(Day, PeriodIndex(Day, now) - 21, PeriodIndex(Day, now) - 1, 0) == 6
  {
    assert PeriodIndex(Day, now) == 738609;
    assert CountPeriods(Day, 738588, 738608, 26) == 0;
    assert CountPeriods(Day, 738588, 738608, 23) == 0;
    assert CountPeriods(Day, 738588, 738608, 20) == 0;
    assert CountPeriods(Day, 738588, 738608, 17) == 1;
    assert CountPeriods(Day, 738588, 738608, 14) == 4;
    assert CountPeriods(Day, 738588, 738608, 11) == 6;
    assert CountPeriods(Day, 738588, 738608, 8) == 6;
    assert CountPeriods(Day, 738588, 738608, 5) == 6;
    assert CountPeriods(Day, 738588, 738608, 2) == 6;
  }
  lemma OfLast21Days(now: DateTime)
    requires AtTestNow(now)
    ensures Selected(FixedCount(Day, 21), NoArgs(), EnvAt(now, Exclusive)) == 6
  {
    assert PeriodIndex(Day, now) == 738609;
    assert PresetAnchor(FixedCount(Day, 21), NoArgs(), EnvAt(now, Exclusive)) == now;
    assert ModeOf(FixedCount(Day, 21), NoArgs(), EnvAt(now, Exclusive)) == Some(Exclusive);
    SelectedInWindow(FixedCount(Day, 21), NoArgs(), EnvAt(now, Exclusive));
    InPeriodsOfAllRows(Day, PeriodIndex(Day, now) - 21, PeriodIndex(Day, now) - 1);
    OfLast21DaysCount(now);
  }
  lemma OfLast30DaysCount(now: DateTime)
    requires AtTestNow(now)
    ensures CountPeriods(Day, PeriodIndex(Day, now) - 30, PeriodIndex(Day, now) - 1, 0) == 7
  {
    assert PeriodIndex(Day, now) == 738609;
    assert CountPeriods(Day, 738579, 738608, 26) == 0;
    assert CountPeriods(Day, 738579, 738608, 23) == 0;
    assert CountPeriods(Day, 738579, 738608, 20) == 0;
    assert CountPeriods(Day, 738579, 738608, 17) == 2;
    assert CountPeriods(Day, 738579, 738608, 14) == 5;
    assert CountPeriods(Day, 738579, 738608, 11) == 7;
    assert CountPeriods(Day, 738579, 738608, 8) == 7;
    assert CountPeriods(Day, 738579, 738608, 5) == 7;
    assert CountPeriods(Day, 738579, 738608, 2) == 7;
  }
  lemma OfLast30Days(now: DateTime)
    requires AtTestNow(now)
    ensures Selected(FixedCount(Day, 30), NoArgs(), EnvAt(now, Exclusive)) == 7
  {
    assert PeriodIndex(Day, now) == 738609;
    assert PresetAnchor(FixedCount(Day, 30), NoArgs(), EnvAt(now, Exclusive)) == now;
    assert ModeOf(FixedCount(Day, 30), NoArgs(), EnvAt(now, Exclusive)) == Some(Exclusive);
    SelectedInWindow(FixedCount(Day, 30), NoArgs(), EnvAt(now, Exclusive));
    InPeriodsOfAllRows(Day, PeriodIndex(Day, now) - 30, PeriodIndex(Day, now) - 1);
    OfLast30DaysCount(now);
  }
  lemma OfLastDays48Count(now: DateTime)
    requires AtTestNow(now)
    ensures CountPeriods(Day, PeriodIndex(Day, now) - 48, PeriodIndex(Day, now) - 1, 0) == 8
  {
    assert PeriodIndex(Day, now) == 738609;
    assert CountPeriods(Day, 738561, 738608, 26) == 0;
    assert CountPeriods(Day, 738561, 738608, 23) == 0;
    assert CountPeriods(Day, 738561, 738608, 20) == 0;
    assert CountPeriods(Day, 738561, 738608, 17) == 3;
    assert CountPeriods(Day, 738561, 738608, 14) == 6;
    assert CountPeriods(Day, 738561, 738608, 11) == 8;
    assert CountPeriods(Day, 738561, 738608, 8) == 8;
    assert CountPeriods(Day, 738561, 738608, 5) == 8;
    assert CountPeriods(Day, 738561, 738608, 2) == 8;
  }
  lemma OfLastDays48(now: DateTime)
    requires AtTestNow(now)
    ensures Selected(General(Day, 48), NoArgs(), EnvAt(now, Exclusive)) == 8
  {
    assert PeriodIndex(Day, now) == 738609;
    assert PresetAnchor(General(Day, 48), NoArgs(), EnvAt(now, Exclusive)) == now;
    assert ModeOf(General(Day, 48), NoArgs(), EnvAt(now, Exclusive)) == Some(Exclusive);
    SelectedInWindow(General(Day, 48), NoArgs(), EnvAt(now, Exclusive));
    InPeriodsOfAllRows(Day, PeriodIndex(Day, now) - 48, PeriodIndex(Day, now) - 1);
    OfLastDays48Count(now);
  }
  lemma OfLastWeekCount(now: DateTime)
    requires AtTestNow(now)
    ensures CountPeriods(Week, PeriodIndex(Week, now) - 1, PeriodIndex(Week, now) - 1, 0) == 1
  {
    assert PeriodIndex(Week, now) == 105515;
    assert CountPeriods(Week, 105514, 105514, 26) == 0;
    assert CountPeriods(Week, 105514, 105514, 23) == 0;
    assert CountPeriods(Week, 105514, 105514, 20) == 0;
    assert CountPeriods(Week, 105514, 105514, 17) == 0;
    assert CountPeriods(Week, 105514, 105514, 14) == 1;
    assert CountPeriods(Week, 105514, 105514, 11) == 1;
    assert CountPeriods(Week, 105514, 105514, 8) == 1;
    assert CountPeriods(Week, 105514, 105514, 5) == 1;
    assert CountPeriods(Week, 105514, 105514, 2) == 1;
  }
  lemma OfLastWeek(now: DateTime)
    requires AtTestNow(now)
    ensures Selected(PreviousPeriod(Week), NoArgs(), EnvAt(now, Exclusive)) == 1
  {
    assert PeriodIndex(Week, now) == 105515;
    assert PresetAnchor(PreviousPeriod(Week), NoArgs(), EnvAt(now, Exclusive)) == now;
    assert ModeOf(PreviousPeriod(Week), NoArgs(), EnvAt(now, Exclusive)) == Some(Exclusive);
    SelectedInWindow(PreviousPeriod(Week), NoArgs(), EnvAt(now, Exclusive));
    InPeriodsOfAllRows(Week, PeriodIndex(Week, now) - 1, PeriodIndex(Week, now) - 1);
    OfLastWeekCount(now);
  }
  lemma OfLast2WeeksCount(now: DateTime)
    requires AtTestNow(now)
    ensures CountPeriods(Week, PeriodIndex(Week, now) - 2, PeriodIndex(Week, now) - 1, 0) == 2
  {
    assert PeriodIndex(Week, now) == 105515;
    assert CountPeriods(Week, 105513, 105514, 26) == 0;
    assert CountPeriods(Week, 105513, 105514, 23) == 0;
    assert CountPeriods(Week, 105513, 105514, 20) == 0;
    assert CountPeriods(Week, 105513, 105514, 17) == 0;
    assert CountPeriods(Week, 105513, 105514, 14) == 2;
    assert CountPeriods(Week, 105513, 105514, 11) == 2;
    assert CountPeriods(Week, 105513, 105514, 8) == 2;
    assert CountPeriods(Week, 105513, 105514, 5) == 2;
    assert CountPeriods(Week, 105513, 105514, 2) == 2;
  }
  lemma OfLast2Weeks(now: DateTime)
    requires AtTestNow(now)
    ensures Selected(FixedCount(Week, 2), NoArgs(), EnvAt(now, Exclusive)) == 2
  {
    assert PeriodIndex(Week, now) == 105515;
    assert PresetAnchor(FixedCount(Week, 2), NoArgs(), EnvAt(now, Exclusive)) == now;
    assert ModeOf(FixedCount(Week, 2), NoArgs(), EnvAt(now, Exclusive)) == Some(Exclusive);
    SelectedInWindow(FixedCount(Week, 2), NoArgs(), EnvAt(now, Exclusive));
    InPeriodsOfAllRows(Week, PeriodIndex(Week, now) - 2, PeriodIndex(Week, now) - 1);
    OfLast2WeeksCount(now);
  }
  lemma OfLast3WeeksCount(now: DateTime)
    requires AtTestNow(now)
    ensures CountPeriods(Week, PeriodIndex(Week, now) - 3, PeriodIndex(Week, now) - 1, 0) == 3
  {
    assert PeriodIndex(Week, now) == 105515;
    assert CountPeriods(Week, 105512, 105514, 26) == 0;
    assert CountPeriods(Week, 105512, 105514, 23) == 0;
    assert CountPeriods(Week, 105512, 105514, 20) == 0;
    assert CountPeriods(Week, 105512, 105514, 17) == 1;
    assert CountPeriods(Week, 105512, 105514, 14) == 3;
    assert CountPeriods(Week, 105512, 105514, 11) == 3;
    assert CountPeriods(Week, 105512, 105514, 8) == 3;
    assert CountPeriods(Week, 105512, 105514, 5) == 3;
    assert CountPeriods(Week, 105512, 105514, 2) == 3;
  }
  lemma OfLast3Weeks(now: DateTime)
    requires AtTestNow(now)
    ensures Selected(FixedCount(Week, 3), NoArgs(), EnvAt(now, Exclusive)) == 3
  {
    assert PeriodIndex(Week, now) == 105515;
    assert PresetAnchor(FixedCount(Week, 3), NoArgs(), EnvAt(now, Exclusive)) == now;
    assert ModeOf(FixedCount(Week, 3), NoArgs(), EnvAt(now, Exclusive)) == Some(Exclusive);
    SelectedInWindow(FixedCount(Week, 3), NoArgs(), EnvAt(now, Exclusive));
    InPeriodsOfAllRows(Week, PeriodIndex(Week, now) - 3, PeriodIndex(Week, now) - 1);
    OfLast3WeeksCount(now);
  }
  lemma OfLast4WeeksCount(now: DateTime)
    requires AtTestNow(now)
    ensures CountPeriods(Week, PeriodIndex(Week, now) - 4, PeriodIndex(Week, now) - 1, 0) == 4
  {
    assert PeriodIndex(Week, now) == 105515;
    assert CountPeriods(Week, 105511, 105514, 26) == 0;
    assert CountPeriods(Week, 105511, 105514, 23) == 0;
    assert CountPeriods(Week, 105511, 105514, 20) == 0;
    assert CountPeriods(Week, 105511, 105514, 17) == 2;
    assert CountPeriods(Week, 105511, 105514, 14) == 4;
    assert CountPeriods(Week, 105511, 105514, 11) == 4;
    assert CountPeriods(Week, 105511, 105514, 8) == 4;
    assert CountPeriods(Week, 105511, 105514, 5) == 4;
    assert CountPeriods(Week, 105511, 105514, 2) == 4;
  }
  lemma OfLast4Weeks(now: DateTime)
    requires AtTestNow(now)
    ensures Selected(FixedCount(Week, 4), NoArgs(), EnvAt(now, Exclusive)) == 4
  {
    assert PeriodIndex(Week, now) == 105515;
    assert PresetAnchor(FixedCount(Week, 4), NoArgs(), EnvAt(now, Exclusive)) == now;
    assert ModeOf(FixedCount(Week, 4), NoArgs(), EnvAt(now, Exclusive)) == Some(Exclusive);
    SelectedInWindow(FixedCount(Week, 4), NoArgs(), EnvAt(now, Exclusive));
    InPeriodsOfAllRows(Week, PeriodIndex(Week, now) - 4, PeriodIndex(Week, now) - 1);
    OfLast4WeeksCount(now);
  }
  lemma OfLastWeeks8Count(now: DateTime)
    requires AtTestNow(now)
    ensures CountPeriods(Week, PeriodIndex(Week, now) - 8, PeriodIndex(Week, now) - 1, 0) == 5
  {
    assert PeriodIndex(Week, now) == 105515;
    assert CountPeriods(Week, 105507, 105514, 26) == 0;
    assert CountPeriods(Week, 105507, 105514, 23) == 0;
    assert CountPeriods(Week, 105507, 105514, 20) == 0;
    assert CountPeriods(Week, 105507, 105514, 17) == 3;
    assert CountPeriods(Week, 105507, 105514, 14) == 5;
    assert CountPeriods(Week, 105507, 105514, 11) == 5;
    assert CountPeriods(Week, 105507, 105514, 8) == 5;
    assert CountPeriods(Week, 105507, 105514, 5) == 5;
    assert CountPeriods(Week, 105507, 105514, 2) == 5;
  }
  lemma OfLastWeeks8(now: DateTime)
    requires AtTestNow(now)
    ensures Selected(General(Week, 8), NoArgs(), EnvAt(now, Exclusive)) == 5
  {
    assert PeriodIndex(Week, now) == 105515;
    assert PresetAnchor(General(Week, 8), NoArgs(), EnvAt(now, Exclusive)) == now;
    assert ModeOf(General(Week, 8), NoArgs(), EnvAt(now, Exclusive)) == Some(Exclusive);
    SelectedInWindow(General(Week, 8), NoArgs(), EnvAt(now, Exclusive));
    InPeriodsOfAllRows(Week, PeriodIndex(Week, now) - 8, PeriodIndex(Week, now) - 1);
    OfLastWeeks8Count(now);
  }
  lemma OfLastMonthCount(now: DateTime)
    requires AtTestNow(now)
    ensures CountPeriods(Month, PeriodIndex(Month, now) - 1, PeriodIndex(Month, now) - 1, 0) == 1
  {
    assert PeriodIndex(Month, now) == 24278;
    assert CountPeriods(Month, 24277, 24277, 26) == 0;
    assert CountPeriods(Month, 24277, 24277, 23) == 0;
    assert CountPeriods(Month, 24277, 24277, 20) == 0;
    assert CountPeriods(Month, 24277, 24277, 17) == 1;
    assert CountPeriods(Month, 24277, 24277, 14) == 1;
    assert CountPeriods(Month, 24277, 24277, 11) == 1;
    assert CountPeriods(Month, 24277, 24277, 8) == 1;
    assert CountPeriods(Month, 24277, 24277, 5) == 1;
    assert CountPeriods(Month, 24277, 24277, 2) == 1;
  }
  lemma OfLastMonth(now: DateTime)
    requires AtTestNow(now)
    ensures Selected(PreviousPeriod(Month), NoArgs(), EnvAt(now, Exclusive)) == 1
  {
    assert PeriodIndex(Month, now) == 24278;
    assert PresetAnchor(PreviousPeriod(Month), NoArgs(), EnvAt(now, Exclusive)) == now;
    assert ModeOf(PreviousPeriod(Month), NoArgs(), EnvAt(now, Exclusive)) == Some(Exclusive);
    SelectedInWindow(PreviousPeriod(Month), NoArgs(), EnvAt(now, Exclusive));
    InPeriodsOfAllRows(Month, PeriodIndex(Month, now) - 1, PeriodIndex(Month, now) - 1);
    OfLastMonthCount(now);
  }
  lemma OfLast3MonthsCount(now: DateTime)
    requires AtTestNow(now)
    ensures CountPeriods(Month, PeriodIndex(Month, now) - 3, PeriodIndex(Month, now) - 1, 0) == 2
  {
    assert PeriodIndex(Month, now) == 24278;
    assert CountPeriods(Month, 24275, 24277, 26) == 0;
    assert CountPeriods(Month, 24275, 24277, 23) == 0;
    assert CountPeriods(Month, 24275, 24277, 20) == 1;
    assert CountPeriods(Month, 24275, 24277, 17) == 2;
    assert CountPeriods(Month, 24275, 24277, 14) == 2;
    assert CountPeriods(Month, 24275, 24277, 11) == 2;
    assert CountPeriods(Month, 24275, 24277, 8) == 2;
    assert CountPeriods(Month, 24275, 24277, 5) == 2;
    assert CountPeriods(Month, 24275, 24277, 2) == 2;
  }
  lemma OfLast3Months(now: DateTime)
    requires AtTestNow(now)
    ensures Selected(FixedCount(Month, 3), NoArgs(), EnvAt(now, Exclusive)) == 2
  {
    assert PeriodIndex(Month, now) == 24278;
    assert PresetAnchor(FixedCount(Month, 3), NoArgs(), EnvAt(now, Exclusive)) == now;
    assert ModeOf(FixedCount(Month, 3), NoArgs(), EnvAt(now, Exclusive)) == Some(Exclusive);
    SelectedInWindow(FixedCount(Month, 3), NoArgs(), EnvAt(now, Exclusive));
    InPeriodsOfAllRows(Month, PeriodIndex(Month, now) - 3, PeriodIndex(Month, now) - 1);
    OfLast3MonthsCount(now);
  }
  lemma OfLast6MonthsCount(now: DateTime)
    requires AtTestNow(now)
    ensures CountPeriods(Month, PeriodIndex(Month, now) - 6, PeriodIndex(Month, now) - 1, 0) == 3
  {
    assert PeriodIndex(Month, now) == 24278;
    assert CountPeriods(Month, 24272, 24277, 26) == 0;
    assert CountPeriods(Month, 24272, 24277, 23) == 0;
    assert CountPeriods(Month, 24272, 24277, 20) == 2;
    assert CountPeriods(Month, 24272, 24277, 17) == 3;
    assert CountPeriods(Month, 24272, 24277, 14) == 3;
    assert CountPeriods(Month, 24272, 24277, 11) == 3;
    assert CountPeriods(Month, 24272, 24277, 8) == 3;
    assert CountPeriods(Month, 24272, 24277, 5) == 3;
    assert CountPeriods(Month, 24272, 24277, 2) == 3;
  }
  lemma OfLast6Months(now: DateTime)
    requires AtTestNow(now)
    ensures Selected(FixedCount(Month, 6), NoArgs(), EnvAt(now, Exclusive)) == 3
  {
    assert PeriodIndex(Month, now) == 24278;
    assert PresetAnchor(FixedCount(Month, 6), NoArgs(), EnvAt(now, Exclusive)) == now;
    assert ModeOf(FixedCount(Month, 6), NoArgs(), EnvAt(now, Exclusive)) == Some(Exclusive);
    SelectedInWindow(FixedCount(Month, 6), NoArgs(), EnvAt(now, Exclusive));
    InPeriodsOfAllRows(Month, PeriodIndex(Month, now) - 6, PeriodIndex(Month, now) - 1);
    OfLast6MonthsCount(now);
  }
  lemma OfLast9MonthsCount(now: DateTime)
    requires AtTestNow(now)
    ensures CountPeriods(Month, PeriodIndex(Month, now) - 9, PeriodIndex(Month, now) - 1, 0) == 4
  {
    assert PeriodIndex(Month, now) == 24278;
    assert CountPeriods(Month, 24269, 24277, 26) == 0;
    assert CountPeriods(Month, 24269, 24277, 23) == 0;
    assert CountPeriods(Month, 24269, 24277, 20) == 3;
    assert CountPeriods(Month, 24269, 24277, 17) == 4;
    assert CountPeriods(Month, 24269, 24277, 14) == 4;
    assert CountPeriods(Month, 24269, 24277, 11) == 4;
    assert CountPeriods(Month, 24269, 24277, 8) == 4;
    assert CountPeriods(Month, 24269, 24277, 5) == 4;
    assert CountPeriods(Month, 24269, 24277, 2) == 4;
  }
  lemma OfLast9Months(now: DateTime)
    requires AtTestNow(now)
    ensures Selected(FixedCount(Month, 9), NoArgs(), EnvAt(now, Exclusive)) == 4
  {
    assert PeriodIndex(Month, now) == 24278;
    assert PresetAnchor(FixedCount(Month, 9), NoArgs(), EnvAt(now, Exclusive)) == now;
    assert ModeOf(FixedCount(Month, 9), NoArgs(), EnvAt(now, Exclusive)) == Some(Exclusive);
    SelectedInWindow(FixedCount(Month, 9), NoArgs(), EnvAt(now, Exclusive));
    InPeriodsOfAllRows(Month, PeriodIndex(Month, now) - 9, PeriodIndex(Month, now) - 1);
    OfLast9MonthsCount(now);
  }
  lemma OfLast12MonthsCount(now: DateTime)
    requires AtTestNow(now)
    ensures CountPeriods(Month, PeriodIndex(Month, now) - 12, PeriodIndex(Month, now) - 1, 0) == 5
  {
    assert PeriodIndex(Month, now) == 24278;
    assert CountPeriods(Month, 24266, 24277, 26) == 0;
    assert CountPeriods(Month, 24266, 24277, 23) == 1;
    assert CountPeriods(Month, 24266, 24277, 20) == 4;
    assert CountPeriods(Month, 24266, 24277, 17) == 5;
    assert CountPeriods(Month, 24266, 24277, 14) == 5;
    assert CountPeriods(Month, 24266, 24277, 11) == 5;
    assert CountPeriods(Month, 24266, 24277, 8) == 5;
    assert CountPeriods(Month, 24266, 24277, 5) == 5;
    assert CountPeriods(Month, 24266, 24277, 2) == 5;
  }
  lemma OfLast12Months(now: DateTime)
    requires AtTestNow(now)
    ensures Selected(FixedCount(Month, 12), NoArgs(), EnvAt(now, Exclusive)) == 5
  {
    assert PeriodIndex(Month, now) == 24278;
    assert PresetAnchor(FixedCount(Month, 12), NoArgs(), EnvAt(now, Exclusive)) == now;
    assert ModeOf(FixedCount(Month, 12), NoArgs(), EnvAt(now, Exclusive)) == Some(Exclusive);
    SelectedInWindow(FixedCount(Month, 12), NoArgs(), EnvAt(now, Exclusive));
    InPeriodsOfAllRows(Month, PeriodIndex(Month, now) - 12, PeriodIndex(Month, now) - 1);
    OfLast12MonthsCount(now);
  }
  lemma OfLastMonths24Count(now: DateTime)
    requires AtTestNow(now)
    ensures CountPeriods(Month, PeriodIndex(Month, now) - 24, PeriodIndex(Month, now) - 1, 0) == 6
  {
    assert PeriodIndex(Month, now) == 24278;
    assert CountPeriods(Month, 24254, 24277, 26) == 0;
    assert CountPeriods(Month, 24254, 24277, 23) == 2;
    assert CountPeriods(Month, 24254, 24277, 20) == 5;
    assert CountPeriods(Month, 24254, 24277, 17) == 6;
    assert CountPeriods(Month, 24254, 24277, 14) == 6;
    assert CountPeriods(Month, 24254, 24277, 11) == 6;
    assert CountPeriods(Month, 24254, 24277, 8) == 6;
    assert CountPeriods(Month, 24254, 24277, 5) == 6;
    assert CountPeriods(Month, 24254, 24277, 2) == 6;
  }
  lemma OfLastMonths24(now: DateTime)
    requires AtTestNow(now)
    ensures Selected(General(Month, 24), NoArgs(), EnvAt(now, Exclusive)) == 6
  {
    assert PeriodIndex(Month, now) == 24278;
    assert PresetAnchor(General(Month, 24), NoArgs(), EnvAt(now, Exclusive)) == now;
    assert ModeOf(General(Month, 24), NoArgs(), EnvAt(now, Exclusive)) == Some(Exclusive);
    SelectedInWindow(General(Month, 24), NoArgs(), EnvAt(now, Exclusive));
    InPeriodsOfAllRows(Month, PeriodIndex(Month, now) - 24, PeriodIndex(Month, now) - 1);
    OfLastMonths24Count(now);
  }
  lemma OfLastQuarterCount(now: DateTime)
    requires AtTestNow(now)
    ensures CountPeriods(Quarter, PeriodIndex(Quarter, now) - 1, PeriodIndex(Quarter, now) - 1, 0) == 1
  {
    assert PeriodIndex(Quarter, now) == 8092;
    assert CountPeriods(Quarter, 8091, 8091, 26) == 0;
    assert CountPeriods(Quarter, 8091, 8091, 23) == 0;
    assert CountPeriods(Quarter, 8091, 8091, 20) == 1;
    assert CountPeriods(Quarter, 8091, 8091, 17) == 1;
    assert CountPeriods(Quarter, 8091, 8091, 14) == 1;
    assert CountPeriods(Quarter, 8091, 8091, 11) == 1;
    assert CountPeriods(Quarter, 8091, 8091, 8) == 1;
    assert CountPeriods(Quarter, 8091, 8091, 5) == 1;
    assert CountPeriods(Quarter, 8091, 8091, 2) == 1;
  }
  lemma OfLastQuarter(now: DateTime)
    requires AtTestNow(now)
    ensures Selected(PreviousPeriod(Quarter), NoArgs(), EnvAt(now, Exclusive)) == 1
  {
    assert PeriodIndex(Quarter, now) == 8092;
    assert PresetAnchor(PreviousPeriod(Quarter), NoArgs(), EnvAt(now, Exclusive)) == now;
    assert ModeOf(PreviousPeriod(Quarter), NoArgs(), EnvAt(now, Exclusive)) == Some(Exclusive);
    SelectedInWindow(PreviousPeriod(Quarter), NoArgs(), EnvAt(now, Exclusive));
    InPeriodsOfAllRows(Quarter, PeriodIndex(Quarter, now) - 1, PeriodIndex(Quarter, now) - 1);
    OfLastQuarterCount(now);
  }
  lemma OfLast2QuartersCount(now: DateTime)
    requires AtTestNow(now)
    ensures CountPeriods(Quarter, PeriodIndex(Quarter, now) - 2, PeriodIndex(Quarter, now) - 1, 0) == 2
  {
    assert PeriodIndex(Quarter, now) == 8092;
    assert CountPeriods(Quarter, 8090, 8091, 26) == 0;
    assert CountPeriods(Quarter, 8090, 8091, 23) == 0;
    assert CountPeriods(Quarter, 8090, 8091, 20) == 2;
    assert CountPeriods(Quarter, 8090, 8091, 17) == 2;
    assert CountPeriods(Quarter, 8090, 8091, 14) == 2;
    assert CountPeriods(Quarter, 8090, 8091, 11) == 2;
    assert CountPeriods(Quarter, 8090, 8091, 8) == 2;
    assert CountPeriods(Quarter, 8090, 8091, 5) == 2;
    assert CountPeriods(Quarter, 8090, 8091, 2) == 2;
  }
  lemma OfLast2Quarters(now: DateTime)
    requires AtTestNow(now)
    ensures Selected(FixedCount(Quarter, 2), NoArgs(), EnvAt(now, Exclusive)) == 2
  {
    assert PeriodIndex(Quarter, now) == 8092;
    assert PresetAnchor(FixedCount(Quarter, 2), NoArgs(), EnvAt(now, Exclusive)) == now;
    assert ModeOf(FixedCount(Quarter, 2), NoArgs(), EnvAt(now, Exclusive)) == Some(Exclusive);
    SelectedInWindow(FixedCount(Quarter, 2), NoArgs(), EnvAt(now, Exclusive));
    InPeriodsOfAllRows(Quarter, PeriodIndex(Quarter, now) - 2, PeriodIndex(Quarter, now) - 1);
    OfLast2QuartersCount(now);
  }
  lemma OfLast3QuartersCount(now: DateTime)
    requires AtTestNow(now)
    ensures CountPeriods(Quarter, PeriodIndex(Quarter, now) - 3, PeriodIndex(Quarter, now) - 1, 0) == 3
  {
    assert PeriodIndex(Quarter, now) == 8092;
    assert CountPeriods(Quarter, 8089, 8091, 26) == 0;
    assert CountPeriods(Quarter, 8089, 8091, 23) == 0;
    assert CountPeriods(Quarter, 8089, 8091, 20) == 3;
    assert CountPeriods(Quarter, 8089, 8091, 17) == 3;
    assert CountPeriods(Quarter, 8089, 8091, 14) == 3;
    assert CountPeriods(Quarter, 8089, 8091, 11) == 3;
    assert CountPeriods(Quarter, 8089, 8091, 8) == 3;
    assert CountPeriods(Quarter, 8089, 8091, 5) == 3;
    assert CountPeriods(Quarter, 8089, 8091, 2) == 3;
  }
  lemma OfLast3Quarters(now: DateTime)
    requires AtTestNow(now)
    ensures Selected(FixedCount(Quarter, 3), NoArgs(), EnvAt(now, Exclusive)) == 3
  {
    assert PeriodIndex(Quarter, now) == 8092;
    assert PresetAnchor(FixedCount(Quarter, 3), NoArgs(), EnvAt(now, Exclusive)) == now;
    assert ModeOf(FixedCount(Quarter, 3), NoArgs(), EnvAt(now, Exclusive)) == Some(Exclusive);
    SelectedInWindow(FixedCount(Quarter, 3), NoArgs(), EnvAt(now, Exclusive));
    InPeriodsOfAllRows(Quarter, PeriodIndex(Quarter, now) - 3, PeriodIndex(Quarter, now) - 1);
    OfLast3QuartersCount(now);
  }
  lemma OfLast4QuartersCount(now: DateTime)
    requires AtTestNow(now)
    ensures CountPeriods(Quarter, PeriodIndex(Quarter, now) - 4, PeriodIndex(Quarter, now) - 1, 0) == 4
  {
    assert PeriodIndex(Quarter, now) == 8092;
    assert CountPeriods(Quarter, 8088, 8091, 26) == 0;
    assert CountPeriods(Quarter, 8088, 8091, 23) == 1;
    assert CountPeriods(Quarter, 8088, 8091, 20) == 4;
    assert CountPeriods(Quarter, 8088, 8091, 17) == 4;
    assert CountPeriods(Quarter, 8088, 8091, 14) == 4;
    assert CountPeriods(Quarter, 8088, 8091, 11) == 4;
    assert CountPeriods(Quarter, 8088, 8091, 8) == 4;
    assert CountPeriods(Quarter, 8088, 8091, 5) == 4;
    assert CountPeriods(Quarter, 8088, 8091, 2) == 4;
  }
  lemma OfLast4Quarters(now: DateTime)
    requires AtTestNow(now)
    ensures Selected(FixedCount(Quarter, 4), NoArgs(), EnvAt(now, Exclusive)) == 4
  {
    assert PeriodIndex(Quarter, now) == 8092;
    assert PresetAnchor(FixedCount(Quarter, 4), NoArgs(), EnvAt(now, Exclusive)) == now;
    assert ModeOf(FixedCount(Quarter, 4), NoArgs(), EnvAt(now, Exclusive)) == Some(Exclusive);
    SelectedInWindow(FixedCount(Quarter, 4), NoArgs(), EnvAt(now, Exclusive));
    InPeriodsOfAllRows(Quarter, PeriodIndex(Quarter, now) - 4, PeriodIndex(Quarter, now) - 1);
    OfLast4QuartersCount(now);
  }
  lemma OfLastQuarters8Count(now: DateTime)
    requires AtTestNow(now)
    ensures CountPeriods(Quarter, PeriodIndex(Quarter, now) - 8, PeriodIndex(Quarter, now) - 1, 0) == 5
  {
    assert PeriodIndex(Quarter, now) == 8092;
    assert CountPeriods(Quarter, 8084, 8091, 26) == 0;
    assert CountPeriods(Quarter, 8084, 8091, 23) == 2;
    assert CountPeriods(Quarter, 8084, 8091, 20) == 5;
    assert CountPeriods(Quarter, 8084, 8091, 17) == 5;
    assert CountPeriods(Quarter, 8084, 8091, 14) == 5;
    assert CountPeriods(Quarter, 8084, 8091, 11) == 5;
    assert CountPeriods(Quarter, 8084, 8091, 8) == 5;
    assert CountPeriods(Quarter, 8084, 8091, 5) == 5;
    assert CountPeriods(Quarter, 8084, 8091, 2) == 5;
  }
  lemma OfLastQuarters8(now: DateTime)
    requires AtTestNow(now)
    ensures Selected(General(Quarter, 8), NoArgs(), EnvAt(now, Exclusive)) == 5
  {
    assert PeriodIndex(Quarter, now) == 8092;
    assert PresetAnchor(General(Quarter, 8), NoArgs(), EnvAt(now, Exclusive)) == now;
    assert ModeOf(General(Quarter, 8), NoArgs(), EnvAt(now, Exclusive)) == Some(Exclusive);
    SelectedInWindow(General(Quarter, 8), NoArgs(), EnvAt(now, Exclusive));
    InPeriodsOfAllRows(Quarter, PeriodIndex(Quarter, now) - 8, PeriodIndex(Quarter, now) - 1);
    OfLastQuarters8Count(now);
  }
  lemma OfLastYearCount(now: DateTime)
    requires AtTestNow(now)
    ensures CountPeriods(Year, PeriodIndex(Year, now) - 1, PeriodIndex(Year, now) - 1, 0) == 4
  {
    assert PeriodIndex(Year, now) == 2023;
    assert CountPeriods(Year, 2022, 2022, 26) == 0;
    assert CountPeriods(Year, 2022, 2022, 23) == 1;
    assert CountPeriods(Year, 2022, 2022, 20) == 4;
    assert CountPeriods(Year, 2022, 2022, 17) == 4;
    assert CountPeriods(Year, 2022, 2022, 14) == 4;
    assert CountPeriods(Year, 2022, 2022, 11) == 4;
    assert CountPeriods(Year, 2022, 2022, 8) == 4;
    assert CountPeriods(Year, 2022, 2022, 5) == 4;
    assert CountPeriods(Year, 2022, 2022, 2) == 4;
  }
  lemma OfLastYear(now: DateTime)
    requires AtTestNow(now)
    ensures Selected(PreviousPeriod(Year), NoArgs(), EnvAt(now, Exclusive)) == 4
  {
    assert PeriodIndex(Year, now) == 2023;
    assert PresetAnchor(PreviousPeriod(Year), NoArgs(), EnvAt(now, Exclusive)) == now;
    assert ModeOf(PreviousPeriod(Year), NoArgs(), EnvAt(now, Exclusive)) == Some(Exclusive);
    SelectedInWindow(PreviousPeriod(Year), NoArgs(), EnvAt(now, Exclusive));
    InPeriodsOfAllRows(Year, PeriodIndex(Year, now) - 1, PeriodIndex(Year, now) - 1);
    OfLastYearCount(now);
  }
  lemma OfLastYears2Count(now: DateTime)
    requires AtTestNow(now)
    ensures CountPeriods(Year, PeriodIndex(Year, now) - 2, PeriodIndex(Year, now) - 1, 0) == 5
  {
    assert PeriodIndex(Year, now) == 2023;
    assert CountPeriods(Year, 2021, 2022, 26) == 0;
    assert CountPeriods(Year, 2021, 2022, 23) == 2;
    assert CountPeriods(Year, 2021, 2022, 20) == 5;
    assert CountPeriods(Year, 2021, 2022, 17) == 5;
    assert CountPeriods(Year, 2021, 2022, 14) == 5;
    assert CountPeriods(Year, 2021, 2022, 11) == 5;
    assert CountPeriods(Year, 2021, 2022, 8) == 5;
    assert CountPeriods(Year, 2021, 2022, 5) == 5;
    assert CountPeriods(Year, 2021, 2022, 2) == 5;
  }
  lemma OfLastYears2(now: DateTime)
    requires AtTestNow(now)
    ensures Selected(General(Year, 2), NoArgs(), EnvAt(now, Exclusive)) == 5
  {
    assert PeriodIndex(Year, now) == 2023;
    assert PresetAnchor(General(Year, 2), NoArgs(), EnvAt(now, Exclusive)) == now;
    assert ModeOf(General(Year, 2), NoArgs(), EnvAt(now, Exclusive)) == Some(Exclusive);
    SelectedInWindow(General(Year, 2), NoArgs(), EnvAt(now, Exclusive));
    InPeriodsOfAllRows(Year, PeriodIndex(Year, now) - 2, PeriodIndex(Year, now) - 1);
    OfLastYears2Count(now);
  }
  lemma OfLastDecadeCount(now: DateTime)
    requires AtTestNow(now)
    ensures CountPeriods(Decade, PeriodIndex(Decade, now) - 1, PeriodIndex(Decade, now) - 1, 0) == 1
  {
    assert PeriodIndex(Decade, now) == 202;
    assert CountPeriods(Decade, 201, 201, 26) == 0;
    assert CountPeriods(Decade, 201, 201, 23) == 1;
    assert CountPeriods(Decade, 201, 201, 20) == 1;
    assert CountPeriods(Decade, 201, 201, 17) == 1;
    assert CountPeriods(Decade, 201, 201, 14) == 1;
    assert CountPeriods(Decade, 201, 201, 11) == 1;
    assert CountPeriods(Decade, 201, 201, 8) == 1;
    assert CountPeriods(Decade, 201, 201, 5) == 1;
    assert CountPeriods(Decade, 201, 201, 2) == 1;
  }
  lemma OfLastDecade(now: DateTime)
    requires AtTestNow(now)
    ensures Selected(PreviousPeriod(Decade), NoArgs(), EnvAt(now, Exclusive)) == 1
  {
    assert PeriodIndex(Decade, now) == 202;
    assert PresetAnchor(PreviousPeriod(Decade), NoArgs(), EnvAt(now, Exclusive)) == now;
    assert ModeOf(PreviousPeriod(Decade), NoArgs(), EnvAt(now, Exclusive)) == Some(Exclusive);
    SelectedInWindow(PreviousPeriod(Decade), NoArgs(), EnvAt(now, Exclusive));
    InPeriodsOfAllRows(Decade, PeriodIndex(Decade, now) - 1, PeriodIndex(Decade, now) - 1);
    OfLastDecadeCount(now);
  }
  lemma OfLastDecades2Count(now: DateTime)
    requires AtTestNow(now)
    ensures CountPeriods(Decade, PeriodIndex(Decade, now) - 2, PeriodIndex(Decade, now) - 1, 0) == 2
  {
    assert PeriodIndex(Decade, now) == 202;
    assert CountPeriods(Decade, 200, 201, 26) == 1;
    assert CountPeriods(Decade, 200, 201, 23) == 2;
    assert CountPeriods(Decade, 200, 201, 20) == 2;
    assert CountPeriods(Decade, 200, 201, 17) == 2;
    assert CountPeriods(Decade, 200, 201, 14) == 2;
    assert CountPeriods(Decade, 200, 201, 11) == 2;
    assert CountPeriods(Decade, 200, 201, 8) == 2;
    assert CountPeriods(Decade, 200, 201, 5) == 2;
    assert CountPeriods(Decade, 200, 201, 2) == 2;
  }
  lemma OfLastDecades2(now: DateTime)
    requires AtTestNow(now)
    ensures Selected(General(Decade, 2), NoArgs(), EnvAt(now, Exclusive)) == 2
  {
    assert PeriodIndex(Decade, now) == 202;
    assert PresetAnchor(General(Decade, 2), NoArgs(), EnvAt(now, Exclusive)) == now;
    assert ModeOf(General(Decade, 2), NoArgs(), EnvAt(now, Exclusive)) == Some(Exclusive);
    SelectedInWindow(General(Decade, 2), NoArgs(), EnvAt(now, Exclusive));
    InPeriodsOfAllRows(Decade, PeriodIndex(Decade, now) - 2, PeriodIndex(Decade, now) - 1);
    OfLastDecades2Count(now);
  }
  lemma OfLastCenturyCount(now: DateTime)
    requires AtTestNow(now)
    ensures CountPeriods(Century, PeriodIndex(Century, now) - 1, PeriodIndex(Century, now) - 1, 0) == 1
  {
    assert PeriodIndex(Century, now) == 20;
    assert CountPeriods(Century, 19, 19, 26) == 1;
    assert CountPeriods(Century, 19, 19, 23) == 1;
    assert CountPeriods(Century, 19, 19, 20) == 1;
    assert CountPeriods(Century, 19, 19, 17) == 1;
    assert CountPeriods(Century, 19, 19, 14) == 1;
    assert CountPeriods(Century, 19, 19, 11) == 1;
    assert CountPeriods(Century, 19, 19, 8) == 1;
    assert CountPeriods(Century, 19, 19, 5) == 1;
    assert CountPeriods(Century, 19, 19, 2) == 1;
  }
  lemma OfLastCentury(now: DateTime)
    requires AtTestNow(now)
    ensures Selected(PreviousPeriod(Century), NoArgs(), EnvAt(now, Exclusive)) == 1
  {
    assert PeriodIndex(Century, now) == 20;
    assert PresetAnchor(PreviousPeriod(Century), NoArgs(), EnvAt(now, Exclusive)) == now;
    assert ModeOf(PreviousPeriod(Century), NoArgs(), EnvAt(now, Exclusive)) == Some(Exclusive);
    SelectedInWindow(PreviousPeriod(Century), NoArgs(), EnvAt(now, Exclusive));
    InPeriodsOfAllRows(Century, PeriodIndex(Century, now) - 1, PeriodIndex(Century, now) - 1);
    OfLastCenturyCount(now);
  }
  lemma OfLastCenturies2Count(now: DateTime)
    requires AtTestNow(now)
    ensures CountPeriods(Century, PeriodIndex(Century, now) - 2, PeriodIndex(Century, now) - 1, 0) == 2
  {
    assert PeriodIndex(Century, now) == 20;
    assert CountPeriods(Century, 18, 19, 26) == 2;
    assert CountPeriods(Century, 18, 19, 23) == 2;
    assert CountPeriods(Century, 18, 19, 20) == 2;
    assert CountPeriods(Century, 18, 19, 17) == 2;
    assert CountPeriods(Century, 18, 19, 14) == 2;
    assert CountPeriods(Century, 18, 19, 11) == 2;
    assert CountPeriods(Century, 18, 19, 8) == 2;
    assert CountPeriods(Century, 18, 19, 5) == 2;
    assert CountPeriods(Century, 18, 19, 2) == 2;
  }
  lemma OfLastCenturies2(now: DateTime)
    requires AtTestNow(now)
    ensures Selected(General(Century, 2), NoArgs(), EnvAt(now, Exclusive)) == 2
  {
    assert PeriodIndex(Century, now) == 20;
    assert PresetAnchor(General(Century, 2), NoArgs(), EnvAt(now, Exclusive)) == now;
    assert ModeOf(General(Century, 2), NoArgs(), EnvAt(now, Exclusive)) == Some(Exclusive);
    SelectedInWindow(General(Century, 2), NoArgs(), EnvAt(now, Exclusive));
    InPeriodsOfAllRows(Century, PeriodIndex(Century, now) - 2, PeriodIndex(Century, now) - 1);
    OfLastCenturies2Count(now);
  }
  lemma OfLastMillenniumCount(now: DateTime)
    requires AtTestNow(now)
    ensures CountPeriods(Millennium, PeriodIndex(Millennium, now) - 1, PeriodIndex(Millennium, now) - 1, 0) == 2
  {
    assert PeriodIndex(Millennium, now) == 2;
    assert CountPeriods(Millennium, 1, 1, 26) == 2;
    assert CountPeriods(Millennium, 1, 1, 23) == 2;
    assert CountPeriods(Millennium, 1, 1, 20) == 2;
    assert CountPeriods(Millennium, 1, 1, 17) == 2;
    assert CountPeriods(Millennium, 1, 1, 14) == 2;
    assert CountPeriods(Millennium, 1, 1, 11) == 2;
    assert CountPeriods(Millennium, 1, 1, 8) == 2;
    assert CountPeriods(Millennium, 1, 1, 5) == 2;
    assert CountPeriods(Millennium, 1, 1, 2) == 2;
  }
  lemma OfLastMillennium(now: DateTime)
    requires AtTestNow(now)
    ensures Selected(PreviousPeriod(Millennium), NoArgs(), EnvAt(now, Exclusive)) == 2
  {
    assert PeriodIndex(Millennium, now) == 2;
    assert PresetAnchor(PreviousPeriod(Millennium), NoArgs(), EnvAt(now, Exclusive)) == now;
    assert ModeOf(PreviousPeriod(Millennium), NoArgs(), EnvAt(now, Exclusive)) == Some(Exclusive);
    SelectedInWindow(PreviousPeriod(Millennium), NoArgs(), EnvAt(now, Exclusive));
    InPeriodsOfAllRows(Millennium, PeriodIndex(Millennium, now) - 1, PeriodIndex(Millennium, now) - 1);
    OfLastMillenniumCount(now);
  }
  lemma OfLastMillenniums2Count(now: DateTime)
    requires AtTestNow(now)
    ensures CountPeriods(Millennium, PeriodIndex(Millennium, now) - 2, PeriodIndex(Millennium, now) - 1, 0) == 3
  {
    assert PeriodIndex(Millennium, now) == 2;
    assert CountPeriods(Millennium, 0, 1, 26) == 3;
    assert CountPeriods(Millennium, 0, 1, 23) == 3;
    assert CountPeriods(Millennium, 0, 1, 20) == 3;
    assert CountPeriods(Millennium, 0, 1, 17) == 3;
    assert CountPeriods(Millennium, 0, 1, 14) == 3;
    assert CountPeriods(Millennium, 0, 1, 11) == 3;
    assert CountPeriods(Millennium, 0, 1, 8) == 3;
    assert CountPeriods(Millennium, 0, 1, 5) == 3;
    assert CountPeriods(Millennium, 0, 1, 2) == 3;
  }
  lemma OfLastMillenniums2(now: DateTime)
    requires AtTestNow(now)
    ensures Selected(General(Millennium, 2), NoArgs(), EnvAt(now, Exclusive)) == 3
  {
    assert PeriodIndex(Millennium, now) == 2;
    assert PresetAnchor(General(Millennium, 2), NoArgs(), EnvAt(now, Exclusive)) == now;
    assert ModeOf(General(Millennium, 2), NoArgs(), EnvAt(now, Exclusive)) == Some(Exclusive);
    SelectedInWindow(General(Millennium, 2), NoArgs(), EnvAt(now, Exclusive));
    InPeriodsOfAllRows(Millennium, PeriodIndex(Millennium, now) - 2, PeriodIndex(Millennium, now) - 1);
    OfLastMillenniums2Count(now);
  }
  lemma SecondToNow(now: DateTime)
    requires AtTestNow(now)
    ensures Selected(ToNow(Second), NoArgs(), EnvAt(now, Exclusive)) == 1
  {
    assert PeriodIndex(Second, now) == 63815865315;
    assert PresetAnchor(ToNow(Second), NoArgs(), EnvAt(now, Exclusive)) == now;
    assert ModeOf(ToNow(Second), NoArgs(), EnvAt(now, Exclusive)) == Some(Inclusive);
    SelectedInWindow(ToNow(Second), NoArgs(), EnvAt(now, Exclusive));
    InPeriodsOfAllRows(Second, PeriodIndex(Second, now), PeriodIndex(Second, now));
    OfJustNowCount(now);
  }
  lemma MinuteToNowCount(now: DateTime)
    requires AtTestNow(now)
    ensures CountPeriods(Minute, PeriodIndex(Minute, now), PeriodIndex(Minute, now), 0) == 3
  {
    assert PeriodIndex(Minute, now) == 1063597755;
    assert CountPeriods(Minute, 1063597755, 1063597755, 26) == 0;
    assert CountPeriods(Minute, 1063597755, 1063597755, 23) == 0;
    assert CountPeriods(Minute, 1063597755, 1063597755, 20) == 0;
    assert CountPeriods(Minute, 1063597755, 1063597755, 17) == 0;
    assert CountPeriods(Minute, 1063597755, 1063597755, 14) == 0;
    assert CountPeriods(Minute, 1063597755, 1063597755, 11) == 0;
    assert CountPeriods(Minute, 1063597755, 1063597755, 8) == 0;
    assert CountPeriods(Minute, 1063597755, 1063597755, 5) == 0;
    assert CountPeriods(Minute, 1063597755, 1063597755, 2) == 1;
  }
  lemma MinuteToNow(now: DateTime)
    requires AtTestNow(now)
    ensures Selected(ToNow(Minute), NoArgs(), EnvAt(now, Exclusive)) == 3
  {
    assert PeriodIndex(Minute, now) == 1063597755;
    assert PresetAnchor(ToNow(Minute), NoArgs(), EnvAt(now, Exclusive)) == now;
    assert ModeOf(ToNow(Minute), NoArgs(), EnvAt(now, Exclusive)) == Some(Inclusive);
    SelectedInWindow(ToNow(Minute), NoArgs(), EnvAt(now, Exclusive));
    InPeriodsOfAllRows(Minute, PeriodIndex(Minute, now), PeriodIndex(Minute, now));
    MinuteToNowCount(now);
  }
  lemma HourToNowCount(now: DateTime)
    requires AtTestNow(now)
    ensures CountPeriods(Hour, PeriodIndex(Hour, now), PeriodIndex(Hour, now), 0) == 7
  {
    assert PeriodIndex(Hour, now) == 17726629;
    assert CountPeriods(Hour, 17726629, 17726629, 26) == 0;
    assert CountPeriods(Hour, 17726629, 17726629, 23) == 0;
    assert CountPeriods(Hour, 17726629, 17726629, 20) == 0;
    assert CountPeriods(Hour, 17726629, 17726629, 17) == 0;
    assert CountPeriods(Hour, 17726629, 17726629, 14) == 0;
    assert CountPeriods(Hour, 17726629, 17726629, 11) == 0;
    assert CountPeriods(Hour, 17726629, 17726629, 8) == 0;
    assert CountPeriods(Hour, 17726629, 17726629, 5) == 2;
    assert CountPeriods(Hour, 17726629, 17726629, 2) == 5;
  }
  lemma HourToNow(now: DateTime)
    requires AtTestNow(now)
    ensures Selected(ToNow(Hour), NoArgs(), EnvAt(now, Exclusive)) == 7
  {
    assert PeriodIndex(Hour, now) == 17726629;
    assert PresetAnchor(ToNow(Hour), NoArgs(), EnvAt(now, Exclusive)) == now;
    assert ModeOf(ToNow(Hour), NoArgs(), EnvAt(now, Exclusive)) == Some(Inclusive);
    SelectedInWindow(ToNow(Hour), NoArgs(), EnvAt(now, Exclusive));
    InPeriodsOfAllRows(Hour, PeriodIndex(Hour, now), PeriodIndex(Hour, now));
    HourToNowCount(now);
  }
  lemma DayToNow(now: DateTime)
    requires AtTestNow(now)
    ensures Selected(ToNow(Day), NoArgs(), EnvAt(now, Exclusive)) == 12
  {
    assert PeriodIndex(Day, now) == 738609;
    assert PresetAnchor(ToNow(Day), NoArgs(), EnvAt(now, Exclusive)) == now;
    assert ModeOf(ToNow(Day), NoArgs(), EnvAt(now, Exclusive)) == Some(Inclusive);
    SelectedInWindow(ToNow(Day), NoArgs(), EnvAt(now, Exclusive));
    InPeriodsOfAllRows(Day, PeriodIndex(Day, now), PeriodIndex(Day, now));
    OfTodayCount(now);
  }
  lemma WeekToDateCount(now: DateTime)
    requires AtTestNow(now)
    ensures CountPeriods(Week, PeriodIndex(Week, now), PeriodIndex(Week, now), 0) == 15
  {
    assert PeriodIndex(Week, now) == 105515;
    assert CountPeriods(Week, 105515, 105515, 26) == 0;
    assert CountPeriods(Week, 105515, 105515, 23) == 0;
    assert CountPeriods(Week, 105515, 105515, 20) == 0;
    assert CountPeriods(Week, 105515, 105515, 17) == 0;
    assert CountPeriods(Week, 105515, 105515, 14) == 1;
    assert CountPeriods(Week, 105515, 105515, 11) == 4;
    assert CountPeriods(Week, 105515, 105515, 8) == 7;
    assert CountPeriods(Week, 105515, 105515, 5) == 10;
    assert CountPeriods(Week, 105515, 105515, 2) == 13;
  }
  lemma WeekToDate(now: DateTime)
    requires AtTestNow(now)
    ensures Selected(ToNow(Week), NoArgs(), EnvAt(now, Exclusive)) == 15
  {
    assert PeriodIndex(Week, now) == 105515;
    assert PresetAnchor(ToNow(Week), NoArgs(), EnvAt(now, Exclusive)) == now;
    assert ModeOf(ToNow(Week), NoArgs(), EnvAt(now, Exclusive)) == Some(Inclusive);
    SelectedInWindow(ToNow(Week), NoArgs(), EnvAt(now, Exclusive));
    InPeriodsOfAllRows(Week, PeriodIndex(Week, now), PeriodIndex(Week, now));
    WeekToDateCount(now);
  }
  lemma MonthToDateCount(now: DateTime)
    requires AtTestNow(now)
    ensures CountPeriods(Month, PeriodIndex(Month, now), PeriodIndex(Month, now), 0) == 19
  {
    assert PeriodIndex(Month, now) == 24278;
    assert CountPeriods(Month, 24278, 24278, 26) == 0;
    assert CountPeriods(Month, 24278, 24278, 23) == 0;
    assert CountPeriods(Month, 24278, 24278, 20) == 0;
    assert CountPeriods(Month, 24278, 24278, 17) == 2;
    assert CountPeriods(Month, 24278, 24278, 14) == 5;
    assert CountPeriods(Month, 24278, 24278, 11) == 8;
    assert CountPeriods(Month, 24278, 24278, 8) == 11;
    assert CountPeriods(Month, 24278, 24278, 5) == 14;
    assert CountPeriods(Month, 24278, 24278, 2) == 17;
  }
  lemma MonthToDate(now: DateTime)
    requires AtTestNow(now)
    ensures Selected(ToNow(Month), NoArgs(), EnvAt(now, Exclusive)) == 19
  {
    assert PeriodIndex(Month, now) == 24278;
    assert PresetAnchor(ToNow(Month), NoArgs(), EnvAt(now, Exclusive)) == now;
    assert ModeOf(ToNow(Month), NoArgs(), EnvAt(now, Exclusive)) == Some(Inclusive);
    SelectedInWindow(ToNow(Month), NoArgs(), EnvAt(now, Exclusive));
    InPeriodsOfAllRows(Month, PeriodIndex(Month, now), PeriodIndex(Month, now));
    MonthToDateCount(now);
  }
  lemma QuarterToDateCount(now: DateTime)
    requires AtTestNow(now)
    ensures CountPeriods(Quarter, PeriodIndex(Quarter, now), PeriodIndex(Quarter, now), 0) == 20
  {
    assert PeriodIndex(Quarter, now) == 8092;
    assert CountPeriods(Quarter, 8092, 8092, 26) == 0;
    assert CountPeriods(Quarter, 8092, 8092, 23) == 0;
    assert CountPeriods(Quarter, 8092, 8092, 20) == 0;
    assert CountPeriods(Quarter, 8092, 8092, 17) == 3;
    assert CountPeriods(Quarter, 8092, 8092, 14) == 6;
    assert CountPeriods(Quarter, 8092, 8092, 11) == 9;
    assert CountPeriods(Quarter, 8092, 8092, 8) == 12;
    assert CountPeriods(Quarter, 8092, 8092, 5) == 15;
    assert CountPeriods(Quarter, 8092, 8092, 2) == 18;
  }
  lemma QuarterToDate(now: DateTime)
    requires AtTestNow(now)
    ensures Selected(ToNow(Quarter), NoArgs(), EnvAt(now, Exclusive)) == 20
  {
    assert PeriodIndex(Quarter, now) == 8092;
    assert PresetAnchor(ToNow(Quarter), NoArgs(), EnvAt(now, Exclusive)) == now;
    assert ModeOf(ToNow(Quarter), NoArgs(), EnvAt(now, Exclusive)) == Some(Inclusive);
    SelectedInWindow(ToNow(Quarter), NoArgs(), EnvAt(now, Exclusive));
    InPeriodsOfAllRows(Quarter, PeriodIndex(Quarter, now), PeriodIndex(Quarter, now));
    QuarterToDateCount(now);
  }
  lemma YearToDateCount(now: DateTime)
    requires AtTestNow(now)
    ensures CountPeriods(Year, PeriodIndex(Year, now), PeriodIndex(Year, now), 0) == 20
  {
    assert PeriodIndex(Year, now) == 2023;
    assert CountPeriods(Year, 2023, 2023, 26) == 0;
    assert CountPeriods(Year, 2023, 2023, 23) == 0;
    assert CountPeriods(Year, 2023, 2023, 20) == 0;
    assert CountPeriods(Year, 2023, 2023, 17) == 3;
    assert CountPeriods(Year, 2023, 2023, 14) == 6;
    assert CountPeriods(Year, 2023, 2023, 11) == 9;
    assert CountPeriods(Year, 2023, 2023, 8) == 12;
    assert CountPeriods(Year, 2023, 2023, 5) == 15;
    assert CountPeriods(Year, 2023, 2023, 2) == 18;
  }
  lemma YearToDate(now: DateTime)
    requires AtTestNow(now)
    ensures Selected(ToNow(Year), NoArgs(), EnvAt(now, Exclusive)) == 20
  {
    assert PeriodIndex(Year, now) == 2023;
    assert PresetAnchor(ToNow(Year), NoArgs(), EnvAt(now, Exclusive)) == now;
    assert ModeOf(ToNow(Year), NoArgs(), EnvAt(now, Exclusive)) == Some(Inclusive);
    SelectedInWindow(ToNow(Year), NoArgs(), EnvAt(now, Exclusive));
    InPeriodsOfAllRows(Year, PeriodIndex(Year, now), PeriodIndex(Year, now));
    YearToDateCount(now);
  }
  lemma DecadeToDateCount(now: DateTime)
    requires AtTestNow(now)
    ensures CountPeriods(Decade, PeriodIndex(Decade, now), PeriodIndex(Decade, now), 0) == 25
  {
    assert PeriodIndex(Decade, now) == 202;
    assert CountPeriods(Decade, 202, 202, 26) == 0;
    assert CountPeriods(Decade, 202, 202, 23) == 2;
    assert CountPeriods(Decade, 202, 202, 20) == 5;
    assert CountPeriods(Decade, 202, 202, 17) == 8;
    assert CountPeriods(Decade, 202, 202, 14) == 11;
    assert CountPeriods(Decade, 202, 202, 11) == 14;
    assert CountPeriods(Decade, 202, 202, 8) == 17;
    assert CountPeriods(Decade, 202, 202, 5) == 20;
    assert CountPeriods(Decade, 202, 202, 2) == 23;
  }
  lemma DecadeToDate(now: DateTime)
    requires AtTestNow(now)
    ensures Selected(ToNow(Decade), NoArgs(), EnvAt(now, Exclusive)) == 25
  {
    assert PeriodIndex(Decade, now) == 202;
    assert PresetAnchor(ToNow(Decade), NoArgs(), EnvAt(now, Exclusive)) == now;
    assert ModeOf(ToNow(Decade), NoArgs(), EnvAt(now, Exclusive)) == Some(Inclusive);
    SelectedInWindow(ToNow(Decade), NoArgs(), EnvAt(now, Exclusive));
    InPeriodsOfAllRows(Decade, PeriodIndex(Decade, now), PeriodIndex(Decade, now));
    DecadeToDateCount(now);
  }
  lemma CenturyToDateCount(now: DateTime)
    requires AtTestNow(now)
    ensures CountPeriods(Century, PeriodIndex(Century, now), PeriodIndex(Century, now), 0) == 26
  {
    assert PeriodIndex(Century, now) == 20;
    assert CountPeriods(Century, 20, 20, 26) == 0;
    assert CountPeriods(Century, 20, 20, 23) == 3;
    assert CountPeriods(Century, 20, 20, 20) == 6;
    assert CountPeriods(Century, 20, 20, 17) == 9;
    assert CountPeriods(Century, 20, 20, 14) == 12;
    assert CountPeriods(Century, 20, 20, 11) == 15;
    assert CountPeriods(Century, 20, 20, 8) == 18;
    assert CountPeriods(Century, 20, 20, 5) == 21;
    assert CountPeriods(Century, 20, 20, 2) == 24;
  }
  lemma CenturyToDate(now: DateTime)
    requires AtTestNow(now)
    ensures Selected(ToNow(Century), NoArgs(), EnvAt(now, Exclusive)) == 26
  {
    assert PeriodIndex(Century, now) == 20;
    assert PresetAnchor(ToNow(Century), NoArgs(), EnvAt(now, Exclusive)) == now;
    assert ModeOf(ToNow(Century), NoArgs(), EnvAt(now, Exclusive)) == Some(Inclusive);
    SelectedInWindow(ToNow(Century), NoArgs(), EnvAt(now, Exclusive));
    InPeriodsOfAllRows(Century, PeriodIndex(Century, now), PeriodIndex(Century, now));
    CenturyToDateCount(now);
  }
  lemma MillenniumToDateCount(now: DateTime)
    requires AtTestNow(now)
    ensures CountPeriods(Millennium, PeriodIndex(Millennium, now), PeriodIndex(Millennium, now), 0) == 26
  {
    assert PeriodIndex(Millennium, now) == 2;
    assert CountPeriods(Millennium, 2, 2, 26) == 0;
    assert CountPeriods(Millennium, 2, 2, 23) == 3;
    assert CountPeriods(Millennium, 2, 2, 20) == 6;
    assert CountPeriods(Millennium, 2, 2, 17) == 9;
    assert CountPeriods(Millennium, 2, 2, 14) == 12;
    assert CountPeriods(Millennium, 2, 2, 11) == 15;
    assert CountPeriods(Millennium, 2, 2, 8) == 18;
    assert CountPeriods(Millennium, 2, 2, 5) == 21;
    assert CountPeriods(Millennium, 2, 2, 2) == 24;
  }
  lemma MillenniumToDate(now: DateTime)
    requires AtTestNow(now)
    ensures Selected(ToNow(Millennium), NoArgs(), EnvAt(now, Exclusive)) == 26
  {
    assert PeriodIndex(Millennium, now) == 2;
    assert PresetAnchor(ToNow(Millennium), NoArgs(), EnvAt(now, Exclusive)) == now;
    assert ModeOf(ToNow(Millennium), NoArgs(), EnvAt(now, Exclusive)) == Some(Inclusive);
    SelectedInWindow(ToNow(Millennium), NoArgs(), EnvAt(now, Exclusive));
    InPeriodsOfAllRows(Millennium, PeriodIndex(Millennium, now), PeriodIndex(Millennium, now));
    MillenniumToDateCount(now);
  }
  lemma InclusiveOfLast15MinutesCount(now: DateTime)
    requires AtTestNow(now)
    ensures CountPeriods(Minute, PeriodIndex(Minute, now) - 14, PeriodIndex(Minute, now), 0) == 7
  {
    assert PeriodIndex(Minute, now) == 1063597755;
    assert CountPeriods(Minute, 1063597741, 1063597755, 26) == 0;
    assert CountPeriods(Minute, 1063597741, 1063597755, 23) == 0;
    assert CountPeriods(Minute, 1063597741, 1063597755, 20) == 0;
    assert CountPeriods(Minute, 1063597741, 1063597755, 17) == 0;
    assert CountPeriods(Minute, 1063597741, 1063597755, 14) == 0;
    assert CountPeriods(Minute, 1063597741, 1063597755, 11) == 0;
    assert CountPeriods(Minute, 1063597741, 1063597755, 8) == 0;
    assert CountPeriods(Minute, 1063597741, 1063597755, 5) == 2;
    assert CountPeriods(Minute, 1063597741, 1063597755, 2) == 5;
  }
  lemma InclusiveDefaultOfLast15Minutes(now: DateTime)
    requires AtTestNow(now)
    ensures Selected(FixedCount(Minute, 15), NoArgs(), EnvAt(now, Inclusive)) == 7
  {
    assert PeriodIndex(Minute, now) == 1063597755;
    assert PresetAnchor(FixedCount(Minute, 15), NoArgs(), EnvAt(now, Inclusive)) == now;
    assert ModeOf(FixedCount(Minute, 15), NoArgs(), EnvAt(now, Inclusive)) == Some(Inclusive);
    SelectedInWindow(FixedCount(Minute, 15), NoArgs(), EnvAt(now, Inclusive));
    InPeriodsOfAllRows(Minute, PeriodIndex(Minute, now) - 14, PeriodIndex(Minute, now));
    InclusiveOfLast15MinutesCount(now);
  }
  lemma InclusiveOfLast12HoursCount(now: DateTime)
    requires AtTestNow(now)
    ensures CountPeriods(Hour, PeriodIndex(Hour, now) - 11, PeriodIndex(Hour, now), 0) == 11
  {
    assert PeriodIndex(Hour, now) == 17726629;
    assert CountPeriods(Hour, 17726618, 17726629, 26) == 0;
    assert CountPeriods(Hour, 17726618, 17726629, 23) == 0;
    assert CountPeriods(Hour, 17726618, 17726629, 20) == 0;
    assert CountPeriods(Hour, 17726618, 17726629, 17) == 0;
    assert CountPeriods(Hour, 17726618, 17726629, 14) == 0;
    assert CountPeriods(Hour, 17726618, 17726629, 11) == 0;
    assert CountPeriods(Hour, 17726618, 17726629, 8) == 3;
    assert CountPeriods(Hour, 17726618, 17726629, 5) == 6;
    assert CountPeriods(Hour, 17726618, 17726629, 2) == 9;
  }
  lemma InclusiveDefaultOfLast12Hours(now: DateTime)
    requires AtTestNow(now)
    ensures Selected(FixedCount(Hour, 12), NoArgs(), EnvAt(now, Inclusive)) == 11
  {
    assert PeriodIndex(Hour, now) == 17726629;
    assert PresetAnchor(FixedCount(Hour, 12), NoArgs(), EnvAt(now, Inclusive)) == now;
    assert ModeOf(FixedCount(Hour, 12), NoArgs(), EnvAt(now, Inclusive)) == Some(Inclusive);
    SelectedInWindow(FixedCount(Hour, 12), NoArgs(), EnvAt(now, Inclusive));
    InPeriodsOfAllRows(Hour, PeriodIndex(Hour, now) - 11, PeriodIndex(Hour, now));
    InclusiveOfLast12HoursCount(now);
  }
  lemma InclusiveOfLast21DaysCount(now: DateTime)
    requires AtTestNow(now)
    ensures CountPeriods(Day, PeriodIndex(Day, now) - 20, PeriodIndex(Day, now), 0) == 17
  {
    assert PeriodIndex(Day, now) == 738609;
    assert CountPeriods(Day, 738589, 738609, 26) == 0;
    assert CountPeriods(Day, 738589, 738609, 23) == 0;
    assert CountPeriods(Day, 738589, 738609, 20) == 0;
    assert CountPeriods(Day, 738589, 738609, 17) == 0;
    assert CountPeriods(Day, 738589, 738609, 14) == 3;
    assert CountPeriods(Day, 738589, 738609, 11) == 6;
    assert CountPeriods(Day, 738589, 738609, 8) == 9;
    assert CountPeriods(Day, 738589, 738609, 5) == 12;
    assert CountPeriods(Day, 738589, 738609, 2) == 15;
  }
  lemma InclusiveDefaultOfLast21Days(now: DateTime)
    requires AtTestNow(now)
    ensures Selected(FixedCount(Day, 21), NoArgs(), EnvAt(now, Inclusive)) == 17
  {
    assert PeriodIndex(Day, now) == 738609;
    assert PresetAnchor(FixedCount(Day, 21), NoArgs(), EnvAt(now, Inclusive)) == now;
    assert ModeOf(FixedCount(Day, 21), NoArgs(), EnvAt(now, Inclusive)) == Some(Inclusive);
    SelectedInWindow(FixedCount(Day, 21), NoArgs(), EnvAt(now, Inclusive));
    InPeriodsOfAllRows(Day, PeriodIndex(Day, now) - 20, PeriodIndex(Day, now));
    InclusiveOfLast21DaysCount(now);
  }
  lemma InclusiveOfLast3WeeksCount(now: DateTime)
    requires AtTestNow(now)
    ensures CountPeriods(Week, PeriodIndex(Week, now) - 2, PeriodIndex(Week, now), 0) == 17
  {
    assert PeriodIndex(Week, now) == 105515;
    assert CountPeriods(Week, 105513, 105515, 26) == 0;
    assert CountPeriods(Week, 105513, 105515, 23) == 0;
    assert CountPeriods(Week, 105513, 105515, 20) == 0;
    assert CountPeriods(Week, 105513, 105515, 17) == 0;
    assert CountPeriods(Week, 105513, 105515, 14) == 3;
    assert CountPeriods(Week, 105513, 105515, 11) == 6;
    assert CountPeriods(Week, 105513, 105515, 8) == 9;
    assert CountPeriods(Week, 105513, 105515, 5) == 12;
    assert CountPeriods(Week, 105513, 105515, 2) == 15;
  }
  lemma InclusiveDefaultOfLast3Weeks(now: DateTime)
    requires AtTestNow(now)
    ensures Selected(FixedCount(Week, 3), NoArgs(), EnvAt(now, Inclusive)) == 17
  {
    assert PeriodIndex(Week, now) == 105515;
    assert PresetAnchor(FixedCount(Week, 3), NoArgs(), EnvAt(now, Inclusive)) == now;
    assert ModeOf(FixedCount(Week, 3), NoArgs(), EnvAt(now, Inclusive)) == Some(Inclusive);
    SelectedInWindow(FixedCount(Week, 3), NoArgs(), EnvAt(now, Inclusive));
    InPeriodsOfAllRows(Week, PeriodIndex(Week, now) - 2, PeriodIndex(Week, now));
    InclusiveOfLast3WeeksCount(now);
  }
  lemma InclusiveOfLast12MonthsCount(now: DateTime)
    requires AtTestNow(now)
    ensures CountPeriods(Month, PeriodIndex(Month, now) - 11, PeriodIndex(Month, now), 0) == 23
  {
    assert PeriodIndex(Month, now) == 24278;
    assert CountPeriods(Month, 24267, 24278, 26) == 0;
    assert CountPeriods(Month, 24267, 24278, 23) == 0;
    assert CountPeriods(Month, 24267, 24278, 20) == 3;
    assert CountPeriods(Month, 24267, 24278, 17) == 6;
    assert CountPeriods(Month, 24267, 24278, 14) == 9;
    assert CountPeriods(Month, 24267, 24278, 11) == 12;
    assert CountPeriods(Month, 24267, 24278, 8) == 15;
    assert CountPeriods(Month, 24267, 24278, 5) == 18;
    assert CountPeriods(Month, 24267, 24278, 2) == 21;
  }
  lemma InclusiveDefaultOfLast12Months(now: DateTime)
    requires AtTestNow(now)
    ensures Selected(FixedCount(Month, 12), NoArgs(), EnvAt(now, Inclusive)) == 23
  {
    assert PeriodIndex(Month, now) == 24278;
    assert PresetAnchor(FixedCount(Month, 12), NoArgs(), EnvAt(now, Inclusive)) == now;
    assert ModeOf(FixedCount(Month, 12), NoArgs(), EnvAt(now, Inclusive)) == Some(Inclusive);
    SelectedInWindow(FixedCount(Month, 12), NoArgs(), EnvAt(now, Inclusive));
    InPeriodsOfAllRows(Month, PeriodIndex(Month, now) - 11, PeriodIndex(Month, now));
    InclusiveOfLast12MonthsCount(now);
  }
  lemma InclusiveOfLastQuarters8Count(now: DateTime)
    requires AtTestNow(now)
    ensures CountPeriods(Quarter, PeriodIndex(Quarter, now) - 7, PeriodIndex(Quarter, now), 0) == 24
  {
    assert PeriodIndex(Quarter, now) == 8092;
    assert CountPeriods(Quarter, 8085, 8092, 26) == 0;
    assert CountPeriods(Quarter, 8085, 8092, 23) == 1;
    assert CountPeriods(Quarter, 8085, 8092, 20) == 4;
    assert CountPeriods(Quarter, 8085, 8092, 17) == 7;
    assert CountPeriods(Quarter, 8085, 8092, 14) == 10;
    assert CountPeriods(Quarter, 8085, 8092, 11) == 13;
    assert CountPeriods(Quarter, 8085, 8092, 8) == 16;
    assert CountPeriods(Quarter, 8085, 8092, 5) == 19;
    assert CountPeriods(Quarter, 8085, 8092, 2) == 22;
  }
  lemma InclusiveDefaultOfLastQuarters8(now: DateTime)
    requires AtTestNow(now)
    ensures Selected(General(Quarter, 8), NoArgs(), EnvAt(now, Inclusive)) == 24
  {
    assert PeriodIndex(Quarter, now) == 8092;
    assert PresetAnchor(General(Quarter, 8), NoArgs(), EnvAt(now, Inclusive)) == now;
    assert ModeOf(General(Quarter, 8), NoArgs(), EnvAt(now, Inclusive)) == Some(Inclusive);
    SelectedInWindow(General(Quarter, 8), NoArgs(), EnvAt(now, Inclusive));
    InPeriodsOfAllRows(Quarter, PeriodIndex(Quarter, now) - 7, PeriodIndex(Quarter, now));
    InclusiveOfLastQuarters8Count(now);
  }
  lemma InclusiveDefaultOfLastYear(now: DateTime)
    requires AtTestNow(now)
    ensures Selected(PreviousPeriod(Year), NoArgs(), EnvAt(now, Inclusive)) == 4
  {
    assert PeriodIndex(Year, now) == 2023;
    assert PresetAnchor(PreviousPeriod(Year), NoArgs(), EnvAt(now, Inclusive)) == now;
    assert ModeOf(PreviousPeriod(Year), NoArgs(), EnvAt(now, Inclusive)) == Some(Exclusive);
    SelectedInWindow(PreviousPeriod(Year), NoArgs(), EnvAt(now, Inclusive));
    InPeriodsOfAllRows(Year, PeriodIndex(Year, now) - 1, PeriodIndex(Year, now) - 1);
    OfLastYearCount(now);
  }
  lemma InclusiveDefaultOfLastDecade(now: DateTime)
    requires AtTestNow(now)
    ensures Selected(PreviousPeriod(Decade), NoArgs(), EnvAt(now, Inclusive)) == 1
  {
    assert PeriodIndex(Decade, now) == 202;
    assert PresetAnchor(PreviousPeriod(Decade), NoArgs(), EnvAt(now, Inclusive)) == now;
    assert ModeOf(PreviousPeriod(Decade), NoArgs(), EnvAt(now, Inclusive)) == Some(Exclusive);
    SelectedInWindow(PreviousPeriod(Decade), NoArgs(), EnvAt(now, Inclusive));
    InPeriodsOfAllRows(Decade, PeriodIndex(Decade, now) - 1, PeriodIndex(Decade, now) - 1);
    OfLastDecadeCount(now);
  }
  lemma InclusiveDefaultOfLastCentury(now: DateTime)
    requires AtTestNow(now)
    ensures Selected(PreviousPeriod(Century), NoArgs(), EnvAt(now, Inclusive)) == 1
  {
    assert PeriodIndex(Century, now) == 20;
    assert PresetAnchor(PreviousPeriod(Century), NoArgs(), EnvAt(now, Inclusive)) == now;
    assert ModeOf(PreviousPeriod(Century), NoArgs(), EnvAt(now, Inclusive)) == Some(Exclusive);
    SelectedInWindow(PreviousPeriod(Century), NoArgs(), EnvAt(now, Inclusive));
    InPeriodsOfAllRows(Century, PeriodIndex(Century, now) - 1, PeriodIndex(Century, now) - 1);
    OfLastCenturyCount(now);
  }
  lemma InclusiveDefaultOfLastMillennium(now: DateTime)
    requires AtTestNow(now)
    ensures Selected(PreviousPeriod(Millennium), NoArgs(), EnvAt(now, Inclusive)) == 2
  {
    assert PeriodIndex(Millennium, now) == 2;
    assert PresetAnchor(PreviousPeriod(Millennium), NoArgs(), EnvAt(now, Inclusive)) == now;
    assert ModeOf(PreviousPeriod(Millennium), NoArgs(), EnvAt(now, Inclusive)) == Some(Exclusive);
    SelectedInWindow(PreviousPeriod(Millennium), NoArgs(), EnvAt(now, Inclusive));
    InPeriodsOfAllRows(Millennium, PeriodIndex(Millennium, now) - 1, PeriodIndex(Millennium, now) - 1);
    OfLastMillenniumCount(now);
  }
  lemma InclusiveArgumentOfLast15Minutes(now: DateTime)
    requires AtTestNow(now)
    ensures Selected(FixedCount(Minute, 15), Call(None, Some(Inclusive), None), EnvAt(now, Exclusive)) == 7
  {
    assert PeriodIndex(Minute, now) == 1063597755;
    assert PresetAnchor(FixedCount(Minute, 15), Call(None, Some(Inclusive), None), EnvAt(now, Exclusive)) == now;
    assert ModeOf(FixedCount(Minute, 15), Call(None, Some(Inclusive), None), EnvAt(now, Exclusive)) == Some(Inclusive);
    SelectedInWindow(FixedCount(Minute, 15), Call(None, Some(Inclusive), None), EnvAt(now, Exclusive));
    InPeriodsOfAllRows(Minute, PeriodIndex(Minute, now) - 14, PeriodIndex(Minute, now));
    InclusiveOfLast15MinutesCount(now);
  }
  lemma InclusiveArgumentOfLast12Hours(now: DateTime)
    requires AtTestNow(now)
    ensures Selected(FixedCount(Hour, 12), Call(None, Some(Inclusive), None), EnvAt(now, Exclusive)) == 11
  {
    assert PeriodIndex(Hour, now) == 17726629;
    assert PresetAnchor(FixedCount(Hour, 12), Call(None, Some(Inclusive), None), EnvAt(now, Exclusive)) == now;
    assert ModeOf(FixedCount(Hour, 12), Call(None, Some(Inclusive), None), EnvAt(now, Exclusive)) == Some(Inclusive);
    SelectedInWindow(FixedCount(Hour, 12), Call(None, Some(Inclusive), None), EnvAt(now, Exclusive));
    InPeriodsOfAllRows(Hour, PeriodIndex(Hour, now) - 11, PeriodIndex(Hour, now));
    InclusiveOfLast12HoursCount(now);
  }
  lemma InclusiveArgumentOfLast21Days(now: DateTime)
    requires AtTestNow(now)
    ensures Selected(FixedCount(Day, 21), Call(None, Some(Inclusive), None), EnvAt(now, Exclusive)) == 17
  {
    assert PeriodIndex(Day, now) == 738609;
    assert PresetAnchor(FixedCount(Day, 21), Call(None, Some(Inclusive), None), EnvAt(now, Exclusive)) == now;
    assert ModeOf(FixedCount(Day, 21), Call(None, Some(Inclusive), None), EnvAt(now, Exclusive)) == Some(Inclusive);
    SelectedInWindow(FixedCount(Day, 21), Call(None, Some(Inclusive), None), EnvAt(now, Exclusive));
    InPeriodsOfAllRows(Day, PeriodIndex(Day, now) - 20, PeriodIndex(Day, now));
    InclusiveOfLast21DaysCount(now);
  }
  lemma InclusiveArgumentOfLast3Weeks(now: DateTime)
    requires AtTestNow(now)
    ensures Selected(FixedCount(Week, 3), Call(None, Some(Inclusive), None), EnvAt(now, Exclusive)) == 17
  {
    assert PeriodIndex(Week, now) == 105515;
    assert PresetAnchor(FixedCount(Week, 3), Call(None, Some(Inclusive), None), EnvAt(now, Exclusive)) == now;
    assert ModeOf(FixedCount(Week, 3), Call(None, Some(Inclusive), None), EnvAt(now, Exclusive)) == Some(Inclusive);
    SelectedInWindow(FixedCount(Week, 3), Call(None, Some(Inclusive), None), EnvAt(now, Exclusive));
    InPeriodsOfAllRows(Week, PeriodIndex(Week, now) - 2, PeriodIndex(Week, now));
    InclusiveOfLast3WeeksCount(now);
  }
  lemma InclusiveArgumentOfLast12Months(now: DateTime)
    requires AtTestNow(now)
    ensures Selected(FixedCount(Month, 12), Call(None, Some(Inclusive), None), EnvAt(now, Exclusive)) == 23
  {
    assert PeriodIndex(Month, now) == 24278;
    assert PresetAnchor(FixedCount(Month, 12), Call(None, Some(Inclusive), None), EnvAt(now, Exclusive)) == now;
    assert ModeOf(FixedCount(Month, 12), Call(None, Some(Inclusive), None), EnvAt(now, Exclusive)) == Some(Inclusive);
    SelectedInWindow(FixedCount(Month, 12), Call(None, Some(Inclusive), None), EnvAt(now, Exclusive));
    InPeriodsOfAllRows(Month, PeriodIndex(Month, now) - 11, PeriodIndex(Month, now));
    InclusiveOfLast12MonthsCount(now);
  }
  lemma InclusiveArgumentOfLastQuarters8(now: DateTime)
    requires AtTestNow(now)
    ensures Selected(General(Quarter, 8), Call(None, Some(Inclusive), None), EnvAt(now, Exclusive)) == 24
  {
    assert PeriodIndex(Quarter, now) == 8092;
    assert PresetAnchor(General(Quarter, 8), Call(None, Some(Inclusive), None), EnvAt(now, Exclusive)) == now;
    assert ModeOf(General(Quarter, 8), Call(None, Some(Inclusive), None), EnvAt(now, Exclusive)) == Some(Inclusive);
    SelectedInWindow(General(Quarter, 8), Call(None, Some(Inclusive), None), EnvAt(now, Exclusive));
    InPeriodsOfAllRows(Quarter, PeriodIndex(Quarter, now) - 7, PeriodIndex(Quarter, now));
    InclusiveOfLastQuarters8Count(now);
  }
}
