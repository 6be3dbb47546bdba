/**
 The range calculator behind every date scope: for a unit, a count and an
 anchor instant it computes the closed interval [from, to] that the query
 filters the created-at column by, and it chooses that column.

 In exclusive mode the interval is the `value` whole periods before the
 anchor's own period; in inclusive mode it is the anchor's period and the
 `value - 1` periods before it (RangeMembership). A count below 1 is
 refused, and so is a configured default range that is not a backing value
 of the DateRange enum.
 */
module DateScopes {
  import opened Wrappers
  import opened Calendar
  import opened Units
  import opened DateRanges

  /** The closed interval handed to whereBetween. */
  datatype Range = Range(from: DateTime, to: DateTime)

  /** The query a scope adds: column between from and to, both ends included. */
  datatype Scope = Scope(column: string, range: Range)

  datatype Error =
    | InvalidValue                  // the count is not a positive integer
    | NotADateRange(value: string)  // the configured default range converts to no case

  /** The two configuration entries the scopes read. */
  datatype Config = Config(defaultRange: string, createdColumn: string)

  /** The shipped configuration: exclusive ranges over created_at. */
  function DefaultConfig(): Config {
    Config(Exclusive.Value(), "created_at")
  }

  /** What the scopes read from their surroundings: the clock, the
      configuration, and the model's CREATED_AT constant. */
  datatype Env = Env(now: DateTime, config: Config, createdAt: string)

  predicate ValidRange(r: Range) {
    r.from.Valid() && r.to.Valid()
  }

  /** An instant passes the filter when it lies between the bounds, both included. */
  predicate Contains(r: Range, x: DateTime)
    requires ValidRange(r) && x.Valid()
  {
    Seconds(r.from) <= Seconds(x) <= Seconds(r.to)
  }

  /** That is the closed interval a database's BETWEEN selects: from is not
      later than x, and x is not later than to, comparing field by field. */
  lemma ContainsIsBetween(r: Range, x: DateTime)
    requires ValidRange(r) && x.Valid()
    ensures Contains(r, x) <==> NotLater(r.from, x) && NotLater(x, r.to)
  {
    SecondsOrderIsFieldOrder(r.from, x);
    SecondsOrderIsFieldOrder(x, r.to);
  }

  // ---------------------------------------------------------------------
  // The range

  /** The interval of `value` periods of unit u, counted back from the anchor. */
  function LastUnitRange(u: Unit, value: int, anchor: DateTime, mode: DateRange): (r: Range)
    requires anchor.Valid()
    ensures ValidRange(r)
  {
    match mode
    case Exclusive => Range(StartOf(u, Sub(u, anchor, value)), EndOf(u, Sub(u, anchor, 1)))
    case Inclusive => Range(StartOf(u, Sub(u, anchor, value - 1)), EndOf(u, anchor))
  }

  /** The instants in the range are exactly those of `value` consecutive
      periods: the ones before the anchor's period in exclusive mode, the
      ones ending with it in inclusive mode. */
  lemma RangeMembership(u: Unit, value: int, anchor: DateTime, mode: DateRange, x: DateTime)
    requires anchor.Valid() && x.Valid()
    ensures mode == Exclusive ==>
              (Contains(LastUnitRange(u, value, anchor, mode), x) <==>
               PeriodIndex(u, anchor) - value <= PeriodIndex(u, x) < PeriodIndex(u, anchor))
    ensures mode == Inclusive ==>
              (Contains(LastUnitRange(u, value, anchor, mode), x) <==>
               PeriodIndex(u, anchor) - value < PeriodIndex(u, x) <= PeriodIndex(u, anchor))
  {
    match mode
    case Exclusive =>
      StartOfIsFirst(u, Sub(u, anchor, value), x);
      EndOfIsLast(u, Sub(u, anchor, 1), x);
    case Inclusive =>
      StartOfIsFirst(u, Sub(u, anchor, value - 1), x);
      EndOfIsLast(u, anchor, x);
  }

  /** With a positive count the range is not empty: from is at or before to. */
  lemma RangeOrdered(u: Unit, value: int, anchor: DateTime, mode: DateRange)
    requires anchor.Valid() && value >= 1
    ensures Seconds(LastUnitRange(u, value, anchor, mode).from) <= Seconds(LastUnitRange(u, value, anchor, mode).to)
  {
    var r := LastUnitRange(u, value, anchor, mode);
    BoundsInOwnPeriod(u, Sub(u, anchor, if mode == Exclusive then value else value - 1));
    RangeMembership(u, value, anchor, mode, r.from);
  }

  /** The bounds are aligned to the unit: from starts a period and to ends one. */
  lemma RangeAligned(u: Unit, value: int, anchor: DateTime, mode: DateRange)
    requires anchor.Valid()
    ensures StartOf(u, LastUnitRange(u, value, anchor, mode).from) == LastUnitRange(u, value, anchor, mode).from
    ensures EndOf(u, LastUnitRange(u, value, anchor, mode).to) == LastUnitRange(u, value, anchor, mode).to
  {
    match mode
    case Exclusive =>
      BoundsInOwnPeriod(u, Sub(u, anchor, value));
      BoundsInOwnPeriod(u, Sub(u, anchor, 1));
    case Inclusive =>
      BoundsInOwnPeriod(u, Sub(u, anchor, value - 1));
      BoundsInOwnPeriod(u, anchor);
  }

  /** An exclusive range ends before the anchor's period starts, so it never
      holds the anchor. */
  lemma ExclusiveEndsBeforeAnchorPeriod(u: Unit, value: int, anchor: DateTime)
    requires anchor.Valid()
    ensures Seconds(LastUnitRange(u, value, anchor, Exclusive).to) < Seconds(StartOf(u, anchor))
    ensures !Contains(LastUnitRange(u, value, anchor, Exclusive), anchor)
  {
    var s := StartOf(u, anchor);
    BoundsInOwnPeriod(u, anchor);
    EndOfIsLast(u, Sub(u, anchor, 1), s);
    RangeMembership(u, value, anchor, Exclusive, anchor);
  }

  /** An inclusive range with a positive count holds the anchor, and with
      count 1 it is exactly the anchor's period. */
  lemma InclusiveHoldsAnchor(u: Unit, value: int, anchor: DateTime)
    requires anchor.Valid() && value >= 1
    ensures Contains(LastUnitRange(u, value, anchor, Inclusive), anchor)
    ensures LastUnitRange(u, value, anchor, Inclusive).to == EndOf(u, anchor)
    ensures value == 1 ==> LastUnitRange(u, value, anchor, Inclusive) == Range(StartOf(u, anchor), EndOf(u, anchor))
  {
    RangeMembership(u, value, anchor, Inclusive, anchor);
    if value == 1 {
      SamePeriodSameStart(u, Sub(u, anchor, 0), anchor);
    }
  }

  /** An exclusive range is the inclusive range of the same count anchored
      one period earlier. */
  lemma ExclusiveIsInclusiveOfPrevious(u: Unit, value: int, anchor: DateTime)
    requires anchor.Valid()
    ensures LastUnitRange(u, value, anchor, Exclusive)
            == LastUnitRange(u, value, Sub(u, anchor, 1), Inclusive)
  {
    var prev := Sub(u, anchor, 1);
    var a, b := Sub(u, anchor, value), Sub(u, prev, value - 1);
    assert PeriodIndex(u, a) == PeriodIndex(u, anchor) - value;
    assert PeriodIndex(u, b) == PeriodIndex(u, anchor) - value;
    SamePeriodSameStart(u, a, b);
    assert StartOf(u, a) == StartOf(u, b);
  }

  // ---------------------------------------------------------------------
  // The filter

  predicate AllValid(xs: seq<DateTime>) {
    forall i :: 0 <= i < |xs| ==> xs[i].Valid()
  }

  /** The instants of xs that the range lets through, in their order: every
      instant kept is in xs and in the range (and, by WhereComplete, every
      instant of xs in the range is kept). */
  function Where(r: Range, xs: seq<DateTime>): (ys: seq<DateTime>)
    requires ValidRange(r) && AllValid(xs)
    ensures |ys| <= |xs|
    ensures forall i :: 0 <= i < |ys| ==> ys[i] in xs && ys[i].Valid() && Contains(r, ys[i])
  {
    if xs == [] then []
    else (if Contains(r, xs[0]) then [xs[0]] else []) + Where(r, xs[1..])
  }

  /** The instants of xs whose period of unit u lies between lo and hi, in
      their order: every instant kept is in xs with its period in [lo, hi]
      (InPeriodsSound), and every such instant of xs
      is kept (InPeriodsComplete). */
  function InPeriods(u: Unit, lo: int, hi: int, xs: seq<DateTime>): (ys: seq<DateTime>)
    requires AllValid(xs)
    ensures |ys| <= |xs|
  {
    if xs == [] then []
    else (if lo <= PeriodIndex(u, xs[0]) <= hi then [xs[0]] else []) + InPeriods(u, lo, hi, xs[1..])
  }

  /** Nothing in the range is dropped: every instant of xs that the range
      contains is kept. */
  lemma {:induction false} WhereComplete(r: Range, xs: seq<DateTime>)
    requires ValidRange(r) && AllValid(xs)
    ensures forall i :: 0 <= i < |xs| && Contains(r, xs[i]) ==> xs[i] in Where(r, xs)
  {
    if xs != [] {
      WhereComplete(r, xs[1..]);
      assert forall i :: 1 <= i < |xs| ==> xs[i] == xs[1..][i - 1];
    }
  }

  /** Everything InPeriods keeps is an instant of xs whose period lies in [lo, hi]. */
  lemma {:induction false} InPeriodsSound(u: Unit, lo: int, hi: int, xs: seq<DateTime>)
    requires AllValid(xs)
    ensures forall y :: y in InPeriods(u, lo, hi, xs) ==> y in xs && y.Valid() && lo <= PeriodIndex(u, y) <= hi
  {
    if xs != [] {
      InPeriodsSound(u, lo, hi, xs[1..]);
      var head := if lo <= PeriodIndex(u, xs[0]) <= hi then [xs[0]] else [];
      var rest := InPeriods(u, lo, hi, xs[1..]);
      assert InPeriods(u, lo, hi, xs) == head + rest;
      forall y | y in head + rest
        ensures y in xs && y.Valid() && lo <= PeriodIndex(u, y) <= hi
      {
        if y !in head {
          assert y in rest;
        }
      }
    }
  }

  /** Every instant of xs whose period lies in [lo, hi] is kept. */
  lemma {:induction false} InPeriodsComplete(u: Unit, lo: int, hi: int, xs: seq<DateTime>)
    requires AllValid(xs)
    ensures forall i :: 0 <= i < |xs| && lo <= PeriodIndex(u, xs[i]) <= hi ==> xs[i] in InPeriods(u, lo, hi, xs)
  {
    if xs != [] {
      InPeriodsComplete(u, lo, hi, xs[1..]);
      assert forall i :: 1 <= i < |xs| ==> xs[i] == xs[1..][i - 1];
    }
  }

  /** The periods a range covers: the `value` periods before the anchor's
      in exclusive mode, the `value` periods ending with it in inclusive mode. */
  function Window(u: Unit, value: int, anchor: DateTime, mode: DateRange): (w: (int, int))
    requires anchor.Valid()
    ensures w.1 - w.0 + 1 == value
    ensures mode == Exclusive ==> w.1 == PeriodIndex(u, anchor) - 1
    ensures mode == Inclusive ==> w.1 == PeriodIndex(u, anchor)
  {
    var p := PeriodIndex(u, anchor);
    match mode
    case Exclusive => (p - value, p - 1)
    case Inclusive => (p - value + 1, p)
  }

  /** Filtering by the range selects exactly the instants whose period lies
      in its window. */
  lemma {:induction false} WhereIsInWindow(u: Unit, value: int, anchor: DateTime, mode: DateRange, xs: seq<DateTime>)
    requires anchor.Valid() && AllValid(xs)
    ensures var w := Window(u, value, anchor, mode);
            Where(LastUnitRange(u, value, anchor, mode), xs) == InPeriods(u, w.0, w.1, xs)
  {
    if xs != [] {
      WhereIsInWindow(u, value, anchor, mode, xs[1..]);
      RangeMembership(u, value, anchor, mode, xs[0]);
    }
  }

  // ---------------------------------------------------------------------
  // Unit names and the fixed-length table

  /** The unit's name as the presets pass it. */
  function UnitName(u: Unit): string {
    match u
    case Second => "second"
    case Minute => "minute"
    case Hour => "hour"
    case Day => "day"
    case Week => "week"
    case Month => "month"
    case Quarter => "quarter"
    case Year => "year"
    case Decade => "decade"
    case Century => "century"
    case Millennium => "millennium"
  }

  /** The units whose length never varies; every other unit is subtracted
      without overflow. */
  const FixedLengthDateUnits: seq<string> := ["second", "minute", "hour", "day", "week"]

  /** Plain subtraction is chosen exactly for the units named in the table,
      and different units have different names. */
  lemma FixedLengthTable(u: Unit, v: Unit)
    ensures UnitName(u) in FixedLengthDateUnits <==> IsFixedLength(u)
    ensures UnitName(u) == UnitName(v) ==> u == v
  {
    match u
    case Second =>
    case Minute =>
    case Hour =>
    case Day =>
    case Week =>
    case Month => assert UnitName(u)[0] == 'm' && UnitName(u)[1] == 'o';
    case Quarter => assert UnitName(u)[0] == 'q';
    case Year => assert UnitName(u)[0] == 'y';
    case Decade => assert UnitName(u)[0] == 'd' && UnitName(u)[1] == 'e';
    case Century => assert UnitName(u)[0] == 'c';
    case Millennium => assert UnitName(u)[0] == 'm' && UnitName(u)[1] == 'i';
  }

  // ---------------------------------------------------------------------
  // Column and scope

  /** An explicit column wins; without one, a model with a custom CREATED_AT
      uses it, and a model with the stock "created_at" uses the configured column. */
  function ResolveColumn(column: Option<string>, createdAt: string, config: Config): (c: string)
    ensures column.Some? ==> c == column.value
    ensures column.None? && createdAt != "created_at" ==> c == createdAt
    ensures column.None? && createdAt == "created_at" ==> c == config.createdColumn
  {
    match column
    case Some(name) => name
    case None => if createdAt != "created_at" then createdAt else config.createdColumn
  }

  /** The range mode in effect: the one passed, else the configured default. */
  function ChosenRange(customRange: Option<DateRange>, config: Config): (r: Option<DateRange>)
    ensures customRange.Some? ==> r == customRange
    ensures customRange.None? ==> r == From(config.defaultRange)
  {
    match customRange
    case Some(mode) => Some(mode)
    case None => From(config.defaultRange)
  }

  /** The anchor: the given start, else the current instant; it is a valid
      instant whenever both of those are. */
  function Anchor(startFrom: Option<DateTime>, now: DateTime): (a: DateTime)
    ensures startFrom.Some? ==> a == startFrom.value
    ensures startFrom.None? ==> a == now
    ensures now.Valid() && (startFrom.Some? ==> startFrom.value.Valid()) ==> a.Valid()
  {
    match startFrom
    case Some(t) => t
    case None => now
  }

  /** The scope for the last `value` units: refuses a count below 1 first,
      then a default range that is not a DateRange, and otherwise filters
      the chosen column by the range. */
  function OfLastUnit(u: Unit, value: int, startFrom: Option<DateTime>, customRange: Option<DateRange>,
                      column: Option<string>, env: Env): (r: Result<Scope, Error>)
    requires env.now.Valid()
    requires startFrom.Some? ==> startFrom.value.Valid()
    ensures value <= 0 ==> r == Err(InvalidValue)
    ensures value > 0 && ChosenRange(customRange, env.config).None? ==>
              r == Err(NotADateRange(env.config.defaultRange))
    ensures r.Ok? ==>
              && value > 0
              && ChosenRange(customRange, env.config).Some?
              && r.value.column == ResolveColumn(column, env.createdAt, env.config)
              && r.value.range
                 == LastUnitRange(u, value, Anchor(startFrom, env.now), ChosenRange(customRange, env.config).value)
  {
    if value <= 0 then Err(InvalidValue)
    else
      match ChosenRange(customRange, env.config)
      case None => Err(NotADateRange(env.config.defaultRange))
      case Some(mode) =>
        var anchor := Anchor(startFrom, env.now);
        Ok(Scope(ResolveColumn(column, env.createdAt, env.config), LastUnitRange(u, value, anchor, mode)))
  }

  /** A positive count and a valid mode always give a scope. */
  lemma OfLastUnitSucceeds(u: Unit, value: int, startFrom: Option<DateTime>, customRange: Option<DateRange>,
                           column: Option<string>, env: Env)
    requires env.now.Valid()
    requires startFrom.Some? ==> startFrom.value.Valid()
    requires value > 0 && (customRange.Some? || From(env.config.defaultRange).Some?)
    ensures OfLastUnit(u, value, startFrom, customRange, column, env).Ok?
  {
  }

  /** A mode passed explicitly overrides the configured default: the result
      does not depend on the default at all. */
  lemma ExplicitRangeOverridesDefault(u: Unit, value: int, startFrom: Option<DateTime>, mode: DateRange,
                                      column: Option<string>, env: Env, defaultRange: string)
    requires env.now.Valid()
    requires startFrom.Some? ==> startFrom.value.Valid()
    ensures OfLastUnit(u, value, startFrom, Some(mode), column, env)
            == OfLastUnit(u, value, startFrom, Some(mode), column,
                          env.(config := env.config.(defaultRange := defaultRange)))
  {
  }

  /** Without a mode the configured default is used: it behaves as if that
      mode had been passed. */
  lemma DefaultRangeUsed(u: Unit, value: int, startFrom: Option<DateTime>, mode: DateRange,
                         column: Option<string>, env: Env)
    requires env.now.Valid()
    requires startFrom.Some? ==> startFrom.value.Valid()
    requires env.config.defaultRange == mode.Value()
    ensures OfLastUnit(u, value, startFrom, None, column, env)
            == OfLastUnit(u, value, startFrom, Some(mode), column, env)
  {
    FromValue(mode);
  }
}
