/**
 The named scopes. Each one delegates to the range calculator with a unit,
 a count and either a mode of its own or the caller's. The scopes come in
 five families, each keyed by its unit:

   CurrentPeriod  ofJustNow (second), ofToday (day): inclusive, count 1
   PreviousPeriod ofLastSecond, ofLastMinute, ofLastHour, ofYesterday (day),
                  ofLastWeek, ofLastMonth, ofLastQuarter, ofLastYear,
                  ofLastDecade, ofLastCentury, ofLastMillennium: exclusive, count 1
   FixedCount     ofLast15Seconds … ofLast4Quarters: the count in the name,
                  the caller's mode
   General        ofLastSeconds(n) … ofLastMillenniums(n): the caller's
                  count and mode
   ToNow          secondToNow … millenniumToDate: inclusive, count 1,
                  always anchored at the current instant
 */
module Presets {
  import opened Wrappers
  import opened Calendar
  import opened Units
  import opened DateRanges
  import opened DateScopes

  datatype Preset =
    | CurrentPeriod(unit: Unit)
    | PreviousPeriod(unit: Unit)
    | FixedCount(unit: Unit, count: int)
    | General(unit: Unit, count: int)
    | ToNow(unit: Unit)

  /** The counts that have a scope of their own, by unit. Every such count
      is at least 2, and years and longer units have none. */
  function NamedCounts(u: Unit): (s: set<int>)
    ensures forall n :: n in s ==> n >= 2
    ensures s == {} <==> u == Year || u == Decade || u == Century || u == Millennium
  {
    match u
    case Second => {15, 30, 45, 60}
    case Minute => {15, 30, 45, 60}
    case Hour => {6, 12, 18, 24}
    case Day => {7, 14, 21, 30}
    case Week => {2, 3, 4}
    case Month => {3, 6, 9, 12}
    case Quarter => {2, 3, 4}
    case _ => {}
  }

  /** The scopes the trait defines: every previous-period, general and
      to-now scope; current-period scopes for seconds and days only; and
      fixed-count scopes with a count of at least 2, for units up to quarters. */
  predicate Exists(p: Preset): (b: bool)
    ensures p.PreviousPeriod? || p.General? || p.ToNow? ==> b
    ensures p.CurrentPeriod? ==> (b <==> p.unit == Second || p.unit == Day)
    ensures b && p.FixedCount? ==> p.count >= 2 && NamedCounts(p.unit) != {}
  {
    match p
    case CurrentPeriod(u) => u == Second || u == Day
    case FixedCount(u, n) => n in NamedCounts(u)
    case _ => true
  }

  /** There are 26 fixed-count scopes: 4 each for seconds, minutes, hours,
      days and months, and 3 each for weeks and quarters. */
  lemma FixedCountScopes()
    ensures |NamedCounts(Second)| == 4 && |NamedCounts(Minute)| == 4 && |NamedCounts(Hour)| == 4
    ensures |NamedCounts(Day)| == 4 && |NamedCounts(Week)| == 3 && |NamedCounts(Month)| == 4
    ensures |NamedCounts(Quarter)| == 3
    ensures |NamedCounts(Second)| + |NamedCounts(Minute)| + |NamedCounts(Hour)| + |NamedCounts(Day)|
            + |NamedCounts(Week)| + |NamedCounts(Month)| + |NamedCounts(Quarter)| == 26
  {
  }

  /** A scope's own mode, or the caller's. */
  datatype ModeArg = Forced(mode: DateRange) | FromCaller

  /** What a scope passes on: unit, count, mode, and whether the caller's
      start instant is passed on too. */
  datatype Binding = Binding(unit: Unit, count: int, mode: ModeArg, anchored: bool)

  /** The arguments a caller may give a scope. A scope without the
      corresponding parameter ignores the field. */
  datatype Call = Call(startFrom: Option<DateTime>, customRange: Option<DateRange>, column: Option<string>)

  /** The delegation table. Every scope keeps its unit; only the general
      scopes take the count from the caller, so every other existing scope
      has a count of at least 1; a scope that forces its mode has count 1;
      the to-now scopes, and only they, drop the caller's start, and they
      force inclusive mode. */
  function BindingOf(p: Preset): (b: Binding)
    ensures b.unit == p.unit
    ensures Exists(p) && b.count <= 0 ==> p.General?
    ensures p.General? ==> b.count == p.count && b.mode == FromCaller
    ensures b.mode.Forced? ==> b.count == 1
    ensures !b.anchored <==> p.ToNow?
    ensures p.ToNow? ==> b.mode == Forced(Inclusive)
  {
    match p
    case CurrentPeriod(u) => Binding(u, 1, Forced(Inclusive), true)
    case PreviousPeriod(u) => Binding(u, 1, Forced(Exclusive), true)
    case FixedCount(u, n) => Binding(u, n, FromCaller, true)
    case General(u, n) => Binding(u, n, FromCaller, true)
    case ToNow(u) => Binding(u, 1, Forced(Inclusive), false)
  }

  predicate CallValid(call: Call, env: Env) {
    env.now.Valid() && (call.startFrom.Some? ==> call.startFrom.value.Valid())
  }

  /** The anchor a scope uses: the caller's start when the scope passes it
      on, else the current instant. */
  function PresetAnchor(p: Preset, call: Call, env: Env): DateTime {
    Anchor(if BindingOf(p).anchored then call.startFrom else None, env.now)
  }

  /** Running a scope. A count below 1 is refused whatever the other
      arguments; a scope that forces its mode never fails. */
  function Apply(p: Preset, call: Call, env: Env): (r: Result<Scope, Error>)
    requires CallValid(call, env)
    ensures r == Err(InvalidValue) <==> BindingOf(p).count <= 0
    ensures BindingOf(p).mode.Forced? ==> r.Ok?
    ensures r.Ok? ==> r.value.column == ResolveColumn(call.column, env.createdAt, env.config)
  {
    var b := BindingOf(p);
    OfLastUnit(b.unit, b.count,
               if b.anchored then call.startFrom else None,
               match b.mode { case Forced(m) => Some(m) case FromCaller => call.customRange },
               call.column, env)
  }

  /** The mode a scope runs in: the one it forces, else the caller's, else
      the configured default (None when that does not parse). */
  function ModeOf(p: Preset, call: Call, env: Env): Option<DateRange> {
    match BindingOf(p).mode
    case Forced(m) => Some(m)
    case FromCaller => ChosenRange(call.customRange, env.config)
  }

  /** A scope succeeds exactly when its count is at least 1 and it has a
      mode; it then filters the resolved column by the range of its unit,
      count, anchor and mode. */
  lemma ApplyComputes(p: Preset, call: Call, env: Env)
    requires CallValid(call, env)
    ensures Apply(p, call, env).Ok? <==> BindingOf(p).count > 0 && ModeOf(p, call, env).Some?
    ensures Apply(p, call, env).Ok? ==>
              Apply(p, call, env).value
              == Scope(ResolveColumn(call.column, env.createdAt, env.config),
                       LastUnitRange(p.unit, BindingOf(p).count, PresetAnchor(p, call, env), ModeOf(p, call, env).value))
  {
  }

  /** Only a general scope can have its count refused, and it is refused
      exactly when the count is below 1. */
  lemma OnlyGeneralRefused(p: Preset, call: Call, env: Env)
    requires CallValid(call, env) && Exists(p)
    ensures Apply(p, call, env) == Err(InvalidValue) ==> p.General?
    ensures p.General? ==> (Apply(p, call, env) == Err(InvalidValue) <==> p.count <= 0)
  {
  }

  /** A scope with its count in the name is the general scope of its unit
      with that count: it answers every call the same way. */
  lemma FixedCountIsGeneral(u: Unit, n: int, call: Call, env: Env)
    requires CallValid(call, env)
    ensures Apply(FixedCount(u, n), call, env) == Apply(General(u, n), call, env)
  {
  }

  /** A scope that forces its mode ignores both the caller's mode and the
      configured default. */
  lemma ForcedModeIgnoresDefault(p: Preset, call: Call, env: Env, mode: Option<DateRange>, defaultRange: string)
    requires CallValid(call, env)
    requires BindingOf(p).mode.Forced?
    ensures Apply(p, call, env)
            == Apply(p, call.(customRange := mode), env.(config := env.config.(defaultRange := defaultRange)))
  {
  }

  /** The to-now / to-date scopes ignore any start instant. */
  lemma ToNowIgnoresStart(u: Unit, call: Call, env: Env, startFrom: Option<DateTime>)
    requires CallValid(call, env) && (startFrom.Some? ==> startFrom.value.Valid())
    ensures PresetAnchor(ToNow(u), call, env) == env.now
    ensures Apply(ToNow(u), call, env) == Apply(ToNow(u), call.(startFrom := startFrom), env)
  {
  }

  /** A scope forcing inclusive mode covers exactly the period its anchor
      lies in, anchor included. */
  lemma InclusivePresetIsCurrentPeriod(p: Preset, call: Call, env: Env)
    requires CallValid(call, env)
    requires BindingOf(p).mode == Forced(Inclusive)
    ensures var a := PresetAnchor(p, call, env);
            && Apply(p, call, env).Ok?
            && Apply(p, call, env).value.range == Range(StartOf(p.unit, a), EndOf(p.unit, a))
            && Contains(Apply(p, call, env).value.range, a)
  {
    InclusiveHoldsAnchor(p.unit, 1, PresetAnchor(p, call, env));
  }

  /** A scope forcing exclusive mode covers exactly the period before the
      one its anchor lies in, and not the anchor. */
  lemma ExclusivePresetIsPreviousPeriod(p: Preset, call: Call, env: Env)
    requires CallValid(call, env)
    requires BindingOf(p).mode == Forced(Exclusive)
    ensures var a := PresetAnchor(p, call, env);
            && Apply(p, call, env).Ok?
            && Apply(p, call, env).value.range
               == Range(StartOf(p.unit, Sub(p.unit, a, 1)), EndOf(p.unit, Sub(p.unit, a, 1)))
            && !Contains(Apply(p, call, env).value.range, a)
  {
    ExclusiveEndsBeforeAnchorPeriod(p.unit, 1, PresetAnchor(p, call, env));
  }
}
