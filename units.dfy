/**
 The calendar units a range can be measured in and, for each, the three
 operations the range calculator uses: the first and the last second of
 the period that contains an instant, and subtracting a number of periods.

 The periods of a unit tile the timeline and PeriodIndex numbers them.
 Weeks start on Monday, quarters are three months, decades start at a year
 divisible by 10, centuries and millenniums at a year one past a multiple
 of 100 or 1000. StartOf and EndOf are shown to be the first and the last
 instant of the period (StartOfIsFirst, EndOfIsLast), and Sub to move
 exactly n periods back.
 */
module Units {
  import opened Calendar

  datatype Unit = Second | Minute | Hour | Day | Week | Month | Quarter | Year | Decade | Century | Millennium

  /** Units whose periods all have the same length in seconds. Subtracting
      one of these moves along the timeline; the others count months and
      need the day of month corrected. */
  predicate IsFixedLength(u: Unit) {
    u == Second || u == Minute || u == Hour || u == Day || u == Week
  }

  /** The length of n periods: in seconds for a fixed-length unit, in months otherwise. */
  function Span(u: Unit, n: int): int {
    match u
    case Second => n
    case Minute => 60 * n
    case Hour => 3600 * n
    case Day => 86400 * n
    case Week => 604800 * n
    case Month => n
    case Quarter => 3 * n
    case Year => 12 * n
    case Decade => 120 * n
    case Century => 1200 * n
    case Millennium => 12000 * n
  }

  /** Centuries and millenniums are counted from year 1; in months, that is 12. */
  function Offset(u: Unit): int {
    if u == Century || u == Millennium then 12 else 0
  }

  /** The position of dt that periods of u are counted in: the second on
      the timeline for a fixed-length unit, the month index otherwise. */
  function Position(u: Unit, dt: DateTime): int
    requires dt.Valid()
  {
    if IsFixedLength(u) then Seconds(dt) else MonthIndex(dt)
  }

  /** Number of the period of unit u that position t falls in. Week 0
      starts on 0001-01-01, a Monday; month-based periods are counted from
      January of year 0, or of year 1 for centuries and millenniums. */
  function PeriodOf(u: Unit, t: int): int {
    match u
    case Second => t
    case Minute => t / 60
    case Hour => t / 3600
    case Day => t / 86400
    case Week => t / 604800
    case Month => t
    case Quarter => t / 3
    case Year => t / 12
    case Decade => t / 120
    case Century => (t - 12) / 1200
    case Millennium => (t - 12) / 12000
  }

  /** Place of position t within its period. */
  function Rest(u: Unit, t: int): int {
    match u
    case Second => 0
    case Minute => t % 60
    case Hour => t % 3600
    case Day => t % 86400
    case Week => t % 604800
    case Month => 0
    case Quarter => t % 3
    case Year => t % 12
    case Decade => t % 120
    case Century => (t - 12) % 1200
    case Millennium => (t - 12) % 12000
  }

  /** Number of the period of unit u that contains dt. */
  function PeriodIndex(u: Unit, dt: DateTime): int
    requires dt.Valid()
  {
    PeriodOf(u, Position(u, dt))
  }

  // ---------------------------------------------------------------------
  // Arithmetic on periods

  /** A position is the start of its period plus its place within it. */
  lemma PeriodSplit(u: Unit, t: int)
    ensures t == Span(u, PeriodOf(u, t)) + Offset(u) + Rest(u, t)
    ensures 0 <= Rest(u, t) < Span(u, 1)
  {
    match u
    case Second =>
    case Minute => DivMod(t, 60);
    case Hour => DivMod(t, 3600);
    case Day => DivMod(t, 86400);
    case Week => DivMod(t, 604800);
    case Month =>
    case Quarter => DivMod(t, 3);
    case Year => DivMod(t, 12);
    case Decade => DivMod(t, 120);
    case Century => DivMod(t - 12, 1200);
    case Millennium => DivMod(t - 12, 12000);
  }

  /** Comparing a position Span(u, q) + r inside period q with the first and
      the last position of period p compares q with p. */
  lemma SpanOrder(u: Unit, p: int, q: int, r: int)
    requires 0 <= r < Span(u, 1)
    ensures Span(u, p) <= Span(u, q) + r <==> p <= q
    ensures Span(u, q) + r <= Span(u, p + 1) - 1 <==> q <= p
  {
    match u
    case Second => SplitOrder(1, p, q, r);
    case Minute => SplitOrder(60, p, q, r);
    case Hour => SplitOrder(3600, p, q, r);
    case Day => SplitOrder(86400, p, q, r);
    case Week => SplitOrder(604800, p, q, r);
    case Month => SplitOrder(1, p, q, r);
    case Quarter => SplitOrder(3, p, q, r);
    case Year => SplitOrder(12, p, q, r);
    case Decade => SplitOrder(120, p, q, r);
    case Century => SplitOrder(1200, p, q, r);
    case Millennium => SplitOrder(12000, p, q, r);
  }

  /** Going back n periods from any position lands n periods earlier. */
  lemma PeriodShift(u: Unit, t: int, n: int)
    ensures PeriodOf(u, t - Span(u, n)) == PeriodOf(u, t) - n
  {
    var t' := t - Span(u, n);
    PeriodSplit(u, t);
    PeriodSplit(u, t');
    assert Span(u, PeriodOf(u, t)) - Span(u, n) == Span(u, PeriodOf(u, t) - n);
    SpanOrder(u, PeriodOf(u, t) - n, PeriodOf(u, t'), Rest(u, t'));
    SpanOrder(u, PeriodOf(u, t'), PeriodOf(u, t) - n, Rest(u, t));
  }

  /** Where an instant lies within the minute, hour, day and week. */
  lemma SecondsRests(dt: DateTime)
    requires dt.Valid()
    ensures Rest(Minute, Seconds(dt)) == dt.second
    ensures Rest(Hour, Seconds(dt)) == dt.minute * 60 + dt.second
    ensures Rest(Day, Seconds(dt)) == dt.hour * 3600 + dt.minute * 60 + dt.second
    ensures Rest(Week, Seconds(dt)) == DayNumber(dt) % 7 * 86400 + dt.hour * 3600 + dt.minute * 60 + dt.second
  {
    var d := DayNumber(dt);
    var tod := dt.hour * 3600 + dt.minute * 60 + dt.second;
    DivOfSplit(60, d * 1440 + dt.hour * 60 + dt.minute, dt.second);
    DivOfSplit(3600, d * 24 + dt.hour, dt.minute * 60 + dt.second);
    DivOfSplit(86400, d, tod);
    assert d == 7 * (d / 7) + d % 7;
    DivOfSplit(604800, d / 7, d % 7 * 86400 + tod);
  }

  /** Where a month lies within its quarter, year, decade, century and millennium. */
  lemma MonthRests(dt: DateTime)
    requires dt.Valid()
    ensures Rest(Quarter, MonthIndex(dt)) == (dt.month - 1) % 3
    ensures Rest(Year, MonthIndex(dt)) == dt.month - 1
    ensures Rest(Decade, MonthIndex(dt)) == 12 * (dt.year % 10) + dt.month - 1
    ensures Rest(Century, MonthIndex(dt)) == 12 * ((dt.year - 1) % 100) + dt.month - 1
    ensures Rest(Millennium, MonthIndex(dt)) == 12 * ((dt.year - 1) % 1000) + dt.month - 1
  {
    var y, m := dt.year, dt.month;
    assert m - 1 == 3 * ((m - 1) / 3) + (m - 1) % 3;
    DivOfSplit(3, 4 * y + (m - 1) / 3, (m - 1) % 3);
    DivOfSplit(12, y, m - 1);
    YearBlockSplit(y, m, 10, 0);
    YearBlockSplit(y, m, 100, 1);
    YearBlockSplit(y, m, 1000, 1);
  }

  /** Months counted from January of year b, split into blocks of c years. */
  lemma YearBlockSplit(y: int, m: int, c: int, b: int)
    requires c > 0 && 1 <= m <= 12
    ensures (12 * y + m - 1 - 12 * b) % (12 * c) == 12 * ((y - b) % c) + m - 1
  {
    var q, r := (y - b) / c, (y - b) % c;
    assert y - b == c * q + r;
    assert 12 * y + m - 1 - 12 * b == 12 * c * q + (12 * r + m - 1);
    DivOfSplit(12 * c, q, 12 * r + m - 1);
  }

  // ---------------------------------------------------------------------
  // startOf / endOf

  /** The first second of the period of unit u that contains dt. */
  function StartOf(u: Unit, dt: DateTime): (r: DateTime)
    requires dt.Valid()
    ensures r.Valid()
    ensures Position(u, r) == Span(u, PeriodIndex(u, dt)) + Offset(u)
    ensures !IsFixedLength(u) ==> TimeInMonth(r) == 0
  {
    if IsFixedLength(u) then StartOfByTime(u, dt) else StartOfByMonth(u, dt)
  }

  /** Start of a minute, hour, day or week: the time of day, and for a week
      the day, is rounded down. */
  function StartOfByTime(u: Unit, dt: DateTime): (r: DateTime)
    requires IsFixedLength(u) && dt.Valid()
    ensures r.Valid()
    ensures Seconds(r) == Span(u, PeriodOf(u, Seconds(dt)))
  {
    PeriodSplit(u, Seconds(dt));
    SecondsRests(dt);
    match u
    case Second => dt
    case Minute => dt.(second := 0)
    case Hour => dt.(minute := 0, second := 0)
    case Day => dt.(hour := 0, minute := 0, second := 0)
    case Week =>
      var d := DayNumber(dt);
      FromDayNumber(d - d % 7)
  }

  /** Start of a month-based period: midnight on the first day of its first month. */
  function StartOfByMonth(u: Unit, dt: DateTime): (r: DateTime)
    requires !IsFixedLength(u) && dt.Valid()
    ensures r.Valid()
    ensures MonthIndex(r) == Span(u, PeriodOf(u, MonthIndex(dt))) + Offset(u)
    ensures TimeInMonth(r) == 0
  {
    var y, m := dt.year, dt.month;
    PeriodSplit(u, MonthIndex(dt));
    MonthRests(dt);
    match u
    case Month => DateTime(y, m, 1, 0, 0, 0)
    case Quarter => DateTime(y, (m - 1) / 3 * 3 + 1, 1, 0, 0, 0)
    case Year => DateTime(y, 1, 1, 0, 0, 0)
    case Decade => DateTime(y - y % 10, 1, 1, 0, 0, 0)
    case Century => DateTime(y - (y - 1) % 100, 1, 1, 0, 0, 0)
    case Millennium => DateTime(y - (y - 1) % 1000, 1, 1, 0, 0, 0)
  }

  /** The last second of the period of unit u that contains dt. */
  function EndOf(u: Unit, dt: DateTime): (r: DateTime)
    requires dt.Valid()
    ensures r.Valid()
    ensures Position(u, r) == Span(u, PeriodIndex(u, dt) + 1) + Offset(u) - 1
    ensures !IsFixedLength(u) ==>
              && r.day == DaysInMonth(r.year, r.month)
              && r.hour == 23 && r.minute == 59 && r.second == 59
  {
    if IsFixedLength(u) then EndOfByTime(u, dt) else EndOfByMonth(u, dt)
  }

  /** End of a minute, hour, day or week: the time of day, and for a week
      the day, is rounded up. */
  function EndOfByTime(u: Unit, dt: DateTime): (r: DateTime)
    requires IsFixedLength(u) && dt.Valid()
    ensures r.Valid()
    ensures Seconds(r) == Span(u, PeriodOf(u, Seconds(dt)) + 1) - 1
  {
    PeriodSplit(u, Seconds(dt));
    SecondsRests(dt);
    match u
    case Second => dt
    case Minute => dt.(second := 59)
    case Hour => dt.(minute := 59, second := 59)
    case Day => dt.(hour := 23, minute := 59, second := 59)
    case Week =>
      var d := DayNumber(dt);
      FromDayNumber(d - d % 7 + 6).(hour := 23, minute := 59, second := 59)
  }

  /** End of a month-based period: 23:59:59 on the last day of its last month. */
  function EndOfByMonth(u: Unit, dt: DateTime): (r: DateTime)
    requires !IsFixedLength(u) && dt.Valid()
    ensures r.Valid()
    ensures MonthIndex(r) == Span(u, PeriodOf(u, MonthIndex(dt)) + 1) + Offset(u) - 1
    ensures r.day == DaysInMonth(r.year, r.month)
    ensures r.hour == 23 && r.minute == 59 && r.second == 59
  {
    var y, m := dt.year, dt.month;
    PeriodSplit(u, MonthIndex(dt));
    MonthRests(dt);
    match u
    case Month => DateTime(y, m, DaysInMonth(y, m), 23, 59, 59)
    case Quarter =>
      var last := (m - 1) / 3 * 3 + 3;
      DateTime(y, last, DaysInMonth(y, last), 23, 59, 59)
    case Year => DateTime(y, 12, 31, 23, 59, 59)
    case Decade => DateTime(y - y % 10 + 9, 12, 31, 23, 59, 59)
    case Century => DateTime(y - 1 - (y - 1) % 100 + 100, 12, 31, 23, 59, 59)
    case Millennium => DateTime(y - 1 - (y - 1) % 1000 + 1000, 12, 31, 23, 59, 59)
  }

  /** On the timeline, instants are ordered as their positions are, as far
      as the start of a period of u is concerned. */
  lemma StartOrder(u: Unit, dt: DateTime, x: DateTime)
    requires dt.Valid() && x.Valid()
    ensures Seconds(StartOf(u, dt)) <= Seconds(x) <==> Position(u, StartOf(u, dt)) <= Position(u, x)
  {
    if !IsFixedLength(u) {
      var r := StartOf(u, dt);
      SecondsOrder(r, x);
      SecondsByMonth(x);
    }
  }

  /** The same for the end of a period: the last instant of a month is
      after every other instant of that month. */
  lemma EndOrder(u: Unit, dt: DateTime, x: DateTime)
    requires dt.Valid() && x.Valid()
    ensures Seconds(x) <= Seconds(EndOf(u, dt)) <==> Position(u, x) <= Position(u, EndOf(u, dt))
  {
    if !IsFixedLength(u) {
      var r := EndOf(u, dt);
      SecondsOrder(x, r);
      SecondsByMonth(x);
      if MonthIndex(x) == MonthIndex(r) {
        assert x.year == r.year && x.month == r.month;
      }
    }
  }

  /** StartOf(u, dt) is the first instant of dt's period: an instant is at or
      after it exactly when its period is dt's or a later one. */
  lemma StartOfIsFirst(u: Unit, dt: DateTime, x: DateTime)
    requires dt.Valid() && x.Valid()
    ensures Seconds(StartOf(u, dt)) <= Seconds(x) <==> PeriodIndex(u, dt) <= PeriodIndex(u, x)
  {
    StartOrder(u, dt, x);
    PeriodSplit(u, Position(u, x));
    SpanOrder(u, PeriodIndex(u, dt), PeriodIndex(u, x), Rest(u, Position(u, x)));
  }

  /** EndOf(u, dt) is the last instant of dt's period: an instant is at or
      before it exactly when its period is dt's or an earlier one. */
  lemma EndOfIsLast(u: Unit, dt: DateTime, x: DateTime)
    requires dt.Valid() && x.Valid()
    ensures Seconds(x) <= Seconds(EndOf(u, dt)) <==> PeriodIndex(u, x) <= PeriodIndex(u, dt)
  {
    EndOrder(u, dt, x);
    PeriodSplit(u, Position(u, x));
    SpanOrder(u, PeriodIndex(u, dt), PeriodIndex(u, x), Rest(u, Position(u, x)));
  }

  /** Instants of one period share their start and their end. */
  lemma SamePeriodSameBounds(u: Unit, a: DateTime, b: DateTime)
    requires a.Valid() && b.Valid()
    requires PeriodIndex(u, a) == PeriodIndex(u, b)
    ensures StartOf(u, a) == StartOf(u, b) && EndOf(u, a) == EndOf(u, b)
  {
    SamePeriodSameStart(u, a, b);
    SamePeriodSameEnd(u, a, b);
  }

  lemma SamePeriodSameStart(u: Unit, a: DateTime, b: DateTime)
    requires a.Valid() && b.Valid()
    requires PeriodIndex(u, a) == PeriodIndex(u, b)
    ensures StartOf(u, a) == StartOf(u, b)
  {
    StartOfIsFirst(u, a, StartOf(u, b));
    StartOfIsFirst(u, b, StartOf(u, a));
    SecondsInjective(StartOf(u, a), StartOf(u, b));
  }

  lemma SamePeriodSameEnd(u: Unit, a: DateTime, b: DateTime)
    requires a.Valid() && b.Valid()
    requires PeriodIndex(u, a) == PeriodIndex(u, b)
    ensures EndOf(u, a) == EndOf(u, b)
  {
    EndOfIsLast(u, a, EndOf(u, b));
    EndOfIsLast(u, b, EndOf(u, a));
    SecondsInjective(EndOf(u, a), EndOf(u, b));
  }

  /** The boundaries lie in the period they bound, so taking them again changes nothing. */
  lemma BoundsInOwnPeriod(u: Unit, dt: DateTime)
    requires dt.Valid()
    ensures PeriodIndex(u, StartOf(u, dt)) == PeriodIndex(u, dt)
    ensures PeriodIndex(u, EndOf(u, dt)) == PeriodIndex(u, dt)
    ensures StartOf(u, StartOf(u, dt)) == StartOf(u, dt)
    ensures EndOf(u, EndOf(u, dt)) == EndOf(u, dt)
  {
    var s, e := StartOf(u, dt), EndOf(u, dt);
    var p := PeriodIndex(u, dt);
    PeriodSplit(u, Position(u, s));
    SpanOrder(u, p, PeriodIndex(u, s), Rest(u, Position(u, s)));
    SpanOrder(u, PeriodIndex(u, s), p, 0);
    PeriodSplit(u, Position(u, e));
    SpanOrder(u, p, PeriodIndex(u, e), Rest(u, Position(u, e)));
    SpanOrder(u, p, p, Span(u, 1) - 1);
    SamePeriodSameBounds(u, s, dt);
    SamePeriodSameBounds(u, e, dt);
  }

  // ---------------------------------------------------------------------
  // sub

  /** Moving back k months, keeping the time of day and clamping the day of
      month to the length of the month reached. */
  function SubMonthsNoOverflow(dt: DateTime, k: int): (r: DateTime)
    requires dt.Valid()
    ensures r.Valid()
    ensures MonthIndex(r) == MonthIndex(dt) - k
    ensures r.day == Min(dt.day, DaysInMonth(r.year, r.month))
    ensures r.hour == dt.hour && r.minute == dt.minute && r.second == dt.second
  {
    var target := MonthIndex(dt) - k;
    var y, m := target / 12, target % 12 + 1;
    DateTime(y, m, Min(dt.day, DaysInMonth(y, m)), dt.hour, dt.minute, dt.second)
  }

  /** Subtracting n periods of unit u: plain timeline subtraction for the
      fixed-length units, month arithmetic without overflow for the others. */
  function Sub(u: Unit, dt: DateTime, n: int): (r: DateTime)
    requires dt.Valid()
    ensures r.Valid()
    ensures Position(u, r) == Position(u, dt) - Span(u, n)
    ensures PeriodIndex(u, r) == PeriodIndex(u, dt) - n
    ensures !IsFixedLength(u) ==>
              && r.day == Min(dt.day, DaysInMonth(r.year, r.month))
              && r.hour == dt.hour && r.minute == dt.minute && r.second == dt.second
  {
    PeriodShift(u, Position(u, dt), n);
    if IsFixedLength(u) then
      FromSeconds(Seconds(dt) - Span(u, n))
    else
      SubMonthsNoOverflow(dt, Span(u, n))
  }
}
