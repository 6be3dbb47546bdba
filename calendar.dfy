/**
 The proleptic Gregorian calendar of ISO 8601 at whole-second resolution,
 in UTC. A date-time is a record of its six fields; its position on the
 timeline is the number of seconds since 0001-01-01 00:00:00, and its day
 number is the number of days since 0001-01-01 (a Monday). Years before 1
 are allowed and follow the same leap-year rule.
 */
module Calendar {

  predicate IsLeapYear(y: int) {
    y % 4 == 0 && (y % 100 != 0 || y % 400 == 0)
  }

  function DaysInYear(y: int): int {
    if IsLeapYear(y) then 366 else 365
  }

  function DaysInMonth(y: int, m: int): (n: int)
    requires 1 <= m <= 12
    ensures 28 <= n <= 31
  {
    if m == 2 then (if IsLeapYear(y) then 29 else 28)
    else if m == 4 || m == 6 || m == 9 || m == 11 then 30
    else 31
  }

  function Min(a: int, b: int): int {
    if a <= b then a else b
  }

  datatype DateTime = DateTime(year: int, month: int, day: int, hour: int, minute: int, second: int)
  {
    /** A calendar-correct date and a time of day given to the second. */
    predicate Valid() {
      && 1 <= month <= 12
      && 1 <= day <= DaysInMonth(year, month)
      && 0 <= hour < 24
      && 0 <= minute < 60
      && 0 <= second < 60
    }
  }

  /** Days from 0001-01-01 to January 1 of year y (negative before year 1). */
  function DaysBeforeYear(y: int): int {
    var x := y - 1;
    365 * x + x / 4 - x / 100 + x / 400
  }

  /** Days from January 1 of year y to the first day of month m. */
  function DaysBeforeMonth(y: int, m: int): int
    requires 1 <= m <= 12
  {
    var leap := if m > 2 && IsLeapYear(y) then 1 else 0;
    leap + (
      if m == 1 then 0 else if m == 2 then 31 else if m == 3 then 59
      else if m == 4 then 90 else if m == 5 then 120 else if m == 6 then 151
      else if m == 7 then 181 else if m == 8 then 212 else if m == 9 then 243
      else if m == 10 then 273 else if m == 11 then 304 else 334)
  }

  function DayNumber(dt: DateTime): int
    requires dt.Valid()
  {
    DaysBeforeYear(dt.year) + DaysBeforeMonth(dt.year, dt.month) + dt.day - 1
  }

  /** Position on the timeline, in seconds since 0001-01-01 00:00:00. */
  function Seconds(dt: DateTime): int
    requires dt.Valid()
  {
    DayNumber(dt) * 86400 + dt.hour * 3600 + dt.minute * 60 + dt.second
  }

  /** Months since January of year 0: the month's place in the sequence of all months. */
  function MonthIndex(dt: DateTime): int {
    12 * dt.year + dt.month - 1
  }

  /** Day number of the first day of the month with index k. */
  function MonthStartDay(k: int): int {
    DaysBeforeYear(k / 12) + DaysBeforeMonth(k / 12, k % 12 + 1)
  }

  // ---------------------------------------------------------------------
  // Division by a positive number

  lemma MulAtLeast(c: int, k: int)
    requires c > 0 && k >= 1
    ensures c * k >= c
  {
    if k > 1 {
      MulAtLeast(c, k - 1);
      assert c * k == c * (k - 1) + c;
    }
  }

  /** Multiples of c that differ differ by at least c. */
  lemma MulGap(c: int, a: int, b: int)
    requires c > 0 && a > b
    ensures c * a - c * b >= c
  {
    MulAtLeast(c, a - b);
    assert c * a - c * b == c * (a - b);
  }

  /** Euclidean division by a positive number. */
  lemma DivMod(t: int, c: int)
    requires c > 0
    ensures t == c * (t / c) + t % c && 0 <= t % c < c
  {
  }

  /** Quotient and remainder are unique: c * q + r with 0 <= r < c divides back to q, r. */
  lemma DivOfSplit(c: int, q: int, r: int)
    requires c > 0 && 0 <= r < c
    ensures (c * q + r) / c == q && (c * q + r) % c == r
  {
    var x := c * q + r;
    var q', r' := x / c, x % c;
    assert x == c * q' + r';
    if q' > q {
      MulGap(c, q', q);
      assert false;
    } else if q' < q {
      MulGap(c, q, q');
      assert false;
    }
  }

  /** Comparing c * q + r (0 <= r < c) with the first and the last number of
      the block c * p .. c * (p + 1) - 1 compares q with p. */
  lemma SplitOrder(c: int, p: int, q: int, r: int)
    requires c > 0 && 0 <= r < c
    ensures c * p <= c * q + r <==> p <= q
    ensures c * q + r <= c * (p + 1) - 1 <==> q <= p
  {
    if p < q {
      MulGap(c, q, p);
    } else if q < p {
      MulGap(c, p, q);
    }
    if q <= p {
      MulGap(c, p + 1, q);
    } else if q > p + 1 {
      MulGap(c, q, p + 1);
    }
  }

  /** Adding one to x carries into the quotient exactly when x is one short of a multiple. */
  lemma DivSucc(x: int, c: int)
    requires c > 0
    ensures (x + 1) / c == (if x % c == c - 1 then x / c + 1 else x / c)
    ensures ((x + 1) % c == 0) == (x % c == c - 1)
  {
    var q, r := x / c, x % c;
    assert x == c * q + r;
    if r == c - 1 {
      assert x + 1 == c * (q + 1) + 0;
      DivOfSplit(c, q + 1, 0);
    } else {
      assert x + 1 == c * q + (r + 1);
      DivOfSplit(c, q, r + 1);
    }
  }

  // ---------------------------------------------------------------------
  // Facts about the year and month tables

  lemma DaysBeforeYearBounds(y: int)
    ensures 146097 * (y - 1) - 800 < 400 * DaysBeforeYear(y) < 146097 * (y - 1) + 400
  {
    var x := y - 1;
    assert 4 * (x / 4) <= x < 4 * (x / 4) + 4;
    assert 100 * (x / 100) <= x < 100 * (x / 100) + 100;
    assert 400 * (x / 400) <= x < 400 * (x / 400) + 400;
  }

  /** Each year adds exactly its own number of days. */
  lemma DaysBeforeYearStep(y: int)
    ensures DaysBeforeYear(y + 1) == DaysBeforeYear(y) + DaysInYear(y)
  {
    var x := y - 1;
    DivSucc(x, 4);
    DivSucc(x, 100);
    DivSucc(x, 400);
    assert x + 1 == y;
    if y % 400 == 0 {
      DivOfSplit(100, 4 * (y / 400), 0);
    }
    if y % 100 == 0 {
      DivOfSplit(4, 25 * (y / 100), 0);
    }
  }

  /** Years further on start strictly later. */
  lemma {:induction false} DaysBeforeYearMonotone(a: int, b: int)
    requires a < b
    ensures DaysBeforeYear(a) + 365 <= DaysBeforeYear(b)
  {
    DaysBeforeYearBounds(a);
    DaysBeforeYearBounds(b);
    if b == a + 1 {
      DaysBeforeYearStep(a);
    } else {
      DaysBeforeYearBounds(a + 1);
      DaysBeforeYearStep(a);
    }
  }

  lemma DaysBeforeMonthStep(y: int, m: int)
    requires 1 <= m <= 12
    ensures DaysBeforeMonth(y, m) + DaysInMonth(y, m)
            == (if m == 12 then DaysInYear(y) else DaysBeforeMonth(y, m + 1))
  {
  }

  lemma DaysBeforeMonthMonotone(y: int, m: int, n: int)
    requires 1 <= m < n <= 12
    ensures DaysBeforeMonth(y, m) + DaysInMonth(y, m) <= DaysBeforeMonth(y, n)
  {
  }

  /** The first day of the next month lies one month length further on. */
  lemma MonthStartDayStep(k: int)
    ensures MonthStartDay(k + 1) == MonthStartDay(k) + DaysInMonth(k / 12, k % 12 + 1)
  {
    var y, j := k / 12, k % 12;
    assert k == 12 * y + j;
    DaysBeforeMonthStep(y, j + 1);
    if j == 11 {
      assert (k + 1) / 12 == y + 1 && (k + 1) % 12 == 0;
      DaysBeforeYearStep(y);
    } else {
      assert (k + 1) / 12 == y && (k + 1) % 12 == j + 1;
    }
  }

  /** A later month starts at least one month length later. */
  lemma MonthStartDayMonotone(k: int, l: int)
    requires k < l
    ensures MonthStartDay(k) + DaysInMonth(k / 12, k % 12 + 1) <= MonthStartDay(l)
  {
    var y, yl := k / 12, l / 12;
    assert k == 12 * y + k % 12 && l == 12 * yl + l % 12;
    if y == yl {
      assert k % 12 < l % 12;
      DaysBeforeMonthMonotone(y, k % 12 + 1, l % 12 + 1);
    } else {
      assert y < yl;
      DaysBeforeMonthStep(y, k % 12 + 1);
      if k % 12 + 1 < 12 {
        DaysBeforeMonthMonotone(y, k % 12 + 1, 12);
        DaysBeforeMonthStep(y, 12);
      }
      DaysBeforeYearStep(y);
      if y + 1 < yl {
        DaysBeforeYearMonotone(y + 1, yl);
      }
    }
  }

  /** The month index of a date picks out the month it lies in. */
  lemma MonthStartDayOf(dt: DateTime)
    requires dt.Valid()
    ensures MonthStartDay(MonthIndex(dt)) == DayNumber(dt) - dt.day + 1
  {
    var k := MonthIndex(dt);
    assert k / 12 == dt.year && k % 12 == dt.month - 1;
  }

  // ---------------------------------------------------------------------
  // From day numbers and seconds back to dates

  /** The year that day number n falls in. */
  function YearOfDay(n: int): (y: int)
    ensures DaysBeforeYear(y) <= n < DaysBeforeYear(y + 1)
  {
    var e := (400 * n) / 146097 + 1;
    DaysBeforeYearBounds(e - 1);
    DaysBeforeYearBounds(e + 2);
    if n < DaysBeforeYear(e) then e - 1
    else if n < DaysBeforeYear(e + 1) then e
    else e + 1
  }

  /** The month that day doy (counted from 0) of year y falls in. */
  function MonthOfDay(y: int, doy: int): (m: int)
    requires 0 <= doy < DaysInYear(y)
    ensures 1 <= m <= 12
    ensures DaysBeforeMonth(y, m) <= doy < DaysBeforeMonth(y, m) + DaysInMonth(y, m)
  {
    if doy >= DaysBeforeMonth(y, 12) then 12
    else if doy >= DaysBeforeMonth(y, 11) then 11
    else if doy >= DaysBeforeMonth(y, 10) then 10
    else if doy >= DaysBeforeMonth(y, 9) then 9
    else if doy >= DaysBeforeMonth(y, 8) then 8
    else if doy >= DaysBeforeMonth(y, 7) then 7
    else if doy >= DaysBeforeMonth(y, 6) then 6
    else if doy >= DaysBeforeMonth(y, 5) then 5
    else if doy >= DaysBeforeMonth(y, 4) then 4
    else if doy >= DaysBeforeMonth(y, 3) then 3
    else if doy >= DaysBeforeMonth(y, 2) then 2
    else 1
  }

  /** Midnight at the start of the day with number n. */
  function FromDayNumber(n: int): (dt: DateTime)
    ensures dt.Valid() && DayNumber(dt) == n
    ensures dt.hour == 0 && dt.minute == 0 && dt.second == 0
  {
    var y := YearOfDay(n);
    DaysBeforeYearStep(y);
    var doy := n - DaysBeforeYear(y);
    var m := MonthOfDay(y, doy);
    DateTime(y, m, doy - DaysBeforeMonth(y, m) + 1, 0, 0, 0)
  }

  /** A second of the day splits into hours, minutes and seconds. */
  lemma TimeOfDaySplit(r: int)
    requires 0 <= r < 86400
    ensures 0 <= r / 3600 < 24 && 0 <= r % 3600 / 60 < 60
    ensures r == (r / 3600) * 3600 + (r % 3600 / 60) * 60 + r % 60
  {
    var h, q := r / 3600, r % 3600;
    assert r == h * 3600 + q && 0 <= q < 3600;
    assert q == (q / 60) * 60 + q % 60 && q % 60 == r % 60;
  }

  /** The date-time at timeline position t. */
  function FromSeconds(t: int): (dt: DateTime)
    ensures dt.Valid() && Seconds(dt) == t
  {
    var date := FromDayNumber(t / 86400);
    var r := t % 86400;
    TimeOfDaySplit(r);
    DateTime(date.year, date.month, date.day, r / 3600, r % 3600 / 60, r % 60)
  }

  /** Only one year holds day number n. */
  lemma YearOfDayUnique(n: int, y: int)
    requires DaysBeforeYear(y) <= n < DaysBeforeYear(y + 1)
    ensures YearOfDay(n) == y
  {
    var z := YearOfDay(n);
    if z < y {
      if z + 1 < y { DaysBeforeYearMonotone(z + 1, y); }
    } else if y < z {
      if y + 1 < z { DaysBeforeYearMonotone(y + 1, z); }
    }
  }

  /** Only one month of year y holds its day doy. */
  lemma MonthOfDayUnique(y: int, doy: int, m: int)
    requires 1 <= m <= 12
    requires DaysBeforeMonth(y, m) <= doy < DaysBeforeMonth(y, m) + DaysInMonth(y, m)
    requires doy < DaysInYear(y)
    ensures MonthOfDay(y, doy) == m
  {
    var k := MonthOfDay(y, doy);
    if k < m {
      DaysBeforeMonthMonotone(y, k, m);
    } else if m < k {
      DaysBeforeMonthMonotone(y, m, k);
    }
  }

  /** The day number determines the date. */
  lemma FromDayNumberOfDayNumber(dt: DateTime)
    requires dt.Valid()
    ensures FromDayNumber(DayNumber(dt)) == DateTime(dt.year, dt.month, dt.day, 0, 0, 0)
  {
    var n := DayNumber(dt);
    DaysBeforeMonthStep(dt.year, dt.month);
    if dt.month < 12 {
      DaysBeforeMonthMonotone(dt.year, dt.month, 12);
      DaysBeforeMonthStep(dt.year, 12);
    }
    DaysBeforeYearStep(dt.year);
    YearOfDayUnique(n, dt.year);
    MonthOfDayUnique(dt.year, n - DaysBeforeYear(dt.year), dt.month);
  }

  /** The timeline position determines the date-time: FromSeconds inverts Seconds. */
  lemma FromSecondsOfSeconds(dt: DateTime)
    requires dt.Valid()
    ensures FromSeconds(Seconds(dt)) == dt
  {
    var t := Seconds(dt);
    var tod := dt.hour * 3600 + dt.minute * 60 + dt.second;
    assert 0 <= tod < 86400;
    assert t / 86400 == DayNumber(dt) && t % 86400 == tod;
    FromDayNumberOfDayNumber(dt);
  }

  /** Seconds since the start of the month: the place of dt within its month. */
  function TimeInMonth(dt: DateTime): int {
    (dt.day - 1) * 86400 + dt.hour * 3600 + dt.minute * 60 + dt.second
  }

  lemma SecondsByMonth(dt: DateTime)
    requires dt.Valid()
    ensures Seconds(dt) == 86400 * MonthStartDay(MonthIndex(dt)) + TimeInMonth(dt)
    ensures 0 <= TimeInMonth(dt) < 86400 * DaysInMonth(dt.year, dt.month)
  {
    MonthStartDayOf(dt);
  }

  /** The timeline orders instants first by month, then by place within the month. */
  lemma SecondsOrder(a: DateTime, b: DateTime)
    requires a.Valid() && b.Valid()
    ensures Seconds(a) <= Seconds(b) <==>
              (MonthIndex(a) < MonthIndex(b) || (MonthIndex(a) == MonthIndex(b) && TimeInMonth(a) <= TimeInMonth(b)))
  {
    SecondsByMonth(a);
    SecondsByMonth(b);
    var ka, kb := MonthIndex(a), MonthIndex(b);
    assert ka / 12 == a.year && ka % 12 + 1 == a.month;
    assert kb / 12 == b.year && kb % 12 + 1 == b.month;
    if ka < kb {
      MonthStartDayMonotone(ka, kb);
    } else if kb < ka {
      MonthStartDayMonotone(kb, ka);
    }
  }

  lemma SecondsInjective(a: DateTime, b: DateTime)
    requires a.Valid() && b.Valid()
    requires Seconds(a) == Seconds(b)
    ensures a == b
  {
    FromSecondsOfSeconds(a);
    FromSecondsOfSeconds(b);
  }

  /** a is not later than b when compared field by field, year first: the
      order in which a database compares two datetime values. */
  predicate NotLater(a: DateTime, b: DateTime) {
    || a.year < b.year
    || (a.year == b.year && a.month < b.month)
    || (a.year == b.year && a.month == b.month && a.day < b.day)
    || (a.year == b.year && a.month == b.month && a.day == b.day && a.hour < b.hour)
    || (a.year == b.year && a.month == b.month && a.day == b.day && a.hour == b.hour && a.minute < b.minute)
    || (a.year == b.year && a.month == b.month && a.day == b.day && a.hour == b.hour && a.minute == b.minute
        && a.second <= b.second)
  }

  /** The timeline orders valid instants exactly as comparing their fields does. */
  lemma SecondsOrderIsFieldOrder(a: DateTime, b: DateTime)
    requires a.Valid() && b.Valid()
    ensures Seconds(a) <= Seconds(b) <==> NotLater(a, b)
  {
    SecondsOrder(a, b);
  }
}
