/** internal/sub/period.go: quota periods on the proleptic Gregorian calendar, in UTC. */
module Period {
  import opened Entitlement

  const DAY: int := 86_400_000_000_000
  /** Days from 1 January of year 1 to 1 January 1970. */
  const EPOCH: int := 719_162

  datatype Civil = Civil(year: int, month: int, day: int)

  predicate Leap(y: int) {
    y % 4 == 0 && (y % 100 != 0 || y % 400 == 0)
  }

  function MonthLen(y: int, m: int): int {
    if m == 2 then (if Leap(y) then 29 else 28)
    else if m == 4 || m == 6 || m == 9 || m == 11 then 30
    else 31
  }

  /** Days from year 1 to the start of year y. */
  function YearStart(y: int): int {
    365 * (y - 1) + (y - 1) / 4 - (y - 1) / 100 + (y - 1) / 400
  }

  /** Days from the start of year y to the start of its month m. */
  function MonthStart(y: int, m: int): (r: int)
    requires 1 <= m <= 13
    ensures 28 * (m - 1) <= r <= 31 * (m - 1)
  {
    if m == 1 then 0 else MonthStart(y, m - 1) + MonthLen(y, m - 1)
  }

  /** Day number of a civil date; any day of month is accepted and carried over, as time.Date
      does. */
  function DateToDays(y: int, m: int, d: int): int
    requires 1 <= m <= 12
  {
    YearStart(y) + MonthStart(y, m) + d - 1 - EPOCH
  }

  predicate ValidCivil(c: Civil) {
    1 <= c.month <= 12 && 1 <= c.day <= MonthLen(c.year, c.month)
  }

  lemma QuotientStep(y: int)
    ensures y / 4 == (y - 1) / 4 + if y % 4 == 0 then 1 else 0
    ensures y / 100 == (y - 1) / 100 + if y % 100 == 0 then 1 else 0
    ensures y / 400 == (y - 1) / 400 + if y % 400 == 0 then 1 else 0
    ensures y % 400 == 0 ==> y % 100 == 0
    ensures y % 100 == 0 ==> y % 4 == 0
  {
  }

  lemma MonthsFillYear(y: int)
    ensures MonthStart(y, 13) == if Leap(y) then 366 else 365
  {
    assert MonthStart(y, 3) == 31 + MonthLen(y, 2);
    assert MonthStart(y, 5) == MonthStart(y, 3) + 61;
    assert MonthStart(y, 7) == MonthStart(y, 5) + 61;
    assert MonthStart(y, 9) == MonthStart(y, 7) + 62;
    assert MonthStart(y, 11) == MonthStart(y, 9) + 61;
    assert MonthStart(y, 13) == MonthStart(y, 11) + 61;
  }

  lemma YearLength(y: int)
    ensures YearStart(y + 1) - YearStart(y) == (if Leap(y) then 366 else 365) == MonthStart(y, 13)
  {
    QuotientStep(y);
    MonthsFillYear(y);
  }

  lemma YearsAscend(a: int, b: int)
    requires a <= b
    ensures YearStart(a) + 365 * (b - a) <= YearStart(b)
    decreases b - a
  {
    if a < b {
      YearLength(b - 1);
      YearsAscend(a, b - 1);
    }
  }

  /** The year holding day n of the calendar that starts on 1 January of year 1. */
  function YearFrom(n: int, y: int): (r: int)
    requires YearStart(y) <= n
    ensures YearStart(r) <= n < YearStart(r + 1)
    decreases n - YearStart(y)
  {
    YearLength(y);
    if YearStart(y + 1) <= n then YearFrom(n, y + 1) else y
  }

  function MonthFrom(y: int, n: int, m: int): (r: int)
    requires 1 <= m <= 12 && MonthStart(y, m) <= n < MonthStart(y, 13)
    ensures 1 <= r <= 12 && MonthStart(y, r) <= n < MonthStart(y, r + 1)
    decreases 12 - m
  {
    if MonthStart(y, m + 1) <= n then MonthFrom(y, n, m + 1) else m
  }

  lemma CycleStart(k: int)
    ensures YearStart(1 + 400 * k) == 146_097 * k
  {
  }

  /** Year, month and day of a day number counted from 1 January 1970. */
  function CivilOf(n: int): (c: Civil)
    ensures ValidCivil(c) && DateToDays(c.year, c.month, c.day) == n
  {
    var k := (n + EPOCH) / 146_097;
    CycleStart(k);
    var y := YearFrom(n + EPOCH, 1 + 400 * k);
    YearLength(y);
    var rest := n + EPOCH - YearStart(y);
    var m := MonthFrom(y, rest, 1);
    Civil(y, m, rest - MonthStart(y, m) + 1)
  }

  lemma MonthsAscend(y: int, a: int, b: int)
    requires 1 <= a <= b <= 13
    ensures MonthStart(y, a) <= MonthStart(y, b)
    ensures a < b ==> MonthStart(y, a) + MonthLen(y, a) <= MonthStart(y, b)
    decreases b - a
  {
    if a < b {
      MonthsAscend(y, a, b - 1);
    }
  }

  /** A day number has one valid civil date. */
  lemma CivilIsUnique(c: Civil, d: Civil)
    requires ValidCivil(c) && ValidCivil(d)
    requires DateToDays(c.year, c.month, c.day) == DateToDays(d.year, d.month, d.day)
    ensures c == d
  {
    DateBounds(c);
    DateBounds(d);
    if c.year < d.year {
      YearsAscend(c.year + 1, d.year);
    } else if d.year < c.year {
      YearsAscend(d.year + 1, c.year);
    } else if c.month < d.month {
      MonthsAscend(c.year, c.month, d.month);
    } else if d.month < c.month {
      MonthsAscend(c.year, d.month, c.month);
    }
  }

  lemma DateBounds(c: Civil)
    requires ValidCivil(c)
    ensures YearStart(c.year) <= DateToDays(c.year, c.month, c.day) + EPOCH < YearStart(c.year + 1)
  {
    YearLength(c.year);
    MonthsAscend(c.year, c.month + 1, 13);
  }

  // The calendar, anchored: one known date, and the date after each date.

  /** The Gregorian rule for the last day of a month. */
  predicate LastOfMonth(c: Civil) {
    if c.month == 2 then
      c.day == if c.year % 400 == 0 || (c.year % 4 == 0 && c.year % 100 != 0) then 29 else 28
    else c.day == if c.month in {4, 6, 9, 11} then 30 else 31
  }

  function Tomorrow(c: Civil): Civil {
    if !LastOfMonth(c) then Civil(c.year, c.month, c.day + 1)
    else if c.month < 12 then Civil(c.year, c.month + 1, 1)
    else Civil(c.year + 1, 1, 1)
  }

  lemma LastIsMonthLen(c: Civil)
    requires 1 <= c.month <= 12
    ensures LastOfMonth(c) <==> c.day == MonthLen(c.year, c.month)
  {
    QuotientStep(c.year);
  }

  lemma YearsJoin(y: int)
    ensures YearStart(y) + MonthStart(y, 12) + 31 == YearStart(y + 1) + MonthStart(y + 1, 1)
  {
    YearLength(y);
  }

  lemma TomorrowIsNextDay(c: Civil)
    requires ValidCivil(c)
    ensures ValidCivil(Tomorrow(c))
    ensures var d := Tomorrow(c); DateToDays(d.year, d.month, d.day) == DateToDays(c.year, c.month, c.day) + 1
  {
    LastIsMonthLen(c);
    if LastOfMonth(c) && c.month == 12 {
      YearsJoin(c.year);
    }
  }

  /** Day 0 is 1 January 1970, and each day number's date is the day after the one before: between
      them they fix the date of every day number. */
  lemma DaysFollowTheCalendar(n: int)
    ensures CivilOf(0) == Civil(1970, 1, 1) && CivilOf(n + 1) == Tomorrow(CivilOf(n))
  {
    CivilIsUnique(CivilOf(0), Civil(1970, 1, 1));
    TomorrowIsNextDay(CivilOf(n));
    CivilIsUnique(CivilOf(n + 1), Tomorrow(CivilOf(n)));
  }

  /** Sunday is 0, as in Go; 1 January 1970 was a Thursday. */
  function Weekday(n: int): (r: int)
    ensures 0 <= r < 7
  {
    (n + 4) % 7
  }

  /** 1 January 1970 was a Thursday, and the days of the week go round in order. */
  lemma WeekdaysGoRound(n: int)
    ensures Weekday(0) == 4 && Weekday(n + 1) == if Weekday(n) == 6 then 0 else Weekday(n) + 1
  {
  }

  /** time.Time{}: the first instant of year 1. */
  const ZERO_TIME: Time := -EPOCH * DAY

  /** The quota_reset column; Lifetime is the empty string. */
  datatype Kind = Lifetime | Day | Week | Month

  /** Day number on which the period of the given kind that contains day n starts. */
  function StartDay(n: int, kind: Kind): int
    requires kind != Lifetime
  {
    var c := CivilOf(n);
    if kind == Day then DateToDays(c.year, c.month, c.day)
    else if kind == Week then
      var wd := if Weekday(n) == 0 then 7 else Weekday(n);
      var d := CivilOf(DateToDays(c.year, c.month, c.day - (wd - 1)));
      DateToDays(d.year, d.month, d.day)
    else DateToDays(c.year, c.month, 1)
  }

  function PeriodStart(now: Time, kind: Kind): Time {
    if kind != Lifetime then DAY * StartDay(now / DAY, kind) else ZERO_TIME
  }

  predicate PeriodDue(kind: Kind, periodStart: Option<Time>, now: Time) {
    kind != Lifetime
    && (periodStart.None? || periodStart.value == ZERO_TIME || periodStart.value < PeriodStart(now, kind))
  }

  /** Any day; a Monday; the first of a month. A lifetime quota has no boundary. */
  ghost predicate BoundaryDay(kind: Kind, n: int) {
    kind != Lifetime
    && (kind == Week ==> Weekday(n) == 1)
    && (kind == Month ==> exists y, m :: 1 <= m <= 12 && n == DateToDays(y, m, 1))
  }

  /** Midnight at the start of a boundary day. */
  ghost predicate Boundary(kind: Kind, t: Time) {
    t % DAY == 0 && BoundaryDay(kind, t / DAY)
  }

  lemma EarlierMonth(c: Civil, y: int, m: int)
    requires ValidCivil(c) && 1 <= m <= 12 && (c.year < y || (c.year == y && c.month < m))
    ensures DateToDays(c.year, c.month, c.day) < DateToDays(y, m, 1)
  {
    if c.year < y {
      DateBounds(c);
      YearsAscend(c.year + 1, y);
    } else {
      MonthsAscend(y, c.month, m);
    }
  }

  lemma MonthHasOneFirst(n: int, y: int, m: int)
    requires 1 <= m <= 12 && DateToDays(y, m, 1) <= n
    ensures var c := CivilOf(n); DateToDays(y, m, 1) <= DateToDays(c.year, c.month, 1)
  {
    var c := CivilOf(n);
    if c.year < y || (c.year == y && c.month < m) {
      EarlierMonth(c, y, m);
    } else if y < c.year || m < c.month {
      EarlierMonth(Civil(y, m, 1), c.year, c.month);
    }
  }

  /** Monday of the week of n: whole weeks are counted from a Sunday. */
  function Monday(n: int): (r: int)
    ensures r <= n < r + 7
    ensures Weekday(r) == 1
  {
    7 * ((n + 3) / 7) - 3
  }

  lemma MondaysAscend(b: int, n: int)
    requires Weekday(b) == 1 && b <= n
    ensures b <= Monday(n)
  {
    assert b + 4 == 7 * ((b + 4) / 7) + 1;
    assert b == Monday(b);
  }

  lemma WeekdayFromMonday(n: int)
    ensures n - Monday(n) == (if Weekday(n) == 0 then 7 else Weekday(n)) - 1
  {
    var q := (n + 3) / 7;
    var r := n - Monday(n);
    assert n + 4 == 7 * q + (r + 1);
  }

  lemma WeekStartIsGreatest(n: int)
    ensures var start := StartDay(n, Week);
            Weekday(start) == 1 && start <= n && forall b :: Weekday(b) == 1 && b <= n ==> b <= start
  {
    WeekdayFromMonday(n);
    assert StartDay(n, Week) == Monday(n);
    forall b | Weekday(b) == 1 && b <= n ensures b <= Monday(n) {
      MondaysAscend(b, n);
    }
  }

  lemma MonthStartIsGreatest(n: int)
    ensures BoundaryDay(Month, StartDay(n, Month)) && StartDay(n, Month) <= n
    ensures forall b :: BoundaryDay(Month, b) && b <= n ==> b <= StartDay(n, Month)
  {
    var c := CivilOf(n);
    assert StartDay(n, Month) == n - (c.day - 1);
    forall b | BoundaryDay(Month, b) && b <= n ensures b <= StartDay(n, Month) {
      var y, m :| 1 <= m <= 12 && b == DateToDays(y, m, 1);
      MonthHasOneFirst(n, y, m);
    }
  }

  lemma StartDayIsGreatest(n: int, kind: Kind)
    requires kind != Lifetime
    ensures BoundaryDay(kind, StartDay(n, kind)) && StartDay(n, kind) <= n
    ensures forall b :: BoundaryDay(kind, b) && b <= n ==> b <= StartDay(n, kind)
  {
    match kind
    case Day => assert StartDay(n, Day) == n;
    case Week => WeekStartIsGreatest(n);
    case Month => MonthStartIsGreatest(n);
  }

  lemma MidnightOrder(a: int, t: Time)
    ensures DAY * a / DAY == a && DAY * a % DAY == 0
    ensures DAY * a <= t <==> a <= t / DAY
  {
  }

  /** PeriodStart is the greatest boundary of its kind that is not after now. */
  lemma PeriodStartIsGreatestBoundary(now: Time, kind: Kind)
    requires kind != Lifetime
    ensures Boundary(kind, PeriodStart(now, kind))
    ensures PeriodStart(now, kind) <= now
    ensures forall b :: Boundary(kind, b) && b <= now ==> b <= PeriodStart(now, kind)
  {
    var start := StartDay(now / DAY, kind);
    StartDayIsGreatest(now / DAY, kind);
    MidnightOrder(start, now);
    forall b | Boundary(kind, b) && b <= now ensures b <= PeriodStart(now, kind) {
      MidnightOrder(b / DAY, now);
    }
  }

  /** Go's zero time is midnight of 1 January of year 1. */
  lemma ZeroTimeIsYearOne()
    ensures CivilOf(ZERO_TIME / DAY) == Civil(1, 1, 1) && ZERO_TIME % DAY == 0
  {
    MidnightOrder(-EPOCH, 0);
    CivilIsUnique(CivilOf(-EPOCH), Civil(1, 1, 1));
  }

  /** PeriodStart in dates: midnight of the same date, of the first of its month, or of the Monday at
      most six days before. */
  lemma PeriodStartInDates(now: Time, kind: Kind)
    requires kind != Lifetime
    ensures PeriodStart(now, kind) % (24 * 3600 * 1_000_000_000) == 0
    ensures var c, d := CivilOf(now / DAY), CivilOf(PeriodStart(now, kind) / DAY);
            (kind == Day ==> d == c)
            && (kind == Month ==> d == Civil(c.year, c.month, 1))
            && (kind == Week ==>
                  Weekday(PeriodStart(now, kind) / DAY) == 1 && 0 <= now / DAY - PeriodStart(now, kind) / DAY < 7)
  {
    var n := now / DAY;
    var c := CivilOf(n);
    MidnightOrder(StartDay(n, kind), now);
    if kind == Month {
      CivilIsUnique(CivilOf(StartDay(n, Month)), Civil(c.year, c.month, 1));
    } else if kind == Week {
      WeekStartIsGreatest(n);
      WeekdayFromMonday(n);
    }
  }

  /** Moving the start twice is moving it once, and a later clock never moves it back. */
  lemma PeriodStartIsIdempotentAndMonotone(t: Time, later: Time, kind: Kind)
    requires kind != Lifetime && t <= later
    ensures PeriodStart(PeriodStart(t, kind), kind) == PeriodStart(t, kind)
    ensures PeriodStart(t, kind) <= PeriodStart(later, kind)
  {
    PeriodStartIsGreatestBoundary(t, kind);
    PeriodStartIsGreatestBoundary(later, kind);
    PeriodStartIsGreatestBoundary(PeriodStart(t, kind), kind);
  }

  /** Straight after the start is moved the period is not due, except in the one period of each
      kind that starts at Go's zero time: that start reads as unset and stays due. */
  lemma DueAfterMove(now: Time, kind: Kind)
    requires kind != Lifetime
    ensures PeriodDue(kind, Some(PeriodStart(now, kind)), now) <==> PeriodStart(now, kind) == ZERO_TIME
  {
  }

  /** A moved start falls due again exactly when the clock enters a later period. */
  lemma DueIffLaterPeriod(t: Time, now: Time, kind: Kind)
    requires kind != Lifetime && PeriodStart(t, kind) != ZERO_TIME && t <= now
    ensures PeriodDue(kind, Some(PeriodStart(t, kind)), now)
            <==> exists b :: Boundary(kind, b) && t < b <= now
  {
    PeriodStartIsGreatestBoundary(t, kind);
    PeriodStartIsGreatestBoundary(now, kind);
  }
}
