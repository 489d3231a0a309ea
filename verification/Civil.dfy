/** Civil dates from day counts (filter.rs), against the Gregorian calendar counted year by
    year and month by month (section 3.2.1 of ISO 8601:2004). */
module Civil {

  // ---- the calendar, counted plainly

  predicate IsLeap(y: int) { y % 4 == 0 && (y % 100 != 0 || y % 400 == 0) }

  function YearLength(y: int): int { if IsLeap(y) then 366 else 365 }

  function MonthLength(y: int, m: int): int
    requires 1 <= m <= 12
  {
    if m == 2 then (if IsLeap(y) then 29 else 28) else if m in {4, 6, 9, 11} then 30 else 31
  }

  /** Days from 1 January 1970 to 1 January of `y`. */
  function DaysToYear(y: int): int
    decreases if y >= 1970 then y - 1970 else 1970 - y
  {
    if y == 1970 then 0
    else if y > 1970 then DaysToYear(y - 1) + YearLength(y - 1)
    else DaysToYear(y + 1) - YearLength(y)
  }

  /** Days from 1 January to the first of month `m`. */
  function DaysToMonth(y: int, m: int): int
    requires 1 <= m <= 12
    decreases m
  {
    if m == 1 then 0 else DaysToMonth(y, m - 1) + MonthLength(y, m - 1)
  }

  predicate IsDate(y: int, m: int, d: int) { 1 <= m <= 12 && 1 <= d <= MonthLength(y, m) }

  function DayNumber(y: int, m: int, d: int): int
    requires IsDate(y, m, d)
  {
    DaysToYear(y) + DaysToMonth(y, m) + d - 1
  }

  // ---- the source's closed form

  /** Division of the source's language: toward zero. */
  function TruncDiv(a: int, b: int): int
    requires b > 0
  {
    if a >= 0 then a / b else -((-a) / b)
  }

  /** The cast of a year to 32 bits. */
  function AsI32(y: int): int { (y + 0x8000_0000) % 0x1_0000_0000 - 0x8000_0000 }

  /** A subtraction of the source's unsigned numbers, which must not go below zero. */
  function Minus(a: nat, b: nat): nat
    requires b <= a
  {
    a - b
  }

  function Era(z: int): int { TruncDiv(if z >= 0 then z else z - 146_096, 146_097) }

  lemma EraIsFloor(z: int)
    ensures Era(z) == z / 146_097
    ensures 0 <= z - Era(z) * 146_097 < 146_097
  {
  }

  /** The year of an era that a day of it falls in. */
  function YearIn(doe: nat): nat
    requires doe < 146_097
  {
    Minus(Minus(doe, doe / 1460) + doe / 36_524, doe / 146_096) / 365
  }

  /** Days in an era before its year `y`. */
  function YearStart(y: nat): nat { Minus(365 * y + y / 4, y / 100) }

  /** A day of an era in terms of its century, its four-year cycle and its year in that. */
  lemma YearParts(c: nat, q: nat, a: nat, s: nat)
    requires c < 4 && q < 25 && a < 4 && s < 366
    requires s == 365 ==> a == 3 && (q < 24 || c == 3)
    ensures var doe := 36_524 * c + 1461 * q + 365 * a + s;
            YearIn(doe) == 100 * c + 4 * q + a && YearStart(YearIn(doe)) == doe - s
  {
    var doe := 36_524 * c + 1461 * q + 365 * a + s;
    var last := if q == 24 && a == 3 && s == 365 then 1 else 0;
    assert doe / 36_524 == c + last && doe / 146_096 == last;
    var y := 100 * c + 4 * q + a;
    assert doe / 1460 == (doe - 1460 * (25 * c + q)) / 1460 + 25 * c + q;
    assert YearIn(doe) == y;
    assert y / 100 == c && y / 4 == 25 * c + q;
  }

  lemma SplitDay(doe: nat) returns (c: nat, q: nat, a: nat, s: nat)
    requires doe < 146_097
    ensures c < 4 && q < 25 && a < 4 && s < 366 && (s == 365 ==> a == 3 && (q < 24 || c == 3))
    ensures doe == 36_524 * c + 1461 * q + 365 * a + s
  {
    c := if doe == 146_096 then 3 else doe / 36_524;
    var r := doe - 36_524 * c;
    q := r / 1461;
    var t := r - 1461 * q;
    a := if t == 1460 then 3 else t / 365;
    s := t - 365 * a;
  }

  /** The years that end in a leap day are the leap ones, by their place in the era. */
  lemma LeapInEra(c: nat, q: nat, a: nat)
    requires c < 4 && q < 25 && a < 4
    ensures IsLeap(100 * c + 4 * q + a + 1) <==> a == 3 && (q < 24 || c == 3)
  {
    var y := 100 * c + 4 * q + a + 1;
    assert y % 4 == (a + 1) % 4;
    if a == 3 {
      assert y == 100 * c + 4 * (q + 1);
      assert y % 100 == 0 <==> q == 24;
      assert q == 24 ==> y == 100 * (c + 1);
    }
  }

  /** Within a 400-year era of years that begin in March: the year, and the day in it. */
  lemma YearOfEra(doe: nat)
    requires doe < 146_097
    ensures YearIn(doe) < 400
    ensures 0 <= doe - YearStart(YearIn(doe)) < (if IsLeap(YearIn(doe) + 1) then 366 else 365)
  {
    var c, q, a, s := SplitDay(doe);
    YearParts(c, q, a, s);
    LeapInEra(c, q, a);
    assert YearIn(doe) == 100 * c + 4 * q + a < 400;
  }

  /** The month and day of a day of the year that begins on 1 March of `y`. */
  function MonthDay(y: int, doy: nat): (int, nat, nat)
    requires doy < 366
  {
    var mp: nat := (5 * doy + 2) / 153;
    var d: nat := Minus(doy, (153 * mp + 2) / 5) + 1;
    var m: nat := if mp < 10 then mp + 3 else Minus(mp, 9);
    (if m <= 2 then y + 1 else y, m, d)
  }

  /** The era of a day, and the day's place in it. */
  function EraDay(days: int): (r: (int, nat))
    ensures days + 719_468 == 146_097 * r.0 + r.1 && r.1 < 146_097
  {
    var z := days + 719_468;
    EraIsFloor(z);
    (Era(z), z - Era(z) * 146_097)
  }

  /** The year of a day of an era, and the day's place in that. */
  function YearDay(doe: nat): (r: (nat, nat))
    requires doe < 146_097
    ensures r.0 < 400 && doe == YearStart(r.0) + r.1
    ensures r.1 < (if IsLeap(r.0 + 1) then 366 else 365)
  {
    YearOfEra(doe);
    (YearIn(doe), Minus(doe, YearStart(YearIn(doe))))
  }

  /** The date of a day, its year as wide as it gets. */
  function CivilDate(days: int): (int, nat, nat)
  {
    var (era, doe) := EraDay(days);
    var (yoe, doy) := YearDay(doe);
    MonthDay(yoe + era * 400, doy)
  }

  /** The date of a day as the source returns it: the year cut to 32 bits. */
  function DaysToYmd(days: int): (int, nat, nat)
  {
    var (y, m, d) := CivilDate(days);
    (AsI32(y), m, d)
  }

  // ---- the closed form counts the calendar

  function Leaps(y: int): int { y / 4 - y / 100 + y / 400 }

  lemma LeapsStep(y: int)
    ensures Leaps(y) == Leaps(y - 1) + (if IsLeap(y) then 1 else 0)
  {
    DivStep(y, 4);
    DivStep(y, 100);
    DivStep(y, 400);
    Multiples(y);
  }

  lemma Multiples(y: int)
    ensures y % 400 == 0 ==> y % 100 == 0
    ensures y % 100 == 0 ==> y % 4 == 0
  {
    if y % 400 == 0 {
      HundredTimes(y, 4 * (y / 400));
    }
    if y % 100 == 0 {
      FourTimes(y, 25 * (y / 100));
    }
  }

  lemma HundredTimes(y: int, m: int)
    requires y == 100 * m
    ensures y % 100 == 0
  {
  }

  lemma FourTimes(y: int, m: int)
    requires y == 4 * m
    ensures y % 4 == 0
  {
  }

  lemma DivStep(y: int, k: int)
    requires k == 4 || k == 100 || k == 400
    ensures y / k == (y - 1) / k + (if y % k == 0 then 1 else 0)
  {
  }

  lemma {:induction false} DaysToYearIs(y: int)
    ensures DaysToYear(y) == 365 * (y - 1970) + Leaps(y - 1) - 477
    decreases if y >= 1970 then y - 1970 else 1970 - y
  {
    if y > 1970 {
      DaysToYearIs(y - 1);
      LeapsStep(y - 1);
    } else if y < 1970 {
      DaysToYearIs(y + 1);
      LeapsStep(y);
    }
  }

  lemma MonthStarts(y: int)
    ensures DaysToMonth(y, 2) == 31 && DaysToMonth(y, 3) == YearLength(y) - 306
    ensures DaysToMonth(y, 4) == YearLength(y) - 275 && DaysToMonth(y, 5) == YearLength(y) - 245
    ensures DaysToMonth(y, 6) == YearLength(y) - 214 && DaysToMonth(y, 7) == YearLength(y) - 184
    ensures DaysToMonth(y, 8) == YearLength(y) - 153 && DaysToMonth(y, 9) == YearLength(y) - 122
    ensures DaysToMonth(y, 10) == YearLength(y) - 92 && DaysToMonth(y, 11) == YearLength(y) - 61
    ensures DaysToMonth(y, 12) == YearLength(y) - 31
  {
    assert DaysToMonth(y, 2) == 31;
    assert DaysToMonth(y, 3) == 31 + MonthLength(y, 2);
    assert DaysToMonth(y, 4) == DaysToMonth(y, 3) + 31;
    assert DaysToMonth(y, 5) == DaysToMonth(y, 4) + 30;
    assert DaysToMonth(y, 6) == DaysToMonth(y, 5) + 31;
    assert DaysToMonth(y, 7) == DaysToMonth(y, 6) + 30;
    assert DaysToMonth(y, 8) == DaysToMonth(y, 7) + 31;
    assert DaysToMonth(y, 9) == DaysToMonth(y, 8) + 31;
    assert DaysToMonth(y, 10) == DaysToMonth(y, 9) + 30;
    assert DaysToMonth(y, 11) == DaysToMonth(y, 10) + 31;
    assert DaysToMonth(y, 12) == DaysToMonth(y, 11) + 30;
  }

  /** Days from 1 March to the first of the month that comes `mp` months later. */
  function SinceMarch(mp: nat): nat { (153 * mp + 2) / 5 }

  lemma MonthSpan(doy: nat, mp: nat)
    requires doy < 366 && mp == (5 * doy + 2) / 153
    ensures mp < 12 && SinceMarch(mp) <= doy < SinceMarch(mp + 1)
  {
  }

  /** March to December. */
  lemma LaterMonths(y: int, mp: nat)
    requires mp < 10
    ensures DaysToMonth(y, mp + 3) == DaysToMonth(y, 3) + SinceMarch(mp)
    ensures MonthLength(y, mp + 3) == SinceMarch(mp + 1) - SinceMarch(mp)
  {
    MonthStarts(y);
    assert mp in {0, 1, 2, 3, 4, 5, 6, 7, 8, 9};
  }

  lemma YearTurns(y: int)
    ensures DaysToYear(y + 1) == DaysToYear(y) + DaysToMonth(y, 3) + SinceMarch(10)
  {
    MonthStarts(y);
    DaysToYearIs(y);
    DaysToYearIs(y + 1);
    LeapsStep(y);
  }

  /** A day of the year that begins on 1 March of `y`, as month and day. */
  lemma MonthOfYear(y: int, doy: nat)
    requires doy < (if IsLeap(y + 1) then 366 else 365)
    ensures var (y', m, d) := MonthDay(y, doy);
            && IsDate(y', m, d)
            && DaysToYear(y') + DaysToMonth(y', m) + d - 1 == DaysToYear(y) + DaysToMonth(y, 3) + doy
  {
    var mp := (5 * doy + 2) / 153;
    MonthSpan(doy, mp);
    if mp < 10 {
      LaterMonths(y, mp);
    } else {
      YearTurns(y);
      MonthStarts(y + 1);
    }
  }

  lemma MarchFirst(era: int, yoe: nat)
    requires yoe < 400
    ensures DaysToYear(yoe + era * 400) + DaysToMonth(yoe + era * 400, 3) == 146_097 * era + YearStart(yoe) - 719_468
    ensures IsLeap(yoe + era * 400 + 1) == IsLeap(yoe + 1)
  {
    var y := yoe + era * 400;
    DaysToYearIs(y);
    MonthStarts(y);
    LeapsStep(y);
    EraDivides(era, yoe, 4);
    EraDivides(era, yoe, 100);
    EraDivides(era, yoe, 400);
    EraDivides(era, yoe + 1, 4);
    EraDivides(era, yoe + 1, 100);
    EraDivides(era, yoe + 1, 400);
  }

  lemma EraDivides(era: int, y: nat, k: int)
    requires k == 4 || k == 100 || k == 400
    ensures (y + era * 400) / k == y / k + era * (400 / k) && (y + era * 400) % k == y % k
  {
  }

  predicate Counts(date: (int, nat, nat), days: int)
  {
    var (y, m, d) := date; IsDate(y, m, d) && DayNumber(y, m, d) == days
  }

  lemma PartsCount(era: int, yoe: nat, doy: nat)
    requires yoe < 400 && doy < (if IsLeap(yoe + 1) then 366 else 365)
    ensures Counts(MonthDay(yoe + era * 400, doy), 146_097 * era + YearStart(yoe) + doy - 719_468)
  {
    MarchFirst(era, yoe);
    MonthOfYear(yoe + era * 400, doy);
  }

  lemma PartsAdd(days: int, era: int, doe: nat, yoe: nat, doy: nat)
    requires days + 719_468 == 146_097 * era + doe && doe == YearStart(yoe) + doy
    requires yoe < 400 && doy < (if IsLeap(yoe + 1) then 366 else 365)
    ensures Counts(MonthDay(yoe + era * 400, doy), days)
  {
    PartsCount(era, yoe, doy);
  }

  /** The closed form gives a date of the calendar, and the one whose number the day is. */
  lemma CivilDateCounts(days: int)
    ensures Counts(CivilDate(days), days)
  {
    var era, doe, yoe, doy := CivilDateParts(days);
    PartsAdd(days, era, doe, yoe, doy);
    SameCounts(CivilDate(days), MonthDay(yoe + era * 400, doy), days);
  }

  lemma CivilDateParts(days: int) returns (era: int, doe: nat, yoe: nat, doy: nat)
    ensures days + 719_468 == 146_097 * era + doe && doe == YearStart(yoe) + doy
    ensures yoe < 400 && doy < (if IsLeap(yoe + 1) then 366 else 365)
    ensures CivilDate(days) == MonthDay(yoe + era * 400, doy)
  {
    var (e, day) := EraDay(days);
    var (y, rest) := YearDay(day);
    era, doe, yoe, doy := e, day, y, rest;
  }

  lemma SameCounts(date: (int, nat, nat), other: (int, nat, nat), days: int)
    requires date == other && Counts(other, days)
    ensures Counts(date, days)
  {
  }

  // ---- and only that one

  predicate DateLess(y1: int, m1: int, d1: int, y2: int, m2: int, d2: int)
  {
    y1 < y2 || (y1 == y2 && (m1 < m2 || (m1 == m2 && d1 < d2)))
  }

  lemma {:induction false} YearsAscend(y1: int, y2: int)
    requires y1 < y2
    ensures DaysToYear(y1) + YearLength(y1) <= DaysToYear(y2)
    decreases y2 - y1
  {
    DaysToYearIs(y1);
    DaysToYearIs(y1 + 1);
    LeapsStep(y1);
    if y1 + 1 < y2 {
      YearsAscend(y1 + 1, y2);
    }
  }

  lemma {:induction false} MonthsAscend(y: int, m1: int, m2: int)
    requires 1 <= m1 < m2 <= 12
    ensures DaysToMonth(y, m1) + MonthLength(y, m1) <= DaysToMonth(y, m2)
    decreases m2
  {
    if m1 + 1 < m2 {
      MonthsAscend(y, m1, m2 - 1);
    }
  }

  lemma DayInYear(y: int, m: int, d: int)
    requires IsDate(y, m, d)
    ensures 0 <= DaysToMonth(y, m) + d - 1 < YearLength(y)
  {
    MonthStarts(y);
    assert m in {1, 2, 3, 4, 5, 6, 7, 8, 9, 10, 11, 12};
  }

  /** The day number grows with the date. */
  lemma DayNumberAscends(y1: int, m1: int, d1: int, y2: int, m2: int, d2: int)
    requires IsDate(y1, m1, d1) && IsDate(y2, m2, d2) && DateLess(y1, m1, d1, y2, m2, d2)
    ensures DayNumber(y1, m1, d1) < DayNumber(y2, m2, d2)
  {
    DayInYear(y1, m1, d1);
    DayInYear(y2, m2, d2);
    if y1 < y2 {
      YearsAscend(y1, y2);
    } else if m1 < m2 {
      MonthsAscend(y1, m1, m2);
    }
  }

  /** No two dates have one number. */
  lemma OneDate(a: (int, nat, nat), b: (int, nat, nat), days: int)
    requires Counts(a, days) && Counts(b, days)
    ensures a == b
  {
    if DateLess(a.0, a.1, a.2, b.0, b.1, b.2) {
      DayNumberAscends(a.0, a.1, a.2, b.0, b.1, b.2);
    } else if DateLess(b.0, b.1, b.2, a.0, a.1, a.2) {
      DayNumberAscends(b.0, b.1, b.2, a.0, a.1, a.2);
    }
  }

  /** Every date of the calendar comes back from its number. */
  lemma CivilDateInverts(y: int, m: nat, d: nat)
    requires IsDate(y, m, d)
    ensures CivilDate(DayNumber(y, m, d)) == (y, m, d)
  {
    var days := DayNumber(y, m, d);
    CivilDateCounts(days);
    OneDate(CivilDate(days), (y, m, d), days);
  }

  predicate Earlier(a: (int, nat, nat), b: (int, nat, nat)) { DateLess(a.0, a.1, a.2, b.0, b.1, b.2) }

  lemma LaterDayLaterDate(a: (int, nat, nat), b: (int, nat, nat), x: int, y: int)
    requires Counts(a, x) && Counts(b, y) && x < y
    ensures Earlier(a, b)
  {
    if Earlier(b, a) {
      DayNumberAscends(b.0, b.1, b.2, a.0, a.1, a.2);
    }
  }

  /** Later days have later dates. */
  lemma CivilDateAscends(a: int, b: int)
    requires a < b
    ensures Earlier(CivilDate(a), CivilDate(b))
  {
    CivilDateCounts(a);
    CivilDateCounts(b);
    LaterDayLaterDate(CivilDate(a), CivilDate(b), a, b);
  }

  /** 1 January -2147483648 and 31 December 2147483647. */
  const FIRST_DAY := -784_353_015_833
  const LAST_DAY := 784_351_576_776

  lemma YearAt(y: int)
    ensures y == -0x8000_0000 ==> DaysToYear(y) == FIRST_DAY
    ensures y == 0x8000_0000 ==> DaysToYear(y) == LAST_DAY + 1
  {
    DaysToYearIs(y);
    assert y == 0x8000_0000 ==> Leaps(y - 1) == 520_764_784;
    assert y == -0x8000_0000 ==> Leaps(y - 1) == -520_764_786;
  }

  /** `low` and `high` bound the years that fit in 32 bits. */
  lemma YearBounds(days: int, date: (int, nat, nat), low: int, high: int)
    requires Counts(date, days)
    requires low == -0x8000_0000 && high == 0x8000_0000
    ensures low <= date.0 < high <==> FIRST_DAY <= days <= LAST_DAY
  {
    YearAt(low);
    YearAt(high);
    YearsBefore(low, date.0, date.1, date.2);
    YearsBefore(high, date.0, date.1, date.2);
  }

  /** A date falls before a year exactly when its day does. */
  lemma YearsBefore(bound: int, y: int, m: int, d: int)
    requires IsDate(y, m, d)
    ensures y < bound <==> DayNumber(y, m, d) < DaysToYear(bound)
  {
    DayInYear(y, m, d);
    if y < bound {
      YearsAscend(y, bound);
    } else if y > bound {
      YearsAscend(bound, y);
    }
  }

  lemma CastKeepsIff(y: int)
    ensures AsI32(y) == y <==> -0x8000_0000 <= y < 0x8000_0000
  {
  }

  /** The source's answer is the day's date exactly when its year fits in 32 bits; beyond
      those days the cast returns another year's date. */
  lemma DaysToYmdRightIff(days: int)
    ensures Counts(DaysToYmd(days), days) <==> FIRST_DAY <= days <= LAST_DAY
  {
    var (y, m, d) := CivilDate(days);
    CivilDateCounts(days);
    YearBounds(days, CivilDate(days), -0x8000_0000, 0x8000_0000);
    CastKeepsIff(y);
    if Counts(DaysToYmd(days), days) {
      CivilDateInverts(AsI32(y), m, d);
    }
  }
}
