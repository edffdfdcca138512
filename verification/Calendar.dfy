/** The proleptic Gregorian calendar of Python's datetime, between years 1 and
    9999, in microseconds. */
module Calendar {

  predicate Leap(year: nat) {
    year % 4 == 0 && (year % 100 != 0 || year % 400 == 0)
  }

  function MonthLength(year: nat, month: nat): nat
    requires 1 <= month <= 12
  {
    if month == 2 then (if Leap(year) then 29 else 28)
    else if month == 4 || month == 6 || month == 9 || month == 11 then 30
    else 31
  }

  function DaysBeforeMonth(year: nat, month: nat): nat
    requires 1 <= month <= 13
  {
    if month == 1 then 0 else DaysBeforeMonth(year, month - 1) + MonthLength(year, month - 1)
  }

  function YearLength(year: nat): nat {
    DaysBeforeMonth(year, 13)
  }

  function DaysBeforeYear(year: nat): nat
    requires year >= 1
  {
    if year == 1 then 0 else DaysBeforeYear(year - 1) + YearLength(year - 1)
  }

  datatype Civil = Civil(year: nat, month: nat, day: nat, hour: nat, minute: nat, second: nat, micro: nat)

  predicate ValidCivil(c: Civil) {
    && 1 <= c.year <= 9999 && 1 <= c.month <= 12 && 1 <= c.day <= MonthLength(c.year, c.month)
    && c.hour < 24 && c.minute < 60 && c.second < 60 && c.micro < 1_000_000
  }

  /** Microseconds since the beginning of year 1. */
  function Wall(c: Civil): nat
    requires c.year >= 1 && 1 <= c.month <= 12 && c.day >= 1
  {
    var days := DaysBeforeYear(c.year) + DaysBeforeMonth(c.year, c.month) + c.day - 1;
    (((days * 24 + c.hour) * 60 + c.minute) * 60 + c.second) * 1_000_000 + c.micro
  }

  const MICROS_PER_DAY := 86_400_000_000

  predicate InRange(wall: int) {
    0 <= wall && YearFrom(1, wall / MICROS_PER_DAY).0 <= 9999
  }

  function YearFrom(year: nat, days: nat): (nat, nat)
    requires year >= 1
    decreases days
  {
    YearLengthIsUsual(year);
    if days < YearLength(year) then (year, days) else YearFrom(year + 1, days - YearLength(year))
  }

  function MonthFrom(year: nat, month: nat, days: nat): (nat, nat)
    requires 1 <= month <= 12
    decreases 12 - month
  {
    if month == 12 || days < MonthLength(year, month) then (month, days)
    else MonthFrom(year, month + 1, days - MonthLength(year, month))
  }

  /** The date of the day that is `days` days after the first one. */
  function DateOf(days: nat): (nat, nat, nat) {
    var (year, rest) := YearFrom(1, days);
    assert year >= 1 by {
      YearFromIsRight(1, days);
    }
    var (month, day) := MonthFrom(year, 1, rest);
    (year, month, day + 1)
  }

  function CivilOf(wall: nat): Civil {
    var (year, month, day) := DateOf(wall / MICROS_PER_DAY);
    var clock := wall % MICROS_PER_DAY;
    Civil(year, month, day, clock / 3_600_000_000, clock / 60_000_000 % 60, clock / 1_000_000 % 60, clock % 1_000_000)
  }

  lemma YearLengthIsUsual(year: nat)
    ensures YearLength(year) == if Leap(year) then 366 else 365
  {
    var february := MonthLength(year, 2);
    assert DaysBeforeMonth(year, 2) == 31;
    assert DaysBeforeMonth(year, 4) == 62 + february;
    assert DaysBeforeMonth(year, 6) == 123 + february;
    assert DaysBeforeMonth(year, 8) == 184 + february;
    assert DaysBeforeMonth(year, 10) == 245 + february;
    assert DaysBeforeMonth(year, 12) == 306 + february;
  }

  lemma {:induction false} YearFromIsRight(year: nat, days: nat)
    requires year >= 1
    ensures
      var (y, d) := YearFrom(year, days);
      y >= year && d < YearLength(y) && DaysBeforeYear(y) + d == DaysBeforeYear(year) + days
    decreases days
  {
    YearLengthIsUsual(year);
    if days >= YearLength(year) {
      YearFromIsRight(year + 1, days - YearLength(year));
    }
  }

  lemma {:induction false} MonthFromIsRight(year: nat, month: nat, days: nat)
    requires 1 <= month <= 12 && DaysBeforeMonth(year, month) + days < YearLength(year)
    ensures
      var (m, d) := MonthFrom(year, month, days);
      && 1 <= m <= 12 && d < MonthLength(year, m)
      && DaysBeforeMonth(year, m) + d == DaysBeforeMonth(year, month) + days
    decreases 12 - month
  {
    if month < 12 && days >= MonthLength(year, month) {
      MonthFromIsRight(year, month + 1, days - MonthLength(year, month));
    }
  }

  /** Reading a time off the calendar and counting it back gives the same time. */
  lemma {:induction false} CalendarRoundTrip(wall: nat)
    requires InRange(wall)
    ensures ValidCivil(CivilOf(wall)) && Wall(CivilOf(wall)) == wall
  {
    var days := wall / MICROS_PER_DAY;
    var (year, rest) := YearFrom(1, days);
    YearFromIsRight(1, days);
    var (month, day) := MonthFrom(year, 1, rest);
    MonthFromIsRight(year, 1, rest);
    ClockRoundTrip(days, wall % MICROS_PER_DAY);
  }

  lemma ClockRoundTrip(days: nat, clock: nat)
    requires clock < MICROS_PER_DAY
    ensures clock / 3_600_000_000 < 24
    ensures (((days * 24 + clock / 3_600_000_000) * 60 + clock / 60_000_000 % 60) * 60
             + clock / 1_000_000 % 60) * 1_000_000 + clock % 1_000_000
         == days * MICROS_PER_DAY + clock
  {
    var seconds := clock / 1_000_000;
    assert clock / 60_000_000 == seconds / 60 && clock / 3_600_000_000 == seconds / 60 / 60;
  }

  lemma {:induction false} YearsGrow(a: nat, b: nat)
    requires 1 <= a <= b
    ensures DaysBeforeYear(a) <= DaysBeforeYear(b)
  {
    if a < b {
      YearsGrow(a, b - 1);
    }
  }

  lemma {:induction false} YearFromIsExact(from: nat, year: nat, day: nat)
    requires 1 <= from <= year && day < YearLength(year)
    ensures DaysBeforeYear(from) <= DaysBeforeYear(year)
    ensures YearFrom(from, DaysBeforeYear(year) - DaysBeforeYear(from) + day) == (year, day)
    decreases year - from
  {
    YearsGrow(from, year);
    YearLengthIsUsual(from);
    if from < year {
      YearsGrow(from + 1, year);
      YearFromIsExact(from + 1, year, day);
    }
  }

  lemma {:induction false} MonthFromIsExact(year: nat, from: nat, month: nat, day: nat)
    requires 1 <= from <= month <= 12 && day < MonthLength(year, month)
    ensures DaysBeforeMonth(year, from) <= DaysBeforeMonth(year, month)
    ensures MonthFrom(year, from, DaysBeforeMonth(year, month) - DaysBeforeMonth(year, from) + day) == (month, day)
    decreases month - from
  {
    if from < month {
      MonthFromIsExact(year, from + 1, month, day);
    }
  }

  lemma {:induction false} DaysStayInTheirYear(year: nat, month: nat, day: nat)
    requires 1 <= month <= 12 && day < MonthLength(year, month)
    ensures DaysBeforeMonth(year, month) + day < YearLength(year)
    decreases 12 - month
  {
    if month < 12 {
      DaysStayInTheirYear(year, month + 1, 0);
    }
  }

  lemma ClockIsExact(days: nat, hour: nat, minute: nat, second: nat, micro: nat)
    requires hour < 24 && minute < 60 && second < 60 && micro < 1_000_000
    ensures
      var clock := ((hour * 60 + minute) * 60 + second) * 1_000_000 + micro;
      var wall := (((days * 24 + hour) * 60 + minute) * 60 + second) * 1_000_000 + micro;
      && wall / MICROS_PER_DAY == days && wall % MICROS_PER_DAY == clock
      && clock / 3_600_000_000 == hour && clock / 60_000_000 % 60 == minute
      && clock / 1_000_000 % 60 == second && clock % 1_000_000 == micro
  {
    var clock := ((hour * 60 + minute) * 60 + second) * 1_000_000 + micro;
    assert clock / 1_000_000 == (hour * 60 + minute) * 60 + second;
    assert clock / 60_000_000 == hour * 60 + minute;
  }

  lemma {:induction false} DateIsExact(year: nat, month: nat, day: nat)
    requires 1 <= year && 1 <= month <= 12 && 1 <= day <= MonthLength(year, month)
    ensures
      var days := DaysBeforeYear(year) + DaysBeforeMonth(year, month) + day - 1;
      DateOf(days) == (year, month, day) && YearFrom(1, days).0 == year
  {
    var inYear := DaysBeforeMonth(year, month) + day - 1;
    DaysStayInTheirYear(year, month, day - 1);
    YearIsExact(year, inYear);
    MonthIsExact(year, month, day - 1);
    DateOfIs(DaysBeforeYear(year) + inYear, year, inYear, month, day - 1);
  }

  lemma {:induction false} DateOfIs(days: nat, year: nat, rest: nat, month: nat, day: nat)
    requires year >= 1 && YearFrom(1, days) == (year, rest) && MonthFrom(year, 1, rest) == (month, day)
    ensures DateOf(days) == (year, month, day + 1)
  {
  }

  lemma {:induction false} YearIsExact(year: nat, inYear: nat)
    requires 1 <= year && inYear < YearLength(year)
    ensures YearFrom(1, DaysBeforeYear(year) + inYear) == (year, inYear)
  {
    YearFromIsExact(1, year, inYear);
  }

  lemma {:induction false} MonthIsExact(year: nat, month: nat, day: nat)
    requires 1 <= month <= 12 && day < MonthLength(year, month)
    ensures MonthFrom(year, 1, DaysBeforeMonth(year, month) + day) == (month, day)
  {
    MonthFromIsExact(year, 1, month, day);
  }

  /** Counting a valid reading and reading it off again gives the same reading, so
      the calendar and the count determine each other. */
  lemma {:induction false} CountRoundTrip(c: Civil)
    requires ValidCivil(c)
    ensures InRange(Wall(c)) && CivilOf(Wall(c)) == c
  {
    var days, clock := WallSplits(c);
    DateIsExact(c.year, c.month, c.day);
    ReadsOff(c, days, clock, Wall(c));
  }

  lemma WallSplits(c: Civil) returns (days: nat, clock: nat)
    requires ValidCivil(c)
    ensures days == DaysBeforeYear(c.year) + DaysBeforeMonth(c.year, c.month) + c.day - 1
    ensures Wall(c) / MICROS_PER_DAY == days && Wall(c) % MICROS_PER_DAY == clock
    ensures clock / 3_600_000_000 == c.hour && clock / 60_000_000 % 60 == c.minute
    ensures clock / 1_000_000 % 60 == c.second && clock % 1_000_000 == c.micro
  {
    days := DaysBeforeYear(c.year) + DaysBeforeMonth(c.year, c.month) + c.day - 1;
    clock := ((c.hour * 60 + c.minute) * 60 + c.second) * 1_000_000 + c.micro;
    ClockIsExact(days, c.hour, c.minute, c.second, c.micro);
  }

  lemma ReadsOff(c: Civil, days: nat, clock: nat, wall: nat)
    requires wall / MICROS_PER_DAY == days && wall % MICROS_PER_DAY == clock
    requires DateOf(days) == (c.year, c.month, c.day) && YearFrom(1, days).0 <= 9999
    requires clock / 3_600_000_000 == c.hour && clock / 60_000_000 % 60 == c.minute
    requires clock / 1_000_000 % 60 == c.second && clock % 1_000_000 == c.micro
    ensures InRange(wall) && CivilOf(wall) == c
  {
  }

  // --- The calendar itself ---

  /** The twelve month lengths. */
  lemma MonthsAreUsual(year: nat)
    ensures
      var february := if Leap(year) then 29 else 28;
      var lengths := [31, february, 31, 30, 31, 30, 31, 31, 30, 31, 30, 31];
      forall month :: 1 <= month <= 12 ==> MonthLength(year, month) == lengths[month - 1]
  {
  }

  /** The rule for leap years, as a count of days: every fourth year, but not every
      hundredth, but every four hundredth again. */
  lemma {:induction false} YearsCountUp(year: nat)
    requires year >= 1
    ensures DaysBeforeYear(year) == 365 * (year - 1) + (year - 1) / 4 - (year - 1) / 100 + (year - 1) / 400
  {
    if year > 1 {
      YearsCountUp(year - 1);
      YearLengthIsUsual(year - 1);
      LeapCount(year - 1);
      assert DaysBeforeYear(year) == DaysBeforeYear(year - 1) + YearLength(year - 1);
    }
  }

  lemma {:induction false} LeapCount(y: nat)
    requires y >= 1
    ensures y / 4 - y / 100 + y / 400 - ((y - 1) / 4 - (y - 1) / 100 + (y - 1) / 400) == if Leap(y) then 1 else 0
  {
    Fourths(y);
    Hundredths(y);
    FourHundredths(y);
    Divisors(y);
  }

  lemma Fourths(y: nat)
    requires y >= 1
    ensures y / 4 - (y - 1) / 4 == if y % 4 == 0 then 1 else 0
  {
  }

  lemma Hundredths(y: nat)
    requires y >= 1
    ensures y / 100 - (y - 1) / 100 == if y % 100 == 0 then 1 else 0
  {
  }

  lemma FourHundredths(y: nat)
    requires y >= 1
    ensures y / 400 - (y - 1) / 400 == if y % 400 == 0 then 1 else 0
  {
  }

  lemma Divisors(y: nat)
    ensures y % 400 == 0 ==> y % 100 == 0
    ensures y % 100 == 0 ==> y % 4 == 0
  {
    if y % 400 == 0 {
      HundredTimes(y, 4 * (y / 400));
    }
    if y % 100 == 0 {
      FourTimes(y, 25 * (y / 100));
    }
  }

  lemma HundredTimes(y: nat, q: nat)
    requires y == 100 * q
    ensures y % 100 == 0
  {
  }

  lemma FourTimes(y: nat, q: nat)
    requires y == 4 * q
    ensures y % 4 == 0
  {
  }

  /** The clock: a day has 24 hours of 60 minutes of 60 seconds of a million
      microseconds. */
  lemma WallMeans(c: Civil)
    requires ValidCivil(c)
    ensures
      var days := DaysBeforeYear(c.year) + DaysBeforeMonth(c.year, c.month) + c.day - 1;
      Wall(c) == days * 86_400_000_000 + c.hour * 3_600_000_000 + c.minute * 60_000_000 + c.second * 1_000_000 + c.micro
  {
  }
}
