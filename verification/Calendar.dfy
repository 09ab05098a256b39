/** UTC calendar arithmetic as section 21.4.1 of ECMA-262 defines it. A time value is an
    `int` number of milliseconds since 1970-01-01T00:00:00Z. */
module Calendar {
  const MS_PER_DAY := 86_400_000

  // ---- Days and years ----------------------------------------------------

  function Day(t: int): int { t / MS_PER_DAY }

  predicate LeapYear(y: int) { y % 4 == 0 && (y % 100 != 0 || y % 400 == 0) }

  /** Day number of 1 January of year `y`. */
  function DayFromYear(y: int): int {
    365 * (y - 1970) + (y - 1969) / 4 - (y - 1901) / 100 + (y - 1601) / 400
  }

  lemma YearLength(y: int)
    ensures DayFromYear(y + 1) - DayFromYear(y) == if LeapYear(y) then 366 else 365
  {
    FloorStep(y - 1969, 4);
    FloorStep(y - 1901, 100);
    FloorStep(y - 1601, 400);
  }

  lemma FloorStep(k: int, n: int)
    requires n == 4 || n == 100 || n == 400
    ensures (k + 1) / n - k / n == if (k + 1) % n == 0 then 1 else 0
  {
  }

  lemma {:induction false} YearsOrdered(y: int, z: int)
    requires y <= z
    ensures DayFromYear(y) + 365 * (z - y) <= DayFromYear(z)
    decreases z - y
  {
    if y < z {
      YearsOrdered(y, z - 1);
      YearLength(z - 1);
    }
  }

  /** The year that holds day `d`: the largest one not starting after it. */
  function YearFromDay(d: int): (y: int)
    ensures DayFromYear(y) <= d < DayFromYear(y + 1)
  {
    var guess := 1970 + 400 * d / 146097;
    YearLength(guess - 1);
    YearLength(guess);
    YearLength(guess + 1);
    if d < DayFromYear(guess) then guess - 1
    else if d < DayFromYear(guess + 1) then guess
    else guess + 1
  }

  // ---- Months and days of the month --------------------------------------

  /** Days of a year before month `m` (0 is January, 12 the next January): the
      closed form of the table in section 21.4.1.4, see `MonthTable`. */
  function DaysBeforeMonth(m: int, leap: bool): int {
    (367 * m + 5) / 12 - (if m < 2 then 0 else if leap then 1 else 2)
  }

  lemma MonthTable(leap: bool)
    ensures var extra := if leap then 1 else 0;
            seq(13, m => DaysBeforeMonth(m, leap))
            == [0, 31, 59 + extra, 90 + extra, 120 + extra, 151 + extra, 181 + extra, 212 + extra,
                243 + extra, 273 + extra, 304 + extra, 334 + extra, 365 + extra]
  {
  }

  function DaysInMonth(y: int, m: int): (n: int)
    requires 0 <= m < 12
    ensures 28 <= n <= 31
  {
    DaysBeforeMonth(m + 1, LeapYear(y)) - DaysBeforeMonth(m, LeapYear(y))
  }

  function MonthOfYearDay(n: int, leap: bool): (m: int)
    requires 0 <= n < DaysBeforeMonth(12, leap)
    ensures 0 <= m < 12 && DaysBeforeMonth(m, leap) <= n < DaysBeforeMonth(m + 1, leap)
  {
    var short := if leap then 1 else 2;
    (12 * (if n < 61 - short then n else n + short) + 6) / 367
  }

  datatype Civil = Civil(year: int, month: int, day: int)

  predicate ValidCivil(c: Civil) {
    0 <= c.month < 12 && 1 <= c.day <= DaysInMonth(c.year, c.month)
  }

  function CivilFromDay(d: int): (c: Civil)
    ensures ValidCivil(c)
  {
    var y := YearFromDay(d);
    YearLength(y);
    var n := d - DayFromYear(y);
    var m := MonthOfYearDay(n, LeapYear(y));
    Civil(y, m, n - DaysBeforeMonth(m, LeapYear(y)) + 1)
  }

  /** MakeDay: months outside 0..11 carry into the year, days are unrestricted. */
  function MakeDay(year: int, month: int, date: int): int {
    var y, m := year + month / 12, month % 12;
    DayFromYear(y) + DaysBeforeMonth(m, LeapYear(y)) + date - 1
  }

  function DayFromCivil(c: Civil): int { MakeDay(c.year, c.month, c.day) }

  lemma CivilOfDayOfCivil(c: Civil)
    requires ValidCivil(c)
    ensures CivilFromDay(DayFromCivil(c)) == c
  {
    hide DayFromYear, YearFromDay, MonthOfYearDay, LeapYear;
    var leap := LeapYear(c.year);
    var n := DaysBeforeMonth(c.month, leap) + c.day - 1;
    var d := DayFromCivil(c);
    assert d == DayFromYear(c.year) + n;
    YearLength(c.year);
    assert n < DaysBeforeMonth(12, leap);
    YearUnique(d, c.year);
    MonthUnique(n, leap, c.month);
  }

  lemma DayOfCivilOfDay(d: int)
    ensures DayFromCivil(CivilFromDay(d)) == d
  {
    hide YearFromDay, MonthOfYearDay, DayFromYear, DaysBeforeMonth, LeapYear;
    var c := CivilFromDay(d);
    WithinYear(c.year, c.month);
  }

  lemma WithinYear(y: int, m: int)
    requires 0 <= m < 12
    ensures y + m / 12 == y && m % 12 == m
  {
  }

  lemma YearUnique(d: int, y: int)
    requires DayFromYear(y) <= d < DayFromYear(y + 1)
    ensures YearFromDay(d) == y
  {
    var z := YearFromDay(d);
    if z < y { YearsOrdered(z + 1, y); }
    if y < z { YearsOrdered(y + 1, z); }
  }

  lemma MonthUnique(n: int, leap: bool, m: int)
    requires 0 <= m < 12
    requires 0 <= n < DaysBeforeMonth(12, leap)
    requires DaysBeforeMonth(m, leap) <= n < DaysBeforeMonth(m + 1, leap)
    ensures MonthOfYearDay(n, leap) == m
  {
  }

  lemma DaysBeforeMonotone(m: int, n: int, leap: bool)
    requires 0 <= m <= n <= 12
    ensures DaysBeforeMonth(m, leap) <= DaysBeforeMonth(n, leap)
  {
  }

  lemma DayInYear(c: Civil)
    requires ValidCivil(c)
    ensures DayFromCivil(c) == DayFromYear(c.year) + DaysBeforeMonth(c.month, LeapYear(c.year)) + c.day - 1
    ensures DayFromYear(c.year) <= DayFromCivil(c) < DayFromYear(c.year + 1)
  {
    YearLength(c.year);
    DaysBeforeMonotone(c.month + 1, 12, LeapYear(c.year));
  }

  /** A date in a later month has a later day number. */
  lemma DaysFollowMonths(c: Civil, e: Civil)
    requires ValidCivil(c) && ValidCivil(e)
    requires MonthNumber(c) < MonthNumber(e)
    ensures DayFromCivil(c) < DayFromCivil(e)
  {
    DayInYear(c);
    DayInYear(e);
    if c.year < e.year {
      YearsOrdered(c.year + 1, e.year);
    } else {
      DaysBeforeMonotone(c.month + 1, e.month, LeapYear(c.year));
    }
  }

  function MonthNumber(c: Civil): int { 12 * c.year + c.month }

  /** The months of a year as the calendar has them. */
  function LengthOf(leap: bool, month: int): int
    requires 0 <= month < 12
  {
    if month == 1 && leap then 29 else [31, 28, 31, 30, 31, 30, 31, 31, 30, 31, 30, 31][month]
  }

  function NextDate(c: Civil): Civil
    requires 0 <= c.month < 12
  {
    var leap := c.year % 400 == 0 || (c.year % 4 == 0 && c.year % 100 != 0);
    if c.day < LengthOf(leap, c.month) then c.(day := c.day + 1)
    else if c.month < 11 then Civil(c.year, c.month + 1, 1)
    else Civil(c.year + 1, 0, 1)
  }

  /** Day 0 is 1 January 1970, and each day has the date after that of the day before. */
  lemma DatesFollow(d: int)
    ensures CivilFromDay(0) == Civil(1970, 0, 1)
    ensures CivilFromDay(d + 1) == NextDate(CivilFromDay(d))
  {
    EpochIs();
    hide DayFromCivil, CivilFromDay, NextDate, DaysInMonth;
    CivilOfDayOfCivil(Civil(1970, 0, 1));
    DayOfCivilOfDay(d);
    NextDateNext(CivilFromDay(d));
    CivilOfDayOfCivil(NextDate(CivilFromDay(d)));
  }

  lemma EpochIs()
    ensures ValidCivil(Civil(1970, 0, 1)) && DayFromCivil(Civil(1970, 0, 1)) == 0
  {
  }

  lemma MonthLengths(leap: bool, month: int)
    requires 0 <= month < 12
    ensures DaysBeforeMonth(month + 1, leap) - DaysBeforeMonth(month, leap) == LengthOf(leap, month)
  {
  }

  lemma LeapYearIs(y: int)
    ensures LeapYear(y) <==> y % 400 == 0 || (y % 4 == 0 && y % 100 != 0)
  {
    assert y % 400 == 0 ==> y == 4 * (100 * (y / 400));
  }

  lemma NextDateValid(c: Civil)
    requires ValidCivil(c)
    ensures ValidCivil(NextDate(c))
  {
    hide LeapYear, LengthOf;
    LeapYearIs(c.year);
    MonthLengths(LeapYear(c.year), c.month);
  }

  lemma NextDateNext(c: Civil)
    requires ValidCivil(c)
    ensures ValidCivil(NextDate(c)) && DayFromCivil(NextDate(c)) == DayFromCivil(c) + 1
  {
    hide LeapYear, LengthOf, DayFromCivil, MakeDay, DayFromYear, DaysBeforeMonth;
    var (leap, next) := (LeapYear(c.year), NextDate(c));
    LeapYearIs(c.year);
    MonthLengths(leap, c.month);
    YearLength(c.year);
    NextDateValid(c);
    DayInYear(c);
    DayInYear(next);
    YearEnds(leap, LeapYear(c.year + 1));
  }

  lemma YearEnds(leap: bool, next: bool)
    ensures DaysBeforeMonth(0, next) == 0 && DaysBeforeMonth(12, leap) == if leap then 366 else 365
  {
  }

  // ---- Time of day and Date.UTC ------------------------------------------

  function TimeOfDay(t: int): (clock: int)
    ensures 0 <= clock < MS_PER_DAY
  {
    t % MS_PER_DAY
  }

  function Hours(t: int): int { TimeOfDay(t) / 3_600_000 }
  function Minutes(t: int): int { TimeOfDay(t) / 60_000 % 60 }
  function Seconds(t: int): int { TimeOfDay(t) / 1000 % 60 }
  function Millis(t: int): int { TimeOfDay(t) % 1000 }

  function CivilOf(t: int): (c: Civil)
    ensures ValidCivil(c)
  {
    CivilFromDay(Day(t))
  }

  /** `Date.UTC` takes the years 0 to 99 to mean 1900 to 1999. */
  function FullYear(year: int): int { if 0 <= year <= 99 then 1900 + year else year }

  function DateUtc(year: int, month: int, date: int, h: int, min: int, s: int, ms: int): int {
    MakeDay(FullYear(year), month, date) * MS_PER_DAY + h * 3_600_000 + min * 60_000 + s * 1000 + ms
  }

  lemma SplitTime(day: int, clock: int)
    requires 0 <= clock < MS_PER_DAY
    ensures Day(day * MS_PER_DAY + clock) == day && TimeOfDay(day * MS_PER_DAY + clock) == clock
  {
  }

  lemma ClockRoundTrip(t: int)
    ensures Hours(t) * 3_600_000 + Minutes(t) * 60_000 + Seconds(t) * 1000 + Millis(t) == TimeOfDay(t)
  {
    var n := TimeOfDay(t);
    assert n == n / 1000 * 1000 + n % 1000;
    assert n / 60_000 == n / 1000 / 60 && n / 3_600_000 == n / 60_000 / 60;
  }
}
