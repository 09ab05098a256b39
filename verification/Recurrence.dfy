/** When a billing schedule fires next: month stepping with the day clamped to
    the month's length, one period of a cadence, and skipping a backlog. */
module Recurrence {
  import opened Bounds
  import opened Calendar

  // ---- Adding months -----------------------------------------------------

  /** The `%` of ECMA-262: the remainder takes the sign of the dividend. */
  function Rem(a: int, n: int): int
    requires n > 0
  {
    if a >= 0 then a % n else -(-a % n)
  }

  function AddMonthsUtc(from: int, months: int): int {
    var c := CivilOf(from);
    var month := c.month + months;
    var targetYear := c.year + month / 12;
    var targetMonth := Rem(Rem(month, 12) + 12, 12);
    var lastDay := CivilOf(DateUtc(targetYear, targetMonth + 1, 0, 0, 0, 0, 0)).day;
    var day := Min(c.day, lastDay);
    DateUtc(targetYear, targetMonth, day, Hours(from), Minutes(from), Seconds(from), Millis(from))
  }

  /** The month number `months` later, as `AddMonthsUtc` counts it. */
  function TargetMonth(from: int, months: int): int { MonthNumber(CivilOf(from)) + months }

  /** `Date.UTC` reads the target year as one of the 1900s. */
  predicate TwoDigitYear(monthNumber: int) { 0 <= monthNumber / 12 <= 99 }

  /** The date `AddMonthsUtc` lands on, for all inputs and both directions. */
  lemma AddMonthsLandsOn(from: int, months: int)
    ensures var t := TargetMonth(from, months); var y := FullYear(t / 12);
            && CivilOf(AddMonthsUtc(from, months))
               == Civil(y, t % 12, Min(CivilOf(from).day, DaysInMonth(y, t % 12)))
            && TimeOfDay(AddMonthsUtc(from, months)) == TimeOfDay(from)
  {
    hide CivilFromDay, MakeDay, DaysInMonth, Hours, Minutes, Seconds, Millis, TimeOfDay;
    var c := CivilOf(from);
    var t := TargetMonth(from, months);
    var y, m := FullYear(t / 12), t % 12;
    assert t / 12 == c.year + (c.month + months) / 12 && m == (c.month + months) % 12;
    assert Rem(Rem(c.month + months, 12) + 12, 12) == m;
    LastOfMonth(y, m);
    var landed := Civil(y, m, Min(c.day, DaysInMonth(y, m)));
    CivilOfDayOfCivil(landed);
    ClockRoundTrip(from);
    SplitTime(DayFromCivil(landed), TimeOfDay(from));
    hide Day, ValidCivil;
  }

  lemma LastOfMonth(y: int, m: int)
    requires 0 <= m < 12
    ensures CivilFromDay(MakeDay(y, m + 1, 0)) == Civil(y, m, DaysInMonth(y, m))
  {
    hide MakeDay, CivilFromDay, DaysInMonth;
    DayBeforeNextMonth(y, m);
    CivilOfDayOfCivil(Civil(y, m, DaysInMonth(y, m)));
  }

  lemma DayBeforeNextMonth(y: int, m: int)
    requires 0 <= m < 12
    ensures MakeDay(y, m + 1, 0) == MakeDay(y, m, DaysInMonth(y, m))
  {
    hide DayFromYear, LeapYear;
    YearLength(y);
  }

  /** The month index moves by exactly `months` unless the target year is 0..99. */
  lemma AddMonthsMonthIndex(from: int, months: int)
    ensures MonthNumber(CivilOf(AddMonthsUtc(from, months))) == TargetMonth(from, months)
            <==> !TwoDigitYear(TargetMonth(from, months))
  {
    hide CivilFromDay, DaysInMonth, AddMonthsUtc, TimeOfDay;
    AddMonthsLandsOn(from, months);
  }

  /** The clamp keeps the day whenever it is at most 28, and never goes below that. */
  lemma AddMonthsDay(from: int, months: int)
    ensures var d, r := CivilOf(from).day, CivilOf(AddMonthsUtc(from, months)).day;
            Min(d, 28) <= r <= d && (d <= 28 ==> r == d)
  {
    AddMonthsLandsOn(from, months);
  }

  lemma CivilOrdersTimes(a: int, b: int)
    requires MonthNumber(CivilOf(a)) < MonthNumber(CivilOf(b))
    ensures a < b
  {
    DaysFollowMonths(CivilOf(a), CivilOf(b));
    DayOfCivilOfDay(Day(a));
    DayOfCivilOfDay(Day(b));
  }

  lemma SameMonthTimes(a: int, b: int)
    requires MonthNumber(CivilOf(a)) == MonthNumber(CivilOf(b))
    ensures b - a == (CivilOf(b).day - CivilOf(a).day) * MS_PER_DAY + TimeOfDay(b) - TimeOfDay(a)
  {
    hide CivilFromDay, LeapYear, DayFromYear, DaysBeforeMonth, DaysInMonth;
    DayOfCivilOfDay(Day(a));
    DayOfCivilOfDay(Day(b));
    assert Day(b) - Day(a) == CivilOf(b).day - CivilOf(a).day;
  }

  lemma AddMonthsLater(from: int, months: int)
    requires months >= 1
    ensures AddMonthsUtc(from, months) > from
  {
    AddMonthsLandsOn(from, months);
    CivilOrdersTimes(from, AddMonthsUtc(from, months));
  }

  /** The month a target month number is read as. */
  function FullMonth(monthNumber: int): int { 12 * FullYear(monthNumber / 12) + monthNumber % 12 }

  lemma FullMonthIs(monthNumber: int)
    ensures FullMonth(monthNumber) == if TwoDigitYear(monthNumber) then monthNumber + 22_800 else monthNumber
    ensures !TwoDigitYear(FullMonth(monthNumber))
  {
  }

  lemma CivilMonth(c: Civil)
    requires 0 <= c.month < 12
    ensures MonthNumber(c) / 12 == c.year && MonthNumber(c) % 12 == c.month
    ensures MonthLength(MonthNumber(c)) == DaysInMonth(c.year, c.month)
  {
    hide DaysInMonth;
    assert (12 * c.year + c.month) / 12 == c.year;
  }

  /** A step in terms of month numbers. */
  lemma AddMonthsStep(from: int, months: int)
    ensures var (r, m) := (AddMonthsUtc(from, months), FullMonth(TargetMonth(from, months)));
            && MonthNumber(CivilOf(r)) == m && CivilOf(r).day == Min(CivilOf(from).day, MonthLength(m))
            && TimeOfDay(r) == TimeOfDay(from)
  {
    hide CivilFromDay, DaysInMonth, AddMonthsUtc, TimeOfDay, MonthLength, FullYear;
    AddMonthsLandsOn(from, months);
    CivilMonth(CivilOf(AddMonthsUtc(from, months)));
  }

  /** A schedule of 31 January 50 fires on 28 February 1950. */
  lemma TwoDigitYearExample()
    ensures var jan31 := DayFromCivil(Civil(50, 0, 31)) * MS_PER_DAY;
            CivilOf(jan31) == Civil(50, 0, 31) && CivilOf(NextRunDate(MONTHLY, 1, jan31)) == Civil(1950, 1, 28)
  {
    var day := DayFromCivil(Civil(50, 0, 31));
    ShortFebruary();
    hide MakeDay, DayFromCivil, CivilFromDay, DaysInMonth, AddMonthsUtc, Hours, Minutes, Seconds, Millis;
    CivilOfDayOfCivil(Civil(50, 0, 31));
    SplitTime(day, 0);
    AddMonthsLandsOn(day * MS_PER_DAY, 1);
  }

  lemma ShortFebruary()
    ensures DaysInMonth(50, 0) == 31 && DaysInMonth(1950, 1) == 28
  {
  }

  /** Two steps reach the month one step reaches exactly unless only the stop in between is
      in the years 0 to 99; then never on a later day, and on the same day exactly when that
      stop is long enough to hold it. */
  lemma AddMonthsCompose(from: int, a: int, b: int)
    ensures var two, one := AddMonthsUtc(AddMonthsUtc(from, a), b), AddMonthsUtc(from, a + b);
            var stop := MonthNumber(CivilOf(AddMonthsUtc(from, a)));
            var agree := TwoDigitYear(TargetMonth(from, a)) ==> TwoDigitYear(TargetMonth(from, a + b));
            && (MonthNumber(CivilOf(two)) == MonthNumber(CivilOf(one)) <==> agree)
            && (agree ==> two <= one && (two == one <==> CivilOf(one).day <= MonthLength(stop)))
            && (agree && CivilOf(from).day <= 28 ==> two == one)
  {
    hide CivilOf, AddMonthsUtc, TimeOfDay, MonthLength, TwoDigitYear, FullMonth;
    AddMonthsStep(from, a);
    AddMonthsStep(AddMonthsUtc(from, a), b);
    AddMonthsStep(from, a + b);
    MonthsAgree(TargetMonth(from, a), b);
    SameMonthTimesIf(AddMonthsUtc(AddMonthsUtc(from, a), b), AddMonthsUtc(from, a + b));
  }

  lemma MonthsAgree(monthNumber: int, b: int)
    ensures FullMonth(FullMonth(monthNumber) + b) == FullMonth(monthNumber + b)
            <==> (TwoDigitYear(monthNumber) ==> TwoDigitYear(monthNumber + b))
  {
    hide FullMonth;
    FullMonthIs(monthNumber);
    FullMonthIs(monthNumber + b);
    FullMonthIs(FullMonth(monthNumber) + b);
  }

  lemma SameMonthTimesIf(a: int, b: int)
    ensures MonthNumber(CivilOf(a)) == MonthNumber(CivilOf(b))
            ==> b - a == (CivilOf(b).day - CivilOf(a).day) * MS_PER_DAY + TimeOfDay(b) - TimeOfDay(a)
  {
    hide CivilOf, TimeOfDay;
    if MonthNumber(CivilOf(a)) == MonthNumber(CivilOf(b)) { SameMonthTimes(a, b); }
  }

  function MonthLength(monthNumber: int): (n: int)
    ensures 28 <= n <= 31
  {
    DaysInMonth(monthNumber / 12, monthNumber % 12)
  }

  // ---- One period --------------------------------------------------------

  datatype Cadence = WEEKLY | MONTHLY | QUARTERLY | YEARLY

  const MS_PER_WEEK := 7 * MS_PER_DAY

  /** Whole periods per step: an interval below one counts as one. */
  function Step(interval: int): (n: int)
    ensures n >= 1
  {
    if interval < 1 then 1 else interval
  }

  function MonthsPerPeriod(cadence: Cadence, interval: int): (n: int)
    requires cadence != WEEKLY
    ensures n >= 1
  {
    match cadence
    case MONTHLY => Step(interval)
    case QUARTERLY => Step(interval) * 3
    case YEARLY => Step(interval) * 12
  }

  function NextRunDate(cadence: Cadence, interval: int, from: int): int {
    if cadence == WEEKLY then from + Step(interval) * MS_PER_WEEK
    else AddMonthsUtc(from, MonthsPerPeriod(cadence, interval))
  }

  lemma NextRunLater(cadence: Cadence, interval: int, from: int)
    ensures NextRunDate(cadence, interval, from) > from
  {
    hide AddMonthsUtc;
    if cadence != WEEKLY { AddMonthsLater(from, MonthsPerPeriod(cadence, interval)); }
  }

  /** What a cadence is worth: whole weeks, or one, three or twelve months a period, the
      months exact from the year 100 on; an interval below one is one period. */
  lemma PeriodIs(cadence: Cadence, interval: int, from: int)
    ensures interval < 1 ==> NextRunDate(cadence, interval, from) == NextRunDate(cadence, 1, from)
    ensures cadence == WEEKLY && interval >= 1
            ==> NextRunDate(cadence, interval, from) - from == interval * 604_800_000
    ensures cadence != WEEKLY && interval >= 1 && CivilOf(from).year >= 100
            ==> var (was, next) := (CivilOf(from), CivilOf(NextRunDate(cadence, interval, from)));
                12 * next.year + next.month - (12 * was.year + was.month)
                == match cadence case MONTHLY => interval case QUARTERLY => 3 * interval case _ => 12 * interval
  {
    if cadence != WEEKLY {
      hide CivilFromDay, AddMonthsUtc, TimeOfDay, MonthLength, FullMonth;
      var step := MonthsPerPeriod(cadence, interval);
      AddMonthsStep(from, step);
      FullMonthIs(TargetMonth(from, step));
    }
  }

  /** The `k`-th fire time after `from`. */
  function FireTime(cadence: Cadence, interval: int, from: int, k: nat): int {
    if k == 0 then from
    else NextRunDate(cadence, interval, FireTime(cadence, interval, from, k - 1))
  }

  lemma {:induction false} FireTimesIncrease(cadence: Cadence, interval: int, from: int, j: nat, k: nat)
    requires j < k
    ensures FireTime(cadence, interval, from, j) < FireTime(cadence, interval, from, k)
    decreases k - j
  {
    hide NextRunDate;
    NextRunLater(cadence, interval, FireTime(cadence, interval, from, k - 1));
    if j < k - 1 { FireTimesIncrease(cadence, interval, from, j, k - 1); }
  }

  /** Firing on from the `j`-th time continues the same sequence. */
  lemma {:induction false} FireTimesContinue(cadence: Cadence, interval: int, from: int, j: nat, k: nat)
    ensures FireTime(cadence, interval, FireTime(cadence, interval, from, j), k)
            == FireTime(cadence, interval, from, j + k)
  {
    hide NextRunDate;
    if k > 0 { FireTimesContinue(cadence, interval, from, j, k - 1); }
  }

  /** The month number of the `k`-th stop. */
  function Stop(month: int, step: int, k: nat): int {
    if k == 0 then month else FullMonth(Stop(month, step, k - 1) + step)
  }

  /** The `j`-th stop would be in the years 0 to 99. */
  predicate HitsAt(month: int, step: int, j: nat) { TwoDigitYear(month + j * step) }

  ghost predicate Hits(month: int, step: int, k: nat) { exists j: nat :: 1 <= j <= k && HitsAt(month, step, j) }

  /** The stops keep their distance, except that the first one in the years 0 to 99 moves
      it and all after it by 1900 years. */
  lemma {:induction false} StopIs(month: int, step: int, k: nat)
    requires step >= 1
    ensures Stop(month, step, k) == month + k * step + if Hits(month, step, k) then 22_800 else 0
    ensures month >= 1200 ==> !Hits(month, step, k)
  {
    hide Hits, FullMonth;
    if k == 0 { assert !Hits(month, step, 0) by { NoHitsYet(month, step); } }
    if k > 0 {
      StopIs(month, step, k - 1);
      Distance(month, step, k);
      FullMonthIs(Stop(month, step, k - 1) + step);
      HitsNext(month, step, k);
      if Hits(month, step, k - 1) { PastHits(month, step, k); }
    }
    if month >= 1200 { NeverHits(month, step, k); }
  }

  lemma NeverHits(month: int, step: int, k: nat)
    requires step >= 1 && month >= 1200
    ensures !Hits(month, step, k)
  {
    forall j: nat | 1 <= j <= k ensures !HitsAt(month, step, j) { Further(step, 0, j); }
  }

  lemma NoHitsYet(month: int, step: int)
    ensures !Hits(month, step, 0)
  {
  }

  lemma HitsNext(month: int, step: int, k: nat)
    requires k > 0
    ensures Hits(month, step, k) <==> Hits(month, step, k - 1) || HitsAt(month, step, k)
  {
    hide HitsAt;
    if Hits(month, step, k) {
      var j: nat :| 1 <= j <= k && HitsAt(month, step, j);
      if j < k { assert Hits(month, step, k - 1); }
    }
    if Hits(month, step, k - 1) {
      var j: nat :| 1 <= j <= k - 1 && HitsAt(month, step, j);
      assert 1 <= j <= k && HitsAt(month, step, j);
    }
  }

  lemma PastHits(month: int, step: int, k: nat)
    requires step >= 1 && k > 0 && Hits(month, step, k - 1)
    ensures month + k * step >= 0
  {
    var j: nat :| 1 <= j <= k - 1 && HitsAt(month, step, j);
    Further(step, j, k);
  }

  lemma Distance(month: int, step: int, k: nat)
    requires k > 0
    ensures month + (k - 1) * step + step == month + k * step
  {
  }

  lemma Further(step: int, j: nat, k: nat)
    requires step >= 1 && j <= k
    ensures j * step <= k * step
  {
  }

  /** The shortest month among the first `k` stops, at most 31. */
  function ShortestStop(month: int, step: int, k: nat): (n: int)
    ensures 28 <= n <= 31
  {
    if k == 0 then 31 else Min(ShortestStop(month, step, k - 1), MonthLength(Stop(month, step, k)))
  }

  /** The `k`-th fire time: the `k`-th stop, at the same clock, on a day that sinks to the
      shortest month met so far and never climbs back. From the year 100 on the month
      arithmetic is exact for ever. */
  lemma {:induction false} MonthlyFireTimes(cadence: Cadence, interval: int, from: int, k: nat)
    requires cadence != WEEKLY
    ensures var step, month := MonthsPerPeriod(cadence, interval), MonthNumber(CivilOf(from));
            var c := CivilOf(FireTime(cadence, interval, from, k));
            && MonthNumber(c) == Stop(month, step, k)
            && c.day == Min(CivilOf(from).day, ShortestStop(month, step, k))
            && TimeOfDay(FireTime(cadence, interval, from, k)) == TimeOfDay(from)
            && (CivilOf(from).year >= 100 ==> MonthNumber(c) == month + k * step)
  {
    hide CivilOf, AddMonthsUtc, TimeOfDay, MonthsPerPeriod, MonthLength, FullMonth, Hits;
    StopIs(MonthNumber(CivilOf(from)), MonthsPerPeriod(cadence, interval), k);
    if k > 0 {
      MonthlyFireTimes(cadence, interval, from, k - 1);
      AddMonthsStep(FireTime(cadence, interval, from, k - 1), MonthsPerPeriod(cadence, interval));
    }
  }

  /** Stepping `k` times reaches the month of adding all the months at once exactly unless
      the years 0 to 99 come in on one way only; then it agrees with it exactly while no
      stop was shorter than the day finally reached, and is never later. */
  lemma MonthlyDriftIff(cadence: Cadence, interval: int, from: int, k: nat)
    requires cadence != WEEKLY
    ensures var step, month := MonthsPerPeriod(cadence, interval), MonthNumber(CivilOf(from));
            var stepped, direct := FireTime(cadence, interval, from, k), AddMonthsUtc(from, k * step);
            var agree := Hits(month, step, k) == HitsAt(month, step, k);
            && (MonthNumber(CivilOf(stepped)) == MonthNumber(CivilOf(direct)) <==> agree)
            && (agree ==> stepped <= direct
                          && (stepped == direct <==> CivilOf(direct).day <= ShortestStop(month, step, k)))
            && (CivilOf(from).year >= 100 ==> agree)
  {
    hide CivilOf, AddMonthsUtc, TimeOfDay, MonthsPerPeriod, FireTime, MonthLength, FullMonth, Hits;
    var step, month := MonthsPerPeriod(cadence, interval), MonthNumber(CivilOf(from));
    MonthlyFireTimes(cadence, interval, from, k);
    StopIs(month, step, k);
    AddMonthsStep(from, k * step);
    FullMonthIs(month + k * step);
    if month >= 1200 { Further(step, 0, k); }
    if k > 0 { assert ShortestStop(month, step, k) <= MonthLength(Stop(month, step, k)); }
    if k == 0 { NoSteps(from, step); }
    SameMonthTimesIf(FireTime(cadence, interval, from, k), AddMonthsUtc(from, k * step));
  }

  /** A day of a month is within the month. */
  lemma NoSteps(from: int, step: int)
    ensures CivilOf(from).day <= MonthLength(MonthNumber(CivilOf(from))) && CivilOf(from).day <= 31
  {
    hide CivilFromDay, DaysInMonth, MonthLength;
    CivilMonth(CivilOf(from));
  }

  /** A schedule that starts on 31 January 2026 fires on 28 March, not on the 31st. */
  lemma MonthlyDriftExample(jan31: int)
    requires CivilOf(jan31) == Civil(2026, 0, 31)
    ensures CivilOf(FireTime(MONTHLY, 1, jan31, 2)) == Civil(2026, 2, 28)
    ensures CivilOf(AddMonthsUtc(jan31, 2)) == Civil(2026, 2, 31)
  {
    hide CivilOf, AddMonthsUtc, TimeOfDay, FireTime, MonthLength;
    EarlySpring2026();
    MonthlyFireTimes(MONTHLY, 1, jan31, 2);
    AddMonthsStep(jan31, 2);
    assert Stop(24312, 1, 1) == FullMonth(24313) == 24313;
    assert Stop(24312, 1, 2) == FullMonth(24314) == 24314;
    assert ShortestStop(24312, 1, 2) == Min(ShortestStop(24312, 1, 1), MonthLength(24314));
    assert ShortestStop(24312, 1, 1) == Min(ShortestStop(24312, 1, 0), MonthLength(24313));
    CivilIs(CivilOf(FireTime(MONTHLY, 1, jan31, 2)), Civil(2026, 2, 28));
    CivilIs(CivilOf(AddMonthsUtc(jan31, 2)), Civil(2026, 2, 31));
  }

  lemma CivilIs(a: Civil, b: Civil)
    requires 0 <= a.month < 12 && 0 <= b.month < 12 && MonthNumber(a) == MonthNumber(b) && a.day == b.day
    ensures a == b
  {
  }

  lemma EarlySpring2026()
    ensures MonthLength(24313) == 28 && MonthLength(24314) == 31
  {
    CivilMonth(Civil(2026, 1, 1));
    CivilMonth(Civil(2026, 2, 1));
    hide MonthLength;
    assert !LeapYear(2026);
  }

  // ---- Skipping a backlog ------------------------------------------------

  const MAX_SKIPS := 240

  /** What the loop is for: the first fire time after `now`, or the last one tried. */
  ghost predicate FirstAfter(cadence: Cadence, interval: int, from: int, now: int, k: nat) {
    && 1 <= k <= MAX_SKIPS + 1
    && (forall j: nat | 1 <= j < k :: FireTime(cadence, interval, from, j) <= now)
    && (k == MAX_SKIPS + 1 || FireTime(cadence, interval, from, k) > now)
  }

  function PeriodsFrom(cadence: Cadence, interval: int, from: int, now: int, k: nat): (n: nat)
    requires 1 <= k <= MAX_SKIPS + 1
    requires forall j: nat | 1 <= j < k :: FireTime(cadence, interval, from, j) <= now
    ensures FirstAfter(cadence, interval, from, now, n)
    decreases MAX_SKIPS + 1 - k
  {
    if k <= MAX_SKIPS && FireTime(cadence, interval, from, k) <= now
    then PeriodsFrom(cadence, interval, from, now, k + 1)
    else k
  }

  function Periods(cadence: Cadence, interval: int, from: int, now: int): (n: nat)
    ensures FirstAfter(cadence, interval, from, now, n)
  {
    PeriodsFrom(cadence, interval, from, now, 1)
  }

  function Advanced(cadence: Cadence, interval: int, from: int, now: int): int {
    FireTime(cadence, interval, from, Periods(cadence, interval, from, now))
  }

  method AdvancePastNow(cadence: Cadence, interval: int, from: int, now: int) returns (next: int)
    ensures next == Advanced(cadence, interval, from, now)
  {
    hide NextRunDate;
    next := NextRunDate(cadence, interval, from);
    var guard := 0;
    assert FireTime(cadence, interval, from, 1) == NextRunDate(cadence, interval, FireTime(cadence, interval, from, 0));
    while next <= now && guard < 240
      invariant 0 <= guard <= 240
      invariant next == FireTime(cadence, interval, from, guard + 1)
      invariant forall j: nat | 1 <= j <= guard :: FireTime(cadence, interval, from, j) <= now
      decreases 240 - guard
    {
      next := NextRunDate(cadence, interval, next);
      guard := guard + 1;
    }
    FirstAfterUnique(cadence, interval, from, now, guard + 1);
  }

  lemma FirstAfterUnique(cadence: Cadence, interval: int, from: int, now: int, k: nat)
    requires FirstAfter(cadence, interval, from, now, k)
    ensures k == Periods(cadence, interval, from, now)
  {
    hide NextRunDate, FireTime;
  }

  /** The schedule always moves on, at least to its very next fire time. */
  lemma AdvancedLater(cadence: Cadence, interval: int, from: int, now: int)
    ensures Advanced(cadence, interval, from, now) >= NextRunDate(cadence, interval, from) > from
  {
    hide NextRunDate;
    var k := Periods(cadence, interval, from, now);
    NextRunLater(cadence, interval, from);
    assert FireTime(cadence, interval, from, 1) == NextRunDate(cadence, interval, FireTime(cadence, interval, from, 0));
    if k > 1 { FireTimesIncrease(cadence, interval, from, 1, k); }
  }

  /** Getting past `now` holds exactly while the 241st fire time is past it. */
  lemma AdvancedPastNowIff(cadence: Cadence, interval: int, from: int, now: int)
    ensures Advanced(cadence, interval, from, now) > now
            <==> FireTime(cadence, interval, from, MAX_SKIPS + 1) > now
  {
    hide NextRunDate;
    var k := Periods(cadence, interval, from, now);
    if k <= MAX_SKIPS { FireTimesIncrease(cadence, interval, from, k, MAX_SKIPS + 1); }
  }

  lemma {:induction false} WeeklyFireTimes(interval: int, from: int, k: nat)
    ensures FireTime(WEEKLY, interval, from, k) == from + k * (Step(interval) * MS_PER_WEEK)
  {
    if k > 0 { WeeklyFireTimes(interval, from, k - 1); }
  }

  /** Weekly schedules skip whole periods in closed form, up to the 241st. */
  lemma WeeklyClosedForm(interval: int, from: int, now: int)
    ensures var p := Step(interval) * MS_PER_WEEK;
            var k := if now < from then 1 else (now - from) / p + 1;
            Advanced(WEEKLY, interval, from, now) == from + Min(k, MAX_SKIPS + 1) * p
  {
    hide FireTime;
    var p := Step(interval) * MS_PER_WEEK;
    var k := if now < from then 1 else (now - from) / p + 1;
    var m := Min(k, MAX_SKIPS + 1);
    forall j: nat | 1 <= j < m ensures FireTime(WEEKLY, interval, from, j) <= now {
      WeeklyFireTimes(interval, from, j);
      MultipleFits(now - from, p, j);
    }
    WeeklyFireTimes(interval, from, m);
    if m == k { MultipleExceeds(now - from, p, k); }
    FirstAfterUnique(WEEKLY, interval, from, now, m);
  }

  lemma MultipleFits(a: int, p: int, j: nat)
    requires p > 0 && a >= 0 && j <= a / p
    ensures j * p <= a
  {
    assert j * p <= a / p * p;
  }

  lemma MultipleExceeds(a: int, p: int, k: nat)
    requires p > 0 && k == if a < 0 then 1 else a / p + 1
    ensures k * p > a
  {
  }

  /** A weekly schedule 241 weeks behind is not brought past `now`. */
  lemma BacklogStaysDueExample()
    ensures var now := 241 * MS_PER_WEEK;
            Advanced(WEEKLY, 1, 0, now) == now
  {
    hide Advanced;
    WeeklyClosedForm(1, 0, 241 * MS_PER_WEEK);
  }
}
