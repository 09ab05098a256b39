/** The sales forecast: daily buckets, the least-squares trend, weekday residuals. */
module Forecast {
  import opened Bounds
  import opened Calendar
  import opened Money
  import Options
  import opened Sums

  /** The text `2026-03-10` of a date stands for its year, month and day. */
  datatype DailyPoint = DailyPoint(date: Civil, revenueCents: int)

  datatype Row = Row(createdAt: int, totalCents: int)

  // ---- Daily buckets -----------------------------------------------------

  function StartOfUtcDay(t: int): int {
    DateUtc(CivilOf(t).year, CivilOf(t).month, CivilOf(t).day, 0, 0, 0, 0)
  }

  function AddUtcDays(t: int, days: int): int { t + days * MS_PER_DAY }

  function DaysBetween(from: int, to: int): nat {
    Max(0, Round((to - from) as real / MS_PER_DAY as real))
  }

  /** The day a row is booked on. */
  function RowDay(row: Row): int { Day(StartOfUtcDay(row.createdAt)) }

  /** A row's share of the days from `lo` up to `hi`. */
  function InWindow(lo: int, hi: int): Row -> int {
    (row: Row) => if lo <= RowDay(row) < hi then row.totalCents else 0
  }

  /** The revenue booked on day `d`. */
  function Booked(rows: seq<Row>, d: int): int { SumOf(InWindow(d, d + 1), rows) }

  lemma DistinctDates(d: int, e: int)
    ensures CivilFromDay(d) == CivilFromDay(e) <==> d == e
  {
    DayOfCivilOfDay(d);
    DayOfCivilOfDay(e);
  }

  lemma BookedNext(rows: seq<Row>, r: nat, d: int)
    requires r < |rows|
    ensures Booked(rows[..r + 1], d) == Booked(rows[..r], d) + if RowDay(rows[r]) == d then rows[r].totalCents else 0
  {
    hide RowDay;
    SumNext(InWindow(d, d + 1), rows, r);
  }

  lemma NothingBooked(rows: seq<Row>)
    ensures forall d :: Booked(rows[..0], d) == 0
  {
  }

  method BucketDailyRevenue(rows: seq<Row>, from: int, to: int) returns (points: seq<DailyPoint>)
    ensures |points| == DaysBetween(from, to)
    ensures forall i | 0 <= i < |points| ::
              points[i] == DailyPoint(CivilFromDay(Day(from) + i), Booked(rows, Day(from) + i))
  {
    hide CivilFromDay, StartOfUtcDay, Booked;
    var days := DaysBetween(from, to);
    var order: seq<Civil>, buckets: map<Civil, int> := [], map[];
    var i := 0;
    while i < days
      invariant 0 <= i <= days && |order| == i
      invariant forall k | 0 <= k < i :: order[k] == CivilFromDay(Day(from) + k) && order[k] in buckets
      invariant forall c | c in buckets :: c in order && buckets[c] == 0
    {
      var key := CivilOf(AddUtcDays(from, i));
      assert Day(AddUtcDays(from, i)) == Day(from) + i;
      forall k | 0 <= k < i ensures order[k] != key { DistinctDates(Day(from) + k, Day(from) + i); }
      order := order + [key];
      buckets := buckets[key := 0];
      i := i + 1;
    }
    NothingBooked(rows);
    var r := 0;
    while r < |rows|
      invariant 0 <= r <= |rows|
      invariant forall c :: c in buckets <==> c in order
      invariant forall k | 0 <= k < days ::
                  buckets[order[k]] == Booked(rows[..r], Day(from) + k)
    {
      var key := CivilOf(StartOfUtcDay(rows[r].createdAt));
      forall k | 0 <= k < days
        ensures Booked(rows[..r + 1], Day(from) + k)
                == buckets[order[k]] + if order[k] == key then rows[r].totalCents else 0
      {
        BookedNext(rows, r, Day(from) + k);
        DistinctDates(Day(from) + k, RowDay(rows[r]));
      }
      if key in buckets { buckets := buckets[key := buckets[key] + rows[r].totalCents]; }
      r := r + 1;
    }
    assert rows[..r] == rows;
    points := seq(days, k requires 0 <= k < days && order[k] in buckets => DailyPoint(order[k], buckets[order[k]]));
  }

  lemma {:induction false} WindowSplits(rows: seq<Row>, lo: int, mid: int, hi: int)
    requires lo <= mid <= hi
    ensures SumOf(InWindow(lo, hi), rows) == SumOf(InWindow(lo, mid), rows) + SumOf(InWindow(mid, hi), rows)
  {
    hide RowDay;
    if rows != [] { WindowSplits(rows[..|rows| - 1], lo, mid, hi); }
  }

  function Revenue(point: DailyPoint): int { point.revenueCents }

  /** The buckets add up to the rows of the window: nothing is lost, nothing counted twice. */
  lemma {:induction false} BucketsConserve(rows: seq<Row>, first: int, points: seq<DailyPoint>)
    requires forall i | 0 <= i < |points| :: points[i].revenueCents == Booked(rows, first + i)
    ensures SumOf(Revenue, points) == SumOf(InWindow(first, first + |points|), rows)
  {
    hide RowDay;
    if points == [] {
      EmptyWindow(rows, first);
    } else {
      var n := |points| - 1;
      BucketsConserve(rows, first, points[..n]);
      WindowSplits(rows, first, first + n, first + n + 1);
    }
  }

  lemma {:induction false} EmptyWindow(rows: seq<Row>, first: int)
    ensures SumOf(InWindow(first, first), rows) == 0
  {
    if rows != [] { EmptyWindow(rows[..|rows| - 1], first); }
  }

  /** A row is booked on the day it was created exactly outside the years 0 to 99, which
      `Date.UTC` takes for 1900 to 1999. */
  lemma BookedOnItsDayIff(row: Row)
    ensures RowDay(row) == Day(row.createdAt) <==> !(0 <= CivilOf(row.createdAt).year <= 99)
    ensures StartOfUtcDay(row.createdAt) == RowDay(row) * 86_400_000
  {
    var c := CivilOf(row.createdAt);
    DayOfCivilOfDay(Day(row.createdAt));
    assert RowDay(row) == MakeDay(FullYear(c.year), c.month, c.day) by {
      hide CivilFromDay, MakeDay;
      SplitTime(MakeDay(FullYear(c.year), c.month, c.day), 0);
    }
    if 0 <= c.year <= 99 {
      hide CivilFromDay, LeapYear, DayFromYear;
      DayInYear(c);
      YearsOrdered(c.year + 1, c.year + 1900);
      DaysBeforeMonotone(0, c.month, LeapYear(c.year + 1900));
    }
  }

  /** With both ends at midnight the window is `from` up to, not including, `to`, by the
      midnight a row is booked at, and so by its time outside the years 0 to 99. */
  lemma MidnightWindow(row: Row, from: int, to: int)
    requires from % MS_PER_DAY == 0 && to % MS_PER_DAY == 0 && from <= to
    ensures var share := InWindow(Day(from), Day(from) + DaysBetween(from, to))(row);
            && DaysBetween(from, to) == Day(to) - Day(from)
            && share == (if from <= StartOfUtcDay(row.createdAt) < to then row.totalCents else 0)
            && (!(0 <= CivilOf(row.createdAt).year <= 99)
                ==> share == if from <= row.createdAt < to then row.totalCents else 0)
  {
    var days := Day(to) - Day(from);
    assert to - from == days * MS_PER_DAY;
    assert (to - from) as real / MS_PER_DAY as real == days as real;
    BookedOnItsDayIff(row);
    hide CivilOf, MakeDay;
  }

  // ---- The trend line ----------------------------------------------------

  /** A product with a name, so that a proof can leave its arithmetic alone. */
  function Times(a: real, b: real): real { a * b }

  datatype Line = Line(slope: real, intercept: real) {
    function At(x: real): real { intercept + Times(slope, x) }
  }

  function SumX(n: nat): real { if n == 0 then 0.0 else SumX(n - 1) + (n - 1) as real }

  function SumXX(n: nat): real {
    if n == 0 then 0.0 else SumXX(n - 1) + Times((n - 1) as real, (n - 1) as real)
  }

  function Y(p: seq<DailyPoint>, i: nat): real
    requires i < |p|
  {
    p[i].revenueCents as real
  }

  function SumY(p: seq<DailyPoint>, n: nat): real
    requires n <= |p|
  {
    if n == 0 then 0.0 else SumY(p, n - 1) + Y(p, n - 1)
  }

  function SumXY(p: seq<DailyPoint>, n: nat): real
    requires n <= |p|
  {
    if n == 0 then 0.0 else SumXY(p, n - 1) + Times((n - 1) as real, Y(p, n - 1))
  }

  function Denominator(m: real, sumX: real, sumXX: real): real { m * sumXX - sumX * sumX }

  /** The line of `m` points with these sums. */
  function LineOfSums(m: real, sumX: real, sumY: real, sumXY: real, sumXX: real): Line
    requires m > 0.0
  {
    var denominator := Denominator(m, sumX, sumXX);
    if denominator == 0.0 then Line(0.0, sumY / m)
    else
      var slope := (m * sumXY - sumX * sumY) / denominator;
      Line(slope, (sumY - slope * sumX) / m)
  }

  function Trend(p: seq<DailyPoint>): Line {
    var n := |p|;
    if n == 0 then Line(0.0, 0.0)
    else if n == 1 then Line(0.0, Y(p, 0))
    else LineOfSums(n as real, SumX(n), SumY(p, n), SumXY(p, n), SumXX(n))
  }

  method FitLinearTrend(points: seq<DailyPoint>) returns (line: Line)
    ensures line == Trend(points)
    ensures forall other: Line :: Ssr(points, line, |points|) <= Ssr(points, other, |points|)
  {
    hide Ssr, LineOfSums, Times;
    BestLine(points);
    var n := |points|;
    if n == 0 { return Line(0.0, 0.0); }
    if n == 1 { return Line(0.0, Y(points, 0)); }
    var sumX, sumY, sumXY, sumXX := 0.0, 0.0, 0.0, 0.0;
    for x := 0 to n
      invariant sumX == SumX(x) && sumXX == SumXX(x)
      invariant sumY == SumY(points, x) && sumXY == SumXY(points, x)
    {
      var y := points[x].revenueCents as real;
      sumX := sumX + x as real;
      sumY := sumY + y;
      sumXY := sumXY + Times(x as real, y);
      sumXX := sumXX + Times(x as real, x as real);
    }
    line := LineOfSums(n as real, sumX, sumY, sumXY, sumXX);
  }

  /** The denominator is n²(n²-1)/12, so only a series of one point has none. */
  lemma DenominatorClosedForm(n: nat)
    ensures var m := n as real; Denominator(m, SumX(n), SumXX(n)) == m * m * (m * m - 1.0) / 12.0
    ensures n >= 2 ==> Denominator(n as real, SumX(n), SumXX(n)) > 0.0
  {
    SumXClosed(n);
    SumXXClosed(n);
    var m := n as real;
    hide SumX, SumXX;
    DenominatorAlgebra(m);
    if n >= 2 { assert m * m >= 4.0; PositiveProduct(m * m, m * m - 1.0); }
  }

  lemma {:induction false} SumXClosed(n: nat)
    ensures SumX(n) == n as real * (n as real - 1.0) / 2.0
  {
    if n > 0 { SumXClosed(n - 1); }
  }

  lemma {:induction false} SumXXClosed(n: nat)
    ensures SumXX(n) == (n as real - 1.0) * n as real * (2.0 * n as real - 1.0) / 6.0
  {
    if n > 0 {
      SumXXClosed(n - 1);
      CubicStep(n as real);
    }
  }

  lemma CubicStep(m: real)
    ensures (m - 2.0) * (m - 1.0) * (2.0 * m - 3.0) / 6.0 + (m - 1.0) * (m - 1.0)
            == (m - 1.0) * m * (2.0 * m - 1.0) / 6.0
  {
  }

  lemma DenominatorAlgebra(m: real)
    ensures m * ((m - 1.0) * m * (2.0 * m - 1.0) / 6.0) - (m * (m - 1.0) / 2.0) * (m * (m - 1.0) / 2.0)
            == m * m * (m * m - 1.0) / 12.0
  {
  }

  lemma PositiveProduct(a: real, b: real)
    requires a > 0.0 && b > 0.0
    ensures a * b > 0.0
  {
  }

  lemma TimesPositive(a: real, b: real)
    requires a > 0.0 && b > 0.0
    ensures Times(a, b) > 0.0
  {
  }

  lemma NegativeProduct(a: real, b: real)
    requires a < 0.0 && b < 0.0
    ensures Times(a, b) > 0.0
  {
  }

  lemma SquarePositive(x: real)
    ensures Times(x, x) >= 0.0
    ensures x != 0.0 ==> Times(x, x) > 0.0
  {
    assert x == 0.0 ==> Times(x, x) == 0.0;
    hide Times;
    if x > 0.0 { TimesPositive(x, x); } else if x < 0.0 { NegativeProduct(x, x); }
  }

  // ---- Least squares -----------------------------------------------------

  function Residual(p: seq<DailyPoint>, l: Line, i: nat): real
    requires i < |p|
  {
    Y(p, i) - l.At(i as real)
  }

  /** Sum of squared residuals of the first `n` points. */
  function Ssr(p: seq<DailyPoint>, l: Line, n: nat): (q: real)
    requires n <= |p|
    ensures q >= 0.0
  {
    if n == 0 then 0.0
    else
      SquarePositive(Residual(p, l, n - 1));
      Ssr(p, l, n - 1) + Times(Residual(p, l, n - 1), Residual(p, l, n - 1))
  }

  function Residuals(p: seq<DailyPoint>, l: Line, n: nat): real
    requires n <= |p|
  {
    if n == 0 then 0.0 else Residuals(p, l, n - 1) + Residual(p, l, n - 1)
  }

  function Moments(p: seq<DailyPoint>, l: Line, n: nat): real
    requires n <= |p|
  {
    if n == 0 then 0.0 else Moments(p, l, n - 1) + Times((n - 1) as real, Residual(p, l, n - 1))
  }

  /** Sum of squared values of a line over 0 .. n-1. */
  function Squares(l: Line, n: nat): (q: real)
    ensures q >= 0.0
  {
    if n == 0 then 0.0
    else
      SquarePositive(l.At((n - 1) as real));
      Squares(l, n - 1) + Times(l.At((n - 1) as real), l.At((n - 1) as real))
  }

  lemma {:induction false} ResidualSums(p: seq<DailyPoint>, l: Line, n: nat)
    requires n <= |p|
    ensures Residuals(p, l, n) == SumY(p, n) - Times(n as real, l.intercept) - Times(l.slope, SumX(n))
    ensures Moments(p, l, n) == SumXY(p, n) - Times(l.intercept, SumX(n)) - Times(l.slope, SumXX(n))
  {
    if n > 0 {
      hide Times;
      ResidualSums(p, l, n - 1);
      var x := (n - 1) as real;
      assert n as real == x + 1.0;
      TimesSum(l.intercept, x, 1.0);
      TimesSum(l.slope, SumX(n - 1), x);
      TimesSum(l.intercept, SumX(n - 1), x);
      TimesSum(l.slope, SumXX(n - 1), Times(x, x));
      TimesDifference(x, Y(p, n - 1), l.At(x));
      TimesLine(x, l);
    } else {
      assert forall a :: Times(a, 0.0) == 0.0 && Times(0.0, a) == 0.0;
    }
  }

  lemma TimesSum(a: real, b: real, c: real)
    ensures Times(a, b + c) == Times(a, b) + Times(a, c) && Times(b + c, a) == Times(a, b) + Times(a, c)
    ensures Times(a, b) == Times(b, a) && Times(a, 1.0) == a && Times(1.0, a) == a
  {
  }

  lemma TimesDifference(a: real, b: real, c: real)
    ensures Times(a, b - c) == Times(a, b) - Times(a, c)
  {
  }

  lemma TimesLine(x: real, l: Line)
    ensures Times(x, l.At(x)) == Times(l.intercept, x) + Times(l.slope, Times(x, x))
  {
    assert x * (l.slope * x) == l.slope * (x * x);
  }

  /** The normal equations: residuals of the trend sum to zero, alone and weighted. */
  lemma NormalEquations(p: seq<DailyPoint>)
    requires |p| >= 2
    ensures Residuals(p, Trend(p), |p|) == 0.0 && Moments(p, Trend(p), |p|) == 0.0
  {
    hide Residuals, Moments, SumX, SumXX, SumY, SumXY, Times, LineOfSums, Denominator;
    var n := |p|;
    DenominatorClosedForm(n);
    ResidualSums(p, Trend(p), n);
    NormalAlgebra(n as real, SumX(n), SumY(p, n), SumXY(p, n), SumXX(n));
  }

  lemma NormalAlgebra(m: real, x: real, y: real, xy: real, xx: real)
    requires m > 0.0 && Denominator(m, x, xx) > 0.0
    ensures var l := LineOfSums(m, x, y, xy, xx);
            && y - Times(m, l.intercept) - Times(l.slope, x) == 0.0
            && xy - Times(l.intercept, x) - Times(l.slope, xx) == 0.0
  {
    var l := LineOfSums(m, x, y, xy, xx);
    assert m * l.intercept == y - l.slope * x;
    assert l.slope * (m * xx - x * x) == m * xy - x * y;
    assert m * (xy - l.intercept * x - l.slope * xx) == m * xy - (m * l.intercept) * x - l.slope * (m * xx);
    assert (y - l.slope * x) * x == x * y - l.slope * (x * x);
    assert l.slope * (m * xx - x * x) == l.slope * (m * xx) - l.slope * (x * x);
    ZeroFactor(m, xy - l.intercept * x - l.slope * xx);
  }

  lemma ZeroFactor(a: real, b: real)
    requires a > 0.0 && a * b == 0.0
    ensures b == 0.0
  {
    if b > 0.0 { PositiveProduct(a, b); } else if b < 0.0 { PositiveProduct(a, -b); }
  }

  /** Squared residuals of any line `k`, seen from line `l`. */
  lemma {:induction false} Expand(p: seq<DailyPoint>, l: Line, k: Line, n: nat)
    requires n <= |p|
    ensures var gap := Line(l.slope - k.slope, l.intercept - k.intercept);
            Ssr(p, k, n) == Ssr(p, l, n) + Squares(gap, n)
                            + 2.0 * Times(gap.intercept, Residuals(p, l, n)) + 2.0 * Times(gap.slope, Moments(p, l, n))
  {
    var gap := Line(l.slope - k.slope, l.intercept - k.intercept);
    if n > 0 {
      var (x, v) := ((n - 1) as real, Residual(p, l, n - 1));
      GapAlgebra(l, k, x);
      assert Residual(p, k, n - 1) == v + gap.At(x);
      SquareOfSum(v, gap, x);
      hide Residual, Line.At, Times;
      Expand(p, l, k, n - 1);
      TimesSum(gap.intercept, Residuals(p, l, n - 1), v);
      TimesSum(gap.slope, Moments(p, l, n - 1), Times(x, v));
    } else {
      assert Times(gap.intercept, 0.0) == 0.0 && Times(gap.slope, 0.0) == 0.0;
    }
  }

  lemma GapAlgebra(l: Line, k: Line, x: real)
    ensures Line(l.slope - k.slope, l.intercept - k.intercept).At(x) == l.At(x) - k.At(x)
  {
    assert (l.slope - k.slope) * x == l.slope * x - k.slope * x;
  }

  lemma SquareOfSum(v: real, gap: Line, x: real)
    ensures Times(v + gap.At(x), v + gap.At(x))
            == Times(v, v) + Times(gap.At(x), gap.At(x)) + 2.0 * Times(gap.intercept, v)
               + 2.0 * Times(gap.slope, Times(x, v))
  {
    var g := gap.At(x);
    assert (v + g) * (v + g) == v * v + g * g + 2.0 * (v * g);
    assert v * g == gap.intercept * v + gap.slope * (x * v);
  }

  /** No line has smaller squared residuals; from two points on, none has equal ones. */
  lemma LeastSquares(p: seq<DailyPoint>, other: Line)
    ensures Ssr(p, Trend(p), |p|) <= Ssr(p, other, |p|)
    ensures |p| >= 2 && Ssr(p, other, |p|) == Ssr(p, Trend(p), |p|) ==> other == Trend(p)
  {
    var (n, l) := (|p|, Trend(p));
    if n >= 2 {
      hide Ssr, LineOfSums, Residuals, Moments, Squares;
      var gap := Line(l.slope - other.slope, l.intercept - other.intercept);
      NormalEquations(p);
      Expand(p, l, other, n);
      assert Times(gap.intercept, 0.0) == 0.0 && Times(gap.slope, 0.0) == 0.0;
      hide Times;
      if other != l { SquaresVanish(gap, n); }
    } else if n == 1 {
      NoResiduals(p, l, 1);
    }
  }

  /** From two points on, only the zero line has zero squares. */
  lemma SquaresVanish(l: Line, n: nat)
    requires n >= 2 && (l.slope != 0.0 || l.intercept != 0.0)
    ensures Squares(l, n) > 0.0
  {
    var (x, y) := ((n - 1) as real, (n - 2) as real);
    SquarePositive(l.At(x));
    SquarePositive(l.At(y));
    assert l.At(x) - l.At(y) == l.slope by { assert x - y == 1.0; TimesSum(l.slope, y, 1.0); assert x == y + 1.0; }
    assert l.slope == 0.0 ==> l.At(x) == l.intercept;
    hide Line.At, Times;
    assert Squares(l, n - 1) == Squares(l, n - 2) + Times(l.At(y), l.At(y));
  }

  /** With fewer points the line is flat, through the one there is. */
  lemma FewPoints(p: seq<DailyPoint>)
    requires |p| <= 1
    ensures Trend(p) == Line(0.0, if |p| == 1 then p[0].revenueCents as real else 0.0)
  {
  }

  lemma BestLine(p: seq<DailyPoint>)
    ensures forall other: Line :: Ssr(p, Trend(p), |p|) <= Ssr(p, other, |p|)
  {
    hide Ssr, Trend;
    forall other: Line ensures Ssr(p, Trend(p), |p|) <= Ssr(p, other, |p|) { LeastSquares(p, other); }
  }

  ghost predicate ExactlyLinear(p: seq<DailyPoint>, l: Line) {
    forall i | 0 <= i < |p| :: Y(p, i) == l.At(i as real)
  }

  /** A series on a line is given that line back. */
  lemma LinearRecovered(p: seq<DailyPoint>, l: Line)
    requires |p| >= 2 && ExactlyLinear(p, l)
    ensures Trend(p) == l
  {
    hide Ssr, Trend;
    NoResiduals(p, l, |p|);
    LeastSquares(p, l);
  }

  lemma {:induction false} NoResiduals(p: seq<DailyPoint>, l: Line, n: nat)
    requires n <= |p| && forall i | 0 <= i < n :: Y(p, i) == l.At(i as real)
    ensures Ssr(p, l, n) == 0.0
  {
    if n > 0 {
      NoResiduals(p, l, n - 1);
      assert Residual(p, l, n - 1) == 0.0;
    }
  }

  // ---- Weekdays ----------------------------------------------------------

  /** `getUTCDay`: 0 is Sunday; 1 January 1970 was a Thursday. */
  function WeekDay(day: int): (w: int)
    ensures 0 <= w < 7
  {
    (day + 4) % 7
  }

  function WeekdayOf(point: DailyPoint): (w: int)
    ensures 0 <= w < 7
  {
    WeekDay(DayFromCivil(point.date))
  }

  function DaysOn(p: seq<DailyPoint>, w: int, n: nat): nat
    requires n <= |p|
  {
    if n == 0 then 0 else DaysOn(p, w, n - 1) + if WeekdayOf(p[n - 1]) == w then 1 else 0
  }

  function ResidualOn(p: seq<DailyPoint>, l: Line, w: int, n: nat): real
    requires n <= |p|
  {
    if n == 0 then 0.0
    else ResidualOn(p, l, w, n - 1) + if WeekdayOf(p[n - 1]) == w then Residual(p, l, n - 1) else 0.0
  }

  /** The mean residual of weekday `w`, zero when no day falls on it. */
  function Season(p: seq<DailyPoint>, l: Line, w: int): real {
    var days := DaysOn(p, w, |p|);
    if days > 0 then ResidualOn(p, l, w, |p|) / days as real else 0.0
  }

  method WeekdaySeasonality(points: seq<DailyPoint>, line: Line) returns (season: seq<real>)
    ensures |season| == 7 && forall w | 0 <= w < 7 :: season[w] == Season(points, line, w)
  {
    hide WeekdayOf, Line.At;
    var sums := new real[7](_ => 0.0);
    var counts := new nat[7](_ => 0);
    for x := 0 to |points|
      invariant forall w | 0 <= w < 7 :: sums[w] == ResidualOn(points, line, w, x) && counts[w] == DaysOn(points, w, x)
    {
      var weekday := WeekdayOf(points[x]);
      var residual := points[x].revenueCents as real - line.At(x as real);
      sums[weekday] := sums[weekday] + residual;
      counts[weekday] := counts[weekday] + 1;
    }
    season := [];
    for i := 0 to 7
      invariant |season| == i
      invariant forall w | 0 <= w < i :: season[w] == Season(points, line, w)
    {
      season := season + [if counts[i] > 0 then sums[i] / counts[i] as real else 0.0];
    }
  }

  /** Seasonal terms weighted by the days they stand for, over the weekdays below `k`. */
  function Weighted(p: seq<DailyPoint>, l: Line, k: nat): real {
    if k == 0 then 0.0 else Weighted(p, l, k - 1) + Times(DaysOn(p, k - 1, |p|) as real, Season(p, l, k - 1))
  }

  function ResidualBelow(p: seq<DailyPoint>, l: Line, k: nat, n: nat): real
    requires n <= |p|
  {
    if k == 0 then 0.0 else ResidualBelow(p, l, k - 1, n) + ResidualOn(p, l, k - 1, n)
  }

  lemma {:induction false} WeightedIsResidual(p: seq<DailyPoint>, l: Line, k: nat)
    ensures Weighted(p, l, k) == ResidualBelow(p, l, k, |p|)
  {
    if k > 0 {
      WeightedIsResidual(p, l, k - 1);
      NoDaysNoResidual(p, l, k - 1, |p|);
      hide ResidualOn, DaysOn;
      var days := DaysOn(p, k - 1, |p|);
      if days > 0 { MeanTimesCount(ResidualOn(p, l, k - 1, |p|), days as real); }
    }
  }

  lemma MeanTimesCount(sum: real, count: real)
    requires count > 0.0
    ensures Times(count, sum / count) == sum
  {
  }

  lemma {:induction false} NoDaysNoResidual(p: seq<DailyPoint>, l: Line, w: int, n: nat)
    requires n <= |p|
    ensures DaysOn(p, w, n) == 0 ==> ResidualOn(p, l, w, n) == 0.0
    ensures Times(0.0, Season(p, l, w)) == 0.0
  {
    if n > 0 { NoDaysNoResidual(p, l, w, n - 1); }
  }

  lemma {:induction false} BelowNext(p: seq<DailyPoint>, l: Line, k: nat, n: nat)
    requires n < |p|
    ensures ResidualBelow(p, l, k, n + 1)
            == ResidualBelow(p, l, k, n) + if WeekdayOf(p[n]) < k then Residual(p, l, n) else 0.0
  {
    hide WeekdayOf, Residual;
    if k > 0 { BelowNext(p, l, k - 1, n); }
  }

  lemma {:induction false} WeekCoversAll(p: seq<DailyPoint>, l: Line, n: nat)
    requires n <= |p|
    ensures ResidualBelow(p, l, 7, n) == Residuals(p, l, n)
  {
    if n > 0 {
      WeekCoversAll(p, l, n - 1);
      BelowNext(p, l, 7, n - 1);
    } else {
      NothingBelow(p, l, 7);
    }
  }

  lemma {:induction false} NothingBelow(p: seq<DailyPoint>, l: Line, k: nat)
    ensures ResidualBelow(p, l, k, 0) == 0.0
  {
    if k > 0 { NothingBelow(p, l, k - 1); }
  }

  /** Seasonality only redistributes: weighted by their days, the terms around the
      fitted trend cancel out. */
  lemma SeasonalityBalances(p: seq<DailyPoint>)
    ensures Weighted(p, Trend(p), 7) == 0.0
  {
    hide Trend, Residual, ResidualOn, Season;
    WeightedIsResidual(p, Trend(p), 7);
    WeekCoversAll(p, Trend(p), |p|);
    ResidualsCancel(p);
  }

  lemma ResidualsCancel(p: seq<DailyPoint>)
    ensures Residuals(p, Trend(p), |p|) == 0.0
  {
    if |p| >= 2 { NormalEquations(p); }
  }

  // ---- The forecast ------------------------------------------------------

  datatype ForecastPoint = ForecastPoint(date: Civil, revenue: string)

  datatype Method = LinearTrendPlusDayOfWeekSeasonality | InsufficientDataFlatAverage

  datatype SalesForecast = SalesForecast(
    history: seq<ForecastPoint>, forecast: seq<ForecastPoint>, dailySlope: string, seasonality: seq<string>,
    kind: Method)

  const FORECAST_MIN_DATA_POINTS := 3

  function HasRevenue(point: DailyPoint): int { if point.revenueCents != 0 then 1 else 0 }

  predicate InsufficientData(p: seq<DailyPoint>) { SumOf(HasRevenue, p) < FORECAST_MIN_DATA_POINTS }

  function Average(p: seq<DailyPoint>): real {
    if p == [] then 0.0 else SumOf(Revenue, p) as real / |p| as real
  }

  function Predicted(p: seq<DailyPoint>, start: int, i: nat): real {
    Trend(p).At((|p| + i) as real) + Season(p, Trend(p), WeekDay(Day(AddUtcDays(start, i))))
  }

  /** What is forecast for the `i`-th day from `start`, in cents. */
  function ForecastCents(p: seq<DailyPoint>, start: int, i: nat): (cents: int)
    ensures cents >= 0
  {
    Max(0, Round(if InsufficientData(p) then Average(p) else Predicted(p, start, i)))
  }

  function BuildSalesForecast(p: seq<DailyPoint>, horizonDays: nat, start: int): SalesForecast {
    SalesForecast(
      seq(|p|, i requires 0 <= i < |p| => ForecastPoint(p[i].date, FromCents(p[i].revenueCents))),
      seq(horizonDays,
          i requires 0 <= i => ForecastPoint(CivilOf(AddUtcDays(start, i)), FromCents(ForecastCents(p, start, i)))),
      if InsufficientData(p) then FromCents(0) else ToFixed2(Trend(p).slope / 100.0),
      seq(7, w requires 0 <= w < 7 => FromCents(if InsufficientData(p) then 0 else Round(Season(p, Trend(p), w)))),
      if InsufficientData(p) then InsufficientDataFlatAverage else LinearTrendPlusDayOfWeekSeasonality)
  }

  lemma {:induction false} RevenueDaysAtMost(p: seq<DailyPoint>)
    ensures SumOf(HasRevenue, p) <= |p|
  {
    if p != [] { RevenueDaysAtMost(p[..|p| - 1]); }
  }

  lemma {:induction false} NoSeasonOnLine(p: seq<DailyPoint>, l: Line, w: int, n: nat)
    requires n <= |p| && ExactlyLinear(p, l)
    ensures ResidualOn(p, l, w, n) == 0.0
  {
    if n > 0 {
      NoSeasonOnLine(p, l, w, n - 1);
      assert Y(p, n - 1) == l.At((n - 1) as real);
    }
  }

  lemma NoSeasonality(p: seq<DailyPoint>, l: Line)
    requires |p| >= 2 && ExactlyLinear(p, l)
    ensures forall w | 0 <= w < 7 :: Season(p, Trend(p), w) == 0.0
  {
    hide Trend, ResidualOn, DaysOn;
    LinearRecovered(p, l);
    forall w | 0 <= w < 7 ensures Season(p, l, w) == 0.0 { NoSeasonOnLine(p, l, w, |p|); }
  }

  lemma LineContinues(p: seq<DailyPoint>, l: Line, start: int, i: nat)
    requires |p| >= 2 && ExactlyLinear(p, l) && !InsufficientData(p)
    ensures ForecastCents(p, start, i) == Max(0, Round(l.At((|p| + i) as real)))
  {
    LinearRecovered(p, l);
    NoSeasonality(p, l);
    hide Trend, Season, CivilFromDay, InsufficientData, ExactlyLinear, Round;
  }

  /** The forecast is printed day by day from `start`, the seasonality weekday by weekday. */
  lemma ForecastPrints(p: seq<DailyPoint>, horizonDays: nat, start: int)
    ensures var r := BuildSalesForecast(p, horizonDays, start);
            && |r.forecast| == horizonDays && |r.seasonality| == 7
            && (forall i | 0 <= i < horizonDays ::
                  r.forecast[i] == ForecastPoint(CivilFromDay(Day(start) + i), FromCents(ForecastCents(p, start, i))))
            && (forall w | 0 <= w < 7 ::
                  r.seasonality[w] == FromCents(if InsufficientData(p) then 0 else Round(Season(p, Trend(p), w))))
  {
    hide Trend, Season, CivilFromDay, FromCents, ForecastCents, InsufficientData, Round;
    forall i | 0 <= i < horizonDays ensures Day(AddUtcDays(start, i)) == Day(start) + i {}
  }

  /** A history on a line, with enough days of revenue, has no seasonality and is
      continued: every forecast is the line's next value, rounded, but never negative. */
  lemma LinearHistoryContinues(p: seq<DailyPoint>, l: Line, horizonDays: nat, start: int)
    requires ExactlyLinear(p, l) && !InsufficientData(p)
    ensures var r := BuildSalesForecast(p, horizonDays, start);
            && Trend(p) == l
            && (forall w | 0 <= w < 7 :: Season(p, Trend(p), w) == 0.0 && r.seasonality[w] == FromCents(0))
            && |r.forecast| == horizonDays
            && forall i | 0 <= i < horizonDays ::
                 r.forecast[i]
                   == ForecastPoint(CivilFromDay(Day(start) + i), FromCents(Max(0, Round(l.At((|p| + i) as real)))))
  {
    RevenueDaysAtMost(p);
    LinearRecovered(p, l);
    NoSeasonality(p, l);
    assert Round(0.0) == 0;
    ForecastPrints(p, horizonDays, start);
    hide Trend, Season, CivilFromDay, FromCents, ExactlyLinear, ForecastCents, BuildSalesForecast, Round, Line.At;
    forall i | 0 <= i < horizonDays
      ensures ForecastCents(p, start, i) == Max(0, Round(l.At((|p| + i) as real)))
    {
      LineContinues(p, l, start, i);
    }
  }

  // ---- What is reported ----------------------------------------------------

  /** The days that brought in anything. */
  function RevenueDays(p: seq<DailyPoint>): set<nat> { set k: nat | k < |p| && p[k].revenueCents != 0 }

  lemma {:induction false} RevenueDaysCounted(p: seq<DailyPoint>)
    ensures SumOf(HasRevenue, p) == |RevenueDays(p)|
  {
    if p != [] {
      var n := |p| - 1;
      RevenueDaysCounted(p[..n]);
      assert RevenueDays(p) == RevenueDays(p[..n]) + if p[n].revenueCents != 0 then {n} else {};
    }
  }

  /** No line has smaller squared residuals. */
  ghost predicate NoneBeats(p: seq<DailyPoint>, l: Line) {
    forall other: Line :: Ssr(p, l, |p|) <= Ssr(p, other, |p|)
  }

  predicate FallsOn(point: DailyPoint, w: int) { WeekDay(DayFromCivil(point.date)) == w }

  /** The first `n` days, as far as their date falls on weekday `w`. */
  function DaysOf(p: seq<DailyPoint>, w: int, n: nat): set<nat>
    requires n <= |p|
  {
    set k: nat | k < n && FallsOn(p[k], w)
  }

  lemma DaysOfNext(p: seq<DailyPoint>, w: int, n: nat)
    requires n < |p|
    ensures DaysOf(p, w, n + 1) == DaysOf(p, w, n) + if FallsOn(p[n], w) then {n} else {}
    ensures n !in DaysOf(p, w, n)
  {
    hide FallsOn;
  }

  /** They are the days counted for it. */
  lemma {:induction false} DaysCounted(p: seq<DailyPoint>, w: int, n: nat)
    requires n <= |p|
    ensures DaysOn(p, w, n) == |DaysOf(p, w, n)|
  {
    if n > 0 {
      DaysCounted(p, w, n - 1);
      DaysOfNext(p, w, n - 1);
      hide DaysOf, WeekDay, DayFromCivil;
    }
  }

  /** `m` is the mean residual of the history days on weekday `w`: their number times `m` is
      what their residuals sum to. A weekday without days has none. */
  ghost predicate MeanResidual(p: seq<DailyPoint>, l: Line, w: int, m: real) {
    var days := DaysOn(p, w, |p|);
    if days == 0 then m == 0.0 else m * days as real == ResidualOn(p, l, w, |p|)
  }

  lemma BestIsTrend(p: seq<DailyPoint>, l: Line)
    requires |RevenueDays(p)| >= 3 && NoneBeats(p, l)
    ensures l == Trend(p) && !InsufficientData(p) && |p| >= 3
  {
    RevenueDaysCounted(p);
    RevenueDaysAtMost(p);
    LeastSquares(p, l);
    hide Ssr, Trend;
    assert Ssr(p, l, |p|) <= Ssr(p, Trend(p), |p|);
  }

  lemma MeanIsSeason(p: seq<DailyPoint>, l: Line, w: int, m: real)
    requires MeanResidual(p, l, w, m)
    ensures m == Season(p, l, w)
  {
    hide DaysOn, ResidualOn;
    var days := DaysOn(p, w, |p|);
    if days > 0 { Quotient(m, days as real, ResidualOn(p, l, w, |p|)); }
  }

  lemma Quotient(m: real, k: real, sum: real)
    requires k > 0.0 && m * k == sum
    ensures m == sum / k
  {
  }

  /** With three days of revenue or more, each forecast is the value of a best line on that
      day, plus the mean residual of its weekday, rounded and never negative. */
  lemma ForecastIs(p: seq<DailyPoint>, horizonDays: nat, start: int, l: Line, i: nat, m: real)
    requires |RevenueDays(p)| >= 3 && NoneBeats(p, l) && i < horizonDays
    requires MeanResidual(p, l, WeekDay(Day(start) + i), m)
    ensures var cents := Max(0, Round(l.At((|p| + i) as real) + m));
            var point := BuildSalesForecast(p, horizonDays, start).forecast[i];
            point == ForecastPoint(CivilFromDay(Day(start) + i), FromCents(cents))
            && ParseCents(point.revenue) == Options.Some(cents)
  {
    hide BuildSalesForecast, CivilFromDay, FromCents, ParseCents, CentsText, Round, MeanResidual, NoneBeats, Line.At;
    CentsAre(p, start, l, i, m);
    hide ForecastCents;
    ForecastPrints(p, horizonDays, start);
    MoneyRoundTrip(ForecastCents(p, start, i));
  }

  lemma CentsAre(p: seq<DailyPoint>, start: int, l: Line, i: nat, m: real)
    requires |RevenueDays(p)| >= 3 && NoneBeats(p, l) && MeanResidual(p, l, WeekDay(Day(start) + i), m)
    ensures ForecastCents(p, start, i) == Max(0, Round(l.At((|p| + i) as real) + m))
  {
    hide MeanResidual, NoneBeats, CivilFromDay, InsufficientData, Round, Line.At;
    BestIsTrend(p, l);
    MeanIsSeason(p, l, WeekDay(Day(start) + i), m);
    hide Trend, Season;
    assert Day(AddUtcDays(start, i)) == Day(start) + i;
  }

  /** The rest of that report: the history as it is, the slope a day, and the mean residual
      of every weekday, Sunday first. */
  lemma ReportIs(p: seq<DailyPoint>, horizonDays: nat, start: int, l: Line)
    requires |RevenueDays(p)| >= 3 && NoneBeats(p, l)
    ensures var r := BuildSalesForecast(p, horizonDays, start);
            && r.kind == LinearTrendPlusDayOfWeekSeasonality && r.dailySlope == ToFixed2(l.slope / 100.0)
            && |r.history| == |p| && |r.forecast| == horizonDays && |r.seasonality| == 7
            && (forall k | 0 <= k < |p| :: r.history[k] == ForecastPoint(p[k].date, FromCents(p[k].revenueCents)))
            && forall w, m: real | 0 <= w < 7 && MeanResidual(p, l, w, m) :: r.seasonality[w] == FromCents(Round(m))
  {
    hide NoneBeats, MeanResidual, Season, FromCents, ToFixed2, InsufficientData, Round, ForecastCents, CivilFromDay;
    BestIsTrend(p, l);
    hide Trend, RevenueDays;
    forall w, m: real | 0 <= w < 7 && MeanResidual(p, l, w, m) ensures m == Season(p, l, w) {
      MeanIsSeason(p, l, w, m);
    }
  }

  /** With fewer, every forecast is the mean of the whole history, rounded and never
      negative, and neither slope nor season is claimed. */
  lemma FlatForecastIs(p: seq<DailyPoint>, horizonDays: nat, start: int, mean: real)
    requires |RevenueDays(p)| < 3
    requires if p == [] then mean == 0.0 else mean * |p| as real == SumOf(Revenue, p) as real
    ensures var r := BuildSalesForecast(p, horizonDays, start);
            && r.kind == InsufficientDataFlatAverage && r.dailySlope == "0.00" && |r.history| == |p|
            && (forall k | 0 <= k < |p| :: r.history[k] == ForecastPoint(p[k].date, FromCents(p[k].revenueCents)))
            && r.seasonality == ["0.00", "0.00", "0.00", "0.00", "0.00", "0.00", "0.00"]
            && |r.forecast| == horizonDays
            && forall i | 0 <= i < horizonDays ::
                 r.forecast[i] == ForecastPoint(CivilFromDay(Day(start) + i), FromCents(Max(0, Round(mean))))
  {
    ZeroText();
    MeanIsAverage(p, mean);
    FlatReport(p, horizonDays, start);
    hide BuildSalesForecast, Average, CivilFromDay, FromCents, Round, SumOf, RevenueDays;
    ForecastPrints(p, horizonDays, start);
    var r := BuildSalesForecast(p, horizonDays, start);
    forall i | 0 <= i < horizonDays ensures ForecastCents(p, start, i) == Max(0, Round(mean)) {}
  }

  lemma MeanIsAverage(p: seq<DailyPoint>, mean: real)
    requires if p == [] then mean == 0.0 else mean * |p| as real == SumOf(Revenue, p) as real
    ensures Average(p) == mean
  {
    if p != [] { Quotient(mean, |p| as real, SumOf(Revenue, p) as real); }
  }

  lemma FlatReport(p: seq<DailyPoint>, horizonDays: nat, start: int)
    requires |RevenueDays(p)| < 3
    ensures var r := BuildSalesForecast(p, horizonDays, start);
            && InsufficientData(p) && r.kind == InsufficientDataFlatAverage && r.dailySlope == FromCents(0)
            && |r.history| == |p|
            && forall k | 0 <= k < |p| :: r.history[k] == ForecastPoint(p[k].date, FromCents(p[k].revenueCents))
  {
    RevenueDaysCounted(p);
    hide Trend, Season, CivilFromDay, FromCents, Round, ForecastCents, RevenueDays;
  }

  /** Weekdays follow each other; 4 January 1970 was a Sunday. */
  lemma WeekDayIs(weeks: int, w: nat)
    requires w < 7
    ensures WeekDay(DayFromCivil(Civil(1970, 0, 4)) + 7 * weeks + w) == w
  {
    assert DayFromCivil(Civil(1970, 0, 4)) == 3;
    assert (7 * (weeks + 1) + w) % 7 == w;
  }
}
