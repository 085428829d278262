/** The context-runway finding: a least-squares line over the last ten turns,
    and how many more turns it needs to fill the window. */
module Runway {
  import opened Schema

  // ----- the sums the loop accumulates -----

  function SumX(n: nat): real {
    if n == 0 then 0.0 else SumX(n - 1) + (n - 1) as real
  }

  function SumXX(n: nat): real {
    if n == 0 then 0.0 else SumXX(n - 1) + (n - 1) as real * (n - 1) as real
  }

  function SumY(y: seq<real>, n: nat): real
    requires n <= |y|
  {
    if n == 0 then 0.0 else SumY(y, n - 1) + y[n - 1]
  }

  function SumXY(y: seq<real>, n: nat): real
    requires n <= |y|
  {
    if n == 0 then 0.0 else SumXY(y, n - 1) + (n - 1) as real * y[n - 1]
  }

  function SumYY(y: seq<real>, n: nat): real
    requires n <= |y|
  {
    if n == 0 then 0.0 else SumYY(y, n - 1) + y[n - 1] * y[n - 1]
  }

  function Square(x: real): real { x * x }

  /** The squared error at the point (x, v). */
  function Residual(v: real, slope: real, intercept: real, x: real): real { Square(v - (slope * x + intercept)) }

  /** The squared error of the line slope*x + intercept over the first n points. */
  function SquaredError(y: seq<real>, slope: real, intercept: real, n: nat): real
    requires n <= |y|
  {
    if n == 0 then 0.0
    else SquaredError(y, slope, intercept, n - 1) + Residual(y[n - 1], slope, intercept, (n - 1) as real)
  }

  function Error(y: seq<real>, slope: real, intercept: real): real {
    SquaredError(y, slope, intercept, |y|)
  }

  /** No line fits y better. */
  ghost predicate BestFit(y: seq<real>, slope: real, intercept: real) {
    forall a, b :: Error(y, slope, intercept) <= Error(y, a, b)
  }

  /** The two normal equations of least squares. */
  predicate Solved(n: real, sx: real, sxx: real, sy: real, sxy: real, slope: real, intercept: real) {
    slope * sxx + intercept * sx == sxy && slope * sx + intercept * n == sy
  }

  predicate Normal(y: seq<real>, slope: real, intercept: real) {
    Solved(|y| as real, SumX(|y|), SumXX(|y|), SumY(y, |y|), SumXY(y, |y|), slope, intercept)
  }

  function Denominator(n: nat): real { n as real * SumXX(n) - SumX(n) * SumX(n) }

  lemma {:induction false} ClosedSums(n: nat)
    ensures 2.0 * SumX(n) == n as real * (n as real - 1.0)
    ensures 6.0 * SumXX(n) == n as real * (n as real - 1.0) * (2.0 * n as real - 1.0)
  {
    if n > 0 {
      ClosedSums(n - 1);
      var m := (n - 1) as real;
      assert n as real == m + 1.0;
      assert 6.0 * SumXX(n) == m * (m - 1.0) * (2.0 * m - 1.0) + 6.0 * (m * m);
      assert m * (m - 1.0) * (2.0 * m - 1.0) + 6.0 * (m * m) == (m + 1.0) * m * (2.0 * (m + 1.0) - 1.0);
    }
  }

  /** The denominator is n*n*(n*n - 1)/12: zero only below two points. */
  lemma DenominatorIs(n: nat)
    ensures 12.0 * Denominator(n) == n as real * n as real * (n as real * n as real - 1.0)
    ensures n >= 2 ==> Denominator(n) > 0.0
    ensures n < 2 ==> Denominator(n) == 0.0
  {
    ClosedSums(n);
    var m := n as real;
    var sx, sxx := SumX(n), SumXX(n);
    assert 12.0 * (m * sxx) == 2.0 * m * (6.0 * sxx);
    assert 12.0 * (sx * sx) == 3.0 * ((2.0 * sx) * (2.0 * sx));
    assert 2.0 * m * (m * (m - 1.0) * (2.0 * m - 1.0)) - 3.0 * ((m * (m - 1.0)) * (m * (m - 1.0)))
      == m * m * (m * m - 1.0);
    if n >= 2 {
      assert m * m >= 4.0;
      assert m * m * (m * m - 1.0) > 0.0;
    }
  }

  // ----- the fit -----

  method Accumulate(y: seq<real>) returns (sumX: real, sumY: real, sumXY: real, sumXX: real)
    ensures sumX == SumX(|y|) && sumXX == SumXX(|y|) && sumY == SumY(y, |y|) && sumXY == SumXY(y, |y|)
  {
    sumX, sumY, sumXY, sumXX := 0.0, 0.0, 0.0, 0.0;
    var i := 0;
    while i < |y|
      invariant 0 <= i <= |y|
      invariant sumX == SumX(i) && sumXX == SumXX(i) && sumY == SumY(y, i) && sumXY == SumXY(y, i)
    {
      var x, v := i as real, y[i];
      sumX := sumX + x;
      sumY := sumY + v;
      sumXY := sumXY + x * v;
      sumXX := sumXX + x * x;
      i := i + 1;
    }
  }

  method Quotients(n: real, sumX: real, sumXX: real, sumY: real, sumXY: real, denom: real)
    returns (slope: real, intercept: real)
    requires n > 0.0 && denom == n * sumXX - sumX * sumX != 0.0
    ensures Solved(n, sumX, sumXX, sumY, sumXY, slope, intercept)
  {
    slope := (n * sumXY - sumX * sumY) / denom;
    intercept := (sumY - slope * sumX) / n;
  }

  method LinearFit(y: seq<real>) returns (slope: real, intercept: real)
    requires |y| >= 1
    ensures Normal(y, slope, intercept)
    ensures |y| == 1 ==> slope == 0.0
  {
    var n := |y| as real;
    var sumX, sumY, sumXY, sumXX := Accumulate(y);
    var denom := n * sumXX - sumX * sumX;
    assert denom == Denominator(|y|);
    DenominatorIs(|y|);
    if denom == 0.0 {
      slope, intercept := 0.0, sumY / n;
    } else {
      slope, intercept := Quotients(n, sumX, sumXX, sumY, sumXY, denom);
    }
  }

  // ----- why it is the best line -----

  /** All the sums over a prefix of the points. */
  datatype Sums = Sums(yy: real, xy: real, y: real, xx: real, x: real, n: real)

  function SumsOf(y: seq<real>, n: nat): Sums
    requires n <= |y|
  {
    Sums(SumYY(y, n), SumXY(y, n), SumY(y, n), SumXX(n), SumX(n), n as real)
  }

  predicate OneMore(s: Sums, s': Sums, x: real, v: real) {
    && s'.yy == s.yy + v * v && s'.xy == s.xy + x * v && s'.y == s.y + v
    && s'.xx == s.xx + x * x && s'.x == s.x + x && s'.n == s.n + 1.0
  }

  /** The error of a line, in terms of the sums. */
  function Expansion(s: Sums, a: real, b: real): real {
    s.yy - 2.0 * (a * s.xy) - 2.0 * (b * s.y) + (a * a) * s.xx + 2.0 * ((a * b) * s.x) + (b * b) * s.n
  }

  lemma OneMorePoint(s: Sums, s': Sums, a: real, b: real, x: real, v: real)
    requires OneMore(s, s', x, v)
    ensures Expansion(s', a, b) == Expansion(s, a, b) + Residual(v, a, b, x)
  {
    assert Square(v - (a * x + b))
      == v * v - 2.0 * (a * (x * v)) - 2.0 * (b * v) + (a * a) * (x * x) + 2.0 * ((a * b) * x) + b * b;
    assert a * (s.xy + x * v) == a * s.xy + a * (x * v);
    assert b * (s.y + v) == b * s.y + b * v;
    assert (a * a) * (s.xx + x * x) == (a * a) * s.xx + (a * a) * (x * x);
    assert (a * b) * (s.x + x) == (a * b) * s.x + (a * b) * x;
    assert (b * b) * (s.n + 1.0) == (b * b) * s.n + b * b;
  }

  lemma SumsStep(y: seq<real>, m: nat)
    requires m < |y|
    ensures OneMore(SumsOf(y, m), SumsOf(y, m + 1), m as real, y[m])
  {
  }

  lemma {:induction false} ErrorExpands(y: seq<real>, a: real, b: real, n: nat)
    requires n <= |y|
    ensures SquaredError(y, a, b, n) == Expansion(SumsOf(y, n), a, b)
  {
    if n == 0 {
    } else {
      var m := n - 1;
      ErrorExpands(y, a, b, m);
      SumsStep(y, m);
      OneMorePoint(SumsOf(y, m), SumsOf(y, n), a, b, m as real, y[m]);
    }
  }

  function Form(n: real, sx: real, sxx: real, da: real, db: real): real {
    (da * da) * sxx + 2.0 * ((da * db) * sx) + (db * db) * n
  }

  /** How much worse a line is than the solution of the normal equations. */
  function Excess(n: nat, da: real, db: real): real { Form(n as real, SumX(n), SumXX(n), da, db) }

  lemma ErrorDifference(y: seq<real>, slope: real, intercept: real, a: real, b: real)
    requires Normal(y, slope, intercept)
    ensures Error(y, a, b) == Error(y, slope, intercept) + Excess(|y|, a - slope, b - intercept)
  {
    ErrorExpands(y, a, b, |y|);
    ErrorExpands(y, slope, intercept, |y|);
    Completes(SumsOf(y, |y|), slope, intercept, a, b);
  }

  lemma Completes(t: Sums, s: real, c: real, a: real, b: real)
    requires Solved(t.n, t.x, t.xx, t.y, t.xy, s, c)
    ensures Expansion(t, a, b) == Expansion(t, s, c) + Form(t.n, t.x, t.xx, a - s, b - c)
  {
    assert a * t.xy == (a * s) * t.xx + (a * c) * t.x;
    assert b * t.y == (b * s) * t.x + (b * c) * t.n;
    assert s * t.xy == (s * s) * t.xx + (s * c) * t.x;
    assert c * t.y == (c * s) * t.x + (c * c) * t.n;
    assert ((a - s) * (a - s)) * t.xx == (a * a) * t.xx - 2.0 * ((a * s) * t.xx) + (s * s) * t.xx;
    assert ((a - s) * (b - c)) * t.x == (a * b) * t.x - (a * c) * t.x - (b * s) * t.x + (s * c) * t.x;
    assert ((b - c) * (b - c)) * t.n == (b * b) * t.n - 2.0 * ((b * c) * t.n) + (c * c) * t.n;
  }

  /** The excess is a positive form: never negative, zero only for the same line. */
  lemma ExcessPositive(n: nat, da: real, db: real)
    requires n >= 1
    ensures Excess(n, da, db) >= 0.0
    ensures n >= 2 && Excess(n, da, db) == 0.0 ==> da == 0.0 && db == 0.0
  {
    DenominatorIs(n);
    FormPositive(n as real, SumX(n), SumXX(n), Denominator(n), da, db);
  }

  lemma FormPositive(n: real, sx: real, sxx: real, d: real, da: real, db: real)
    requires n > 0.0 && d == n * sxx - sx * sx >= 0.0
    ensures Form(n, sx, sxx, da, db) >= 0.0
    ensures d > 0.0 && Form(n, sx, sxx, da, db) == 0.0 ==> da == 0.0 && db == 0.0
  {
    var t, e := n * db + sx * da, Form(n, sx, sxx, da, db);
    NonnegativeProduct(t, t);
    NonnegativeProduct(da, da);
    NonnegativeProduct(da * da, d);
    if d > 0.0 && e == 0.0 {
      ZeroProduct(da * da, d);
      ZeroProduct(da, da);
      ZeroProduct(t, t);
      ZeroProduct(n, db);
    }
  }

  lemma NonnegativeProduct(a: real, b: real)
    requires (a >= 0.0 && b >= 0.0) || a == b
    ensures a * b >= 0.0
  {
  }

  lemma ZeroProduct(a: real, b: real)
    requires a * b == 0.0
    ensures a == 0.0 || b == 0.0
  {
  }

  /** Solving the normal equations minimises the squared error over all lines. */
  lemma NormalIsBest(y: seq<real>, slope: real, intercept: real)
    requires |y| >= 1 && Normal(y, slope, intercept)
    ensures BestFit(y, slope, intercept)
  {
    forall a, b ensures Error(y, slope, intercept) <= Error(y, a, b) {
      ErrorDifference(y, slope, intercept, a, b);
      ExcessPositive(|y|, a - slope, b - intercept);
    }
  }

  /** From two points on, the best line is unique. */
  lemma BestIsUnique(y: seq<real>, slope: real, intercept: real, a: real, b: real)
    requires |y| >= 2 && Normal(y, slope, intercept) && BestFit(y, a, b)
    ensures a == slope && b == intercept
  {
    ErrorDifference(y, slope, intercept, a, b);
    ExcessPositive(|y|, a - slope, b - intercept);
    assert Error(y, a, b) <= Error(y, slope, intercept);
  }

  lemma {:induction false} ExactLineHasNoError(y: seq<real>, a: real, b: real, n: nat)
    requires n <= |y| && forall i :: 0 <= i < n ==> y[i] == a * i as real + b
    ensures SquaredError(y, a, b, n) == 0.0
  {
    if n > 0 { ExactLineHasNoError(y, a, b, n - 1); }
  }

  lemma ResidualNonnegative(v: real, a: real, b: real, x: real)
    ensures Residual(v, a, b, x) >= 0.0
  {
    var e := v - (a * x + b);
    NonnegativeProduct(e, e);
  }

  lemma {:induction false} ErrorNonnegative(y: seq<real>, a: real, b: real, n: nat)
    requires n <= |y|
    ensures SquaredError(y, a, b, n) >= 0.0
  {
    if n > 0 {
      ErrorNonnegative(y, a, b, n - 1);
      ResidualNonnegative(y[n - 1], a, b, (n - 1) as real);
    }
  }

  /** Affine data is recovered exactly. */
  lemma AffineRecovered(y: seq<real>, slope: real, intercept: real, a: real, b: real)
    requires |y| >= 2 && Normal(y, slope, intercept)
    requires forall i :: 0 <= i < |y| ==> y[i] == a * i as real + b
    ensures slope == a && intercept == b
  {
    ExactLineHasNoError(y, a, b, |y|);
    forall a', b' ensures Error(y, a, b) <= Error(y, a', b') { ErrorNonnegative(y, a', b', |y|); }
    BestIsUnique(y, slope, intercept, a, b);
  }

  // ----- turns to a target -----

  const EPSILON: real := 0.000000001

  function Ceil(x: real): int { -((-x).Floor) }

  function TurnsToTarget(target: real, slope: real, intercept: real, lastX: real): (t: int)
    requires slope > 0.0
  {
    var current := intercept + slope * lastX;
    if current >= target then 0
    else
      var turns := Ceil((target - current) / slope - EPSILON);
      if turns < 0 then 0 else turns
  }

  /** t turns on, the line has reached the target, up to EPSILON turns. */
  predicate Reaches(target: real, slope: real, intercept: real, lastX: real, t: int) {
    intercept + slope * (lastX + t as real) >= target - EPSILON * slope
  }

  lemma ReachesIff(target: real, slope: real, intercept: real, lastX: real, t: int)
    requires slope > 0.0
    ensures Reaches(target, slope, intercept, lastX, t)
       <==> t as real >= (target - (intercept + slope * lastX)) / slope - EPSILON
  {
    var q := (target - (intercept + slope * lastX)) / slope;
    assert slope * q == target - (intercept + slope * lastX);
    assert slope * (lastX + t as real) == slope * lastX + slope * t as real;
    var gap := t as real - (q - EPSILON);
    assert slope * gap == slope * t as real - slope * q + EPSILON * slope;
    assert slope * gap >= 0.0 <==> gap >= 0.0;
  }

  /** turnsToTarget is the least whole number of turns, from 0 on, after which
      the line has reached the target. */
  lemma LeastTurns(target: real, slope: real, intercept: real, lastX: real, t: int)
    requires slope > 0.0
    ensures var turns := TurnsToTarget(target, slope, intercept, lastX);
            && turns >= 0 && Reaches(target, slope, intercept, lastX, turns)
            && (0 <= t < turns ==> !Reaches(target, slope, intercept, lastX, t))
  {
    var current := intercept + slope * lastX;
    var turns := TurnsToTarget(target, slope, intercept, lastX);
    ReachesIff(target, slope, intercept, lastX, turns);
    ReachesIff(target, slope, intercept, lastX, t);
    if current >= target {
      assert EPSILON * slope >= 0.0;
      assert slope * (lastX + 0 as real) == slope * lastX;
    }
  }

  /** A higher target never takes fewer turns. */
  lemma TurnsMonotone(target: real, target': real, slope: real, intercept: real, lastX: real)
    requires slope > 0.0 && target <= target'
    ensures TurnsToTarget(target, slope, intercept, lastX) <= TurnsToTarget(target', slope, intercept, lastX)
  {
    var t, t' := TurnsToTarget(target, slope, intercept, lastX), TurnsToTarget(target', slope, intercept, lastX);
    LeastTurns(target, slope, intercept, lastX, t');
    LeastTurns(target', slope, intercept, lastX, t);
  }

  // ----- the finding -----

  const FIT_TURNS: int := 10

  datatype Finding = Finding(turn: nat, slope: real, window: int, turnsTo80: int, turnsTo90: int)

  function Recent(turns: seq<Event>): seq<Event> {
    if |turns| > FIT_TURNS then turns[|turns| - FIT_TURNS..] else turns
  }

  function Contexts(turns: seq<Event>): seq<real> {
    seq(|turns|, i requires 0 <= i < |turns| => turns[i].Context() as real)
  }

  /** contextRunway: nothing when the window is unknown, there are fewer than two
      turns, or the best line does not rise; otherwise the best line over the
      last ten turns and the least numbers of turns to 80% and 90%. */
  method ContextRunway(turns: seq<Event>, contextWindow: string -> Option<int>) returns (r: Option<Finding>)
    requires |turns| >= 1
    ensures var y := Contexts(Recent(turns));
            var window := contextWindow(turns[|turns| - 1].model);
            && (r.None? <==> window.None? || window.value <= 0 || |turns| < 2
                             || exists a, b :: BestFit(y, a, b) && a <= 0.0)
            && (r.Some? ==>
                  && r.value.turn == |turns| && window == Some(r.value.window)
                  && 0 <= r.value.turnsTo80 <= r.value.turnsTo90
                  && exists b :: RunwayOf(y, r.value, b))
  {
    var last := turns[|turns| - 1];
    var window := contextWindow(last.model);
    if window.None? || window.value <= 0 {
      return None;
    }
    var from := |turns| - FIT_TURNS;
    if from < 0 {
      from := 0;
    }
    var sample := turns[from..];
    assert sample == Recent(turns);
    if |sample| < 2 {
      return None;
    }
    var y: seq<real> := [];
    var i := 0;
    while i < |sample|
      invariant 0 <= i <= |sample| && y == Contexts(sample)[..i]
    {
      y := y + [sample[i].Context() as real];
      i := i + 1;
    }
    assert y == Contexts(Recent(turns));
    var slope, intercept := LinearFit(y);
    NormalIsBest(y, slope, intercept);
    if slope <= 0.0 {
      return None;
    }
    forall a, b | BestFit(y, a, b) ensures a > 0.0 {
      BestIsUnique(y, slope, intercept, a, b);
    }
    var lastX := (|y| - 1) as real;
    var w := window.value as real;
    var to80 := TurnsToTarget(0.8 * w, slope, intercept, lastX);
    var to90 := TurnsToTarget(0.9 * w, slope, intercept, lastX);
    TurnsMonotone(0.8 * w, 0.9 * w, slope, intercept, lastX);
    LeastTurns(0.8 * w, slope, intercept, lastX, 0);
    var f := Finding(|turns|, slope, window.value, to80, to90);
    assert RunwayOf(y, f, intercept);
    r := Some(f);
  }

  ghost predicate RunwayOf(y: seq<real>, f: Finding, intercept: real) {
    && BestFit(y, f.slope, intercept) && f.slope > 0.0
    && f.turnsTo80 == TurnsToTarget(0.8 * f.window as real, f.slope, intercept, (|y| - 1) as real)
    && f.turnsTo90 == TurnsToTarget(0.9 * f.window as real, f.slope, intercept, (|y| - 1) as real)
  }

  /** The sample is the last ten turns, or all when there are fewer, each by its
      tokens other than output. */
  lemma SampleIs(turns: seq<Event>, i: nat)
    ensures var y := Contexts(Recent(turns));
            && |y| == (if |turns| <= 10 then |turns| else 10)
            && (i < |y| ==> var e := turns[|turns| - |y| + i]; y[i] == (AllTokens(e) - e.output) as real)
  {
  }

  /** The two counts of a finding: the least numbers of further turns at which the
      line is at 80 and at 90 hundredths of the window, up to a billionth of a turn. */
  lemma RunwayIs(y: seq<real>, f: Finding, intercept: real, t: nat)
    requires RunwayOf(y, f, intercept)
    ensures var at := intercept + f.slope * ((|y| - 1) as real + t as real) + f.slope / 1_000_000_000.0;
            && (t >= f.turnsTo80 <==> 100.0 * at >= 80.0 * f.window as real)
            && (t >= f.turnsTo90 <==> 100.0 * at >= 90.0 * f.window as real)
  {
    TurnsIff(0.8 * f.window as real, f.slope, intercept, (|y| - 1) as real, t);
    TurnsIff(0.9 * f.window as real, f.slope, intercept, (|y| - 1) as real, t);
  }

  lemma TurnsIff(target: real, slope: real, intercept: real, lastX: real, t: nat)
    requires slope > 0.0
    ensures t >= TurnsToTarget(target, slope, intercept, lastX)
       <==> intercept + slope * (lastX + t as real) + slope / 1_000_000_000.0 >= target
  {
    LeastTurns(target, slope, intercept, lastX, t);
    var turns := TurnsToTarget(target, slope, intercept, lastX);
    if t >= turns { ReachesOn(target, slope, intercept, lastX, turns, t); }
    assert slope * EPSILON == slope / 1_000_000_000.0;
  }

  lemma ReachesOn(target: real, slope: real, intercept: real, lastX: real, t: int, t': int)
    requires slope > 0.0 && t <= t' && Reaches(target, slope, intercept, lastX, t)
    ensures Reaches(target, slope, intercept, lastX, t')
  {
    var d := (t' - t) as real;
    assert slope * d >= 0.0;
    assert slope * (lastX + t' as real) == slope * (lastX + t as real) + slope * d;
  }
}
