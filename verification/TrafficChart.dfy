/**
  The traffic chart's curve: monotone cubic interpolation over exact reals.
  Between two data points the curve rises or falls with them and never leaves
  their range, so the chart cannot dip below zero or peak above the data.
 */
module TrafficChart {

  datatype PathCommand =
    | MoveTo(x: real, y: real)
    | CurveTo(x1: real, y1: real, x2: real, y2: real, x: real, y: real)

  // ------------------------------------------------------------------ real arithmetic

  lemma MulNonNeg(a: real, b: real)
    requires a >= 0.0 && b >= 0.0
    ensures a * b >= 0.0
  {
  }

  lemma MulPos(a: real, b: real)
    requires a > 0.0 && b > 0.0
    ensures a * b > 0.0
  {
  }

  /** A quotient is what, times the divisor, gives the dividend. */
  lemma DivIs(a: real, b: real, q: real)
    requires b != 0.0 && q * b == a
    ensures a / b == q
  {
  }

  lemma DivAtMost(a: real, b: real, q: real)
    requires b > 0.0 && a <= q * b
    ensures a / b <= q
  {
    var x := a / b;
    assert (x - q) * b == a - q * b;
    if x > q { MulPos(x - q, b); }
  }

  lemma DivPos(a: real, b: real)
    requires a > 0.0 && b > 0.0
    ensures a / b > 0.0
  {
    var x := a / b;
    assert (-x) * b == -a;
    if x <= 0.0 { MulNonNeg(-x, b); }
  }

  // ------------------------------------------------------------------ tangents

  /** The weighted harmonic mean of two neighbouring slopes, or 0 at a turning point. */
  function Tangent(d0: real, d1: real, m0: real, m1: real): real
    requires d0 > 0.0 && d1 > 0.0
  {
    if m0 * m1 <= 0.0 then 0.0
    else
      SameSign(m0, m1);
      HarmonicSumNonZero(d0, d1, m0, m1);
      3.0 * (d0 + d1) / ((2.0 * d1 + d0) / m0 + (d1 + 2.0 * d0) / m1)
  }

  lemma SameSign(a: real, b: real)
    requires a * b > 0.0
    ensures (a > 0.0 && b > 0.0) || (a < 0.0 && b < 0.0)
  {
    if a > 0.0 && b <= 0.0 { MulNonNeg(a, -b); }
    if a < 0.0 && b >= 0.0 { MulNonNeg(-a, b); }
  }

  lemma NegDiv(a: real, b: real)
    requires b != 0.0
    ensures a / -b == -(a / b)
  {
    assert (-(a / b)) * (-b) == a / b * b;
    DivIs(a, -b, -(a / b));
  }

  lemma HarmonicSumNonZero(d0: real, d1: real, m0: real, m1: real)
    requires d0 > 0.0 && d1 > 0.0
    requires (m0 > 0.0 && m1 > 0.0) || (m0 < 0.0 && m1 < 0.0)
    ensures m0 > 0.0 ==> (2.0 * d1 + d0) / m0 + (d1 + 2.0 * d0) / m1 > 0.0
    ensures m0 < 0.0 ==> (2.0 * d1 + d0) / m0 + (d1 + 2.0 * d0) / m1 < 0.0
  {
    var w0, w1 := 2.0 * d1 + d0, d1 + 2.0 * d0;
    if m0 > 0.0 {
      DivPos(w0, m0);
      DivPos(w1, m1);
    } else {
      DivPos(w0, -m0);
      DivPos(w1, -m1);
      NegDiv(w0, m0);
      NegDiv(w1, m1);
    }
  }

  /** Both quotients and their sum for rising neighbours. */
  lemma RisingTangent(d0: real, d1: real, m0: real, m1: real)
    requires d0 > 0.0 && d1 > 0.0 && m0 > 0.0 && m1 > 0.0
    ensures m0 * m1 > 0.0
    ensures 0.0 < Tangent(d0, d1, m0, m1) <= 3.0 * m0
    ensures Tangent(d0, d1, m0, m1) <= 3.0 * m1
  {
    MulPos(m0, m1);
    var w0, w1 := 2.0 * d1 + d0, d1 + 2.0 * d0;
    var p, q := w0 / m0, w1 / m1;
    DivPos(w0, m0);
    DivPos(w1, m1);
    assert p * m0 == w0 && q * m1 == w1;
    MulPos(q, m0);
    MulPos(p, m1);
    assert (p + q) * m0 == w0 + q * m0;
    assert (p + q) * m1 == w1 + p * m1;
    DivPos(3.0 * (d0 + d1), p + q);
    assert 3.0 * m0 * (p + q) == 3.0 * ((p + q) * m0);
    DivAtMost(3.0 * (d0 + d1), p + q, 3.0 * m0);
    assert 3.0 * m1 * (p + q) == 3.0 * ((p + q) * m1);
    DivAtMost(3.0 * (d0 + d1), p + q, 3.0 * m1);
  }

  /** Turning the data upside down turns the tangent with it. */
  lemma TangentOfNegated(d0: real, d1: real, m0: real, m1: real)
    requires d0 > 0.0 && d1 > 0.0
    ensures Tangent(d0, d1, -m0, -m1) == -Tangent(d0, d1, m0, m1)
  {
    assert (-m0) * (-m1) == m0 * m1;
    if m0 * m1 > 0.0 {
      SameSign(m0, m1);
      var w0, w1 := 2.0 * d1 + d0, d1 + 2.0 * d0;
      NegDiv(w0, m0);
      NegDiv(w1, m1);
      HarmonicSumNonZero(d0, d1, m0, m1);
      NegDiv(3.0 * (d0 + d1), w0 / m0 + w1 / m1);
    }
  }

  /**
    What an interior tangent is: 0 at a turning point or beside a flat piece, and
    otherwise the harmonic mean of the two slopes, each weighted with the widths of
    both pieces, the farther one's twice.
   */
  lemma TangentIsHarmonicMean(d0: real, d1: real, m0: real, m1: real)
    requires d0 > 0.0 && d1 > 0.0
    ensures m0 * m1 <= 0.0 ==> Tangent(d0, d1, m0, m1) == 0.0
    ensures m0 * m1 > 0.0 ==>
      Tangent(d0, d1, m0, m1) * ((d0 + 2.0 * d1) * m1 + (2.0 * d0 + d1) * m0) == 3.0 * (d0 + d1) * (m0 * m1)
  {
    if m0 * m1 > 0.0 {
      SameSign(m0, m1);
      HarmonicSumNonZero(d0, d1, m0, m1);
      var w0, w1 := 2.0 * d1 + d0, d1 + 2.0 * d0;
      MeanTimesSum(w0 / m0, w1 / m1, w0, w1, m0, m1, 3.0 * (d0 + d1), Tangent(d0, d1, m0, m1));
    }
  }

  lemma MeanTimesSum(p: real, q: real, w0: real, w1: real, m0: real, m1: real, n: real, t: real)
    requires p * m0 == w0 && q * m1 == w1 && t * (p + q) == n
    ensures t * (w0 * m1 + w1 * m0) == n * (m0 * m1)
  {
    assert w0 * m1 + w1 * m0 == (p + q) * (m0 * m1);
    assert t * ((p + q) * (m0 * m1)) == (t * (p + q)) * (m0 * m1);
  }

  /** Between equal slopes of equal sign the tangent is that slope. */
  lemma TangentOfStraightLine(d0: real, d1: real, m: real)
    requires d0 > 0.0 && d1 > 0.0
    ensures Tangent(d0, d1, m, m) == m
  {
    Square(m);
    TangentIsHarmonicMean(d0, d1, m, m);
    if m != 0.0 {
      NonZeroSquare(m);
      var t, w := Tangent(d0, d1, m, m), 3.0 * (d0 + d1);
      assert t * (w * m) == w * m * m;
      CancelFactor(t, m, w * m);
    }
  }

  lemma NonZeroSquare(m: real)
    requires m != 0.0
    ensures m * m > 0.0
  {
    if m > 0.0 { MulPos(m, m); } else { MulPos(-m, -m); }
  }

  lemma CancelFactor(a: real, b: real, c: real)
    requires a * c == b * c || a * c == c * b
    ensures a == b || c == 0.0
  {
    assert (a - b) * c == a * c - b * c;
    if a - b > 0.0 && c > 0.0 { MulPos(a - b, c); }
    if a - b > 0.0 && c < 0.0 { MulPos(a - b, -c); }
    if a - b < 0.0 && c > 0.0 { MulPos(b - a, c); }
    if a - b < 0.0 && c < 0.0 { MulPos(b - a, -c); }
  }

  /** A tangent t is fit for a slope m: it has m's sign, or is 0, and is at most three times as steep. */
  predicate FitTangent(t: real, m: real) {
    (m >= 0.0 ==> 0.0 <= t <= 3.0 * m) && (m <= 0.0 ==> 3.0 * m <= t <= 0.0)
  }

  /** Every interior tangent is fit for both neighbouring slopes. */
  lemma TangentFitsBothSlopes(d0: real, d1: real, m0: real, m1: real)
    requires d0 > 0.0 && d1 > 0.0
    ensures FitTangent(Tangent(d0, d1, m0, m1), m0) && FitTangent(Tangent(d0, d1, m0, m1), m1)
  {
    if m0 * m1 > 0.0 {
      SameSign(m0, m1);
      if m0 > 0.0 {
        RisingTangent(d0, d1, m0, m1);
      } else {
        RisingTangent(d0, d1, -m0, -m1);
        TangentOfNegated(d0, d1, m0, m1);
      }
    }
  }

  // ------------------------------------------------------------------ Bezier segments

  /** One coordinate of a cubic Bezier curve. */
  function Bezier(p0: real, p1: real, p2: real, p3: real, s: real): real {
    var r := 1.0 - s;
    r * r * r * p0 + 3.0 * r * r * s * p1 + 3.0 * r * s * s * p2 + s * s * s * p3
  }

  /** With control points at the thirds, the curve moves evenly along x: it is the graph of a function. */
  lemma EvenAlongX(x0: real, h: real, s: real)
    ensures Bezier(x0, x0 + h, x0 + 2.0 * h, x0 + 3.0 * h, s) == x0 + 3.0 * h * s
  {
  }

  lemma CubeMono(x: real, y: real)
    requires x <= y
    ensures x * x * x <= y * y * y
  {
    var q := x * x + x * y + y * y;
    assert q == (x + y / 2.0) * (x + y / 2.0) + 3.0 * (y / 2.0) * (y / 2.0);
    Square(x + y / 2.0);
    Square(y / 2.0);
    MulNonNeg(y - x, q);
    assert (y - x) * q == y * y * y - x * x * x;
  }

  lemma Square(x: real)
    ensures x * x >= 0.0
  {
    if x >= 0.0 { MulNonNeg(x, x); } else { MulNonNeg(-x, -x); assert (-x) * (-x) == x * x; }
  }

  lemma ProductBelow(x: real, y: real, z: real)
    requires x >= 0.0 && y <= 1.0 && z == x * y
    ensures z <= x
  {
    MulNonNeg(x, 1.0 - y);
    assert x * (1.0 - y) == x - z;
  }

  lemma ScaledBound(s: real, t: real, ss: real, st: real, tt: real)
    requires s <= t && ss <= s && tt <= t && st <= t && st <= s
    ensures (t - s) * (3.0 * (s + t) - 2.0 * (ss + st + tt)) >= 0.0
  {
    MulNonNeg(t - s, 3.0 * (s + t) - 2.0 * (ss + st + tt));
  }

  lemma Products(s: real, t: real) returns (ss: real, st: real, tt: real)
    requires 0.0 <= s <= t <= 1.0
    ensures ss == s * s && st == s * t && tt == t * t
    ensures ss <= s && tt <= t && st <= t && st <= s
  {
    ss, st, tt := s * s, s * t, t * t;
    ProductBelow(s, s, ss);
    ProductBelow(t, t, tt);
    ProductBelow(s, t, st);
    ProductBelow(t, s, st);
  }

  lemma SmoothStepDifference(s: real, t: real)
    ensures (t - s) * (3.0 * (s + t) - 2.0 * (s * s + s * t + t * t))
      == 3.0 * t * t - 2.0 * t * t * t - (3.0 * s * s - 2.0 * s * s * s)
  {
  }

  /** 3s^2 - 2s^3 rises on the unit interval. */
  lemma SmoothStepMono(s: real, t: real)
    requires 0.0 <= s <= t <= 1.0
    ensures 3.0 * s * s - 2.0 * s * s * s <= 3.0 * t * t - 2.0 * t * t * t
  {
    var ss, st, tt := Products(s, t);
    ScaledBound(s, t, ss, st, tt);
    SmoothStepDifference(s, t);
  }

  /** The weights of the two control offsets and of the rise. */
  function WeightA(s: real): real { 3.0 * (1.0 - s) * (1.0 - s) * s }
  function WeightB(s: real): real { 3.0 * (1.0 - s) * s * s }
  function WeightD(s: real): real { 3.0 * s * s - 2.0 * s * s * s }

  lemma BezierByWeights(y: real, a: real, b: real, d: real, s: real)
    ensures Bezier(y, y + a, y + d - b, y + d, s) == y + a * WeightA(s) - b * WeightB(s) + d * WeightD(s)
  {
    var r := 1.0 - s;
    assert r * r * r + 3.0 * r * r * s + 3.0 * r * s * s + s * s * s == 1.0;
    assert WeightB(s) + s * s * s == WeightD(s);
    var u, v, w, z := r * r * r, 3.0 * r * r * s, 3.0 * r * s * s, s * s * s;
    assert u * y + v * (y + a) + w * (y + d - b) + z * (y + d) == (u + v + w + z) * y + v * a - w * b + (w + z) * d;
  }

  /** The four extreme pairs of control offsets all give rising curves. */
  lemma CornersRise(s: real, t: real)
    requires 0.0 <= s <= t <= 1.0
    ensures WeightD(s) <= WeightD(t)
    ensures WeightA(s) + WeightD(s) <= WeightA(t) + WeightD(t)
    ensures WeightD(s) - WeightB(s) <= WeightD(t) - WeightB(t)
    ensures WeightA(s) - WeightB(s) + WeightD(s) <= WeightA(t) - WeightB(t) + WeightD(t)
  {
    SmoothStepMono(s, t);
    CubeMono(1.0 - t, 1.0 - s);
    OneMinusCube(s);
    OneMinusCube(t);
    CubeMono(s, t);
    CubeMono(2.0 * s - 1.0, 2.0 * t - 1.0);
    HalfCube(s);
    HalfCube(t);
  }

  lemma OneMinusCube(s: real)
    ensures WeightA(s) + WeightD(s) == 1.0 - (1.0 - s) * (1.0 - s) * (1.0 - s)
    ensures WeightD(s) - WeightB(s) == s * s * s
  {
  }

  lemma HalfCube(s: real)
    ensures 2.0 * (WeightA(s) - WeightB(s) + WeightD(s)) == 1.0 + (2.0 * s - 1.0) * (2.0 * s - 1.0) * (2.0 * s - 1.0)
  {
  }

  /** A combination with weights between the corners' is no less than the least corner. */
  lemma BetweenCorners(a: real, b: real, d: real, da: real, db: real, dd: real)
    requires 0.0 <= a <= d && 0.0 <= b <= d
    requires dd >= 0.0 && da + dd >= 0.0 && dd - db >= 0.0 && da - db + dd >= 0.0
    ensures a * da - b * db + d * dd >= 0.0
  {
    var x := if da >= 0.0 then 0.0 else da;
    var y := if db <= 0.0 then 0.0 else db;
    if da >= 0.0 { MulNonNeg(a, da); } else { MulNonNeg(d - a, -da); assert (d - a) * (-da) == a * da - d * da; }
    if db <= 0.0 { MulNonNeg(b, -db); assert b * (-db) == -(b * db); }
      else { MulNonNeg(d - b, db); assert (d - b) * db == d * db - b * db; }
    MulNonNeg(d, x - y + dd);
    assert d * (x - y + dd) == d * x - d * y + d * dd;
  }

  /** With both control offsets between 0 and the rise, the segment rises throughout. */
  lemma RisingSegment(y: real, a: real, b: real, d: real, s: real, t: real)
    requires 0.0 <= a <= d && 0.0 <= b <= d && 0.0 <= s <= t <= 1.0
    ensures Bezier(y, y + a, y + d - b, y + d, s) <= Bezier(y, y + a, y + d - b, y + d, t)
  {
    hide Bezier, WeightA, WeightB, WeightD;
    BezierByWeights(y, a, b, d, s);
    BezierByWeights(y, a, b, d, t);
    CornersRise(s, t);
    WeightedRise(a, b, d, WeightA(s), WeightA(t), WeightB(s), WeightB(t), WeightD(s), WeightD(t));
  }

  lemma WeightedRise(a: real, b: real, d: real, a0: real, a1: real, b0: real, b1: real, d0: real, d1: real)
    requires 0.0 <= a <= d && 0.0 <= b <= d
    requires d0 <= d1 && a0 + d0 <= a1 + d1 && d0 - b0 <= d1 - b1 && a0 - b0 + d0 <= a1 - b1 + d1
    ensures a * a0 - b * b0 + d * d0 <= a * a1 - b * b1 + d * d1
  {
    BetweenCorners(a, b, d, a1 - a0, b1 - b0, d1 - d0);
    assert a * (a1 - a0) == a * a1 - a * a0;
    assert b * (b1 - b0) == b * b1 - b * b0;
    assert d * (d1 - d0) == d * d1 - d * d0;
  }

  // ------------------------------------------------------------------ the path

  /** xs strictly increase, and there is one y for each. */
  predicate Plottable(xs: seq<real>, ys: seq<real>) {
    |xs| == |ys| && forall i :: 0 <= i < |xs| - 1 ==> xs[i] < xs[i + 1]
  }

  function Slope(xs: seq<real>, ys: seq<real>, i: nat): real
    requires Plottable(xs, ys) && i + 1 < |xs|
  {
    Quotient(ys[i + 1] - ys[i], xs[i + 1] - xs[i])
  }

  function Quotient(a: real, b: real): real
    requires b != 0.0
  {
    a / b
  }

  /** The tangent at each data point: the outer slopes at the ends, the harmonic mean between. */
  function TangentAt(xs: seq<real>, ys: seq<real>, i: nat): real
    requires Plottable(xs, ys) && i < |xs| && 2 <= |xs|
  {
    if i == 0 then Slope(xs, ys, 0)
    else if i == |xs| - 1 then Slope(xs, ys, i - 1)
    else Tangent(xs[i] - xs[i - 1], xs[i + 1] - xs[i], Slope(xs, ys, i - 1), Slope(xs, ys, i))
  }

  lemma SlopeIs(xs: seq<real>, ys: seq<real>, i: nat)
    requires Plottable(xs, ys) && i + 1 < |xs|
    ensures Slope(xs, ys, i) == Quotient(ys[i + 1] - ys[i], xs[i + 1] - xs[i])
  {
    hide Quotient;
  }

  lemma TangentIs(xs: seq<real>, ys: seq<real>, i: nat)
    requires Plottable(xs, ys) && i < |xs| && 2 <= |xs|
    ensures TangentAt(xs, ys, i) ==
      if i == 0 then Slope(xs, ys, 0)
      else if i == |xs| - 1 then Slope(xs, ys, i - 1)
      else Tangent(xs[i] - xs[i - 1], xs[i + 1] - xs[i], Slope(xs, ys, i - 1), Slope(xs, ys, i))
  {
    hide Quotient, Tangent, Slope;
  }

  /** The Bezier piece between two points w apart in x, with tangents t0 and t1 at its ends. */
  function Segment(x0: real, y0: real, x1: real, y1: real, w: real, t0: real, t1: real): PathCommand {
    var h := w / 3.0;
    CurveTo(x0 + h, y0 + h * t0, x1 - h, y1 - h * t1, x1, y1)
  }

  /** The curve piece from point i to point i + 1. */
  function Piece(xs: seq<real>, ys: seq<real>, i: nat): PathCommand
    requires Plottable(xs, ys) && i + 1 < |xs|
  {
    Segment(xs[i], ys[i], xs[i + 1], ys[i + 1], xs[i + 1] - xs[i], TangentAt(xs, ys, i), TangentAt(xs, ys, i + 1))
  }

  method MonotonePath(xs: seq<real>, ys: seq<real>) returns (path: seq<PathCommand>)
    requires Plottable(xs, ys)
    ensures |path| == |xs|
    ensures |xs| > 0 ==> path[0] == MoveTo(xs[0], ys[0])
    ensures forall i :: 0 <= i < |xs| - 1 ==> path[i + 1] == Piece(xs, ys, i)
  {
    hide TangentAt, Segment;
    var n := |xs|;
    if n == 0 { return []; }
    if n == 1 { return [MoveTo(xs[0], ys[0])]; }
    var dx, tan := Tangents(xs, ys);
    path := [MoveTo(xs[0], ys[0])];
    for i := 0 to n - 1
      invariant |path| == i + 1 && path[0] == MoveTo(xs[0], ys[0])
      invariant forall k :: 0 <= k < i ==> path[k + 1] == Piece(xs, ys, k)
    {
      path := path + [Segment(xs[i], ys[i], xs[i + 1], ys[i + 1], dx[i], tan[i], tan[i + 1])];
    }
  }

  /** The widths and tangents monotonePath prepares. */
  method Tangents(xs: seq<real>, ys: seq<real>) returns (dx: seq<real>, tan: seq<real>)
    requires Plottable(xs, ys) && |xs| >= 2
    ensures |dx| == |xs| - 1 && |tan| == |xs|
    ensures forall k :: 0 <= k < |dx| ==> dx[k] == xs[k + 1] - xs[k]
    ensures forall k :: 0 <= k < |tan| ==> tan[k] == TangentAt(xs, ys, k)
  {
    hide Tangent, Quotient, Slope, TangentAt;
    var n := |xs|;
    dx := [];
    var m: seq<real> := [];
    for i := 0 to n - 1
      invariant |dx| == |m| == i
      invariant forall k :: 0 <= k < i ==> dx[k] == xs[k + 1] - xs[k]
      invariant forall k :: 0 <= k < i ==> m[k] == Slope(xs, ys, k)
    {
      SlopeIs(xs, ys, i);
      dx := dx + [xs[i + 1] - xs[i]];
      m := m + [Quotient(ys[i + 1] - ys[i], dx[i])];
    }
    tan := [m[0]];
    TangentIs(xs, ys, 0);
    for i := 1 to n - 1
      invariant |tan| == i
      invariant forall k :: 0 <= k < i ==> tan[k] == TangentAt(xs, ys, k)
    {
      TangentIs(xs, ys, i);
      tan := tan + [Tangent(dx[i - 1], dx[i], m[i - 1], m[i])];
    }
    TangentIs(xs, ys, n - 1);
    tan := tan + [m[n - 2]];
  }

  // ------------------------------------------------------------------ no overshoot

  /** The two coordinates of piece i at parameter s. */
  function CurveX(xs: seq<real>, ys: seq<real>, i: nat, s: real): real
    requires Plottable(xs, ys) && i + 1 < |xs|
  {
    var p := Piece(xs, ys, i);
    Bezier(xs[i], p.x1, p.x2, p.x, s)
  }

  function CurveY(xs: seq<real>, ys: seq<real>, i: nat, s: real): real
    requires Plottable(xs, ys) && i + 1 < |xs|
  {
    var p := Piece(xs, ys, i);
    Bezier(ys[i], p.y1, p.y2, p.y, s)
  }

  /** Both tangents of a piece are fit for its slope. */
  lemma TangentsFit(xs: seq<real>, ys: seq<real>, i: nat)
    requires Plottable(xs, ys) && i + 1 < |xs|
    ensures FitTangent(TangentAt(xs, ys, i), Slope(xs, ys, i))
    ensures FitTangent(TangentAt(xs, ys, i + 1), Slope(xs, ys, i))
  {
    if i > 0 {
      TangentFitsBothSlopes(xs[i] - xs[i - 1], xs[i + 1] - xs[i], Slope(xs, ys, i - 1), Slope(xs, ys, i));
    }
    if i + 2 < |xs| {
      TangentFitsBothSlopes(xs[i + 1] - xs[i], xs[i + 2] - xs[i + 1], Slope(xs, ys, i), Slope(xs, ys, i + 1));
    }
  }

  /** x runs evenly from one data point to the next, so the curve is a function of x. */
  lemma XIsEven(xs: seq<real>, ys: seq<real>, i: nat, s: real)
    requires Plottable(xs, ys) && i + 1 < |xs|
    ensures CurveX(xs, ys, i, s) == xs[i] + (xs[i + 1] - xs[i]) * s
  {
    var h := (xs[i + 1] - xs[i]) / 3.0;
    EvenAlongX(xs[i], h, s);
    assert xs[i + 1] - h == xs[i] + 2.0 * h && xs[i + 1] == xs[i] + 3.0 * h;
  }

  /** Neighbouring pieces meet at the data point with the same tangent. */
  lemma PiecesJoinSmoothly(xs: seq<real>, ys: seq<real>, i: nat)
    requires Plottable(xs, ys) && i + 2 < |xs|
    ensures var p, q := Piece(xs, ys, i), Piece(xs, ys, i + 1);
      && p.x2 != xs[i + 1] && q.x1 != xs[i + 1]
      && (ys[i + 1] - p.y2) / (xs[i + 1] - p.x2) == TangentAt(xs, ys, i + 1)
      && (q.y1 - ys[i + 1]) / (q.x1 - xs[i + 1]) == TangentAt(xs, ys, i + 1)
  {
    hide TangentAt;
    var t := TangentAt(xs, ys, i + 1);
    var h, k := (xs[i + 1] - xs[i]) / 3.0, (xs[i + 2] - xs[i + 1]) / 3.0;
    var p, q := Piece(xs, ys, i), Piece(xs, ys, i + 1);
    DifferenceQuotient(ys[i + 1], h, t);
    DifferenceQuotient(ys[i + 1], k, t);
    assert xs[i + 1] - p.x2 == h && q.x1 - xs[i + 1] == k;
  }

  lemma DifferenceQuotient(y: real, h: real, t: real)
    requires h > 0.0
    ensures (y - (y - h * t)) / h == t && (y + h * t - y) / h == t
  {
    assert y - (y - h * t) == h * t && y + h * t - y == h * t;
    DivIs(h * t, h, t);
  }

  /** A fit tangent's control offset lies between 0 and the piece's rise or fall. */
  lemma OffsetFits(h: real, t: real, m: real, d: real)
    requires h > 0.0 && FitTangent(t, m) && d == 3.0 * h * m
    ensures m >= 0.0 ==> 0.0 <= h * t <= d
    ensures m <= 0.0 ==> d <= h * t <= 0.0
  {
    assert h * (3.0 * m - t) == d - h * t;
    if m >= 0.0 {
      MulNonNeg(h, t);
      MulNonNeg(h, 3.0 * m - t);
    }
    if m <= 0.0 {
      MulNonNeg(h, -t);
      MulNonNeg(h, t - 3.0 * m);
      assert h * -t == -(h * t) && h * (t - 3.0 * m) == -(h * (3.0 * m - t));
    }
  }

  lemma BezierOfNegated(p0: real, p1: real, p2: real, p3: real, s: real)
    ensures Bezier(-p0, -p1, -p2, -p3, s) == -Bezier(p0, p1, p2, p3, s)
  {
    var r := 1.0 - s;
    var u, v, w, z := r * r * r, 3.0 * r * r * s, 3.0 * r * s * s, s * s * s;
    assert u * -p0 + v * -p1 + w * -p2 + z * -p3 == -(u * p0 + v * p1 + w * p2 + z * p3);
  }

  lemma SlopeTimesWidth(xs: seq<real>, ys: seq<real>, i: nat)
    requires Plottable(xs, ys) && i + 1 < |xs|
    ensures 3.0 * ((xs[i + 1] - xs[i]) / 3.0) * Slope(xs, ys, i) == ys[i + 1] - ys[i]
    ensures ys[i] <= ys[i + 1] ==> Slope(xs, ys, i) >= 0.0
    ensures ys[i] >= ys[i + 1] ==> Slope(xs, ys, i) <= 0.0
  {
    SignOfQuotient(ys[i + 1] - ys[i], xs[i + 1] - xs[i]);
  }

  lemma SignOfQuotient(d: real, w: real)
    requires w > 0.0
    ensures d / w * w == d
    ensures d >= 0.0 ==> d / w >= 0.0
    ensures d <= 0.0 ==> d / w <= 0.0
  {
    var q := d / w;
    if d > 0.0 { DivPos(d, w); }
    if d < 0.0 {
      DivPos(-d, w);
      assert -q * w == -d;
      DivIs(-d, w, -q);
    }
    if d == 0.0 { DivIs(d, w, 0.0); }
  }

  /** Between two data points the curve rises, or falls, all the way with them. */
  lemma PieceIsMonotone(xs: seq<real>, ys: seq<real>, i: nat, s: real, t: real)
    requires Plottable(xs, ys) && i + 1 < |xs| && 0.0 <= s <= t <= 1.0
    ensures ys[i] <= ys[i + 1] ==> CurveY(xs, ys, i, s) <= CurveY(xs, ys, i, t)
    ensures ys[i] >= ys[i + 1] ==> CurveY(xs, ys, i, s) >= CurveY(xs, ys, i, t)
  {
    hide Bezier, TangentAt;
    TangentsFit(xs, ys, i);
    SlopeTimesWidth(xs, ys, i);
    var h := (xs[i + 1] - xs[i]) / 3.0;
    var y, m, t0, t1 := ys[i], Slope(xs, ys, i), TangentAt(xs, ys, i), TangentAt(xs, ys, i + 1);
    var a, b, d := h * t0, h * t1, ys[i + 1] - ys[i];
    CurveYByOffsets(xs, ys, i, s, a, b, d);
    CurveYByOffsets(xs, ys, i, t, a, b, d);
    OffsetFits(h, t0, m, d);
    OffsetFits(h, t1, m, d);
    if ys[i] <= ys[i + 1] { RisingSegment(y, a, b, d, s, t); }
    if ys[i] >= ys[i + 1] { FallingSegment(y, a, b, d, s, t); }
  }

  /** The upside-down case of a rising segment. */
  lemma FallingSegment(y: real, a: real, b: real, d: real, s: real, t: real)
    requires d <= a <= 0.0 && d <= b <= 0.0 && 0.0 <= s <= t <= 1.0
    ensures Bezier(y, y + a, y + d - b, y + d, s) >= Bezier(y, y + a, y + d - b, y + d, t)
  {
    hide Bezier;
    RisingSegment(-y, -a, -b, -d, s, t);
    assert -y + -a == -(y + a) && -y + -d - -b == -(y + d - b) && -y + -d == -(y + d);
    BezierOfNegated(y, y + a, y + d - b, y + d, s);
    BezierOfNegated(y, y + a, y + d - b, y + d, t);
  }

  lemma CurveYByOffsets(xs: seq<real>, ys: seq<real>, i: nat, s: real, a: real, b: real, d: real)
    requires Plottable(xs, ys) && i + 1 < |xs|
    requires a == (xs[i + 1] - xs[i]) / 3.0 * TangentAt(xs, ys, i)
    requires b == (xs[i + 1] - xs[i]) / 3.0 * TangentAt(xs, ys, i + 1)
    requires d == ys[i + 1] - ys[i]
    ensures CurveY(xs, ys, i, s) == Bezier(ys[i], ys[i] + a, ys[i] + d - b, ys[i] + d, s)
  {
    hide Bezier, TangentAt;
    assert ys[i] + d == ys[i + 1] && ys[i] + d - b == ys[i + 1] - b;
  }

  lemma BezierEnds(p0: real, p1: real, p2: real, p3: real)
    ensures Bezier(p0, p1, p2, p3, 0.0) == p0 && Bezier(p0, p1, p2, p3, 1.0) == p3
  {
  }

  /** No overshoot: the curve passes through the data and stays between neighbouring data values. */
  lemma NoOvershoot(xs: seq<real>, ys: seq<real>, i: nat, s: real)
    requires Plottable(xs, ys) && i + 1 < |xs| && 0.0 <= s <= 1.0
    ensures CurveY(xs, ys, i, 0.0) == ys[i] && CurveY(xs, ys, i, 1.0) == ys[i + 1]
    ensures ys[i] <= ys[i + 1] ==> ys[i] <= CurveY(xs, ys, i, s) <= ys[i + 1]
    ensures ys[i] >= ys[i + 1] ==> ys[i] >= CurveY(xs, ys, i, s) >= ys[i + 1]
  {
    hide Bezier, Tangent;
    var p := Piece(xs, ys, i);
    BezierEnds(ys[i], p.y1, p.y2, p.y);
    PieceIsMonotone(xs, ys, i, 0.0, s);
    PieceIsMonotone(xs, ys, i, s, 1.0);
  }
}
