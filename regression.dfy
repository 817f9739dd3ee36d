/** The least-squares line through points (ln t, ln p) that both fitters use
    to obtain their power laws (`src/utils/powerPrecisionCalculations.ts` and
    `src/utils/precisionCalculations.ts`): the sums accumulated over the points,
    the slope and intercept formulas, and the normal equations they solve. */
module LogLogRegression {
  import opened RealMath

  /** A (duration, value) pair of the regression: power for cycling, speed for
      running. */
  datatype Point = Point(t: real, p: real)

  /** The running sums of the log-log regression. */
  datatype Sums = Sums(sx: real, sy: real, sxy: real, sx2: real, sy2: real)

  function AddPoint(T: Transcendentals, s: Sums, pt: Point): Sums {
    var lx, ly := Ln(T, pt.t), Ln(T, pt.p);
    Sums(s.sx + lx, s.sy + ly, s.sxy + lx * ly, s.sx2 + lx * lx, s.sy2 + ly * ly)
  }

  /** The sums of ln t, ln p, their products and squares over `pts`. */
  function SumsOf(T: Transcendentals, pts: seq<Point>): Sums {
    if pts == [] then Sums(0.0, 0.0, 0.0, 0.0, 0.0)
    else AddPoint(T, SumsOf(T, pts[..|pts| - 1]), pts[|pts| - 1])
  }

  /** The accumulation loop of the regression. */
  method LogLogSums(T: Transcendentals, pts: seq<Point>) returns (s: Sums)
    ensures s == SumsOf(T, pts)
  {
    s := Sums(0.0, 0.0, 0.0, 0.0, 0.0);
    var i := 0;
    while i < |pts|
      invariant 0 <= i <= |pts|
      invariant s == SumsOf(T, pts[..i])
    {
      assert pts[..i + 1][..i] == pts[..i];
      s := AddPoint(T, s, pts[i]);
      i := i + 1;
    }
    assert pts[..i] == pts;
  }

  function Denominator(n: nat, s: Sums): real {
    n as real * s.sx2 - s.sx * s.sx
  }

  /** Least-squares slope of ln p against ln t. */
  function Slope(n: nat, s: Sums): real
    requires Denominator(n, s) != 0.0
  {
    (n as real * s.sxy - s.sx * s.sy) / Denominator(n, s)
  }

  function Intercept(n: nat, s: Sums): real
    requires n > 0 && Denominator(n, s) != 0.0
  {
    (s.sy - Slope(n, s) * s.sx) / n as real
  }

  /** The normal equations of least squares for the line y = a x + b: its
      residuals sum to zero and are uncorrelated with x. */
  predicate SolvesNormalEquations(n: nat, s: Sums, a: real, b: real) {
    && a * s.sx + b * n as real == s.sy
    && a * s.sx2 + b * s.sx == s.sxy
  }

  /** The fitted slope and intercept solve the normal equations. */
  lemma NormalEquations(n: nat, s: Sums)
    requires n > 0 && Denominator(n, s) != 0.0
    ensures SolvesNormalEquations(n, s, Slope(n, s), Intercept(n, s))
  {
    var a, b, nn, den := Slope(n, s), Intercept(n, s), n as real, Denominator(n, s);
    assert a * den == nn * s.sxy - s.sx * s.sy;
    assert b * nn == s.sy - a * s.sx;
    calc {
      nn * (a * s.sx2 + b * s.sx);
      a * (nn * s.sx2) + (b * nn) * s.sx;
      a * (nn * s.sx2) + (s.sy - a * s.sx) * s.sx;
      a * (nn * s.sx2 - s.sx * s.sx) + s.sy * s.sx;
      a * den + s.sy * s.sx;
      nn * s.sxy;
    }
    CancelLeft(nn, a * s.sx2 + b * s.sx, s.sxy);
  }

  lemma CancelLeft(c: real, u: real, v: real)
    requires c != 0.0 && c * u == c * v
    ensures u == v
  {
    assert u == (c * u) / c;
  }

  /** `s` holds the regression sums over the two points `p` and `q`. */
  ghost predicate PairSums(T: Transcendentals, p: Point, q: Point, s: Sums) {
    var x1, y1, x2, y2 := Ln(T, p.t), Ln(T, p.p), Ln(T, q.t), Ln(T, q.p);
    && s.sx == x1 + x2 && s.sy == y1 + y2
    && s.sxy == x1 * y1 + x2 * y2 && s.sx2 == x1 * x1 + x2 * x2
  }

  /** The sums over a sequence of two points. */
  lemma SumsOfTwo(T: Transcendentals, pts: seq<Point>)
    requires |pts| == 2
    ensures PairSums(T, pts[0], pts[1], SumsOf(T, pts))
  {
    var zero := Sums(0.0, 0.0, 0.0, 0.0, 0.0);
    assert pts[..1][..0] == [];
    assert SumsOf(T, pts[..1]) == AddPoint(T, zero, pts[0]);
    assert SumsOf(T, pts) == AddPoint(T, AddPoint(T, zero, pts[0]), pts[1]);
  }

  /** A least-squares line through two points with distinct abscissas passes
      through both of them. */
  lemma TwoPointLine(x1: real, y1: real, x2: real, y2: real, a: real, b: real)
    requires x1 != x2
    requires a * (x1 + x2) + b * 2.0 == y1 + y2
    requires a * (x1 * x1 + x2 * x2) + b * (x1 + x2) == x1 * y1 + x2 * y2
    ensures y1 == a * x1 + b && y2 == a * x2 + b
  {
    var r1, r2 := y1 - a * x1 - b, y2 - a * x2 - b;
    assert r2 == -r1;
    assert x1 * r1 + x2 * r2 == 0.0;
    assert (x1 - x2) * r1 == 0.0;
    ZeroProduct(x1 - x2, r1);
  }

  /** Any solution of the normal equations over two points with distinct
      abscissas is the line through them. */
  lemma TwoPointNormal(x1: real, y1: real, x2: real, y2: real, s: Sums, a: real, b: real)
    requires x1 != x2
    requires s.sx == x1 + x2 && s.sy == y1 + y2
    requires s.sxy == x1 * y1 + x2 * y2 && s.sx2 == x1 * x1 + x2 * x2
    requires SolvesNormalEquations(2, s, a, b)
    ensures y1 == a * x1 + b && y2 == a * x2 + b
  {
    TwoPointLine(x1, y1, x2, y2, a, b);
  }

  /** A least-squares line through two points with distinct ln t passes
      through both of them in log-log coordinates. */
  lemma TwoPointLogLine(T: Transcendentals, p: Point, q: Point, s: Sums, a: real, b: real)
    requires Ln(T, p.t) != Ln(T, q.t)
    requires PairSums(T, p, q, s) && SolvesNormalEquations(2, s, a, b)
    ensures Ln(T, p.p) == a * Ln(T, p.t) + b && Ln(T, q.p) == a * Ln(T, q.t) + b
  {
    TwoPointNormal(Ln(T, p.t), Ln(T, p.p), Ln(T, q.t), Ln(T, q.p), s, a, b);
  }

  /** The regression line over two points with distinct ln t passes through
      both of them. */
  lemma TwoPointRegression(T: Transcendentals, p: Point, q: Point, n: nat, s: Sums)
    requires Ln(T, p.t) != Ln(T, q.t)
    requires n == 2 && PairSums(T, p, q, s) && Denominator(n, s) != 0.0
    ensures Ln(T, p.p) == Slope(n, s) * Ln(T, p.t) + Intercept(n, s)
    ensures Ln(T, q.p) == Slope(n, s) * Ln(T, q.t) + Intercept(n, s)
  {
    NormalEquations(n, s);
    TwoPointLogLine(T, p, q, s, Slope(n, s), Intercept(n, s));
  }
}
