/** The cycling fitter of `src/utils/powerPrecisionCalculations.ts`: from a Pmax
    sprint, two maximal efforts (severe, threshold) and two optional tests it
    fits the critical-power model (CP, W'), the APR model for short efforts,
    a log-log least-squares power law and the LT1 band, and it formats
    durations for display. */
module PowerFit {
  import opened Wrappers
  import opened RealMath
  import opened Text
  import opened LogLogRegression

  /** Why a fit is refused, in the order the checks run. */
  datatype Reason =
    | PowerOrder          // the severe effort is not more powerful than the threshold effort
    | TimeOrder           // the severe effort is not shorter than the threshold effort
    | NegativeParameters  // CP or W' came out non-positive
    | PmaxNotAboveP3min   // Pmax does not exceed the modelled 3-minute power
    | CollinearPoints     // the log-log regression is degenerate

  /** The APR model P(t) = po3min + apr * e^(-k t). */
  datatype AprParams = AprParams(po3min: real, apr: real, k: real) {
    /** The power the APR model predicts for a duration `t`. */
    function At(T: Transcendentals, t: real): real {
      po3min + apr * Exp(T, Decay(t))
    }

    /** The exponent -k t of the decay at a duration `t`. */
    function Decay(t: real): real {
      -k * t
    }
  }

  /** The power law P(t) = S * t^(E - 1). */
  datatype PowerLawParams = PowerLawParams(S: real, E: real) {
    /** The power the law predicts for a duration `t`: S * t^(E - 1). */
    function At(T: Transcendentals, t: real): real {
      S * Pow(T, t, E - 1.0)
    }
  }

  datatype Lt1Range = Lt1Range(min: real, max: real, estimate: real)

  datatype PowerModels = PowerModels(
    valid: bool,
    reason: Option<Reason>,
    cp: real,
    wPrime: real,
    pMax: real,
    cpPower: real,
    aprParams: AprParams,
    plParams: PowerLawParams,
    lt1Range: Lt1Range,
    vo2maxPower: real)

  /** The arguments of `calculateHighPrecisionPowerModels`. */
  datatype PowerTests = PowerTests(
    pmaxPower: real,
    severePower: real, severeTime: real,
    thresholdPower: real, thresholdTime: real,
    enableShortTest: bool, shortPower: real, shortTime: real,
    enableLongTest: bool, longPower: real, longTime: real)

  const DefaultK: real := 0.026
  const MinK: real := 0.015
  const MaxK: real := 0.05
  /** Below this magnitude the regression denominator counts as zero (1e-12). */
  const CollinearTolerance: real := 0.000000000001

  /** Inputs for which the original stays in finite arithmetic: a positive
      threshold duration, and a positive long-test power when that test is on
      (otherwise `Math.log` would produce NaN). */
  predicate Admissible(x: PowerTests) {
    x.thresholdTime > 0.0 && (x.enableLongTest ==> x.longPower > 0.0)
  }

  /** The refused result: Pmax is echoed, every other number is 0. */
  function Invalid(pMax: real, reason: Reason): (m: PowerModels)
    ensures !m.valid && m.reason == Some(reason) && m.pMax == pMax
    ensures m.cp == 0.0 && m.wPrime == 0.0 && m.cpPower == 0.0 && m.vo2maxPower == 0.0
    ensures m.aprParams == AprParams(0.0, 0.0, 0.0) && m.plParams == PowerLawParams(0.0, 0.0)
    ensures m.lt1Range == Lt1Range(0.0, 0.0, 0.0)
  {
    PowerModels(false, Some(reason), 0.0, 0.0, pMax, 0.0,
      AprParams(0.0, 0.0, 0.0), PowerLawParams(0.0, 0.0), Lt1Range(0.0, 0.0, 0.0), 0.0)
  }

  /** W' from the two maximal efforts (the time order has been checked). */
  function WPrime(x: PowerTests): real
    requires x.severeTime < x.thresholdTime
  {
    (x.severePower - x.thresholdPower) * x.severeTime * x.thresholdTime / (x.thresholdTime - x.severeTime)
  }

  /** CP = severePower - W'/severeTime. A zero severe time gives W' = 0, which is
      refused before CP is used, so 0 stands in for the original's NaN there. */
  function CriticalPower(x: PowerTests): real
    requires x.severeTime < x.thresholdTime
  {
    if x.severeTime == 0.0 then 0.0 else x.severePower - WPrime(x) / x.severeTime
  }

  /** The two-parameter model passes through both maximal efforts. */
  lemma CpWPrimeExact(x: PowerTests)
    requires x.severeTime < x.thresholdTime && x.severeTime != 0.0 && x.thresholdTime != 0.0
    ensures CriticalPower(x) + WPrime(x) / x.severeTime == x.severePower
    ensures CriticalPower(x) + WPrime(x) / x.thresholdTime == x.thresholdPower
  {
    var sp, st, tp, tt := x.severePower, x.severeTime, x.thresholdPower, x.thresholdTime;
    var q := (sp - tp) / (tt - st);
    WPrimeFactored(x);
    ExactAtBoth(sp, tp, q, st, tt, WPrime(x));
  }

  /** W' = (sp - tp)/(tt - st) * (st * tt). */
  lemma WPrimeFactored(x: PowerTests)
    requires x.severeTime < x.thresholdTime
    ensures WPrime(x) == (x.severePower - x.thresholdPower) / (x.thresholdTime - x.severeTime)
      * (x.severeTime * x.thresholdTime)
  {
    var d, st, tt := x.severePower - x.thresholdPower, x.severeTime, x.thresholdTime;
    assert d * st * tt == d * (st * tt);
    DivMul(d, st * tt, tt - st);
  }

  /** With w = q * st * tt and q (tt - st) = sp - tp, the line sp - w/st + w/t
      meets sp at t = st and tp at t = tt. */
  lemma ExactAtBoth(sp: real, tp: real, q: real, st: real, tt: real, w: real)
    requires st != 0.0 && tt != 0.0 && st != tt
    requires q == (sp - tp) / (tt - st) && w == q * (st * tt)
    ensures (sp - w / st) + w / st == sp
    ensures (sp - w / st) + w / tt == tp
  {
    DivUnique(w, st, q * tt);
    DivUnique(w, tt, q * st);
    assert q * (tt - st) == sp - tp;
    assert q * tt - q * st == q * (tt - st);
  }

  /** With positive durations in the right order and the powers in the right
      order, W' is positive. */
  lemma WPrimePositive(x: PowerTests)
    requires 0.0 < x.severeTime < x.thresholdTime && x.severePower > x.thresholdPower
    ensures WPrime(x) > 0.0
  {
    var d, st, tt := x.severePower - x.thresholdPower, x.severeTime, x.thresholdTime;
    MulLeft(d, 0.0, st);
    MulLeft(d * st, 0.0, tt);
    assert d * st * tt > 0.0;
  }

  /** The decay constant of the APR model: 0.026 unless the short test is on,
      lies above the 3-minute power and its normalised excess is in (0, 1); then
      -ln(ratio)/shortTime clamped to [0.015, 0.05]. A zero short time makes the
      original's quotient +Infinity, which the clamp turns into 0.05. */
  function AprK(T: Transcendentals, x: PowerTests, po3min: real, apr: real): (k: real)
    ensures MinK <= k <= MaxK
  {
    if x.enableShortTest && x.shortPower > po3min && apr > 0.0 then
      var ratio := (x.shortPower - po3min) / apr;
      if 0.0 < ratio < 1.0 then
        if x.shortTime == 0.0 then MaxK
        else Clamp(-(1.0 / x.shortTime) * Ln(T, ratio), MinK, MaxK)
      else DefaultK
    else DefaultK
  }

  /** The regression points: severe, threshold, and the long test when it is on,
      below the threshold power and longer than the threshold duration. */
  function RegressionPoints(x: PowerTests): (pts: seq<Point>)
    ensures 2 <= |pts| <= 3
    ensures pts[0] == Point(x.severeTime, x.severePower) && pts[1] == Point(x.thresholdTime, x.thresholdPower)
    ensures |pts| == 3 <==> x.enableLongTest && x.longPower < x.thresholdPower && x.longTime > x.thresholdTime
    ensures |pts| == 3 ==> pts[2] == Point(x.longTime, x.longPower)
  {
    var base := [Point(x.severeTime, x.severePower), Point(x.thresholdTime, x.thresholdPower)];
    if x.enableLongTest && x.longPower < x.thresholdPower && x.longTime > x.thresholdTime then
      base + [Point(x.longTime, x.longPower)]
    else base
  }

  /** The modelled 3-minute power, CP + W'/180. */
  function Po3min(x: PowerTests): real
    requires x.severeTime < x.thresholdTime
  {
    CriticalPower(x) + WPrime(x) / 180.0
  }

  /** The checks of the fitter in the order they run; None when all pass. */
  function FirstFailure(T: Transcendentals, x: PowerTests): (r: Option<Reason>)
    ensures r == None ==> x.severeTime < x.thresholdTime
  {
    if x.severePower <= x.thresholdPower then Some(PowerOrder)
    else if x.severeTime >= x.thresholdTime then Some(TimeOrder)
    else if CriticalPower(x) <= 0.0 || WPrime(x) <= 0.0 then Some(NegativeParameters)
    else if x.pmaxPower <= Po3min(x) then Some(PmaxNotAboveP3min)
    else
      var pts := RegressionPoints(x);
      if Abs(Denominator(|pts|, SumsOf(T, pts))) < CollinearTolerance then Some(CollinearPoints)
      else None
  }

  /** The regression denominator of accepted inputs is not zero. */
  lemma AcceptedDenominator(T: Transcendentals, x: PowerTests)
    requires FirstFailure(T, x) == None
    ensures Denominator(|RegressionPoints(x)|, SumsOf(T, RegressionPoints(x))) != 0.0
  {
  }

  /** S and E: the exponential of the intercept and the slope plus one. */
  function PowerLawOf(T: Transcendentals, n: nat, s: Sums): PowerLawParams
    requires n > 0 && Denominator(n, s) != 0.0
  {
    PowerLawParams(Exp(T, Intercept(n, s)), Slope(n, s) + 1.0)
  }

  /** The power law fitted to the regression points of `x`. */
  function PowerLaw(T: Transcendentals, x: PowerTests): PowerLawParams
    requires Denominator(|RegressionPoints(x)|, SumsOf(T, RegressionPoints(x))) != 0.0
  {
    PowerLawOf(T, |RegressionPoints(x)|, SumsOf(T, RegressionPoints(x)))
  }

  /** The LT1 band from the modelled 30-minute power. */
  function Lt1Of(cp: real, wPrime: real): Lt1Range {
    var p30min := cp + wPrime / 1800.0;
    Lt1Range(p30min * 0.72, p30min * 0.80, p30min * 0.75)
  }

  /** `calculateHighPrecisionPowerModels`, as a function of its inputs. */
  function Fit(T: Transcendentals, x: PowerTests): (m: PowerModels)
    requires Admissible(x)
  {
    match FirstFailure(T, x)
    case Some(reason) => Invalid(x.pmaxPower, reason)
    case None =>
      AcceptedDenominator(T, x);
      var cp, wPrime, po3min := CriticalPower(x), WPrime(x), Po3min(x);
      var apr := x.pmaxPower - po3min;
      PowerModels(true, None, cp, wPrime, x.pmaxPower, cp,
        AprParams(po3min, apr, AprK(T, x, po3min, apr)),
        PowerLaw(T, x), Lt1Of(cp, wPrime), po3min)
  }

  /** The fitter: the same checks and formulas, with the regression sums
      accumulated by a loop over the points. */
  method FitPowerModels(T: Transcendentals, x: PowerTests) returns (m: PowerModels)
    requires Admissible(x)
    ensures m == Fit(T, x)
  {
    if x.severePower <= x.thresholdPower {
      return Invalid(x.pmaxPower, PowerOrder);
    }
    if x.severeTime >= x.thresholdTime {
      return Invalid(x.pmaxPower, TimeOrder);
    }
    var wPrime := WPrime(x);
    var cp := CriticalPower(x);
    if cp <= 0.0 || wPrime <= 0.0 {
      return Invalid(x.pmaxPower, NegativeParameters);
    }
    var po3min := cp + wPrime / 180.0;
    if x.pmaxPower <= po3min {
      return Invalid(x.pmaxPower, PmaxNotAboveP3min);
    }
    var apr := x.pmaxPower - po3min;
    var k := AprK(T, x, po3min, apr);
    var pts := [Point(x.severeTime, x.severePower), Point(x.thresholdTime, x.thresholdPower)];
    if x.enableLongTest && x.longPower < x.thresholdPower && x.longTime > x.thresholdTime {
      pts := pts + [Point(x.longTime, x.longPower)];
    }
    assert pts == RegressionPoints(x);
    var sums := LogLogSums(T, pts);
    var n := |pts|;
    var den := Denominator(n, sums);
    if Abs(den) < CollinearTolerance {
      return Invalid(x.pmaxPower, CollinearPoints);
    }
    m := PowerModels(true, None, cp, wPrime, x.pmaxPower, cp,
      AprParams(po3min, apr, k),
      PowerLawOf(T, n, sums),
      Lt1Of(cp, wPrime),
      po3min);
  }

  /** A refused fit carries its reason, echoes Pmax and zeroes every other
      number; an accepted fit carries no reason. */
  lemma FitResultShape(T: Transcendentals, x: PowerTests)
    requires Admissible(x)
    ensures var m := Fit(T, x);
      && m.pMax == x.pmaxPower
      && (m.valid <==> m.reason == None)
      && (!m.valid ==> m == Invalid(x.pmaxPower, m.reason.value))
  {
  }

  /** The checks run in a fixed order and the first that fails names the
      reason: each reason is given exactly when every earlier check passed
      and its own check failed. */
  lemma FitErrorPrecedence(T: Transcendentals, x: PowerTests)
    requires Admissible(x)
    ensures Fit(T, x).reason == FirstFailure(T, x)
    ensures Fit(T, x).reason == Some(PowerOrder) <==> x.severePower <= x.thresholdPower
    ensures Fit(T, x).reason == Some(TimeOrder) <==>
      x.severePower > x.thresholdPower && x.severeTime >= x.thresholdTime
    ensures Fit(T, x).reason == Some(NegativeParameters) <==>
      x.severePower > x.thresholdPower && x.severeTime < x.thresholdTime
      && (CriticalPower(x) <= 0.0 || WPrime(x) <= 0.0)
    ensures Fit(T, x).reason == Some(PmaxNotAboveP3min) <==>
      x.severePower > x.thresholdPower && x.severeTime < x.thresholdTime
      && CriticalPower(x) > 0.0 && WPrime(x) > 0.0 && x.pmaxPower <= Po3min(x)
    ensures Fit(T, x).reason == Some(CollinearPoints) <==>
      x.severePower > x.thresholdPower && x.severeTime < x.thresholdTime
      && CriticalPower(x) > 0.0 && WPrime(x) > 0.0 && x.pmaxPower > Po3min(x)
      && Abs(Denominator(|RegressionPoints(x)|, SumsOf(T, RegressionPoints(x)))) < CollinearTolerance
  {
  }

  /** An accepted fit: every check passed and the fields are the named parts. */
  lemma FitAccepted(T: Transcendentals, x: PowerTests)
    requires Admissible(x) && Fit(T, x).valid
    ensures FirstFailure(T, x) == None
    ensures var m := Fit(T, x);
      && m.cp == CriticalPower(x) > 0.0 && m.wPrime == WPrime(x) > 0.0
      && m.aprParams.po3min == Po3min(x) < x.pmaxPower
      && m.plParams == PowerLaw(T, x)
      && m.lt1Range == Lt1Of(m.cp, m.wPrime)
  {
  }

  /** With a positive threshold duration, a positive W' needs a positive
      severe duration. */
  lemma SevereTimePositive(x: PowerTests)
    requires 0.0 < x.thresholdTime && x.severeTime < x.thresholdTime && x.severePower > x.thresholdPower
    requires WPrime(x) > 0.0
    ensures x.severeTime > 0.0
  {
    var d, st, tt := x.severePower - x.thresholdPower, x.severeTime, x.thresholdTime;
    var u := d * st;
    assert WPrime(x) == u * tt / (tt - st);
    assert st <= 0.0 ==> u <= 0.0 by {
      if st < 0.0 { MulLeft(d, st, 0.0); }
    }
    assert u <= 0.0 ==> u * tt <= 0.0 by {
      if u < 0.0 { MulLeft(tt, u, 0.0); }
    }
  }

  /** An accepted fit had both maximal efforts at positive durations and
      powers, the severe one shorter and harder. */
  lemma FitTestOrder(T: Transcendentals, x: PowerTests)
    requires Admissible(x) && Fit(T, x).valid
    ensures 0.0 < x.severeTime < x.thresholdTime
    ensures 0.0 < x.thresholdPower < x.severePower
  {
    FitAccepted(T, x);
    SevereTimePositive(x);
    ThresholdPowerPositive(x);
  }

  /** An accepted fit has positive parameters and its CP-W' curve passes
      through both maximal efforts. */
  lemma FitExactAtTests(T: Transcendentals, x: PowerTests)
    requires Admissible(x) && Fit(T, x).valid
    ensures var m := Fit(T, x);
      && m.cp > 0.0 && m.wPrime > 0.0
      && m.cp + m.wPrime / x.severeTime == x.severePower
      && m.cp + m.wPrime / x.thresholdTime == x.thresholdPower
  {
    FitAccepted(T, x);
    FitTestOrder(T, x);
    CpWPrimeExact(x);
  }

  /** CP > 0 forces the threshold power to be positive. */
  lemma ThresholdPowerPositive(x: PowerTests)
    requires 0.0 < x.severeTime < x.thresholdTime && x.severePower > x.thresholdPower
    requires CriticalPower(x) > 0.0
    ensures x.thresholdPower > 0.0
  {
    var w := WPrime(x);
    CpWPrimeExact(x);
    WPrimePositive(x);
    SignOfQuotient(w, x.thresholdTime);
  }

  /** The APR parameters and the derived powers of an accepted fit. */
  lemma FitAprShape(T: Transcendentals, x: PowerTests)
    requires Admissible(x) && Fit(T, x).valid
    ensures var m := Fit(T, x);
      && m.aprParams.po3min == m.cp + m.wPrime / 180.0
      && m.aprParams.apr == m.pMax - m.aprParams.po3min > 0.0
      && m.aprParams.po3min > m.cp > 0.0
      && m.vo2maxPower == m.aprParams.po3min
      && m.cpPower == m.cp
  {
    FitAccepted(T, x);
  }

  /** For a positive `apr`, (s - p)/apr lies in (0, 1) exactly when p < s < p + apr. */
  lemma RatioInUnitInterval(s: real, p: real, apr: real)
    requires apr > 0.0
    ensures 0.0 < (s - p) / apr < 1.0 <==> p < s < p + apr
  {
    SignOfQuotient(s - p, apr);
    SignOfQuotient(s - p - apr, apr);
    QuotientShift(s - p, apr);
  }

  /** k is 0.026 unless the short test is on and its power lies strictly between
      the 3-minute power and Pmax; then it is -ln(ratio)/shortTime clamped to
      [0.015, 0.05]. */
  lemma FitDecayConstant(T: Transcendentals, x: PowerTests)
    requires Admissible(x) && Fit(T, x).valid
    ensures var m := Fit(T, x); var a := m.aprParams;
      && MinK <= a.k <= MaxK
      && (!(x.enableShortTest && a.po3min < x.shortPower < m.pMax) ==> a.k == DefaultK)
      && (x.enableShortTest && a.po3min < x.shortPower < m.pMax && x.shortTime != 0.0 ==>
            a.k == Clamp(-(1.0 / x.shortTime) * Ln(T, (x.shortPower - a.po3min) / a.apr), MinK, MaxK))
  {
    FitAccepted(T, x);
    var m := Fit(T, x);
    var a := m.aprParams;
    assert m.pMax == x.pmaxPower && a.apr == x.pmaxPower - a.po3min && a.k == AprK(T, x, a.po3min, a.apr);
    AprKCases(T, x, a.po3min, a.apr);
  }

  /** The cases of the decay constant for a positive amplitude. */
  lemma AprKCases(T: Transcendentals, x: PowerTests, po3min: real, apr: real)
    requires apr > 0.0
    ensures var k := AprK(T, x, po3min, apr);
      && (!(x.enableShortTest && po3min < x.shortPower < po3min + apr) ==> k == DefaultK)
      && (x.enableShortTest && po3min < x.shortPower < po3min + apr && x.shortTime != 0.0 ==>
            k == Clamp(-(1.0 / x.shortTime) * Ln(T, (x.shortPower - po3min) / apr), MinK, MaxK))
  {
    RatioInUnitInterval(x.shortPower, po3min, apr);
  }

  /** The regression always holds the two maximal efforts, in order of
      duration, and the long test only when it is longer and weaker than the
      threshold effort. */
  lemma FitRegressionPoints(T: Transcendentals, x: PowerTests)
    requires Admissible(x) && Fit(T, x).valid
    ensures var pts := RegressionPoints(x);
      && 2 <= |pts| <= 3
      && (forall i, j :: 0 <= i < j < |pts| ==> pts[i].t < pts[j].t && pts[i].p > pts[j].p)
      && (forall i :: 0 <= i < |pts| ==> pts[i].t > 0.0 && pts[i].p > 0.0)
  {
    FitExactAtTests(T, x);
  }

  /** E - 1 and ln S (the intercept) solve the normal equations of the sums. */
  lemma PowerLawLeastSquares(T: Transcendentals, n: nat, s: Sums)
    requires n > 0 && Denominator(n, s) != 0.0
    ensures PowerLawOf(T, n, s).S == Exp(T, Intercept(n, s))
    ensures SolvesNormalEquations(n, s, PowerLawOf(T, n, s).E - 1.0, Intercept(n, s))
  {
    NormalEquations(n, s);
    assert (Slope(n, s) + 1.0) - 1.0 == Slope(n, s);
  }

  /** The power law of an accepted fit is the least-squares line of ln P on ln t:
      E - 1 and ln S solve the normal equations over the regression points. */
  lemma FitPowerLawLeastSquares(T: Transcendentals, x: PowerTests)
    requires Admissible(x) && Fit(T, x).valid && Lawful(T)
    ensures var pl := Fit(T, x).plParams; var pts := RegressionPoints(x);
      SolvesNormalEquations(|pts|, SumsOf(T, pts), pl.E - 1.0, Ln(T, pl.S))
  {
    FitAccepted(T, x);
    var pts := RegressionPoints(x);
    var s := SumsOf(T, pts);
    PowerLawLeastSquares(T, |pts|, s);
    LnOfExp(T, Intercept(|pts|, s));
  }

  /** The power law fitted to two points with distinct positive durations and
      positive powers passes through both. */
  lemma TwoPointPowerLaw(T: Transcendentals, p: Point, q: Point, n: nat, s: Sums)
    requires Lawful(T) && 0.0 < p.t < q.t && p.p > 0.0 && q.p > 0.0
    requires n == 2 && PairSums(T, p, q, s) && Denominator(n, s) != 0.0
    ensures var pl := PowerLawOf(T, n, s);
      && pl.At(T, p.t) == p.p
      && pl.At(T, q.t) == q.p
  {
    LnIncreasing(T, p.t, q.t);
    TwoPointRegression(T, p, q, n, s);
    PowerLawOfAtBoth(T, n, s, p, q);
  }

  /** The power law of a regression passes through every point that lies on
      the regression line. */
  lemma PowerLawOfAt(T: Transcendentals, n: nat, s: Sums, t: real, p: real)
    requires Lawful(T) && p > 0.0 && n > 0 && Denominator(n, s) != 0.0
    requires Ln(T, p) == Slope(n, s) * Ln(T, t) + Intercept(n, s)
    ensures PowerLawOf(T, n, s).At(T, t) == p
  {
    PowerLawAt(T, PowerLawOf(T, n, s), Slope(n, s), Intercept(n, s), t, p);
  }

  /** The power law of a regression passes through two points on its line. */
  lemma PowerLawOfAtBoth(T: Transcendentals, n: nat, s: Sums, p: Point, q: Point)
    requires Lawful(T) && p.p > 0.0 && q.p > 0.0 && n > 0 && Denominator(n, s) != 0.0
    requires Ln(T, p.p) == Slope(n, s) * Ln(T, p.t) + Intercept(n, s)
    requires Ln(T, q.p) == Slope(n, s) * Ln(T, q.t) + Intercept(n, s)
    ensures PowerLawOf(T, n, s).At(T, p.t) == p.p
    ensures PowerLawOf(T, n, s).At(T, q.t) == q.p
  {
    LineThroughBoth(T, PowerLawOf(T, n, s), Slope(n, s), Intercept(n, s), p, q);
  }

  /** The power law with slope `a` and intercept `b` passes through two points
      that lie on the line ln P = a ln t + b. */
  lemma LineThroughBoth(T: Transcendentals, pl: PowerLawParams, a: real, b: real, p: Point, q: Point)
    requires Lawful(T) && p.p > 0.0 && q.p > 0.0
    requires pl.S == Exp(T, b) && pl.E == a + 1.0
    requires Ln(T, p.p) == a * Ln(T, p.t) + b
    requires Ln(T, q.p) == a * Ln(T, q.t) + b
    ensures pl.At(T, p.t) == p.p && pl.At(T, q.t) == q.p
  {
    PowerLawAt(T, pl, a, b, p.t, p.p);
    PowerLawAt(T, pl, a, b, q.t, q.p);
  }

  /** Without the long test the power law passes exactly through both maximal
      efforts: S * t^(E - 1) = P at the severe and at the threshold duration. */
  lemma FitPowerLawThroughTests(T: Transcendentals, x: PowerTests)
    requires Admissible(x) && Fit(T, x).valid && Lawful(T)
    requires |RegressionPoints(x)| == 2
    ensures var pl := Fit(T, x).plParams;
      && pl.At(T, x.severeTime) == x.severePower
      && pl.At(T, x.thresholdTime) == x.thresholdPower
  {
    FitTestOrder(T, x);
    FitAccepted(T, x);
    PowerLawThroughTests(T, x);
  }

  /** The power law over the two maximal efforts passes through both. */
  lemma PowerLawThroughTests(T: Transcendentals, x: PowerTests)
    requires Lawful(T) && |RegressionPoints(x)| == 2
    requires 0.0 < x.severeTime < x.thresholdTime && 0.0 < x.thresholdPower < x.severePower
    requires Denominator(|RegressionPoints(x)|, SumsOf(T, RegressionPoints(x))) != 0.0
    ensures var pl := PowerLaw(T, x);
      && pl.At(T, x.severeTime) == x.severePower
      && pl.At(T, x.thresholdTime) == x.thresholdPower
  {
    var pts := RegressionPoints(x);
    var p, q := pts[0], pts[1];
    assert p.t == x.severeTime && p.p == x.severePower;
    assert q.t == x.thresholdTime && q.p == x.thresholdPower;
    SumsOfTwo(T, pts);
    TwoPointPowerLaw(T, p, q, |pts|, SumsOf(T, pts));
  }

  /** A point on the log-log line ln P = a ln t + b is a point on the power-law
      curve with S = e^b and E = a + 1. */
  lemma PowerLawAt(T: Transcendentals, pl: PowerLawParams, a: real, b: real, t: real, p: real)
    requires Lawful(T) && p > 0.0
    requires pl.S == Exp(T, b) && pl.E == a + 1.0
    requires Ln(T, p) == a * Ln(T, t) + b
    ensures pl.At(T, t) == p
  {
    var m := a * Ln(T, t);
    ExpOfLine(T, b, m, p);
    assert Pow(T, t, a) == Exp(T, m);
    assert Pow(T, t, pl.E - 1.0) == Pow(T, t, a);
    ProductOfEquals(pl.S, Pow(T, t, pl.E - 1.0), Exp(T, b), Exp(T, m));
  }

  /** e^b * e^m is the number whose logarithm is b + m. */
  lemma ExpOfLine(T: Transcendentals, b: real, m: real, p: real)
    requires Lawful(T) && p > 0.0 && Ln(T, p) == b + m
    ensures Exp(T, b) * Exp(T, m) == p
  {
    ExpAdd(T, b, m);
    assert Exp(T, Ln(T, p)) == p;
  }

  /** The LT1 band of an accepted fit is 72-80% of the modelled 30-minute
      power, with the estimate at 75%, so it is positive and ordered. */
  lemma FitLt1Band(T: Transcendentals, x: PowerTests)
    requires Admissible(x) && Fit(T, x).valid
    ensures var m := Fit(T, x); var p30 := m.cp + m.wPrime / 1800.0;
      && m.lt1Range == Lt1Range(0.72 * p30, 0.80 * p30, 0.75 * p30)
      && 0.0 < m.lt1Range.min < m.lt1Range.estimate < m.lt1Range.max
  {
    FitAccepted(T, x);
  }

  /** What every result of the fitter satisfies: a refused fit is flagged
      invalid, and an accepted one has positive CP and W', a 3-minute power
      between CP and Pmax, a decay constant inside its clamp, a positive power
      law scale and the LT1 band of its CP and W'. The pages that display a
      fit rely on these facts. */
  predicate Consistent(m: PowerModels) {
    m.valid ==>
      && m.cp > 0.0 && m.wPrime > 0.0
      && m.cpPower == m.cp
      && m.aprParams.po3min == m.cp + m.wPrime / 180.0
      && m.aprParams.apr == m.pMax - m.aprParams.po3min > 0.0
      && m.vo2maxPower == m.aprParams.po3min
      && MinK <= m.aprParams.k <= MaxK
      && m.plParams.S > 0.0
      && m.lt1Range == Lt1Of(m.cp, m.wPrime)
  }

  /** Every result of the fitter is consistent. */
  lemma FitConsistent(T: Transcendentals, x: PowerTests)
    requires Admissible(x) && Lawful(T)
    ensures Consistent(Fit(T, x))
  {
    if Fit(T, x).valid {
      FitAccepted(T, x);
      FitAprShape(T, x);
      FitDecayConstant(T, x);
    }
  }

  /** The power of the critical-power model at a duration `t`: CP + W'/t. */
  function CpwAt(m: PowerModels, t: real): real
    requires t != 0.0
  {
    m.cp + m.wPrime / t
  }

  /** The APR curve of an accepted fit falls strictly with duration. */
  lemma AprDecreasing(T: Transcendentals, m: PowerModels, s: real, t: real)
    requires Lawful(T) && Consistent(m) && m.valid && s < t
    ensures m.aprParams.At(T, s) > m.aprParams.At(T, t)
  {
    ExpDecayDecreasing(T, m.aprParams, s, t);
  }

  /** With a positive amplitude and decay, po3min + apr * e^(-k t) falls strictly. */
  lemma ExpDecayDecreasing(T: Transcendentals, a: AprParams, s: real, t: real)
    requires Lawful(T) && a.apr > 0.0 && a.k > 0.0 && s < t
    ensures a.At(T, s) > a.At(T, t)
  {
    MulLeftNegative(-a.k, s, t);
    ExpIncreasing(T, a.Decay(t), a.Decay(s));
    ShiftedScaleOrder(a.po3min, a.apr, Exp(T, a.Decay(t)), Exp(T, a.Decay(s)));
  }

  /** A positive factor and a shift keep a strict order. */
  lemma ShiftedScaleOrder(base: real, c: real, p: real, q: real)
    requires c > 0.0 && p < q
    ensures base + c * p < base + c * q
  {
    MulLeft(c, p, q);
  }

  /** At positive durations the APR curve of an accepted fit lies strictly
      between the 3-minute power and Pmax. */
  lemma AprBetween(T: Transcendentals, m: PowerModels, t: real)
    requires Lawful(T) && Consistent(m) && m.valid && t > 0.0
    ensures m.aprParams.po3min < m.aprParams.At(T, t) < m.pMax
  {
    var a := m.aprParams;
    ExpZero(T);
    MulLeftNegative(-a.k, 0.0, t);
    assert a.Decay(t) < 0.0;
    ExpIncreasing(T, a.Decay(t), 0.0);
    assert 0.0 < Exp(T, a.Decay(t)) < 1.0;
    DecayBetween(T, a, t);
    assert a.po3min + a.apr == m.pMax;
  }

  /** While the exponential lies strictly between 0 and 1 the curve lies
      strictly between its floor and its floor plus the amplitude. */
  lemma DecayBetween(T: Transcendentals, a: AprParams, t: real)
    requires a.apr > 0.0 && 0.0 < Exp(T, a.Decay(t)) < 1.0
    ensures a.po3min < a.At(T, t) < a.po3min + a.apr
  {
    FractionOfAmplitude(a.po3min, a.apr, Exp(T, a.Decay(t)), a.At(T, t));
  }

  /** A floor plus a positive amplitude scaled by a fraction in (0, 1). */
  lemma FractionOfAmplitude(base: real, c: real, e: real, v: real)
    requires c > 0.0 && 0.0 < e < 1.0 && v == base + c * e
    ensures base < v < base + c
  {
    MulLeft(c, e, 1.0);
    MulLeft(c, 0.0, e);
  }

  /** The critical-power curve of an accepted fit falls strictly with
      positive duration and stays above CP. */
  lemma CpwDecreasing(m: PowerModels, s: real, t: real)
    requires Consistent(m) && m.valid && 0.0 < s < t
    ensures CpwAt(m, s) > CpwAt(m, t) > m.cp
  {
    var w := m.wPrime;
    assert w / t * t == w;
    assert w / s * s == w;
    assert w / t < w / s by {
      if w / s <= w / t {
        assert w / s * s <= w / t * s;
        MulLeft(w / t, s, t);
      }
    }
    SignOfQuotient(w, t);
  }

  /** `formatForDisplay.power`: whole watts and a unit. */
  function FormatPower(watts: real): (s: string)
    ensures |s| >= 3 && s[|s| - 2..] == " W"
  {
    IntToString(Round(watts)) + " W"
  }

  /** The power display reads back as the watts rounded to a whole number:
      the digits directly when that is not negative, after a minus sign
      otherwise, in both cases followed by " W". */
  lemma FormatPowerReads(watts: real)
    ensures Round(watts) >= 0 ==> ReadNat(FormatPower(watts)) == Some((Round(watts), " W"))
    ensures Round(watts) < 0 ==>
      FormatPower(watts)[0] == '-' && ReadNat(FormatPower(watts)[1..]) == Some((-Round(watts), " W"))
  {
    var n := Round(watts);
    if n >= 0 {
      ReadNatToString(n, " W");
    } else {
      assert FormatPower(watts)[1..] == NatToString(-n) + " W";
      ReadNatToString(-n, " W");
    }
  }

  /** `formatForDisplay.time` as written: rounded seconds as "Ns", "Mm Ss"
      (or "Mm"), and from one hour on "Hh Mm" (or "Hh") with the minutes
      rounded separately. */
  function FormatDuration(seconds: real): string {
    FormatSeconds(Round(seconds))
  }

  /** The display of a whole number of seconds. */
  function FormatSeconds(sec: int): string {
    if sec < 60 then IntToString(sec) + "s"
    else if sec < 3600 then
      var m, s := sec / 60, sec % 60;
      if s > 0 then NatToString(m) + ("m " + (NatToString(s) + "s")) else NatToString(m) + "m"
    else
      var h := sec / 3600;
      var m := Round((sec % 3600) as real / 60.0);
      if m > 0 then NatToString(h) + ("h " + (IntToString(m) + "m")) else NatToString(h) + "h"
  }

  /** The same display with the hour branch rounding the total to whole
      minutes before splitting it, so the minutes stay below 60. */
  function FormatDurationCorrected(seconds: real): string {
    var sec := Round(seconds);
    if sec < 3600 then FormatSeconds(sec) else FormatMinutes(Round(sec as real / 60.0))
  }

  /** "Hh Mm" (or "Hh") for a whole number of minutes. */
  function FormatMinutes(total: int): string
    requires total >= 0
  {
    var h, m := total / 60, total % 60;
    if m > 0 then NatToString(h) + ("h " + (NatToString(m) + "m")) else NatToString(h) + "h"
  }

  /** Reads a duration display back into seconds: "Ns", "Mm", "Mm Ss", "Hh" or
      "Hh Mm"; None for anything else. */
  function ParseDuration(s: string): Option<int> {
    match ReadNat(s)
    case None => None
    case Some((a, rest)) =>
      if rest == "s" then Some(a)
      else if rest == "m" then Some(60 * a)
      else if rest == "h" then Some(3600 * a)
      else if |rest| >= 2 && rest[1] == ' ' then
        match ReadNat(rest[2..])
        case Some((b, tail)) =>
          if rest[0] == 'm' && tail == "s" then Some(60 * a + b)
          else if rest[0] == 'h' && tail == "m" then Some(3600 * a + 60 * b)
          else None
        case None => None
      else None
  }

  /** A number followed by a one-letter unit reads back as that number of units. */
  lemma ParseSingle(n: nat, unit: char)
    requires unit in "smh"
    ensures ParseDuration(NatToString(n) + [unit])
      == Some(if unit == 's' then n else if unit == 'm' then 60 * n else 3600 * n)
  {
    ReadNatToString(n, [unit]);
  }

  /** "Mm Ss" and "Hh Mm" read back as the total number of seconds. */
  lemma ParsePair(a: nat, unit: char, b: nat, last: char)
    requires (unit == 'm' && last == 's') || (unit == 'h' && last == 'm')
    ensures ParseDuration(NatToString(a) + ([unit, ' '] + (NatToString(b) + [last])))
      == Some(if unit == 'm' then 60 * a + b else 3600 * a + 60 * b)
  {
    var rest := [unit, ' '] + (NatToString(b) + [last]);
    ReadNatToString(a, rest);
    assert rest[2..] == NatToString(b) + [last];
    ReadNatToString(b, [last]);
    ParseAfterNumber(NatToString(a) + rest, a, rest, b, last);
  }

  /** Once the leading number and the text after the unit are read, the
      unit letter and the final letter decide the total. */
  lemma ParseAfterNumber(s: string, a: nat, rest: string, b: nat, last: char)
    requires ReadNat(s) == Some((a, rest))
    requires |rest| >= 3 && rest[0] in "mh" && rest[1] == ' ' && ReadNat(rest[2..]) == Some((b, [last]))
    ensures ParseDuration(s) == (if rest[0] == 'm' && last == 's' then Some(60 * a + b)
      else if rest[0] == 'h' && last == 'm' then Some(3600 * a + 60 * b) else None)
  {
    assert rest != "s" && rest != "m" && rest != "h";
  }

  /** Below one hour the display reads back as the rounded number of seconds. */
  lemma FormatDurationUnderAnHour(seconds: real)
    requires 0 <= Round(seconds) < 3600
    ensures ParseDuration(FormatDuration(seconds)) == Some(Round(seconds))
  {
    FormatSecondsUnderAnHour(Round(seconds));
  }

  lemma FormatSecondsUnderAnHour(sec: int)
    requires 0 <= sec < 3600
    ensures ParseDuration(FormatSeconds(sec)) == Some(sec)
  {
    if sec < 60 {
      ParseSingle(sec, 's');
    } else {
      var m, s := sec / 60, sec % 60;
      if s > 0 {
        ParsePair(m, 'm', s, 's');
      } else {
        ParseSingle(m, 'm');
      }
    }
  }

  /** As written, 1 h 59 min 30 s is shown as "1h 60m". */
  lemma FormatDurationSixtyMinutes()
    ensures FormatDuration(7170.0) == "1h 60m"
    ensures ParseDuration(FormatDuration(7170.0)) == Some(7200)
  {
    assert Round(7170.0) == 7170;
    SixtyMinutesShown();
    ParsePair(1, 'h', 60, 'm');
  }

  lemma SixtyMinutesShown()
    ensures FormatSeconds(7170) == NatToString(1) + ("h " + (NatToString(60) + "m"))
    ensures NatToString(1) + ("h " + (NatToString(60) + "m")) == "1h 60m"
  {
    assert Round(3570 as real / 60.0) == 60;
    assert NatToString(1) == "1";
    assert NatToString(60) == "60" by {
      assert NatToString(6) == "6";
    }
  }

  /** The corrected display reads back as a whole number of hours and minutes
      within 30 s of the rounded duration, and its minutes field is below 60. */
  lemma FormatDurationCorrectedNearest(seconds: real)
    requires Round(seconds) >= 3600
    ensures var v := ParseDuration(FormatDurationCorrected(seconds));
      && v.Some? && v.value % 60 == 0
      && Round(seconds) - 30 <= v.value <= Round(seconds) + 30
  {
    var sec := Round(seconds);
    MinutesNearest(sec);
    assert FormatDurationCorrected(seconds) == FormatMinutes(Round(sec as real / 60.0));
  }

  /** The same, for a whole number of seconds. */
  lemma MinutesNearest(sec: int)
    requires sec >= 3600
    ensures var v := ParseDuration(FormatMinutes(Round(sec as real / 60.0)));
      && v.Some? && v.value % 60 == 0
      && sec - 30 <= v.value <= sec + 30
  {
    var total := Round(sec as real / 60.0);
    NearestMinute(sec);
    FormatMinutesReads(total);
    assert (60 * total) % 60 == 0;
  }

  /** A whole number of minutes reads back as that many minutes in seconds. */
  lemma FormatMinutesReads(total: int)
    requires total >= 0
    ensures ParseDuration(FormatMinutes(total)) == Some(60 * total)
  {
    var h, m := total / 60, total % 60;
    assert 3600 * h + 60 * m == 60 * total;
    if m > 0 {
      assert FormatMinutes(total) == NatToString(h) + ("h " + (NatToString(m) + "m"));
      ParsePair(h, 'h', m, 'm');
    } else {
      assert FormatMinutes(total) == NatToString(h) + "h";
      ParseSingle(h, 'h');
    }
  }

  /** Rounding a number of seconds to whole minutes moves it by at most 30 s. */
  lemma NearestMinute(sec: int)
    requires sec >= 3600
    ensures var total := Round(sec as real / 60.0);
      total >= 60 && sec - 30 < 60 * total <= sec + 30
  {
    RoundBounds(sec as real / 60.0);
  }
}
