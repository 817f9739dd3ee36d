/** The running fitter of `src/utils/precisionCalculations.ts`: from two
    maximal efforts (severe, threshold) and an optional long test it fits the
    critical-speed model (CS, D'), derives the CS and VO2max paces, fits a
    log-log power law for speed on points synthesised from the CS-D' model
    (plus the long test), and derives the LT1 pace band with a rule that
    depends on the power-law exponent. */
module RunningFit {
  import opened Wrappers
  import opened RealMath
  import opened LogLogRegression

  /** Why a fit is refused, in the order the checks run. */
  datatype Reason =
    | NonPositiveTime     // a test duration is not positive
    | TimeOrder           // the severe effort is not shorter than the threshold effort
    | DistanceOrder       // the severe effort is not shorter in distance
    | NegativeParameters  // CS or D' came out non-positive
    | TooFewPoints        // fewer than two regression points
    | CollinearPoints     // the log-log regression is degenerate

  /** The speed power law v(t) = A * t^k (A = S, k = E - 1). */
  datatype RunningPowerLaw = RunningPowerLaw(A: real, k: real) {
    /** The speed the law predicts for a duration `t`. */
    function SpeedAt(T: Transcendentals, t: real): real {
      A * Pow(T, t, k)
    }
  }

  /** The LT1 band as paces in seconds per kilometre. */
  datatype PaceRange = PaceRange(min: real, max: real, estimate: real)

  datatype RunningModels = RunningModels(
    valid: bool,
    reason: Option<Reason>,
    cs: real,
    dPrime: real,
    csPace: real,
    plParams: RunningPowerLaw,
    lt1Range: PaceRange,
    vo2maxPace: real)

  /** The arguments of `calculateHighPrecisionModels`; the long distance is a
      text field in kilometres, here already read by `parseFloat` (None when
      it does not start with a number). */
  datatype RunningTests = RunningTests(
    severeDistance: real, severeTime: real,
    thresholdDistance: real, thresholdTime: real,
    enableLongTest: bool, longDistanceKm: Option<real>, longTime: real)

  /** Below this magnitude the regression denominator counts as zero (1e-15). */
  const CollinearTolerance: real := 0.000000000000001

  /** The durations at which the CS-D' model is sampled for the regression. */
  const SampleDurations: seq<real> := [300.0, 600.0, 900.0]

  /** Inputs for which the original stays in finite arithmetic: when the long
      test is used, its distance reads as a positive number. */
  predicate Admissible(x: RunningTests) {
    x.enableLongTest && x.longTime > 1200.0 ==> x.longDistanceKm.Some? && x.longDistanceKm.value > 0.0
  }

  /** The refused result: every number is 0. */
  function Invalid(reason: Reason): (m: RunningModels)
    ensures !m.valid && m.reason == Some(reason)
    ensures m.cs == 0.0 && m.dPrime == 0.0 && m.csPace == 0.0 && m.vo2maxPace == 0.0
    ensures m.plParams == RunningPowerLaw(0.0, 0.0) && m.lt1Range == PaceRange(0.0, 0.0, 0.0)
  {
    RunningModels(false, Some(reason), 0.0, 0.0, 0.0, RunningPowerLaw(0.0, 0.0), PaceRange(0.0, 0.0, 0.0), 0.0)
  }

  /** CS: the slope of distance against time between the two efforts. */
  function CriticalSpeed(x: RunningTests): real
    requires x.severeTime < x.thresholdTime
  {
    (x.thresholdDistance - x.severeDistance) / (x.thresholdTime - x.severeTime)
  }

  /** D': the distance intercept of the CS line. */
  function DPrime(x: RunningTests): real
    requires x.severeTime < x.thresholdTime
  {
    x.severeDistance - CriticalSpeed(x) * x.severeTime
  }

  /** The CS-D' line passes through both maximal efforts. */
  lemma CsLineExact(x: RunningTests)
    requires x.severeTime < x.thresholdTime
    ensures CriticalSpeed(x) * x.severeTime + DPrime(x) == x.severeDistance
    ensures CriticalSpeed(x) * x.thresholdTime + DPrime(x) == x.thresholdDistance
  {
    var cs := CriticalSpeed(x);
    assert cs * (x.thresholdTime - x.severeTime) == x.thresholdDistance - x.severeDistance;
  }

  /** Once both orders hold, CS is positive. */
  lemma CriticalSpeedPositive(x: RunningTests)
    requires x.severeTime < x.thresholdTime && x.severeDistance < x.thresholdDistance
    ensures CriticalSpeed(x) > 0.0
  {
    SignOfQuotient(x.thresholdDistance - x.severeDistance, x.thresholdTime - x.severeTime);
  }

  /** The speed of the CS-D' model over a duration `t`: (CS t + D') / t. */
  function ModelSpeed(cs: real, dPrime: real, t: real): real
    requires t != 0.0
  {
    (cs * t + dPrime) / t
  }

  /** The model speed is CS plus D'/t, so with D' > 0 it falls strictly with
      duration and stays above CS. */
  lemma ModelSpeedDecreasing(cs: real, dPrime: real, s: real, t: real)
    requires dPrime > 0.0 && 0.0 < s < t
    ensures ModelSpeed(cs, dPrime, s) == cs + dPrime / s
    ensures ModelSpeed(cs, dPrime, s) > ModelSpeed(cs, dPrime, t) > cs
  {
    DivUnique(cs * s + dPrime, s, cs + dPrime / s);
    DivUnique(cs * t + dPrime, t, cs + dPrime / t);
    DivDecreasing(dPrime, s, t);
  }

  /** The synthesised regression points: one per duration, at the model speed. */
  function ModelPoints(cs: real, dPrime: real, durations: seq<real>): (pts: seq<Point>)
    requires forall i :: 0 <= i < |durations| ==> durations[i] > 0.0
    ensures |pts| == |durations|
    ensures forall i :: 0 <= i < |pts| ==> pts[i] == Point(durations[i], ModelSpeed(cs, dPrime, durations[i]))
  {
    if durations == [] then []
    else
      var last := durations[|durations| - 1];
      ModelPoints(cs, dPrime, durations[..|durations| - 1]) + [Point(last, ModelSpeed(cs, dPrime, last))]
  }

  /** Whether the long test adds a point: it is on and lasts over 20 minutes. */
  predicate UsesLongTest(x: RunningTests) {
    x.enableLongTest && x.longTime > 1200.0
  }

  /** The long-test point: the distance in metres over the duration. */
  function LongPoint(x: RunningTests): Point
    requires Admissible(x) && UsesLongTest(x)
  {
    Point(x.longTime, x.longDistanceKm.value * 1000.0 / x.longTime)
  }

  /** The regression points: the model at 5, 10 and 15 minutes, then the
      long test when it is used. */
  function RegressionPoints(x: RunningTests, cs: real, dPrime: real): seq<Point>
    requires Admissible(x)
  {
    var base := ModelPoints(cs, dPrime, SampleDurations);
    if UsesLongTest(x) then base + [LongPoint(x)] else base
  }

  /** CS pace: seconds per kilometre at CS. */
  function CsPace(cs: real): real
    requires cs != 0.0
  {
    1000.0 / cs
  }

  /** VO2max pace: seconds per kilometre over the distance the CS-D' model
      covers in 3 minutes. */
  function Vo2maxPace(cs: real, dPrime: real): real
    requires cs * 180.0 + dPrime != 0.0
  {
    180.0 * 1000.0 / (cs * 180.0 + dPrime)
  }

  /** The VO2max pace is the pace that covers the 3-minute model distance in
      180 s, and with D' > 0 it is faster (smaller) than the CS pace. */
  lemma Vo2maxFasterThanCs(cs: real, dPrime: real)
    requires cs > 0.0 && dPrime > 0.0
    ensures Vo2maxPace(cs, dPrime) * (cs * 180.0 + dPrime) == 180000.0
    ensures 0.0 < Vo2maxPace(cs, dPrime) < CsPace(cs)
  {
    var d := cs * 180.0 + dPrime;
    var c := CsPace(cs);
    assert c * (cs * 180.0) == 180000.0 by {
      assert c * cs == 1000.0;
    }
    DivUnique(180000.0, cs * 180.0, c);
    DivDecreasing(180000.0, cs * 180.0, d);
  }

  /** The LT1 pace band: 84% of CS as the upper speed when E > 0.90, 80%
      otherwise, the lower speed 96% of the upper; paces are 1000/speed and
      the estimate is the middle of the band. */
  function Lt1Of(cs: real, E: real): PaceRange
    requires cs > 0.0
  {
    var upper := if E > 0.90 then cs * 0.84 else cs * 0.80;
    var lower := upper * 0.96;
    var minPace, maxPace := 1000.0 / upper, 1000.0 / lower;
    PaceRange(minPace, maxPace, (minPace + maxPace) / 2.0)
  }

  /** The band's fastest pace is 1000 s/km over 84% (E > 0.90) or 80% of CS,
      its slowest pace is the fastest over 0.96, and the estimate lies
      strictly between them. */
  lemma Lt1Band(cs: real, E: real)
    requires cs > 0.0
    ensures var r := Lt1Of(cs, E); var f := if E > 0.90 then 0.84 else 0.80;
      && r.min * (cs * f) == 1000.0
      && r.max * 0.96 == r.min
      && 0.0 < r.min < r.estimate < r.max
  {
    var r := Lt1Of(cs, E);
    var upper := if E > 0.90 then cs * 0.84 else cs * 0.80;
    SignOfQuotient(1000.0, upper);
    assert r.max * (upper * 0.96) == 1000.0;
    assert r.min * upper == 1000.0;
    assert r.max * 0.96 * upper == r.min * upper;
    CancelLeft(upper, r.max * 0.96, r.min);
  }

  /** The checks of the fitter in the order they run; None when all pass. */
  function FirstFailure(T: Transcendentals, x: RunningTests): (r: Option<Reason>)
    requires Admissible(x)
    ensures r == None ==> x.severeTime < x.thresholdTime
  {
    if x.severeTime <= 0.0 || x.thresholdTime <= 0.0 then Some(NonPositiveTime)
    else if x.severeTime >= x.thresholdTime then Some(TimeOrder)
    else if x.severeDistance >= x.thresholdDistance then Some(DistanceOrder)
    else if CriticalSpeed(x) <= 0.0 || DPrime(x) <= 0.0 then Some(NegativeParameters)
    else
      var pts := RegressionPoints(x, CriticalSpeed(x), DPrime(x));
      if |pts| < 2 then Some(TooFewPoints)
      else if Abs(Denominator(|pts|, SumsOf(T, pts))) < CollinearTolerance then Some(CollinearPoints)
      else None
  }

  /** `calculateHighPrecisionModels`, as a function of its inputs. */
  function Fit(T: Transcendentals, x: RunningTests): (m: RunningModels)
    requires Admissible(x)
  {
    match FirstFailure(T, x)
    case Some(reason) => Invalid(reason)
    case None =>
      var cs, dPrime := CriticalSpeed(x), DPrime(x);
      var pts := RegressionPoints(x, cs, dPrime);
      var n, sums := |pts|, SumsOf(T, pts);
      var E := Slope(n, sums) + 1.0;
      RunningModels(true, None, cs, dPrime, CsPace(cs),
        RunningPowerLaw(Exp(T, Intercept(n, sums)), E - 1.0),
        Lt1Of(cs, E), Vo2maxPace(cs, dPrime))
  }

  /** The fitter: the same checks and formulas, with the synthesised points
      pushed by a loop over the sample durations and the regression sums
      accumulated by a loop over the points. */
  method FitRunningModels(T: Transcendentals, x: RunningTests) returns (m: RunningModels)
    requires Admissible(x)
    ensures m == Fit(T, x)
  {
    if x.severeTime <= 0.0 || x.thresholdTime <= 0.0 {
      return Invalid(NonPositiveTime);
    }
    if x.severeTime >= x.thresholdTime {
      return Invalid(TimeOrder);
    }
    if x.severeDistance >= x.thresholdDistance {
      return Invalid(DistanceOrder);
    }
    var cs := CriticalSpeed(x);
    var dPrime := DPrime(x);
    if cs <= 0.0 || dPrime <= 0.0 {
      return Invalid(NegativeParameters);
    }
    var csPace := 1000.0 / cs;
    var vo2maxPace := 180.0 * 1000.0 / (cs * 180.0 + dPrime);
    var pts := BuildRegressionPoints(x, cs, dPrime);
    if |pts| < 2 {
      return Invalid(TooFewPoints);
    }
    var sums := LogLogSums(T, pts);
    var n := |pts|;
    var denominator := Denominator(n, sums);
    if Abs(denominator) < CollinearTolerance {
      return Invalid(CollinearPoints);
    }
    var slope := Slope(n, sums);
    var intercept := Intercept(n, sums);
    var E := slope + 1.0;
    m := RunningModels(true, None, cs, dPrime, csPace,
      RunningPowerLaw(Exp(T, intercept), E - 1.0), Lt1Of(cs, E), vo2maxPace);
    assert FirstFailure(T, x) == None;
  }

  /** The points of the regression as the fitter builds them: a push per
      sample duration, then the long test. */
  method BuildRegressionPoints(x: RunningTests, cs: real, dPrime: real) returns (pts: seq<Point>)
    requires Admissible(x)
    ensures pts == RegressionPoints(x, cs, dPrime)
  {
    pts := [];
    for i := 0 to |SampleDurations|
      invariant pts == ModelPoints(cs, dPrime, SampleDurations[..i])
    {
      assert SampleDurations[..i + 1][..i] == SampleDurations[..i];
      var duration := SampleDurations[i];
      var distance := cs * duration + dPrime;
      pts := pts + [Point(duration, distance / duration)];
    }
    assert SampleDurations[..3] == SampleDurations;
    if x.enableLongTest {
      if x.longTime > 1200.0 {
        var longDistanceM := x.longDistanceKm.value * 1000.0;
        pts := pts + [Point(x.longTime, longDistanceM / x.longTime)];
      }
    }
  }

  /** A refused fit carries its reason and zeroes every number; an accepted
      fit carries none. */
  lemma FitResultShape(T: Transcendentals, x: RunningTests)
    requires Admissible(x)
    ensures var m := Fit(T, x);
      && (m.valid <==> m.reason == None)
      && (!m.valid ==> m == Invalid(m.reason.value))
  {
  }

  /** The checks run in a fixed order and the first that fails names the
      reason: each reason is given exactly when every earlier check passed
      and its own check failed. CS is always positive once the order checks
      pass, so a non-positive parameter is D'; and the "too few points" check
      can never fire, as at least the three synthesised points are there. */
  lemma FitErrorPrecedence(T: Transcendentals, x: RunningTests)
    requires Admissible(x)
    ensures Fit(T, x).reason == FirstFailure(T, x)
    ensures Fit(T, x).reason == Some(NonPositiveTime) <==> x.severeTime <= 0.0 || x.thresholdTime <= 0.0
    ensures Fit(T, x).reason == Some(TimeOrder) <==> 0.0 < x.severeTime && 0.0 < x.thresholdTime <= x.severeTime
    ensures Fit(T, x).reason == Some(DistanceOrder) <==>
      0.0 < x.severeTime < x.thresholdTime && x.severeDistance >= x.thresholdDistance
    ensures Fit(T, x).reason == Some(NegativeParameters) <==>
      0.0 < x.severeTime < x.thresholdTime && x.severeDistance < x.thresholdDistance
      && (CriticalSpeed(x) <= 0.0 || DPrime(x) <= 0.0)
    ensures 0.0 < x.severeTime < x.thresholdTime && x.severeDistance < x.thresholdDistance ==> CriticalSpeed(x) > 0.0
    ensures Fit(T, x).reason == Some(CollinearPoints) <==>
      0.0 < x.severeTime < x.thresholdTime && x.severeDistance < x.thresholdDistance
      && CriticalSpeed(x) > 0.0 && DPrime(x) > 0.0
      && var pts := RegressionPoints(x, CriticalSpeed(x), DPrime(x));
         Abs(Denominator(|pts|, SumsOf(T, pts))) < CollinearTolerance
    ensures Fit(T, x).reason != Some(TooFewPoints)
  {
    if 0.0 < x.severeTime < x.thresholdTime && x.severeDistance < x.thresholdDistance {
      CriticalSpeedPositive(x);
    }
  }

  /** An accepted fit passed every check: its CS-D' line passes through both
      efforts with CS and D' positive, its CS and VO2max paces are the
      paces at CS and over the 3-minute model distance, and VO2max pace is
      faster than CS pace. */
  lemma FitAccepted(T: Transcendentals, x: RunningTests)
    requires Admissible(x) && Fit(T, x).valid
    ensures var m := Fit(T, x);
      && 0.0 < x.severeTime < x.thresholdTime && x.severeDistance < x.thresholdDistance
      && m.cs == CriticalSpeed(x) > 0.0 && m.dPrime == DPrime(x) > 0.0
      && m.cs * x.severeTime + m.dPrime == x.severeDistance
      && m.cs * x.thresholdTime + m.dPrime == x.thresholdDistance
      && m.csPace * m.cs == 1000.0
      && 0.0 < m.vo2maxPace < m.csPace
  {
    CsLineExact(x);
    Vo2maxFasterThanCs(CriticalSpeed(x), DPrime(x));
  }

  /** The regression of an accepted fit runs on the model at 300, 600 and
      900 s, whose speeds fall strictly and stay above CS, followed by the
      long test exactly when it is on and longer than 20 minutes; so it has
      three or four points with strictly increasing durations. */
  lemma FitRegressionPoints(T: Transcendentals, x: RunningTests)
    requires Admissible(x) && Fit(T, x).valid
    ensures var m := Fit(T, x); var pts := RegressionPoints(x, m.cs, m.dPrime);
      && |pts| == (if UsesLongTest(x) then 4 else 3)
      && (forall i :: 0 <= i < 3 ==> pts[i].t == SampleDurations[i] && pts[i].p == m.cs + m.dPrime / pts[i].t)
      && pts[0].p > pts[1].p > pts[2].p > m.cs
      && (UsesLongTest(x) ==> pts[3] == LongPoint(x))
      && (forall i, j :: 0 <= i < j < |pts| ==> pts[i].t < pts[j].t)
  {
    var m := Fit(T, x);
    FitAccepted(T, x);
    ModelSpeedDecreasing(m.cs, m.dPrime, 300.0, 600.0);
    ModelSpeedDecreasing(m.cs, m.dPrime, 600.0, 900.0);
    ModelSpeedDecreasing(m.cs, m.dPrime, 900.0, 1000.0);
  }

  /** The power law of an accepted fit is the least-squares line of ln v on
      ln t over the regression points: k (= E - 1) and ln A solve the normal
      equations. */
  lemma FitPowerLawLeastSquares(T: Transcendentals, x: RunningTests)
    requires Admissible(x) && Fit(T, x).valid && Lawful(T)
    ensures var m := Fit(T, x); var pts := RegressionPoints(x, m.cs, m.dPrime);
      && m.plParams.A > 0.0
      && SolvesNormalEquations(|pts|, SumsOf(T, pts), m.plParams.k, Ln(T, m.plParams.A))
  {
    var m := Fit(T, x);
    var pts := RegressionPoints(x, m.cs, m.dPrime);
    var n, s := |pts|, SumsOf(T, pts);
    NormalEquations(n, s);
    LnOfExp(T, Intercept(n, s));
    assert (Slope(n, s) + 1.0) - 1.0 == Slope(n, s);
  }

  /** The LT1 band of an accepted fit uses 84% of CS exactly when E = k + 1
      exceeds 0.90, and its estimate lies strictly inside it. */
  lemma FitLt1Band(T: Transcendentals, x: RunningTests)
    requires Admissible(x) && Fit(T, x).valid
    ensures var m := Fit(T, x); var r := m.lt1Range;
      var f := if m.plParams.k + 1.0 > 0.90 then 0.84 else 0.80;
      && r.min * (m.cs * f) == 1000.0
      && r.max * 0.96 == r.min
      && 0.0 < r.min < r.estimate < r.max
  {
    var m := Fit(T, x);
    FitAccepted(T, x);
    var pts := RegressionPoints(x, m.cs, m.dPrime);
    var E := Slope(|pts|, SumsOf(T, pts)) + 1.0;
    assert m.plParams.k + 1.0 == E;
    Lt1Band(m.cs, E);
  }

  /** What every result of the fitter satisfies; the pages that display a
      running fit rely on it. */
  predicate Consistent(m: RunningModels) {
    m.valid ==>
      && m.cs > 0.0 && m.dPrime > 0.0 && m.plParams.A > 0.0
      && m.csPace * m.cs == 1000.0
      && 0.0 < m.vo2maxPace < m.csPace
      && m.lt1Range == Lt1Of(m.cs, m.plParams.k + 1.0)
  }

  /** Every result of the fitter is consistent. */
  lemma FitConsistent(T: Transcendentals, x: RunningTests)
    requires Admissible(x) && Lawful(T)
    ensures Consistent(Fit(T, x))
  {
    var m := Fit(T, x);
    if m.valid {
      FitAccepted(T, x);
      var pts := RegressionPoints(x, m.cs, m.dPrime);
      var E := Slope(|pts|, SumsOf(T, pts)) + 1.0;
      assert m.plParams.k + 1.0 == E;
    }
  }
}
