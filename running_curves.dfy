/** The two running models as the pages evaluate them: the CS-D' line
    (distance = CS t + D') and the speed power law (speed = A t^k, so
    distance = A t^(k+1)), each read in both directions. The running
    calculator, tables, report, zones and chart all build on these. */
module RunningCurves {
  import opened Wrappers
  import opened RealMath
  import opened RunningFit

  /** Seventeen minutes: the pages switch from the CS-D' line to the power
      law around this many seconds. */
  const CsLimit: real := 1020.0

  datatype RunningModel = CsDPrime | PowerLaw {
    /** The label shown after the prediction. */
    function Label(): string {
      match this
      case CsDPrime => "CS-D'"
      case PowerLaw => "Power Law"
    }
  }

  /** The distance of the CS-D' model over a duration: CS t + D'. */
  function CsDistance(m: RunningModels, t: real): real {
    m.cs * t + m.dPrime
  }

  /** The duration of the CS-D' model over a distance: (d - D') / CS. */
  function CsDuration(m: RunningModels, d: real): real
    requires m.cs != 0.0
  {
    (d - m.dPrime) / m.cs
  }

  /** The CS-D' duration and distance are inverse to each other. */
  lemma CsRoundTrip(m: RunningModels, d: real, t: real)
    requires m.cs != 0.0
    ensures CsDistance(m, CsDuration(m, d)) == d
    ensures CsDuration(m, CsDistance(m, t)) == t
  {
    DivUnique(CsDistance(m, t) - m.dPrime, m.cs, t);
  }

  /** The distance of the power law over a duration: A t^(k+1). */
  function PowerLawDistance(T: Transcendentals, m: RunningModels, t: real): real {
    m.plParams.A * Pow(T, t, m.plParams.k + 1.0)
  }

  /** The duration of the power law over a distance: (d / A)^(1/(k+1)). With
      k + 1 exactly 0 the original raises to an infinite exponent, which gives
      no finite positive duration; that is None here. */
  function PowerLawDuration(T: Transcendentals, m: RunningModels, d: real): Option<real>
    requires m.plParams.A != 0.0
  {
    if m.plParams.k + 1.0 == 0.0 then None
    else Some(Pow(T, d / m.plParams.A, 1.0 / (m.plParams.k + 1.0)))
  }

  /** Raising to k + 1 multiplies the k-th power by the base. */
  lemma PowSuccessor(T: Transcendentals, x: real, k: real)
    requires Lawful(T) && x > 0.0
    ensures Pow(T, x, k + 1.0) == Pow(T, x, k) * x
  {
    var l := Ln(T, x);
    assert (k + 1.0) * l == k * l + l by { Distribute(k, l); }
    ExpAdd(T, k * l, l);
  }

  lemma Distribute(k: real, l: real)
    ensures (k + 1.0) * l == k * l + l
  {
  }

  lemma Associate(a: real, b: real, c: real)
    ensures a * (b * c) == (a * b) * c
  {
  }

  /** The power-law distance is the predicted speed times the duration. */
  lemma PowerLawDistanceIsSpeedTimesTime(T: Transcendentals, m: RunningModels, t: real)
    requires Lawful(T) && t > 0.0
    ensures PowerLawDistance(T, m, t) == m.plParams.SpeedAt(T, t) * t
  {
    var A, k := m.plParams.A, m.plParams.k;
    assert Pow(T, t, k + 1.0) == Pow(T, t, k) * t by { PowSuccessor(T, t, k); }
    Associate(A, Pow(T, t, k), t);
  }

  /** For a positive scale and exponent k + 1 other than 0, the power-law
      duration of a positive distance is positive and covers that distance. */
  lemma PowerLawDurationCovers(T: Transcendentals, m: RunningModels, d: real)
    requires Lawful(T) && m.plParams.A > 0.0 && m.plParams.k + 1.0 != 0.0
    requires d > 0.0
    ensures PowerLawDuration(T, m, d).Some? && PowerLawDuration(T, m, d).value > 0.0
    ensures PowerLawDistance(T, m, PowerLawDuration(T, m, d).value) == d
  {
    var u := Pow(T, d / m.plParams.A, 1.0 / (m.plParams.k + 1.0));
    assert PowerLawDuration(T, m, d) == Some(u);
    RootCovers(T, m.plParams.A, m.plParams.k + 1.0, d);
    DistanceOfPower(T, m, u, d);
  }

  lemma DistanceOfPower(T: Transcendentals, m: RunningModels, u: real, d: real)
    requires m.plParams.A * Pow(T, u, m.plParams.k + 1.0) == d
    ensures PowerLawDistance(T, m, u) == d
  {
  }

  /** The root (d / A)^(1/e) is positive and A times its e-th power is d. */
  lemma RootCovers(T: Transcendentals, A: real, e: real, d: real)
    requires Lawful(T) && A > 0.0 && e != 0.0 && d > 0.0
    ensures Pow(T, d / A, 1.0 / e) > 0.0 && A * Pow(T, Pow(T, d / A, 1.0 / e), e) == d
  {
    var q := d / A;
    Quotient(d, A);
    Root(T, q, e);
    ProductOfEquals(A, Pow(T, Pow(T, q, 1.0 / e), e), A, q);
  }

  lemma Quotient(d: real, a: real)
    requires d > 0.0 && a > 0.0
    ensures d / a > 0.0 && a * (d / a) == d
  {
    SignOfQuotient(d, a);
  }

  lemma Root(T: Transcendentals, q: real, e: real)
    requires Lawful(T) && q > 0.0 && e != 0.0
    ensures Pow(T, q, 1.0 / e) > 0.0 && Pow(T, Pow(T, q, 1.0 / e), e) == q
  {
    PowPositive(T, q, 1.0 / e);
    PowInverse(T, q, e);
  }

  /** Under the same conditions, the power-law duration of the distance
      covered in a positive time is that time. */
  lemma PowerLawDurationOfDistance(T: Transcendentals, m: RunningModels, t: real)
    requires Lawful(T) && m.plParams.A > 0.0 && m.plParams.k + 1.0 != 0.0
    requires t > 0.0
    ensures PowerLawDuration(T, m, PowerLawDistance(T, m, t)) == Some(t)
  {
    var A, e := m.plParams.A, m.plParams.k + 1.0;
    var p := Pow(T, t, e);
    assert (A * p) / A == p by { MulDivCancel(p, A); }
    assert 1.0 / (1.0 / e) == e by { Reciprocal(e); }
    assert Pow(T, p, 1.0 / e) == t by {
      PowInverse(T, t, 1.0 / e);
    }
    assert PowerLawDistance(T, m, t) == A * p;
    assert PowerLawDistance(T, m, t) / A == p;
  }

  lemma Reciprocal(e: real)
    requires e != 0.0
    ensures 1.0 / (1.0 / e) == e
  {
  }
}
