/** The cycling model-parameters panel: the values it derives from an
    accepted fit and a body weight (P50min, the 5-minute power, the VO2max
    estimate, the rounded LT1 bounds) and their per-kilogram conversions. */
module ModelParameters {
  import opened Wrappers
  import opened RealMath
  import opened PowerFit
  import AthleteCard

  /** P50min: the power-law power at 50 minutes. */
  function P50min(T: Transcendentals, m: PowerModels): real {
    m.plParams.At(T, 3000.0)
  }

  /** The VO2max estimate in ml/kg/min from the 5-minute CP-W' power. */
  function Vo2Relative(m: PowerModels, bodyWeight: real): real
    requires bodyWeight != 0.0
  {
    7.44 * (CpwAt(m, 300.0) / bodyWeight) + 27.51
  }

  /** A value per kilogram of body weight. */
  function PerKilogram(x: real, bodyWeight: real): (r: real)
    requires bodyWeight > 0.0
    ensures r * bodyWeight == x
    ensures r > 0.0 <==> x > 0.0
  {
    SignOfQuotient(x, bodyWeight);
    x / bodyWeight
  }

  /** What the panel derives. */
  datatype Derived = Derived(
    p50min: real, p5min: real, vo2Relative: real, vo2Absolute: real,
    lt1Min: int, lt1Max: int,
    pmaxRelative: real, mapRelative: real, mmssMinRelative: real, mmssMaxRelative: real,
    lt1MinRelative: real, lt1MaxRelative: real)

  /** The panel's values, or None (the invalid-data card) for a refused fit. */
  function Parameters(T: Transcendentals, m: PowerModels, bodyWeight: real): (r: Option<Derived>)
    requires bodyWeight > 0.0
    ensures r.Some? <==> m.valid
  {
    if !m.valid then None
    else
      var p50 := P50min(T, m);
      var vo2 := Vo2Relative(m, bodyWeight);
      var lt1Min, lt1Max := Round(m.lt1Range.min), Round(m.lt1Range.max);
      Some(Derived(p50, CpwAt(m, 300.0), vo2, vo2 * bodyWeight / 1000.0, lt1Min, lt1Max,
                   PerKilogram(m.pMax, bodyWeight), PerKilogram(m.aprParams.po3min, bodyWeight),
                   PerKilogram(p50, bodyWeight), PerKilogram(m.cp, bodyWeight),
                   PerKilogram(lt1Min as real, bodyWeight), PerKilogram(lt1Max as real, bodyWeight)))
  }

  /** On the panel of an accepted fit P50min is the power-law power at 3000 s,
      the 5-minute power is the CP-W' power at 300 s, the VO2max estimate is
      7.44 times that power per kilogram plus 27.51, the absolute VO2max in
      L/min depends on the body weight only through the 27.51 intercept, and
      the LT1 bounds are the band's ends rounded to whole watts, still in
      order. */
  lemma ParametersFacts(T: Transcendentals, m: PowerModels, bodyWeight: real)
    requires Consistent(m) && m.valid && bodyWeight > 0.0
    ensures var d := Parameters(T, m, bodyWeight).value;
      && d.p50min == m.plParams.At(T, 3000.0) == P50min(T, m)
      && d.p5min == m.cp + m.wPrime / 300.0
      && d.vo2Relative == 7.44 * (d.p5min / bodyWeight) + 27.51
      && d.vo2Absolute == (7.44 * d.p5min + 27.51 * bodyWeight) / 1000.0
      && d.lt1Min == Round(m.lt1Range.min) && d.lt1Max == Round(m.lt1Range.max)
      && d.lt1Min <= d.lt1Max
  {
    var d := Parameters(T, m, bodyWeight).value;
    var bw := bodyWeight;
    var p5 := m.cp + m.wPrime / 300.0;
    assert d.p5min == p5 && d.vo2Relative == 7.44 * (p5 / bw) + 27.51;
    assert d.vo2Absolute == d.vo2Relative * bw / 1000.0;
    Vo2AbsoluteOf(d.vo2Absolute, d.vo2Relative, d.p5min, bw);
    assert d.lt1Min == Round(m.lt1Range.min) && d.lt1Max == Round(m.lt1Range.max);
    RoundMonotone(m.lt1Range.min, m.lt1Range.max);
  }

  /** Every relative value on the panel times the body weight gives back its
      absolute value, the LT1 ones after rounding. */
  lemma RelativeValues(T: Transcendentals, m: PowerModels, bodyWeight: real)
    requires m.valid && bodyWeight > 0.0
    ensures var d := Parameters(T, m, bodyWeight).value;
      && d.pmaxRelative * bodyWeight == m.pMax
      && d.mapRelative * bodyWeight == m.aprParams.po3min
      && d.mmssMinRelative * bodyWeight == d.p50min
      && d.mmssMaxRelative * bodyWeight == m.cp
      && d.lt1MinRelative * bodyWeight == d.lt1Min as real
      && d.lt1MaxRelative * bodyWeight == d.lt1Max as real
  {
  }

  /** For an accepted fit Pmax, the 3-minute power and CP are shown per
      kilogram in decreasing order. */
  lemma RelativeOrder(T: Transcendentals, m: PowerModels, bodyWeight: real)
    requires Consistent(m) && m.valid && bodyWeight > 0.0
    ensures var d := Parameters(T, m, bodyWeight).value;
      d.pmaxRelative > d.mapRelative > d.mmssMaxRelative > 0.0
  {
    var d := Parameters(T, m, bodyWeight).value;
    var bw := bodyWeight;
    assert d.pmaxRelative == PerKilogram(m.pMax, bw) && d.mapRelative == PerKilogram(m.aprParams.po3min, bw);
    assert d.mmssMaxRelative == PerKilogram(m.cp, bw);
    assert m.pMax > m.aprParams.po3min > m.cp > 0.0;
    AthleteCard.PerKgOrder(m.aprParams.po3min, m.pMax, bw);
    AthleteCard.PerKgOrder(m.cp, m.aprParams.po3min, bw);
  }

  /** A value per kilogram times the weight is the value. */
  lemma PerWeight(x: real, bw: real)
    requires bw != 0.0
    ensures x / bw * bw == x
  {
  }

  /** An absolute VO2max of (7.44 p/w + 27.51) w / 1000 is (7.44 p + 27.51 w) / 1000. */
  lemma Vo2AbsoluteOf(a: real, v: real, p5: real, bw: real)
    requires bw != 0.0 && v == 7.44 * (p5 / bw) + 27.51 && a == v * bw / 1000.0
    ensures a == (7.44 * p5 + 27.51 * bw) / 1000.0
  {
    Vo2Absolute(p5, bw);
  }

  lemma Vo2Absolute(p5: real, bw: real)
    requires bw != 0.0
    ensures (7.44 * (p5 / bw) + 27.51) * bw / 1000.0 == (7.44 * p5 + 27.51 * bw) / 1000.0
  {
    PerWeight(p5, bw);
    assert (7.44 * (p5 / bw) + 27.51) * bw == 7.44 * (p5 / bw * bw) + 27.51 * bw;
  }

  /** The VO2max estimate rises with the 5-minute power and falls with body
      weight, never below the 27.51 intercept. */
  lemma Vo2Monotone(m: PowerModels, n: PowerModels, light: real, heavy: real)
    requires Consistent(m) && m.valid && Consistent(n) && n.valid
    requires 0.0 < light < heavy
    ensures Vo2Relative(m, light) > Vo2Relative(m, heavy) > 27.51
    ensures CpwAt(m, 300.0) < CpwAt(n, 300.0) ==> Vo2Relative(m, light) < Vo2Relative(n, light)
  {
    var p, q := CpwAt(m, 300.0), CpwAt(n, 300.0);
    assert p > 0.0 by { CpwDecreasing(m, 300.0, 600.0); }
    DivDecreasing(p, light, heavy);
    if p < q {
      assert p / light < q / light by {
        MulLeft(1.0 / light, p, q);
        assert p / light == (1.0 / light) * p && q / light == (1.0 / light) * q;
      }
    }
  }

  /** When the power law does not rise (E <= 1), P50min lies between the
      power-law powers at 20 and 60 minutes that the athlete card uses. */
  lemma P50minBetween(T: Transcendentals, m: PowerModels)
    requires Lawful(T) && Consistent(m) && m.valid && m.plParams.E <= 1.0
    ensures m.plParams.At(T, 3600.0) <= P50min(T, m) <= m.plParams.At(T, 1200.0)
  {
    AthleteCard.PowerLawNotIncreasing(T, m.plParams, 1200.0, 3000.0);
    AthleteCard.PowerLawNotIncreasing(T, m.plParams, 3000.0, 3600.0);
  }
}
