/** The running pace chart: the CS-D' and power-law readings (pace and
    distance) at a duration, the race paces, the two sampled series, the
    bounds of the pace axis, the tooltip and the distance label. */
module RunningChart {
  import opened Wrappers
  import opened RealMath
  import opened Text
  import opened RunningFit
  import opened RunningCurves
  import Clock

  /** A reading of a curve at a duration: pace in s/km and distance in m. */
  datatype Reading = Reading(pace: real, distance: real)

  // ---------------------------------------------------------------------
  // Readings

  /** `calculateCSModel`: None for a refused fit, a zero CS or D', or a
      non-positive distance; otherwise the CS-D' distance and the pace over
      it. */
  function CsReading(m: RunningModels, t: real): (r: Option<Reading>)
    ensures r.Some? ==> r.value.distance == CsDistance(m, t) > 0.0 && r.value.pace * r.value.distance == t * 1000.0
    ensures Consistent(m) && m.valid && t > 0.0 ==> r.Some?
  {
    if !m.valid || m.cs == 0.0 || m.dPrime == 0.0 then None
    else
      var distance := m.cs * t + m.dPrime;
      if distance <= 0.0 then None else Some(Reading(t * 1000.0 / distance, distance))
  }

  /** `calculatePowerLaw`: the speed A t^k, the distance it covers in t and
      the pace 1000 / speed; None for a refused fit. */
  function PowerLawReading(T: Transcendentals, m: RunningModels, t: real): (r: Option<Reading>)
    requires Lawful(T) && Consistent(m)
    ensures r.Some? <==> m.valid
    ensures r.Some? ==> r.value == AtSpeed(m.plParams.SpeedAt(T, t), t)
    ensures r.Some? && t > 0.0 ==> r.value.distance == PowerLawDistance(T, m, t) > 0.0
  {
    if !m.valid then None
    else
      SpeedFacts(T, m, t);
      Some(AtSpeed(m.plParams.SpeedAt(T, t), t))
  }

  /** The reading of a positive speed held for t seconds: the pace is
      1000 / speed and the distance speed * t. */
  function AtSpeed(velocity: real, t: real): (r: Reading)
    requires velocity > 0.0
    ensures r.pace * velocity == 1000.0 && r.pace > 0.0
  {
    SignOfQuotient(1000.0, velocity);
    Reading(1000.0 / velocity, velocity * t)
  }

  /** The power-law speed of an accepted fit is positive, its reciprocal
      times 1000 is positive, and over a positive time it covers the
      power-law distance. */
  lemma SpeedFacts(T: Transcendentals, m: RunningModels, t: real)
    requires Lawful(T) && Consistent(m) && m.valid
    ensures var v := m.plParams.SpeedAt(T, t);
      && v > 0.0 && 1000.0 / v > 0.0 && (1000.0 / v) * v == 1000.0
      && (t > 0.0 ==> v * t == PowerLawDistance(T, m, t) > 0.0)
  {
    var v := m.plParams.SpeedAt(T, t);
    assert v > 0.0 by {
      PowPositive(T, t, m.plParams.k);
      MulLeft(m.plParams.A, 0.0, Pow(T, t, m.plParams.k));
    }
    SignOfQuotient(1000.0, v);
    if t > 0.0 {
      PowerLawDistanceIsSpeedTimesTime(T, m, t);
      MulLeft(v, 0.0, t);
    }
  }

  /** `calculateRacePace`: the power-law time of the distance, as a pace;
      None for a refused fit or when k + 1 is zero. That time is positive
      and covers the distance. */
  function RacePace(T: Transcendentals, m: RunningModels, d: real): (r: Option<real>)
    requires Lawful(T) && Consistent(m) && d > 0.0
    ensures r.Some? <==> m.valid && m.plParams.k + 1.0 != 0.0
    ensures r.Some? ==>
      var time := PowerLawDuration(T, m, d).value;
      time > 0.0 && PowerLawDistance(T, m, time) == d && r.value * d == time * 1000.0
  {
    if !m.valid then None
    else
      match PowerLawDuration(T, m, d)
      case None => None
      case Some(time) =>
        PowerLawDurationCovers(T, m, d);
        PaceTimesDistance(time, d);
        Some(time * 1000.0 / d)
  }

  lemma PaceTimesDistance(time: real, d: real)
    requires d != 0.0
    ensures time * 1000.0 / d * d == time * 1000.0
  {
  }

  /** The race distances of the chart's pace lines. */
  const RaceDistances: seq<real> := [1500.0, 5000.0, 10000.0, 21097.0, 42195.0]

  /** Over a distance covered at a speed in a positive time, the pace is
      1000 / speed. */
  lemma PaceOfSpeed(t: real, d: real, v: real, pace: real)
    requires t > 0.0 && v > 0.0 && d == v * t && pace * v == 1000.0
    ensures t * 1000.0 / d == pace
  {
    assert pace * d == t * 1000.0;
    DivUnique(t * 1000.0, d, pace);
  }

  /** The race pace of the distance the power law covers in t is the
      power-law pace at t: the race paces lie on the chart's curve. */
  lemma RacePaceOnCurve(T: Transcendentals, m: RunningModels, t: real)
    requires Lawful(T) && Consistent(m) && m.valid && m.plParams.k + 1.0 != 0.0 && t > 0.0
    ensures var r := PowerLawReading(T, m, t).value;
      r.distance > 0.0 && RacePace(T, m, r.distance) == Some(r.pace)
  {
    var r := PowerLawReading(T, m, t).value;
    var v := m.plParams.SpeedAt(T, t);
    assert v > 0.0 && r.distance == v * t && r.pace * v == 1000.0 by { SpeedFacts(T, m, t); }
    assert t * 1000.0 / r.distance == r.pace by { PaceOfSpeed(t, r.distance, v, r.pace); }
    assert PowerLawDuration(T, m, r.distance) == Some(t) by {
      PowerLawDurationOfDistance(T, m, t);
    }
    RacePaceOf(T, m, r.distance, t, r.pace);
  }

  /** The race pace over a distance whose power-law time is known. */
  lemma RacePaceOf(T: Transcendentals, m: RunningModels, d: real, t: real, pace: real)
    requires Lawful(T) && Consistent(m) && m.valid && d > 0.0
    requires PowerLawDuration(T, m, d) == Some(t) && t * 1000.0 / d == pace
    ensures RacePace(T, m, d) == Some(pace)
  {
  }

  /** The CS-D' pace slows strictly with duration and stays faster than the
      CS pace. */
  lemma CsPaceRises(m: RunningModels, s: real, t: real)
    requires Consistent(m) && m.valid && 0.0 < s < t
    ensures CsReading(m, s).value.pace < CsReading(m, t).value.pace < m.csPace
  {
    var x, y := CsReading(m, s).value.pace, CsReading(m, t).value.pace;
    assert x * (m.cs * s + m.dPrime) == s * 1000.0;
    assert y * (m.cs * t + m.dPrime) == t * 1000.0;
    LinePaceOrder(m.cs, m.dPrime, s, t, x, y, m.csPace);
  }

  /** The pace over the CS-D' line: with positive CS and D', the pace over
      cs t + D' metres in t seconds slows with t and stays under 1000 / cs. */
  lemma LinePaceOrder(cs: real, dPrime: real, s: real, t: real, x: real, y: real, csPace: real)
    requires cs > 0.0 && dPrime > 0.0 && 0.0 < s < t
    requires x * (cs * s + dPrime) == s * 1000.0 && y * (cs * t + dPrime) == t * 1000.0
    requires csPace * cs == 1000.0
    ensures x < y < csPace
  {
    var a, b := ModelSpeed(cs, dPrime, s), ModelSpeed(cs, dPrime, t);
    assert a > b > cs > 0.0 by { ModelSpeedDecreasing(cs, dPrime, s, t); }
    assert x * a == 1000.0 by { PaceTimesSpeed(x, cs * s + dPrime, a, s); }
    assert y * b == 1000.0 by { PaceTimesSpeed(y, cs * t + dPrime, b, t); }
    ReciprocalOrder(a, b, x, y);
    ReciprocalOrder(b, cs, y, csPace);
  }

  /** A pace over a distance covered at a constant speed is 1000 over the
      speed. */
  lemma PaceTimesSpeed(pace: real, d: real, v: real, t: real)
    requires t > 0.0 && d == (d / t) * t && v == d / t && pace * d == t * 1000.0
    ensures pace * v == 1000.0
  {
    assert v * t == d;
    assert pace * v * t == pace * (v * t);
    assert (pace * v - 1000.0) * t == 0.0;
    ZeroProduct(t, pace * v - 1000.0);
  }

  /** With a speed exponent k < 0 the power-law pace slows strictly with
      duration. */
  lemma PowerLawPaceRises(T: Transcendentals, m: RunningModels, s: real, t: real)
    requires Lawful(T) && Consistent(m) && m.valid && m.plParams.k < 0.0 && 0.0 < s < t
    ensures PowerLawReading(T, m, s).value.pace < PowerLawReading(T, m, t).value.pace
  {
    var a, b := m.plParams.SpeedAt(T, s), m.plParams.SpeedAt(T, t);
    assert a > b > 0.0 by { SpeedFalls(T, m, s, t); }
    assert PowerLawReading(T, m, s).value == AtSpeed(a, s);
    assert PowerLawReading(T, m, t).value == AtSpeed(b, t);
    AtSpeedOrder(a, b, s, t);
  }

  /** A faster speed gives a faster pace. */
  lemma AtSpeedOrder(a: real, b: real, s: real, t: real)
    requires 0.0 < b < a
    ensures AtSpeed(a, s).pace < AtSpeed(b, t).pace
  {
    ReciprocalOrder(a, b, AtSpeed(a, s).pace, AtSpeed(b, t).pace);
  }

  lemma SpeedFalls(T: Transcendentals, m: RunningModels, s: real, t: real)
    requires Lawful(T) && Consistent(m) && m.valid && m.plParams.k < 0.0 && 0.0 < s < t
    ensures m.plParams.SpeedAt(T, s) > m.plParams.SpeedAt(T, t) > 0.0
  {
    SpeedFacts(T, m, t);
    PowerLawSpeedFalls(T, m.plParams, s, t);
  }

  /** A t^k with A > 0 and k < 0 falls strictly with t > 0. */
  lemma PowerLawSpeedFalls(T: Transcendentals, p: RunningPowerLaw, s: real, t: real)
    requires Lawful(T) && p.A > 0.0 && p.k < 0.0 && 0.0 < s < t
    ensures p.SpeedAt(T, s) > p.SpeedAt(T, t)
  {
    PowDecreasingInBase(T, s, t, p.k);
    ScaledSpeedOrder(T, p, s, t);
  }

  /** The scale A > 0 carries the order of the powers over to the speeds. */
  lemma ScaledSpeedOrder(T: Transcendentals, p: RunningPowerLaw, s: real, t: real)
    requires p.A > 0.0 && Pow(T, s, p.k) > Pow(T, t, p.k)
    ensures p.SpeedAt(T, s) > p.SpeedAt(T, t)
  {
    MulLeft(p.A, Pow(T, t, p.k), Pow(T, s, p.k));
  }

  /** The paces of two positive speeds are in the opposite order. */
  lemma ReciprocalOrder(a: real, b: real, p: real, q: real)
    requires 0.0 < b < a && p * a == 1000.0 && q * b == 1000.0
    ensures p < q
  {
    DivUnique(1000.0, a, p);
    DivUnique(1000.0, b, q);
    DivDecreasing(1000.0, b, a);
  }

  // ---------------------------------------------------------------------
  // The series

  /** A point of a series: the duration, the pace and the distance. */
  datatype RunPoint = RunPoint(x: int, pace: real, distance: real)

  /** The CS-D' series samples 150 s to 3600 s every 10 s; the power-law
      series 180 s to 21600 s every minute. */
  const CsCount: nat := 346
  const PlCount: nat := 358

  function CsTime(i: nat): int {
    150 + 10 * i
  }

  function PlTime(i: nat): int {
    180 + 60 * i
  }

  /** The point a reading gives, if any. */
  function Sample(x: int, r: Option<Reading>): seq<RunPoint> {
    match r
    case None => []
    case Some(p) => [RunPoint(x, p.pace, p.distance)]
  }

  /** The CS-D' points of the first n sampled durations. */
  function CsSeries(m: RunningModels, n: nat): seq<RunPoint> {
    if n == 0 then [] else CsSeries(m, n - 1) + Sample(CsTime(n - 1), CsReading(m, CsTime(n - 1) as real))
  }

  /** The power-law points of the first n sampled durations. */
  function PlSeries(T: Transcendentals, m: RunningModels, n: nat): seq<RunPoint>
    requires Lawful(T) && Consistent(m)
  {
    if n == 0 then [] else PlSeries(T, m, n - 1) + Sample(PlTime(n - 1), PowerLawReading(T, m, PlTime(n - 1) as real))
  }

  /** `generateCurveData`: two empty series for a refused fit; otherwise one
      loop per curve over its durations, keeping the readings that exist. */
  method GenerateCurveData(T: Transcendentals, m: RunningModels) returns (cs: seq<RunPoint>, pl: seq<RunPoint>)
    requires Lawful(T) && Consistent(m)
    ensures !m.valid ==> cs == [] && pl == []
    ensures m.valid ==> cs == CsSeries(m, CsCount) && pl == PlSeries(T, m, PlCount)
  {
    if !m.valid {
      return [], [];
    }
    cs := CsCurve(m);
    pl := PowerLawCurve(T, m);
  }

  /** The CS-D' loop: every 10 s from 150 s to 3600 s. */
  method CsCurve(m: RunningModels) returns (cs: seq<RunPoint>)
    ensures cs == CsSeries(m, CsCount)
  {
    cs := [];
    var time := 150;
    ghost var i: nat := 0;
    while time <= 3600
      invariant time == CsTime(i) && i <= CsCount
      invariant cs == CsSeries(m, i)
    {
      var r := CsReading(m, time as real);
      if r.Some? {
        cs := cs + [RunPoint(time, r.value.pace, r.value.distance)];
      }
      time, i := time + 10, i + 1;
    }
  }

  /** The power-law loop: every minute from 180 s to 21600 s. */
  method PowerLawCurve(T: Transcendentals, m: RunningModels) returns (pl: seq<RunPoint>)
    requires Lawful(T) && Consistent(m)
    ensures pl == PlSeries(T, m, PlCount)
  {
    pl := [];
    var time := 180;
    ghost var i: nat := 0;
    while time <= 21600
      invariant time == PlTime(i) && i <= PlCount
      invariant pl == PlSeries(T, m, i)
    {
      var r := PowerLawReading(T, m, time as real);
      if r.Some? {
        pl := pl + [RunPoint(time, r.value.pace, r.value.distance)];
      }
      time, i := time + 60, i + 1;
    }
  }

  /** For an accepted fit every sampled duration gives a CS-D' point: point
      i is the reading at 150 + 10 i seconds, and the paces slow strictly
      along the series. */
  lemma {:induction false} CsSeriesComplete(m: RunningModels, n: nat)
    requires Consistent(m) && m.valid
    ensures var s := CsSeries(m, n);
      && |s| == n
      && (forall i :: 0 <= i < n ==>
            var r := CsReading(m, CsTime(i) as real).value;
            s[i] == RunPoint(CsTime(i), r.pace, r.distance))
  {
    if n > 0 {
      CsSeriesComplete(m, n - 1);
    }
  }

  lemma CsSeriesSlows(m: RunningModels, n: nat)
    requires Consistent(m) && m.valid
    ensures var s := CsSeries(m, n);
      forall i, j :: 0 <= i < j < |s| ==> s[i].x < s[j].x && s[i].pace < s[j].pace
  {
    var s := CsSeries(m, n);
    CsSeriesComplete(m, n);
    forall i, j | 0 <= i < j < |s|
      ensures s[i].x < s[j].x && s[i].pace < s[j].pace
    {
      CsPaceRises(m, CsTime(i) as real, CsTime(j) as real);
    }
  }

  /** For an accepted fit every sampled duration gives a power-law point;
      point i is the reading at 180 + 60 i seconds. */
  lemma {:induction false} PlSeriesComplete(T: Transcendentals, m: RunningModels, n: nat)
    requires Lawful(T) && Consistent(m) && m.valid
    ensures var s := PlSeries(T, m, n);
      && |s| == n
      && (forall i :: 0 <= i < n ==>
            var r := PowerLawReading(T, m, PlTime(i) as real).value;
            s[i] == RunPoint(PlTime(i), r.pace, r.distance))
  {
    if n > 0 {
      PlSeriesComplete(T, m, n - 1);
    }
  }

  /** With k < 0 the power-law paces slow strictly along the series. */
  lemma PlSeriesSlows(T: Transcendentals, m: RunningModels, n: nat)
    requires Lawful(T) && Consistent(m) && m.valid && m.plParams.k < 0.0
    ensures var s := PlSeries(T, m, n);
      forall i, j :: 0 <= i < j < |s| ==> s[i].x < s[j].x && s[i].pace < s[j].pace
  {
    var s := PlSeries(T, m, n);
    PlSeriesComplete(T, m, n);
    forall i, j | 0 <= i < j < |s|
      ensures s[i].x < s[j].x && s[i].pace < s[j].pace
    {
      PowerLawPaceRises(T, m, PlTime(i) as real, PlTime(j) as real);
    }
  }

  // ---------------------------------------------------------------------
  // The pace axis

  function SeqMin(s: seq<real>): (r: real)
    requires |s| > 0
    ensures r in s && forall x :: x in s ==> r <= x
  {
    if |s| == 1 then s[0]
    else
      var rest := SeqMin(s[1..]);
      assert forall x :: x in s ==> x == s[0] || x in s[1..];
      if s[0] <= rest then s[0] else rest
  }

  function SeqMax(s: seq<real>): (r: real)
    requires |s| > 0
    ensures r in s && forall x :: x in s ==> x <= r
  {
    if |s| == 1 then s[0]
    else
      var rest := SeqMax(s[1..]);
      assert forall x :: x in s ==> x == s[0] || x in s[1..];
      if s[0] >= rest then s[0] else rest
  }

  /** The pace axis: 2:00 to 6:00 per km by default; for an accepted fit
      with points, the paces' span widened by a tenth of its range on both
      sides, the top raised to 105 % of the LT1 upper pace when that is
      set, then kept within 2:00 and 10:00 per km. Every pace between 2:00
      and 10:00 lies on the axis, and so does 105 % of the LT1 pace when it
      is at most 10:00. */
  method PaceAxis(valid: bool, paces: seq<real>, lt1Max: real) returns (minPace: real, maxPace: real)
    ensures 120.0 <= minPace && maxPace <= 600.0
    ensures !valid || paces == [] ==> minPace == 120.0 && maxPace == 360.0
    ensures valid ==> forall p :: p in paces && 120.0 <= p <= 600.0 ==> minPace <= p <= maxPace
    ensures valid && paces != [] && lt1Max != 0.0 && lt1Max * 1.05 <= 600.0 ==> lt1Max * 1.05 <= maxPace
  {
    minPace := 120.0;
    maxPace := 360.0;
    if valid && |paces| > 0 {
      var actualMin, actualMax := SeqMin(paces), SeqMax(paces);
      var range := actualMax - actualMin;
      minPace := Max(120.0, actualMin - range * 0.1);
      if lt1Max != 0.0 {
        maxPace := Max(actualMax + range * 0.1, lt1Max * 1.05);
      } else {
        maxPace := actualMax + range * 0.1;
      }
      maxPace := Min(600.0, maxPace);
    }
  }

  /** The paces of a list of points. */
  function Paces(points: seq<RunPoint>): (ps: seq<real>)
    ensures |ps| == |points| && forall i :: 0 <= i < |points| ==> ps[i] == points[i].pace
  {
    seq(|points|, i requires 0 <= i < |points| => points[i].pace)
  }

  /** The chart's series and its pace axis: every point of either series
      with a pace between 2:00 and 10:00 per km is inside the axis. */
  method ChartAxes(T: Transcendentals, m: RunningModels)
    returns (cs: seq<RunPoint>, pl: seq<RunPoint>, minPace: real, maxPace: real)
    requires Lawful(T) && Consistent(m)
    ensures m.valid ==> cs == CsSeries(m, CsCount) && pl == PlSeries(T, m, PlCount)
    ensures forall p :: p in cs + pl && 120.0 <= p.pace <= 600.0 ==> minPace <= p.pace <= maxPace
    ensures 120.0 <= minPace && maxPace <= 600.0
  {
    cs, pl := GenerateCurveData(T, m);
    var points := cs + pl;
    minPace, maxPace := PaceAxis(m.valid, Paces(points), m.lt1Range.max);
    forall p | p in points && 120.0 <= p.pace <= 600.0
      ensures minPace <= p.pace <= maxPace
    {
      var i :| 0 <= i < |points| && points[i] == p;
      var paces := Paces(points);
      assert paces[i] == p.pace && paces[i] in paces;
    }
  }

  // ---------------------------------------------------------------------
  // The tooltip and the labels

  /** `formatDistance`: kilometres with one decimal from 1000 m on, whole
      metres below. */
  function FormatDistance(meters: real): string {
    if meters >= 1000.0 then ToFixed(meters / 1000.0, 1) + "km" else IntToString(Round(meters)) + "m"
  }

  /** From 1000 m the label reads back as the distance in tenths of a
      kilometre, rounded to the nearest; below, as the rounded metres. */
  lemma FormatDistanceReads(meters: real)
    requires meters >= 0.0
    ensures var s := FormatDistance(meters);
      && (meters >= 1000.0 ==>
            s[|s| - 2..] == "km" && ReadFixed(s[..|s| - 2], 1) == Some(Round(meters / 100.0)))
      && (meters < 1000.0 ==> ReadNat(s) == Some((Round(meters), "m")))
  {
    var s := FormatDistance(meters);
    if meters >= 1000.0 {
      var x := meters / 1000.0;
      var digits := ToFixed(x, 1);
      assert s == digits + "km";
      assert s[..|s| - 2] == digits;
      ReadToFixed(x, 1);
      assert Scaled(x, 1) == meters / 100.0;
    } else {
      RoundBounds(meters);
      assert IntToString(Round(meters)) == NatToString(Round(meters));
      ReadNatToString(Round(meters), "m");
    }
  }

  /** One tooltip line: the model, the pace label and the distance label. */
  datatype TooltipLine = TooltipLine(model: RunningModel, pace: string, distance: string)

  function LineOf(model: RunningModel, r: Option<Reading>): seq<TooltipLine> {
    match r
    case None => []
    case Some(p) => [TooltipLine(model, Clock.FormatPace(p.pace), FormatDistance(p.distance))]
  }

  /** The tooltip of a duration: the CS-D' reading up to 1020 s and the
      power-law reading from 840 s, when they exist; nothing for a refused
      fit or a zero duration. */
  function TooltipLines(T: Transcendentals, m: RunningModels, t: real): seq<TooltipLine>
    requires Lawful(T) && Consistent(m)
  {
    if !m.valid || t == 0.0 then [] else LinesOf(t, CsReading(m, t), PowerLawReading(T, m, t))
  }

  /** The tooltip lines from the two readings at a duration. */
  function LinesOf(t: real, cs: Option<Reading>, pl: Option<Reading>): seq<TooltipLine> {
    (if t <= 1020.0 then LineOf(CsDPrime, cs) else []) + (if t >= 840.0 then LineOf(PowerLaw, pl) else [])
  }

  /** The models of a tooltip, in order. */
  function ModelsOf(lines: seq<TooltipLine>): (ms: seq<RunningModel>)
    ensures |ms| == |lines| && forall i :: 0 <= i < |lines| ==> ms[i] == lines[i].model
  {
    if lines == [] then [] else [lines[0].model] + ModelsOf(lines[1..])
  }

  /** For an accepted fit and a positive duration the tooltip lists CS-D'
      exactly up to 1020 s and the power law exactly from 840 s, so both
      between 840 and 1020 s and always at least one; the model the
      performance calculator picks (CS-D' below 1020 s) is always listed,
      and each line shows the reading of its model. */
  lemma TooltipModels(T: Transcendentals, m: RunningModels, t: real)
    requires Lawful(T) && Consistent(m) && m.valid && t > 0.0
    ensures var ms := ModelsOf(TooltipLines(T, m, t));
      && (CsDPrime in ms <==> t <= 1020.0)
      && (PowerLaw in ms <==> t >= 840.0)
      && 1 <= |ms| <= 2
      && (if t < CsLimit then CsDPrime else PowerLaw) in ms
    ensures forall line :: line in TooltipLines(T, m, t) ==>
      var r := if line.model == CsDPrime then CsReading(m, t).value else PowerLawReading(T, m, t).value;
      line.pace == Clock.FormatPace(r.pace) && line.distance == FormatDistance(r.distance)
  {
    var cs, pl := CsReading(m, t), PowerLawReading(T, m, t);
    assert cs.Some? && pl.Some?;
    assert TooltipLines(T, m, t) == LinesOf(t, cs, pl);
    LinesOfModels(t, cs, pl);
    LinesOfReadings(t, cs, pl);
  }

  lemma LinesOfModels(t: real, cs: Option<Reading>, pl: Option<Reading>)
    requires cs.Some? && pl.Some?
    ensures var ms := ModelsOf(LinesOf(t, cs, pl));
      && (CsDPrime in ms <==> t <= 1020.0)
      && (PowerLaw in ms <==> t >= 840.0)
      && 1 <= |ms| <= 2
      && (if t < CsLimit then CsDPrime else PowerLaw) in ms
  {
    var csLine, plLine := LineOf(CsDPrime, cs), LineOf(PowerLaw, pl);
    assert ModelsOf(csLine) == [CsDPrime] && ModelsOf(plLine) == [PowerLaw];
    assert ModelsOf(csLine + plLine) == [CsDPrime, PowerLaw];
    assert t < 840.0 ==> LinesOf(t, cs, pl) == csLine;
    assert 840.0 <= t <= 1020.0 ==> LinesOf(t, cs, pl) == csLine + plLine;
    assert 1020.0 < t ==> LinesOf(t, cs, pl) == plLine;
  }

  lemma LinesOfReadings(t: real, cs: Option<Reading>, pl: Option<Reading>)
    requires cs.Some? && pl.Some?
    ensures forall line :: line in LinesOf(t, cs, pl) ==>
      var r := if line.model == CsDPrime then cs.value else pl.value;
      line.pace == Clock.FormatPace(r.pace) && line.distance == FormatDistance(r.distance)
  {
  }

  /** As written, a reading of 119.6 s/km puts "1:60" in the tooltip line,
      where rounding first gives "2:00". */
  lemma TooltipPaceSixty(model: RunningModel, distance: real)
    ensures LineOf(model, Some(Reading(119.6, distance)))[0].pace == "1:60"
    ensures Clock.FormatPaceCorrected(119.6) == "2:00"
  {
    Clock.FormatPaceSixty();
  }
}
