/** The running performance calculator: the time (and pace) predicted for a
    distance, and the distance (and pace) predicted for a time. Below 17
    minutes (1020 s) the CS-D' line answers, beyond it the speed power law. */
module PerformanceCalculator {
  import opened Wrappers
  import opened RealMath
  import opened Text
  import opened RunningFit
  import opened RunningCurves

  datatype DistanceUnit = Meters | Kilometers

  /** A predicted time for a distance; None stands for a time that is not a
      finite number. The pace is in seconds per kilometre. */
  datatype TimeResult = TimeResult(time: Option<real>, model: RunningModel, pace: Option<real>)

  /** A predicted distance in metres for a time, and the pace in seconds per
      kilometre. */
  datatype DistanceResult = DistanceResult(distance: real, model: RunningModel, pace: real)

  /** The calculator answers only for a valid model with a non-zero CS and D'. */
  predicate Answers(m: RunningModels) {
    m.valid && m.cs != 0.0 && m.dPrime != 0.0
  }

  /** The distance field read in metres. */
  function InMeters(distance: real, unit: DistanceUnit): real {
    if unit == Kilometers then distance * 1000.0 else distance
  }

  /** The time predicted for a distance as typed (None when it does not read
      as a number): None when the calculator does not answer or the distance
      is not positive; otherwise the CS-D' time when that lies strictly between
      0 and 1020 s, else the power-law time. */
  function TimeFromDistance(T: Transcendentals, m: RunningModels, distance: Option<real>, unit: DistanceUnit): (r: Option<TimeResult>)
    requires Consistent(m)
    ensures r.Some? <==> Answers(m) && distance.Some? && distance.value > 0.0
  {
    if !Answers(m) || distance.None? || distance.value <= 0.0 then None
    else
      var d := InMeters(distance.value, unit);
      var csTime := CsDuration(m, d);
      if 0.0 < csTime < CsLimit then
        Some(TimeResult(Some(csTime), CsDPrime, Some(csTime * 1000.0 / d)))
      else
        match PowerLawDuration(T, m, d)
        case None => Some(TimeResult(None, PowerLaw, None))
        case Some(t) => Some(TimeResult(Some(t), PowerLaw, Some(t * 1000.0 / d)))
  }

  /** Whenever the calculator answers for a distance: the CS-D' line is used
      exactly when its time is strictly between 0 and 1020 s, the predicted
      time is positive and the model covers exactly that distance in it, and
      the pace is that time per kilometre. A missing time happens only with
      the power-law exponent k + 1 equal to 0. */
  lemma TimeFromDistanceCovers(T: Transcendentals, m: RunningModels, distance: real, unit: DistanceUnit)
    requires Lawful(T) && Consistent(m) && Answers(m) && distance > 0.0
    ensures var r := TimeFromDistance(T, m, Some(distance), unit).value;
      var d := InMeters(distance, unit);
      && (r.model == CsDPrime <==> 0.0 < CsDuration(m, d) < CsLimit)
      && (r.time.None? <==> r.model == PowerLaw && m.plParams.k + 1.0 == 0.0)
      && (r.time.Some? ==>
            && r.time.value > 0.0
            && r.pace == Some(r.time.value * 1000.0 / d)
            && (r.model == CsDPrime ==> CsDistance(m, r.time.value) == d)
            && (r.model == PowerLaw ==> PowerLawDistance(T, m, r.time.value) == d))
  {
    var d := InMeters(distance, unit);
    assert d > 0.0;
    CsRoundTrip(m, d, 0.0);
    if m.plParams.k + 1.0 != 0.0 {
      PowerLawDurationCovers(T, m, d);
    }
  }

  /** An integer field as `parseInt(...) || 0` reads it: a field that does not
      read as a number counts as 0. */
  function Field(x: Option<int>): int {
    x.GetOr(0)
  }

  /** The time fields in seconds. */
  function TotalSeconds(hours: Option<int>, minutes: Option<int>, seconds: Option<int>): int {
    Field(hours) * 3600 + Field(minutes) * 60 + Field(seconds)
  }

  /** The distance predicted for a time: None when the calculator does not
      answer or the total time is not positive; the CS-D' distance below
      1020 s, the power-law distance from 1020 s on. */
  function DistanceFromTime(T: Transcendentals, m: RunningModels, hours: Option<int>, minutes: Option<int>, seconds: Option<int>): (r: Option<DistanceResult>)
    requires Lawful(T) && Consistent(m)
    ensures r.Some? <==> Answers(m) && TotalSeconds(hours, minutes, seconds) > 0
  {
    var total := TotalSeconds(hours, minutes, seconds);
    if !Answers(m) || total <= 0 then None
    else
      var t := total as real;
      var model := if t < CsLimit then CsDPrime else PowerLaw;
      var d := if model == CsDPrime then CsDistance(m, t) else PowerLawDistance(T, m, t);
      assert d > 0.0 by { DistancePositive(T, m, t); }
      Some(DistanceResult(d, model, t * 1000.0 / d))
  }

  /** Both curves give a positive distance for a positive time. */
  lemma DistancePositive(T: Transcendentals, m: RunningModels, t: real)
    requires Lawful(T) && Consistent(m) && m.valid && t > 0.0
    ensures CsDistance(m, t) > 0.0 && PowerLawDistance(T, m, t) > 0.0
  {
    assert m.cs * t > 0.0 by { MulLeft(m.cs, 0.0, t); }
    assert Pow(T, t, m.plParams.k + 1.0) > 0.0 by { PowPositive(T, t, m.plParams.k + 1.0); }
    MulLeft(m.plParams.A, 0.0, Pow(T, t, m.plParams.k + 1.0));
  }

  /** Whenever the calculator answers for a time: the CS-D' line is used
      exactly below 1020 s, the distance is positive, and the pace times the
      distance is the time per kilometre. */
  lemma DistanceFromTimePace(T: Transcendentals, m: RunningModels, hours: Option<int>, minutes: Option<int>, seconds: Option<int>)
    requires Lawful(T) && Consistent(m) && Answers(m)
    requires TotalSeconds(hours, minutes, seconds) > 0
    ensures var r := DistanceFromTime(T, m, hours, minutes, seconds).value;
      var t := TotalSeconds(hours, minutes, seconds) as real;
      && (r.model == CsDPrime <==> t < CsLimit)
      && r.distance > 0.0
      && r.pace * r.distance == t * 1000.0
  {
    var t := TotalSeconds(hours, minutes, seconds) as real;
    var model := if t < CsLimit then CsDPrime else PowerLaw;
    var d := if model == CsDPrime then CsDistance(m, t) else PowerLawDistance(T, m, t);
    assert d > 0.0 by { DistancePositive(T, m, t); }
    DistanceFromTimeIs(T, m, hours, minutes, seconds, d, model);
    DivTimes(t * 1000.0, d);
  }

  /** The distance result for a positive time, from the model and distance
      chosen for it. */
  lemma DistanceFromTimeIs(T: Transcendentals, m: RunningModels, hours: Option<int>, minutes: Option<int>, seconds: Option<int>,
                           d: real, model: RunningModel)
    requires Lawful(T) && Consistent(m) && Answers(m)
    requires TotalSeconds(hours, minutes, seconds) > 0
    requires var t := TotalSeconds(hours, minutes, seconds) as real;
      && model == (if t < CsLimit then CsDPrime else PowerLaw)
      && d == (if model == CsDPrime then CsDistance(m, t) else PowerLawDistance(T, m, t))
    ensures var t := TotalSeconds(hours, minutes, seconds) as real;
      DistanceFromTime(T, m, hours, minutes, seconds) == Some(DistanceResult(d, model, t * 1000.0 / d))
  {
  }

  /** The two directions agree below 17 minutes: the distance predicted for a
      whole number of seconds under 1020 is given back that time, by the same
      CS-D' model. */
  lemma ShortRoundTrip(T: Transcendentals, m: RunningModels, seconds: int)
    requires Lawful(T) && Consistent(m) && Answers(m)
    requires 0 < seconds < 1020
    ensures var r := DistanceFromTime(T, m, None, None, Some(seconds)).value;
      && r.model == CsDPrime
      && TimeFromDistance(T, m, Some(r.distance), Meters).value.time == Some(seconds as real)
      && TimeFromDistance(T, m, Some(r.distance), Meters).value.model == CsDPrime
  {
    var t := seconds as real;
    var r := DistanceFromTime(T, m, None, None, Some(seconds)).value;
    assert TotalSeconds(None, None, Some(seconds)) == seconds;
    assert r.distance == CsDistance(m, t);
    DistancePositive(T, m, t);
    CsRoundTrip(m, 0.0, t);
  }

  /** Beyond 17 minutes the directions agree whenever the CS-D' time of the
      predicted distance falls outside (0, 1020): the power-law time of the
      power-law distance is the time itself. */
  lemma LongRoundTrip(T: Transcendentals, m: RunningModels, seconds: int)
    requires Lawful(T) && Consistent(m) && Answers(m) && m.plParams.k + 1.0 != 0.0
    requires seconds >= 1020
    requires var d := PowerLawDistance(T, m, seconds as real);
      !(0.0 < CsDuration(m, d) < CsLimit)
    ensures var r := DistanceFromTime(T, m, None, None, Some(seconds)).value;
      && r.model == PowerLaw
      && TimeFromDistance(T, m, Some(r.distance), Meters).value.time == Some(seconds as real)
      && TimeFromDistance(T, m, Some(r.distance), Meters).value.model == PowerLaw
  {
    var t := seconds as real;
    var r := DistanceFromTime(T, m, None, None, Some(seconds)).value;
    assert TotalSeconds(None, None, Some(seconds)) == seconds;
    assert r.distance == PowerLawDistance(T, m, t);
    DistancePositive(T, m, t);
    PowerLawDurationOfDistance(T, m, t);
  }

  /** The distance display: kilometres with two decimals, then " km". */
  function FormatDistance(meters: real): string {
    ToFixed(meters / 1000.0, 2) + " km"
  }

  /** Reads a distance display back to its number of hundredths of a
      kilometre, or None. */
  function ReadDistance(s: string): Option<nat> {
    if |s| >= 3 && s[|s| - 3..] == " km" then ReadFixed(s[..|s| - 3], 2) else None
  }

  /** A non-negative distance display reads back to the distance rounded to
      the nearest 10 m (in hundredths of a kilometre). */
  lemma FormatDistanceReads(meters: real)
    requires meters >= 0.0
    ensures ReadDistance(FormatDistance(meters)).Some?
    ensures var n := ReadDistance(FormatDistance(meters)).value;
      meters - 5.0 < n as real * 10.0 <= meters + 5.0
  {
    var x := meters / 1000.0;
    var s := ToFixed(x, 2);
    var f := s + " km";
    assert f[..|f| - 3] == s;
    assert f[|f| - 3..] == " km";
    ToFixedNearest(x, 2);
  }
}
