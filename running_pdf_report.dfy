/** The race predictions of the running PDF report: seven distances, each
    with a predicted time and average pace, shown as clock displays. */
module RunningPdfReport {
  import opened Wrappers
  import opened RealMath
  import opened RunningFit
  import opened RunningCurves
  import opened Clock
  import PerformanceCalculator

  /** The report's distances in metres (the half marathon rounded down to
      21097 m here, unlike the sustainable table's 21097.5 m). */
  const ReportDistances: seq<real> := [1500.0, 3000.0, 5000.0, 10000.0, 21097.0, 42195.0, 50000.0]

  /** The CS-D' line's time; with CS equal to 0 it is not a finite number. */
  function LineTime(m: RunningModels, d: real): Option<real> {
    if m.cs == 0.0 then None else Some(CsDuration(m, d))
  }

  /** The power-law time; with a scale that is not positive the original
      divides by 0 or takes a fractional power of a negative number, which
      for a valid fit never gives a usable time. */
  function PowerLawTime(T: Transcendentals, m: RunningModels, d: real): Option<real> {
    if m.plParams.A <= 0.0 then None else PowerLawDuration(T, m, d)
  }

  /** The predicted time: the CS-D' time when it lies strictly between 0 and
      1020 s, else the power-law time; a time that is not a positive finite
      number falls back to running the distance at CS. None when even that is
      not a number (CS equal to 0). */
  function PredictedTime(T: Transcendentals, m: RunningModels, d: real): (r: Option<real>)
    ensures r.None? ==> m.cs == 0.0
  {
    var line := LineTime(m, d);
    var predicted := if line.Some? && 0.0 < line.value < CsLimit then line else PowerLawTime(T, m, d);
    if predicted.Some? && predicted.value > 0.0 then predicted
    else if m.cs == 0.0 then None
    else Some(d / m.cs)
  }

  /** For a valid model and a positive distance the report always predicts a
      positive time; when the CS-D' line is used it covers the distance, when
      the power law is used it covers the distance, and otherwise the distance
      is run at CS. */
  lemma PredictedTimeCovers(T: Transcendentals, m: RunningModels, d: real)
    requires Lawful(T) && Consistent(m) && m.valid && d > 0.0
    ensures var r := PredictedTime(T, m, d);
      && r.Some? && r.value > 0.0
      && (0.0 < CsDuration(m, d) < CsLimit ==> CsDistance(m, r.value) == d)
      && (!(0.0 < CsDuration(m, d) < CsLimit) && m.plParams.k + 1.0 != 0.0 ==>
            PowerLawDistance(T, m, r.value) == d)
      && (!(0.0 < CsDuration(m, d) < CsLimit) && m.plParams.k + 1.0 == 0.0 ==>
            m.cs * r.value == d)
  {
    CsRoundTrip(m, d, 0.0);
    assert d / m.cs > 0.0 by { SignOfQuotient(d, m.cs); }
    assert m.cs * (d / m.cs) == d;
    if m.plParams.k + 1.0 != 0.0 {
      PowerLawDurationCovers(T, m, d);
    }
  }

  /** The report predicts the same time as the performance calculator
      whenever the calculator has one. */
  lemma AgreesWithCalculator(T: Transcendentals, m: RunningModels, d: real)
    requires Lawful(T) && Consistent(m) && PerformanceCalculator.Answers(m) && d > 0.0
    ensures var c := PerformanceCalculator.TimeFromDistance(T, m, Some(d), PerformanceCalculator.Meters).value;
      c.time.Some? ==> PredictedTime(T, m, d) == c.time
  {
    PerformanceCalculator.TimeFromDistanceCovers(T, m, d, PerformanceCalculator.Meters);
    assert PerformanceCalculator.InMeters(d, PerformanceCalculator.Meters) == d;
  }

  /** One prediction of the report: the distance, the time display and the
      pace display. */
  datatype Prediction = Prediction(meters: real, time: string, pace: string)

  /** `formatTime`: a time display (floor the hours and minutes, round the
      rest to seconds), the placeholder when there is no time. */
  function ShowTime(t: Option<real>): string {
    if t.Some? then FormatClock(t.value) else Placeholder
  }

  /** The average pace time * 1000 / metres of a predicted time. */
  function AveragePace(t: Option<real>, d: real): Option<real>
    requires d != 0.0
  {
    if t.Some? then Some(t.value * 1000.0 / d) else None
  }

  /** `formatPace`: a pace display (floor the minutes, round the rest to
      seconds), the placeholder when there is no pace. */
  function ShowPace(pace: Option<real>): string {
    if pace.Some? then FormatPace(pace.value) else Placeholder
  }

  /** The prediction of one distance: the distance, the predicted time shown
      by `formatTime` and the average pace shown by `formatPace`; both cells
      hold the placeholder when no time is predicted. */
  function PredictionFor(T: Transcendentals, m: RunningModels, d: real): (p: Prediction)
    requires d != 0.0
    ensures p.meters == d
    ensures p.time == ShowTime(PredictedTime(T, m, d))
    ensures p.pace == ShowPace(AveragePace(PredictedTime(T, m, d), d))
  {
    var t := PredictedTime(T, m, d);
    Prediction(d, ShowTime(t), ShowPace(AveragePace(t, d)))
  }

  /** For a valid model and a positive distance the report predicts a time,
      its time display reads back as that time and its pace display as the
      average pace time * 1000 / metres. */
  lemma PredictionReads(T: Transcendentals, m: RunningModels, d: real)
    requires Lawful(T) && Consistent(m) && m.valid && d > 0.0
    ensures PredictedTime(T, m, d).Some?
    ensures AveragePace(PredictedTime(T, m, d), d).Some?
    ensures var p := PredictionFor(T, m, d);
      && TimeReadsAs(p.time, PredictedTime(T, m, d).value)
      && PaceReadsAs(p.pace, AveragePace(PredictedTime(T, m, d), d).value)
  {
    PredictedTimePositive(T, m, d);
    PredictionOfTime(T, m, d, PredictedTime(T, m, d).value);
  }

  lemma PredictedTimePositive(T: Transcendentals, m: RunningModels, d: real)
    requires Lawful(T) && Consistent(m) && m.valid && d > 0.0
    ensures PredictedTime(T, m, d).Some? && PredictedTime(T, m, d).value > 0.0
  {
    PredictedTimeCovers(T, m, d);
  }

  /** The readings of the prediction of a distance once its positive
      predicted time is known. */
  lemma PredictionOfTime(T: Transcendentals, m: RunningModels, d: real, t: real)
    requires d > 0.0 && t > 0.0 && PredictedTime(T, m, d) == Some(t)
    ensures var p := PredictionFor(T, m, d);
      && TimeReadsAs(p.time, PredictedTime(T, m, d).value)
      && PaceReadsAs(p.pace, AveragePace(PredictedTime(T, m, d), d).value)
  {
    DisplaysRead(t, d);
  }

  /** The reading of the time and pace displays of a positive time over a
      positive distance. */
  lemma DisplaysRead(t: real, d: real)
    requires t > 0.0 && d > 0.0
    ensures TimeReadsAs(ShowTime(Some(t)), t)
    ensures PaceReadsAs(ShowPace(AveragePace(Some(t), d)), AveragePace(Some(t), d).value)
  {
    var pace := t * 1000.0 / d;
    PaceSign(t, d);
    assert AveragePace(Some(t), d) == Some(pace);
    TimeDisplayReads(t);
    PaceDisplayReads(pace);
  }

  lemma TimeDisplayReads(t: real)
    requires t > 0.0
    ensures TimeReadsAs(ShowTime(Some(t)), t)
  {
    FormatClockReads(t);
  }

  lemma PaceDisplayReads(pace: real)
    requires pace > 0.0
    ensures PaceReadsAs(ShowPace(Some(pace)), pace)
  {
    FormatPaceReads(pace);
  }

  lemma PaceSign(t: real, d: real)
    requires t > 0.0 && d > 0.0
    ensures t * 1000.0 / d > 0.0
  {
    SignOfQuotient(t * 1000.0, d);
  }

  /** As written, the report shows a predicted 3599.6 s as "59:60", where
      rounding first gives "1:00:00". */
  lemma PredictionTimeSixty()
    ensures ShowTime(Some(3599.6)) == "59:60" && FormatClockCorrected(3599.6) == "1:00:00"
  {
    FormatClockSixty();
  }

  /** As written, the report shows an average pace of 119.6 s/km as "1:60",
      where rounding first gives "2:00". */
  lemma PredictionPaceSixty()
    ensures ShowPace(Some(119.6)) == "1:60" && FormatPaceCorrected(119.6) == "2:00"
  {
    FormatPaceSixty();
  }

  /** The predictions of a list of distances, in order. */
  function Predictions(T: Transcendentals, m: RunningModels, ds: seq<real>): (ps: seq<Prediction>)
    requires forall i :: 0 <= i < |ds| ==> ds[i] != 0.0
    ensures |ps| == |ds|
    ensures forall i :: 0 <= i < |ds| ==> ps[i] == PredictionFor(T, m, ds[i])
  {
    if ds == [] then [] else [PredictionFor(T, m, ds[0])] + Predictions(T, m, ds[1..])
  }

  /** The report's seven predictions, from 1500 m to 50 km in order. */
  function ReportPredictions(T: Transcendentals, m: RunningModels): (ps: seq<Prediction>)
    ensures |ps| == 7
    ensures forall i :: 0 <= i < 7 ==> ps[i] == PredictionFor(T, m, ReportDistances[i])
    ensures forall i, j :: 0 <= i < j < 7 ==> ps[i].meters < ps[j].meters
  {
    Predictions(T, m, ReportDistances)
  }
}
