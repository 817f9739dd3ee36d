/** The running table of sustainable performances: for ten race distances,
    the predicted time, the pace and the model that gives it. */
module RunningSustainable {
  import opened Wrappers
  import opened RealMath
  import opened RunningFit
  import opened RunningCurves
  import Clock

  /** The race distances of the table, in metres. */
  const Distances: seq<real> :=
    [1500.0, 2000.0, 3000.0, 5000.0, 10000.0, 15000.0, 21097.5, 30000.0, 42195.0, 50000.0]

  /** A time prediction for the table: None when the power law gives no
      finite number. */
  datatype Prediction = Prediction(time: Option<real>, model: RunningModel)

  /** One table row: the distance, the time and pace (seconds per km, None
      when the time is not a number) and the model. */
  datatype Row = Row(meters: real, time: Option<real>, pace: Option<real>, model: RunningModel)

  /** The table is shown only for a valid model with a non-zero CS and D'. */
  predicate Shown(m: RunningModels) {
    m.valid && m.cs != 0.0 && m.dPrime != 0.0
  }

  /** The CS-D' time of a distance, run at CS when the distance lies within
      D' (where the line would give a negative time). */
  function CsTime(m: RunningModels, d: real): real
    requires m.cs != 0.0
  {
    var time := CsDuration(m, d);
    if time < 0.0 then d / m.cs else time
  }

  /** The time that decides the model: the distance over CS, or the CS-D'
      time when D' is positive (falling back to the distance over CS when
      that is negative). */
  function Estimate(m: RunningModels, d: real): real
    requires m.cs != 0.0
  {
    if m.dPrime > 0.0 then CsTime(m, d) else d / m.cs
  }

  /** The predicted time of a distance: the CS-D' time when the estimate is
      at most 1020 s, else the power-law time. */
  function TimeForDistance(T: Transcendentals, m: RunningModels, d: real): (r: Prediction)
    requires Shown(m) && Consistent(m)
    ensures r.model == CsDPrime <==> Estimate(m, d) <= CsLimit
    ensures r.model == CsDPrime ==> r.time == Some(CsTime(m, d))
    ensures r.model == PowerLaw ==> r.time == PowerLawDuration(T, m, d)
  {
    if Estimate(m, d) <= CsLimit then Prediction(Some(CsTime(m, d)), CsDPrime)
    else Prediction(PowerLawDuration(T, m, d), PowerLaw)
  }

  /** For a positive distance the table's time is never negative; it is 0
      only at exactly D' metres; the CS-D' time covers the distance on the
      line beyond D' and at the speed CS within D'; a power-law time is
      positive and covers the distance. */
  lemma TimeForDistanceCovers(T: Transcendentals, m: RunningModels, d: real)
    requires Lawful(T) && Shown(m) && Consistent(m) && d > 0.0
    ensures var r := TimeForDistance(T, m, d);
      && (r.time.Some? ==> r.time.value >= 0.0 && (r.time.value == 0.0 <==> d == m.dPrime))
      && (r.model == CsDPrime && d >= m.dPrime ==> CsDistance(m, r.time.value) == d)
      && (r.model == CsDPrime && d < m.dPrime ==> m.cs * r.time.value == d)
      && (r.model == PowerLaw && r.time.Some? ==> PowerLawDistance(T, m, r.time.value) == d)
      && (r.time.None? <==> r.model == PowerLaw && m.plParams.k + 1.0 == 0.0)
  {
    var r := TimeForDistance(T, m, d);
    var line := CsDuration(m, d);
    assert line < 0.0 <==> d < m.dPrime by { SignOfQuotient(d - m.dPrime, m.cs); }
    assert line == 0.0 <==> d == m.dPrime by { SignOfQuotient(d - m.dPrime, m.cs); }
    assert d / m.cs > 0.0 by { SignOfQuotient(d, m.cs); }
    assert m.cs * (d / m.cs) == d;
    CsRoundTrip(m, d, 0.0);
    if r.model == PowerLaw && m.plParams.k + 1.0 != 0.0 {
      PowerLawDurationCovers(T, m, d);
    }
  }

  /** The table and the calculator agree wherever the calculator uses the
      CS-D' line: a distance whose CS-D' time lies strictly between 0 and
      1020 s gets that time from the CS-D' model in the table too. */
  lemma AgreesWithCalculator(T: Transcendentals, m: RunningModels, d: real)
    requires Shown(m) && Consistent(m)
    requires 0.0 < CsDuration(m, d) < CsLimit
    ensures TimeForDistance(T, m, d) == Prediction(Some(CsDuration(m, d)), CsDPrime)
  {
  }

  /** The row of one distance: its prediction and the pace time / metres * 1000. */
  function RowFor(T: Transcendentals, m: RunningModels, d: real): (r: Row)
    requires Shown(m) && Consistent(m) && d != 0.0
    ensures r.meters == d
    ensures Prediction(r.time, r.model) == TimeForDistance(T, m, d)
    ensures r.time.Some? <==> r.pace.Some?
    ensures r.time.Some? ==> r.pace.value * d == r.time.value * 1000.0
  {
    var p := TimeForDistance(T, m, d);
    var pace := if p.time.Some? then Some(p.time.value / d * 1000.0) else None;
    assert p.time.Some? ==> pace.value * d == p.time.value * 1000.0 by {
      if p.time.Some? { PaceTimesDistance(p.time.value, d); }
    }
    Row(d, p.time, pace, p.model)
  }

  lemma PaceTimesDistance(t: real, d: real)
    requires d != 0.0
    ensures t / d * 1000.0 * d == t * 1000.0
  {
  }

  /** The rows of a list of distances, in the same order. */
  function Rows(T: Transcendentals, m: RunningModels, ds: seq<real>): (rows: seq<Row>)
    requires Shown(m) && Consistent(m)
    requires forall i :: 0 <= i < |ds| ==> ds[i] != 0.0
    ensures |rows| == |ds|
    ensures forall i :: 0 <= i < |ds| ==> rows[i] == RowFor(T, m, ds[i])
  {
    if ds == [] then [] else [RowFor(T, m, ds[0])] + Rows(T, m, ds[1..])
  }

  /** The table: one row per race distance. */
  function Table(T: Transcendentals, m: RunningModels): (rows: seq<Row>)
    requires Shown(m) && Consistent(m)
    ensures |rows| == 10
    ensures forall i :: 0 <= i < 10 ==> rows[i].meters == Distances[i] && rows[i] == RowFor(T, m, Distances[i])
  {
    Rows(T, m, Distances)
  }

  // ---------------------------------------------------------------------
  // The cells as shown

  /** The time and pace cells of a row: the table's own `formatTime` and
      `formatPace` (floor the larger units, round the rest to seconds), the
      placeholder for a time that is not a number. */
  function Cells(row: Row): (string, string) {
    (if row.time.Some? then Clock.FormatClock(row.time.value) else Clock.Placeholder,
     if row.pace.Some? then Clock.FormatPace(row.pace.value) else Clock.Placeholder)
  }

  /** A row whose time is positive shows a time cell that reads back as that
      time and a pace cell that reads back as its pace; a row without a
      positive time shows the placeholder in both cells. */
  lemma CellsRead(row: Row)
    requires row.meters > 0.0 && (row.time.Some? <==> row.pace.Some?)
    requires row.time.Some? ==> row.pace.value * row.meters == row.time.value * 1000.0
    ensures row.time.Some? && row.time.value > 0.0 ==>
      Clock.TimeReadsAs(Cells(row).0, row.time.value) && Clock.PaceReadsAs(Cells(row).1, row.pace.value)
    ensures row.time.None? || row.time.value <= 0.0 ==>
      Cells(row).0 == Clock.Placeholder && Cells(row).1 == Clock.Placeholder
  {
    if row.time.Some? {
      var t, pace := row.time.value, row.pace.value;
      assert pace > 0.0 <==> t > 0.0 by { ProductSign(pace, row.meters, t * 1000.0); }
      Clock.FormatClockReads(t);
      Clock.FormatPaceReads(pace);
    }
  }

  lemma ProductSign(a: real, d: real, c: real)
    requires d > 0.0 && a * d == c
    ensures a > 0.0 <==> c > 0.0
  {
    if a > 0.0 {
      MulLeft(d, 0.0, a);
    } else if a < 0.0 {
      MulLeft(d, a, 0.0);
    }
  }

  /** For a valid model every row of the table shows its time and pace, read
      back as the row's time and pace; only a distance of exactly D' metres,
      or a power law with k + 1 = 0, shows the placeholders. */
  lemma TableCellsRead(T: Transcendentals, m: RunningModels)
    requires Lawful(T) && Shown(m) && Consistent(m)
    ensures forall i :: 0 <= i < 10 ==>
      var row := Table(T, m)[i];
      && (row.time.Some? && row.time.value > 0.0 ==>
            Clock.TimeReadsAs(Cells(row).0, row.time.value) && Clock.PaceReadsAs(Cells(row).1, row.pace.value))
      && (row.time.None? || row.time.value <= 0.0 ==>
            Distances[i] == m.dPrime || m.plParams.k + 1.0 == 0.0)
  {
    forall i | 0 <= i < 10
      ensures var row := Table(T, m)[i];
        && (row.time.Some? && row.time.value > 0.0 ==>
              Clock.TimeReadsAs(Cells(row).0, row.time.value) && Clock.PaceReadsAs(Cells(row).1, row.pace.value))
        && (row.time.None? || row.time.value <= 0.0 ==>
              Distances[i] == m.dPrime || m.plParams.k + 1.0 == 0.0)
    {
      RowCellsRead(T, m, Distances[i]);
    }
  }

  lemma RowCellsRead(T: Transcendentals, m: RunningModels, d: real)
    requires Lawful(T) && Shown(m) && Consistent(m) && d > 0.0
    ensures var row := RowFor(T, m, d);
      && (row.time.Some? && row.time.value > 0.0 ==>
            Clock.TimeReadsAs(Cells(row).0, row.time.value) && Clock.PaceReadsAs(Cells(row).1, row.pace.value))
      && (row.time.None? || row.time.value <= 0.0 ==> d == m.dPrime || m.plParams.k + 1.0 == 0.0)
  {
    CellsRead(RowFor(T, m, d));
    TimeForDistanceCovers(T, m, d);
  }

  /** As written, a pace of 119.6 s/km is shown as "1:60", where rounding
      first gives "2:00". */
  lemma PaceCellSixty(meters: real, time: real, model: RunningModel)
    ensures Cells(Row(meters, Some(time), Some(119.6), model)).1 == "1:60"
    ensures Clock.FormatPaceCorrected(119.6) == "2:00"
  {
    Clock.FormatPaceSixty();
  }
}
