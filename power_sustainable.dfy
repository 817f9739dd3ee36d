/** The cycling table of sustainable powers: for nine durations from 5 s to
    60 min, the absolute and relative power and the model that gives it. */
module PowerSustainable {
  import opened Wrappers
  import opened RealMath
  import opened PowerFit
  import opened PowerCalculator
  import Text
  import AthleteCard

  /** One duration of the table: its label and its length in seconds. */
  datatype Duration = Duration(name: string, seconds: real)

  const Durations: seq<Duration> :=
    [ Duration("5s", 5.0), Duration("60s", 60.0), Duration("3m", 180.0), Duration("5m", 300.0),
      Duration("10m", 600.0), Duration("20m", 1200.0), Duration("30m", 1800.0),
      Duration("45m", 2700.0), Duration("60m", 3600.0) ]

  /** The table is shown only for an accepted fit with non-zero CP, W' and
      Pmax. */
  predicate Shown(m: PowerModels) {
    m.valid && m.cp != 0.0 && m.wPrime != 0.0 && m.pMax != 0.0
  }

  /** The power of one duration and the model that gives it. */
  datatype Sustained = Sustained(power: real, model: PowerModel)

  /** `calculatePowerForDuration`: below 3 minutes the APR model, except at
      exactly 5 s where Pmax is shown; from 3 to 16 minutes CP-W'; beyond
      that the power law. */
  function PowerForDuration(T: Transcendentals, m: PowerModels, seconds: real): (r: Sustained)
    requires seconds > 0.0
    ensures r.model == Apr <==> seconds < 180.0
    ensures r.model == CpW <==> 180.0 <= seconds <= 960.0
  {
    if seconds < 180.0 then
      if seconds == 5.0 then Sustained(m.pMax, Apr) else Sustained(m.aprParams.At(T, seconds), Apr)
    else if seconds <= 960.0 then Sustained(CpwAt(m, seconds), CpW)
    else Sustained(m.plParams.At(T, seconds), PowerLaw)
  }

  /** One row: the label, the power, the power per kilogram and the model. */
  datatype Row = Row(duration: string, absolutePower: real, relativePower: real, model: PowerModel)

  function RowOf(T: Transcendentals, m: PowerModels, bodyWeight: real, d: Duration): Row
    requires d.seconds > 0.0 && bodyWeight > 0.0
  {
    var s := PowerForDuration(T, m, d.seconds);
    Row(d.name, s.power, s.power / bodyWeight, s.model)
  }

  /** The rows, in the order of the durations; each relative power times the
      body weight is the absolute power. */
  function Table(T: Transcendentals, m: PowerModels, bodyWeight: real): (rows: seq<Row>)
    requires bodyWeight > 0.0
    ensures |rows| == |Durations|
    ensures forall i :: 0 <= i < |rows| ==>
      && rows[i].duration == Durations[i].name
      && rows[i].absolutePower == PowerForDuration(T, m, Durations[i].seconds).power
      && rows[i].model == PowerForDuration(T, m, Durations[i].seconds).model
    ensures forall i :: 0 <= i < |rows| ==> rows[i].relativePower * bodyWeight == rows[i].absolutePower
  {
    seq(|Durations|, i requires 0 <= i < |Durations| => RowOf(T, m, bodyWeight, Durations[i]))
  }

  /** The model labels of the rows: APR for 5 and 60 s, CP-W' for 3 to 10
      minutes, the power law from 20 minutes on. */
  lemma TableModels(T: Transcendentals, m: PowerModels, bodyWeight: real)
    requires bodyWeight > 0.0
    ensures var rows := Table(T, m, bodyWeight);
      && (forall i :: 0 <= i < 2 ==> rows[i].model == Apr)
      && (forall i :: 2 <= i < 5 ==> rows[i].model == CpW)
      && (forall i :: 5 <= i < 9 ==> rows[i].model == PowerLaw)
  {
  }

  /** For an accepted fit the powers from 5 s to 10 minutes fall strictly
      (Pmax, then the APR curve, then CP + W'/t, meeting at the 3-minute
      power), all of them above CP, and the relative powers follow them. */
  lemma ShortRowsDecrease(T: Transcendentals, m: PowerModels, bodyWeight: real)
    requires Lawful(T) && Consistent(m) && m.valid && bodyWeight > 0.0
    ensures var rows := Table(T, m, bodyWeight);
      && (forall i :: 0 <= i < 4 ==>
            rows[i].absolutePower > rows[i + 1].absolutePower && rows[i].relativePower > rows[i + 1].relativePower)
      && rows[2].absolutePower == m.aprParams.po3min
      && rows[4].absolutePower > m.cp
  {
    AprBetween(T, m, 60.0);
    ShortRowsFromPowers(T, m, bodyWeight);
  }

  /** The same, from the APR power at 60 s lying between the 3-minute power
      and Pmax. */
  lemma ShortRowsFromPowers(T: Transcendentals, m: PowerModels, bodyWeight: real)
    requires Consistent(m) && m.valid && bodyWeight > 0.0
    requires m.aprParams.po3min < m.aprParams.At(T, 60.0) < m.pMax
    ensures var rows := Table(T, m, bodyWeight);
      && (forall i :: 0 <= i < 4 ==>
            rows[i].absolutePower > rows[i + 1].absolutePower && rows[i].relativePower > rows[i + 1].relativePower)
      && rows[2].absolutePower == m.aprParams.po3min
      && rows[4].absolutePower > m.cp
  {
    var rows := Table(T, m, bodyWeight);
    assert CpwAt(m, 180.0) == m.aprParams.po3min;
    CpwDecreasing(m, 180.0, 300.0);
    CpwDecreasing(m, 300.0, 600.0);
    ShortRowPowers(T, m, bodyWeight);
    FirstRowsDecrease(rows, bodyWeight);
  }

  /** Rows whose first five absolute powers fall strictly also fall in
      relative power, as each relative power is its absolute power per kg. */
  lemma FirstRowsDecrease(rows: seq<Row>, bodyWeight: real)
    requires |rows| >= 5 && bodyWeight > 0.0
    requires rows[0].relativePower * bodyWeight == rows[0].absolutePower
    requires rows[1].relativePower * bodyWeight == rows[1].absolutePower
    requires rows[2].relativePower * bodyWeight == rows[2].absolutePower
    requires rows[3].relativePower * bodyWeight == rows[3].absolutePower
    requires rows[4].relativePower * bodyWeight == rows[4].absolutePower
    requires rows[0].absolutePower > rows[1].absolutePower > rows[2].absolutePower
    requires rows[2].absolutePower > rows[3].absolutePower > rows[4].absolutePower
    ensures forall i :: 0 <= i < 4 ==>
      rows[i].absolutePower > rows[i + 1].absolutePower && rows[i].relativePower > rows[i + 1].relativePower
  {
    forall i | 0 <= i < 4
      ensures rows[i].absolutePower > rows[i + 1].absolutePower
      ensures rows[i].relativePower > rows[i + 1].relativePower
    {
      assert i == 0 || i == 1 || i == 2 || i == 3;
      RatioOrder(rows[i + 1].relativePower, rows[i].relativePower,
                 rows[i + 1].absolutePower, rows[i].absolutePower, bodyWeight);
    }
  }

  /** The first five rows show Pmax, the APR power at 60 s and the CP-W'
      powers at 3, 5 and 10 minutes. */
  lemma ShortRowPowers(T: Transcendentals, m: PowerModels, bodyWeight: real)
    requires bodyWeight > 0.0
    ensures var rows := Table(T, m, bodyWeight);
      && rows[0].absolutePower == m.pMax
      && rows[1].absolutePower == m.aprParams.At(T, 60.0)
      && rows[2].absolutePower == CpwAt(m, 180.0)
      && rows[3].absolutePower == CpwAt(m, 300.0)
      && rows[4].absolutePower == CpwAt(m, 600.0)
  {
    var rows := Table(T, m, bodyWeight);
    assert Durations[0].seconds == 5.0 && Durations[1].seconds == 60.0;
    assert Durations[2].seconds == 180.0 && Durations[3].seconds == 300.0 && Durations[4].seconds == 600.0;
  }

  /** Two ratios to the same positive weight keep the order of what they
      are ratios of. */
  lemma RatioOrder(r: real, s: real, a: real, b: real, w: real)
    requires w > 0.0 && r * w == a && s * w == b && a < b
    ensures r < s
  {
    if s < r {
      MulLeft(w, s, r);
      assert false;
    }
  }


  /** When the power law does not rise (E <= 1) the rows from 20 to 60
      minutes do not rise either. */
  lemma LongRowsNotRising(T: Transcendentals, m: PowerModels, bodyWeight: real)
    requires Lawful(T) && Consistent(m) && m.valid && bodyWeight > 0.0 && m.plParams.E <= 1.0
    ensures var rows := Table(T, m, bodyWeight);
      forall i :: 5 <= i < 8 ==> rows[i].absolutePower >= rows[i + 1].absolutePower
  {
    var rows := Table(T, m, bodyWeight);
    forall i | 5 <= i < 8
      ensures rows[i].absolutePower >= rows[i + 1].absolutePower
    {
      AthleteCard.PowerLawNotIncreasing(T, m.plParams, Durations[i].seconds, Durations[i + 1].seconds);
    }
  }

  /** The two cells of a row as shown: whole watts, and watts per kilogram
      with one decimal. */
  function Cells(row: Row): (string, string) {
    (FormatPower(row.absolutePower), Text.ToFixed(row.relativePower, 1) + " W/kg")
  }

  /** The absolute cell reads back as the row's power rounded to whole
      watts. */
  lemma AbsoluteCellReads(row: Row)
    requires row.absolutePower >= 0.0
    ensures Text.ReadNat(Cells(row).0) == Some((Round(row.absolutePower), " W"))
  {
    FormatPowerReads(row.absolutePower);
  }

  /** The relative cell reads back as the relative power in tenths, rounded
      to the nearest tenth. */
  lemma RelativeCellReads(row: Row)
    requires row.relativePower >= 0.0
    ensures var cell := Cells(row).1;
      && cell[|cell| - 5..] == " W/kg"
      && Text.ReadFixed(cell[..|cell| - 5], 1) == Some(Round(row.relativePower * 10.0))
  {
    var digits := Text.ToFixed(row.relativePower, 1);
    var cell := digits + " W/kg";
    assert cell[..|cell| - 5] == digits;
    assert Text.Scale(1) == 10;
    Text.ReadToFixed(row.relativePower, 1);
  }
}
