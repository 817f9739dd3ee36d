/** The figures of the cycling PDF report: the sustained-power table over
    twelve durations with its compact duration labels, the VO2max estimate,
    the training zones with their per-kilogram bounds and P50min. */
module PdfReport {
  import opened Wrappers
  import opened RealMath
  import opened Text
  import opened PowerFit
  import opened PowerCalculator
  import PowerSustainable
  import PowerZones
  import ModelParameters
  import AthleteCard

  /** The body weight of the report: the entered weight, or 70 kg when none
      was entered. */
  function PesoKg(weight: real): (peso: real)
    requires weight >= 0.0
    ensures peso > 0.0
    ensures weight > 0.0 ==> peso == weight
  {
    if weight == 0.0 then 70.0 else weight
  }

  /** The durations of the sustained-power table, in seconds. */
  const Durations: seq<nat> := [5, 10, 15, 30, 60, 120, 300, 600, 900, 1200, 1800, 3600]

  /** The report's model choice: the APR curve up to and including 3 minutes
      (with no Pmax shortcut), CP-W' up to 16 minutes, the power law beyond. */
  function SustainedPower(T: Transcendentals, m: PowerModels, seconds: real): (r: PowerSustainable.Sustained)
    requires seconds > 0.0
    ensures r.model == Apr <==> seconds <= 180.0
    ensures r.model == CpW <==> 180.0 < seconds <= 960.0
  {
    if seconds <= 180.0 then PowerSustainable.Sustained(m.aprParams.At(T, seconds), Apr)
    else if seconds <= 960.0 then PowerSustainable.Sustained(CpwAt(m, seconds), CpW)
    else PowerSustainable.Sustained(m.plParams.At(T, seconds), PowerLaw)
  }

  /** The compact label of a whole number of seconds: "Ns" below a minute,
      "MmSs" (or "Mm") below an hour, "HhMm" (or "Hh") from an hour on, the
      leftover seconds dropped. */
  function Label(seconds: nat): string {
    if seconds < 60 then NatToString(seconds) + "s"
    else if seconds < 3600 then
      var mins, secs := seconds / 60, seconds % 60;
      if secs > 0 then NatToString(mins) + ("m" + (NatToString(secs) + "s")) else NatToString(mins) + "m"
    else
      var hours, minutes := seconds / 3600, (seconds % 3600) / 60;
      if minutes > 0 then NatToString(hours) + ("h" + (NatToString(minutes) + "m")) else NatToString(hours) + "h"
  }

  /** Reads a compact label back into seconds: "Ns", "Mm", "Hh", "MmSs" or
      "HhMm"; None for anything else. */
  function ParseLabel(s: string): Option<nat> {
    match ReadNat(s)
    case None => None
    case Some((a, rest)) =>
      if rest == "s" then Some(a)
      else if rest == "m" then Some(60 * a)
      else if rest == "h" then Some(3600 * a)
      else if |rest| >= 2 && (rest[0] == 'm' || rest[0] == 'h') then
        match ReadNat(rest[1..])
        case Some((b, tail)) =>
          if rest[0] == 'm' && tail == "s" then Some(60 * a + b)
          else if rest[0] == 'h' && tail == "m" then Some(3600 * a + 60 * b)
          else None
        case None => None
      else None
  }

  /** A number and a unit letter read back as that many units. */
  lemma ReadSingle(n: nat, unit: char)
    requires unit in "smh"
    ensures ParseLabel(NatToString(n) + [unit])
      == Some(if unit == 's' then n else if unit == 'm' then 60 * n else 3600 * n)
  {
    ReadNatToString(n, [unit]);
  }

  /** "MmSs" and "HhMm" read back as the total number of seconds. */
  lemma ReadPair(a: nat, unit: char, b: nat, last: char)
    requires (unit == 'm' && last == 's') || (unit == 'h' && last == 'm')
    ensures ParseLabel(NatToString(a) + ([unit] + (NatToString(b) + [last])))
      == Some(if unit == 'm' then 60 * a + b else 3600 * a + 60 * b)
  {
    var rest := [unit] + (NatToString(b) + [last]);
    ReadNatToString(a, rest);
    assert rest[1..] == NatToString(b) + [last];
    ReadNatToString(b, [last]);
    assert |rest| >= 2 && rest != "s" && rest != "m" && rest != "h";
  }

  /** Below an hour a label reads back as its number of seconds exactly;
      from an hour on, as its whole minutes (the leftover seconds dropped). */
  lemma LabelReads(seconds: nat)
    ensures seconds < 3600 ==> ParseLabel(Label(seconds)) == Some(seconds)
    ensures seconds >= 3600 ==> ParseLabel(Label(seconds)) == Some(60 * (seconds / 60))
  {
    if seconds < 3600 {
      LabelUnderAnHour(seconds);
    } else {
      LabelFromAnHour(seconds);
    }
  }

  lemma LabelUnderAnHour(seconds: nat)
    requires seconds < 3600
    ensures ParseLabel(Label(seconds)) == Some(seconds)
  {
    if seconds < 60 {
      ReadSingle(seconds, 's');
    } else {
      var mins, secs := seconds / 60, seconds % 60;
      if secs > 0 {
        assert Label(seconds) == NatToString(mins) + (['m'] + (NatToString(secs) + ['s']));
        ReadPair(mins, 'm', secs, 's');
      } else {
        assert Label(seconds) == NatToString(mins) + ['m'];
        ReadSingle(mins, 'm');
      }
    }
  }

  lemma LabelFromAnHour(seconds: nat)
    requires seconds >= 3600
    ensures ParseLabel(Label(seconds)) == Some(60 * (seconds / 60))
  {
    LabelHoursMinutes(seconds);
    HourSplit(seconds);
    SameReading(ParseLabel(Label(seconds)), 3600 * (seconds / 3600) + 60 * ((seconds % 3600) / 60), 60 * (seconds / 60));
  }

  lemma SameReading(r: Option<nat>, a: nat, b: nat)
    requires r == Some(a) && a == b
    ensures r == Some(b)
  {
  }

  /** From an hour on, a label reads back as its whole hours and the whole minutes of the rest. */
  lemma LabelHoursMinutes(seconds: nat)
    requires seconds >= 3600
    ensures ParseLabel(Label(seconds)) == Some(3600 * (seconds / 3600) + 60 * ((seconds % 3600) / 60))
  {
    var hours, minutes := seconds / 3600, (seconds % 3600) / 60;
    if minutes > 0 {
      assert Label(seconds) == NatToString(hours) + (['h'] + (NatToString(minutes) + ['m']));
      ReadPair(hours, 'h', minutes, 'm');
    } else {
      assert Label(seconds) == NatToString(hours) + ['h'];
      ReadSingle(hours, 'h');
    }
  }

  /** The whole minutes of a duration are its whole hours and the whole
      minutes of the rest. */
  lemma HourSplit(seconds: nat)
    ensures 60 * (seconds / 60) == 3600 * (seconds / 3600) + 60 * ((seconds % 3600) / 60)
  {
    var hours, minutes, r := seconds / 3600, (seconds % 3600) / 60, seconds % 3600;
    assert seconds == 3600 * hours + r && 0 <= r < 3600;
    assert r == 60 * minutes + r % 60 && 0 <= r % 60 < 60;
    MinutesOf(seconds, 60 * hours + minutes, r % 60);
  }

  lemma MinutesOf(seconds: int, a: int, q: int)
    requires seconds == 60 * a + q && 0 <= q < 60
    ensures seconds / 60 == a
  {
  }

  /** A value rounded to one decimal, as `Math.round(x * 10) / 10`. */
  function OneDecimal(x: real): real {
    Round(x * 10.0) as real / 10.0
  }

  /** One decimal is within 0.05 of the value and keeps the order of values. */
  lemma OneDecimalNearest(x: real, y: real)
    ensures x - 0.05 < OneDecimal(x) <= x + 0.05
    ensures x <= y ==> OneDecimal(x) <= OneDecimal(y)
  {
    RoundBounds(x * 10.0);
    if x <= y {
      RoundMonotone(x * 10.0, y * 10.0);
    }
  }

  /** One row of the report table: the label, whole watts and watts per
      kilogram to one decimal. */
  datatype Row = Row(duration: string, power: int, powerPerKg: real)

  function RowOf(T: Transcendentals, m: PowerModels, peso: real, seconds: nat): Row
    requires peso > 0.0 && seconds > 0
  {
    var p := SustainedPower(T, m, seconds as real).power;
    Row(Label(seconds), Round(p), OneDecimal(p / peso))
  }

  /** The rows of the table, one per duration, in order. */
  function SustainedTable(T: Transcendentals, m: PowerModels, peso: real): (rows: seq<Row>)
    requires peso > 0.0
    ensures |rows| == |Durations|
  {
    seq(|Durations|, i requires 0 <= i < |Durations| => RowOf(T, m, peso, Durations[i]))
  }

  /** `generateSustainedPowerTable`: a loop over the durations that appends
      one row per duration. */
  method GenerateSustainedPowerTable(T: Transcendentals, m: PowerModels, peso: real) returns (rows: seq<Row>)
    requires peso > 0.0
    ensures |rows| == |Durations|
    ensures forall i :: 0 <= i < |rows| ==> rows[i] == RowOf(T, m, peso, Durations[i])
    ensures rows == SustainedTable(T, m, peso)
  {
    rows := [];
    var i := 0;
    while i < |Durations|
      invariant 0 <= i <= |Durations|
      invariant |rows| == i
      invariant forall j :: 0 <= j < i ==> rows[j] == RowOf(T, m, peso, Durations[j])
    {
      var seconds := Durations[i];
      var power: real;
      if seconds as real <= 180.0 {
        power := m.aprParams.At(T, seconds as real);
      } else if seconds as real <= 960.0 {
        power := m.cp + m.wPrime / seconds as real;
      } else {
        power := m.plParams.At(T, seconds as real);
      }
      assert power == SustainedPower(T, m, seconds as real).power;
      var row := Row(Label(seconds), Round(power), Round(power / peso * 10.0) as real / 10.0);
      assert row == RowOf(T, m, peso, seconds);
      rows := rows + [row];
      i := i + 1;
    }
    assert forall j :: 0 <= j < |rows| ==> rows[j] == SustainedTable(T, m, peso)[j];
  }

  /** The labels of the table read back as the durations themselves. */
  lemma TableLabels(T: Transcendentals, m: PowerModels, peso: real)
    requires peso > 0.0
    ensures var rows := SustainedTable(T, m, peso);
      forall i :: 0 <= i < |rows| ==> ParseLabel(rows[i].duration) == Some(Durations[i])
  {
    forall i | 0 <= i < |Durations|
      ensures ParseLabel(Label(Durations[i])) == Some(Durations[i])
    {
      LabelReads(Durations[i]);
    }
  }

  /** For an accepted fit the unrounded powers fall strictly from 5 s to 15
      minutes (the APR curve, then CP + W'/t), so the whole watts and the
      per-kilogram values shown do not rise there; when the power law does
      not rise (E <= 1), neither do the rows from 20 to 60 minutes. */
  lemma TableDecreasing(T: Transcendentals, m: PowerModels, peso: real)
    requires Lawful(T) && Consistent(m) && m.valid && peso > 0.0
    ensures forall i :: 0 <= i < 8 ==>
      SustainedPower(T, m, Durations[i] as real).power > SustainedPower(T, m, Durations[i + 1] as real).power
    ensures var rows := SustainedTable(T, m, peso);
      forall i :: 0 <= i < 8 ==> rows[i].power >= rows[i + 1].power && rows[i].powerPerKg >= rows[i + 1].powerPerKg
    ensures m.plParams.E <= 1.0 ==> forall i :: 9 <= i < 11 ==>
      SustainedPower(T, m, Durations[i] as real).power >= SustainedPower(T, m, Durations[i + 1] as real).power
  {
    var rows := SustainedTable(T, m, peso);
    forall i | 0 <= i < 8
      ensures SustainedPower(T, m, Durations[i] as real).power > SustainedPower(T, m, Durations[i + 1] as real).power
      ensures rows[i].power >= rows[i + 1].power && rows[i].powerPerKg >= rows[i + 1].powerPerKg
    {
      var s, t := Durations[i] as real, Durations[i + 1] as real;
      var p, q := SustainedPower(T, m, s).power, SustainedPower(T, m, t).power;
      ShortPowersFall(T, m, s, t);
      RoundMonotone(q, p);
      AthleteCard.PerKgOrder(q, p, peso);
      OneDecimalNearest(q / peso, p / peso);
    }
    if m.plParams.E <= 1.0 {
      forall i | 9 <= i < 11
        ensures SustainedPower(T, m, Durations[i] as real).power >= SustainedPower(T, m, Durations[i + 1] as real).power
      {
        AthleteCard.PowerLawNotIncreasing(T, m.plParams, Durations[i] as real, Durations[i + 1] as real);
      }
    }
  }

  /** Up to 16 minutes the report's power falls strictly with duration. */
  lemma ShortPowersFall(T: Transcendentals, m: PowerModels, s: real, t: real)
    requires Lawful(T) && Consistent(m) && m.valid && 0.0 < s < t <= 960.0
    ensures SustainedPower(T, m, s).power > SustainedPower(T, m, t).power
  {
    if t <= 180.0 {
      AprDecreasing(T, m, s, t);
    } else if s > 180.0 {
      CpwDecreasing(m, s, t);
    } else {
      assert SustainedPower(T, m, s).power > m.aprParams.po3min by { AprBetween(T, m, s); }
      assert m.aprParams.po3min == CpwAt(m, 180.0);
      CpwDecreasing(m, 180.0, t);
    }
  }

  /** The report and the on-screen sustainable table disagree at two
      durations: at 5 s the table shows Pmax, above the report's APR power
      (which is the athlete card's NM power), and at 3 minutes the table
      shows the 3-minute power from CP-W' while the report shows the higher
      APR power. */
  lemma SitesDiffer(T: Transcendentals, m: PowerModels)
    requires Lawful(T) && Consistent(m) && m.valid
    ensures PowerSustainable.PowerForDuration(T, m, 5.0).power == m.pMax
    ensures SustainedPower(T, m, 5.0).power == m.aprParams.At(T, 5.0) < m.pMax
    ensures PowerSustainable.PowerForDuration(T, m, 180.0) == PowerSustainable.Sustained(m.aprParams.po3min, CpW)
    ensures SustainedPower(T, m, 180.0).model == Apr
    ensures SustainedPower(T, m, 180.0).power > m.aprParams.po3min
  {
    AprBetween(T, m, 5.0);
    AprBetween(T, m, 180.0);
  }

  /** `calculateVO2Max`: the estimate from the 5-minute CP-W' power, rounded
      to two decimals. */
  function Vo2max(cp: real, wPrime: real, peso: real): real
    requires peso > 0.0
  {
    var p5min := cp + wPrime / 300.0;
    Round((7.44 * (p5min / peso) + 27.51) * 100.0) as real / 100.0
  }

  /** The report's VO2max is the parameters panel's estimate rounded to two
      decimals: within 0.005 of it, and never lower for a lighter rider. */
  lemma Vo2maxRoundsPanel(m: PowerModels, light: real, heavy: real)
    requires Consistent(m) && m.valid && 0.0 < light < heavy
    ensures var v, e := Vo2max(m.cp, m.wPrime, light), ModelParameters.Vo2Relative(m, light);
      e - 0.005 < v <= e + 0.005
    ensures Vo2max(m.cp, m.wPrime, heavy) <= Vo2max(m.cp, m.wPrime, light)
  {
    var e, f := ModelParameters.Vo2Relative(m, light), ModelParameters.Vo2Relative(m, heavy);
    assert Vo2max(m.cp, m.wPrime, light) == Round(e * 100.0) as real / 100.0;
    assert Vo2max(m.cp, m.wPrime, heavy) == Round(f * 100.0) as real / 100.0;
    RoundBounds(e * 100.0);
    assert f < e by { ModelParameters.Vo2Monotone(m, m, light, heavy); }
    RoundMonotone(f * 100.0, e * 100.0);
  }

  /** One training zone of the report: the zone in whole watts with its
      bounds in watts per kilogram to one decimal. */
  datatype TrainingZone = TrainingZone(zone: PowerZones.Zone, lowPerKg: Option<real>, highPerKg: Option<real>)

  /** `getTrainingZones`: the zones from the LT1 estimate, CP and the
      3-minute power, with each per-kilogram bound taken from the unrounded
      boundary. */
  function TrainingZones(m: PowerModels, peso: real): (zs: seq<TrainingZone>)
    requires peso > 0.0
    ensures |zs| == 6
  {
    var lt1, cp, p3min := m.lt1Range.estimate, m.cp, m.aprParams.po3min;
    [ TrainingZone(PowerZones.Zone("Z1", None, Some(Round(lt1 * 0.8)), "1-2", PowerZones.RunningZones.Moderate),
                   None, Some(OneDecimal(lt1 * 0.8 / peso))),
      TrainingZone(PowerZones.Zone("Z2", Some(Round(lt1 * 0.8)), Some(Round(lt1)), "3-4", PowerZones.RunningZones.Moderate),
                   Some(OneDecimal(lt1 * 0.8 / peso)), Some(OneDecimal(lt1 / peso))),
      TrainingZone(PowerZones.Zone("Z3", Some(Round(lt1)), Some(Round(cp * 0.92)), "5-6", PowerZones.RunningZones.Heavy),
                   Some(OneDecimal(lt1 / peso)), Some(OneDecimal(cp * 0.92 / peso))),
      TrainingZone(PowerZones.Zone("Z4", Some(Round(cp * 0.92)), Some(Round(cp * 1.02)), "7", PowerZones.RunningZones.Heavy),
                   Some(OneDecimal(cp * 0.92 / peso)), Some(OneDecimal(cp * 1.02 / peso))),
      TrainingZone(PowerZones.Zone("Z5", Some(Round(cp * 1.02)), Some(Round(p3min)), ">8", PowerZones.RunningZones.Severe),
                   Some(OneDecimal(cp * 1.02 / peso)), Some(OneDecimal(p3min / peso))),
      TrainingZone(PowerZones.Zone("Z6", Some(Round(p3min)), None, ">8", PowerZones.RunningZones.Extreme),
                   Some(OneDecimal(p3min / peso)), None) ]
  }

  /** The report's zones are the on-screen zone table's, with per-kilogram
      bounds that chain like the watt bounds and sit within 0.05 W/kg of the
      boundary over the weight. */
  lemma TrainingZonesAgree(m: PowerModels, peso: real)
    requires peso > 0.0
    ensures var zs, b := TrainingZones(m, peso), PowerZones.Boundaries(m.lt1Range.estimate, m.cp, m.aprParams.po3min);
      && (forall i :: 0 <= i < 6 ==> zs[i].zone == PowerZones.Table(m.lt1Range.estimate, m.cp, m.aprParams.po3min)[i])
      && (forall i :: 0 <= i < 5 ==> zs[i].highPerKg == zs[i + 1].lowPerKg == Some(OneDecimal(b[i] / peso)))
      && (forall i :: 0 <= i < 5 ==> b[i] / peso - 0.05 < OneDecimal(b[i] / peso) <= b[i] / peso + 0.05)
      && zs[0].lowPerKg.None? && zs[5].highPerKg.None?
  {
    var b := PowerZones.Boundaries(m.lt1Range.estimate, m.cp, m.aprParams.po3min);
    forall i | 0 <= i < 5
      ensures b[i] / peso - 0.05 < OneDecimal(b[i] / peso) <= b[i] / peso + 0.05
    {
      OneDecimalNearest(b[i] / peso, b[i] / peso);
    }
  }

  /** What the report computes from the fit and the weight. */
  datatype Figures = Figures(table: seq<Row>, vo2max: real, zones: seq<TrainingZone>,
                             profile: AthleteCard.AthleteProfile, p50min: real)

  /** The report's figures; the athlete profile is always computed for a
      male athlete. */
  function ReportFigures(T: Transcendentals, m: PowerModels, weight: real): (f: Figures)
    requires Consistent(m) && weight >= 0.0
    ensures f.p50min == ModelParameters.P50min(T, m)
    ensures f.profile == AthleteCard.CalculateProfile(T, m, PesoKg(weight), AthleteCard.Male)
  {
    var peso := PesoKg(weight);
    Figures(SustainedTable(T, m, peso), Vo2max(m.cp, m.wPrime, peso), TrainingZones(m, peso),
            AthleteCard.CalculateProfile(T, m, peso, AthleteCard.Male), m.plParams.S * Pow(T, 3000.0, m.plParams.E - 1.0))
  }
}
