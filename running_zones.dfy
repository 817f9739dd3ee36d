/** The running training-zone table: six zones bounded by speeds (km/h) and
    the matching paces (s/km), taken from the LT1 estimate and from the
    speeds the models predict for 60, 25 and 3 minutes. */
module RunningZones {
  import opened Wrappers
  import opened RealMath
  import opened RunningFit
  import Text
  import Clock

  /** The table is built only for a valid model whose CS, D', VO2max pace and
      CS pace are all non-zero. */
  predicate Shown(m: RunningModels) {
    m.valid && m.cs != 0.0 && m.dPrime != 0.0 && m.vo2maxPace != 0.0 && m.csPace != 0.0
  }

  /** The sustainable speed in km/h for a duration: the CS-D' average speed
      up to 3 minutes, the power-law speed beyond. */
  function VelocityAtTime(T: Transcendentals, m: RunningModels, t: real): real
    requires t > 0.0
  {
    if t <= 180.0 then ModelSpeed(m.cs, m.dPrime, t) * 3.6
    else m.plParams.SpeedAt(T, t) * 3.6
  }

  /** For a valid model every sustainable speed is positive; up to 3 minutes
      it is (CS + D'/t) m/s in km/h. */
  lemma VelocityPositive(T: Transcendentals, m: RunningModels, t: real)
    requires Lawful(T) && Consistent(m) && m.valid && t > 0.0
    ensures VelocityAtTime(T, m, t) > 0.0
    ensures t <= 180.0 ==> VelocityAtTime(T, m, t) == (m.cs + m.dPrime / t) * 3.6
  {
    if t <= 180.0 {
      assert ModelSpeed(m.cs, m.dPrime, t) == m.cs + m.dPrime / t && m.cs + m.dPrime / t > 0.0 by {
        ShortSpeed(m.cs, m.dPrime, t);
      }
    } else {
      assert m.plParams.SpeedAt(T, t) > 0.0 by {
        var p := Pow(T, t, m.plParams.k);
        assert p > 0.0 by { PowPositive(T, t, m.plParams.k); }
        MulLeft(m.plParams.A, 0.0, p);
      }
    }
  }

  lemma ShortSpeed(cs: real, dPrime: real, t: real)
    requires cs > 0.0 && dPrime > 0.0 && t > 0.0
    ensures ModelSpeed(cs, dPrime, t) == cs + dPrime / t && cs + dPrime / t > 0.0
  {
    DivUnique(cs * t + dPrime, t, cs + dPrime / t);
    SignOfQuotient(dPrime, t);
  }

  /** The pace in s/km of a speed in km/h. */
  function PaceOf(v: real): real
    requires v != 0.0
  {
    3600.0 / v
  }

  /** The pace at the 3-minute speed is the model's VO2max pace. */
  lemma ThreeMinutePaceIsVo2max(T: Transcendentals, m: RunningModels)
    requires Lawful(T) && Consistent(m) && m.valid
    ensures VelocityAtTime(T, m, 180.0) > 0.0
    ensures PaceOf(VelocityAtTime(T, m, 180.0)) == Vo2maxPace(m.cs, m.dPrime)
  {
    VelocityPositive(T, m, 180.0);
    var d := m.cs * 180.0 + m.dPrime;
    var v := VelocityAtTime(T, m, 180.0);
    assert v == d / 180.0 * 3.6;
    assert d > 0.0;
    DivUnique(3600.0, v, 180000.0 / d) by {
      assert (180000.0 / d) * (d / 180.0 * 3.6) == 3600.0;
    }
  }

  datatype Domain = Moderate | Heavy | Severe | Extreme

  /** The domain and the RPE of each zone, Z1 to Z6. */
  const Domains: seq<Domain> := [Moderate, Moderate, Heavy, Heavy, Severe, Extreme]
  const Rpes: seq<string> := ["1-2", "3-4", "5-6", "7", ">8", ">8"]

  /** One zone: its speed bounds and the paces at those bounds (None on an
      open side), its RPE and its domain. The fast pace is the pace at the
      upper speed, the slow pace the pace at the lower speed. */
  datatype Zone = Zone(name: string, lowSpeed: Option<real>, highSpeed: Option<real>,
                       slowPace: Option<real>, fastPace: Option<real>, rpe: string, domain: Domain)

  /** The six zones from the LT1 pace and the 60-, 25- and 3-minute speeds:
      up to 86% of the LT1 speed, then the LT1 speed, then those three speeds;
      each pace bound is 3600 over its speed bound. */
  function Table(lt1Pace: real, v60: real, v25: real, v3: real): (zs: seq<Zone>)
    requires lt1Pace != 0.0 && v60 != 0.0 && v25 != 0.0 && v3 != 0.0
    ensures |zs| == 6
  {
    var lt1 := 3600.0 / lt1Pace;
    var p60, p25, p3 := PaceOf(v60), PaceOf(v25), PaceOf(v3);
    [ Zone("Z1", None, Some(lt1 * 0.86), None, Some(lt1Pace / 0.86), "1-2", Moderate),
      Zone("Z2", Some(lt1 * 0.86), Some(lt1), Some(lt1Pace / 0.86), Some(lt1Pace), "3-4", Moderate),
      Zone("Z3", Some(lt1), Some(v60), Some(lt1Pace), Some(p60), "5-6", Heavy),
      Zone("Z4", Some(v60), Some(v25), Some(p60), Some(p25), "7", Heavy),
      Zone("Z5", Some(v25), Some(v3), Some(p25), Some(p3), ">8", Severe),
      Zone("Z6", Some(v3), None, Some(p3), None, ">8", Extreme) ]
  }

  /** A speed bound and the pace shown beside it describe the same boundary. */
  predicate Matches(speed: Option<real>, pace: Option<real>) {
    (speed.Some? <==> pace.Some?) && (speed.Some? ==> speed.value * pace.value == 3600.0)
  }

  /** The zones chain without gaps (each zone's upper speed and fast pace
      are the next zone's lower speed and slow pace), only the first zone is
      open below and only the last above, every pace bound is the pace of
      its speed bound, and the domains and RPEs follow the fixed lookup. */
  lemma TableChains(lt1Pace: real, v60: real, v25: real, v3: real)
    requires lt1Pace != 0.0 && v60 != 0.0 && v25 != 0.0 && v3 != 0.0
    ensures var zs := Table(lt1Pace, v60, v25, v3);
      && (forall i :: 0 <= i < 5 ==> zs[i].highSpeed == zs[i + 1].lowSpeed && zs[i].fastPace == zs[i + 1].slowPace)
      && (forall i :: 0 <= i < 6 ==> (zs[i].lowSpeed.None? <==> i == 0) && (zs[i].highSpeed.None? <==> i == 5))
      && (forall i :: 0 <= i < 6 ==> Matches(zs[i].lowSpeed, zs[i].slowPace) && Matches(zs[i].highSpeed, zs[i].fastPace))
      && (forall i :: 0 <= i < 6 ==> zs[i].domain == Domains[i] && zs[i].rpe == Rpes[i])
  {
    TableMatches(lt1Pace, v60, v25, v3);
  }

  /** Every pace bound of the table is the pace of its speed bound. */
  lemma TableMatches(lt1Pace: real, v60: real, v25: real, v3: real)
    requires lt1Pace != 0.0 && v60 != 0.0 && v25 != 0.0 && v3 != 0.0
    ensures var zs := Table(lt1Pace, v60, v25, v3);
      forall i :: 0 <= i < 6 ==> Matches(zs[i].lowSpeed, zs[i].slowPace) && Matches(zs[i].highSpeed, zs[i].fastPace)
  {
    var lt1 := 3600.0 / lt1Pace;
    assert Matches(Some(lt1), Some(lt1Pace)) by { InverseProduct(lt1Pace); }
    assert Matches(Some(lt1 * 0.86), Some(lt1Pace / 0.86)) by {
      InverseProduct(lt1Pace);
      ScaledProduct(lt1, lt1Pace, 0.86);
    }
    assert Matches(Some(v60), Some(PaceOf(v60))) by { InverseProduct(v60); }
    assert Matches(Some(v25), Some(PaceOf(v25))) by { InverseProduct(v25); }
    assert Matches(Some(v3), Some(PaceOf(v3))) by { InverseProduct(v3); }
  }

  /** The zones of a model: the LT1 estimate pace and the speeds at 3600,
      1500 and 180 s. */
  function Zones(T: Transcendentals, m: RunningModels): (zs: seq<Zone>)
    requires Lawful(T) && Shown(m) && Consistent(m)
    ensures |zs| == 6
  {
    Lt1Band(m.cs, m.plParams.k + 1.0);
    VelocityPositive(T, m, 3600.0);
    VelocityPositive(T, m, 1500.0);
    VelocityPositive(T, m, 180.0);
    Table(m.lt1Range.estimate, VelocityAtTime(T, m, 3600.0), VelocityAtTime(T, m, 1500.0), VelocityAtTime(T, m, 180.0))
  }

  /** For a model the zones chain as above, and the fast end of the severe
      zone Z5 is the VO2max pace. */
  lemma ZonesChain(T: Transcendentals, m: RunningModels)
    requires Lawful(T) && Shown(m) && Consistent(m)
    ensures var zs := Zones(T, m);
      && (forall i :: 0 <= i < 5 ==> zs[i].highSpeed == zs[i + 1].lowSpeed && zs[i].fastPace == zs[i + 1].slowPace)
      && (forall i :: 0 <= i < 6 ==> Matches(zs[i].lowSpeed, zs[i].slowPace) && Matches(zs[i].highSpeed, zs[i].fastPace))
      && zs[4].domain == Severe && zs[4].fastPace == Some(Vo2maxPace(m.cs, m.dPrime))
  {
    assert m.lt1Range.estimate > 0.0 by { Lt1Band(m.cs, m.plParams.k + 1.0); }
    var v60, v25, v3 := VelocityAtTime(T, m, 3600.0), VelocityAtTime(T, m, 1500.0), VelocityAtTime(T, m, 180.0);
    assert v60 > 0.0 by { VelocityPositive(T, m, 3600.0); }
    assert v25 > 0.0 by { VelocityPositive(T, m, 1500.0); }
    assert v3 > 0.0 && PaceOf(v3) == Vo2maxPace(m.cs, m.dPrime) by { ThreeMinutePaceIsVo2max(T, m); }
    assert Zones(T, m) == Table(m.lt1Range.estimate, v60, v25, v3);
    TableChains(m.lt1Range.estimate, v60, v25, v3);
  }

  // ---------------------------------------------------------------------
  // The cells as shown

  /** The speed cell: the bounds in km/h with two decimals, "≤" before the
      only bound of the zone open below and ">" before that of the zone open
      above. */
  function SpeedRange(z: Zone): string {
    match (z.lowSpeed, z.highSpeed)
    case (None, Some(h)) => "≤ " + Text.ToFixed(h, 2)
    case (Some(l), None) => "> " + Text.ToFixed(l, 2)
    case (Some(l), Some(h)) => Text.ToFixed(l, 2) + " – " + Text.ToFixed(h, 2)
    case (None, None) => ""
  }

  /** The pace cell: the component's own `formatPace` (floor the minutes,
      round the rest) of the fast pace, then of the slow pace; "≥" before
      the only pace of the zone open below and "<" before that of the zone
      open above. */
  function PaceRange(z: Zone): string {
    match (z.fastPace, z.slowPace)
    case (Some(f), None) => "≥ " + Clock.FormatPace(f)
    case (None, Some(p)) => "< " + Clock.FormatPace(p)
    case (Some(f), Some(p)) => Clock.FormatPace(f) + " – " + Clock.FormatPace(p)
    case (None, None) => ""
  }

  /** The two cells of a zone as shown. */
  function Cells(z: Zone): (string, string) {
    (SpeedRange(z), PaceRange(z))
  }

  /** A speed shown with two decimals reads back as the speed in hundredths,
      rounded to the nearest hundredth. */
  predicate SpeedReadsAs(shown: string, v: real) {
    Text.ReadFixed(shown, 2) == Some(Round(v * 100.0))
  }

  /** The speed cell reads back as its bounds: after the two-character
      marker for an open zone, or as two bounds around " – ". */
  predicate SpeedRangeReads(z: Zone) {
    var c := SpeedRange(z);
    && (z.lowSpeed.None? && z.highSpeed.Some? ==>
          |c| > 2 && c[..2] == "≤ " && SpeedReadsAs(c[2..], z.highSpeed.value))
    && (z.lowSpeed.Some? && z.highSpeed.None? ==>
          |c| > 2 && c[..2] == "> " && SpeedReadsAs(c[2..], z.lowSpeed.value))
    && (z.lowSpeed.Some? && z.highSpeed.Some? ==>
          exists k :: 0 < k && k + 3 < |c| && SpeedReadsAs(c[..k], z.lowSpeed.value)
            && c[k..k + 3] == " – " && SpeedReadsAs(c[k + 3..], z.highSpeed.value))
  }

  /** The pace cell reads back as its paces, fast first, each a display
      whose seconds field may reach 60. */
  predicate PaceRangeReads(z: Zone) {
    var c := PaceRange(z);
    && (z.fastPace.Some? && z.slowPace.None? ==>
          |c| > 2 && c[..2] == "≥ " && Clock.PaceReadsAs(c[2..], z.fastPace.value))
    && (z.fastPace.None? && z.slowPace.Some? ==>
          |c| > 2 && c[..2] == "< " && Clock.PaceReadsAs(c[2..], z.slowPace.value))
    && (z.fastPace.Some? && z.slowPace.Some? ==>
          exists k :: 0 < k && k + 3 < |c| && Clock.PaceReadsAs(c[..k], z.fastPace.value)
            && c[k..k + 3] == " – " && Clock.PaceReadsAs(c[k + 3..], z.slowPace.value))
  }

  /** A zone with non-negative speed bounds shows a speed cell that reads
      back as those bounds. */
  lemma SpeedCellReads(z: Zone)
    requires z.lowSpeed.Some? ==> z.lowSpeed.value >= 0.0
    requires z.highSpeed.Some? ==> z.highSpeed.value >= 0.0
    ensures SpeedRangeReads(z)
  {
    var c := SpeedRange(z);
    if z.lowSpeed.Some? {
      SpeedShown(z.lowSpeed.value);
    }
    if z.highSpeed.Some? {
      SpeedShown(z.highSpeed.value);
    }
    if z.lowSpeed.Some? && z.highSpeed.Some? {
      var a, b := Text.ToFixed(z.lowSpeed.value, 2), Text.ToFixed(z.highSpeed.value, 2);
      var k := |a|;
      assert c == a + " – " + b;
      assert c[..k] == a && c[k..k + 3] == " – " && c[k + 3..] == b;
    } else if z.lowSpeed.Some? {
      assert c[2..] == Text.ToFixed(z.lowSpeed.value, 2);
    } else if z.highSpeed.Some? {
      assert c[2..] == Text.ToFixed(z.highSpeed.value, 2);
    }
  }

  lemma SpeedShown(v: real)
    requires v >= 0.0
    ensures SpeedReadsAs(Text.ToFixed(v, 2), v)
  {
    Text.ReadToFixed(v, 2);
    assert Text.Scaled(v, 2) == v * 100.0;
  }

  /** A zone with positive pace bounds shows a pace cell that reads back as
      those paces. */
  lemma PaceCellReads(z: Zone)
    requires z.fastPace.Some? ==> z.fastPace.value > 0.0
    requires z.slowPace.Some? ==> z.slowPace.value > 0.0
    ensures PaceRangeReads(z)
  {
    match (z.fastPace, z.slowPace)
    case (Some(f), None) =>
      PaceShown(f);
      MarkedPace("≥ ", Clock.FormatPace(f), f);
    case (None, Some(p)) =>
      PaceShown(p);
      MarkedPace("< ", Clock.FormatPace(p), p);
    case (Some(f), Some(p)) =>
      PaceShown(f);
      PaceShown(p);
      PairedPaces(Clock.FormatPace(f), Clock.FormatPace(p), f, p);
    case (None, None) =>
  }

  lemma MarkedPace(mark: string, a: string, p: real)
    requires |mark| == 2 && Clock.PaceReadsAs(a, p) && |a| > 0
    ensures var c := mark + a; |c| > 2 && c[..2] == mark && Clock.PaceReadsAs(c[2..], p)
  {
    assert (mark + a)[2..] == a;
  }

  lemma PairedPaces(a: string, b: string, f: real, p: real)
    requires |a| > 0 && |b| > 0 && Clock.PaceReadsAs(a, f) && Clock.PaceReadsAs(b, p)
    ensures var c := a + " – " + b;
      exists k :: 0 < k && k + 3 < |c| && Clock.PaceReadsAs(c[..k], f)
        && c[k..k + 3] == " – " && Clock.PaceReadsAs(c[k + 3..], p)
  {
    var c := a + " – " + b;
    var k := |a|;
    assert c[..k] == a && c[k..k + 3] == " – " && c[k + 3..] == b;
  }

  lemma PaceShown(p: real)
    requires p > 0.0
    ensures Clock.PaceReadsAs(Clock.FormatPace(p), p) && |Clock.FormatPace(p)| > 0
  {
    Clock.FormatPaceReads(p);
  }

  /** With a positive LT1 pace and positive speeds every cell of the table
      reads back as its zone's bounds. */
  lemma TableCellsRead(lt1Pace: real, v60: real, v25: real, v3: real)
    requires lt1Pace > 0.0 && v60 > 0.0 && v25 > 0.0 && v3 > 0.0
    ensures var zs := Table(lt1Pace, v60, v25, v3);
      forall i :: 0 <= i < 6 ==> SpeedRangeReads(zs[i]) && PaceRangeReads(zs[i])
  {
    var zs := Table(lt1Pace, v60, v25, v3);
    assert 3600.0 / lt1Pace > 0.0 by { SignOfQuotient(3600.0, lt1Pace); }
    assert PaceOf(v60) > 0.0 && PaceOf(v25) > 0.0 && PaceOf(v3) > 0.0 by {
      SignOfQuotient(3600.0, v60);
      SignOfQuotient(3600.0, v25);
      SignOfQuotient(3600.0, v3);
    }
    assert lt1Pace / 0.86 > 0.0;
    forall i | 0 <= i < 6
      ensures SpeedRangeReads(zs[i]) && PaceRangeReads(zs[i])
    {
      SpeedCellReads(zs[i]);
      PaceCellReads(zs[i]);
    }
  }

  /** For a model every cell of its zone table reads back as its zone's
      bounds. */
  lemma ZonesCellsRead(T: Transcendentals, m: RunningModels)
    requires Lawful(T) && Shown(m) && Consistent(m)
    ensures forall i :: 0 <= i < 6 ==> SpeedRangeReads(Zones(T, m)[i]) && PaceRangeReads(Zones(T, m)[i])
  {
    assert m.lt1Range.estimate > 0.0 by { Lt1Band(m.cs, m.plParams.k + 1.0); }
    var v60, v25, v3 := VelocityAtTime(T, m, 3600.0), VelocityAtTime(T, m, 1500.0), VelocityAtTime(T, m, 180.0);
    assert v60 > 0.0 by { VelocityPositive(T, m, 3600.0); }
    assert v25 > 0.0 by { VelocityPositive(T, m, 1500.0); }
    assert v3 > 0.0 by { VelocityPositive(T, m, 180.0); }
    assert Zones(T, m) == Table(m.lt1Range.estimate, v60, v25, v3);
    TableCellsRead(m.lt1Range.estimate, v60, v25, v3);
  }

  /** As written, a 3-minute speed of 3600 / 119.6 km/h puts "< 1:60" in
      the pace cell of Z6, where rounding first gives "< 2:00". */
  lemma ZonePaceSixty(lt1Pace: real, v60: real, v25: real)
    requires lt1Pace != 0.0 && v60 != 0.0 && v25 != 0.0
    ensures var c := PaceRange(Table(lt1Pace, v60, v25, 3600.0 / 119.6)[5]);
      |c| == 6 && c[..2] == "< " && c[2..] == "1:60"
    ensures Clock.FormatPaceCorrected(119.6) == "2:00"
  {
    var v3 := 3600.0 / 119.6;
    assert PaceOf(v3) == 119.6 by {
      DivUnique(3600.0, v3, 119.6);
    }
    LastZone(lt1Pace, v60, v25, v3);
    Clock.FormatPaceSixty();
    OpenAbove(Table(lt1Pace, v60, v25, v3)[5], 119.6, "1:60");
  }

  lemma LastZone(lt1Pace: real, v60: real, v25: real, v3: real)
    requires lt1Pace != 0.0 && v60 != 0.0 && v25 != 0.0 && v3 != 0.0
    ensures Table(lt1Pace, v60, v25, v3)[5].fastPace.None?
    ensures Table(lt1Pace, v60, v25, v3)[5].slowPace == Some(PaceOf(v3))
  {
  }

  lemma OpenAbove(z: Zone, p: real, shown: string)
    requires z.fastPace.None? && z.slowPace == Some(p) && Clock.FormatPace(p) == shown
    ensures var c := PaceRange(z); |c| == |shown| + 2 && c[..2] == "< " && c[2..] == shown
  {
  }

  lemma InverseProduct(x: real)
    requires x != 0.0
    ensures (3600.0 / x) * x == 3600.0 && x * (3600.0 / x) == 3600.0
  {
  }

  lemma ScaledProduct(a: real, b: real, c: real)
    requires a * b == 3600.0 && c != 0.0
    ensures (a * c) * (b / c) == 3600.0
  {
    assert (a * c) * (b / c) == a * b * (c / c);
  }
}
