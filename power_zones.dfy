/** The cycling training-zone table: six zones bounded in whole watts by
    80 % of the LT1 estimate, the LT1 estimate, 92 % and 102 % of CP and the
    3-minute power, each with its RPE and exercise domain. */
module PowerZones {
  import opened Wrappers
  import opened RealMath
  import opened PowerFit
  import RunningZones

  /** One zone: its bounds in whole watts (None on the open side), its RPE
      and its domain. */
  datatype Zone = Zone(name: string, low: Option<int>, high: Option<int>, rpe: string, domain: RunningZones.Domain)

  /** The five boundaries between the zones, before rounding. */
  function Boundaries(lt1: real, cp: real, p3min: real): seq<real> {
    [lt1 * 0.8, lt1, cp * 0.92, cp * 1.02, p3min]
  }

  /** The zones from the LT1 estimate, CP and the 3-minute power. */
  function Table(lt1: real, cp: real, p3min: real): (zs: seq<Zone>)
    ensures |zs| == 6
  {
    [ Zone("Z1", None, Some(Round(lt1 * 0.8)), "1-2", RunningZones.Moderate),
      Zone("Z2", Some(Round(lt1 * 0.8)), Some(Round(lt1)), "3-4", RunningZones.Moderate),
      Zone("Z3", Some(Round(lt1)), Some(Round(cp * 0.92)), "5-6", RunningZones.Heavy),
      Zone("Z4", Some(Round(cp * 0.92)), Some(Round(cp * 1.02)), "7", RunningZones.Heavy),
      Zone("Z5", Some(Round(cp * 1.02)), Some(Round(p3min)), ">8", RunningZones.Severe),
      Zone("Z6", Some(Round(p3min)), None, ">8", RunningZones.Extreme) ]
  }

  /** The domain and RPE of each zone, by position. */
  const Domains: seq<RunningZones.Domain> :=
    [RunningZones.Moderate, RunningZones.Moderate, RunningZones.Heavy, RunningZones.Heavy,
     RunningZones.Severe, RunningZones.Extreme]
  const Rpes: seq<string> := ["1-2", "3-4", "5-6", "7", ">8", ">8"]

  /** The zones chain without gaps: zone i ends, and zone i + 1 starts, at
      boundary i rounded to whole watts; only Z1 is open below and only Z6
      above; the domains and RPEs follow the fixed lookup. */
  lemma TableChains(lt1: real, cp: real, p3min: real)
    ensures var zs, b := Table(lt1, cp, p3min), Boundaries(lt1, cp, p3min);
      && (forall i :: 0 <= i < 5 ==> zs[i].high == zs[i + 1].low == Some(Round(b[i])))
      && zs[0].low.None? && zs[5].high.None?
      && (forall i :: 0 <= i < 6 ==> zs[i].domain == Domains[i] && zs[i].rpe == Rpes[i])
  {
  }

  /** The table is shown only for an accepted fit with a non-zero CP. */
  function ZonesTable(m: PowerModels): (r: Option<seq<Zone>>)
    ensures Consistent(m) ==> (r.Some? <==> m.valid)
    ensures r.Some? ==> r.value == Table(m.lt1Range.estimate, m.cp, m.aprParams.po3min)
  {
    if m.valid && m.cp != 0.0 then Some(Table(m.lt1Range.estimate, m.cp, m.aprParams.po3min)) else None
  }

  /** For an accepted fit the raw boundaries rise strictly exactly when W' lies
      strictly between 3.6 and 408 times CP: the LT1 estimate stays below
      92 % of CP iff W' < 408 CP, and the 3-minute power exceeds 102 % of CP
      iff W' > 3.6 CP. */
  lemma BoundariesOrdered(m: PowerModels)
    requires Consistent(m) && m.valid
    ensures var b := Boundaries(m.lt1Range.estimate, m.cp, m.aprParams.po3min);
      && b[0] < b[1] && b[2] < b[3]
      && (b[1] < b[2] <==> m.wPrime < 408.0 * m.cp)
      && (b[3] < b[4] <==> 3.6 * m.cp < m.wPrime)
  {
    var cp, w := m.cp, m.wPrime;
    assert m.lt1Range.estimate == (cp + w / 1800.0) * 0.75;
    assert w / 1800.0 * 1800.0 == w && w / 180.0 * 180.0 == w;
  }

  /** When the raw boundaries rise, the rounded bounds of every zone are in
      order (rounding can close a zone but never invert it). */
  lemma ZoneBoundsInOrder(m: PowerModels)
    requires Consistent(m) && m.valid && 3.6 * m.cp < m.wPrime < 408.0 * m.cp
    ensures var zs := Table(m.lt1Range.estimate, m.cp, m.aprParams.po3min);
      forall i :: 1 <= i < 5 ==> zs[i].low.value <= zs[i].high.value
  {
    var b := Boundaries(m.lt1Range.estimate, m.cp, m.aprParams.po3min);
    BoundariesOrdered(m);
    TableChains(m.lt1Range.estimate, m.cp, m.aprParams.po3min);
    RoundMonotone(b[0], b[1]);
    RoundMonotone(b[1], b[2]);
    RoundMonotone(b[2], b[3]);
    RoundMonotone(b[3], b[4]);
  }
}
