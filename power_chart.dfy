/** The cycling power chart: the grid of durations it samples, the three
    curve series it draws over that grid, the models its tooltip lists, the
    bounds of its power axis and its duration labels. */
module PowerChart {
  import opened Wrappers
  import opened RealMath
  import opened Text
  import opened PowerFit
  import AthleteCard

  // ---------------------------------------------------------------------
  // Duration labels

  /** `formatTime` as written, on the rounded number of seconds: "Ns" below
      a minute; "Mm Ss" (brief "Mm") below an hour; otherwise "Hh Mm" (brief
      "Hh") with the minutes of the last hour rounded on their own. */
  function FormatTime(seconds: real, brief: bool): string {
    FormatWhole(Round(seconds), brief)
  }

  function FormatWhole(sec: int, brief: bool): string {
    if sec < 60 then IntToString(sec) + "s"
    else if sec < 3600 then
      var m, s := sec / 60, sec % 60;
      if brief then NatToString(m) + "m" else NatToString(m) + ("m " + (NatToString(s) + "s"))
    else
      var h := sec / 3600;
      var m := Round((sec % 3600) as real / 60.0);
      if brief then NatToString(h) + "h" else NatToString(h) + ("h " + (IntToString(m) + "m"))
  }

  /** Below an hour the full label reads back as the rounded number of
      seconds, zero seconds included ("5m 0s"). */
  lemma FormatTimeUnderAnHour(sec: int)
    requires 0 <= sec < 3600
    ensures ParseDuration(FormatWhole(sec, false)) == Some(sec)
  {
    if sec < 60 {
      ParseSingle(sec, 's');
    } else {
      ParsePair(sec / 60, 'm', sec % 60, 's');
    }
  }

  /** The brief label of a tick keeps only its largest unit: it reads back
      as the seconds rounded down to whole minutes below an hour and to
      whole hours from an hour on. */
  lemma FormatTimeBrief(sec: int)
    requires sec >= 0
    ensures ParseDuration(FormatWhole(sec, true)) ==
      Some(if sec < 60 then sec else if sec < 3600 then 60 * (sec / 60) else 3600 * (sec / 3600))
  {
    if sec < 60 {
      ParseSingle(sec, 's');
    } else if sec < 3600 {
      ParseSingle(sec / 60, 'm');
    } else {
      ParseSingle(sec / 3600, 'h');
    }
  }

  /** The major ticks of the duration axis, each labelled in brief. */
  const MajorTicks: seq<int> := [1, 5, 20, 60, 180, 300, 600, 1200, 3600, 7200, 21600]

  /** Every major tick is a whole number of its largest unit, so its brief
      label reads back exactly. */
  lemma MajorTicksExact()
    ensures forall i :: 0 <= i < |MajorTicks| ==>
      ParseDuration(FormatWhole(MajorTicks[i], true)) == Some(MajorTicks[i])
  {
    forall i | 0 <= i < |MajorTicks|
      ensures ParseDuration(FormatWhole(MajorTicks[i], true)) == Some(MajorTicks[i])
    {
      FormatTimeBrief(MajorTicks[i]);
    }
  }

  /** As written, 1 h 59 min 30 s is labelled "1h 60m". */
  lemma FormatTimeSixtyMinutes()
    ensures FormatTime(7170.0, false) == "1h 60m"
    ensures ParseDuration(FormatTime(7170.0, false)) == Some(7200)
  {
    assert Round(7170.0) == 7170;
    assert Round(3570 as real / 60.0) == 60;
    assert IntToString(60) == NatToString(60);
    SixtyMinutesShown();
    ParsePair(1, 'h', 60, 'm');
  }

  /** The label with the hour branch rounding the total to whole minutes
      before splitting it, so the minutes stay below 60. */
  function FormatTimeCorrected(seconds: real, brief: bool): string {
    var sec := Round(seconds);
    if sec < 3600 || brief then FormatWhole(sec, brief) else HoursMinutes(Round(sec as real / 60.0))
  }

  /** "Hh Mm" for a whole number of minutes. */
  function HoursMinutes(total: int): string
    requires total >= 0
  {
    NatToString(total / 60) + ("h " + (NatToString(total % 60) + "m"))
  }

  lemma HoursMinutesReads(total: int)
    requires total >= 0
    ensures ParseDuration(HoursMinutes(total)) == Some(60 * total)
  {
    ParsePair(total / 60, 'h', total % 60, 'm');
  }

  /** From an hour on, the corrected full label reads back as a whole number
      of minutes within 30 s of the rounded duration, with its minutes field
      below 60. */
  lemma FormatTimeCorrectedNearest(seconds: real)
    requires Round(seconds) >= 3600
    ensures var v := ParseDuration(FormatTimeCorrected(seconds, false));
      && v.Some? && v.value % 60 == 0
      && Round(seconds) - 30 <= v.value <= Round(seconds) + 30
  {
    var sec := Round(seconds);
    assert FormatTimeCorrected(seconds, false) == HoursMinutes(Round(sec as real / 60.0));
    HoursMinutesNearest(sec);
  }

  lemma HoursMinutesNearest(sec: int)
    requires sec >= 3600
    ensures var v := ParseDuration(HoursMinutes(Round(sec as real / 60.0)));
      && v.Some? && v.value % 60 == 0
      && sec - 30 <= v.value <= sec + 30
  {
    var total := Round(sec as real / 60.0);
    NearestMinute(sec);
    HoursMinutesReads(total);
    assert (60 * total) % 60 == 0;
  }

  // ---------------------------------------------------------------------
  // The time grid

  /** The raw grid: every second up to 3 minutes, every 30 s up to 20
      minutes, then every 3 minutes up to 20640 s. */
  function RawGrid(): (g: seq<int>)
    ensures |g| == 322
  {
    seq(180, i => i + 1) + seq(34, i => 180 + (i + 1) * 30) + seq(108, i => 1200 + (i + 1) * 180)
  }

  /** Position i of the raw grid in closed form. */
  function GridAt(i: int): int {
    if i < 180 then i + 1 else if i < 214 then 180 + (i - 179) * 30 else 1200 + (i - 213) * 180
  }

  lemma RawGridAt()
    ensures forall i :: 0 <= i < 322 ==> RawGrid()[i] == GridAt(i)
  {
    var a, b, c := seq(180, i => i + 1), seq(34, i => 180 + (i + 1) * 30), seq(108, i => 1200 + (i + 1) * 180);
    assert RawGrid() == a + b + c;
    forall i | 0 <= i < 322
      ensures RawGrid()[i] == GridAt(i)
    {
      if i < 180 {
        assert RawGrid()[i] == a[i];
      } else if i < 214 {
        assert RawGrid()[i] == b[i - 180];
      } else {
        assert RawGrid()[i] == c[i - 214];
      }
    }
  }

  predicate StrictlyIncreasing(s: seq<int>) {
    forall i, j :: 0 <= i < j < |s| ==> s[i] < s[j]
  }

  /** The `indexOf(v) === i` filter: the elements of `s[..n]` that do not
      occur earlier. */
  function KeepFirst(s: seq<int>): seq<int> {
    if |s| == 0 then []
    else
      var init := s[..|s| - 1];
      KeepFirst(init) + (if s[|s| - 1] in init then [] else [s[|s| - 1]])
  }

  /** On a strictly increasing sequence the filter keeps everything. */
  lemma {:induction false} KeepFirstIncreasing(s: seq<int>)
    requires StrictlyIncreasing(s)
    ensures KeepFirst(s) == s
  {
    if |s| > 0 {
      var init := s[..|s| - 1];
      KeepFirstIncreasing(init);
      assert s[|s| - 1] !in init by {
        forall k | 0 <= k < |init|
          ensures init[k] != s[|s| - 1]
        {
          assert init[k] == s[k];
        }
      }
      assert s == init + [s[|s| - 1]];
    }
  }

  /** The grid the chart samples. */
  function Grid(): seq<int> {
    KeepFirst(RawGrid())
  }

  /** The grid is the raw grid unchanged (it has no duplicates): 322
      strictly increasing durations from 1 s to 20640 s, ending with 180,
      1200 and 20640 at the joins. */
  lemma GridShape()
    ensures Grid() == RawGrid()
    ensures |Grid()| == 322 && StrictlyIncreasing(Grid())
    ensures forall i :: 0 <= i < 322 ==> Grid()[i] == GridAt(i)
    ensures Grid()[0] == 1 && Grid()[179] == 180 && Grid()[213] == 1200 && Grid()[321] == 20640
  {
    var g := RawGrid();
    RawGridAt();
    assert StrictlyIncreasing(g) by {
      forall i, j | 0 <= i < j < |g|
        ensures g[i] < g[j]
      {
        assert g[i] == GridAt(i) && g[j] == GridAt(j);
      }
    }
    KeepFirstIncreasing(g);
  }

  // ---------------------------------------------------------------------
  // The curve series

  /** The three curves of the chart. */
  datatype Curve = AprCurve | CpwCurve | PowerLawCurve

  /** The durations a curve is drawn over. */
  predicate InDomain(c: Curve, t: int) {
    match c
    case AprCurve => t <= 180
    case CpwCurve => 120 <= t <= 3600
    case PowerLawCurve => t >= 180
  }

  /** The power a curve shows at a duration: the APR curve shows Pmax at 1 s. */
  function ValueAt(T: Transcendentals, m: PowerModels, c: Curve, t: int): real
    requires InDomain(c, t)
  {
    match c
    case AprCurve => if t == 1 then m.pMax else m.aprParams.At(T, t as real)
    case CpwCurve => CpwAt(m, t as real)
    case PowerLawCurve => m.plParams.At(T, t as real)
  }

  datatype ChartPoint = ChartPoint(x: int, y: real)

  /** The points a curve gets from the durations `ts`, in their order. */
  function Series(T: Transcendentals, m: PowerModels, c: Curve, ts: seq<int>): seq<ChartPoint> {
    if |ts| == 0 then []
    else
      var t := ts[|ts| - 1];
      Series(T, m, c, ts[..|ts| - 1]) + (if InDomain(c, t) then [ChartPoint(t, ValueAt(T, m, c, t))] else [])
  }

  /** `generateCurveData`: three empty series for a refused fit; otherwise one
      pass over the grid that adds the point of every curve whose domain holds
      the duration. */
  method GenerateCurveData(T: Transcendentals, m: PowerModels) returns (apr: seq<ChartPoint>, cpw: seq<ChartPoint>, pl: seq<ChartPoint>)
    ensures !m.valid ==> apr == [] && cpw == [] && pl == []
    ensures m.valid ==>
      && apr == Series(T, m, AprCurve, Grid())
      && cpw == Series(T, m, CpwCurve, Grid())
      && pl == Series(T, m, PowerLawCurve, Grid())
  {
    if !m.valid {
      return [], [], [];
    }
    var grid := KeepFirst(RawGrid());
    apr, cpw, pl := [], [], [];
    var i := 0;
    while i < |grid|
      invariant 0 <= i <= |grid|
      invariant apr == Series(T, m, AprCurve, grid[..i])
      invariant cpw == Series(T, m, CpwCurve, grid[..i])
      invariant pl == Series(T, m, PowerLawCurve, grid[..i])
    {
      var t := grid[i];
      assert grid[..i + 1][..i] == grid[..i];
      if t <= 180 {
        apr := apr + [ChartPoint(t, if t == 1 then m.pMax else m.aprParams.At(T, t as real))];
      }
      if t >= 120 && t <= 3600 {
        cpw := cpw + [ChartPoint(t, m.cp + m.wPrime / t as real)];
      }
      if t >= 180 {
        pl := pl + [ChartPoint(t, m.plParams.At(T, t as real))];
      }
      i := i + 1;
    }
    assert grid[..i] == grid;
  }

  /** A point belongs to a curve's series exactly when its duration is one of
      `ts` in the curve's domain and its power is the curve's value there. */
  lemma {:induction false} SeriesMembers(T: Transcendentals, m: PowerModels, c: Curve, ts: seq<int>, p: ChartPoint)
    ensures p in Series(T, m, c, ts) <==> p.x in ts && InDomain(c, p.x) && p.y == ValueAt(T, m, c, p.x)
  {
    if |ts| > 0 {
      var init := ts[..|ts| - 1];
      SeriesMembers(T, m, c, init, p);
      assert ts == init + [ts[|ts| - 1]];
    }
  }

  /** Over increasing durations, the series' durations increase too. */
  lemma {:induction false} SeriesIncreasing(T: Transcendentals, m: PowerModels, c: Curve, ts: seq<int>)
    requires StrictlyIncreasing(ts)
    ensures var s := Series(T, m, c, ts);
      forall i, j :: 0 <= i < j < |s| ==> s[i].x < s[j].x
  {
    if |ts| > 0 {
      var init, t := ts[..|ts| - 1], ts[|ts| - 1];
      SeriesIncreasing(T, m, c, init);
      var s0 := Series(T, m, c, init);
      var s := Series(T, m, c, ts);
      forall k | 0 <= k < |s0|
        ensures s0[k].x < t
      {
        SeriesMembers(T, m, c, init, s0[k]);
        var j :| 0 <= j < |init| && init[j] == s0[k].x;
        assert ts[j] == init[j];
      }
    }
  }

  /** Every grid duration is a whole number of seconds from 1 to 20640; the
      grid has no duration strictly between 3540 s and 3720 s, so 3600 s is
      not on it; from an hour on every grid duration is a whole number of
      minutes. */
  lemma GridMember(t: int)
    requires t in Grid()
    ensures 1 <= t <= 20640
    ensures t <= 3600 ==> t <= 3540
    ensures t >= 3600 ==> t % 60 == 0
  {
    GridShape();
    var i :| 0 <= i < 322 && Grid()[i] == t;
    GridAtBounds(i);
  }

  lemma GridAtBounds(i: int)
    requires 0 <= i < 322
    ensures 1 <= GridAt(i) <= 20640
    ensures GridAt(i) <= 3600 ==> GridAt(i) <= 3540
    ensures GridAt(i) >= 3600 ==> GridAt(i) % 60 == 0
  {
    if i >= 214 {
      var k := i - 213;
      assert GridAt(i) == 1200 + k * 180 == 60 * (20 + 3 * k);
      assert k <= 13 ==> k * 180 <= 2340;
      assert k >= 14 ==> k * 180 >= 2520;
    }
  }

  /** The tooltip title shows `formatTime` of a grid duration, and from an
      hour on every grid duration is a whole number of minutes; there the
      label as written agrees with the corrected one, so the chart itself
      never shows "60m". */
  lemma GridLabelsAgree(t: int)
    requires t in Grid()
    ensures t >= 3600 ==> t % 60 == 0 && Round((t % 3600) as real / 60.0) < 60
    ensures FormatTime(t as real, false) == FormatTimeCorrected(t as real, false)
  {
    GridMember(t);
    RoundOfInteger(t);
    if t >= 3600 {
      WholeMinutesLabel(t);
    }
  }

  /** On a whole number of minutes from an hour on, rounding the last hour's
      minutes alone and rounding the total to minutes give the same label. */
  lemma WholeMinutesLabel(sec: int)
    requires sec >= 3600 && sec % 60 == 0
    ensures Round((sec % 3600) as real / 60.0) == (sec % 3600) / 60 < 60
    ensures FormatWhole(sec, false) == HoursMinutes(Round(sec as real / 60.0))
  {
    var k := sec / 60;
    assert sec as real / 60.0 == k as real;
    RoundOfInteger(k);
    var r := sec % 3600;
    assert r == 60 * (r / 60);
    assert r as real / 60.0 == (r / 60) as real;
    RoundOfInteger(r / 60);
    assert sec / 3600 == k / 60 && r / 60 == k % 60;
  }

  /** A point of a series over the grid lies on its curve at a grid duration. */
  lemma GridPoint(T: Transcendentals, m: PowerModels, c: Curve, p: ChartPoint)
    requires p in Series(T, m, c, Grid())
    ensures p.x in Grid() && 1 <= p.x && InDomain(c, p.x) && p.y == ValueAt(T, m, c, p.x)
  {
    SeriesMembers(T, m, c, Grid(), p);
    GridMember(p.x);
  }

  /** On an accepted fit the APR and CP-W' series fall strictly from point to
      point, and the power-law series does not rise when E <= 1. */
  lemma SeriesFall(T: Transcendentals, m: PowerModels, c: Curve, p: ChartPoint, q: ChartPoint)
    requires Lawful(T) && Consistent(m) && m.valid
    requires p in Series(T, m, c, Grid()) && q in Series(T, m, c, Grid()) && p.x < q.x
    ensures c != PowerLawCurve ==> p.y > q.y
    ensures c == PowerLawCurve && m.plParams.E <= 1.0 ==> p.y >= q.y
  {
    GridPoint(T, m, c, p);
    GridPoint(T, m, c, q);
    match c
    case AprCurve =>
      AprBetween(T, m, q.x as real);
      if p.x != 1 {
        AprDecreasing(T, m, p.x as real, q.x as real);
      }
    case CpwCurve =>
      CpwDecreasing(m, p.x as real, q.x as real);
    case PowerLawCurve =>
      if m.plParams.E <= 1.0 {
        AthleteCard.PowerLawNotIncreasing(T, m.plParams, p.x as real, q.x as real);
      }
  }

  /** The ends of the three series: the APR series runs from Pmax at 1 s to
      3 min, the CP-W' series from 2 min to 3540 s (the grid skips 1 h) and
      passes 3 min at the 3-minute power, the power-law series runs from
      3 min to 20640 s. */
  lemma SeriesSpan(T: Transcendentals, m: PowerModels)
    requires Consistent(m) && m.valid
    ensures ChartPoint(1, m.pMax) in Series(T, m, AprCurve, Grid())
    ensures ChartPoint(180, m.aprParams.At(T, 180.0)) in Series(T, m, AprCurve, Grid())
    ensures ChartPoint(120, CpwAt(m, 120.0)) in Series(T, m, CpwCurve, Grid())
    ensures ChartPoint(180, m.aprParams.po3min) in Series(T, m, CpwCurve, Grid())
    ensures ChartPoint(3540, CpwAt(m, 3540.0)) in Series(T, m, CpwCurve, Grid())
    ensures ChartPoint(180, m.plParams.At(T, 180.0)) in Series(T, m, PowerLawCurve, Grid())
    ensures ChartPoint(20640, m.plParams.At(T, 20640.0)) in Series(T, m, PowerLawCurve, Grid())
  {
    GridShape();
    var g := Grid();
    assert g[0] == 1 && g[119] == 120 && g[179] == 180 && g[226] == 3540 && g[321] == 20640;
    SeriesMembers(T, m, AprCurve, g, ChartPoint(1, m.pMax));
    SeriesMembers(T, m, AprCurve, g, ChartPoint(180, m.aprParams.At(T, 180.0)));
    SeriesMembers(T, m, CpwCurve, g, ChartPoint(120, CpwAt(m, 120.0)));
    SeriesMembers(T, m, CpwCurve, g, ChartPoint(180, m.aprParams.po3min));
    SeriesMembers(T, m, CpwCurve, g, ChartPoint(3540, CpwAt(m, 3540.0)));
    SeriesMembers(T, m, PowerLawCurve, g, ChartPoint(180, m.plParams.At(T, 180.0)));
    SeriesMembers(T, m, PowerLawCurve, g, ChartPoint(20640, m.plParams.At(T, 20640.0)));
  }

  /** No series point lies outside its ends. */
  lemma SeriesWithinSpan(T: Transcendentals, m: PowerModels, c: Curve, p: ChartPoint)
    requires p in Series(T, m, c, Grid())
    ensures c == AprCurve ==> 1 <= p.x <= 180
    ensures c == CpwCurve ==> 120 <= p.x <= 3540
    ensures c == PowerLawCurve ==> 180 <= p.x <= 20640
  {
    GridPoint(T, m, c, p);
    GridMember(p.x);
  }

  // ---------------------------------------------------------------------
  // The tooltip

  /** The curves the tooltip lists at a duration: APR below 3 minutes,
      CP-W' from 2 minutes to 1 hour, the power law from 3 minutes on;
      nothing for a refused fit or a zero duration. */
  function TooltipCurves(m: PowerModels, t: real): (cs: seq<Curve>)
    ensures |cs| <= 2
    ensures (m.valid && t > 0.0) ==> |cs| >= 1
  {
    if !m.valid || t == 0.0 then []
    else
      (if t < 180.0 then [AprCurve] else [])
      + (if 120.0 <= t <= 3600.0 then [CpwCurve] else [])
      + (if t >= 180.0 then [PowerLawCurve] else [])
  }

  /** At every whole duration but 3 minutes the tooltip lists exactly the
      curves drawn there; at 3 minutes it leaves out the APR curve, whose
      point there lies above the CP-W' point. */
  lemma TooltipMatchesSeries(T: Transcendentals, m: PowerModels, t: int, c: Curve)
    requires Lawful(T) && Consistent(m) && m.valid && t >= 1
    ensures t != 180 ==> (c in TooltipCurves(m, t as real) <==> InDomain(c, t))
    ensures AprCurve !in TooltipCurves(m, 180.0) && InDomain(AprCurve, 180)
    ensures ValueAt(T, m, AprCurve, 180) > ValueAt(T, m, CpwCurve, 180)
  {
    AprBetween(T, m, 180.0);
  }

  // ---------------------------------------------------------------------
  // The power axis

  /** The lower bound of the power axis: half CP, but at least 50 W. */
  function AxisMin(m: PowerModels): real {
    if m.valid then Max(50.0, m.cp * 0.5) else 50.0
  }

  /** The upper bound: 105 % of Pmax rounded up to a multiple of 100 W. */
  function AxisMax(m: PowerModels): int {
    if m.valid then Ceil(m.pMax * 1.05 / 100.0) * 100 else 1000
  }

  /** For an accepted fit the upper bound is a multiple of 100 W within
      100 W above 105 % of Pmax, and the lower bound is at least 50 W and
      half CP. */
  lemma AxisBounds(m: PowerModels)
    requires Consistent(m) && m.valid
    ensures AxisMax(m) % 100 == 0
    ensures m.pMax * 1.05 <= AxisMax(m) as real < m.pMax * 1.05 + 100.0
    ensures AxisMax(m) as real > m.pMax
    ensures AxisMin(m) >= 50.0 && AxisMin(m) >= m.cp * 0.5
  {
    var x := m.pMax * 1.05 / 100.0;
    CeilBounds(x);
    assert x * 100.0 == m.pMax * 1.05;
    assert m.pMax > m.aprParams.po3min > m.cp > 0.0;
  }

  /** Every APR point lies under the top of the axis, and an APR or CP-W'
      point, all of them above CP, falls below the bottom of the axis only
      when the 50 W floor sets it. */
  lemma SeriesWithinAxis(T: Transcendentals, m: PowerModels, c: Curve, p: ChartPoint)
    requires Lawful(T) && Consistent(m) && m.valid
    requires p in Series(T, m, c, Grid()) && c != PowerLawCurve
    ensures p.y > m.cp
    ensures c == AprCurve ==> p.y <= m.pMax < AxisMax(m) as real
    ensures p.y < AxisMin(m) ==> AxisMin(m) == 50.0
  {
    AxisBounds(m);
    GridPoint(T, m, c, p);
    if c == AprCurve {
      if p.x != 1 {
        AprBetween(T, m, p.x as real);
      }
    } else {
      CpwDecreasing(m, p.x as real, p.x as real + 1.0);
    }
  }
}
