/** The cycling performance calculator of
    `src/components/PowerPerformanceCalculator.tsx`: power from a duration and
    duration from a power, choosing among the APR, critical-power and power-law
    models of a fit, with both models reported in the 2-3 minute transition
    zone and a bisection solver for the APR model. */
module PowerCalculator {
  import opened Wrappers
  import opened RealMath
  import opened PowerFit

  /** `calculateAPRPower`: Pmax at exactly one second, the APR curve elsewhere. */
  function AprPower(T: Transcendentals, m: PowerModels, t: real): real {
    if t == 1.0 then m.pMax else m.aprParams.At(T, t)
  }

  /** On [1, ∞) the calculator's APR power of an accepted fit falls strictly. */
  lemma AprPowerDecreasing(T: Transcendentals, m: PowerModels, s: real, t: real)
    requires Lawful(T) && Consistent(m) && m.valid && 1.0 <= s < t
    ensures AprPower(T, m, s) > AprPower(T, m, t)
  {
    if s == 1.0 {
      AprBetween(T, m, t);
    } else {
      AprDecreasing(T, m, s, t);
    }
  }

  /** Where the bisection ends: at a midpoint whose power is within 0.1 W of
      the target, or with a bracket whose midpoint is the answer. */
  datatype Bisection = Converged(t: real) | Narrowed(lo: real, hi: real) {
    function Time(): real {
      if Converged? then t else (lo + hi) / 2.0
    }
  }

  /** 2^n. */
  function Pow2(n: nat): (r: real)
    ensures r >= 1.0
  {
    if n == 0 then 1.0 else 2.0 * Pow2(n - 1)
  }

  lemma {:induction false} Pow2Large(n: nat)
    requires n >= 15
    ensures Pow2(n) >= 32768.0
  {
    if n > 15 {
      Pow2Large(n - 1);
    }
  }

  /** The bisection loop of `solveAPRTime` from the bracket [lo, hi] after
      `iterations` halvings: it stops when the bracket is at most 0.01 s wide
      or after 100 iterations, returns a midpoint within 0.1 W of the target,
      and otherwise keeps the half whose ends straddle the target. */
  function Bisect(T: Transcendentals, m: PowerModels, target: real, lo: real, hi: real, iterations: nat): Bisection
    decreases 100 - iterations
  {
    if hi - lo > 0.01 && iterations < 100 then
      var mid := (lo + hi) / 2.0;
      var p := AprPower(T, m, mid);
      if Abs(p - target) < 0.1 then Converged(mid)
      else if p > target then Bisect(T, m, target, mid, hi, iterations + 1)
      else Bisect(T, m, target, lo, mid, iterations + 1)
    else Narrowed(lo, hi)
  }

  /** The bisection keeps a bracket inside the one it starts from whose lower
      end has more power than the target and whose upper end has at most the
      target, halving it each step; so it ends either converged inside the
      bracket or with a bracket at most 0.01 s wide. */
  lemma {:induction false} BisectBracket(T: Transcendentals, m: PowerModels, target: real, lo: real, hi: real, iterations: nat)
    requires lo < hi && AprPower(T, m, lo) > target >= AprPower(T, m, hi)
    requires (hi - lo) * Pow2(iterations) == 179.0
    ensures match Bisect(T, m, target, lo, hi, iterations)
      case Converged(t) => lo < t < hi && Abs(AprPower(T, m, t) - target) < 0.1
      case Narrowed(a, b) =>
        && lo <= a < b <= hi && b - a <= 0.01
        && AprPower(T, m, a) > target >= AprPower(T, m, b)
    decreases 100 - iterations
  {
    if hi - lo > 0.01 && iterations < 100 {
      var mid := (lo + hi) / 2.0;
      var p := AprPower(T, m, mid);
      HalfWidth(lo, hi, iterations);
      if Abs(p - target) >= 0.1 {
        if p > target {
          BisectBracket(T, m, target, mid, hi, iterations + 1);
        } else {
          BisectBracket(T, m, target, lo, mid, iterations + 1);
        }
      }
    } else if hi - lo > 0.01 {
      NarrowAfterHundred(lo, hi, iterations);
    }
  }

  /** Halving a bracket doubles the power of two it is measured against. */
  lemma HalfWidth(lo: real, hi: real, n: nat)
    requires (hi - lo) * Pow2(n) == 179.0
    ensures var mid := (lo + hi) / 2.0;
      (mid - lo) * Pow2(n + 1) == 179.0 && (hi - mid) * Pow2(n + 1) == 179.0
  {
    var mid := (lo + hi) / 2.0;
    assert mid - lo == (hi - lo) / 2.0 && hi - mid == (hi - lo) / 2.0;
  }

  /** After 100 halvings of 179 s the bracket is far below 0.01 s. */
  lemma NarrowAfterHundred(lo: real, hi: real, n: nat)
    requires n >= 100 && lo < hi && (hi - lo) * Pow2(n) == 179.0
    ensures hi - lo <= 0.01
  {
    Pow2Large(n);
    var w, p := hi - lo, Pow2(n);
    assert w * p == 179.0;
    if p > 32768.0 {
      MulLeft(w, 32768.0, p);
    }
    assert w * 32768.0 <= 179.0;
  }

  /** `solveAPRTime`: None (the original's NaN) for a target above Pmax or
      below the APR power at 180 s, one second for a target within 0.1 W of
      Pmax, and otherwise the bisection over [1, 180]. */
  function SolveApr(T: Transcendentals, m: PowerModels, target: real): Option<real> {
    if target > m.pMax || target < AprPower(T, m, 180.0) then None
    else if Abs(target - m.pMax) < 0.1 then Some(1.0)
    else Some(Bisect(T, m, target, 1.0, 180.0, 0).Time())
  }

  /** The solver has no answer exactly outside [APR(180), Pmax]; an answer
      lies in [1, 180], and it is one second near Pmax, a duration whose APR
      power is within 0.1 W of the target, or the midpoint of a bracket at
      most 0.01 s wide that straddles the target. As the APR power falls with
      duration, the exact solution lies in that bracket. */
  lemma SolveAprSpec(T: Transcendentals, m: PowerModels, target: real)
    ensures SolveApr(T, m, target) == None <==> target > m.pMax || target < AprPower(T, m, 180.0)
    ensures SolveApr(T, m, target).Some? && Abs(target - m.pMax) < 0.1 ==> SolveApr(T, m, target) == Some(1.0)
    ensures SolveApr(T, m, target).Some? && Abs(target - m.pMax) >= 0.1 ==>
      var t := SolveApr(T, m, target).value;
      && 1.0 <= t <= 180.0
      && match Bisect(T, m, target, 1.0, 180.0, 0)
        case Converged(c) => t == c && Abs(AprPower(T, m, t) - target) < 0.1
        case Narrowed(a, b) =>
          && t == (a + b) / 2.0 && 1.0 <= a < b <= 180.0 && b - a <= 0.01
          && AprPower(T, m, a) > target >= AprPower(T, m, b)
  {
    if SolveApr(T, m, target).Some? && Abs(target - m.pMax) >= 0.1 {
      assert AprPower(T, m, 1.0) == m.pMax > target;
      BisectBracket(T, m, target, 1.0, 180.0, 0);
    }
  }

  /** `solveAPRTime` with its loop. */
  method SolveAprTime(T: Transcendentals, m: PowerModels, target: real) returns (r: Option<real>)
    ensures r == SolveApr(T, m, target)
  {
    var minPower := AprPower(T, m, 180.0);
    if target > m.pMax || target < minPower {
      return None;
    }
    if Abs(target - m.pMax) < 0.1 {
      return Some(1.0);
    }
    var minTime, maxTime := 1.0, 180.0;
    var iterations: nat := 0;
    while maxTime - minTime > 0.01 && iterations < 100
      invariant iterations <= 100
      invariant Bisect(T, m, target, minTime, maxTime, iterations) == Bisect(T, m, target, 1.0, 180.0, 0)
      decreases 100 - iterations
    {
      var midTime := (minTime + maxTime) / 2.0;
      var midPower := AprPower(T, m, midTime);
      if Abs(midPower - target) < 0.1 {
        return Some(midTime);
      }
      if midPower > target {
        minTime := midTime;
      } else {
        maxTime := midTime;
      }
      iterations := iterations + 1;
    }
    return Some((minTime + maxTime) / 2.0);
  }

  /** Both model powers in the transition zone and how far apart they are. */
  datatype DualPower = DualPower(aprPower: real, cpwPower: real, difference: real, differencePercent: real)

  datatype PowerModel = Apr | CpW | PowerLaw

  /** What `calculatePowerFromTime` stores: the power, the model it came from,
      whether the duration is in the transition zone, and both powers there. */
  datatype PowerPrediction = PowerPrediction(power: real, model: PowerModel, transition: bool, dual: Option<DualPower>)

  /** `calculatePowerFromTime`: None when nothing is stored (an invalid fit or
      a non-positive duration). From 120 s to 180 s both short models are
      evaluated and the lower power is kept; otherwise APR up to 180 s,
      critical power up to 960 s and the power law beyond. */
  function PowerFromTime(T: Transcendentals, m: PowerModels, hours: real, minutes: real, seconds: real): Option<PowerPrediction>
    requires Lawful(T) && Consistent(m)
  {
    var t := hours * 3600.0 + minutes * 60.0 + seconds;
    if !m.valid || t <= 0.0 then None
    else if 120.0 <= t <= 180.0 then
      var apr, cpw := AprPower(T, m, t), CpwAt(m, t);
      AprBetween(T, m, t);
      var difference := Abs(apr - cpw);
      var dual := DualPower(apr, cpw, difference, difference / Max(apr, cpw) * 100.0);
      Some(PowerPrediction(Min(apr, cpw), if apr < cpw then Apr else CpW, true, Some(dual)))
    else if t <= 180.0 then Some(PowerPrediction(AprPower(T, m, t), Apr, false, None))
    else if t <= 960.0 then Some(PowerPrediction(CpwAt(m, t), CpW, false, None))
    else Some(PowerPrediction(m.plParams.At(T, t), PowerLaw, false, None))
  }

  /** The forward direction of an accepted fit: the power shown is the power
      of the model it is named after at the entered duration. In the
      transition zone both model powers are reported, the kept power is the
      lower of the two, named by the model that gave it, and the gap between
      them is under 100% of the larger; outside it the model follows the
      duration and no pair is reported. */
  lemma PowerFromTimeSpec(T: Transcendentals, m: PowerModels, hours: real, minutes: real, seconds: real)
    requires Lawful(T) && Consistent(m)
    ensures var t := hours * 3600.0 + minutes * 60.0 + seconds;
      var r := PowerFromTime(T, m, hours, minutes, seconds);
      && (r == None <==> !m.valid || t <= 0.0)
      && (r.Some? ==> (r.value.transition <==> 120.0 <= t <= 180.0) && (r.value.dual.Some? <==> r.value.transition))
      && (r.Some? ==>
            && (r.value.model == Apr ==> r.value.power == AprPower(T, m, t))
            && (r.value.model == CpW ==> r.value.power == CpwAt(m, t))
            && (r.value.model == PowerLaw ==> r.value.power == m.plParams.At(T, t)))
      && (r.Some? && r.value.dual.Some? ==>
            r.value.dual.value.aprPower == AprPower(T, m, t) && r.value.dual.value.cpwPower == CpwAt(m, t))
      && (r.Some? && r.value.transition ==>
            var d := r.value.dual.value;
            && r.value.power <= d.aprPower && r.value.power <= d.cpwPower
            && (r.value.power == d.aprPower || r.value.power == d.cpwPower)
            && (r.value.model == Apr <==> d.aprPower < d.cpwPower)
            && d.difference >= 0.0 && 0.0 <= d.differencePercent < 100.0)
      && (r.Some? && !r.value.transition ==>
            && (r.value.model == Apr <==> t < 120.0)
            && (r.value.model == CpW <==> 180.0 < t <= 960.0)
            && (r.value.model == PowerLaw <==> t > 960.0))
  {
    var t := hours * 3600.0 + minutes * 60.0 + seconds;
    if m.valid && 120.0 <= t <= 180.0 {
      var apr, cpw := AprPower(T, m, t), CpwAt(m, t);
      AprBetween(T, m, t);
      CpwDecreasing(m, t, t + 1.0);
      GapBelowLarger(apr, cpw);
    }
  }

  /** For two positive values, |a - b| / max(a, b) * 100 lies in [0, 100). */
  lemma GapBelowLarger(a: real, b: real)
    requires a > 0.0 && b > 0.0
    ensures 0.0 <= Abs(a - b) / Max(a, b) * 100.0 < 100.0
  {
    var g, h := Abs(a - b), Max(a, b);
    assert 0.0 <= g < h;
    assert g / h < 1.0 by {
      QuotientShift(g, h);
      SignOfQuotient(g - h, h);
    }
    SignOfQuotient(g, h);
  }

  datatype TimeModel = AprTransition | CpwTransition | AprTime | CpwTime | CpwFallback | PowerLawTime | NoSolution

  /** Both model durations in the transition zone and how far apart they are. */
  datatype DualTime = DualTime(aprTime: real, cpwTime: real, difference: real, differencePercent: real)

  /** What `calculateTimeFromPower` stores: the duration (None for the
      original's NaN), the model label, and both durations in the transition zone. */
  datatype TimePrediction = TimePrediction(time: Option<real>, model: TimeModel, dual: Option<DualTime>)

  /** The critical-power duration W'/(P - CP), which exists only above CP. */
  function CpwDuration(m: PowerModels, power: real): Option<real> {
    if power > m.cp then Some(m.wPrime / (power - m.cp)) else None
  }

  function InZone(t: Option<real>, lo: real, hi: real): bool {
    t.Some? && lo <= t.value <= hi
  }

  /** The power-law duration (P/S)^(1/(E - 1)); with E exactly 1 the exponent
      is unbounded and no duration is given. */
  function PowerLawTimeFor(T: Transcendentals, m: PowerModels, power: real): Option<real>
    requires m.plParams.S != 0.0
  {
    if m.plParams.E == 1.0 then None
    else Some(Pow(T, power / m.plParams.S, 1.0 / (m.plParams.E - 1.0)))
  }

  /** The choice of `calculateTimeFromPower` once both candidate durations
      are known: both in [120, 180] gives the shorter with both reported;
      otherwise APR in [1, 180], critical power in (180, 960], critical power
      up to 180 s as a fallback, and the power law last. A missing or
      non-positive duration is "no solution". */
  function ChooseTime(aprTime: Option<real>, cpwTime: Option<real>, plTime: Option<real>): TimePrediction {
    var chosen :=
      if InZone(aprTime, 120.0, 180.0) && InZone(cpwTime, 120.0, 180.0) then
        var a, c := aprTime.value, cpwTime.value;
        var difference := Abs(a - c);
        TimePrediction(Some(Min(a, c)), if a < c then AprTransition else CpwTransition,
          Some(DualTime(a, c, difference, difference / Max(a, c) * 100.0)))
      else if InZone(aprTime, 1.0, 180.0) then TimePrediction(aprTime, AprTime, None)
      else if cpwTime.Some? && 180.0 < cpwTime.value <= 960.0 then TimePrediction(cpwTime, CpwTime, None)
      else if cpwTime.Some? && cpwTime.value <= 180.0 then TimePrediction(cpwTime, CpwFallback, None)
      else TimePrediction(plTime, PowerLawTime, None);
    if chosen.time == None || chosen.time.value <= 0.0 then TimePrediction(None, NoSolution, None)
    else chosen
  }

  /** `calculateTimeFromPower`: None when nothing is stored (an invalid fit
      or a non-positive power). */
  function TimeFromPower(T: Transcendentals, m: PowerModels, power: real): Option<TimePrediction>
    requires Consistent(m)
  {
    if !m.valid || power <= 0.0 then None
    else Some(ChooseTime(SolveApr(T, m, power), CpwDuration(m, power), PowerLawTimeFor(T, m, power)))
  }

  /** The inverse direction, with the APR solver's loop. */
  method CalculateTimeFromPower(T: Transcendentals, m: PowerModels, power: real) returns (r: Option<TimePrediction>)
    requires Consistent(m)
    ensures r == TimeFromPower(T, m, power)
  {
    if !m.valid || power <= 0.0 {
      return None;
    }
    var aprTime := SolveAprTime(T, m, power);
    var cpwTime := CpwDuration(m, power);
    r := Some(ChooseTime(aprTime, cpwTime, PowerLawTimeFor(T, m, power)));
  }

  /** For an accepted fit with E other than 1, every positive power has a
      positive duration; the critical-power duration exists exactly above CP
      and gives that power back. */
  lemma TimeFromPowerSolved(T: Transcendentals, m: PowerModels, power: real)
    requires Lawful(T) && Consistent(m) && m.valid && power > 0.0 && m.plParams.E != 1.0
    ensures var r := TimeFromPower(T, m, power);
      && r.Some? && r.value.model != NoSolution && r.value.time.Some? && r.value.time.value > 0.0
    ensures CpwDuration(m, power).Some? <==> power > m.cp
    ensures CpwDuration(m, power).Some? ==> CpwDuration(m, power).value > 0.0 && CpwAt(m, CpwDuration(m, power).value) == power
  {
    CpwDurationSolved(m, power);
    PowPositive(T, power / m.plParams.S, 1.0 / (m.plParams.E - 1.0));
    ChooseTimeSolved(SolveApr(T, m, power), CpwDuration(m, power), PowerLawTimeFor(T, m, power));
  }

  /** The critical-power duration exists exactly above CP, is positive and gives that power back. */
  lemma CpwDurationSolved(m: PowerModels, power: real)
    requires Consistent(m) && m.valid
    ensures CpwDuration(m, power).Some? <==> power > m.cp
    ensures CpwDuration(m, power).Some? ==> CpwDuration(m, power).value > 0.0 && CpwAt(m, CpwDuration(m, power).value) == power
  {
    if power > m.cp {
      var t := m.wPrime / (power - m.cp);
      SignOfQuotient(m.wPrime, power - m.cp);
      assert m.wPrime / t == power - m.cp by {
        DivUnique(m.wPrime, t, power - m.cp);
      }
    }
  }

  /** The precedence of `calculateTimeFromPower`'s choice. Both durations in
      [120, 180] give the shorter one with both reported and the gap under
      100% of the longer; otherwise an APR duration in [1, 180] is taken,
      then a critical-power duration in (180, 960], then a positive
      critical-power duration up to 180 s, then a positive power-law
      duration; whatever is left is "no solution", without a duration. */
  lemma ChooseTimePrecedence(aprTime: Option<real>, cpwTime: Option<real>, plTime: Option<real>)
    ensures var r := ChooseTime(aprTime, cpwTime, plTime);
      var both := InZone(aprTime, 120.0, 180.0) && InZone(cpwTime, 120.0, 180.0);
      var apr := !both && InZone(aprTime, 1.0, 180.0);
      var cpw := !both && !apr && cpwTime.Some? && 180.0 < cpwTime.value <= 960.0;
      var fallback := !both && !apr && cpwTime.Some? && 0.0 < cpwTime.value <= 180.0;
      var powerLaw := !both && !apr && !(cpwTime.Some? && cpwTime.value <= 960.0) && plTime.Some? && plTime.value > 0.0;
      && ((r.model == AprTransition || r.model == CpwTransition) <==> both)
      && (r.model == AprTime <==> apr)
      && (r.model == CpwTime <==> cpw)
      && (r.model == CpwFallback <==> fallback)
      && (r.model == PowerLawTime <==> powerLaw)
      && (r.model == NoSolution <==> r.time.None?)
      && (r.dual.Some? <==> both)
      && (r.time.Some? ==> r.time.value > 0.0)
      && (both ==>
            var a, c := aprTime.value, cpwTime.value;
            && r.time == Some(Min(a, c)) && (r.model == AprTransition <==> a < c)
            && r.dual.value.aprTime == a && r.dual.value.cpwTime == c
            && r.dual.value.difference == Abs(a - c)
            && 0.0 <= r.dual.value.differencePercent < 100.0)
      && (apr ==> r.time == aprTime)
      && (cpw || fallback ==> r.time == cpwTime)
      && (powerLaw ==> r.time == plTime)
  {
    if InZone(aprTime, 120.0, 180.0) && InZone(cpwTime, 120.0, 180.0) {
      GapBelowLarger(aprTime.value, cpwTime.value);
    }
  }

  /** Each duration the inverse direction shows is the duration of the model
      it is named after, and for an accepted fit that duration gives the
      entered power back on that model's curve. */
  lemma TimeFromPowerModels(T: Transcendentals, m: PowerModels, power: real)
    requires Lawful(T) && Consistent(m) && m.valid && power > 0.0
    ensures var r := TimeFromPower(T, m, power).value;
      && (r.model == AprTime ==> r.time == SolveApr(T, m, power))
      && (r.model == CpwTime || r.model == CpwFallback ==>
            r.time == CpwDuration(m, power) && CpwAt(m, r.time.value) == power)
      && (r.model == PowerLawTime ==>
            r.time == PowerLawTimeFor(T, m, power) && m.plParams.At(T, r.time.value) == power)
      && (r.model == AprTransition || r.model == CpwTransition ==>
            && r.dual.value.aprTime == SolveApr(T, m, power).value
            && r.dual.value.cpwTime == CpwDuration(m, power).value
            && CpwAt(m, r.dual.value.cpwTime) == power)
  {
    var a, c, p := SolveApr(T, m, power), CpwDuration(m, power), PowerLawTimeFor(T, m, power);
    ChooseTimePrecedence(a, c, p);
    CpwDurationSolved(m, power);
    if m.plParams.E != 1.0 {
      PowerLawTimeGivesPower(T, m, power);
    }
  }

  /** For an accepted fit with E other than 1 the power-law duration of a
      positive power exists and gives that power back: S t^(E-1) = P. */
  lemma PowerLawTimeGivesPower(T: Transcendentals, m: PowerModels, power: real)
    requires Lawful(T) && Consistent(m) && m.valid && power > 0.0 && m.plParams.E != 1.0
    ensures PowerLawTimeFor(T, m, power).Some?
    ensures m.plParams.At(T, PowerLawTimeFor(T, m, power).value) == power
  {
    var S, e := m.plParams.S, m.plParams.E - 1.0;
    SignOfQuotient(power, S);
    PowInverse(T, power / S, e);
    assert S * (power / S) == power;
  }

  /** With a positive power-law duration and no non-positive critical-power
      duration, the choice always finds a positive duration. */
  lemma ChooseTimeSolved(aprTime: Option<real>, cpwTime: Option<real>, plTime: Option<real>)
    requires cpwTime.Some? ==> cpwTime.value > 0.0
    requires plTime.Some? && plTime.value > 0.0
    ensures var r := ChooseTime(aprTime, cpwTime, plTime);
      r.model != NoSolution && r.time.Some? && r.time.value > 0.0
  {
  }

  /** Round trip: for an accepted fit and a duration in (180, 960] s, the
      calculator's power read back through the inverse gives exactly that
      duration, from the critical-power model. */
  lemma PowerTimeRoundTrip(T: Transcendentals, m: PowerModels, t: real)
    requires Lawful(T) && Consistent(m) && m.valid && 180.0 < t <= 960.0
    ensures PowerFromTime(T, m, 0.0, 0.0, t) == Some(PowerPrediction(CpwAt(m, t), CpW, false, None))
    ensures TimeFromPower(T, m, CpwAt(m, t)) == Some(TimePrediction(Some(t), CpwTime, None))
  {
    assert 0.0 * 3600.0 + 0.0 * 60.0 + t == t;
    var p := CpwAt(m, t);
    CpwDecreasing(m, 180.0, t);
    AprBetween(T, m, 180.0);
    assert p < AprPower(T, m, 180.0);
    assert SolveApr(T, m, p) == None;
    assert m.wPrime / (p - m.cp) == t by {
      assert p - m.cp == m.wPrime / t;
      DivUnique(m.wPrime, m.wPrime / t, t);
    }
  }
}
