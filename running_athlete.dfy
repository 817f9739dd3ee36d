/** The running athlete card: predicted times over five race distances,
    scores against sex-specific world-record benchmarks, the overall rating,
    the rarity tier and the z-score profile type. Unlike the cycling card,
    a predicted time can be 0 or not finite, so the card computes with
    IEEE doubles and their infinities. */
module RunningAthlete {
  import opened Wrappers
  import opened RealMath
  import opened RunningFit
  import opened RunningCurves
  import ZScore
  import AthleteCard

  /** A double as far as the card needs one: a finite value, an infinity or
      NaN. */
  datatype Number = Finite(value: real) | PosInf | NegInf | NaN {
    /** IEEE addition: NaN absorbs, opposite infinities give NaN. */
    function Plus(other: Number): Number {
      match (this, other)
      case (NaN, _) => NaN
      case (_, NaN) => NaN
      case (PosInf, NegInf) => NaN
      case (NegInf, PosInf) => NaN
      case (PosInf, _) => PosInf
      case (_, PosInf) => PosInf
      case (NegInf, _) => NegInf
      case (_, NegInf) => NegInf
      case (Finite(a), Finite(b)) => Finite(a + b)
    }

    function Negated(): Number {
      match this
      case Finite(a) => Finite(-a)
      case PosInf => NegInf
      case NegInf => PosInf
      case NaN => NaN
    }

    function Minus(other: Number): Number {
      Plus(other.Negated())
    }

    /** `x >= c`, false for NaN. */
    predicate AtLeast(c: real) {
      (Finite? && value >= c) || PosInf?
    }

    /** `x < c`, false for NaN. */
    predicate Below(c: real) {
      (Finite? && value < c) || NegInf?
    }
  }

  /** One value per race: 1500 m, 5000 m, 10 km, the half marathon and the
      marathon. */
  datatype Stats<X> = Stats(m1500: X, m5000: X, km10: X, half: X, marathon: X) {
    function Values(): (v: seq<X>)
      ensures |v| == 5
      ensures v[0] == m1500 && v[1] == m5000 && v[2] == km10 && v[3] == half && v[4] == marathon
    {
      [m1500, m5000, km10, half, marathon]
    }
  }

  /** The race distances in metres. */
  const Distances: Stats<real> := Stats(1500.0, 5000.0, 10000.0, 21097.5, 42195.0)

  /** The world-record times in seconds that score 95. */
  function Benchmarks(g: AthleteCard.Gender): (b: Stats<real>)
    ensures forall i :: 0 <= i < 5 ==> b.Values()[i] > 0.0
  {
    match g
    case Male => Stats(206.0, 769.0, 1584.0, 3451.0, 7235.0)
    case Female => Stats(229.0, 853.0, 1801.0, 3916.0, 8221.0)
  }

  /** Up to this CS-D' estimate (16 minutes) the card uses the CS-D' line. */
  const CardCutoff: real := 960.0

  /** The power-law time (d/A)^(1/(k+1)). With k + 1 equal to 0 the exponent
      is +Infinity, and the power is +Infinity above a base of 1, NaN at 1
      and 0 below it. */
  function PowerLawTime(T: Transcendentals, m: RunningModels, d: real): Number
    requires m.plParams.A > 0.0
  {
    var e := m.plParams.k + 1.0;
    if e != 0.0 then Finite(PowerLawDuration(T, m, d).value)
    else
      var base := d / m.plParams.A;
      if base > 1.0 then PosInf else if base == 1.0 then NaN else Finite(0.0)
  }

  /** The predicted time of a distance: the CS-D' estimate, not below 0,
      while it is at most 960 s, else the power-law time. */
  function Time(T: Transcendentals, m: RunningModels, d: real): Number
    requires m.valid && Consistent(m)
  {
    var estimate := CsDuration(m, d);
    if estimate <= CardCutoff then Finite(Max(estimate, 0.0)) else PowerLawTime(T, m, d)
  }

  /** For a valid model and a positive distance: on the line the time is 0
      exactly up to D' metres and covers the distance beyond; on the power
      law (k + 1 not 0) the time is positive and covers the distance. */
  lemma TimeCovers(T: Transcendentals, m: RunningModels, d: real)
    requires Lawful(T) && m.valid && Consistent(m) && d > 0.0
    ensures var t := Time(T, m, d);
      && (CsDuration(m, d) <= CardCutoff ==>
            && t.Finite? && t.value >= 0.0
            && (t.value == 0.0 <==> d <= m.dPrime)
            && (d > m.dPrime ==> CsDistance(m, t.value) == d))
      && (CsDuration(m, d) > CardCutoff && m.plParams.k + 1.0 != 0.0 ==>
            t.Finite? && t.value > 0.0 && PowerLawDistance(T, m, t.value) == d)
  {
    var line := CsDuration(m, d);
    assert line <= 0.0 <==> d <= m.dPrime by {
      SignOfQuotient(d - m.dPrime, m.cs);
    }
    CsRoundTrip(m, d, 0.0);
    if line > CardCutoff && m.plParams.k + 1.0 != 0.0 {
      PowerLawDurationCovers(T, m, d);
    }
  }

  /** The predicted times of the five races. */
  function Times(T: Transcendentals, m: RunningModels): Stats<Number>
    requires m.valid && Consistent(m)
  {
    var d := Distances;
    Stats(Time(T, m, d.m1500), Time(T, m, d.m5000), Time(T, m, d.km10),
          Time(T, m, d.half), Time(T, m, d.marathon))
  }

  /** One score, round(benchmark / time * 95): a time of 0 scores +Infinity,
      an infinite time 0 and a NaN time NaN. */
  function Score(benchmark: real, time: Number): Number
    requires benchmark > 0.0
  {
    match time
    case Finite(t) => if t == 0.0 then PosInf else Finite(Round(benchmark / t * 95.0) as real)
    case PosInf => Finite(0.0)
    case NegInf => Finite(0.0)
    case NaN => NaN
  }

  /** A finite score is a whole number; the record time scores exactly 95;
      a slower positive time never scores more; a zero time scores +Infinity
      and a NaN time NaN. */
  lemma ScoreProperties(benchmark: real, t: real, u: real)
    requires benchmark > 0.0 && 0.0 < t <= u
    ensures Score(benchmark, Finite(t)).Finite? && Score(benchmark, Finite(u)).Finite?
    ensures Score(benchmark, Finite(u)).value <= Score(benchmark, Finite(t)).value
    ensures Score(benchmark, Finite(t)).value == Score(benchmark, Finite(t)).value.Floor as real
    ensures Score(benchmark, Finite(benchmark)) == Finite(95.0)
    ensures Score(benchmark, Finite(0.0)) == PosInf && Score(benchmark, NaN) == NaN
  {
    assert benchmark / benchmark == 1.0;
    RoundOfInteger(95);
    assert benchmark / u <= benchmark / t by {
      if t < u { DivDecreasing(benchmark, t, u); }
    }
    RoundMonotone(benchmark / u * 95.0, benchmark / t * 95.0);
  }

  /** The five scores for a gender's benchmarks. */
  function Scores(times: Stats<Number>, g: AthleteCard.Gender): Stats<Number> {
    var b := Benchmarks(g);
    assert b.Values()[0] > 0.0 && b.Values()[1] > 0.0 && b.Values()[2] > 0.0;
    assert b.Values()[3] > 0.0 && b.Values()[4] > 0.0;
    Stats(Score(b.m1500, times.m1500), Score(b.m5000, times.m5000), Score(b.km10, times.km10),
          Score(b.half, times.half), Score(b.marathon, times.marathon))
  }

  /** Every value is finite. */
  predicate AllFinite(v: seq<Number>) {
    forall i :: 0 <= i < |v| ==> v[i].Finite?
  }

  /** The finite values as reals. */
  function Reals(v: seq<Number>): (r: seq<real>)
    requires AllFinite(v)
    ensures |r| == |v| && forall i :: 0 <= i < |v| ==> r[i] == v[i].value
  {
    seq(|v|, i requires 0 <= i < |v| => v[i].value)
  }

  /** The sum from 0, added left to right. */
  function Total(v: seq<Number>): Number {
    if v == [] then Finite(0.0) else Total(v[..|v| - 1]).Plus(v[|v| - 1])
  }

  /** The sum of finite values is finite and is their real sum; a NaN makes
      it NaN; without a NaN or -Infinity, a +Infinity makes it +Infinity. */
  lemma {:induction false} TotalCases(v: seq<Number>)
    ensures AllFinite(v) ==> Total(v) == Finite(ZScore.Sum(Reals(v)))
    ensures (exists i :: 0 <= i < |v| && v[i].NaN?) ==> Total(v).NaN?
    ensures (forall i :: 0 <= i < |v| ==> !v[i].NaN? && !v[i].NegInf?) && (exists i :: 0 <= i < |v| && v[i].PosInf?)
            ==> Total(v).PosInf?
    ensures (forall i :: 0 <= i < |v| ==> !v[i].NaN? && !v[i].NegInf?) ==> !Total(v).NaN? && !Total(v).NegInf?
  {
    if v != [] {
      var init, last := v[..|v| - 1], v[|v| - 1];
      TotalCases(init);
      if AllFinite(v) {
        assert AllFinite(init);
        assert Reals(v)[..|v| - 1] == Reals(init);
      }
      if exists i :: 0 <= i < |v| && v[i].NaN? {
        var i :| 0 <= i < |v| && v[i].NaN?;
        if i < |v| - 1 { assert init[i].NaN?; }
      }
      if exists i :: 0 <= i < |v| && v[i].PosInf? {
        var i :| 0 <= i < |v| && v[i].PosInf?;
        if i < |v| - 1 { assert init[i].PosInf?; }
      }
    }
  }

  /** The overall rating, round(sum / 5), with the infinities and NaN of a
      double carried through. */
  function OverallRating(scores: Stats<Number>): Number {
    match Total(scores.Values())
    case Finite(s) => Finite(Round(s / 5.0) as real)
    case PosInf => PosInf
    case NegInf => NegInf
    case NaN => NaN
  }

  /** Finite scores rate as the rounded mean; a NaN score makes the rating
      NaN; a +Infinity score (and no NaN) makes it +Infinity. */
  lemma OverallRatingCases(scores: Stats<Number>)
    requires forall i :: 0 <= i < 5 ==> !scores.Values()[i].NegInf?
    ensures var v := scores.Values(); var r := OverallRating(scores);
      && (AllFinite(v) ==> r == Finite(Round(ZScore.Mean(Reals(v))) as real))
      && ((exists i :: 0 <= i < 5 && v[i].NaN?) ==> r == NaN)
      && ((forall i :: 0 <= i < 5 ==> !v[i].NaN?) && (exists i :: 0 <= i < 5 && v[i].PosInf?) ==> r == PosInf)
  {
    var v := scores.Values();
    TotalCases(v);
    if AllFinite(v) {
      var rv := Reals(v);
      var mv := ZScore.Mean(rv);
      assert mv == ZScore.Sum(rv) / 5.0;
    }
  }

  /** The rarity tier of the rating: 100, 95, 90 and 85 are the thresholds;
      +Infinity passes all of them and NaN none. */
  function Tier(rating: Number): AthleteCard.RarityTier {
    if rating.AtLeast(100.0) then AthleteCard.Alien
    else if rating.AtLeast(95.0) then AthleteCard.Hero
    else if rating.AtLeast(90.0) then AthleteCard.Pro
    else if rating.AtLeast(85.0) then AthleteCard.Elite
    else AthleteCard.Standard
  }

  /** The running ladder is the cycling ladder: every whole rating gets the
      same tier on both cards; +Infinity is ALIEN and NaN STANDARD. */
  lemma TierAgreesWithCycling(n: int)
    ensures Tier(Finite(n as real)) == AthleteCard.Tier(n)
    ensures Tier(PosInf) == AthleteCard.Alien && Tier(NaN) == AthleteCard.Standard
  {
  }

  datatype ProfileType =
    | MiddleDistanceFast | MiddleDistance | LongDistance | HalfMarathoner | Marathoner | Complete
  {
    /** The profile's name as the original code spells it. */
    function Name(): string {
      match this
      case MiddleDistanceFast => "MEZZOFONDISTA VELOCE"
      case MiddleDistance => "MEZZOFONDISTA"
      case LongDistance => "FONDISTA"
      case HalfMarathoner => "SPECIALISTA MEZZA"
      case Marathoner => "MARATONETA"
      case Complete => "ATLETA COMPLETO"
    }
  }

  /** The specialist of each race, in the order of `Stats.Values`. */
  const Specialists: seq<ProfileType> := [MiddleDistanceFast, MiddleDistance, LongDistance, HalfMarathoner, Marathoner]

  /** The profile of a set of scores: the specialist of the relative peak
      when a z-score exceeds 1, ATLETA COMPLETO otherwise. With a score that
      is not finite the mean, the deviation and every z-score are not
      numbers, and no z-score exceeds 1. */
  function DetermineProfile(T: Transcendentals, scores: Stats<Number>): ProfileType {
    var v := scores.Values();
    if !AllFinite(v) then Complete
    else match ZScore.Peak(T, Reals(v))
      case None => Complete
      case Some(i) => Specialists[i]
  }

  /** A specialist is the specialist of a highest score, and no earlier
      score is as high; the races map one to one onto the specialists.
      ATLETA COMPLETO is given exactly when a score is not finite or no
      z-score exceeds 1. */
  lemma ProfileIsPeak(T: Transcendentals, scores: Stats<Number>)
    requires SqrtLawful(T)
    ensures var p := DetermineProfile(T, scores); var v := scores.Values();
      && (p == Complete <==> !AllFinite(v) || ZScore.Peak(T, Reals(v)).None?)
      && (p != Complete ==>
            var i := ZScore.Peak(T, Reals(v)).value;
            && p == Specialists[i]
            && (forall j :: 0 <= j < 5 ==> v[j].value <= v[i].value)
            && (forall j :: 0 <= j < i ==> v[j].value < v[i].value))
    ensures forall i, j :: 0 <= i < j < 5 ==> Specialists[i] != Specialists[j] && Specialists[i] != Complete
  {
    var v := scores.Values();
    if AllFinite(v) && ZScore.Peak(T, Reals(v)).Some? {
      ZScore.PeakIsTopValue(T, Reals(v));
    }
  }

  /** Five equal finite scores give ATLETA COMPLETO. */
  lemma EqualScoresComplete(T: Transcendentals, c: real)
    requires SqrtLawful(T)
    ensures DetermineProfile(T, Stats(Finite(c), Finite(c), Finite(c), Finite(c), Finite(c))) == Complete
  {
    var v := Stats(Finite(c), Finite(c), Finite(c), Finite(c), Finite(c)).Values();
    assert AllFinite(v);
    ZScore.PeakOfEqualScores(T, Reals(v));
  }

  /** Finite scores moved by `a x + b`. */
  function AffineScores(s: Stats<real>, a: real, b: real): Stats<Number> {
    Stats(Finite(a * s.m1500 + b), Finite(a * s.m5000 + b), Finite(a * s.km10 + b),
          Finite(a * s.half + b), Finite(a * s.marathon + b))
  }

  /** The profile sees finite scores only up to a shift and a positive scale. */
  lemma ProfileAffine(T: Transcendentals, s: Stats<real>, a: real, b: real)
    requires SqrtLawful(T) && a > 0.0
    ensures DetermineProfile(T, AffineScores(s, a, b)) == DetermineProfile(T, AffineScores(s, 1.0, 0.0))
  {
    var v, w := AffineScores(s, 1.0, 0.0).Values(), AffineScores(s, a, b).Values();
    assert AllFinite(v) && AllFinite(w);
    var rv, rw := Reals(v), Reals(w);
    RealsAffine(s, a, b);
    ZScore.PeakAffine(T, rv, a, b);
  }

  /** Moving the finite scores moves each of their values the same way. */
  lemma RealsAffine(s: Stats<real>, a: real, b: real)
    ensures AllFinite(AffineScores(s, 1.0, 0.0).Values()) && AllFinite(AffineScores(s, a, b).Values())
    ensures Reals(AffineScores(s, a, b).Values()) == ZScore.Affine(Reals(AffineScores(s, 1.0, 0.0).Values()), a, b)
  {
    var v, w := AffineScores(s, 1.0, 0.0).Values(), AffineScores(s, a, b).Values();
    assert AllFinite(v) && AllFinite(w);
    var rv, rw := Reals(v), Reals(w);
    var z := ZScore.Affine(rv, a, b);
    assert |rv| == 5 && |z| == 5 && |rw| == 5;
    assert rv[0] == 1.0 * s.m1500 + 0.0 && rw[0] == a * s.m1500 + b;
    assert rv[1] == 1.0 * s.m5000 + 0.0 && rw[1] == a * s.m5000 + b;
    assert rv[2] == 1.0 * s.km10 + 0.0 && rw[2] == a * s.km10 + b;
    assert rv[3] == 1.0 * s.half + 0.0 && rw[3] == a * s.half + b;
    assert rv[4] == 1.0 * s.marathon + 0.0 && rw[4] == a * s.marathon + b;
    assert z[0] == rw[0] && z[1] == rw[1] && z[2] == rw[2] && z[3] == rw[3] && z[4] == rw[4];
  }

  /** The running card: the scores, the overall rating, the profile type and
      the rarity tier. */
  datatype CardProfile = CardProfile(stats: Stats<Number>, overallRating: Number,
                                     profileType: ProfileType, rarityTier: AthleteCard.RarityTier)

  /** The card of a valid model for a gender. */
  function CalculateProfile(T: Transcendentals, m: RunningModels, g: AthleteCard.Gender): CardProfile
    requires m.valid && Consistent(m)
  {
    var scores := Scores(Times(T, m), g);
    var rating := OverallRating(scores);
    CardProfile(scores, rating, DetermineProfile(T, scores), Tier(rating))
  }

  /** Positive finite times give finite scores, a rating that is their
      rounded mean and the tier of that whole rating on the cycling ladder. */
  lemma FiniteCard(times: Stats<Number>, g: AthleteCard.Gender)
    requires forall i :: 0 <= i < 5 ==> times.Values()[i].Finite? && times.Values()[i].value > 0.0
    ensures var scores := Scores(times, g); var v := scores.Values();
      && AllFinite(v)
      && OverallRating(scores) == Finite(Round(ZScore.Mean(Reals(v))) as real)
      && Tier(OverallRating(scores)) == AthleteCard.Tier(Round(ZScore.Mean(Reals(v))))
  {
    var scores := Scores(times, g);
    var v := scores.Values();
    assert AllFinite(v) by {
      var w := times.Values();
      assert w[0].value > 0.0 && w[1].value > 0.0 && w[2].value > 0.0 && w[3].value > 0.0 && w[4].value > 0.0;
    }
    OverallRatingCases(scores);
    TierAgreesWithCycling(Round(ZScore.Mean(Reals(v))));
  }

  /** The display name of a profile type; any other text is shown as is. */
  function FormatProfileType(profileType: string): string {
    if profileType == "MEZZOFONDISTA VELOCE" then "Mezzofondista Veloce"
    else if profileType == "MEZZOFONDISTA" then "Mezzofondista"
    else if profileType == "FONDISTA" then "Fondista"
    else if profileType == "SPECIALISTA MEZZA" then "Specialista Mezza"
    else if profileType == "MARATONETA" then "Maratoneta"
    else if profileType == "ATLETA COMPLETO" then "Atleta Completo"
    else profileType
  }

  /** The six profile types get six different display names, each differing
      from the name, and text that names no profile passes through. */
  lemma FormatProfileTypeDistinct(p: ProfileType, q: ProfileType, other: string)
    requires forall r: ProfileType :: other != r.Name()
    ensures FormatProfileType(p.Name()) != p.Name()
    ensures p != q ==> FormatProfileType(p.Name()) != FormatProfileType(q.Name())
    ensures FormatProfileType(other) == other
  {
    assert MiddleDistanceFast.Name() == "MEZZOFONDISTA VELOCE" && MiddleDistance.Name() == "MEZZOFONDISTA";
    assert LongDistance.Name() == "FONDISTA" && HalfMarathoner.Name() == "SPECIALISTA MEZZA";
    assert Marathoner.Name() == "MARATONETA" && Complete.Name() == "ATLETA COMPLETO";
  }
}
