/** The cycling athlete card: watts per kilogram at five fixed durations,
    scores against sex-specific benchmarks, the overall rating, the rarity
    tier and the z-score profile type. */
module AthleteCard {
  import opened Wrappers
  import opened RealMath
  import opened PowerFit
  import ZScore

  datatype Gender = Male | Female

  /** One value per fixed duration: NM (5 s), LACT (1 min), VO2 (5 min),
      THR (20 min) and STA (60 min). Used for watts per kilogram, for the
      benchmarks and for the scores alike. */
  datatype Stats = Stats(nm: real, lact: real, vo2: real, thr: real, sta: real) {
    /** The five values in the order NM, LACT, VO2, THR, STA. */
    function Values(): (v: seq<real>)
      ensures |v| == 5
      ensures v[0] == nm && v[1] == lact && v[2] == vo2 && v[3] == thr && v[4] == sta
    {
      [nm, lact, vo2, thr, sta]
    }

    /** Every value moved by `a x + b`. */
    function Affine(a: real, b: real): Stats {
      Stats(a * nm + b, a * lact + b, a * vo2 + b, a * thr + b, a * sta + b)
    }

    /** Each value at most the matching value of `other`. */
    predicate AtMost(other: Stats) {
      nm <= other.nm && lact <= other.lact && vo2 <= other.vo2 && thr <= other.thr && sta <= other.sta
    }
  }

  /** The benchmark watts per kilogram that score 95. */
  function Benchmarks(g: Gender): (b: Stats)
    ensures b.nm > 0.0 && b.lact > 0.0 && b.vo2 > 0.0 && b.thr > 0.0 && b.sta > 0.0
  {
    match g
    case Male => Stats(24.65, 11.33, 7.65, 6.59, 5.76)
    case Female => Stats(17.2, 9.4, 6.5, 5.5, 4.9)
  }

  /** The watts per kilogram of a fit: the APR curve (without any Pmax
      shortcut) at 5 and 60 s, the CP-W' curve at 300 s and the power law at
      1200 and 3600 s, each over the body weight. */
  function WattPerKg(T: Transcendentals, m: PowerModels, bodyWeight: real): Stats
    requires bodyWeight > 0.0
  {
    Stats(m.aprParams.At(T, 5.0) / bodyWeight,
          m.aprParams.At(T, 60.0) / bodyWeight,
          CpwAt(m, 300.0) / bodyWeight,
          m.plParams.At(T, 1200.0) / bodyWeight,
          m.plParams.At(T, 3600.0) / bodyWeight)
  }

  /** For an accepted fit every value is positive and the three short
      durations are strictly ordered: 5 s above 1 min above 5 min (the APR
      curve lies above the 3-minute power, which lies above the CP-W' power
      at 5 minutes). With an exponent E of at most 1 the 20-minute value is
      at least the 60-minute one. */
  lemma WattPerKgOrdered(T: Transcendentals, m: PowerModels, bodyWeight: real)
    requires Lawful(T) && Consistent(m) && m.valid && bodyWeight > 0.0
    ensures var w := WattPerKg(T, m, bodyWeight);
      && w.nm > w.lact > w.vo2 > 0.0 && w.thr > 0.0 && w.sta > 0.0
      && (m.plParams.E <= 1.0 ==> w.thr >= w.sta)
  {
    var a := m.aprParams;
    var p5, p60, p300 := a.At(T, 5.0), a.At(T, 60.0), CpwAt(m, 300.0);
    assert p5 > p60 by { AprDecreasing(T, m, 5.0, 60.0); }
    assert p60 > a.po3min by { AprBetween(T, m, 60.0); }
    assert a.po3min == CpwAt(m, 180.0);
    assert CpwAt(m, 180.0) > p300 > m.cp by { CpwDecreasing(m, 180.0, 300.0); }
    var s := m.plParams;
    var p1200, p3600 := s.At(T, 1200.0), s.At(T, 3600.0);
    assert p1200 > 0.0 && p3600 > 0.0 by { PowerLawPositive(T, s, 1200.0, 3600.0); }
    assert s.E <= 1.0 ==> p1200 >= p3600 by { PowerLawNotIncreasing(T, s, 1200.0, 3600.0); }
    PerKgFacts(p5, p60, p300, p1200, p3600, bodyWeight);
  }

  lemma PerKgFacts(p5: real, p60: real, p300: real, p1200: real, p3600: real, w: real)
    requires p5 > p60 > p300 > 0.0 && p1200 > 0.0 && p3600 > 0.0 && w > 0.0
    ensures p5 / w > p60 / w > p300 / w > 0.0 && p1200 / w > 0.0 && p3600 / w > 0.0
    ensures p1200 >= p3600 ==> p1200 / w >= p3600 / w
  {
    PerKgOrder(p60, p5, w);
    PerKgOrder(p300, p60, w);
    PerKgOrder(0.0, p300, w);
    PerKgOrder(0.0, p1200, w);
    PerKgOrder(0.0, p3600, w);
    if p1200 > p3600 {
      PerKgOrder(p3600, p1200, w);
    }
  }

  lemma PowerLawPositive(T: Transcendentals, s: PowerLawParams, t: real, u: real)
    requires Lawful(T) && s.S > 0.0
    ensures s.At(T, t) > 0.0 && s.At(T, u) > 0.0
  {
    var pt, pu := Pow(T, t, s.E - 1.0), Pow(T, u, s.E - 1.0);
    assert pt > 0.0 && pu > 0.0 by {
      PowPositive(T, t, s.E - 1.0);
      PowPositive(T, u, s.E - 1.0);
    }
    ScaleOrder(s.S, 0.0, pt);
    ScaleOrder(s.S, 0.0, pu);
  }

  lemma PowerLawNotIncreasing(T: Transcendentals, s: PowerLawParams, t: real, u: real)
    requires Lawful(T) && s.S > 0.0 && 0.0 < t < u
    ensures s.E <= 1.0 ==> s.At(T, t) >= s.At(T, u)
  {
    if s.E <= 1.0 {
      PowNotIncreasing(T, t, u, s.E - 1.0);
      ScaledPowOrder(T, s, t, u);
    }
  }

  /** The scale of a power law carries an order of its powers over to its values. */
  lemma ScaledPowOrder(T: Transcendentals, s: PowerLawParams, t: real, u: real)
    requires s.S > 0.0 && Pow(T, u, s.E - 1.0) <= Pow(T, t, s.E - 1.0)
    ensures s.At(T, t) >= s.At(T, u)
  {
    ScaleOrder(s.S, Pow(T, u, s.E - 1.0), Pow(T, t, s.E - 1.0));
  }

  /** A power with a non-positive exponent does not rise with its base. */
  lemma PowNotIncreasing(T: Transcendentals, t: real, u: real, y: real)
    requires Lawful(T) && 0.0 < t < u && y <= 0.0
    ensures Pow(T, u, y) <= Pow(T, t, y)
  {
    if y < 0.0 {
      PowDecreasingInBase(T, t, u, y);
    } else {
      PowZeroExponent(T, t);
      PowZeroExponent(T, u);
    }
  }

  /** A positive factor keeps a non-strict order. */
  lemma ScaleOrder(c: real, p: real, q: real)
    requires c > 0.0 && p <= q
    ensures c * p <= c * q
    ensures p < q ==> c * p < c * q
  {
    if p < q { MulLeft(c, p, q); }
  }

  /** Dividing by a positive weight keeps a strict order. */
  lemma PerKgOrder(p: real, q: real, w: real)
    requires p < q && w > 0.0
    ensures p / w < q / w
  {
    assert (q / w - p / w) * w == q - p;
    DivUnique(q - p, w, q / w - p / w);
    SignOfQuotient(q - p, w);
  }

  /** One score: the value over its benchmark, scaled so that the
      benchmark scores 95, rounded. */
  function Score(value: real, benchmark: real): real
    requires benchmark > 0.0
  {
    Round(value / benchmark * 95.0) as real
  }

  /** A score is a whole number within half a point of 95 value/benchmark,
      the benchmark itself scores exactly 95, and a larger value never
      scores less. */
  lemma ScoreProperties(value: real, other: real, benchmark: real)
    requires benchmark > 0.0
    ensures var s := Score(value, benchmark);
      && s == s.Floor as real
      && value / benchmark * 95.0 - 0.5 < s <= value / benchmark * 95.0 + 0.5
      && Score(benchmark, benchmark) == 95.0
      && (value <= other ==> s <= Score(other, benchmark))
  {
    RoundBounds(value / benchmark * 95.0);
    assert benchmark / benchmark == 1.0;
    RoundOfInteger(95);
    if value <= other {
      assert value / benchmark <= other / benchmark by {
        if value < other { PerKgOrder(value, other, benchmark); }
      }
      RoundMonotone(value / benchmark * 95.0, other / benchmark * 95.0);
    }
  }

  /** The five scores for a gender's benchmarks. */
  function Scores(w: Stats, g: Gender): Stats {
    var b := Benchmarks(g);
    Stats(Score(w.nm, b.nm), Score(w.lact, b.lact), Score(w.vo2, b.vo2),
          Score(w.thr, b.thr), Score(w.sta, b.sta))
  }

  /** Scoring never reverses an order: watts per kilogram that are at least
      as high everywhere score at least as high everywhere. */
  lemma ScoresMonotone(w: Stats, x: Stats, g: Gender)
    requires w.AtMost(x)
    ensures Scores(w, g).AtMost(Scores(x, g))
  {
    var b := Benchmarks(g);
    ScoreProperties(w.nm, x.nm, b.nm);
    ScoreProperties(w.lact, x.lact, b.lact);
    ScoreProperties(w.vo2, x.vo2, b.vo2);
    ScoreProperties(w.thr, x.thr, b.thr);
    ScoreProperties(w.sta, x.sta, b.sta);
  }

  /** The overall rating: the mean of the five scores, rounded. */
  function OverallRating(s: Stats): int {
    Round(ZScore.Mean(s.Values()))
  }

  lemma SumOfValues(s: Stats)
    ensures ZScore.Sum(s.Values()) == s.nm + s.lact + s.vo2 + s.thr + s.sta
  {
    var v := s.Values();
    assert v[..4][..3][..2][..1][..0] == [];
    assert ZScore.Sum(v[..4][..3][..2][..1]) == s.nm;
    assert ZScore.Sum(v[..4][..3][..2]) == s.nm + s.lact;
    assert ZScore.Sum(v[..4][..3]) == s.nm + s.lact + s.vo2;
    assert ZScore.Sum(v[..4]) == s.nm + s.lact + s.vo2 + s.thr;
  }

  /** The rating is the rounded mean, never falls when any score rises,
      and five equal whole scores rate as that score. */
  lemma OverallRatingProperties(s: Stats, t: Stats)
    ensures var mean := (s.nm + s.lact + s.vo2 + s.thr + s.sta) / 5.0;
      mean - 0.5 < OverallRating(s) as real <= mean + 0.5
    ensures s.AtMost(t) ==> OverallRating(s) <= OverallRating(t)
    ensures s.nm == s.lact == s.vo2 == s.thr == s.sta == s.nm.Floor as real ==> OverallRating(s) == s.nm.Floor
  {
    SumOfValues(s);
    SumOfValues(t);
    var ms := (s.nm + s.lact + s.vo2 + s.thr + s.sta) / 5.0;
    var mt := (t.nm + t.lact + t.vo2 + t.thr + t.sta) / 5.0;
    assert ZScore.Mean(s.Values()) == ms && ZScore.Mean(t.Values()) == mt;
    RoundBounds(ms);
    if s.AtMost(t) {
      RoundMonotone(ms, mt);
    }
    if s.nm == s.lact == s.vo2 == s.thr == s.sta == s.nm.Floor as real {
      assert ms == s.nm;
      RoundOfInteger(s.nm.Floor);
    }
  }

  datatype RarityTier = Alien | Hero | Pro | Elite | Standard {
    /** The position on the ladder, STANDARD lowest. */
    function Rank(): nat {
      match this
      case Standard => 0
      case Elite => 1
      case Pro => 2
      case Hero => 3
      case Alien => 4
    }
  }

  /** The rarity tier of a rating: 100, 95, 90 and 85 are the thresholds. */
  function Tier(rating: int): RarityTier {
    if rating >= 100 then Alien
    else if rating >= 95 then Hero
    else if rating >= 90 then Pro
    else if rating >= 85 then Elite
    else Standard
  }

  /** A higher rating never gets a lower tier, and each tier is reached
      exactly at its threshold. */
  lemma TierMonotone(r: int, s: int)
    requires r <= s
    ensures Tier(r).Rank() <= Tier(s).Rank()
    ensures Tier(r).Rank() >= 1 <==> r >= 85
    ensures Tier(r).Rank() >= 2 <==> r >= 90
    ensures Tier(r).Rank() >= 3 <==> r >= 95
    ensures Tier(r).Rank() >= 4 <==> r >= 100
  {
  }

  datatype Specialty = NM | LACT | VO2 | THR | STA

  /** The specialties in the order of `Stats.Values`. */
  const Specialties: seq<Specialty> := [NM, LACT, VO2, THR, STA]

  datatype ProfileType = Sprinter | Puncheur | Climber | TimeTrialist | AllRounder {
    /** The profile's name as the original code spells it. */
    function Name(): string {
      match this
      case Sprinter => "SPRINTER"
      case Puncheur => "PUNCHEUR"
      case Climber => "CLIMBER"
      case TimeTrialist => "TIME TRIALIST"
      case AllRounder => "ALL-ROUNDER"
    }
  }

  /** The specialist profile of a peak: NM a sprinter, LACT and VO2 a
      puncheur, THR and STA a climber up to 70 kg and a time trialist above. */
  function FromSpecialty(s: Specialty, bodyWeight: real): ProfileType {
    match s
    case NM => Sprinter
    case LACT | VO2 => Puncheur
    case THR | STA => if bodyWeight <= 70.0 then Climber else TimeTrialist
  }

  /** The profile of a set of scores: the specialist profile of the relative
      peak when a z-score exceeds 1, ALL-ROUNDER otherwise (including when
      every z-score is not a number). */
  function DetermineProfile(T: Transcendentals, scores: Stats, bodyWeight: real): ProfileType {
    match ZScore.Peak(T, scores.Values())
    case None => AllRounder
    case Some(i) => FromSpecialty(Specialties[i], bodyWeight)
  }

  /** A specialist profile names a highest score: the sprinter's NM, the
      puncheur's LACT or VO2, the climber's or time trialist's THR or STA,
      and no earlier score is as high; climbers weigh at most 70 kg and
      time trialists more. An all-rounder has no z-score above 1. */
  lemma ProfileIsPeak(T: Transcendentals, scores: Stats, bodyWeight: real)
    requires SqrtLawful(T)
    ensures var p := DetermineProfile(T, scores, bodyWeight); var v := scores.Values();
      && (p == AllRounder <==> ZScore.Peak(T, v).None?)
      && (p != AllRounder ==>
            var i := ZScore.Peak(T, v).value;
            && (forall j :: 0 <= j < 5 ==> v[j] <= v[i])
            && (forall j :: 0 <= j < i ==> v[j] < v[i])
            && (p == Sprinter <==> i == 0)
            && (p == Puncheur <==> i == 1 || i == 2)
            && (p == Climber <==> (i == 3 || i == 4) && bodyWeight <= 70.0)
            && (p == TimeTrialist <==> (i == 3 || i == 4) && bodyWeight > 70.0))
  {
    if ZScore.Peak(T, scores.Values()).Some? {
      ZScore.PeakIsTopValue(T, scores.Values());
    }
  }

  /** Five equal scores make an all-rounder. */
  lemma EqualScoresAllRounder(T: Transcendentals, c: real, bodyWeight: real)
    requires SqrtLawful(T)
    ensures DetermineProfile(T, Stats(c, c, c, c, c), bodyWeight) == AllRounder
  {
    ZScore.PeakOfEqualScores(T, Stats(c, c, c, c, c).Values());
  }

  /** The profile sees the scores only up to a shift and a positive scale. */
  lemma ProfileAffine(T: Transcendentals, scores: Stats, a: real, b: real, bodyWeight: real)
    requires SqrtLawful(T) && a > 0.0
    ensures DetermineProfile(T, scores.Affine(a, b), bodyWeight) == DetermineProfile(T, scores, bodyWeight)
  {
    ValuesAffine(scores, a, b);
    ZScore.PeakAffine(T, scores.Values(), a, b);
  }

  /** Moving the scores moves each of their values the same way. */
  lemma ValuesAffine(scores: Stats, a: real, b: real)
    ensures scores.Affine(a, b).Values() == ZScore.Affine(scores.Values(), a, b)
  {
    var v, w, z := scores.Values(), scores.Affine(a, b).Values(), ZScore.Affine(scores.Values(), a, b);
    assert |v| == 5 && |z| == 5 && |w| == 5;
    assert z[0] == a * v[0] + b == w[0];
    assert z[1] == a * v[1] + b == w[1];
    assert z[2] == a * v[2] + b == w[2];
    assert z[3] == a * v[3] + b == w[3];
    assert z[4] == a * v[4] + b == w[4];
  }

  /** The athlete card: the scores, the overall rating, the profile type and
      the rarity tier. */
  datatype AthleteProfile = AthleteProfile(stats: Stats, overallRating: int, profileType: ProfileType, rarityTier: RarityTier)

  /** The card of a fit for a body weight and a gender. */
  function CalculateProfile(T: Transcendentals, m: PowerModels, bodyWeight: real, g: Gender): AthleteProfile
    requires bodyWeight > 0.0
  {
    var scores := Scores(WattPerKg(T, m, bodyWeight), g);
    var rating := OverallRating(scores);
    AthleteProfile(scores, rating, DetermineProfile(T, scores, bodyWeight), Tier(rating))
  }

  /** For the same accepted fit, a heavier athlete never scores, rates or
      ranks higher. */
  lemma HeavierNeverRatesHigher(T: Transcendentals, m: PowerModels, light: real, heavy: real, g: Gender)
    requires Lawful(T) && Consistent(m) && m.valid && 0.0 < light <= heavy
    ensures var l, h := CalculateProfile(T, m, light, g), CalculateProfile(T, m, heavy, g);
      && h.stats.AtMost(l.stats)
      && h.overallRating <= l.overallRating
      && h.rarityTier.Rank() <= l.rarityTier.Rank()
  {
    var wl, wh := WattPerKg(T, m, light), WattPerKg(T, m, heavy);
    assert wl.vo2 > 0.0 && wl.nm > 0.0 && wl.lact > 0.0 && wl.thr > 0.0 && wl.sta > 0.0 by {
      WattPerKgOrdered(T, m, light);
    }
    assert wh.AtMost(wl) by {
      var a := m.aprParams;
      var s := m.plParams;
      HeavierPerKg(a.At(T, 5.0), light, heavy);
      HeavierPerKg(a.At(T, 60.0), light, heavy);
      HeavierPerKg(CpwAt(m, 300.0), light, heavy);
      HeavierPerKg(s.At(T, 1200.0), light, heavy);
      HeavierPerKg(s.At(T, 3600.0), light, heavy);
    }
    ScoresMonotone(wh, wl, g);
    var sl, sh := Scores(wl, g), Scores(wh, g);
    OverallRatingProperties(sh, sl);
    TierMonotone(OverallRating(sh), OverallRating(sl));
  }

  /** A positive power over a larger weight is not larger. */
  lemma HeavierPerKg(p: real, light: real, heavy: real)
    requires 0.0 < light <= heavy
    requires p / light > 0.0
    ensures p / heavy <= p / light
  {
    SignOfQuotient(p, light);
    if light < heavy {
      DivDecreasing(p, light, heavy);
    }
  }

  /** The display name of a profile type; any other text is shown as is. */
  function FormatProfileType(profileType: string): string {
    if profileType == "SPRINTER" then "Sprinter"
    else if profileType == "PUNCHEUR" then "Puncheur"
    else if profileType == "CLIMBER" then "Scalatore"
    else if profileType == "TIME TRIALIST" then "Cronoman"
    else if profileType == "ALL-ROUNDER" then "All-Rounder"
    else profileType
  }

  /** The five profile types get five different display names, none of them
      a profile name, and text that names no profile passes through. */
  lemma FormatProfileTypeDistinct(p: ProfileType, q: ProfileType, other: string)
    requires forall r: ProfileType :: other != r.Name()
    ensures FormatProfileType(p.Name()) != p.Name()
    ensures p != q ==> FormatProfileType(p.Name()) != FormatProfileType(q.Name())
    ensures FormatProfileType(other) == other
  {
    assert Sprinter.Name() == "SPRINTER" && Puncheur.Name() == "PUNCHEUR" && Climber.Name() == "CLIMBER";
    assert TimeTrialist.Name() == "TIME TRIALIST" && AllRounder.Name() == "ALL-ROUNDER";
  }
}
