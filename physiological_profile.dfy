/** The cycling physiological-profile page: the fatigue-resistance index and
    its band, the utilisation fraction, the speed- or endurance-oriented
    reading of the card's scores and the icon of the profile type. */
module PhysiologicalProfile {
  import opened Wrappers
  import opened RealMath
  import opened PowerFit
  import AthleteCard

  /** The fatigue-resistance bands, from the most fatigue-resistant. */
  datatype FatigueBand = Resistant | Mixed | Fast {
    function Rank(): nat {
      match this
      case Resistant => 0
      case Mixed => 1
      case Fast => 2
    }

    /** The colour of the band: green, yellow, red. */
    function Color(): string {
      match this
      case Resistant => "#4ADE80"
      case Mixed => "#FACC15"
      case Fast => "#F87171"
    }
  }

  /** The band of a fatigue index: below 7.5 resistant, up to 9.5 mixed,
      above that fast. */
  function BandOf(index: real): FatigueBand {
    if index < 7.5 then Resistant
    else if index <= 9.5 then Mixed
    else Fast
  }

  /** The fatigue index for the power-law exponent minus 1, x: the
      percentage lost when the duration doubles, (1 - 2^x) * 100. */
  function FatigueIndex(T: Transcendentals, x: real): real {
    (1.0 - Pow(T, 2.0, x)) * 100.0
  }

  /** A flatter curve (larger exponent) loses less when the duration
      doubles, and so never lands in a faster-fatiguing band; a flat curve
      (exponent 0) loses nothing; the index is below 100. */
  lemma FatigueIndexDecreasing(T: Transcendentals, x: real, y: real)
    requires Lawful(T) && x < y
    ensures FatigueIndex(T, x) > FatigueIndex(T, y)
    ensures BandOf(FatigueIndex(T, y)).Rank() <= BandOf(FatigueIndex(T, x)).Rank()
    ensures FatigueIndex(T, 0.0) == 0.0 && FatigueIndex(T, x) < 100.0
  {
    var px, py := Pow(T, 2.0, x), Pow(T, 2.0, y);
    assert px < py by { PowIncreasingInExponent(T, 2.0, x, y); }
    assert px > 0.0 by { PowPositive(T, 2.0, x); }
    assert Pow(T, 2.0, 0.0) == 1.0 by { PowZeroExponent(T, 2.0); }
    BandMonotone(FatigueIndex(T, y), FatigueIndex(T, x));
  }

  /** A larger index never lands in a more resistant band. */
  lemma BandMonotone(i: real, j: real)
    requires i <= j
    ensures BandOf(i).Rank() <= BandOf(j).Rank()
  {
  }

  /** The width, in percent, of the fatigue bar: eight times the index,
      capped at a full bar. */
  function BarWidth(index: real): (w: real)
    ensures w <= 100.0 && (index >= 0.0 ==> w >= 0.0)
    ensures w == 100.0 <==> index >= 12.5
    ensures w < 100.0 ==> w == index * 8.0
    ensures w == 100.0 ==> BandOf(index) == Fast
  {
    Min(index * 8.0, 100.0)
  }

  /** A larger index never gives a shorter bar. */
  lemma BarWidthMonotone(i: real, j: real)
    requires i <= j
    ensures BarWidth(i) <= BarWidth(j)
  {
  }

  /** The utilisation fraction: the critical power as a percentage of the
      CP-W' power at 5 minutes. */
  function Utilisation(cp: real, wPrime: real): real
    requires cp + wPrime / 300.0 != 0.0
  {
    cp / (cp + wPrime / 300.0) * 100.0
  }

  /** With a positive CP and W' the fraction lies strictly between 0 and
      100 %, and it is the CP share of the 5-minute power. */
  lemma UtilisationBetween(cp: real, wPrime: real)
    requires cp > 0.0 && wPrime > 0.0
    ensures 0.0 < Utilisation(cp, wPrime) < 100.0
    ensures Utilisation(cp, wPrime) * (cp + wPrime / 300.0) == cp * 100.0
  {
    var p5 := cp + wPrime / 300.0;
    assert cp < p5;
    assert 0.0 < cp / p5 < 1.0 by {
      SignOfQuotient(cp, p5);
      DivDecreasing(cp, cp, p5);
      assert cp / cp == 1.0;
    }
  }

  /** What the page reads from the scores. */
  datatype Orientation = SpeedOriented | EnduranceOriented

  /** The cycling reading: with a stamina score more than 5 points below the
      VO2max score the athlete is speed-oriented, otherwise
      endurance-oriented. */
  function Orient(scores: AthleteCard.Stats): (o: Orientation)
    ensures o == SpeedOriented <==> scores.sta < scores.vo2 - 5.0
  {
    var delta := scores.sta - scores.vo2;
    if delta < -5.0 then SpeedOriented else EnduranceOriented
  }

  datatype Icon = Zap | Activity | Target | Dumbbell | Award

  /** The icon of a profile type. */
  function IconOf(p: AthleteCard.ProfileType): Icon {
    match p
    case Sprinter => Zap
    case Climber => Activity
    case TimeTrialist => Target
    case Puncheur => Dumbbell
    case AllRounder => Award
  }

  /** Each profile type has its own icon. */
  lemma IconsDistinct(p: AthleteCard.ProfileType, q: AthleteCard.ProfileType)
    ensures p != q ==> IconOf(p) != IconOf(q)
  {
  }

  /** What the page shows for an accepted fit. */
  datatype Page = Page(card: AthleteCard.AthleteProfile, fatigueIndex: real, band: FatigueBand,
                       utilisation: real, orientation: Orientation, icon: Icon)

  /** The page, or None (an error card) when the fit was rejected. */
  function ProfilePage(T: Transcendentals, m: PowerModels, bodyWeight: real, g: AthleteCard.Gender): (r: Option<Page>)
    requires Consistent(m) && bodyWeight > 0.0
    ensures r.Some? <==> m.valid
  {
    if !m.valid then None
    else
      var card := AthleteCard.CalculateProfile(T, m, bodyWeight, g);
      var index := FatigueIndex(T, m.plParams.E - 1.0);
      Some(Page(card, index, BandOf(index), Utilisation(m.cp, m.wPrime),
                Orient(card.stats), IconOf(card.profileType)))
  }

  /** On the page of an accepted fit the utilisation lies strictly between 0
      and 100 %, the fatigue index is below 100 and shown with its band, and
      the orientation and icon are those of the card's scores and profile. */
  lemma ProfilePageFacts(T: Transcendentals, m: PowerModels, bodyWeight: real, g: AthleteCard.Gender)
    requires Lawful(T) && Consistent(m) && m.valid && bodyWeight > 0.0
    ensures var p := ProfilePage(T, m, bodyWeight, g).value;
      && 0.0 < p.utilisation < 100.0
      && p.fatigueIndex < 100.0 && p.band == BandOf(p.fatigueIndex)
      && p.orientation == Orient(p.card.stats) && p.icon == IconOf(p.card.profileType)
  {
    var p := ProfilePage(T, m, bodyWeight, g).value;
    var x := m.plParams.E - 1.0;
    assert p.utilisation == Utilisation(m.cp, m.wPrime) && p.fatigueIndex == FatigueIndex(T, x);
    assert 0.0 < Utilisation(m.cp, m.wPrime) < 100.0 by { UtilisationBetween(m.cp, m.wPrime); }
    assert FatigueIndex(T, x) < 100.0 by { FatigueIndexDecreasing(T, x, x + 1.0); }
  }
}
