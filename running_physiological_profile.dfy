/** The running physiological-profile page: the fatigue-resistance index of
    the power-law exponent, the utilisation fraction of CS and the speed- or
    endurance-oriented reading of the running card's scores. */
module RunningPhysiologicalProfile {
  import opened Wrappers
  import opened RealMath
  import opened RunningFit
  import RunningAthlete
  import AthleteCard
  import P = PhysiologicalProfile

  /** The running reading: with a 1500 m score more than 3 points below the
      10 km score the athlete is endurance-oriented, otherwise
      speed-oriented. The difference is taken in doubles, so a NaN or an
      infinity on both sides reads as speed-oriented. */
  function Orient(scores: RunningAthlete.Stats<RunningAthlete.Number>): P.Orientation {
    var delta := scores.m1500.Minus(scores.km10);
    if delta.Below(-3.0) then P.EnduranceOriented else P.SpeedOriented
  }

  /** For scores that are never -Infinity (as the card's are): the reading
      is endurance-oriented exactly when both scores are finite and the
      1500 m one trails by more than 3 points, or when the 1500 m score is
      finite and the 10 km one is +Infinity. */
  lemma OrientCases(scores: RunningAthlete.Stats<RunningAthlete.Number>)
    requires !scores.m1500.NegInf? && !scores.km10.NegInf?
    ensures Orient(scores) == P.EnduranceOriented <==>
      || (scores.m1500.Finite? && scores.km10.Finite? && scores.m1500.value < scores.km10.value - 3.0)
      || (scores.m1500.Finite? && scores.km10.PosInf?)
  {
  }

  /** What the page shows for a valid model. */
  datatype Page = Page(card: RunningAthlete.CardProfile, fatigueIndex: real, band: P.FatigueBand,
                       utilisation: real, orientation: P.Orientation)

  /** The page, or None (an error card) when the model is not valid. The
      fatigue index is that of the speed exponent k, the utilisation that of
      CS against the CS-D' speed at 5 minutes. */
  function ProfilePage(T: Transcendentals, m: RunningModels, g: AthleteCard.Gender): (r: Option<Page>)
    requires Consistent(m)
    ensures r.Some? <==> m.valid
  {
    if !m.valid then None
    else
      var card := RunningAthlete.CalculateProfile(T, m, g);
      var index := P.FatigueIndex(T, m.plParams.k);
      Some(Page(card, index, P.BandOf(index), P.Utilisation(m.cs, m.dPrime), Orient(card.stats)))
  }

  /** On the page of a valid model the utilisation lies strictly between 0
      and 100 %, the fatigue index is below 100 and shown with its band, and
      a model with a flatter speed curve never shows a faster-fatiguing band. */
  lemma ProfilePageFacts(T: Transcendentals, m: RunningModels, n: RunningModels, g: AthleteCard.Gender)
    requires Lawful(T) && Consistent(m) && m.valid && Consistent(n) && n.valid
    ensures var p := ProfilePage(T, m, g).value;
      && 0.0 < p.utilisation < 100.0
      && p.fatigueIndex < 100.0 && p.band == P.BandOf(p.fatigueIndex)
      && p.orientation == Orient(p.card.stats)
      && (m.plParams.k < n.plParams.k ==> ProfilePage(T, n, g).value.band.Rank() <= p.band.Rank())
  {
    var p, q := ProfilePage(T, m, g).value, ProfilePage(T, n, g).value;
    var x, y := m.plParams.k, n.plParams.k;
    assert p.utilisation == P.Utilisation(m.cs, m.dPrime) && p.fatigueIndex == P.FatigueIndex(T, x);
    assert q.fatigueIndex == P.FatigueIndex(T, y) && q.band == P.BandOf(q.fatigueIndex);
    assert 0.0 < P.Utilisation(m.cs, m.dPrime) < 100.0 by { P.UtilisationBetween(m.cs, m.dPrime); }
    assert P.FatigueIndex(T, x) < 100.0 by { P.FatigueIndexDecreasing(T, x, x + 1.0); }
    assert x < y ==> P.BandOf(P.FatigueIndex(T, y)).Rank() <= P.BandOf(P.FatigueIndex(T, x)).Rank() by {
      if x < y { P.FatigueIndexDecreasing(T, x, y); }
    }
  }
}
