/** The rarity levels of the athlete cards and the styles that go with them:
    the score colour, the avatar border and the particle effect. */
module Rarity {
  import opened Wrappers
  import AthleteCard

  datatype Level = Base | Elite | Leggenda | Goat {
    /** The position on the ladder, BASE lowest. */
    function Rank(): nat {
      match this
      case Base => 0
      case Elite => 1
      case Leggenda => 2
      case Goat => 3
    }
  }

  /** The rarity level of a rating: 95, 90 and 85 are the thresholds. */
  function LevelOf(rating: real): Level {
    if rating >= 95.0 then Goat
    else if rating >= 90.0 then Leggenda
    else if rating >= 85.0 then Elite
    else Base
  }

  /** A higher rating never gets a lower level. */
  lemma LevelMonotone(r: real, s: real)
    requires r <= s
    ensures LevelOf(r).Rank() <= LevelOf(s).Rank()
  {
  }

  /** The level and the card's tier read the same ladder: GOAT is ALIEN or
      HERO, LEGGENDA is PRO, ELITE is ELITE and BASE is STANDARD. */
  lemma LaddersAgree(rating: int)
    ensures var l, t := LevelOf(rating as real), AthleteCard.Tier(rating);
      && (l == Goat <==> t == AthleteCard.Alien || t == AthleteCard.Hero)
      && (l == Leggenda <==> t == AthleteCard.Pro)
      && (l == Elite <==> t == AthleteCard.Elite)
      && (l == Base <==> t == AthleteCard.Standard)
  {
  }

  /** The style of the score number. */
  datatype ScoreStyle = ScoreStyle(color: string, fontWeight: int, position: string, zIndex: int, opacity: real)

  /** Gold for LEGGENDA and GOAT, white otherwise, in heavy type on top. */
  function ScoreStyles(level: Level): ScoreStyle {
    match level
    case Goat | Leggenda => ScoreStyle("#FFD700", 900, "relative", 20, 1.0)
    case Elite | Base => ScoreStyle("#FFFFFF", 900, "relative", 20, 1.0)
  }

  /** The score is gold exactly from LEGGENDA up and white below, and the
      levels differ in nothing else. */
  lemma ScoreStylesDifferOnlyInColor(l: Level, k: Level)
    ensures ScoreStyles(l).color == "#FFD700" <==> l.Rank() >= 2
    ensures ScoreStyles(l).color == "#FFFFFF" <==> l.Rank() < 2
    ensures ScoreStyles(l).(color := "") == ScoreStyles(k).(color := "")
  {
  }

  /** The style of the avatar border. */
  datatype BorderStyle = BorderStyle(borderColor: string, boxShadow: string, filter: Option<string>)

  /** Two glows of the theme colour with the given alpha suffixes. */
  function Glow(color: string, outer: string, inner: string): string {
    "0 0 120px " + color + outer + ", 0 0 60px " + color + inner
  }

  /** A BASE border has a faint glow; from ELITE up the glow is stronger and
      a drop shadow is added. */
  function AvatarBorderStyles(level: Level, primaryColor: string): BorderStyle {
    if level == Base then BorderStyle(primaryColor, Glow(primaryColor, "60", "40"), None)
    else BorderStyle(primaryColor, Glow(primaryColor, "80", "60"),
                     Some("drop-shadow(0 0 40px " + primaryColor + "70)"))
  }

  /** The border is always the theme colour; it has a drop shadow exactly
      from ELITE up, and then its glow is the stronger one. */
  lemma AvatarBorderFilter(level: Level, primaryColor: string)
    ensures var b := AvatarBorderStyles(level, primaryColor);
      && b.borderColor == primaryColor
      && (b.filter.Some? <==> level.Rank() >= 1)
      && (b.filter.Some? <==> b.boxShadow == Glow(primaryColor, "80", "60"))
  {
    assert Glow(primaryColor, "80", "60") != Glow(primaryColor, "60", "40") by {
      var i := |"0 0 120px " + primaryColor|;
      assert Glow(primaryColor, "80", "60")[i] == '8';
      assert Glow(primaryColor, "60", "40")[i] == '6';
    }
  }

  /** Particles are shown for GOAT only. */
  function ShowParticles(level: Level): bool {
    level == Goat
  }

  /** Particles are shown exactly for ratings of 95 and above. */
  lemma ParticlesFromNinetyFive(rating: real)
    ensures ShowParticles(LevelOf(rating)) <==> rating >= 95.0
  {
  }
}
