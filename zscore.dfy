/** The "relative peak" classifier shared by the cycling and running athlete
    profiles: population mean and standard deviation of the scores, the
    z-score of each, and the first index of the largest z-score when that
    exceeds 1. */
module ZScore {
  import opened Wrappers
  import opened RealMath

  /** A z-score above this marks a specialist. */
  const Threshold: real := 1.0

  /** The sum of the values, added left to right. */
  function Sum(v: seq<real>): real {
    if v == [] then 0.0 else Sum(v[..|v| - 1]) + v[|v| - 1]
  }

  function Mean(v: seq<real>): real
    requires |v| > 0
  {
    Sum(v) / |v| as real
  }

  function Square(x: real): real {
    x * x
  }

  /** The sum of squared deviations from `mean`, added left to right. */
  function SquaredDeviations(v: seq<real>, mean: real): real {
    if v == [] then 0.0
    else SquaredDeviations(v[..|v| - 1], mean) + Square(v[|v| - 1] - mean)
  }

  /** The population variance. */
  function Variance(v: seq<real>): real
    requires |v| > 0
  {
    SquaredDeviations(v, Mean(v)) / |v| as real
  }

  function StandardDeviation(T: Transcendentals, v: seq<real>): real
    requires |v| > 0
  {
    Sqrt(T, Variance(v))
  }

  /** The z-scores; None when the standard deviation is 0, where every
      z-score is 0/0, not a number. */
  function ZScores(T: Transcendentals, v: seq<real>): (r: Option<seq<real>>)
    requires |v| > 0
    ensures r.Some? ==> |r.value| == |v|
  {
    var mean, sd := Mean(v), StandardDeviation(T, v);
    if sd == 0.0 then None
    else Some(seq(|v|, i requires 0 <= i < |v| => (v[i] - mean) / sd))
  }

  /** The largest element. */
  function MaxOf(z: seq<real>): (x: real)
    requires |z| > 0
    ensures x in z && forall i :: 0 <= i < |z| ==> z[i] <= x
  {
    if |z| == 1 then z[0]
    else
      var rest := MaxOf(z[..|z| - 1]);
      if z[|z| - 1] > rest then z[|z| - 1] else rest
  }

  /** The first index of `x` (`indexOf`). */
  function IndexOf(z: seq<real>, x: real): (i: nat)
    requires x in z
    ensures i < |z| && z[i] == x && forall j :: 0 <= j < i ==> z[j] != x
  {
    if z[0] == x then 0 else 1 + IndexOf(z[1..], x)
  }

  /** The index of the relative peak, or None for an all-round profile: no
      z-scores, or a largest z-score of at most 1. */
  function Peak(T: Transcendentals, v: seq<real>): (r: Option<nat>)
    requires |v| > 0
    ensures r.Some? ==> r.value < |v|
  {
    match ZScores(T, v)
    case None => None
    case Some(z) =>
      var top := MaxOf(z);
      if top > Threshold then Some(IndexOf(z, top)) else None
  }

  /** A peak is the first of the largest z-scores and that z-score exceeds 1;
      there is none exactly when the deviation is 0 or no z-score exceeds 1. */
  lemma PeakSpec(T: Transcendentals, v: seq<real>)
    requires |v| > 0
    ensures var r := Peak(T, v); var z := ZScores(T, v);
      && (r.None? <==> z.None? || forall i :: 0 <= i < |v| ==> z.value[i] <= Threshold)
      && (r.Some? ==>
            && z.value[r.value] > Threshold
            && (forall j :: 0 <= j < |v| ==> z.value[j] <= z.value[r.value])
            && (forall j :: 0 <= j < r.value ==> z.value[j] < z.value[r.value]))
  {
  }

  /** Every value moved by `a x + b`. */
  function Affine(v: seq<real>, a: real, b: real): (w: seq<real>)
    ensures |w| == |v| && forall i :: 0 <= i < |v| ==> w[i] == a * v[i] + b
  {
    seq(|v|, i requires 0 <= i < |v| => a * v[i] + b)
  }

  lemma {:induction false} SumAffine(v: seq<real>, a: real, b: real)
    ensures Sum(Affine(v, a, b)) == a * Sum(v) + b * |v| as real
  {
    if v != [] {
      var n := |v| - 1;
      AffinePrefix(v, a, b, n);
      SumAffine(v[..n], a, b);
      assert b * (n as real) + b == b * |v| as real;
    }
  }

  lemma AffinePrefix(v: seq<real>, a: real, b: real, n: nat)
    requires n <= |v|
    ensures Affine(v, a, b)[..n] == Affine(v[..n], a, b)
  {
    var l, r := Affine(v, a, b)[..n], Affine(v[..n], a, b);
    assert |l| == |r|;
    forall i | 0 <= i < n
      ensures l[i] == r[i]
    {
    }
  }

  lemma MeanAffine(v: seq<real>, a: real, b: real)
    requires |v| > 0
    ensures Mean(Affine(v, a, b)) == a * Mean(v) + b
  {
    var n := |v| as real;
    SumAffine(v, a, b);
    DivUnique(a * Sum(v) + b * n, n, a * Mean(v) + b) by {
      assert Mean(v) * n == Sum(v);
      assert (a * Mean(v) + b) * n == a * (Mean(v) * n) + b * n;
    }
  }

  lemma {:induction false} SquaredDeviationsAffine(v: seq<real>, a: real, b: real, mean: real)
    ensures SquaredDeviations(Affine(v, a, b), a * mean + b) == a * a * SquaredDeviations(v, mean)
  {
    if v != [] {
      var n := |v| - 1;
      var w := Affine(v, a, b);
      AffinePrefix(v, a, b, n);
      SquaredDeviationsAffine(v[..n], a, b, mean);
      var d := v[n] - mean;
      assert w[n] - (a * mean + b) == a * d;
      ScaledSquares(a, d, SquaredDeviations(v[..n], mean));
    }
  }

  lemma ScaledSquares(a: real, d: real, q: real)
    ensures a * a * q + Square(a * d) == a * a * (q + Square(d))
  {
  }

  /** Moving every value by `a x + b` multiplies the deviation by `a`. */
  lemma StandardDeviationAffine(T: Transcendentals, v: seq<real>, a: real, b: real)
    requires SqrtLawful(T) && |v| > 0 && a > 0.0
    ensures StandardDeviation(T, Affine(v, a, b)) == a * StandardDeviation(T, v)
  {
    var w := Affine(v, a, b);
    var variance := Variance(v);
    assert variance >= 0.0 by { VarianceNonNegative(v); }
    assert Variance(w) == a * a * variance by { VarianceAffine(v, a, b); }
    var s := Sqrt(T, variance);
    assert s >= 0.0 && s * s == variance;
    ScaledRoot(T, a, s, variance);
  }

  lemma ScaledRoot(T: Transcendentals, a: real, s: real, x: real)
    requires SqrtLawful(T) && a > 0.0 && s >= 0.0 && s * s == x
    ensures Sqrt(T, a * a * x) == a * s
  {
    assert a * s >= 0.0 by { if s > 0.0 { MulLeft(a, 0.0, s); } }
    assert (a * s) * (a * s) == a * a * x;
    SqrtUnique(T, a * a * x, a * s);
  }

  lemma VarianceNonNegative(v: seq<real>)
    requires |v| > 0
    ensures Variance(v) >= 0.0
  {
    SquaredDeviationsNonNegative(v, Mean(v));
    SignOfQuotient(SquaredDeviations(v, Mean(v)), |v| as real);
  }

  lemma VarianceAffine(v: seq<real>, a: real, b: real)
    requires |v| > 0
    ensures Variance(Affine(v, a, b)) == a * a * Variance(v)
  {
    var w, mv, n := Affine(v, a, b), Mean(v), |v| as real;
    MeanAffine(v, a, b);
    var c, q, qw := a * a, SquaredDeviations(v, mv), SquaredDeviations(w, a * mv + b);
    assert qw == c * q by { SquaredDeviationsAffine(v, a, b, mv); }
    ScaleQuotient(c, q, qw, n);
    VarianceOf(w, a * mv + b, n);
    VarianceOf(v, mv, n);
  }

  lemma VarianceOf(v: seq<real>, mean: real, n: real)
    requires |v| > 0 && Mean(v) == mean && |v| as real == n
    ensures Variance(v) == SquaredDeviations(v, mean) / n
  {
  }

  /** Scaling the dividend scales the quotient. */
  lemma ScaleQuotient(c: real, q: real, cq: real, n: real)
    requires n != 0.0 && cq == c * q
    ensures cq / n == c * (q / n)
  {
    DivUnique(c * q, n, c * (q / n)) by {
      assert (q / n) * n == q;
    }
  }

  lemma {:induction false} SquaredDeviationsNonNegative(v: seq<real>, mean: real)
    ensures SquaredDeviations(v, mean) >= 0.0
  {
    if v != [] {
      SquaredDeviationsNonNegative(v[..|v| - 1], mean);
      var d := v[|v| - 1] - mean;
      assert Square(d) >= 0.0 by {
        if d < 0.0 { MulLeftNegative(d, d, 0.0); } else if d > 0.0 { MulLeft(d, 0.0, d); }
      }
    }
  }

  /** The classifier only sees the scores up to a shift and a positive
      scale: adding a constant to every score or multiplying every score by
      a positive factor leaves the peak unchanged. */
  lemma PeakAffine(T: Transcendentals, v: seq<real>, a: real, b: real)
    requires SqrtLawful(T) && |v| > 0 && a > 0.0
    ensures Peak(T, Affine(v, a, b)) == Peak(T, v)
  {
    var w := Affine(v, a, b);
    MeanAffine(v, a, b);
    StandardDeviationAffine(T, v, a, b);
    var sd := StandardDeviation(T, v);
    assert sd >= 0.0 by { VarianceNonNegative(v); }
    assert StandardDeviation(T, w) == 0.0 <==> sd == 0.0 by {
      if sd > 0.0 { MulLeft(a, 0.0, sd); }
    }
    if sd != 0.0 {
      var z, zw := ZScores(T, v).value, ZScores(T, w).value;
      forall i | 0 <= i < |v|
        ensures zw[i] == z[i]
      {
        var d := v[i] - Mean(v);
        assert w[i] - Mean(w) == a * d;
        DivUnique(a * d, a * sd, z[i]) by {
          assert z[i] * sd == d;
          assert z[i] * (a * sd) == a * (z[i] * sd);
        }
      }
      assert zw == z;
    }
  }

  lemma {:induction false} SumConstant(v: seq<real>, c: real)
    requires forall i :: 0 <= i < |v| ==> v[i] == c
    ensures Sum(v) == c * |v| as real
  {
    if v != [] {
      SumConstant(v[..|v| - 1], c);
      assert c * (|v| - 1) as real + c == c * |v| as real;
    }
  }

  lemma {:induction false} SquaredDeviationsConstant(v: seq<real>, c: real)
    requires forall i :: 0 <= i < |v| ==> v[i] == c
    ensures SquaredDeviations(v, c) == 0.0
  {
    if v != [] {
      SquaredDeviationsConstant(v[..|v| - 1], c);
    }
  }

  /** Equal scores have deviation 0, every z-score is not a number, and the
      profile is all-round. */
  lemma PeakOfEqualScores(T: Transcendentals, v: seq<real>)
    requires SqrtLawful(T) && |v| > 0
    requires forall i :: 0 <= i < |v| ==> v[i] == v[0]
    ensures StandardDeviation(T, v) == 0.0
    ensures Peak(T, v) == None
  {
    var n := |v| as real;
    SumConstant(v, v[0]);
    assert Mean(v) == v[0] by {
      DivUnique(v[0] * n, n, v[0]);
    }
    SquaredDeviationsConstant(v, v[0]);
    SqrtZeroIff(T, 0.0);
  }

  /** With a non-zero deviation the z-scores order the values: the peak is
      the first of the highest values. */
  lemma PeakIsTopValue(T: Transcendentals, v: seq<real>)
    requires SqrtLawful(T) && |v| > 0 && Peak(T, v).Some?
    ensures var p := Peak(T, v).value;
      && (forall j :: 0 <= j < |v| ==> v[j] <= v[p])
      && (forall j :: 0 <= j < p ==> v[j] < v[p])
  {
    PeakSpec(T, v);
    var p := Peak(T, v).value;
    var z := ZScores(T, v).value;
    var mean, sd := Mean(v), StandardDeviation(T, v);
    assert sd > 0.0 by { VarianceNonNegative(v); }
    forall j | 0 <= j < |v|
      ensures z[j] <= z[p] ==> v[j] <= v[p]
      ensures z[j] < z[p] ==> v[j] < v[p]
    {
      ZOrder(v[j], v[p], mean, sd);
    }
  }

  /** For a positive deviation, z-scores are ordered as the values are. */
  lemma ZOrder(x: real, y: real, mean: real, sd: real)
    requires sd > 0.0
    ensures (x - mean) / sd <= (y - mean) / sd ==> x <= y
    ensures (x - mean) / sd < (y - mean) / sd ==> x < y
  {
    var zx, zy := (x - mean) / sd, (y - mean) / sd;
    assert zx * sd == x - mean && zy * sd == y - mean;
    if zx < zy { MulLeft(sd, zx, zy); }
  }
}
