/** Real arithmetic shared by the whole model: the transcendental functions the
    original code takes from `Math` (as values constrained by their laws),
    `Math.round`, `Math.ceil`, `Math.min`, `Math.max` and the clamp idiom. */
module RealMath {

  /** `Math.exp`, `Math.log` and `Math.sqrt`. They are passed around as values and
      everything that depends on what they compute requires `Lawful`. */
  datatype Transcendentals = Transcendentals(exp: real -> real, ln: real -> real, sqrt: real -> real)

  /** `Math.exp`, `Math.log` and `Math.sqrt` applied. Every statement about
      them goes through these, so that a function body and a lemma speak of the
      same terms. */
  function Exp(T: Transcendentals, x: real): real {
    T.exp(x)
  }

  function Ln(T: Transcendentals, x: real): real {
    T.ln(x)
  }

  function Sqrt(T: Transcendentals, x: real): real {
    T.sqrt(x)
  }

  /** `exp` at a sum; it names the term on which the addition law is triggered. */
  function ExpOfSum(T: Transcendentals, x: real, y: real): real {
    Exp(T, x + y)
  }

  /** The laws of the real exponential, logarithm and square root that the model relies on. */
  ghost predicate Lawful(T: Transcendentals) {
    && (forall x :: Exp(T, x) > 0.0)
    && (forall x, y :: x < y ==> Exp(T, x) < Exp(T, y))
    && (forall x :: x > 0.0 ==> Exp(T, Ln(T, x)) == x)
    && (forall x, y {:trigger ExpOfSum(T, x, y)} :: ExpOfSum(T, x, y) == Exp(T, x) * Exp(T, y))
  }

  /** The law of the square root, kept apart from `Lawful` because its product
      term is only needed where `Math.sqrt` is called. */
  ghost predicate SqrtLawful(T: Transcendentals) {
    forall x :: x >= 0.0 ==> Sqrt(T, x) >= 0.0 && Sqrt(T, x) * Sqrt(T, x) == x
  }

  /** `Math.pow(x, y)` for a positive base, as exp(y * ln x). */
  function Pow(T: Transcendentals, x: real, y: real): real {
    Exp(T, y * Ln(T, x))
  }

  /** `Math.round`: the nearest integer, halves rounded up. */
  function Round(x: real): int {
    (x + 0.5).Floor
  }

  /** `Math.ceil`. */
  function Ceil(x: real): int {
    -((-x).Floor)
  }

  function Max(a: real, b: real): real {
    if a >= b then a else b
  }

  function Min(a: real, b: real): real {
    if a <= b then a else b
  }

  function Abs(x: real): real {
    if x < 0.0 then -x else x
  }

  /** `Math.max(lo, Math.min(x, hi))`. */
  function Clamp(x: real, lo: real, hi: real): (r: real)
    requires lo <= hi
    ensures lo <= r <= hi
    ensures lo <= x <= hi ==> r == x
  {
    Max(lo, Min(x, hi))
  }

  lemma RoundBounds(x: real)
    ensures x - 0.5 < Round(x) as real <= x + 0.5
  {
  }

  /** Rounding never reverses an order. */
  lemma RoundMonotone(x: real, y: real)
    requires x <= y
    ensures Round(x) <= Round(y)
  {
    var a, b := x + 0.5, y + 0.5;
    assert a.Floor as real <= a <= b < (b.Floor + 1) as real;
  }

  lemma RoundOfInteger(n: int)
    ensures Round(n as real) == n
  {
  }

  lemma CeilBounds(x: real)
    ensures x <= Ceil(x) as real < x + 1.0
  {
  }

  /** Multiplying by a positive factor keeps a strict order. */
  lemma MulLeft(c: real, p: real, q: real)
    requires c > 0.0 && p < q
    ensures c * p < c * q
  {
    assert c * q - c * p == c * (q - p);
  }

  /** Equal factors give equal products. */
  lemma ProductOfEquals(x: real, y: real, u: real, v: real)
    requires x == u && y == v
    ensures x * y == u * v
  {
  }

  /** Multiplying by a negative factor reverses a strict order. */
  lemma MulLeftNegative(c: real, p: real, q: real)
    requires c < 0.0 && p < q
    ensures c * q < c * p
  {
    MulLeft(-c, p, q);
    assert (-c) * p == -(c * p) && (-c) * q == -(c * q);
  }

  /** Dividing a product by one of its factors gives the other back. */
  lemma MulDivCancel(a: real, b: real)
    requires b != 0.0
    ensures (a * b) / b == a
  {
  }

  /** Dividing and then multiplying by the same non-zero number gives back the number. */
  lemma DivTimes(a: real, d: real)
    requires d != 0.0
    ensures (a / d) * d == a
  {
  }

  /** Dividing a product by a third number divides its first factor. */
  lemma DivMul(a: real, k: real, d: real)
    requires d != 0.0
    ensures a * k / d == (a / d) * k
  {
    var q := a / d;
    assert a == q * d;
    assert a * k == (q * k) * d;
    MulDivCancel(q * k, d);
  }

  /** A quotient by a positive number has the sign of its dividend. */
  lemma SignOfQuotient(a: real, b: real)
    requires b > 0.0
    ensures a / b > 0.0 <==> a > 0.0
    ensures a / b < 0.0 <==> a < 0.0
  {
    var q := a / b;
    assert b * q == a;
    assert q > 0.0 ==> b * q > 0.0 by {
      if q > 0.0 { MulLeft(b, 0.0, q); }
    }
    assert q < 0.0 ==> b * q < 0.0 by {
      if q < 0.0 { MulLeft(b, q, 0.0); }
    }
  }

  /** A non-zero factor of a zero product forces the other to zero. */
  lemma ZeroProduct(a: real, b: real)
    requires a != 0.0 && a * b == 0.0
    ensures b == 0.0
  {
    assert b == (a * b) / a;
  }

  /** The quotient is the one number whose product with the divisor is the dividend. */
  lemma DivUnique(a: real, b: real, q: real)
    requires b != 0.0 && q * b == a
    ensures a / b == q
  {
    var r := a / b;
    assert r * b == a;
    assert b * (r - q) == 0.0;
    ZeroProduct(b, r - q);
  }

  /** Subtracting the divisor from the dividend lowers the quotient by one. */
  lemma QuotientShift(a: real, b: real)
    requires b != 0.0
    ensures (a - b) / b == a / b - 1.0
  {
    var q := a / b;
    assert q * b == a;
    assert (q - 1.0) * b == a - b;
    DivUnique(a - b, b, q - 1.0);
  }

  /** Dividing a positive number by a larger positive divisor gives less. */
  lemma DivDecreasing(d: real, s: real, t: real)
    requires d > 0.0 && 0.0 < s < t
    ensures 0.0 < d / t < d / s
  {
    var a, b := d / s, d / t;
    SignOfQuotient(d, t);
    MulLeft(b, s, t);
    assert b * t == d && a * s == d;
    assert (a - b) * s > 0.0;
    MulDivCancel(a - b, s);
    SignOfQuotient((a - b) * s, s);
  }

  /** Squaring is strictly increasing on the non-negative reals. */
  lemma SquareLess(s: real, r: real)
    requires 0.0 <= s < r
    ensures s * s < r * r
  {
    assert r * r - s * s == (r - s) * (r + s);
    MulLeft(r - s, 0.0, r + s);
  }

  lemma ExpIncreasing(T: Transcendentals, x: real, y: real)
    requires Lawful(T)
    requires x < y
    ensures Exp(T, x) < Exp(T, y)
  {
  }

  /** `exp` is one-to-one. */
  lemma ExpInjective(T: Transcendentals, x: real, y: real)
    requires Lawful(T)
    requires Exp(T, x) == Exp(T, y)
    ensures x == y
  {
    assert x < y ==> Exp(T, x) < Exp(T, y);
    assert y < x ==> Exp(T, y) < Exp(T, x);
  }

  /** `ln` also inverts `exp` from the other side. */
  lemma LnOfExp(T: Transcendentals, x: real)
    requires Lawful(T)
    ensures Ln(T, Exp(T, x)) == x
  {
    var e := Exp(T, x);
    assert e > 0.0;
    assert Exp(T, Ln(T, e)) == e;
    ExpInjective(T, Ln(T, e), x);
  }

  /** The addition law, stated on `exp` directly. */
  lemma ExpAdd(T: Transcendentals, a: real, b: real)
    requires Lawful(T)
    ensures Exp(T, a + b) == Exp(T, a) * Exp(T, b)
  {
    assert ExpOfSum(T, a, b) == Exp(T, a) * Exp(T, b);
  }

  lemma ExpZero(T: Transcendentals)
    requires Lawful(T)
    ensures Exp(T, 0.0) == 1.0
  {
    var l := Ln(T, 1.0);
    assert Exp(T, l) == 1.0;
    ExpAdd(T, 0.0, l);
    assert 0.0 + l == l;
  }

  lemma LnOne(T: Transcendentals)
    requires Lawful(T)
    ensures Ln(T, 1.0) == 0.0
  {
    ExpZero(T);
    LnOfExp(T, 0.0);
  }

  /** `ln` is strictly increasing on the positive reals. */
  lemma LnIncreasing(T: Transcendentals, a: real, b: real)
    requires Lawful(T)
    requires 0.0 < a < b
    ensures Ln(T, a) < Ln(T, b)
  {
    assert Exp(T, Ln(T, a)) == a && Exp(T, Ln(T, b)) == b;
    assert Ln(T, b) < Ln(T, a) ==> Exp(T, Ln(T, b)) < Exp(T, Ln(T, a));
    assert Ln(T, b) == Ln(T, a) ==> Exp(T, Ln(T, b)) == Exp(T, Ln(T, a));
  }

  lemma LnPositive(T: Transcendentals, a: real)
    requires Lawful(T)
    requires a > 1.0
    ensures Ln(T, a) > 0.0
  {
    LnOne(T);
    LnIncreasing(T, 1.0, a);
  }

  lemma PowPositive(T: Transcendentals, x: real, y: real)
    requires Lawful(T)
    ensures Pow(T, x, y) > 0.0
  {
  }

  /** Any base raised to the exponent 0 is 1. */
  lemma PowZeroExponent(T: Transcendentals, x: real)
    requires Lawful(T)
    ensures Pow(T, x, 0.0) == 1.0
  {
    ExpZero(T);
  }

  /** For a positive exponent, a larger base gives a larger power. */
  lemma PowIncreasingInBase(T: Transcendentals, a: real, b: real, y: real)
    requires Lawful(T)
    requires 0.0 < a < b && y > 0.0
    ensures Pow(T, a, y) < Pow(T, b, y)
  {
    LnIncreasing(T, a, b);
    MulLeft(y, Ln(T, a), Ln(T, b));
    ExpIncreasing(T, y * Ln(T, a), y * Ln(T, b));
  }

  /** For a negative exponent, a larger base gives a smaller power. */
  lemma PowDecreasingInBase(T: Transcendentals, a: real, b: real, y: real)
    requires Lawful(T)
    requires 0.0 < a < b && y < 0.0
    ensures Pow(T, a, y) > Pow(T, b, y)
  {
    LnIncreasing(T, a, b);
    var la, lb := Ln(T, a), Ln(T, b);
    MulLeftNegative(y, la, lb);
    ExpIncreasing(T, y * lb, y * la);
  }

  /** For a base above 1, a larger exponent gives a larger power. */
  lemma PowIncreasingInExponent(T: Transcendentals, x: real, y: real, z: real)
    requires Lawful(T)
    requires x > 1.0 && y < z
    ensures Pow(T, x, y) < Pow(T, x, z)
  {
    LnPositive(T, x);
    MulLeft(Ln(T, x), y, z);
    assert y * Ln(T, x) < z * Ln(T, x);
    ExpIncreasing(T, y * Ln(T, x), z * Ln(T, x));
  }

  /** Raising to 1/e and then to e gives a positive base back. */
  lemma PowInverse(T: Transcendentals, x: real, e: real)
    requires Lawful(T)
    requires x > 0.0 && e != 0.0
    ensures Pow(T, Pow(T, x, 1.0 / e), e) == x
  {
    var l := Ln(T, x);
    var y := (1.0 / e) * l;
    LnOfExp(T, y);
    MulReciprocal(e, l);
    assert Pow(T, x, 1.0 / e) == Exp(T, y);
    assert Pow(T, Exp(T, y), e) == Exp(T, e * y);
  }

  lemma MulReciprocal(e: real, l: real)
    requires e != 0.0
    ensures e * ((1.0 / e) * l) == l
  {
    assert e * (1.0 / e) == 1.0;
  }

  /** Square roots of non-negative reals are unique: a non-negative number whose
      square is x is `sqrt(x)`. */
  lemma SqrtUnique(T: Transcendentals, x: real, r: real)
    requires SqrtLawful(T)
    requires x >= 0.0 && r >= 0.0 && r * r == x
    ensures Sqrt(T, x) == r
  {
    var s := Sqrt(T, x);
    assert s >= 0.0 && s * s == x;
    assert s < r ==> s * s < r * r by {
      if s < r { SquareLess(s, r); }
    }
    assert r < s ==> r * r < s * s by {
      if r < s { SquareLess(r, s); }
    }
  }

  lemma SqrtZeroIff(T: Transcendentals, x: real)
    requires SqrtLawful(T)
    requires x >= 0.0
    ensures Sqrt(T, x) == 0.0 <==> x == 0.0
  {
    if x == 0.0 {
      SqrtUnique(T, 0.0, 0.0);
    }
  }
}
