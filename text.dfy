/** The string operations of JavaScript that the engine's formatters and
    validators rely on: `String(n)` for integers, `padStart(2, '0')`,
    `Number.prototype.toFixed`, `String.prototype.trim`, and the `\s` class of
    regular expressions. Each printer has a reader beside it, and the lemmas
    show that reading what was printed gives back the printed value. */
module Text {
  import opened Wrappers
  import opened RealMath

  /** The characters JavaScript treats as white space: `\s` in a regular
      expression and what `trim` removes (WhiteSpace and LineTerminator). */
  predicate IsWhitespace(c: char) {
    || c == ' ' || c == '\t' || c == '\n' || c == '\r' || c == '\U{000B}' || c == '\U{000C}'
    || c == '\U{00A0}' || c == '\U{1680}' || ('\U{2000}' <= c <= '\U{200A}')
    || c == '\U{2028}' || c == '\U{2029}' || c == '\U{202F}' || c == '\U{205F}'
    || c == '\U{3000}' || c == '\U{FEFF}'
  }

  predicate IsDigit(c: char) {
    '0' <= c <= '9'
  }

  predicate IsHexDigit(c: char) {
    IsDigit(c) || 'a' <= c <= 'f' || 'A' <= c <= 'F'
  }

  /** `[a-zA-Z0-9]`. */
  predicate IsAlphanumeric(c: char) {
    IsDigit(c) || 'a' <= c <= 'z' || 'A' <= c <= 'Z'
  }

  /** Index of the first character that is not white space (|s| if none). */
  function LeadingSpace(s: string): (i: nat)
    ensures i <= |s|
    ensures forall k :: 0 <= k < i ==> IsWhitespace(s[k])
    ensures i < |s| ==> !IsWhitespace(s[i])
  {
    if s == [] || !IsWhitespace(s[0]) then 0 else 1 + LeadingSpace(s[1..])
  }

  /** Index just past the last character that is not white space (0 if none). */
  function TrailingEnd(s: string): (j: nat)
    ensures j <= |s|
    ensures forall k :: j <= k < |s| ==> IsWhitespace(s[k])
    ensures j > 0 ==> !IsWhitespace(s[j - 1])
  {
    if s == [] || !IsWhitespace(s[|s| - 1]) then |s| else TrailingEnd(s[..|s| - 1])
  }

  /** `String.prototype.trim`: the part of `s` between its leading and trailing
      white space. */
  function Trim(s: string): (r: string)
    ensures r == [] || (!IsWhitespace(r[0]) && !IsWhitespace(r[|r| - 1]))
    ensures exists i, j ::
      && 0 <= i <= j <= |s| && r == s[i..j]
      && (forall k :: 0 <= k < i ==> IsWhitespace(s[k]))
      && (forall k :: j <= k < |s| ==> IsWhitespace(s[k]))
  {
    var i := LeadingSpace(s);
    var j := TrailingEnd(s);
    if i < j then
      assert (forall k :: 0 <= k < i ==> IsWhitespace(s[k])) && (forall k :: j <= k < |s| ==> IsWhitespace(s[k]));
      s[i..j]
    else
      assert forall k :: 0 <= k < |s| ==> IsWhitespace(s[k]);
      assert s[0..0] == [];
      []
  }

  /** A string that neither starts nor ends with white space is its own trim. */
  lemma TrimOfTrimmed(s: string)
    requires s == [] || (!IsWhitespace(s[0]) && !IsWhitespace(s[|s| - 1]))
    ensures Trim(s) == s
  {
  }

  /** Trimming twice is trimming once. */
  lemma TrimIdempotent(s: string)
    ensures Trim(Trim(s)) == Trim(s)
  {
    TrimOfTrimmed(Trim(s));
  }

  /** A string made only of white space trims to the empty string, and only such a string does. */
  lemma TrimEmptyIff(s: string)
    ensures Trim(s) == [] <==> forall k :: 0 <= k < |s| ==> IsWhitespace(s[k])
  {
    var i := LeadingSpace(s);
    if i < |s| {
      assert !IsWhitespace(s[i]);
      assert TrailingEnd(s) > i;
    }
  }

  function DigitChar(d: nat): (c: char)
    requires d < 10
    ensures IsDigit(c)
  {
    ('0' as int + d) as char
  }

  function DigitValue(c: char): (d: nat)
    requires IsDigit(c)
    ensures d < 10 && DigitChar(d) == c
  {
    (c as int - '0' as int) as nat
  }

  predicate AllDigits(s: string) {
    forall k :: 0 <= k < |s| ==> IsDigit(s[k])
  }

  /** `String(n)` for a natural number: its decimal digits, with no leading zero. */
  function NatToString(n: nat): (r: string)
    ensures |r| >= 1 && AllDigits(r)
    ensures |r| == 1 || r[0] != '0'
  {
    if n < 10 then [DigitChar(n)] else NatToString(n / 10) + [DigitChar(n % 10)]
  }

  /** `String(i)` for an integer. */
  function IntToString(i: int): (r: string)
    ensures |r| >= 1
    ensures i >= 0 ==> AllDigits(r)
    ensures i < 0 ==> r[0] == '-' && AllDigits(r[1..])
  {
    if i < 0 then "-" + NatToString(-i) else NatToString(i)
  }

  /** The number a string of decimal digits spells (leading zeros allowed). */
  function DigitsValue(s: string): nat
    requires AllDigits(s)
  {
    if s == [] then 0 else 10 * DigitsValue(s[..|s| - 1]) + DigitValue(s[|s| - 1])
  }

  /** Reading back what `NatToString` printed gives the number. */
  lemma {:induction false} DigitsValueOfNatToString(n: nat)
    ensures DigitsValue(NatToString(n)) == n
  {
    if n >= 10 {
      var r := NatToString(n);
      assert r[..|r| - 1] == NatToString(n / 10);
      DigitsValueOfNatToString(n / 10);
    }
  }

  /** Leading zeros do not change the number spelled. */
  lemma {:induction false} DigitsValueLeadingZero(s: string)
    requires AllDigits(s)
    ensures DigitsValue("0" + s) == DigitsValue(s)
  {
    if s != [] {
      assert ("0" + s)[..|s|] == "0" + s[..|s| - 1];
      DigitsValueLeadingZero(s[..|s| - 1]);
    }
  }

  /** `padStart(2, '0')`. */
  function PadTwo(s: string): (r: string)
    ensures |r| == if |s| >= 2 then |s| else 2
    ensures r[|r| - |s|..] == s
    ensures forall k :: 0 <= k < |r| - |s| ==> r[k] == '0'
  {
    if |s| >= 2 then s else seq(2 - |s|, _ => '0') + s
  }

  /** `String(n).padStart(2, '0')` still spells `n`. */
  lemma PadTwoValue(n: nat)
    ensures AllDigits(PadTwo(NatToString(n)))
    ensures DigitsValue(PadTwo(NatToString(n))) == n
  {
    var s := NatToString(n);
    DigitsValueOfNatToString(n);
    if |s| < 2 {
      assert PadTwo(s) == "0" + s;
      DigitsValueLeadingZero(s);
    }
  }

  /** The number of leading decimal digits of `s`. */
  function DigitRun(s: string): (i: nat)
    ensures i <= |s| && AllDigits(s[..i])
    ensures i < |s| ==> !IsDigit(s[i])
  {
    if s == [] || !IsDigit(s[0]) then 0
    else
      var i := 1 + DigitRun(s[1..]);
      assert s[..i] == [s[0]] + s[1..][..i - 1];
      i
  }

  /** Reads the longest run of decimal digits at the start of `s`: the number
      it spells and what follows it, or None when `s` does not start with a digit. */
  function ReadNat(s: string): (r: Option<(nat, string)>)
    ensures r.Some? <==> s != [] && IsDigit(s[0])
    ensures r.Some? ==> |r.value.1| < |s| && r.value.1 == s[|s| - |r.value.1|..]
  {
    var i := DigitRun(s);
    if i == 0 then None else Some((DigitsValue(s[..i]), s[i..]))
  }

  /** A digit string followed by text that does not start with a digit is read back exactly. */
  lemma {:induction false} ReadDigitsThen(d: string, rest: string)
    requires d != [] && AllDigits(d)
    requires rest == [] || !IsDigit(rest[0])
    ensures ReadNat(d + rest) == Some((DigitsValue(d), rest))
  {
    DigitRunOfDigits(d, rest);
    assert (d + rest)[..|d|] == d && (d + rest)[|d|..] == rest;
  }

  lemma {:induction false} DigitRunOfDigits(d: string, rest: string)
    requires AllDigits(d)
    requires rest == [] || !IsDigit(rest[0])
    ensures DigitRun(d + rest) == |d|
  {
    if d != [] {
      assert (d + rest)[1..] == d[1..] + rest;
      DigitRunOfDigits(d[1..], rest);
    }
  }

  /** `ReadNat` reads back `String(n)`. */
  lemma ReadNatToString(n: nat, rest: string)
    requires rest == [] || !IsDigit(rest[0])
    ensures ReadNat(NatToString(n) + rest) == Some((n, rest))
  {
    ReadDigitsThen(NatToString(n), rest);
    DigitsValueOfNatToString(n);
  }

  /** `ReadNat` reads back `String(n).padStart(2, '0')`. */
  lemma ReadPadTwo(n: nat, rest: string)
    requires rest == [] || !IsDigit(rest[0])
    ensures ReadNat(PadTwo(NatToString(n)) + rest) == Some((n, rest))
  {
    PadTwoValue(n);
    ReadDigitsThen(PadTwo(NatToString(n)), rest);
  }

  function Pow10(f: nat): (p: nat)
    ensures p >= 1
  {
    if f == 0 then 1 else 10 * Pow10(f - 1)
  }

  function Zeros(z: nat): (r: string)
    ensures |r| == z && AllDigits(r)
  {
    if z == 0 then [] else "0" + Zeros(z - 1)
  }

  /** The decimal places `toFixed` is called with in the engine. */
  predicate Places(f: nat) {
    f == 1 || f == 2
  }

  /** 10^f for the places in use. */
  function Scale(f: nat): (p: nat)
    requires Places(f)
    ensures p == Pow10(f)
  {
    if f == 1 then 10 else 100
  }

  /** `n` divided by 10^f, printed with exactly `f` decimals. */
  function FixedDigits(n: nat, f: nat): (r: string)
    requires Places(f)
    ensures |r| >= 1 && IsDigit(r[0])
  {
    NatToString(n / Scale(f)) + ("." + FractionDigits(n % Scale(f), f))
  }

  /** `x` in units of the last of `f` places. */
  function Scaled(x: real, f: nat): real
    requires Places(f)
  {
    x * Scale(f) as real
  }

  /** `x.toFixed(f)`: the magnitude rounded to the nearest multiple of 10^-f
      (ties to the larger), printed with exactly `f` decimals, after a minus sign
      when `x` is negative. */
  function ToFixed(x: real, f: nat): (r: string)
    requires Places(f)
    ensures |r| >= 1
    ensures x < 0.0 <==> r[0] == '-'
  {
    var digits := FixedDigits(Round(Scaled(Abs(x), f)), f);
    if x < 0.0 then "-" + digits else digits
  }

  /** Reads "." followed by exactly `f` digits, or None. */
  function ReadFraction(rest: string, f: nat): (r: Option<nat>)
  {
    if |rest| == f + 1 && rest[0] == '.' && AllDigits(rest[1..]) then Some(DigitsValue(rest[1..])) else None
  }

  /** Reads "<digits>.<f digits>" back to the scaled integer, or None. */
  function ReadFixed(s: string, f: nat): (r: Option<nat>)
    requires Places(f)
  {
    match ReadNat(s)
    case None => None
    case Some((whole, rest)) =>
      match ReadFraction(rest, f)
      case None => None
      case Some(frac) => Some(whole * Scale(f) + frac)
  }

  lemma {:induction false} NatToStringLength(n: nat, f: nat)
    requires n < Pow10(f)
    ensures |NatToString(n)| <= f || (n == 0 && f == 0)
  {
    if f == 0 {
    } else if n >= 10 {
      NatToStringLength(n / 10, f - 1);
    }
  }

  lemma {:induction false} DigitsValueZeros(z: nat, s: string)
    requires AllDigits(s)
    ensures AllDigits(Zeros(z) + s)
    ensures DigitsValue(Zeros(z) + s) == DigitsValue(s)
  {
    if z == 0 {
      assert Zeros(z) + s == s;
    } else {
      var t := Zeros(z - 1) + s;
      DigitsValueZeros(z - 1, s);
      assert Zeros(z) == "0" + Zeros(z - 1);
      assert Zeros(z) + s == "0" + t;
      DigitsValueLeadingZero(t);
    }
  }

  /** The fractional digits of `FixedDigits`: `m` printed and left-padded with zeros to `f` places. */
  function FractionDigits(m: nat, f: nat): string {
    var frac := NatToString(m);
    if |frac| < f then Zeros(f - |frac|) + frac else frac
  }

  lemma FractionDigitsValue(m: nat, f: nat)
    requires 1 <= f && m < Pow10(f)
    ensures var d := FractionDigits(m, f); |d| == f && AllDigits(d) && DigitsValue(d) == m
  {
    var frac := NatToString(m);
    NatToStringLength(m, f);
    DigitsValueOfNatToString(m);
    DigitsValueZeros(f - |frac|, frac);
  }

  lemma ReadFractionDigits(m: nat, f: nat)
    requires f >= 1 && m < Pow10(f)
    ensures ReadFraction("." + FractionDigits(m, f), f) == Some(m)
  {
    var padded := FractionDigits(m, f);
    FractionDigitsValue(m, f);
    assert ("." + padded)[1..] == padded;
  }

  /** Reading a fixed-point text gives back the scaled integer it was printed from. */
  lemma ReadFixedDigits(n: nat, f: nat)
    requires Places(f)
    ensures ReadFixed(FixedDigits(n, f), f) == Some(n)
  {
    var p := Scale(f);
    var q, m := n / p, n % p;
    var tail := "." + FractionDigits(m, f);
    ReadNatToString(q, tail);
    ReadFractionDigits(m, f);
    var v := q * p + m;
    assert v == n;
    assert FixedDigits(n, f) == NatToString(q) + tail;
  }

  /** The scaled integer behind `toFixed` is within half a unit of the last place of `x`. */
  lemma ToFixedNearest(x: real, f: nat)
    requires Places(f) && x >= 0.0
    ensures ReadFixed(ToFixed(x, f), f).Some?
    ensures var n := ReadFixed(ToFixed(x, f), f).value;
      x * Scale(f) as real - 0.5 < n as real <= x * Scale(f) as real + 0.5
  {
    ReadToFixed(x, f);
    RoundBounds(Scaled(x, f));
  }

  /** A non-negative `toFixed` display reads back as its scaled, rounded value. */
  lemma ReadToFixed(x: real, f: nat)
    requires Places(f) && x >= 0.0
    ensures ReadFixed(ToFixed(x, f), f) == Some(Round(Scaled(x, f)))
  {
    assert Abs(x) == x;
    ReadFixedDigits(Round(Scaled(x, f)), f);
  }
}
