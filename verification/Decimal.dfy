/** Non-negative decimals with 28 significant digits and half-up rounding, as
    decimal.js is configured (src/domain/value-objects/money.ts:1-3), and the
    decimal texts they are written as. */
module Decimal {
  import opened Runs

  /** The number coef / 10^scale. */
  datatype Dec = Dec(coef: nat, scale: nat)

  const PRECISION := 28
  const TEN_TO_28 := 10000000000000000000000000000

  function Pow10(n: nat): (p: nat)
    ensures p >= 1
  {
    if n == 0 then 1 else 10 * Pow10(n - 1)
  }

  function Digits(n: nat): (d: nat)
    ensures d >= 1
  {
    if n < 10 then 1 else 1 + Digits(n / 10)
  }

  /** n / unit to the nearest integer, halves up. */
  function HalfUp(n: nat, unit: nat): nat
    requires unit > 0
  {
    (2 * n + unit) / (2 * unit)
  }

  /** Round to 28 significant digits. */
  function RoundSig(d: Dec): Dec {
    if Digits(d.coef) <= PRECISION then d
    else
      var unit := Pow10(Digits(d.coef) - PRECISION);
      Dec(HalfUp(d.coef, unit) * unit, d.scale)
  }

  function Plus(a: Dec, b: Dec): Dec {
    var scale := if a.scale < b.scale then b.scale else a.scale;
    RoundSig(Dec(a.coef * Pow10(scale - a.scale) + b.coef * Pow10(scale - b.scale), scale))
  }

  function Times(a: Dec, b: Dec): Dec {
    RoundSig(Dec(a.coef * b.coef, a.scale + b.scale))
  }

  /** `toFixed(places)`, as a number of units of 10^-places. */
  function ToFixed(d: Dec, places: nat): nat {
    if d.scale <= places then d.coef * Pow10(places - d.scale)
    else HalfUp(d.coef, Pow10(d.scale - places))
  }

  lemma {:induction false} PowAdd(m: nat, n: nat)
    ensures Pow10(m + n) == Pow10(m) * Pow10(n)
  {
    if m > 0 {
      PowAdd(m - 1, n);
      assert Pow10(m + n) == 10 * Pow10(m - 1 + n);
    }
  }

  lemma TenTo28()
    ensures Pow10(28) == TEN_TO_28
  {
    assert Pow10(1) == 10;
    PowAdd(1, 1);
    assert Pow10(2) == 100;
    PowAdd(2, 1);
    PowAdd(3, 4) by { PowAdd(2, 2); }
    PowAdd(2, 2);
    assert Pow10(7) == 10000000;
    PowAdd(7, 7);
    PowAdd(14, 14);
  }

  /** A number has more than k digits exactly when it is at least 10^k. */
  lemma {:induction false} DigitsExceed(n: nat, k: nat)
    requires k >= 1
    ensures Digits(n) > k <==> n >= Pow10(k)
  {
    if k == 1 {
      assert Pow10(1) == 10 * Pow10(0);
    } else if n >= 10 {
      DigitsExceed(n / 10, k - 1);
    }
  }

  lemma NearestIsClose(n: nat, unit: nat)
    requires unit > 0
    ensures 2 * n - unit < 2 * (HalfUp(n, unit) * unit) <= 2 * n + unit
  {
    var q := HalfUp(n, unit);
    assert (2 * n + unit) == q * (2 * unit) + (2 * n + unit) % (2 * unit);
    assert q * (2 * unit) == 2 * (q * unit);
  }

  /** The rounding changes nothing exactly when the number has at most 28 digits,
      or what it would cut off is zero. */
  lemma RoundSigExactIff(d: Dec)
    ensures Digits(d.coef) <= PRECISION <==> d.coef < TEN_TO_28
    ensures RoundSig(d) == d <==>
      (Digits(d.coef) > PRECISION ==> d.coef % Pow10(Digits(d.coef) - PRECISION) == 0)
  {
    TenTo28();
    DigitsExceed(d.coef, PRECISION);
    if Digits(d.coef) > PRECISION {
      HalfUpExact(d.coef, Pow10(Digits(d.coef) - PRECISION));
    }
  }

  lemma HalfUpExact(n: nat, unit: nat)
    requires unit > 0
    ensures HalfUp(n, unit) * unit == n <==> n % unit == 0
  {
    if HalfUp(n, unit) * unit == n {
      MultipleHasNoRest(HalfUp(n, unit), unit);
    } else if n % unit == 0 {
      NearestIsClose(n, unit);
      assert n == n / unit * unit;
      ClosestMultiple(n / unit, HalfUp(n, unit), unit);
    }
  }

  lemma MulKeepsOrder(a: int, b: int, unit: nat)
    requires a <= b
    ensures a * unit <= b * unit
  {
  }

  lemma MultipleHasNoRest(q: nat, unit: nat)
    requires unit > 0
    ensures (q * unit) % unit == 0
  {
    var k := (q * unit) / unit;
    assert q * unit == k * unit + (q * unit) % unit;
    if q <= k { MulKeepsOrder(q, k, unit); } else { MulKeepsOrder(k + 1, q, unit); }
  }

  lemma ClosestMultiple(k: nat, q: nat, unit: nat)
    requires unit > 0 && 2 * (k * unit) - unit < 2 * (q * unit) <= 2 * (k * unit) + unit
    ensures q == k
  {
    if q < k {
      MulKeepsOrder(q + 1, k, unit);
    } else if q > k {
      MulKeepsOrder(k + 1, q, unit);
    }
  }

  // ------------------------------------------------------------------ texts

  predicate IsDigit(c: char) { '0' <= c <= '9' }

  predicate AllDigits(s: string) {
    forall i :: 0 <= i < |s| ==> IsDigit(s[i])
  }

  function DigitChar(d: nat): char
    requires d < 10
  {
    '0' + d as char
  }

  function DigitsText(n: nat): string {
    if n < 10 then [DigitChar(n)] else DigitsText(n / 10) + [DigitChar(n % 10)]
  }

  function DigitsValue(s: string): nat
    requires AllDigits(s)
  {
    if s == [] then 0
    else 10 * DigitsValue(s[..|s| - 1]) + (s[|s| - 1] - '0') as nat
  }

  lemma {:induction false} DigitsRoundTrip(n: nat)
    ensures AllDigits(DigitsText(n)) && DigitsText(n) != [] && DigitsValue(DigitsText(n)) == n
  {
    if n >= 10 {
      DigitsRoundTrip(n / 10);
      assert DigitsText(n)[..|DigitsText(n)| - 1] == DigitsText(n / 10);
    }
  }

  /** A number of hundredths with two decimal places. */
  function FixedText(hundredths: nat): string {
    DigitsText(hundredths / 100) + ['.', DigitChar(hundredths / 10 % 10), DigitChar(hundredths % 10)]
  }

  datatype Parsed = NotANumber | Number(negative: bool, magnitude: Dec)

  function PointAt(s: string): (i: nat)
    ensures i <= |s| && (i < |s| ==> s[i] == '.')
    ensures forall j :: 0 <= j < i ==> s[j] != '.'
  {
    if s == [] || s[0] == '.' then 0 else 1 + PointAt(s[1..])
  }

  /** Plain decimal notation: digits, with at most one point. */
  function ParseMagnitude(s: string): Option<Dec> {
    var i := PointAt(s);
    var whole, fraction := s[..i], if i < |s| then s[i + 1..] else [];
    if AllDigits(whole) && AllDigits(fraction) && whole + fraction != []
    then Some(Dec(DigitsValue(whole + fraction), |fraction|)) else None
  }

  function Parse(s: string): Parsed {
    var signed := s != [] && s[0] == '-';
    var d := ParseMagnitude(if signed then s[1..] else s);
    if d.None? then NotANumber else Number(signed, d.value)
  }

  lemma {:induction false} PointAfterDigits(s: string, rest: string)
    requires AllDigits(s) && rest != [] && rest[0] == '.'
    ensures PointAt(s + rest) == |s|
  {
    if s == [] {
      assert s + rest == rest;
    } else {
      assert (s + rest)[1..] == s[1..] + rest;
      PointAfterDigits(s[1..], rest);
    }
  }

  lemma OneMoreDigit(s: string, d: nat)
    requires AllDigits(s) && d < 10
    ensures AllDigits(s + [DigitChar(d)])
    ensures DigitsValue(s + [DigitChar(d)]) == 10 * DigitsValue(s) + d
  {
    assert (s + [DigitChar(d)])[..|s|] == s;
  }

  /** What toFixed(2) wrote is read back as the same number of hundredths. */
  lemma FixedRoundTrip(c: nat)
    ensures Parse(FixedText(c)) == Number(false, Dec(c, 2))
  {
    var whole, fraction := DigitsText(c / 100), [DigitChar(c / 10 % 10), DigitChar(c % 10)];
    DigitsRoundTrip(c / 100);
    OneMoreDigit(whole, c / 10 % 10);
    OneMoreDigit(whole + [DigitChar(c / 10 % 10)], c % 10);
    assert whole + fraction == whole + [DigitChar(c / 10 % 10)] + [DigitChar(c % 10)];
    ReadBack(whole, fraction);
    assert FixedText(c) == whole + (['.'] + fraction);
    assert IsDigit(FixedText(c)[0]);
  }

  lemma ReadBack(whole: string, fraction: string)
    requires whole != [] && AllDigits(whole) && AllDigits(fraction) && AllDigits(whole + fraction)
    ensures ParseMagnitude(whole + (['.'] + fraction)) == Some(Dec(DigitsValue(whole + fraction), |fraction|))
  {
    var s := whole + (['.'] + fraction);
    PointAfterDigits(whole, ['.'] + fraction);
    assert s[..|whole|] == whole && s[|whole| + 1..] == fraction;
  }
}
