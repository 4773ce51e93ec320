/** Decimal text of numbers: the digit strings JavaScript produces when a
    number is concatenated to a string (`(ordinal + 1) + "th"`) and
    `Number.prototype.toFixed`, each with the parser that reads it back. */
module Decimal {

  import opened Optional

  function Pow10(k: nat): (r: nat)
    ensures r >= 1
  {
    if k == 0 then 1 else 10 * Pow10(k - 1)
  }

  predicate IsDigit(c: char) {
    '0' <= c <= '9'
  }

  predicate AllDigits(s: string) {
    forall i :: 0 <= i < |s| ==> IsDigit(s[i])
  }

  function DigitChar(d: nat): (c: char)
    requires d < 10
    ensures IsDigit(c) && c as int - '0' as int == d
  {
    ('0' as int + d) as char
  }

  function DigitValue(c: char): nat
    requires IsDigit(c)
  {
    c as int - '0' as int
  }

  /** `k` copies of the character `c`. */
  function Repeat(c: char, k: nat): (s: string)
    ensures |s| == k && forall i :: 0 <= i < k ==> s[i] == c
  {
    if k == 0 then [] else [c] + Repeat(c, k - 1)
  }

  /** The shortest decimal numeral of `n`, as `String(n)` gives it. */
  function NatToString(n: nat): (s: string)
    ensures 1 <= |s| && AllDigits(s)
    ensures 1 < |s| ==> s[0] != '0'
    decreases n
  {
    if n < 10 then [DigitChar(n)] else NatToString(n / 10) + [DigitChar(n % 10)]
  }

  /** The value of a string of decimal digits (leading zeros allowed). */
  function ParseDigits(s: string): nat
    requires AllDigits(s)
  {
    if s == [] then 0 else 10 * ParseDigits(s[..|s| - 1]) + DigitValue(s[|s| - 1])
  }

  lemma {:induction false} ParseNatToString(n: nat)
    ensures ParseDigits(NatToString(n)) == n
  {
    var s := NatToString(n);
    if n >= 10 {
      assert s[..|s| - 1] == NatToString(n / 10);
      ParseNatToString(n / 10);
    }
  }

  lemma NatToStringInjective(a: nat, b: nat)
    requires NatToString(a) == NatToString(b)
    ensures a == b
  {
    ParseNatToString(a);
    ParseNatToString(b);
  }

  /** A numeral has at most k digits exactly when the number is below 10^k. */
  lemma {:induction false} NatToStringLength(n: nat, k: nat)
    requires 1 <= k
    ensures |NatToString(n)| <= k <==> n < Pow10(k)
    decreases n
  {
    if n >= 10 {
      if k == 1 {
        assert Pow10(1) == 10;
      } else {
        NatToStringLength(n / 10, k - 1);
      }
    } else {
      PowAtLeastTen(k);
    }
  }

  lemma {:induction false} PowAtLeastTen(k: nat)
    requires 1 <= k
    ensures Pow10(k) >= 10
  {
    if k > 1 {
      PowAtLeastTen(k - 1);
    }
  }

  /** Parsing a concatenation: the left part is shifted by the right part's length. */
  lemma {:induction false} ParseDigitsAppend(a: string, b: string)
    requires AllDigits(a) && AllDigits(b)
    ensures AllDigits(a + b)
    ensures ParseDigits(a + b) == ParseDigits(a) * Pow10(|b|) + ParseDigits(b)
    decreases |b|
  {
    if b == [] {
      assert a + b == a;
    } else {
      var b' := b[..|b| - 1];
      assert (a + b)[..|a + b| - 1] == a + b';
      ParseDigitsAppend(a, b');
      var d := DigitValue(b[|b| - 1]);
      assert ParseDigits(a + b) == 10 * ParseDigits(a + b') + d;
      assert ParseDigits(b) == 10 * ParseDigits(b') + d;
      assert Pow10(|b|) == 10 * Pow10(|b'|);
      ShiftDigit(ParseDigits(a), Pow10(|b'|), ParseDigits(b'), d);
    }
  }

  lemma ShiftDigit(x: int, y: int, z: int, d: int)
    ensures 10 * (x * y + z) + d == x * (10 * y) + (10 * z + d)
  {
  }

  lemma {:induction false} ParseZeros(k: nat)
    ensures AllDigits(Repeat('0', k)) && ParseDigits(Repeat('0', k)) == 0
  {
    if k > 0 {
      assert Repeat('0', k)[..k - 1] == Repeat('0', k - 1);
      ParseZeros(k - 1);
    }
  }

  /** The longest prefix of `s` made of digits. */
  function LeadingDigits(s: string): (d: string)
    ensures AllDigits(d) && d <= s
  {
    if s == [] || !IsDigit(s[0]) then [] else [s[0]] + LeadingDigits(s[1..])
  }

  /** The number a reader sees at the start of `s`. */
  function LeadingNumber(s: string): nat {
    ParseDigits(LeadingDigits(s))
  }

  lemma {:induction false} LeadingDigitsOfConcat(d: string, rest: string)
    requires AllDigits(d)
    requires rest == [] || !IsDigit(rest[0])
    ensures LeadingDigits(d + rest) == d
    decreases |d|
  {
    if d == [] {
      assert d + rest == rest;
    } else {
      assert (d + rest)[1..] == d[1..] + rest;
      LeadingDigitsOfConcat(d[1..], rest);
    }
  }

  /** The numeral of `n` followed by a non-digit reads back as `n`. */
  lemma LeadingNumberOfNumeral(n: nat, rest: string)
    requires rest == [] || !IsDigit(rest[0])
    ensures LeadingNumber(NatToString(n) + rest) == n
  {
    LeadingDigitsOfConcat(NatToString(n), rest);
    ParseNatToString(n);
  }

  /** Rounding of a non-negative value to the nearest integer, ties upward. */
  function RoundHalfUp(r: real): (n: nat)
    requires r >= 0.0
    ensures r - 0.5 < n as real <= r + 0.5
  {
    (r + 0.5).Floor
  }

  /** The digits of the scaled magnitude, left-padded with zeros to at least
      p + 1 digits so that a digit stands before the decimal point. */
  function FixedDigits(n: nat, p: nat): (m: string)
    ensures AllDigits(m) && p + 1 <= |m| && ParseDigits(m) == n
  {
    var d := NatToString(n);
    ParseNatToString(n);
    if |d| <= p then
      ParseZeros(p + 1 - |d|);
      ParseDigitsAppend(Repeat('0', p + 1 - |d|), d);
      Repeat('0', p + 1 - |d|) + d
    else d
  }

  function Magnitude(x: real): (m: real)
    ensures m >= 0.0 && (m == x || m == -x)
  {
    if x < 0.0 then -x else x
  }

  /** |x| * 10^p, the magnitude shifted by p decimal places. */
  function Scaled(x: real, p: nat): (r: real)
    ensures r >= 0.0
  {
    NonNegativeProduct(Magnitude(x), Pow10(p) as real);
    Magnitude(x) * Pow10(p) as real
  }

  lemma NonNegativeProduct(a: real, b: real)
    requires a >= 0.0 && b >= 0.0
    ensures a * b >= 0.0
  {
  }

  /** The unsigned text of toFixed for the scaled, rounded magnitude `n`. */
  function FixedBody(n: nat, p: nat): (b: string)
    ensures |b| >= (if p == 0 then 1 else p + 2) && b[0] != '-'
  {
    var m := FixedDigits(n, p);
    if p == 0 then m else m[..|m| - p] + "." + m[|m| - p..]
  }

  /** Number.prototype.toFixed(p) applied to the exact value `x`: the sign,
      then |x| * 10^p rounded half up, written with a point before its last
      p digits (no point when p is 0). */
  function ToFixed(x: real, p: nat): (s: string)
    ensures |s| >= (if x < 0.0 then 1 else 0) + (if p == 0 then 1 else p + 2)
  {
    (if x < 0.0 then "-" else "") + FixedBody(RoundHalfUp(Scaled(x, p)), p)
  }

  /** Reads a fixed-point numeral with exactly `p` digits after the point
      (no point when p is 0), optionally preceded by a minus sign. */
  function ParseFixed(s: string, p: nat): Option<real> {
    if |s| > 0 && s[0] == '-' then
      match ParseUnsignedFixed(s[1..], p)
      case None => None
      case Some(v) => Some(-v)
    else ParseUnsignedFixed(s, p)
  }

  function ParseUnsignedFixed(body: string, p: nat): Option<real> {
    if p == 0 then
      if body != [] && AllDigits(body) then Some(ParseDigits(body) as real) else None
    else if |body| >= p + 2 && body[|body| - p - 1] == '.'
            && AllDigits(body[..|body| - p - 1]) && AllDigits(body[|body| - p..]) then
      Some((ParseDigits(body[..|body| - p - 1]) * Pow10(p) + ParseDigits(body[|body| - p..])) as real
           / Pow10(p) as real)
    else None
  }

  /** The magnitude toFixed prints: |x| * 10^p rounded half up, scaled back. */
  function RoundedMagnitude(x: real, p: nat): real {
    RoundHalfUp(Scaled(x, p)) as real / Pow10(p) as real
  }

  /** The signed value toFixed prints. */
  function RoundedValue(x: real, p: nat): real {
    if x < 0.0 then -RoundedMagnitude(x, p) else RoundedMagnitude(x, p)
  }

  /** toFixed is read back by ParseFixed as a value within half a unit of the
      last printed place of `x`. */
  lemma ToFixedRoundTrip(x: real, p: nat)
    ensures ParseFixed(ToFixed(x, p), p).Some?
    ensures var v := ParseFixed(ToFixed(x, p), p).value;
            -0.5 / Pow10(p) as real <= v - x <= 0.5 / Pow10(p) as real
  {
    RoundedValueWithinHalf(x, p);
    ParseToFixed(x, p);
  }

  lemma RoundedValueWithinHalf(x: real, p: nat)
    ensures -0.5 / Pow10(p) as real <= RoundedValue(x, p) - x <= 0.5 / Pow10(p) as real
  {
    RoundedMagnitudeWithinHalf(x, p);
    SignedWithin(x, RoundedMagnitude(x, p), 0.5 / Pow10(p) as real);
  }

  lemma RoundedMagnitudeWithinHalf(x: real, p: nat)
    ensures -0.5 / Pow10(p) as real <= RoundedMagnitude(x, p) - Magnitude(x) <= 0.5 / Pow10(p) as real
  {
    MagnitudeWithinHalf(Magnitude(x), Pow10(p) as real, Scaled(x, p), RoundHalfUp(Scaled(x, p)));
  }

  lemma SignedWithin(x: real, u: real, h: real)
    requires -h <= u - Magnitude(x) <= h
    ensures var v := if x < 0.0 then -u else u;
            -h <= v - x <= h
  {
  }

  /** Splitting a digit string at any point. */
  lemma ParseDigitsSplit(m: string, k: nat)
    requires AllDigits(m) && k <= |m|
    ensures AllDigits(m[..k]) && AllDigits(m[k..])
    ensures ParseDigits(m[..k]) * Pow10(|m| - k) + ParseDigits(m[k..]) == ParseDigits(m)
  {
    assert m == m[..k] + m[k..];
    ParseDigitsAppend(m[..k], m[k..]);
  }

  lemma ParseBody(n: nat, p: nat)
    ensures ParseUnsignedFixed(FixedBody(n, p), p) == Some(n as real / Pow10(p) as real)
  {
    if p > 0 {
      ParsePointedBody(n, p);
    } else {
      assert Pow10(p) == 1;
    }
  }

  lemma ParsePointedBody(n: nat, p: nat)
    requires p > 0
    ensures ParseUnsignedFixed(FixedBody(n, p), p) == Some(n as real / Pow10(p) as real)
  {
    BodyShape(n, p);
    ParsePointed(FixedBody(n, p), p, n);
  }

  /** With a point, the digits before and after it read back as n split
      p places from the end. */
  lemma BodyShape(n: nat, p: nat)
    requires p > 0
    ensures var b := FixedBody(n, p);
            && |b| >= p + 2 && b[|b| - p - 1] == '.'
            && AllDigits(b[..|b| - p - 1]) && AllDigits(b[|b| - p..])
            && ParseDigits(b[..|b| - p - 1]) * Pow10(p) + ParseDigits(b[|b| - p..]) == n
  {
    var m := FixedDigits(n, p);
    BodySlices(n, p);
    ParseDigitsSplit(m, |m| - p);
    assert |m| - (|m| - p) == p;
  }

  /** With a point, the body is the digits with '.' inserted p places from
      the end. */
  lemma BodySlices(n: nat, p: nat)
    requires p > 0
    ensures var m := FixedDigits(n, p);
            var b := FixedBody(n, p);
            && |b| == |m| + 1 && b[|b| - p - 1] == '.'
            && b[..|b| - p - 1] == m[..|m| - p] && b[|b| - p..] == m[|m| - p..]
  {
    var m := FixedDigits(n, p);
    var b := FixedBody(n, p);
    assert b == m[..|m| - p] + "." + m[|m| - p..];
  }

  /** A body with a point p places from the end is read as its digits
      divided by 10^p. */
  lemma ParsePointed(b: string, p: nat, n: nat)
    requires p > 0 && |b| >= p + 2 && b[|b| - p - 1] == '.'
    requires AllDigits(b[..|b| - p - 1]) && AllDigits(b[|b| - p..])
    requires ParseDigits(b[..|b| - p - 1]) * Pow10(p) + ParseDigits(b[|b| - p..]) == n
    ensures ParseUnsignedFixed(b, p) == Some(n as real / Pow10(p) as real)
  {
  }

  lemma ParseToFixed(x: real, p: nat)
    ensures ParseFixed(ToFixed(x, p), p) == Some(RoundedValue(x, p))
  {
    var n := RoundHalfUp(Scaled(x, p));
    var body := FixedBody(n, p);
    var s := ToFixed(x, p);
    ParseBody(n, p);
    if x < 0.0 {
      assert s[1..] == body;
    } else {
      assert s == body;
    }
  }

  lemma MagnitudeWithinHalf(mag: real, scale: real, scaled: real, n: nat)
    requires scale >= 1.0 && scaled == mag * scale
    requires scaled - 0.5 < n as real <= scaled + 0.5
    ensures -0.5 / scale <= n as real / scale - mag <= 0.5 / scale
  {
    var value := n as real / scale;
    assert value * scale == n as real;
    assert (value - mag) * scale <= 0.5;
    assert (value - mag) * scale > -0.5;
  }
}
