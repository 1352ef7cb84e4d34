/**
 The arbitrary-precision decimal the calculator computes with.

 A value is an unscaled integer together with a base-10 scale, worth
 unscaled × 10^(−scale); the scale may be negative. Addition, subtraction
 and multiplication are exact and are defined here; parsing, printing and
 the (rounding) quotient of the decimal library are supplied by the caller
 as function values of the types below.
 */
module Decimal {
  import opened Results

  datatype Dec = Dec(unscaled: int, scale: int)

  /** The error the library reports for a string that is not a decimal. */
  datatype ParseError = ParseError(message: string)

  /** The library's `from_str`. */
  type Parser = string -> Result<Dec, ParseError>

  /** The library's `to_string`. */
  type Printer = Dec -> string

  /** The library's `a / b`, only ever applied to a non-zero `b`. */
  type Quotient = (Dec, Dec) -> Dec

  function Pow10(n: nat): (r: nat)
    ensures r >= 1
  {
    if n == 0 then 1 else 10 * Pow10(n - 1)
  }

  /** 10^n as a real. */
  ghost function Up(n: nat): real
  {
    if n == 0 then 1.0 else 10.0 * Up(n - 1)
  }

  /** 10^(−n) as a real. */
  ghost function Down(n: nat): real
  {
    if n == 0 then 1.0 else Down(n - 1) / 10.0
  }

  /** 10^k as a real, for any integer k. */
  ghost function Scale10(k: int): real
  {
    if k >= 0 then Up(k) else Down(-k)
  }

  /** The number a decimal stands for. */
  ghost function Value(d: Dec): real
  {
    d.unscaled as real * Scale10(-d.scale)
  }

  function Max(a: int, b: int): int
  {
    if a < b then b else a
  }

  predicate IsZero(d: Dec)
  {
    d.unscaled == 0
  }

  /** The same number written with the (not smaller) scale `s`. */
  function Rescale(d: Dec, s: int): (r: Dec)
    requires d.scale <= s
    ensures r.scale == s
    ensures Value(r) == Value(d)
  {
    RescaleValue(d, s);
    Dec(d.unscaled * Pow10(s - d.scale), s)
  }

  /** Exact sum; the result has the larger of the two scales. */
  function Plus(a: Dec, b: Dec): (r: Dec)
    ensures r.scale == Max(a.scale, b.scale)
    ensures Value(r) == Value(a) + Value(b)
  {
    var s := Max(a.scale, b.scale);
    var x, y := Rescale(a, s), Rescale(b, s);
    SameScaleValue(x.unscaled, y.unscaled, s);
    Dec(x.unscaled + y.unscaled, s)
  }

  /** Exact difference; the result has the larger of the two scales. */
  function Minus(a: Dec, b: Dec): (r: Dec)
    ensures r.scale == Max(a.scale, b.scale)
    ensures Value(r) == Value(a) - Value(b)
  {
    var s := Max(a.scale, b.scale);
    var x, y := Rescale(a, s), Rescale(b, s);
    SameScaleValue(x.unscaled, -y.unscaled, s);
    Dec(x.unscaled - y.unscaled, s)
  }

  /** Exact product; the scales add up. */
  function Times(a: Dec, b: Dec): (r: Dec)
    ensures r.scale == a.scale + b.scale
    ensures Value(r) == Value(a) * Value(b)
  {
    ProductValue(a, b);
    Dec(a.unscaled * b.unscaled, a.scale + b.scale)
  }

  /** On naturals, the real power agrees with the integer one. */
  lemma {:induction false} Scale10OfNat(n: nat)
    ensures Scale10(n) == Pow10(n) as real
  {
    if n > 0 {
      Scale10OfNat(n - 1);
    }
  }

  /** Each step up multiplies by ten. */
  lemma Scale10Succ(k: int)
    ensures Scale10(k + 1) == 10.0 * Scale10(k)
  {
    if k < 0 {
      assert Down(-k) == Down(-k - 1) / 10.0;
    }
  }

  lemma Scale10Add(a: int, b: int)
    ensures Scale10(a + b) == Scale10(a) * Scale10(b)
  {
    if a >= 0 {
      Scale10AddUp(a, b);
    } else {
      Scale10AddDown(-a, b);
    }
  }

  lemma {:induction false} Scale10AddUp(a: nat, b: int)
    ensures Scale10(a + b) == Scale10(a) * Scale10(b)
  {
    if a > 0 {
      var x, y := Scale10(a - 1), Scale10(b);
      Scale10AddUp(a - 1, b);
      Scale10Succ(a - 1 + b);
      Scale10Succ(a - 1);
      Regroup(10.0, x, y);
    }
  }

  lemma {:induction false} Scale10AddDown(a: int, b: int)
    requires a >= 0
    ensures Scale10(-a + b) == Scale10(-a) * Scale10(b)
  {
    if a > 0 {
      var x, y := Scale10(-a), Scale10(b);
      Scale10AddDown(a - 1, b);
      Scale10Succ(-a + b);
      Scale10Succ(-a);
      Regroup(10.0, x, y);
    }
  }

  lemma RealProduct(x: int, y: int)
    ensures (x * y) as real == x as real * y as real
  {
  }

  lemma Regroup(x: real, y: real, z: real)
    ensures (x * y) * z == x * (y * z)
  {
  }

  lemma Interchange(x: real, y: real, X: real, Y: real)
    ensures (x * y) * (X * Y) == (x * X) * (y * Y)
  {
  }

  lemma RescaleValue(d: Dec, s: int)
    requires d.scale <= s
    ensures Value(Dec(d.unscaled * Pow10(s - d.scale), s)) == Value(d)
  {
    var k := s - d.scale;
    RealProduct(d.unscaled, Pow10(k));
    Scale10OfNat(k);
    Scale10Add(k, -s);
    Regroup(d.unscaled as real, Scale10(k), Scale10(-s));
  }

  lemma SameScaleValue(x: int, y: int, s: int)
    ensures Value(Dec(x + y, s)) == Value(Dec(x, s)) + Value(Dec(y, s))
  {
  }

  /** The factor of a sum of scales is the product of the factors. */
  lemma ScaleOfSum(p: int, q: int)
    ensures Scale10(-(p + q)) == Scale10(-p) * Scale10(-q)
  {
    Scale10Add(-p, -q);
    assert -p + -q == -(p + q);
  }

  lemma ProductValue(a: Dec, b: Dec)
    ensures Value(Dec(a.unscaled * b.unscaled, a.scale + b.scale)) == Value(a) * Value(b)
  {
    ScaleOfSum(a.scale, b.scale);
    ScaledProduct(a.unscaled, b.unscaled, Scale10(-a.scale), Scale10(-b.scale), Scale10(-(a.scale + b.scale)));
  }

  /** (u·v)·Z = (u·X)·(v·Y) when Z = X·Y. */
  lemma ScaledProduct(u: int, v: int, X: real, Y: real, Z: real)
    requires Z == X * Y
    ensures (u * v) as real * Z == (u as real * X) * (v as real * Y)
  {
    RealProduct(u, v);
    Interchange(u as real, v as real, X, Y);
  }
}
