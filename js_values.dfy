/**
 * The few pieces of JavaScript number semantics the dashboard relies on:
 * the value a `parseFloat` can produce, truthiness (`!x`), the `<=`
 * comparison against zero, the truncating `%` operator, and the decimal
 * text a template literal gives for an integer.
 */
module JsValues {

  /** A JS number as far as this model needs it: NaN, a finite value, or an infinity. */
  datatype JsNumber = NaN | Finite(value: real) | Infinity | NegInfinity

  /** `!!x`: NaN and zero are falsy, every other number is truthy. */
  predicate Truthy(x: JsNumber)
  {
    match x
    case NaN => false
    case Finite(v) => v != 0.0
    case Infinity => true
    case NegInfinity => true
  }

  /** `x <= c` for a finite `c`: every comparison with NaN is false. */
  predicate AtMost(x: JsNumber, c: real)
  {
    match x
    case NaN => false
    case Finite(v) => v <= c
    case Infinity => false
    case NegInfinity => true
  }

  /**
   * JS `a % b` for b > 0: what is left of the dividend after taking away a
   * whole multiple of the divisor, with the dividend's sign.
   */
  function TruncRem(a: int, b: int): (r: int)
    requires b > 0
    ensures -b < r < b
    ensures (a - r) % b == 0
    ensures a >= 0 ==> r == a % b
    ensures r != 0 ==> (r < 0 <==> a < 0)
  {
    if a >= 0 then
      NonNegativeRemainder(a, b);
      a % b
    else
      NegativeRemainder(a, b);
      -((-a) % b)
  }

  /** For a non-negative dividend, the remainder differs from it by a multiple of b. */
  lemma NonNegativeRemainder(a: int, b: int)
    requires a >= 0 && b > 0
    ensures (a - a % b) % b == 0
  {
    var q := a / b;
    assert a == b * q + a % b;
    assert a - a % b == q * b;
    MultipleRem(q, b);
  }

  /** For a negative dividend, the truncated remainder differs from it by a multiple of b. */
  lemma NegativeRemainder(a: int, b: int)
    requires a < 0 && b > 0
    ensures (a - -((-a) % b)) % b == 0
  {
    var n := -a;
    var q := n / b;
    assert n == b * q + n % b;
    assert -n + n % b == (-q) * b;
    MultipleRem(-q, b);
  }

  /** A whole multiple of the divisor leaves no remainder. */
  lemma MultipleRem(k: int, b: int)
    requires b > 0
    ensures (k * b) % b == 0
  {
    var m := k * b;
    assert m == b * (m / b) + m % b;
    assert (m / b - k) * b == -(m % b);
    if m / b != k {
      MulMagnitude(m / b - k, b);
    }
  }

  /** A non-zero multiple of b has magnitude at least b. */
  lemma MulMagnitude(d: int, b: int)
    requires b > 0 && d != 0
    ensures d * b >= b || d * b <= -b
  {
  }

  function DigitChar(d: int): (c: char)
    requires 0 <= d < 10
    ensures '0' <= c <= '9' && c as int - '0' as int == d
  {
    "0123456789"[d]
  }

  predicate IsDigit(c: char)
  {
    '0' <= c <= '9'
  }

  function DigitValue(c: char): (d: nat)
    requires IsDigit(c)
    ensures d < 10
  {
    c as int - '0' as int
  }

  /** Decimal text of a non-negative integer, most significant digit first. */
  function NatToString(n: nat): (s: string)
    ensures |s| >= 1
    ensures forall i :: 0 <= i < |s| ==> IsDigit(s[i])
    ensures s[0] == '0' ==> n == 0
    ensures |s| > 1 ==> s[0] != '0'
    decreases n
  {
    if n < 10 then [DigitChar(n)] else NatToString(n / 10) + [DigitChar(n % 10)]
  }

  /** `${i}` for an integer: a minus sign before the digits of its magnitude. */
  function IntToString(i: int): (s: string)
    ensures |s| >= 1
    ensures s[0] == '-' <==> i < 0
    ensures forall k :: 0 <= k < |s| && (k > 0 || i >= 0) ==> IsDigit(s[k])
    ensures var d := if i < 0 then s[1..] else s; |d| >= 1 && (d[0] == '0' ==> d == "0")
  {
    if i < 0 then "-" + NatToString(-i) else NatToString(i)
  }

  /** Reads a string of decimal digits back as the number it denotes. */
  function ParseDecimal(s: string): nat
    requires forall i :: 0 <= i < |s| ==> IsDigit(s[i])
  {
    if s == [] then 0
    else ParseDecimal(s[..|s| - 1]) * 10 + DigitValue(s[|s| - 1])
  }

  /** The digits NatToString writes read back as the same number. */
  lemma {:induction false} ParseNatToString(n: nat)
    ensures ParseDecimal(NatToString(n)) == n
  {
    var s := NatToString(n);
    if n >= 10 {
      ParseNatToString(n / 10);
      assert s[..|s| - 1] == NatToString(n / 10);
    }
  }

  /** The digits after an optional minus sign read back as the magnitude. */
  lemma IntToStringMagnitude(i: int)
    ensures i >= 0 ==> ParseDecimal(IntToString(i)) == i
    ensures i < 0 ==> |IntToString(i)| >= 2 && ParseDecimal(IntToString(i)[1..]) == -i
  {
    if i < 0 {
      var s := IntToString(i);
      assert s[1..] == NatToString(-i);
      ParseNatToString(-i);
    } else {
      ParseNatToString(i);
    }
  }

  /** Different numbers never share a decimal text. */
  lemma NatToStringInjective(m: nat, n: nat)
    requires NatToString(m) == NatToString(n)
    ensures m == n
  {
    ParseNatToString(m);
    ParseNatToString(n);
  }

}
