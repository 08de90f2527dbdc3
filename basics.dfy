/** Shared vocabulary of the model: optional values, identifiers, calendar days,
    Swift's truncating integer division, and ratios standing in for `Double`. */
module Basics {

  /** Swift's `T?`. */
  datatype Option<+T> = None | Some(value: T)

  /** A `UUID`; only equality matters, so any natural number will do. */
  type Uuid = nat

  /** A calendar day (days since some epoch); two `Date`s fall on the same day
      exactly when their day numbers are equal, and "yesterday" is `today - 1`. */
  type Day = int

  /** A point in time (`Date()`), supplied by the caller as a clock reading. */
  type Instant = int

  /** Swift's `Int /`: the quotient truncated toward zero, so the remainder
      left over has the sign of the dividend. */
  function TruncDiv(a: int, b: int): (q: int)
    requires b > 0
    ensures a >= 0 ==> 0 <= a - b * q < b
    ensures a < 0 ==> -b < a - b * q <= 0
    ensures a >= 0 ==> q == a / b
  {
    if a >= 0 then a / b else -((-a) / b)
  }

  /** Swift's `Int %`: the remainder takes the sign of the dividend. */
  function TruncRem(a: int, b: int): (r: int)
    requires b > 0
    ensures a == b * TruncDiv(a, b) + r
    ensures -b < r < b
    ensures a >= 0 ==> 0 <= r && r == a % b
    ensures a < 0 ==> r <= 0
  {
    a - b * TruncDiv(a, b)
  }

  /** A `Double` produced by dividing two integers, kept exact as numerator over
      denominator. `den == 0` is where Swift's floating division yields NaN or
      infinity. */
  datatype Fraction = Fraction(num: int, den: nat)

  /** The `Double` 0.0. */
  const ZeroFraction := Fraction(0, 1)

  /** `s.dropFirst(n)`: everything after the first `n` elements (nothing when
      `s` is shorter than `n`). */
  function DropFirst<T>(s: seq<T>, n: nat): (r: seq<T>)
    ensures |r| == if n <= |s| then |s| - n else 0
    ensures forall i :: 0 <= i < |r| ==> r[i] == s[n + i]
  {
    if n <= |s| then s[n..] else []
  }

  /** Decimal rendering of an `Int`, as string interpolation `"\(n)"` writes it. */
  function IntToDecimal(n: int): (s: string)
    ensures s != []
    ensures ParseInt(s) == n
  {
    NatToDecimalRoundTrip(if n < 0 then -n else n);
    if n < 0 then "-" + NatToDecimal(-n) else NatToDecimal(n)
  }

  /** The digits of a natural number, most significant first, without
      leading zeros. */
  function NatToDecimal(n: nat): (s: string)
    ensures s != []
    ensures forall i :: 0 <= i < |s| ==> '0' <= s[i] <= '9'
    ensures n > 0 ==> s[0] != '0'
    decreases n
  {
    var d := [(48 + n % 10) as char];
    if n < 10 then d else NatToDecimal(n / 10) + d
  }

  /** The value a string of decimal digits denotes. */
  function DecimalValue(s: string): int
    decreases |s|
  {
    if s == [] then 0 else 10 * DecimalValue(s[..|s| - 1]) + (s[|s| - 1] as int - 48)
  }

  /** Reading back an optionally signed decimal numeral. */
  function ParseInt(s: string): int {
    if s != [] && s[0] == '-' then -DecimalValue(s[1..]) else DecimalValue(s)
  }

  /** Reading the digits back gives the number. */
  lemma {:induction false} NatToDecimalRoundTrip(n: nat)
    ensures DecimalValue(NatToDecimal(n)) == n
    decreases n
  {
    var s := NatToDecimal(n);
    if n >= 10 {
      NatToDecimalRoundTrip(n / 10);
      assert s[..|s| - 1] == NatToDecimal(n / 10);
    }
  }
}
