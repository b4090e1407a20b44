/**
  Numeric helpers shared by the video-export and parameter models: the C# integer
  semantics the source relies on (truncating division, narrowing casts, 32-bit
  wrap-around) and the small `Utils` routines it calls (Clamp, Lerp, SmoothStep).
  `Utils.cs` is not part of this model; the bodies below are the usual definitions
  of those routines, and the contracts state what the callers rely on.
 */
module Utils {

  datatype Option<T> = None | Some(value: T)

  const IntMin: int := -0x8000_0000
  const IntMax: int := 0x7fff_ffff
  const ShortMin: int := -0x8000
  const ShortMax: int := 0x7fff
  const UShortMax: int := 0xffff

  /** An unsigned 8-bit value, C#'s `byte`. */
  type byte = x: int | 0 <= x < 256

  /** A signed 8-bit value, C#'s `sbyte`. */
  type sbyte = x: int | -128 <= x < 128

  function Abs(x: int): (r: int)
    ensures r >= 0 && (r == x || r == -x)
  {
    if x < 0 then -x else x
  }

  function Min(a: int, b: int): (r: int)
    ensures r <= a && r <= b && (r == a || r == b)
  {
    if a <= b then a else b
  }

  function Max(a: int, b: int): (r: int)
    ensures r >= a && r >= b && (r == a || r == b)
  {
    if a >= b then a else b
  }

  /** C#'s integer `/`: the quotient is truncated toward zero (Dafny's `/` is Euclidean). */
  function CsDiv(a: int, b: int): (q: int)
    requires b != 0
    ensures a >= 0 ==> 0 <= a - q * b < Abs(b)
    ensures a < 0 ==> -Abs(b) < a - q * b <= 0
  {
    if a >= 0 then
      (if b > 0 then a / b else -(a / -b))
    else
      (if b > 0 then -((-a) / b) else (-a) / (-b))
  }

  /** Bit `b` of a 32-bit int, in two's complement: `(x & (1 << b)) != 0` for b < 32. */
  predicate BitSet(x: int, b: nat)
  {
    Bit(x % 0x1_0000_0000, b)
  }

  /** Bit `b` of the binary expansion of a non-negative number. */
  predicate Bit(u: int, b: nat)
    decreases b
  {
    if b == 0 then u % 2 == 1 else Bit(u / 2, b - 1)
  }

  /** The `(byte)` cast of an int: keeps the low 8 bits. */
  function ToByte(x: int): (r: byte)
    ensures 0 <= x < 256 ==> r == x
    ensures (r - x) % 256 == 0
  {
    x % 256
  }

  /** The `(ushort)` cast of an int: keeps the low 16 bits. */
  function ToUShort(x: int): (r: int)
    ensures 0 <= r <= UShortMax
    ensures 0 <= x <= UShortMax ==> r == x
    ensures (r - x) % 0x1_0000 == 0
  {
    x % 0x1_0000
  }

  /** Unchecked 32-bit two's-complement result of an int computation. */
  function Wrap32(x: int): (r: int)
    ensures IntMin <= r <= IntMax
    ensures IntMin <= x <= IntMax ==> r == x
    ensures (r - x) % 0x1_0000_0000 == 0
  {
    (x - IntMin) % 0x1_0000_0000 + IntMin
  }

  /** The `(int)` cast of a floating-point value: truncation toward zero. */
  function TruncToInt(r: real): (i: int)
    ensures r >= 0.0 ==> i as real <= r < i as real + 1.0
    ensures r < 0.0 ==> i as real - 1.0 < r <= i as real
  {
    if r >= 0.0 then r.Floor else -((-r).Floor)
  }

  /** Math.Ceiling. */
  function Ceil(r: real): (i: int)
    ensures i as real - 1.0 < r <= i as real
  {
    -((-r).Floor)
  }

  /** Utils.Clamp on ints. */
  function Clamp(x: int, lo: int, hi: int): (r: int)
    ensures lo <= hi ==> lo <= r <= hi
    ensures lo <= x <= hi ==> r == x
    ensures x < lo ==> r == lo
    ensures x > hi && lo <= hi ==> r == hi
  {
    if x < lo then lo else if x > hi then hi else x
  }

  /** Utils.Clamp on floating-point values, modelled on reals. */
  function ClampReal(x: real, lo: real, hi: real): (r: real)
    ensures lo <= hi ==> lo <= r <= hi
    ensures lo <= x <= hi ==> r == x
    ensures x < lo ==> r == lo
    ensures x > hi && lo <= hi ==> r == hi
  {
    if x < lo then lo else if x > hi then hi else x
  }

  /** Utils.Lerp: linear interpolation from `a` (t = 0) to `b` (t = 1). */
  function Lerp(a: real, b: real, t: real): (r: real)
    ensures t == 0.0 ==> r == a
    ensures t == 1.0 ==> r == b
  {
    a + (b - a) * t
  }

  /** Utils.SmoothStep: the cubic ease 3t^2 - 2t^3. */
  function SmoothStep(t: real): (r: real)
    ensures t == 0.0 ==> r == 0.0
    ensures t == 1.0 ==> r == 1.0
  {
    t * t * (3.0 - 2.0 * t)
  }

  /** The product of two non-negative reals is non-negative. */
  lemma MulNonNegative(x: real, y: real)
    requires x >= 0.0 && y >= 0.0
    ensures x * y >= 0.0
  {
  }

  /** SmoothStep maps [0, 1] into [0, 1] and is non-decreasing there. */
  lemma SmoothStepMonotone(s: real, t: real)
    requires 0.0 <= s <= t <= 1.0
    ensures 0.0 <= SmoothStep(s) <= SmoothStep(t) <= 1.0
  {
    var d := 3.0 * (t + s) - 2.0 * (t * t + t * s + s * s);
    SmoothStepDifference(s, t, d);
    SlopeNonNegative(s, t, d);
    MulNonNegative(t - s, d);
    SmoothStepLowerEnd(s);
    SmoothStepUpperEnd(t);
  }

  lemma SmoothStepDifference(s: real, t: real, d: real)
    requires d == 3.0 * (t + s) - 2.0 * (t * t + t * s + s * s)
    ensures SmoothStep(t) - SmoothStep(s) == (t - s) * d
  {
  }

  lemma SlopeNonNegative(s: real, t: real, d: real)
    requires 0.0 <= s <= t <= 1.0
    requires d == 3.0 * (t + s) - 2.0 * (t * t + t * s + s * s)
    ensures d >= 0.0
  {
    MulLeq(t, t, 1.0);
    MulLeq(s, s, 1.0);
    MulLeq(t, s, 1.0);
    var tt, ts, ss := t * t, t * s, s * s;
    assert tt <= t && ts <= s && ss <= s;
    assert d == 3.0 * (t + s) - 2.0 * (tt + ts + ss);
  }

  lemma SmoothStepLowerEnd(s: real)
    requires 0.0 <= s <= 1.0
    ensures 0.0 <= SmoothStep(s)
  {
    MulNonNegative(s, s);
    MulNonNegative(s * s, 3.0 - 2.0 * s);
  }

  lemma SmoothStepUpperEnd(t: real)
    requires 0.0 <= t <= 1.0
    ensures SmoothStep(t) <= 1.0
  {
    MulNonNegative(1.0 - t, 1.0 - t);
    MulNonNegative((1.0 - t) * (1.0 - t), 1.0 + 2.0 * t);
    assert 1.0 - SmoothStep(t) == (1.0 - t) * (1.0 - t) * (1.0 + 2.0 * t);
  }

  /** x * y <= x when 0 <= x and y <= bound 1 */
  lemma MulLeq(x: real, y: real, one: real)
    requires 0.0 <= x <= one && 0.0 <= y <= one && one == 1.0
    ensures 0.0 <= x * y <= x && x * y <= y
  {
    MulNonNegative(x, one - y);
    MulNonNegative(y, one - x);
    MulNonNegative(x, y);
  }

  /** Lerp with a weight in [0, 1] stays between its two end points. */
  lemma LerpBetween(a: real, b: real, t: real)
    requires 0.0 <= t <= 1.0
    ensures a <= b ==> a <= Lerp(a, b, t) <= b
    ensures b <= a ==> b <= Lerp(a, b, t) <= a
  {
    assert Lerp(a, b, t) - a == (b - a) * t;
    assert b - Lerp(a, b, t) == (b - a) * (1.0 - t);
    if a <= b {
      MulNonNegative(b - a, t);
      MulNonNegative(b - a, 1.0 - t);
    } else {
      MulNonNegative(a - b, t);
      MulNonNegative(a - b, 1.0 - t);
    }
  }

  /** Lerp is monotone in its weight, in the direction from `a` to `b`. */
  lemma LerpMonotone(a: real, b: real, s: real, t: real)
    requires s <= t
    ensures a <= b ==> Lerp(a, b, s) <= Lerp(a, b, t)
    ensures b <= a ==> Lerp(a, b, t) <= Lerp(a, b, s)
  {
    assert Lerp(a, b, t) - Lerp(a, b, s) == (b - a) * (t - s);
    if a <= b {
      MulNonNegative(b - a, t - s);
    } else {
      MulNonNegative(a - b, t - s);
    }
  }
}
