/**
  ParamInfo (ParamProviders.cs): the description of one editable parameter
  and SnapAndClampValue, which the property pages apply to every value the
  user enters before handing it to the parameter's setter.
 */
module Params {
  import opened Utils

  /**
    The parts of a ParamInfo the model uses. The tool tip, the custom drawing
    callbacks and the GetValueString delegate are display-only.
   */
  datatype ParamInfo = ParamInfo(
    name: string,
    minValue: int,
    maxValue: int,
    defaultValue: int,
    isList: bool,
    snapValue: int,
    tabName: string)

  /** `(value / snap) * snap` with C#'s truncating `/`: a multiple of `snap`, moved toward zero by less than `snap`. */
  function Snap(value: int, snap: int): (s: int)
    requires snap > 1
    ensures value >= 0 ==> 0 <= s <= value && value - s < snap
    ensures value < 0 ==> value <= s <= 0 && s - value < snap
  {
    QuotientSign(value, CsDiv(value, snap), snap);
    CsDiv(value, snap) * snap
  }

  /** A truncated quotient has the sign of the dividend. */
  lemma QuotientSign(a: int, q: int, b: int)
    requires b > 1
    requires a >= 0 ==> 0 <= a - q * b < b
    requires a < 0 ==> -b < a - q * b <= 0
    ensures a >= 0 ==> q >= 0
    ensures a < 0 ==> q <= 0
  {
    if a >= 0 && q < 0 {
      assert q * b <= -b by { MulAtMost(q, b); }
    } else if a < 0 && q > 0 {
      assert q * b >= b by { MulAtLeast(q, b); }
    }
  }

  lemma MulAtMost(q: int, b: int)
    requires q <= -1 && b > 0
    ensures q * b <= -b
  {
    assert q * b == -b + (q + 1) * b;
    assert (q + 1) * b <= 0 by { assert -(q + 1) >= 0; assert -(q + 1) * b >= 0; }
  }

  lemma MulAtLeast(q: int, b: int)
    requires q >= 1 && b > 0
    ensures q * b >= b
  {
    assert q * b == b + (q - 1) * b;
    assert (q - 1) * b >= 0;
  }

  /** SnapAndClampValue: snap when the step is above 1, then clamp to [MinValue, MaxValue]. */
  function SnapAndClampValue(p: ParamInfo, value: int): (r: int)
    ensures p.minValue <= p.maxValue ==> p.minValue <= r <= p.maxValue
  {
    var snapped := if p.snapValue > 1 then Snap(value, p.snapValue) else value;
    Clamp(snapped, p.minValue, p.maxValue)
  }

  /** With consistent bounds the result is always within them. */
  lemma SnapAndClampInRange(p: ParamInfo, value: int)
    requires p.minValue <= p.maxValue
    ensures p.minValue <= SnapAndClampValue(p, value) <= p.maxValue
  {
  }

  /** Without a snapping step it is a plain clamp. */
  lemma SnapAndClampWithoutStep(p: ParamInfo, value: int)
    requires p.snapValue <= 1
    ensures SnapAndClampValue(p, value) == Clamp(value, p.minValue, p.maxValue)
  {
  }

  lemma MultipleOfProduct(q: int, snap: int)
    requires snap > 0
    ensures (q * snap) % snap == 0
  {
    var r := (q * snap) % snap;
    var d := (q * snap) / snap;
    assert q * snap == d * snap + r;
    assert (q - d) * snap == r;
    if q - d > 0 {
      MulAtLeast(q - d, snap);
    } else if q - d < 0 {
      MulAtMost(q - d, snap);
    }
  }

  /** The snapped value is a multiple of the step. */
  lemma SnapIsMultiple(value: int, snap: int)
    requires snap > 1
    ensures Snap(value, snap) % snap == 0
  {
    MultipleOfProduct(CsDiv(value, snap), snap);
  }

  /** A value that already is a multiple of the step is left where it is by snapping. */
  lemma SnapKeepsMultiple(k: int, snap: int)
    requires snap > 1
    ensures Snap(k * snap, snap) == k * snap
  {
    var q := CsDiv(k * snap, snap);
    var d := k - q;
    assert k * snap - q * snap == d * snap;
    if d > 0 {
      MulAtLeast(d, snap);
    } else if d < 0 {
      MulAtMost(d, snap);
    }
  }

  /** An in-range multiple of the step comes back unchanged. */
  lemma SnapAndClampKeepsMultiple(p: ParamInfo, k: int)
    requires p.snapValue > 1 && p.minValue <= k * p.snapValue <= p.maxValue
    ensures SnapAndClampValue(p, k * p.snapValue) == k * p.snapValue
  {
    SnapKeepsMultiple(k, p.snapValue);
  }

  /** When both bounds are multiples of the step, every result is a multiple of the step. */
  lemma SnapAndClampGivesMultiple(p: ParamInfo, value: int)
    requires p.snapValue > 1 && p.minValue <= p.maxValue
    requires p.minValue % p.snapValue == 0 && p.maxValue % p.snapValue == 0
    ensures SnapAndClampValue(p, value) % p.snapValue == 0
  {
    SnapIsMultiple(value, p.snapValue);
  }

  /** Negative values snap toward zero, not down: with a step of 4, -5 becomes -4. */
  lemma NegativeSnapsTowardZero()
    ensures Snap(-5, 4) == -4
  {
  }
}
