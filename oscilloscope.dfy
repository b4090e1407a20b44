/**
  The oscilloscope trace of one channel for one video frame
  (GenerateOscilloscope, VideoFile.cs). Starting at the frame's audio
  position, the trace first looks for a point where the waveform crosses the
  axis, at most `maxLookback` samples away: backward to the first negative
  sample when the sample at the position is positive, otherwise forward to
  the first positive sample. It then samples a window centred on that point
  into `oscLen` points of the trace, x spread evenly over [minX, maxX] and the
  scaled sample mapped from the 16-bit range onto [minY, maxY].

  Floating-point values are modelled as reals.
 */
module Oscilloscope {
  import opened Utils

  /** A 16-bit audio sample, C#'s `short`. */
  type short = x: int | -0x8000 <= x <= 0x7fff

  // ---------------------------------------------------------------------------
  // The zero-crossing search.

  /** Walking backward from `p` with `remaining` steps left, stopping on a negative sample or at 0. */
  function WalkBack(wav: seq<short>, p: int, remaining: int): (r: int)
    requires 0 <= p < |wav|
    ensures 0 <= r <= p
    decreases remaining
  {
    if remaining <= 0 || p == 0 then p
    else if wav[p - 1] < 0 then p - 1
    else WalkBack(wav, p - 1, remaining - 1)
  }

  /** Walking forward from `p` with `remaining` steps left, stopping on a positive sample or at the end. */
  function WalkForward(wav: seq<short>, p: int, remaining: int): (r: int)
    requires 0 <= p < |wav|
    ensures p <= r < |wav|
    decreases remaining
  {
    if remaining <= 0 || p == |wav| - 1 then p
    else if wav[p + 1] > 0 then p + 1
    else WalkForward(wav, p + 1, remaining - 1)
  }

  /** Where the trace is anchored: the search backward from a positive sample, forward otherwise. */
  function Anchor(wav: seq<short>, position: int, maxLookback: int): (r: int)
    requires 0 <= position < |wav|
    ensures 0 <= r < |wav|
  {
    if wav[position] > 0 then WalkBack(wav, position, maxLookback) else WalkForward(wav, position, maxLookback)
  }

  /**
    The backward search's stopping point, described without the walk: at most
    `maxLookback` samples back, no negative sample strictly in between, and a
    reason to stop there (the start of the buffer, a negative sample, or the
    step budget spent).
   */
  predicate StopsBack(wav: seq<short>, position: int, maxLookback: int, r: int)
    requires 0 <= position < |wav|
  {
    && 0 <= r <= position
    && position - r <= Max(maxLookback, 0)
    && (forall k :: r < k < position ==> wav[k] >= 0)
    && (r == 0 || wav[r] < 0 || position - r == Max(maxLookback, 0))
  }

  /** The forward search's stopping point, the mirror image of StopsBack. */
  predicate StopsForward(wav: seq<short>, position: int, maxLookback: int, r: int)
    requires 0 <= position < |wav|
  {
    && position <= r < |wav|
    && r - position <= Max(maxLookback, 0)
    && (forall k :: position < k < r ==> wav[k] <= 0)
    && (r == |wav| - 1 || wav[r] > 0 || r - position == Max(maxLookback, 0))
  }

  lemma {:induction false} WalkBackStops(wav: seq<short>, position: int, maxLookback: int, p: int, remaining: int)
    requires 0 <= p <= position < |wav| && wav[position] > 0
    requires remaining == Max(maxLookback, 0) - (position - p) && remaining >= 0
    requires forall k :: p <= k < position ==> wav[k] >= 0
    ensures StopsBack(wav, position, maxLookback, WalkBack(wav, p, remaining))
    decreases remaining
  {
    if remaining > 0 && p > 0 && wav[p - 1] >= 0 {
      WalkBackStops(wav, position, maxLookback, p - 1, remaining - 1);
    }
  }

  lemma {:induction false} WalkForwardStops(wav: seq<short>, position: int, maxLookback: int, p: int, remaining: int)
    requires 0 <= position <= p < |wav| && wav[position] <= 0
    requires remaining == Max(maxLookback, 0) - (p - position) && remaining >= 0
    requires forall k :: position < k <= p ==> wav[k] <= 0
    ensures StopsForward(wav, position, maxLookback, WalkForward(wav, p, remaining))
    decreases remaining
  {
    if remaining > 0 && p < |wav| - 1 && wav[p + 1] <= 0 {
      WalkForwardStops(wav, position, maxLookback, p + 1, remaining - 1);
    }
  }

  /**
    The anchor is exactly the stopping point of the search: backward from a
    positive sample, forward from a zero or negative one, and no other index
    qualifies.
   */
  lemma AnchorIsFirstCrossing(wav: seq<short>, position: int, maxLookback: int, r: int)
    requires 0 <= position < |wav|
    ensures wav[position] > 0 ==> (r == Anchor(wav, position, maxLookback) <==> StopsBack(wav, position, maxLookback, r))
    ensures wav[position] <= 0 ==> (r == Anchor(wav, position, maxLookback) <==> StopsForward(wav, position, maxLookback, r))
  {
    var a := Anchor(wav, position, maxLookback);
    var m := Max(maxLookback, 0);
    if wav[position] > 0 {
      assert WalkBack(wav, position, maxLookback) == WalkBack(wav, position, m);
      WalkBackStops(wav, position, maxLookback, position, m);
    } else {
      assert WalkForward(wav, position, maxLookback) == WalkForward(wav, position, m);
      WalkForwardStops(wav, position, maxLookback, position, m);
    }
  }

  /** On a silent buffer the search never stops early: it walks forward the whole budget (or to the end). */
  lemma {:induction false} SilenceWalksForward(wav: seq<short>, p: int, remaining: int)
    requires 0 <= p < |wav|
    requires forall k :: 0 <= k < |wav| ==> wav[k] == 0
    ensures WalkForward(wav, p, remaining) == Min(p + Max(remaining, 0), |wav| - 1)
    decreases remaining
  {
    if remaining > 0 && p < |wav| - 1 {
      SilenceWalksForward(wav, p + 1, remaining - 1);
    }
  }

  /** The search loop of GenerateOscilloscope. */
  method FindCrossing(wav: array<short>, position: int, maxLookback: int) returns (p: int)
    requires 0 <= position < wav.Length
    ensures p == Anchor(wav[..], position, maxLookback)
  {
    var lookback := 0;
    var orig := wav[position];
    p := position;
    while lookback < maxLookback
      invariant 0 <= lookback && 0 <= p < wav.Length
      invariant orig > 0 ==>
        (p == position - lookback && WalkBack(wav[..], p, maxLookback - lookback) == Anchor(wav[..], position, maxLookback))
      invariant orig <= 0 ==>
        (p == position + lookback && WalkForward(wav[..], p, maxLookback - lookback) == Anchor(wav[..], position, maxLookback))
      decreases maxLookback - lookback
    {
      if orig > 0 {
        if p == 0 {
          break;
        }
        p := p - 1;
        if wav[p] < 0 {
          break;
        }
      } else {
        if p == wav.Length - 1 {
          break;
        }
        p := p + 1;
        if wav[p] > 0 {
          break;
        }
      }
      lookback := lookback + 1;
    }
  }

  // ---------------------------------------------------------------------------
  // Sampling the window into the trace.

  /** Index of the sample shown at point `i`: a window of `windowSize` samples centred on the anchor, clamped to the buffer. */
  function SampleIndex(n: int, anchor: int, windowSize: int, i: int, oscLen: int): (idx: int)
    requires n > 0 && oscLen > 0
    ensures 0 <= idx < n
  {
    Clamp(anchor - CsDiv(windowSize, 2) + CsDiv(i * windowSize, oscLen), 0, n - 1)
  }

  /** The scaled sample, truncated to an int and clamped to the 16-bit range. */
  function ScaledSample(v: short, scaleY: real): (s: int)
    ensures ShortMin <= s <= ShortMax
  {
    Clamp(TruncToInt(v as real * scaleY), ShortMin, ShortMax)
  }

  /** x of point `i`: evenly spread from minX (first point) to maxX (last point). */
  function PointX(minX: real, maxX: real, i: int, oscLen: int): real
    requires oscLen >= 2
  {
    Lerp(minX, maxX, i as real / (oscLen - 1) as real)
  }

  /** y of a sample: the 16-bit range mapped linearly onto [minY, maxY]. */
  function PointY(minY: real, maxY: real, sample: int): real
  {
    Lerp(minY, maxY, (sample - ShortMin) as real / UShortMax as real)
  }

  /** The y of point `i` of the trace of `wav` anchored at `anchor`. */
  function TraceY(wav: seq<short>, anchor: int, windowSize: int, scaleY: real, minY: real, maxY: real, i: int, oscLen: int): real
    requires |wav| > 0 && oscLen > 0
  {
    PointY(minY, maxY, ScaledSample(wav[SampleIndex(|wav|, anchor, windowSize, i, oscLen)], scaleY))
  }

  /** The trace runs from minX to maxX, and x moves monotonically from one to the other. */
  lemma PointXSpansWidth(minX: real, maxX: real, i: int, j: int, oscLen: int)
    requires oscLen >= 2 && 0 <= i <= j < oscLen
    ensures PointX(minX, maxX, 0, oscLen) == minX
    ensures PointX(minX, maxX, oscLen - 1, oscLen) == maxX
    ensures minX <= maxX ==> minX <= PointX(minX, maxX, i, oscLen) <= PointX(minX, maxX, j, oscLen) <= maxX
  {
    var d := (oscLen - 1) as real;
    var s, t := i as real / d, j as real / d;
    FractionOrdered(i, j, oscLen - 1);
    FractionOrdered(0, i, oscLen - 1);
    FractionOrdered(j, oscLen - 1, oscLen - 1);
    LerpMonotone(minX, maxX, s, t);
    LerpBetween(minX, maxX, s);
    LerpBetween(minX, maxX, t);
  }

  /** i / d <= j / d for 0 <= i <= j, and d / d is 1. */
  lemma FractionOrdered(i: int, j: int, d: int)
    requires 0 <= i <= j && d > 0
    ensures 0.0 <= i as real / d as real <= j as real / d as real
    ensures d as real / d as real == 1.0 && 0 as real / d as real == 0.0
  {
    assert j as real / d as real - i as real / d as real == (j - i) as real / d as real;
  }

  /** Every point of the trace lies within [minY, maxY], whatever the samples and the scale. */
  lemma PointYWithin(minY: real, maxY: real, sample: int)
    requires ShortMin <= sample <= ShortMax && minY <= maxY
    ensures minY <= PointY(minY, maxY, sample) <= maxY
  {
    var t := (sample - ShortMin) as real / UShortMax as real;
    assert 0.0 <= t <= 1.0 by {
      assert t * UShortMax as real == (sample - ShortMin) as real;
    }
    LerpBetween(minY, maxY, t);
  }

  /** A larger sample is drawn further towards maxY. */
  lemma PointYMonotone(minY: real, maxY: real, a: int, b: int)
    requires a <= b && minY <= maxY
    ensures PointY(minY, maxY, a) <= PointY(minY, maxY, b)
  {
    var s := (a - ShortMin) as real / UShortMax as real;
    var t := (b - ShortMin) as real / UShortMax as real;
    assert s <= t by {
      assert t - s == (b - a) as real / UShortMax as real;
    }
    LerpMonotone(minY, maxY, s, t);
  }

  /** With a non-negative window the shown samples move forward through the buffer from point to point. */
  lemma SampleIndexMonotone(n: int, anchor: int, windowSize: int, i: int, j: int, oscLen: int)
    requires n > 0 && oscLen > 0 && windowSize >= 0 && 0 <= i <= j
    ensures SampleIndex(n, anchor, windowSize, i, oscLen) <= SampleIndex(n, anchor, windowSize, j, oscLen)
  {
    MulMonotone(i, j, windowSize);
    DivMonotone(i * windowSize, j * windowSize, oscLen);
  }

  lemma MulMonotone(i: int, j: int, w: int)
    requires 0 <= i <= j && w >= 0
    ensures 0 <= i * w <= j * w
  {
  }

  lemma DivMonotone(a: int, b: int, d: int)
    requires 0 <= a <= b && d > 0
    ensures CsDiv(a, d) <= CsDiv(b, d)
  {
    var p, q := a / d, b / d;
    assert a == p * d + a % d && b == q * d + b % d;
    if p > q {
      MulMonotone(q + 1, p, d);
    }
  }

  /**
    GenerateOscilloscope: the trace of `wav` around `position` written into the
    first two columns of `oscilloscope`, one row per point.
   */
  method GenerateOscilloscope(wav: array<short>, position: int, windowSize: int, maxLookback: int, scaleY: real,
                              minX: real, minY: real, maxX: real, maxY: real, oscilloscope: array2<real>)
    requires 0 <= position < wav.Length
    requires oscilloscope.Length0 >= 2 && oscilloscope.Length1 >= 2
    modifies oscilloscope
    ensures forall i :: 0 <= i < oscilloscope.Length0 ==>
      && oscilloscope[i, 0] == PointX(minX, maxX, i, oscilloscope.Length0)
      && oscilloscope[i, 1] == TraceY(wav[..], Anchor(wav[..], position, maxLookback), windowSize, scaleY, minY, maxY, i, oscilloscope.Length0)
    ensures forall i, j :: 0 <= i < oscilloscope.Length0 && 2 <= j < oscilloscope.Length1 ==> oscilloscope[i, j] == old(oscilloscope[i, j])
  {
    var anchor := FindCrossing(wav, position, maxLookback);
    var oscLen := oscilloscope.Length0;
    for i := 0 to oscLen
      invariant forall k :: 0 <= k < i ==>
        && oscilloscope[k, 0] == PointX(minX, maxX, k, oscLen)
        && oscilloscope[k, 1] == TraceY(wav[..], anchor, windowSize, scaleY, minY, maxY, k, oscLen)
      invariant forall k, j :: 0 <= k < oscLen && 2 <= j < oscilloscope.Length1 ==> oscilloscope[k, j] == old(oscilloscope[k, j])
    {
      var idx := Clamp(anchor - CsDiv(windowSize, 2) + CsDiv(i * windowSize, oscLen), 0, wav.Length - 1);
      var sample := Clamp(TruncToInt(wav[idx] as real * scaleY), ShortMin, ShortMax);
      var x := Lerp(minX, maxX, i as real / (oscLen - 1) as real);
      var y := Lerp(minY, maxY, (sample - ShortMin) as real / UShortMax as real);
      assert idx == SampleIndex(wav.Length, anchor, windowSize, i, oscLen);
      assert x == PointX(minX, maxX, i, oscLen);
      assert y == TraceY(wav[..], anchor, windowSize, scaleY, minY, maxY, i, oscLen);
      oscilloscope[i, 0] := x;
      oscilloscope[i, 1] := y;
    }
  }
}
