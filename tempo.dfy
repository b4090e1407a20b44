/**
  FamiTracker-tempo smoothing of the frame metadata (SmoothFamiTrackerTempo,
  VideoFile.cs). Under FamiTracker tempo a row lasts several frames, so the
  recorded `playNote` stays on the same value for a run of frames; the export
  spreads each run linearly over one row so that the piano roll scrolls
  smoothly: the i-th of the run's n frames gets `i / n` added to its note.

  Runs are maximal blocks of consecutive frames with the same pattern and the
  same note. The floating-point division is modelled on reals.
 */
module Tempo {
  import opened Metadata

  /** Two frames are on the same row: same pattern and same note. */
  predicate SameRow(a: FrameMetadata, b: FrameMetadata)
  {
    a.playPattern == b.playPattern && a.playNote == b.playNote
  }

  /** First frame of the run that holds frame `f`. */
  function RunStart(s: seq<FrameMetadata>, f: int): (a: int)
    requires 0 <= f < |s|
    ensures 0 <= a <= f
    decreases f
  {
    if f == 0 || !SameRow(s[f - 1], s[f]) then f else RunStart(s, f - 1)
  }

  /** One past the last frame of the run that holds frame `f`. */
  function RunEnd(s: seq<FrameMetadata>, f: int): (b: int)
    requires 0 <= f < |s|
    ensures f < b <= |s|
    decreases |s| - f
  {
    if f + 1 == |s| || !SameRow(s[f + 1], s[f]) then f + 1 else RunEnd(s, f + 1)
  }

  /** What the smoothing adds to frame `f`: its position in its run over the run's length. */
  function Offset(s: seq<FrameMetadata>, f: int): real
    requires 0 <= f < |s|
  {
    (f - RunStart(s, f)) as real / (RunEnd(s, f) - RunStart(s, f)) as real
  }

  /** Frame `f` after smoothing: only its note moves. */
  function Smoothed(s: seq<FrameMetadata>, f: int): FrameMetadata
    requires 0 <= f < |s|
  {
    s[f].(playNote := s[f].playNote + Offset(s, f))
  }

  /** Smoothing moves a frame's note up by less than one row and changes nothing else. */
  lemma SmoothedMovesNoteOnly(s: seq<FrameMetadata>, f: int)
    requires 0 <= f < |s|
    ensures var m := Smoothed(s, f);
      && m == s[f].(playNote := m.playNote)
      && s[f].playNote <= m.playNote < s[f].playNote + 1.0
      && (m.playNote == s[f].playNote <==> RunStart(s, f) == f)
  {
    OffsetInUnitInterval(s, f);
  }

  /** The offset lies in [0, 1) and is 0 exactly on the first frame of a run. */
  lemma OffsetInUnitInterval(s: seq<FrameMetadata>, f: int)
    requires 0 <= f < |s|
    ensures 0.0 <= Offset(s, f) < 1.0
    ensures Offset(s, f) == 0.0 <==> RunStart(s, f) == f
  {
    var a, b := RunStart(s, f), RunEnd(s, f);
    var num, den := (f - a) as real, (b - a) as real;
    assert 0.0 <= num < den;
    assert num / den < 1.0 by {
      assert num / den * den == num;
    }
    if num / den == 0.0 {
      assert num == num / den * den;
    }
  }

  /** A block [a, b) of frames on the row of frame a, bounded by other rows or the ends, is one run. */
  predicate IsRun(s: seq<FrameMetadata>, a: int, b: int)
  {
    && 0 <= a < b <= |s|
    && (a == 0 || !SameRow(s[a - 1], s[a]))
    && (forall g :: a <= g < b ==> SameRow(s[g], s[a]))
    && (b == |s| || !SameRow(s[b], s[a]))
  }

  lemma {:induction false} RunStartInRun(s: seq<FrameMetadata>, a: int, b: int, g: int)
    requires IsRun(s, a, b) && a <= g < b
    ensures RunStart(s, g) == a
    decreases g
  {
    if g > a {
      assert SameRow(s[g - 1], s[a]) && SameRow(s[g], s[a]);
      RunStartInRun(s, a, b, g - 1);
    }
  }

  lemma {:induction false} RunEndInRun(s: seq<FrameMetadata>, a: int, b: int, g: int)
    requires IsRun(s, a, b) && a <= g < b
    ensures RunEnd(s, g) == b
    decreases b - g
  {
    if g + 1 < b {
      assert SameRow(s[g + 1], s[a]) && SameRow(s[g], s[a]);
      RunEndInRun(s, a, b, g + 1);
    } else if g + 1 < |s| {
      assert SameRow(s[g], s[a]);
    }
  }

  /** Every frame's run is a run in the sense of IsRun: the runs partition the frames. */
  lemma {:induction false} RunsPartition(s: seq<FrameMetadata>, f: int)
    requires 0 <= f < |s|
    ensures IsRun(s, RunStart(s, f), RunEnd(s, f))
  {
    var a := RunStart(s, f);
    RowsBefore(s, f);
    RowsAfter(s, f);
  }

  lemma {:induction false} RowsBefore(s: seq<FrameMetadata>, f: int)
    requires 0 <= f < |s|
    ensures var a := RunStart(s, f);
      && (a == 0 || !SameRow(s[a - 1], s[a]))
      && forall g :: a <= g <= f ==> SameRow(s[g], s[f])
    decreases f
  {
    if f > 0 && SameRow(s[f - 1], s[f]) {
      RowsBefore(s, f - 1);
    }
  }

  lemma {:induction false} RowsAfter(s: seq<FrameMetadata>, f: int)
    requires 0 <= f < |s|
    ensures var b := RunEnd(s, f);
      && (b == |s| || !SameRow(s[b], s[f]))
      && forall g :: f <= g < b ==> SameRow(s[g], s[f])
    decreases |s| - f
  {
    if f + 1 < |s| && SameRow(s[f + 1], s[f]) {
      RowsAfter(s, f + 1);
    }
  }

  /** Inside a run the smoothed notes strictly increase, and the whole run stays within one row of its note. */
  lemma SmoothedIncreasesInRun(s: seq<FrameMetadata>, a: int, b: int, f: int, g: int)
    requires IsRun(s, a, b) && a <= f < g < b
    ensures Smoothed(s, f).playNote < Smoothed(s, g).playNote < s[f].playNote + 1.0
  {
    RunStartInRun(s, a, b, f);
    RunEndInRun(s, a, b, f);
    RunStartInRun(s, a, b, g);
    RunEndInRun(s, a, b, g);
    assert SameRow(s[f], s[a]) && SameRow(s[g], s[a]);
    DivIncreasing((f - a) as real, (g - a) as real, (b - a) as real);
    SmoothedMovesNoteOnly(s, g);
  }

  lemma DivIncreasing(x: real, y: real, d: real)
    requires x < y && 0.0 < d
    ensures x / d < y / d
  {
    assert y / d - x / d == (y - x) / d;
  }

  /** A frame on an integer note keeps that note as the floor of its smoothed value. */
  lemma SmoothedKeepsRow(s: seq<FrameMetadata>, f: int, row: int)
    requires 0 <= f < |s| && s[f].playNote == row as real
    ensures Smoothed(s, f).playNote.Floor == row
  {
    SmoothedMovesNoteOnly(s, f);
  }

  /**
    SmoothFamiTrackerTempo: walks the frames one run at a time, finds where the
    row changes, then adds i / n to the i-th of the run's n frames.
   */
  method SmoothFamiTrackerTempo(frames: array<FrameMetadata>)
    modifies frames
    ensures forall f :: 0 <= f < frames.Length ==> frames[f] == Smoothed(old(frames[..]), f)
  {
    ghost var s := frames[..];
    var numFrames := frames.Length;
    var f := 0;
    while f < numFrames
      invariant 0 <= f <= numFrames
      invariant f < numFrames ==> f == 0 || !SameRow(s[f - 1], s[f])
      invariant forall g :: 0 <= g < f ==> frames[g] == Smoothed(s, g)
      invariant forall g :: f <= g < numFrames ==> frames[g] == s[g]
      decreases numFrames - f
    {
      var nf := FindRowEnd(frames, f);
      assert IsRun(s, f, nf);
      SmoothRun(frames, f, nf, s);
      f := nf;
    }
  }

  /** The inner search: the first frame after `f` on another row, or the end. */
  method FindRowEnd(frames: array<FrameMetadata>, f: int) returns (nf: int)
    requires 0 <= f < frames.Length
    ensures f < nf <= frames.Length
    ensures forall g :: f <= g < nf ==> SameRow(frames[g], frames[f])
    ensures nf == frames.Length || !SameRow(frames[nf], frames[f])
  {
    var thisFrame := frames[f];
    nf := f + 1;
    while nf < frames.Length
      invariant f < nf <= frames.Length
      invariant forall g :: f <= g < nf ==> SameRow(frames[g], thisFrame)
      decreases frames.Length - nf
    {
      var nextFrame := frames[nf];
      if nextFrame.playPattern != thisFrame.playPattern || nextFrame.playNote != thisFrame.playNote {
        break;
      }
      nf := nf + 1;
    }
  }

  /** The smoothing of one run [f, nf): frame f + i gets i / (nf - f) added. */
  method SmoothRun(frames: array<FrameMetadata>, f: int, nf: int, ghost s: seq<FrameMetadata>)
    requires |s| == frames.Length && IsRun(s, f, nf)
    requires forall g :: f <= g < nf ==> frames[g] == s[g]
    modifies frames
    ensures forall g :: f <= g < nf ==> frames[g] == Smoothed(s, g)
    ensures forall g :: 0 <= g < frames.Length && !(f <= g < nf) ==> frames[g] == old(frames[g])
  {
    var numFramesSameNote := nf - f;
    var i := 0;
    while i < numFramesSameNote
      invariant 0 <= i <= numFramesSameNote
      invariant forall g :: f <= g < f + i ==>
        frames[g] == s[g].(playNote := s[g].playNote + (g - f) as real / numFramesSameNote as real)
      invariant forall g :: f + i <= g < nf ==> frames[g] == s[g]
      invariant forall g :: 0 <= g < frames.Length && !(f <= g < nf) ==> frames[g] == old(frames[g])
      decreases numFramesSameNote - i
    {
      var frame := frames[f + i];
      frames[f + i] := frame.(playNote := frame.playNote + i as real / numFramesSameNote as real);
      i := i + 1;
    }
    forall g | f <= g < nf
      ensures frames[g] == Smoothed(s, g)
    {
      RunStartInRun(s, f, nf, g);
      RunEndInRun(s, f, nf, g);
    }
  }
}
