/**
  The piano-roll camera of a video export (VideoFile.ComputeChannelsScroll), as
  specification functions and lemmas. For one channel, the frames are cut into
  segments in which every sounding note fits the visible note range; segments
  that are too short are merged into a neighbour; each segment gets a scroll
  value centred on its notes and clamped to the keyboard; and every frame gets
  its segment's scroll, with a 16-frame eased transition into the next segment.

  Note.MusicalNoteMin, Note.MusicalNoteMax and Note.FromFriendlyName("C4")
  come from Note.cs, which is not part of this model: they are FamiStudio's
  note numbering (C0 = 1, 8 octaves, C4 = 49).
 */
module ScrollSegments {
  import opened Utils
  import opened Metadata

  const SegmentTransitionNumFrames: int := 16
  const ShortestAllowedSegment: int := 2 * SegmentTransitionNumFrames
  /** A segment started more than this many frames ago is closed at the next row 0 (~10 s at 60 Hz). */
  const ForcedBreakFrames: int := 600
  const MusicalNoteMin: int := 1
  const MusicalNoteMax: int := 96
  const NoteC4: int := 49

  /** A ScrollSegment: the frames [startFrame, endFrame), the note range they need, and the scroll chosen for them. */
  datatype ScrollSegment = ScrollSegment(startFrame: int, endFrame: int, minNote: int, maxNote: int, scroll: real)
  {
    function NumFrames(): int { endFrame - startFrame }
  }

  /** `new ScrollSegment()`: frame 0 and the empty note range (int.MaxValue, int.MinValue). */
  const Fresh: ScrollSegment := ScrollSegment(0, 0, IntMax, IntMin, 0.0)

  /** An inclusive note range [lo, hi]. */
  datatype Span = Span(lo: int, hi: int)

  function SpanWidth(s: Span): int { s.hi - s.lo + 1 }

  function NoteRange(seg: ScrollSegment): Span { Span(seg.minNote, seg.maxNote) }

  predicate Covers(seg: ScrollSegment, s: Span) { seg.minNote <= s.lo && s.hi <= seg.maxNote }

  /** A slide widens the range only when its distance is under half the visible notes. */
  predicate SlideApplies(note: Note, nv: nat)
  {
    note.isSlideNote && Abs(note.slideNoteTarget - note.value) < nv / 2
  }

  /** An arpeggio replaces the range only when its chord spread is under half the visible notes. */
  predicate ArpeggioApplies(note: Note, nv: nat)
  {
    note.isArpeggio && note.chord.Some? && note.chord.value.maxOffset - note.chord.value.minOffset < nv / 2
  }

  /** The notes one musical frame needs on screen, for `nv` visible notes. */
  function NoteSpan(note: Note, nv: nat): (s: Span)
    ensures ArpeggioApplies(note, nv) ==>
      s == Span(note.value + note.chord.value.minOffset, note.value + note.chord.value.maxOffset)
    ensures !ArpeggioApplies(note, nv) ==> s.lo < note.value < s.hi
    ensures !ArpeggioApplies(note, nv) && SlideApplies(note, nv) ==> s.lo < note.slideNoteTarget < s.hi
    ensures !ArpeggioApplies(note, nv) && !SlideApplies(note, nv) ==> SpanWidth(s) == 3
    ensures SpanWidth(s) <= Max(3, nv / 2 + 2)
    ensures -200 < s.lo && s.hi < 400
  {
    var v := note.value;
    var slid :=
      if SlideApplies(note, nv) then Span(Min(v, note.slideNoteTarget) - 1, Max(v, note.slideNoteTarget) + 1)
      else Span(v - 1, v + 1);
    if ArpeggioApplies(note, nv) then Span(v + note.chord.value.minOffset, v + note.chord.value.maxOffset)
    else slid
  }

  /** The current segment's range after taking in a frame's span. */
  function Widen(seg: ScrollSegment, s: Span): Span
  {
    Span(Min(seg.minNote, s.lo), Max(seg.maxNote, s.hi))
  }

  predicate ForcedBreak(playNote: real, f: int, cur: ScrollSegment)
  {
    playNote == 0.0 && f - cur.startFrame > ForcedBreakFrames
  }

  /** Whether musical frame `f` starts a new segment instead of widening `cur`. */
  predicate MustBreak(note: Note, playNote: real, f: int, cur: ScrollSegment, nv: nat)
  {
    ForcedBreak(playNote, f, cur) || SpanWidth(Widen(cur, NoteSpan(note, nv))) > nv
  }

  function Last(segs: seq<ScrollSegment>): ScrollSegment
    requires |segs| > 0
  {
    segs[|segs| - 1]
  }

  function SetLast(segs: seq<ScrollSegment>, seg: ScrollSegment): (r: seq<ScrollSegment>)
    requires |segs| > 0
    ensures |r| == |segs| && r[|r| - 1] == seg
    ensures forall i :: 0 <= i < |segs| - 1 ==> r[i] == segs[i]
  {
    segs[..|segs| - 1] + [seg]
  }

  /** The segment list with a current segment: a fresh one is added on the first musical frame. */
  function Open(segs: seq<ScrollSegment>): seq<ScrollSegment>
  {
    if segs == [] then [Fresh] else segs
  }

  /** Closes the current segment at frame `f` and starts a new one there with range `span`. */
  function CloseAndSeed(segs: seq<ScrollSegment>, f: int, span: Span): (r: seq<ScrollSegment>)
    requires |segs| > 0
    ensures |r| == |segs| + 1
    ensures forall i :: 0 <= i < |segs| - 1 ==> r[i] == segs[i]
    ensures r[|segs| - 1] == Last(segs).(endFrame := f)
    ensures r[|segs|] == ScrollSegment(f, 0, span.lo, span.hi, 0.0)
  {
    SetLast(segs, Last(segs).(endFrame := f)) + [ScrollSegment(f, 0, span.lo, span.hi, 0.0)]
  }

  /** Gives the current segment the range `w`. */
  function WidenLast(segs: seq<ScrollSegment>, w: Span): (r: seq<ScrollSegment>)
    requires |segs| > 0
    ensures |r| == |segs|
    ensures forall i :: 0 <= i < |segs| - 1 ==> r[i] == segs[i]
    ensures r[|segs| - 1] == Last(segs).(minNote := w.lo, maxNote := w.hi)
  {
    SetLast(segs, Last(segs).(minNote := w.lo, maxNote := w.hi))
  }

  /** One iteration of the segmentation loop, for frame `f`. */
  function AddFrame(segs: seq<ScrollSegment>, f: int, note: Note, playNote: real, nv: nat): seq<ScrollSegment>
  {
    if !note.isMusical then segs
    else
      var open := Open(segs);
      var cur := Last(open);
      var span := NoteSpan(note, nv);
      if MustBreak(note, playNote, f, cur, nv) then CloseAndSeed(open, f, span)
      else WidenLast(open, Widen(cur, span))
  }

  /** The segment list after the loop has seen frames [0, k). */
  function SegmentsUpTo(notes: seq<Note>, playNotes: seq<real>, nv: nat, k: nat): seq<ScrollSegment>
    requires k <= |notes| == |playNotes|
  {
    if k == 0 then []
    else AddFrame(SegmentsUpTo(notes, playNotes, nv, k - 1), k - 1, notes[k - 1], playNotes[k - 1], nv)
  }

  /** The segments of one channel, before merging: a single C4 segment when nothing plays. */
  function Segmentation(notes: seq<Note>, playNotes: seq<real>, nv: nat): (r: seq<ScrollSegment>)
    requires |notes| == |playNotes|
    ensures Tiles(r, |notes|)
  {
    var segs := SegmentsUpTo(notes, playNotes, nv, |notes|);
    SegmentsUpToBuilt(notes, playNotes, nv, |notes|);
    var open := if segs == [] then [ScrollSegment(0, 0, NoteC4, NoteC4, 0.0)] else segs;
    SetLast(open, Last(open).(endFrame := |notes|))
  }

  /** The segments are contiguous, non-negative in length and cover [0, n). */
  ghost predicate Tiles(segs: seq<ScrollSegment>, n: int)
  {
    && |segs| > 0
    && segs[0].startFrame == 0
    && segs[|segs| - 1].endFrame == n
    && (forall i :: 0 <= i < |segs| ==> segs[i].startFrame <= segs[i].endFrame)
    && (forall i, j :: 0 <= i && j == i + 1 && j < |segs| ==> segs[i].endFrame == segs[j].startFrame)
  }

  // ---------------------------------------------------------------------------
  // What the segmentation loop maintains after frames [0, k). The last segment
  // is still open; its frames run up to k.

  function End(segs: seq<ScrollSegment>, i: int, k: int): int
    requires 0 <= i < |segs|
  {
    if i == |segs| - 1 then k else segs[i].endFrame
  }

  ghost predicate Silent(notes: seq<Note>, a: int, b: int)
  {
    forall f :: a <= f < b && 0 <= f < |notes| ==> !notes[f].isMusical
  }

  ghost predicate Chained(segs: seq<ScrollSegment>, k: int)
  {
    |segs| > 0 ==>
      && segs[0].startFrame == 0
      && (forall i, j :: 0 <= i && j == i + 1 && j < |segs| ==> segs[i].endFrame == segs[j].startFrame)
      && (forall i :: 0 <= i < |segs| ==> segs[i].startFrame <= End(segs, i, k))
  }

  /** Every musical frame of a segment has its span inside the segment's range. */
  ghost predicate CoversFrames(notes: seq<Note>, nv: nat, segs: seq<ScrollSegment>, k: int)
  {
    forall i, f :: 0 <= i < |segs| && segs[i].startFrame <= f < End(segs, i, k) && 0 <= f < |notes| && notes[f].isMusical
      ==> Covers(segs[i], NoteSpan(notes[f], nv))
  }

  /**
    Every segment's range fits the visible notes, except a segment holding a
    single musical frame (its first) whose own span is already too wide.
   */
  ghost predicate Fits(notes: seq<Note>, nv: nat, segs: seq<ScrollSegment>, k: int)
  {
    forall i :: 0 <= i < |segs| ==>
      || SpanWidth(NoteRange(segs[i])) <= nv
      || (&& 0 <= segs[i].startFrame < |notes|
          && NoteRange(segs[i]) == NoteSpan(notes[segs[i].startFrame], nv)
          && Silent(notes, segs[i].startFrame + 1, End(segs, i, k)))
  }

  /** A segment after the first starts at a musical frame that the previous segment could not take in. */
  ghost predicate BreaksJustified(notes: seq<Note>, playNotes: seq<real>, nv: nat, segs: seq<ScrollSegment>)
    requires |notes| == |playNotes|
  {
    forall i :: 1 <= i < |segs| ==>
      && 0 <= segs[i].startFrame < |notes|
      && notes[segs[i].startFrame].isMusical
      && MustBreak(notes[segs[i].startFrame], playNotes[segs[i].startFrame], segs[i].startFrame, segs[i - 1], nv)
  }

  /** The segment list's shape after frames [0, k), whether or not a segment has been opened yet. */
  ghost predicate Shaped(notes: seq<Note>, playNotes: seq<real>, nv: nat, segs: seq<ScrollSegment>, k: int)
    requires |notes| == |playNotes|
  {
    && Chained(segs, k)
    && CoversFrames(notes, nv, segs, k)
    && Fits(notes, nv, segs, k)
    && BreaksJustified(notes, playNotes, nv, segs)
  }

  /** The segmentation loop's invariant: a segment exists once a musical frame has been seen. */
  ghost predicate Built(notes: seq<Note>, playNotes: seq<real>, nv: nat, segs: seq<ScrollSegment>, k: int)
    requires |notes| == |playNotes|
  {
    (segs == [] <==> Silent(notes, 0, k)) && Shaped(notes, playNotes, nv, segs, k)
  }

  lemma OpenShaped(notes: seq<Note>, playNotes: seq<real>, nv: nat, segs: seq<ScrollSegment>, k: nat)
    requires |notes| == |playNotes| && Built(notes, playNotes, nv, segs, k)
    ensures Shaped(notes, playNotes, nv, Open(segs), k)
  {
  }

  lemma SkipKeepsBuilt(notes: seq<Note>, playNotes: seq<real>, nv: nat, segs: seq<ScrollSegment>, k: nat)
    requires k < |notes| == |playNotes| && !notes[k].isMusical
    requires Built(notes, playNotes, nv, segs, k)
    ensures Built(notes, playNotes, nv, segs, k + 1)
  {
    forall i, f | 0 <= i < |segs| && segs[i].startFrame <= f < End(segs, i, k + 1) && 0 <= f < |notes| && notes[f].isMusical
      ensures Covers(segs[i], NoteSpan(notes[f], nv))
    {
      assert f < End(segs, i, k);
    }
  }

  lemma ExtendKeepsCovers(notes: seq<Note>, nv: nat, segs: seq<ScrollSegment>, k: nat)
    requires k < |notes| && notes[k].isMusical && |segs| > 0
    requires CoversFrames(notes, nv, segs, k)
    ensures CoversFrames(notes, nv, WidenLast(segs, Widen(Last(segs), NoteSpan(notes[k], nv))), k + 1)
  {
    var r := WidenLast(segs, Widen(Last(segs), NoteSpan(notes[k], nv)));
    var L := |segs| - 1;
    forall i, f | 0 <= i < |r| && r[i].startFrame <= f < End(r, i, k + 1) && 0 <= f < |notes| && notes[f].isMusical
      ensures Covers(r[i], NoteSpan(notes[f], nv))
    {
      if i < L {
        assert r[i] == segs[i] && End(r, i, k + 1) == End(segs, i, k);
        assert Covers(segs[i], NoteSpan(notes[f], nv));
      } else if f < k {
        assert Covers(segs[i], NoteSpan(notes[f], nv));
      }
    }
  }

  lemma ExtendKeepsFits(notes: seq<Note>, playNotes: seq<real>, nv: nat, segs: seq<ScrollSegment>, k: nat)
    requires k < |notes| == |playNotes| && notes[k].isMusical && |segs| > 0
    requires Fits(notes, nv, segs, k)
    requires !MustBreak(notes[k], playNotes[k], k, Last(segs), nv)
    ensures Fits(notes, nv, WidenLast(segs, Widen(Last(segs), NoteSpan(notes[k], nv))), k + 1)
  {
    var r := WidenLast(segs, Widen(Last(segs), NoteSpan(notes[k], nv)));
    forall i | 0 <= i < |r| - 1
      ensures r[i] == segs[i] && End(r, i, k + 1) == End(segs, i, k)
    {
    }
  }

  lemma ExtendKeepsBreaks(notes: seq<Note>, playNotes: seq<real>, nv: nat, segs: seq<ScrollSegment>, k: nat)
    requires k < |notes| == |playNotes| && notes[k].isMusical && |segs| > 0
    requires BreaksJustified(notes, playNotes, nv, segs)
    ensures BreaksJustified(notes, playNotes, nv, WidenLast(segs, Widen(Last(segs), NoteSpan(notes[k], nv))))
  {
    var r := WidenLast(segs, Widen(Last(segs), NoteSpan(notes[k], nv)));
    assert r[|r| - 1].startFrame == Last(segs).startFrame;
  }

  lemma ExtendKeepsShaped(notes: seq<Note>, playNotes: seq<real>, nv: nat, segs: seq<ScrollSegment>, k: nat)
    requires k < |notes| == |playNotes| && notes[k].isMusical && |segs| > 0
    requires Shaped(notes, playNotes, nv, segs, k)
    requires !MustBreak(notes[k], playNotes[k], k, Last(segs), nv)
    ensures Shaped(notes, playNotes, nv, WidenLast(segs, Widen(Last(segs), NoteSpan(notes[k], nv))), k + 1)
  {
    var r := WidenLast(segs, Widen(Last(segs), NoteSpan(notes[k], nv)));
    assert forall i :: 0 <= i < |r| - 1 ==> r[i] == segs[i] && End(r, i, k + 1) == End(segs, i, k);
    ExtendKeepsCovers(notes, nv, segs, k);
    ExtendKeepsFits(notes, playNotes, nv, segs, k);
    ExtendKeepsBreaks(notes, playNotes, nv, segs, k);
  }

  lemma BreakKeepsChained(segs: seq<ScrollSegment>, k: nat, span: Span)
    requires |segs| > 0 && Chained(segs, k)
    ensures Chained(CloseAndSeed(segs, k, span), k + 1)
  {
    var r := CloseAndSeed(segs, k, span);
    var L := |segs| - 1;
    forall i | 0 <= i < |r| - 1 ensures r[i].endFrame == r[i + 1].startFrame {
      if i < L - 1 {
        assert r[i] == segs[i] && r[i + 1] == segs[i + 1];
      } else if i == L - 1 {
        assert r[i] == segs[i] && r[i + 1].startFrame == segs[i + 1].startFrame;
      }
    }
    forall i | 0 <= i < |r| ensures r[i].startFrame <= End(r, i, k + 1) {
      if i < L {
        assert r[i] == segs[i] && End(r, i, k + 1) == End(segs, i, k);
      } else if i == L {
        assert segs[i].startFrame <= End(segs, i, k);
      }
    }
  }

  lemma BreakKeepsCovers(notes: seq<Note>, nv: nat, segs: seq<ScrollSegment>, k: nat)
    requires k < |notes| && |segs| > 0
    requires CoversFrames(notes, nv, segs, k)
    ensures CoversFrames(notes, nv, CloseAndSeed(segs, k, NoteSpan(notes[k], nv)), k + 1)
  {
    var r := CloseAndSeed(segs, k, NoteSpan(notes[k], nv));
    var L := |segs| - 1;
    forall i, f | 0 <= i < |r| && r[i].startFrame <= f < End(r, i, k + 1) && 0 <= f < |notes| && notes[f].isMusical
      ensures Covers(r[i], NoteSpan(notes[f], nv))
    {
      if i < L {
        assert r[i] == segs[i] && End(r, i, k + 1) == End(segs, i, k);
        assert Covers(segs[i], NoteSpan(notes[f], nv));
      } else if i == L {
        assert End(r, i, k + 1) == End(segs, i, k);
        assert Covers(segs[i], NoteSpan(notes[f], nv));
      }
    }
  }

  lemma BreakKeepsFits(notes: seq<Note>, nv: nat, segs: seq<ScrollSegment>, k: nat)
    requires k < |notes| && |segs| > 0
    requires Fits(notes, nv, segs, k)
    ensures Fits(notes, nv, CloseAndSeed(segs, k, NoteSpan(notes[k], nv)), k + 1)
  {
    var r := CloseAndSeed(segs, k, NoteSpan(notes[k], nv));
    var L := |segs| - 1;
    forall i | 0 <= i <= L
      ensures NoteRange(r[i]) == NoteRange(segs[i]) && r[i].startFrame == segs[i].startFrame
      ensures End(r, i, k + 1) == End(segs, i, k)
    {
    }
  }

  lemma BreakKeepsBreaks(notes: seq<Note>, playNotes: seq<real>, nv: nat, segs: seq<ScrollSegment>, k: nat)
    requires k < |notes| == |playNotes| && notes[k].isMusical && |segs| > 0
    requires BreaksJustified(notes, playNotes, nv, segs)
    requires MustBreak(notes[k], playNotes[k], k, Last(segs), nv)
    ensures BreaksJustified(notes, playNotes, nv, CloseAndSeed(segs, k, NoteSpan(notes[k], nv)))
  {
    var span := NoteSpan(notes[k], nv);
    var r := CloseAndSeed(segs, k, span);
    var L := |segs| - 1;
    forall i | 1 <= i < |r|
      ensures && 0 <= r[i].startFrame < |notes|
              && notes[r[i].startFrame].isMusical
              && MustBreak(notes[r[i].startFrame], playNotes[r[i].startFrame], r[i].startFrame, r[i - 1], nv)
    {
      if i == L + 1 {
        assert Widen(r[i - 1], span) == Widen(Last(segs), span);
      } else {
        assert r[i].startFrame == segs[i].startFrame && r[i - 1] == segs[i - 1];
      }
    }
  }

  lemma BreakKeepsShaped(notes: seq<Note>, playNotes: seq<real>, nv: nat, segs: seq<ScrollSegment>, k: nat)
    requires k < |notes| == |playNotes| && notes[k].isMusical && |segs| > 0
    requires Shaped(notes, playNotes, nv, segs, k)
    requires MustBreak(notes[k], playNotes[k], k, Last(segs), nv)
    ensures Shaped(notes, playNotes, nv, CloseAndSeed(segs, k, NoteSpan(notes[k], nv)), k + 1)
  {
    BreakKeepsChained(segs, k, NoteSpan(notes[k], nv));
    BreakKeepsCovers(notes, nv, segs, k);
    BreakKeepsFits(notes, nv, segs, k);
    BreakKeepsBreaks(notes, playNotes, nv, segs, k);
  }

  lemma AddFrameKeepsBuilt(notes: seq<Note>, playNotes: seq<real>, nv: nat, segs: seq<ScrollSegment>, k: nat)
    requires k < |notes| == |playNotes|
    requires Built(notes, playNotes, nv, segs, k)
    ensures Built(notes, playNotes, nv, AddFrame(segs, k, notes[k], playNotes[k], nv), k + 1)
  {
    if !notes[k].isMusical {
      SkipKeepsBuilt(notes, playNotes, nv, segs, k);
    } else {
      var open := Open(segs);
      OpenShaped(notes, playNotes, nv, segs, k);
      if MustBreak(notes[k], playNotes[k], k, Last(open), nv) {
        BreakKeepsShaped(notes, playNotes, nv, open, k);
      } else {
        ExtendKeepsShaped(notes, playNotes, nv, open, k);
      }
      assert !Silent(notes, 0, k + 1) by {
        assert notes[k].isMusical;
      }
    }
  }

  lemma {:induction false} SegmentsUpToBuilt(notes: seq<Note>, playNotes: seq<real>, nv: nat, k: nat)
    requires k <= |notes| == |playNotes|
    ensures Built(notes, playNotes, nv, SegmentsUpTo(notes, playNotes, nv, k), k)
  {
    if k > 0 {
      SegmentsUpToBuilt(notes, playNotes, nv, k - 1);
      AddFrameKeepsBuilt(notes, playNotes, nv, SegmentsUpTo(notes, playNotes, nv, k - 1), k - 1);
    }
  }

  /**
    The segmentation of a channel tiles the frames. A silent channel gets one
    C4 segment. Otherwise every musical frame's span lies within its segment's
    range, every range fits the visible notes (except a lone frame whose own
    span is wider), and every segment after the first starts at a musical frame
    that either came at row 0 more than 600 frames into the previous segment or
    did not fit that segment's range.
   */
  lemma SegmentationSpec(notes: seq<Note>, playNotes: seq<real>, nv: nat)
    requires |notes| == |playNotes|
    ensures var r := Segmentation(notes, playNotes, nv);
      && Tiles(r, |notes|)
      && (Silent(notes, 0, |notes|) ==> r == [ScrollSegment(0, |notes|, NoteC4, NoteC4, 0.0)])
      && (!Silent(notes, 0, |notes|) ==>
            && (forall i, f :: 0 <= i < |r| && r[i].startFrame <= f < r[i].endFrame && 0 <= f < |notes| && notes[f].isMusical
                  ==> Covers(r[i], NoteSpan(notes[f], nv)))
            && Fits(notes, nv, r, |notes|)
            && BreaksJustified(notes, playNotes, nv, r))
  {
    var segs := SegmentsUpTo(notes, playNotes, nv, |notes|);
    SegmentsUpToBuilt(notes, playNotes, nv, |notes|);
    if !Silent(notes, 0, |notes|) {
      FinalizeKeepsBuilt(notes, playNotes, nv, segs);
    }
  }

  /** Closing the last segment at the end of the song keeps what the loop established. */
  lemma FinalizeKeepsBuilt(notes: seq<Note>, playNotes: seq<real>, nv: nat, segs: seq<ScrollSegment>)
    requires |notes| == |playNotes| && |segs| > 0
    requires Built(notes, playNotes, nv, segs, |notes|)
    ensures var r := SetLast(segs, Last(segs).(endFrame := |notes|));
      && (forall i, f :: 0 <= i < |r| && r[i].startFrame <= f < r[i].endFrame && 0 <= f < |notes| && notes[f].isMusical
            ==> Covers(r[i], NoteSpan(notes[f], nv)))
      && Fits(notes, nv, r, |notes|)
      && BreaksJustified(notes, playNotes, nv, r)
  {
    var n := |notes|;
    var r := SetLast(segs, Last(segs).(endFrame := n));
    forall i | 0 <= i < |r|
      ensures NoteRange(r[i]) == NoteRange(segs[i]) && r[i].startFrame == segs[i].startFrame
      ensures r[i].endFrame == End(segs, i, n) && End(r, i, n) == End(segs, i, n)
    {
    }
    forall i, f | 0 <= i < |r| && r[i].startFrame <= f < r[i].endFrame && 0 <= f < n && notes[f].isMusical
      ensures Covers(r[i], NoteSpan(notes[f], nv))
    {
      assert Covers(segs[i], NoteSpan(notes[f], nv));
    }
    forall i | 1 <= i < |r|
      ensures MustBreak(notes[r[i].startFrame], playNotes[r[i].startFrame], r[i].startFrame, r[i - 1], nv)
    {
      assert Widen(r[i - 1], NoteSpan(notes[r[i].startFrame], nv)) == Widen(segs[i - 1], NoteSpan(notes[r[i].startFrame], nv));
    }
  }

  // ---------------------------------------------------------------------------
  // Merging short segments.

  /** Index of the shortest segment; among equally short ones, the first. */
  function ShortestIndex(segs: seq<ScrollSegment>): (k: nat)
    requires |segs| > 0
    ensures k < |segs|
    ensures forall i :: 0 <= i < |segs| ==> segs[k].NumFrames() <= segs[i].NumFrames()
    ensures forall i :: 0 <= i < k ==> segs[i].NumFrames() > segs[k].NumFrames()
  {
    if |segs| == 1 then 0
    else
      var k := ShortestIndex(segs[..|segs| - 1]);
      if segs[|segs| - 1].NumFrames() < segs[k].NumFrames() then |segs| - 1 else k
  }

  /**
    The neighbour segment `k` is merged into: the previous one, unless the
    next one exists and is strictly longer (a missing previous counts as -1
    frames); -1 when there is neither.
   */
  function MergeTarget(segs: seq<ScrollSegment>, k: int): (t: int)
    requires 0 <= k < |segs|
    ensures t == -1 || t == k - 1 || t == k + 1
    ensures t == k + 1 <==> k < |segs| - 1 && segs[k + 1].NumFrames() > (if k > 0 then segs[k - 1].NumFrames() else -1)
    ensures t == -1 <==> k == 0 && (k == |segs| - 1 || segs[k + 1].NumFrames() <= -1)
  {
    var prevIndex := if k > 0 then k - 1 else -1;
    var prevLength := if k > 0 then segs[k - 1].NumFrames() else -1;
    if k != |segs| - 1 && segs[k + 1].NumFrames() > prevLength then k + 1 else prevIndex
  }

  function RemoveAt(segs: seq<ScrollSegment>, k: int): seq<ScrollSegment>
    requires 0 <= k < |segs|
  {
    segs[..k] + segs[k + 1..]
  }

  /**
    One merge: segment `k` is removed and its neighbour takes over its frames;
    the neighbour keeps its note range. The list still tiles the frames.
   */
  function MergeInto(segs: seq<ScrollSegment>, k: int, n: int): (r: seq<ScrollSegment>)
    requires Tiles(segs, n) && |segs| >= 2 && 0 <= k < |segs|
    ensures |r| == |segs| - 1 && Tiles(r, n)
    ensures MergeTarget(segs, k) == k - 1 ==>
      r == segs[..k - 1] + [segs[k - 1].(endFrame := segs[k].endFrame)] + segs[k + 1..]
    ensures MergeTarget(segs, k) == k + 1 ==>
      r == segs[..k] + [segs[k + 1].(startFrame := segs[k].startFrame)] + segs[k + 2..]
  {
    var t := MergeTarget(segs, k);
    var seg := segs[k];
    var m := segs[t];
    var merged := m.(startFrame := Min(m.startFrame, seg.startFrame), endFrame := Max(m.endFrame, seg.endFrame));
    var r := RemoveAt(segs[t := merged], k);
    MergeShape(segs, k, n, t, merged, r);
    r
  }

  lemma MergeShape(segs: seq<ScrollSegment>, k: int, n: int, t: int, merged: ScrollSegment, r: seq<ScrollSegment>)
    requires Tiles(segs, n) && |segs| >= 2 && 0 <= k < |segs|
    requires t == MergeTarget(segs, k) && 0 <= t < |segs|
    requires merged == segs[t].(startFrame := Min(segs[t].startFrame, segs[k].startFrame),
                                endFrame := Max(segs[t].endFrame, segs[k].endFrame))
    requires r == RemoveAt(segs[t := merged], k)
    ensures |r| == |segs| - 1 && Tiles(r, n)
    ensures t == k - 1 ==> r == segs[..k - 1] + [segs[k - 1].(endFrame := segs[k].endFrame)] + segs[k + 1..]
    ensures t == k + 1 ==> r == segs[..k] + [segs[k + 1].(startFrame := segs[k].startFrame)] + segs[k + 2..]
  {
    if t == k - 1 {
      assert segs[k - 1].endFrame == segs[k].startFrame;
      assert merged == segs[k - 1].(endFrame := segs[k].endFrame);
      MergeIntoPrevious(segs, k, n, r);
    } else {
      assert segs[k].endFrame == segs[k + 1].startFrame;
      assert merged == segs[k + 1].(startFrame := segs[k].startFrame);
      MergeIntoNext(segs, k, n, r);
    }
  }

  lemma MergeIntoPrevious(segs: seq<ScrollSegment>, k: int, n: int, r: seq<ScrollSegment>)
    requires Tiles(segs, n) && 1 <= k < |segs|
    requires r == RemoveAt(segs[k - 1 := segs[k - 1].(endFrame := segs[k].endFrame)], k)
    ensures |r| == |segs| - 1 && Tiles(r, n)
    ensures r == segs[..k - 1] + [segs[k - 1].(endFrame := segs[k].endFrame)] + segs[k + 1..]
  {
    var x := segs[k - 1].(endFrame := segs[k].endFrame);
    assert r == segs[..k - 1] + [x] + segs[k + 1..];
    assert forall i :: 0 <= i < k - 1 ==> r[i] == segs[i];
    assert forall i :: k <= i < |r| ==> r[i] == segs[i + 1];
    forall i | 0 <= i < |r| - 1 ensures r[i].endFrame == r[i + 1].startFrame {
      if i < k - 1 {
        assert r[i + 1].startFrame == segs[i + 1].startFrame;
      }
    }
    assert segs[k - 1].startFrame <= segs[k - 1].endFrame == segs[k].startFrame <= segs[k].endFrame;
  }

  lemma MergeIntoNext(segs: seq<ScrollSegment>, k: int, n: int, r: seq<ScrollSegment>)
    requires Tiles(segs, n) && 0 <= k < |segs| - 1
    requires r == RemoveAt(segs[k + 1 := segs[k + 1].(startFrame := segs[k].startFrame)], k)
    ensures |r| == |segs| - 1 && Tiles(r, n)
    ensures r == segs[..k] + [segs[k + 1].(startFrame := segs[k].startFrame)] + segs[k + 2..]
  {
    var x := segs[k + 1].(startFrame := segs[k].startFrame);
    assert r == segs[..k] + [x] + segs[k + 2..];
    assert forall i :: 0 <= i < k ==> r[i] == segs[i];
    assert forall i :: k < i < |r| ==> r[i] == segs[i + 1];
    forall i | 0 <= i < |r| - 1 ensures r[i].endFrame == r[i + 1].startFrame {
      if i == k - 1 {
        assert r[i + 1].startFrame == segs[k].startFrame;
      }
    }
    assert segs[k].startFrame <= segs[k].endFrame == segs[k + 1].startFrame <= segs[k + 1].endFrame;
  }

  /**
    The merge loop, as it is meant to work: while there are two segments or
    more and the shortest is under 32 frames, merge the shortest into its
    neighbour. What is left is one segment, or segments of 32 frames or more.
   */
  function MergeAll(segs: seq<ScrollSegment>, n: int): (r: seq<ScrollSegment>)
    requires Tiles(segs, n)
    ensures Tiles(r, n) && |r| <= |segs|
    ensures |r| == 1 || forall i :: 0 <= i < |r| ==> r[i].NumFrames() >= ShortestAllowedSegment
    ensures (forall i :: 0 <= i < |segs| ==> segs[i].NumFrames() >= ShortestAllowedSegment) ==> r == segs
    decreases |segs|
  {
    if |segs| <= 1 then segs
    else
      var k := ShortestIndex(segs);
      if segs[k].NumFrames() >= ShortestAllowedSegment then segs
      else
        var merged := MergeInto(segs, k, n);
        assert |merged| < |segs| && Tiles(merged, n);
        assert !(segs[k].NumFrames() >= ShortestAllowedSegment);
        MergeAll(merged, n)
  }

  /** Some segment of `segs` has the note range `x`. */
  ghost predicate HasRange(segs: seq<ScrollSegment>, x: Span)
  {
    exists j :: 0 <= j < |segs| && NoteRange(segs[j]) == x
  }

  /** Every range in `r` is the range of some segment in `segs`. */
  ghost predicate RangesFrom(r: seq<ScrollSegment>, segs: seq<ScrollSegment>)
  {
    forall i :: 0 <= i < |r| ==> HasRange(segs, NoteRange(r[i]))
  }

  /** After one merge, segment `i` has the range of the segment it was (the merged one is gone). */
  lemma MergeIntoKeepsRanges(segs: seq<ScrollSegment>, k: int, n: int, i: int)
    requires Tiles(segs, n) && |segs| >= 2 && 0 <= k < |segs| && 0 <= i < |segs| - 1
    ensures NoteRange(MergeInto(segs, k, n)[i]) == NoteRange(segs[if i < k then i else i + 1])
  {
    var r := MergeInto(segs, k, n);
    if MergeTarget(segs, k) == k - 1 {
      if i < k - 1 {
        assert r[i] == segs[i];
      } else if i >= k {
        assert r[i] == segs[i + 1];
      }
    } else {
      if i < k {
        assert r[i] == segs[i];
      } else if i > k {
        assert r[i] == segs[i + 1];
      }
    }
  }

  /** Merging never invents a note range: each surviving segment keeps one of the original ranges. */
  lemma {:induction false} MergeAllKeepsRanges(segs: seq<ScrollSegment>, n: int)
    requires Tiles(segs, n)
    ensures RangesFrom(MergeAll(segs, n), segs)
    decreases |segs|
  {
    var r := MergeAll(segs, n);
    if |segs| > 1 {
      var k := ShortestIndex(segs);
      if segs[k].NumFrames() < ShortestAllowedSegment {
        var m := MergeInto(segs, k, n);
        assert r == MergeAll(m, n);
        MergeAllKeepsRanges(m, n);
        forall i | 0 <= i < |r|
          ensures HasRange(segs, NoteRange(r[i]))
        {
          assert HasRange(m, NoteRange(r[i]));
          var j' :| 0 <= j' < |m| && NoteRange(m[j']) == NoteRange(r[i]);
          MergeIntoKeepsRanges(segs, k, n, j');
          var j := if j' < k then j' else j' + 1;
          assert NoteRange(segs[j]) == NoteRange(r[i]);
        }
      } else {
        assert r == segs;
        forall i | 0 <= i < |r|
          ensures HasRange(segs, NoteRange(r[i]))
        {
          assert NoteRange(segs[i]) == NoteRange(r[i]);
        }
      }
    } else {
      assert r == segs;
      forall i | 0 <= i < |r|
        ensures HasRange(segs, NoteRange(r[i]))
      {
        assert NoteRange(segs[i]) == NoteRange(r[i]);
      }
    }
  }

  /** In a tiling of [0, n) each segment lies within [0, n). */
  lemma {:induction false} SegmentWithin(segs: seq<ScrollSegment>, n: int, i: int)
    requires Tiles(segs, n) && 0 <= i < |segs|
    ensures 0 <= segs[i].startFrame <= segs[i].endFrame <= n
    decreases |segs| - i
  {
    if i + 1 < |segs| {
      SegmentWithin(segs, n, i + 1);
    }
    StartsNonNegative(segs, n, i);
  }

  lemma {:induction false} StartsNonNegative(segs: seq<ScrollSegment>, n: int, i: int)
    requires Tiles(segs, n) && 0 <= i < |segs|
    ensures 0 <= segs[i].startFrame
  {
    if i > 0 {
      StartsNonNegative(segs, n, i - 1);
    }
  }

  // ---------------------------------------------------------------------------
  // Scroll values.

  /** Lowest scroll that keeps the bottom of the view on the keyboard: ceil(MusicalNoteMin + nv / 2). */
  function MinScroll(nv: nat): real
  {
    Ceil(MusicalNoteMin as real + nv as real * 0.5) as real
  }

  /** Highest scroll: floor(MusicalNoteMax - nv / 2). */
  function MaxScroll(nv: nat): real
  {
    (MusicalNoteMax as real - nv as real * 0.5).Floor as real
  }

  /** The centre of a segment's range (the width in 32-bit arithmetic), clamped to [MinScroll, MaxScroll]. */
  function SegmentScroll(seg: ScrollSegment, nv: nat): (r: real)
    ensures MinScroll(nv) <= MaxScroll(nv) ==> MinScroll(nv) <= r <= MaxScroll(nv)
  {
    ClampReal(seg.minNote as real + Wrap32(seg.maxNote - seg.minNote) as real * 0.5, MinScroll(nv), MaxScroll(nv))
  }

  function WithScrolls(segs: seq<ScrollSegment>, nv: nat): seq<ScrollSegment>
  {
    seq(|segs|, i requires 0 <= i < |segs| => segs[i].(scroll := SegmentScroll(segs[i], nv)))
  }

  /** Resolving scrolls changes no segment's frames or range. */
  lemma WithScrollsKeepsFrames(segs: seq<ScrollSegment>, n: int, nv: nat)
    requires Tiles(segs, n)
    ensures var r := WithScrolls(segs, nv);
      && |r| == |segs| && Tiles(r, n)
      && forall i :: 0 <= i < |r| ==> r[i] == segs[i].(scroll := r[i].scroll)
  {
    var r := WithScrolls(segs, nv);
    assert forall i :: 0 <= i < |r| ==> r[i].startFrame == segs[i].startFrame && r[i].endFrame == segs[i].endFrame;
  }

  /** The exporter's `Debug.Assert(maxScroll >= minScroll)` holds exactly when at most 94 notes are visible. */
  lemma ScrollBoundsOrdered(nv: nat)
    ensures MinScroll(nv) <= MaxScroll(nv) <==> nv <= 94
  {
    var m := nv / 2;
    if nv % 2 == 0 {
      assert nv as real * 0.5 == m as real;
      CeilOfInt(1 + m);
      FloorOfInt(96 - m);
    } else {
      assert nv as real * 0.5 == m as real + 0.5;
      CeilOfHalf(1 + m);
      FloorOfHalf(95 - m);
      assert MusicalNoteMax as real - (m as real + 0.5) == (95 - m) as real + 0.5;
    }
  }

  lemma CeilOfInt(i: int)
    ensures Ceil(i as real) == i
  {
  }

  lemma FloorOfInt(i: int)
    ensures (i as real).Floor == i
  {
  }

  lemma CeilOfHalf(i: int)
    ensures Ceil(i as real + 0.5) == i + 1
  {
  }

  lemma FloorOfHalf(i: int)
    ensures (i as real + 0.5).Floor == i
  {
  }

  /** With at most 94 visible notes, every segment's scroll lies within [MinScroll, MaxScroll]. */
  lemma SegmentScrollInBounds(seg: ScrollSegment, nv: nat)
    requires nv <= 94
    ensures MinScroll(nv) <= SegmentScroll(seg, nv) <= MaxScroll(nv)
  {
    ScrollBoundsOrdered(nv);
  }

  /**
    Unless clamped, the view centred on a segment's scroll shows all of the
    segment's range when the range fits the visible notes.
   */
  lemma ViewShowsSegment(seg: ScrollSegment, nv: nat)
    requires seg.minNote <= seg.maxNote && SpanWidth(NoteRange(seg)) <= nv <= 94
    requires MinScroll(nv) <= seg.minNote as real + (seg.maxNote - seg.minNote) as real * 0.5 <= MaxScroll(nv)
    ensures SegmentScroll(seg, nv) - nv as real * 0.5 <= seg.minNote as real
    ensures seg.maxNote as real <= SegmentScroll(seg, nv) + nv as real * 0.5
  {
    assert Wrap32(seg.maxNote - seg.minNote) == seg.maxNote - seg.minNote;
  }

  /** A segment that never saw a note (a silent opening closed by a forced break) scrolls to the top of the keyboard. */
  lemma EmptyRangeScrollsToTop(seg: ScrollSegment, nv: nat)
    requires NoteRange(seg) == NoteRange(Fresh) && nv <= 94
    ensures SegmentScroll(seg, nv) == MaxScroll(nv)
  {
    assert Wrap32(IntMin - IntMax) == 1;
    ScrollBoundsOrdered(nv);
  }

  // ---------------------------------------------------------------------------
  // Per-frame scroll.

  /**
    The scroll written for frame `f` of segment `i`: the segment's scroll, but
    over the last 16 frames before a following segment, an eased blend from
    this segment's scroll to the next one's.
   */
  function FrameScroll(segs: seq<ScrollSegment>, i: int, f: int): real
    requires 0 <= i < |segs|
  {
    if i == |segs| - 1 || f < segs[i].endFrame - SegmentTransitionNumFrames then segs[i].scroll
    else
      var a := f - (segs[i].endFrame - SegmentTransitionNumFrames);
      Lerp(segs[i].scroll, segs[i + 1].scroll, SmoothStep(a as real / SegmentTransitionNumFrames as real))
  }

  /**
    Within a transition, the scroll starts at the segment's own scroll and moves
    monotonically towards the next segment's, never passing it; the next
    segment's first frame (if it is at least 16 frames long or the last) has
    exactly the next segment's scroll.
   */
  lemma TransitionIsMonotone(segs: seq<ScrollSegment>, i: int, f: int, g: int)
    requires 0 <= i < |segs| - 1
    requires segs[i].endFrame - SegmentTransitionNumFrames <= f <= g < segs[i].endFrame
    ensures FrameScroll(segs, i, segs[i].endFrame - SegmentTransitionNumFrames) == segs[i].scroll
    ensures var s0, s1 := segs[i].scroll, segs[i + 1].scroll;
      && (s0 <= s1 ==> s0 <= FrameScroll(segs, i, f) <= FrameScroll(segs, i, g) <= s1)
      && (s1 <= s0 ==> s1 <= FrameScroll(segs, i, g) <= FrameScroll(segs, i, f) <= s0)
  {
    var base := segs[i].endFrame - SegmentTransitionNumFrames;
    var tf := (f - base) as real / 16.0;
    var tg := (g - base) as real / 16.0;
    assert 0.0 <= tf <= tg < 1.0;
    SmoothStepMonotone(tf, tg);
    SmoothStepMonotone(tg, 1.0);
    var s0, s1 := segs[i].scroll, segs[i + 1].scroll;
    LerpMonotone(s0, s1, SmoothStep(tf), SmoothStep(tg));
    LerpBetween(s0, s1, SmoothStep(tf));
    LerpBetween(s0, s1, SmoothStep(tg));
  }

  lemma NextSegmentStartsAtItsScroll(segs: seq<ScrollSegment>, i: int)
    requires 0 <= i < |segs| - 1
    requires i + 1 == |segs| - 1 || segs[i + 1].NumFrames() >= SegmentTransitionNumFrames
    ensures FrameScroll(segs, i + 1, segs[i + 1].startFrame) == segs[i + 1].scroll
  {
    if i + 1 < |segs| - 1 && segs[i + 1].startFrame >= segs[i + 1].endFrame - SegmentTransitionNumFrames {
      assert segs[i + 1].startFrame - (segs[i + 1].endFrame - SegmentTransitionNumFrames) == 0;
    }
  }
}
