/**
  VideoFile.ComputeChannelsScroll as the exporter runs it: for every channel
  selected by the mask, one pass over the frame array builds the segment list
  (allocating each frame's scroll array on the way), short segments are
  merged, scroll values are resolved, and a last pass writes every frame's
  scroll for the channel. Each step is proved against the specification in
  ScrollSegments.
 */
module ChannelScroll {
  import opened Utils
  import opened Metadata
  import opened ScrollSegments

  /** `(channelMask & (1 << c)) != 0`; C# takes the shift count modulo 32. */
  predicate ChannelSelected(channelMask: int, c: int)
  {
    BitSet(channelMask, c % 32)
  }

  /** A frame that has no channel `c` counts as silent there (the exporter's frames always have every channel). */
  const NoNote := Note(false, 0, false, 0, false, None)

  /** Channel `c`'s note at every frame. */
  function ChannelNotes(frames: seq<FrameMetadata>, c: nat): (r: seq<Note>)
    ensures |r| == |frames|
  {
    seq(|frames|, f requires 0 <= f < |frames| => if c < |frames[f].channelNotes| then frames[f].channelNotes[c] else NoNote)
  }

  function PlayNotes(frames: seq<FrameMetadata>): seq<real>
  {
    seq(|frames|, f requires 0 <= f < |frames| => frames[f].playNote)
  }

  /** The scroll array a frame has once the segmentation pass has seen it: a fresh zeroed one replaces null. */
  function Allocated(scroll: seq<real>, numChannels: nat): (r: seq<real>)
    ensures scroll != [] ==> r == scroll
    ensures scroll == [] ==> |r| == numChannels && forall c :: 0 <= c < numChannels ==> r[c] == 0.0
  {
    if scroll == [] then seq(numChannels, _ => 0.0) else scroll
  }

  /** The frame array the exporter hands over: every frame has the same channels, and no scroll array or a full one. */
  ghost predicate ValidFrames(frames: seq<FrameMetadata>, numChannels: nat)
  {
    forall f :: 0 <= f < |frames| ==>
      |frames[f].channelNotes| == numChannels && (frames[f].scroll == [] || |frames[f].scroll| == numChannels)
  }

  /** The final segments of channel `c`: segmented, merged, with their scroll values. */
  function ScrollPlan(frames: seq<FrameMetadata>, c: nat, nv: nat): (r: seq<ScrollSegment>)
    ensures Tiles(r, |frames|)
    ensures |r| == 1 || forall i :: 0 <= i < |r| ==> r[i].NumFrames() >= ShortestAllowedSegment
  {
    var merged := MergeAll(Segmentation(ChannelNotes(frames, c), PlayNotes(frames), nv), |frames|);
    WithScrollsKeepsFrames(merged, |frames|, nv);
    WithScrolls(merged, nv)
  }

  /** Index of the segment holding frame `f`. */
  function SegmentIndexOf(segs: seq<ScrollSegment>, n: int, f: int): (i: nat)
    requires Tiles(segs, n) && 0 <= f < n
    ensures i < |segs| && segs[i].startFrame <= f < segs[i].endFrame
  {
    FindSegment(segs, n, f, 0)
  }

  function FindSegment(segs: seq<ScrollSegment>, n: int, f: int, j: nat): (i: nat)
    requires Tiles(segs, n) && 0 <= f < n && j < |segs| && segs[j].startFrame <= f
    ensures j <= i < |segs| && segs[i].startFrame <= f < segs[i].endFrame
    decreases |segs| - j
  {
    if f < segs[j].endFrame then j else FindSegment(segs, n, f, j + 1)
  }

  /** The scroll channel `c` has at frame `f` once the export has computed it. */
  function ChannelScrollAt(frames: seq<FrameMetadata>, c: nat, nv: nat, f: int): real
    requires 0 <= f < |frames|
  {
    var plan := ScrollPlan(frames, c, nv);
    FrameScroll(plan, SegmentIndexOf(plan, |frames|, f), f)
  }

  /** Segments of a tiling come in frame order. */
  lemma {:induction false} TilesOrdered(segs: seq<ScrollSegment>, n: int, i: int, j: int)
    requires Tiles(segs, n) && 0 <= i < j < |segs|
    ensures segs[i].endFrame <= segs[j].startFrame
    decreases j - i
  {
    if i + 1 < j {
      TilesOrdered(segs, n, i + 1, j);
    }
  }

  /** A frame lies in one segment only. */
  lemma SegmentIsUnique(segs: seq<ScrollSegment>, n: int, i: int, j: int, f: int)
    requires Tiles(segs, n) && 0 <= i < |segs| && 0 <= j < |segs|
    requires segs[i].startFrame <= f < segs[i].endFrame && segs[j].startFrame <= f < segs[j].endFrame
    ensures i == j
  {
    if i < j {
      TilesOrdered(segs, n, i, j);
    } else if j < i {
      TilesOrdered(segs, n, j, i);
    }
  }

  /**
    The segmentation pass over the frames for channel `c`. It also gives every
    frame without a scroll array a zeroed one of `numChannels` entries.
   */
  method BuildSegments(frames: array<FrameMetadata>, c: nat, numChannels: nat, nv: nat) returns (segs: seq<ScrollSegment>)
    requires c < numChannels && ValidFrames(frames[..], numChannels)
    modifies frames
    ensures segs == Segmentation(ChannelNotes(old(frames[..]), c), PlayNotes(old(frames[..])), nv)
    ensures forall f :: 0 <= f < frames.Length ==>
      frames[f] == old(frames[f]).(scroll := Allocated(old(frames[f].scroll), numChannels))
  {
    ghost var notes := ChannelNotes(frames[..], c);
    ghost var playNotes := PlayNotes(frames[..]);
    segs := [];
    var f := 0;
    while f < frames.Length
      invariant 0 <= f <= frames.Length
      invariant segs == SegmentsUpTo(notes, playNotes, nv, f)
      invariant forall g :: 0 <= g < f ==> frames[g] == old(frames[g]).(scroll := Allocated(old(frames[g].scroll), numChannels))
      invariant forall g :: f <= g < frames.Length ==> frames[g] == old(frames[g])
    {
      var frame := frames[f];
      assert frame == old(frames[f]) && notes[f] == frame.channelNotes[c] && playNotes[f] == frame.playNote;
      if frame.scroll == [] {
        frames[f] := frame.(scroll := seq(numChannels, _ => 0.0));
      }
      segs := AddFrameStep(segs, f, frame.channelNotes[c], frame.playNote, nv);
      f := f + 1;
    }
    if segs == [] {
      segs := [ScrollSegment(0, 0, NoteC4, NoteC4, 0.0)];
    }
    segs := segs[..|segs| - 1] + [segs[|segs| - 1].(endFrame := frames.Length)];
    assert segs == Segmentation(notes, playNotes, nv);
    assert notes == ChannelNotes(old(frames[..]), c) && playNotes == PlayNotes(old(frames[..]));
  }

  /** The notes a musical frame needs on screen, as the segmentation loop computes them. */
  method FrameSpan(note: Note, nv: nat) returns (minNoteValue: int, maxNoteValue: int)
    ensures Span(minNoteValue, maxNoteValue) == NoteSpan(note, nv)
  {
    minNoteValue := note.value - 1;
    maxNoteValue := note.value + 1;
    if note.isSlideNote && Abs(note.slideNoteTarget - note.value) < nv / 2 {
      minNoteValue := Min(note.value, note.slideNoteTarget) - 1;
      maxNoteValue := Max(note.value, note.slideNoteTarget) + 1;
    }
    if note.isArpeggio && note.chord.Some? && note.chord.value.maxOffset - note.chord.value.minOffset < nv / 2 {
      minNoteValue := note.value + note.chord.value.minOffset;
      maxNoteValue := note.value + note.chord.value.maxOffset;
    }
  }

  /** One iteration of the segmentation loop: widen the current segment by the frame's span, or close it and start a new one. */
  method AddFrameStep(segs: seq<ScrollSegment>, f: int, note: Note, playNote: real, nv: nat) returns (r: seq<ScrollSegment>)
    ensures r == AddFrame(segs, f, note, playNote, nv)
  {
    r := segs;
    if note.isMusical {
      if r == [] {
        r := [Fresh];
      }
      var cur := r[|r| - 1];
      var forceNewSegment := playNote == 0.0 && f - cur.startFrame > ForcedBreakFrames;
      var minNoteValue, maxNoteValue := FrameSpan(note, nv);
      var newMinNote := Min(cur.minNote, minNoteValue);
      var newMaxNote := Max(cur.maxNote, maxNoteValue);
      if forceNewSegment || newMaxNote - newMinNote + 1 > nv {
        r := r[..|r| - 1] + [cur.(endFrame := f), ScrollSegment(f, 0, minNoteValue, maxNoteValue, 0.0)];
        assert r == CloseAndSeed(Open(segs), f, NoteSpan(note, nv));
      } else {
        r := r[..|r| - 1] + [cur.(minNote := newMinNote, maxNote := newMaxNote)];
        assert r == WidenLast(Open(segs), Widen(cur, NoteSpan(note, nv)));
      }
    }
  }

  /**
    The merge loop as written: `removed` is set by a merge and never cleared,
    so once a merge has happened the do-while only ends through its `break`,
    which needs the shortest segment to reach 32 frames. When every frame
    ends up in one segment shorter than that, the loop repeats a pass that
    merges nothing, forever. `hangs` reports that outcome; it happens exactly
    when there were two segments or more and the song has fewer than 32 frames.
   */
  method MergeShortSegmentsAsWritten(segments: seq<ScrollSegment>, n: int) returns (r: seq<ScrollSegment>, hangs: bool)
    requires Tiles(segments, n)
    ensures hangs <==> |segments| >= 2 && n < ShortestAllowedSegment
    ensures !hangs ==> r == MergeAll(segments, n)
  {
    r := segments;
    var removed := false;
    while true
      invariant Tiles(r, n) && MergeAll(r, n) == MergeAll(segments, n)
      invariant |r| <= |segments| && (removed <==> |r| < |segments|)
      decreases |r|
    {
      var k := ShortestIndex(r);
      SegmentWithin(r, n, k);
      if r[k].NumFrames() >= ShortestAllowedSegment {
        return r, false;
      }
      if |r| >= 2 {
        r := MergeInto(r, k, n);
        removed := true;
      } else if removed {
        return r, true;
      } else {
        return r, false;
      }
    }
  }

  /** The merge loop as intended: a pass that merges nothing ends it. */
  method MergeShortSegments(segments: seq<ScrollSegment>, n: int) returns (r: seq<ScrollSegment>)
    requires Tiles(segments, n)
    ensures r == MergeAll(segments, n)
  {
    r := segments;
    var removed := true;
    while removed
      invariant Tiles(r, n) && MergeAll(r, n) == MergeAll(segments, n)
      invariant !removed ==> r == MergeAll(segments, n)
      decreases |r| + (if removed then 1 else 0)
    {
      removed := false;
      var k := ShortestIndex(r);
      if r[k].NumFrames() < ShortestAllowedSegment && |r| >= 2 {
        r := MergeInto(r, k, n);
        removed := true;
      }
    }
  }

  /** Two frames, the second an octave and more above the first, make two segments: the as-written merge never ends on them. */
  lemma TwoFrameSongHasTwoSegments()
    ensures var notes := [Note(true, 30, false, 0, false, None), Note(true, 80, false, 0, false, None)];
      |Segmentation(notes, [0.0, 1.0], 20)| == 2
  {
    var notes := [Note(true, 30, false, 0, false, None), Note(true, 80, false, 0, false, None)];
    var first := SegmentsUpTo(notes, [0.0, 1.0], 20, 1);
    assert first == [Fresh.(minNote := 29, maxNote := 31)];
    assert MustBreak(notes[1], 1.0, 1, Last(first), 20);
    assert |SegmentsUpTo(notes, [0.0, 1.0], 20, 2)| == 2;
  }

  /** The scroll of every segment: its range's centre, clamped to the keyboard. */
  method ResolveScrolls(segments: seq<ScrollSegment>, nv: nat) returns (r: seq<ScrollSegment>)
    ensures r == WithScrolls(segments, nv)
  {
    var minScroll := Ceil(MusicalNoteMin as real + nv as real * 0.5) as real;
    var maxScroll := (MusicalNoteMax as real - nv as real * 0.5).Floor as real;
    r := segments;
    var i := 0;
    while i < |r|
      invariant 0 <= i <= |r| == |segments|
      invariant forall j :: 0 <= j < i ==> r[j] == WithScrolls(segments, nv)[j]
      invariant forall j :: i <= j < |r| ==> r[j] == segments[j]
    {
      var segment := r[i];
      r := r[i := segment.(scroll := ClampReal(segment.minNote as real + Wrap32(segment.maxNote - segment.minNote) as real * 0.5, minScroll, maxScroll))];
      i := i + 1;
    }
  }

  /** Writes segment `s`'s frames of channel `c`: its scroll, then the transition into the next segment. */
  method FillSegment(frames: array<FrameMetadata>, c: nat, segs: seq<ScrollSegment>, s: nat)
    requires Tiles(segs, frames.Length) && s < |segs|
    requires s < |segs| - 1 ==> segs[s].NumFrames() >= SegmentTransitionNumFrames
    requires forall f :: 0 <= f < frames.Length ==> c < |frames[f].scroll|
    modifies frames
    ensures forall f :: 0 <= f < frames.Length ==>
      frames[f] == if segs[s].startFrame <= f < segs[s].endFrame
                   then old(frames[f]).(scroll := old(frames[f].scroll)[c := FrameScroll(segs, s, f)])
                   else old(frames[f])
  {
    SegmentWithin(segs, frames.Length, s);
    var segment0 := segs[s];
    var last := s == |segs| - 1;
    var stop := segment0.endFrame - (if last then 0 else SegmentTransitionNumFrames);
    var f := segment0.startFrame;
    while f < stop
      invariant segment0.startFrame <= f <= stop
      invariant forall g :: 0 <= g < frames.Length ==>
        frames[g] == if segment0.startFrame <= g < f
                     then old(frames[g]).(scroll := old(frames[g].scroll)[c := FrameScroll(segs, s, g)])
                     else old(frames[g])
    {
      frames[f] := frames[f].(scroll := frames[f].scroll[c := segment0.scroll]);
      f := f + 1;
    }
    if !last {
      var segment1 := segs[s + 1];
      var a := 0;
      while f < segment0.endFrame
        invariant stop <= f <= segment0.endFrame && a == f - stop
        invariant forall g :: 0 <= g < frames.Length ==>
          frames[g] == if segment0.startFrame <= g < f
                       then old(frames[g]).(scroll := old(frames[g].scroll)[c := FrameScroll(segs, s, g)])
                       else old(frames[g])
      {
        var lerp := a as real / SegmentTransitionNumFrames as real;
        frames[f] := frames[f].(scroll := frames[f].scroll[c := Lerp(segment0.scroll, segment1.scroll, SmoothStep(lerp))]);
        f := f + 1;
        a := a + 1;
      }
    }
  }

  /** The write-back pass for channel `c`: every frame gets the scroll of the segment holding it. */
  method WriteChannelScroll(frames: array<FrameMetadata>, c: nat, segs: seq<ScrollSegment>)
    requires Tiles(segs, frames.Length)
    requires forall i :: 0 <= i < |segs| - 1 ==> segs[i].NumFrames() >= SegmentTransitionNumFrames
    requires forall f :: 0 <= f < frames.Length ==> c < |frames[f].scroll|
    modifies frames
    ensures forall f :: 0 <= f < frames.Length ==>
      frames[f] == old(frames[f]).(scroll := old(frames[f].scroll)[c := FrameScroll(segs, SegmentIndexOf(segs, frames.Length, f), f)])
  {
    var s := 0;
    while s < |segs|
      invariant 0 <= s <= |segs|
      invariant forall f :: 0 <= f < frames.Length ==>
        frames[f] == if s < |segs| && segs[s].startFrame <= f then old(frames[f])
                     else old(frames[f]).(scroll := old(frames[f].scroll)[c := FrameScroll(segs, SegmentIndexOf(segs, frames.Length, f), f)])
    {
      ghost var before := frames[..];
      FillSegment(frames, c, segs, s);
      forall f | 0 <= f < frames.Length
        ensures frames[f] == if s + 1 < |segs| && segs[s + 1].startFrame <= f then old(frames[f])
                             else old(frames[f]).(scroll := old(frames[f].scroll)[c := FrameScroll(segs, SegmentIndexOf(segs, frames.Length, f), f)])
      {
        var i := SegmentIndexOf(segs, frames.Length, f);
        if segs[s].startFrame <= f < segs[s].endFrame {
          SegmentIsUnique(segs, frames.Length, i, s, f);
        } else if f < segs[s].startFrame {
          if i >= s {
            if i > s { TilesOrdered(segs, frames.Length, s, i); }
          }
        } else {
          assert s + 1 < |segs|;
          assert segs[s + 1].startFrame == segs[s].endFrame <= f;
        }
      }
      s := s + 1;
    }
  }

  /** The scroll plan only depends on the channel's notes and the play positions. */
  lemma SameScrollPlan(a: seq<FrameMetadata>, b: seq<FrameMetadata>, c: nat, nv: nat)
    requires |a| == |b|
    requires forall f :: 0 <= f < |a| ==> a[f].channelNotes == b[f].channelNotes && a[f].playNote == b[f].playNote
    ensures ScrollPlan(a, c, nv) == ScrollPlan(b, c, nv)
  {
    assert ChannelNotes(a, c) == ChannelNotes(b, c) && PlayNotes(a) == PlayNotes(b);
  }

  /** The scroll one channel has before this pass: 0 in a freshly allocated array. */
  function ScrollBefore(scroll: seq<real>, c: nat): real
    requires scroll == [] || c < |scroll|
  {
    if scroll == [] then 0.0 else scroll[c]
  }

  /** Every channel's computed scroll at every frame, as one function of channel and frame. */
  lemma ChannelScrollTable(frames: seq<FrameMetadata>, nv: nat) returns (table: (nat, int) -> real)
    ensures forall c, f {:trigger ChannelScrollAt(frames, c, nv, f)} :: 0 <= f < |frames| ==>
      table(c, f) == ChannelScrollAt(frames, c, nv, f)
  {
    table := (c: nat, f: int) => if 0 <= f < |frames| then ChannelScrollAt(frames, c, nv, f) else 0.0;
  }

  /**
    A frame's scroll array once channels [0, c) have been processed, from the
    array `scroll` it had before: `selected` holds the mask's bits and `table`
    the scroll of every channel at this frame `f`.
   */
  function ScrollAfter(scroll: seq<real>, selected: seq<bool>, table: (nat, int) -> real, numChannels: nat, c: nat, f: int): (r: seq<real>)
    requires scroll == [] || |scroll| == numChannels
    requires c <= numChannels == |selected|
    ensures r == scroll || |r| == numChannels
  {
    if c == 0 then scroll
    else
      var prev := ScrollAfter(scroll, selected, table, numChannels, c - 1, f);
      if selected[c - 1] then Allocated(prev, numChannels)[c - 1 := table(c - 1, f)]
      else prev
  }

  /** A selected channel below `c` holds its entry of the table. */
  lemma {:induction false} ScrollAfterSelected(scroll: seq<real>, selected: seq<bool>, table: (nat, int) -> real, numChannels: nat, c: nat, f: int, d: nat)
    requires scroll == [] || |scroll| == numChannels
    requires c <= numChannels == |selected|
    requires d < c && selected[d]
    ensures var r := ScrollAfter(scroll, selected, table, numChannels, c, f);
      |r| == numChannels && r[d] == table(d, f)
  {
    if d < c - 1 {
      ScrollAfterSelected(scroll, selected, table, numChannels, c - 1, f, d);
    }
  }

  /** A channel not yet reached, or not selected, keeps the scroll it had (0 in a fresh array). */
  lemma {:induction false} ScrollAfterUnselected(scroll: seq<real>, selected: seq<bool>, table: (nat, int) -> real, numChannels: nat, c: nat, f: int, d: nat)
    requires scroll == [] || |scroll| == numChannels
    requires c <= numChannels == |selected|
    requires d < numChannels && (c <= d || !selected[d])
    requires |ScrollAfter(scroll, selected, table, numChannels, c, f)| == numChannels
    ensures ScrollAfter(scroll, selected, table, numChannels, c, f)[d] == ScrollBefore(scroll, d)
  {
    if c > 0 {
      var prev := ScrollAfter(scroll, selected, table, numChannels, c - 1, f);
      if |prev| == numChannels {
        ScrollAfterUnselected(scroll, selected, table, numChannels, c - 1, f, d);
      } else {
        assert prev == scroll == [];
      }
    }
  }

  /** One frame of the pass over a selected channel `c`: its table entry lands in the scroll array. */
  lemma ScrollAfterStep(original: seq<FrameMetadata>, before: seq<FrameMetadata>, selected: seq<bool>, table: (nat, int) -> real,
                        nv: nat, numChannels: nat, c: nat, f: int, beforeFrame: FrameMetadata, afterFrame: FrameMetadata)
    requires 0 <= f < |original| == |before|
    requires original[f].scroll == [] || |original[f].scroll| == numChannels
    requires c < numChannels == |selected| && selected[c]
    requires ScrollPlan(before, c, nv) == ScrollPlan(original, c, nv)
    requires table(c, f) == ChannelScrollAt(original, c, nv, f)
    requires beforeFrame == original[f].(scroll := ScrollAfter(original[f].scroll, selected, table, numChannels, c, f))
    requires afterFrame == beforeFrame.(scroll := Allocated(beforeFrame.scroll, numChannels)[c := ChannelScrollAt(before, c, nv, f)])
    ensures afterFrame == original[f].(scroll := ScrollAfter(original[f].scroll, selected, table, numChannels, c + 1, f))
  {
  }

  /** Every segment of a plan but the last is long enough for the 16-frame transition out of it. */
  lemma PlanHasRoomForTransitions(input: seq<FrameMetadata>, c: nat, nv: nat)
    ensures var plan := ScrollPlan(input, c, nv);
      forall i :: 0 <= i < |plan| - 1 ==> plan[i].NumFrames() >= SegmentTransitionNumFrames
  {
    var plan := ScrollPlan(input, c, nv);
    if |plan| != 1 {
      assert forall i :: 0 <= i < |plan| ==> plan[i].NumFrames() >= ShortestAllowedSegment;
    }
  }

  /** One frame after the write-back of channel `c`'s plan, read as the scroll the export computes. */
  lemma WriteBackAt(input: seq<FrameMetadata>, c: nat, nv: nat, numChannels: nat, f: int, segs: seq<ScrollSegment>,
                    built: FrameMetadata, written: FrameMetadata)
    requires 0 <= f < |input| && c < numChannels
    requires input[f].scroll == [] || |input[f].scroll| == numChannels
    requires segs == ScrollPlan(input, c, nv)
    requires built == input[f].(scroll := Allocated(input[f].scroll, numChannels))
    requires written == built.(scroll := built.scroll[c := FrameScroll(segs, SegmentIndexOf(segs, |input|, f), f)])
    ensures written == input[f].(scroll := Allocated(input[f].scroll, numChannels)[c := ChannelScrollAt(input, c, nv, f)])
  {
  }

  /** The work for one selected channel: segment, merge, resolve, write back. */
  method ComputeChannelScroll(frames: array<FrameMetadata>, c: nat, numChannels: nat, nv: nat)
    requires c < numChannels && ValidFrames(frames[..], numChannels)
    modifies frames
    ensures forall f :: 0 <= f < frames.Length ==>
      frames[f] == old(frames[f]).(scroll := Allocated(old(frames[f].scroll), numChannels)[c := ChannelScrollAt(old(frames[..]), c, nv, f)])
  {
    ghost var input := frames[..];
    var segments := BuildSegments(frames, c, numChannels, nv);
    ghost var built := frames[..];
    segments := MergeShortSegments(segments, frames.Length);
    segments := ResolveScrolls(segments, nv);
    assert segments == ScrollPlan(input, c, nv);
    PlanHasRoomForTransitions(input, c, nv);
    WriteChannelScroll(frames, c, segments);
    forall f | 0 <= f < frames.Length
      ensures frames[f] == input[f].(scroll := Allocated(input[f].scroll, numChannels)[c := ChannelScrollAt(input, c, nv, f)])
    {
      WriteBackAt(input, c, nv, numChannels, f, segments, built[f], frames[f]);
    }
  }

  /** The loop over the channels: every selected one is computed in turn. */
  method ComputeSelectedChannels(frames: array<FrameMetadata>, channelMask: int, numChannels: nat, nv: nat,
                                 ghost selected: seq<bool>, ghost table: (nat, int) -> real)
    requires ValidFrames(frames[..], numChannels)
    requires selected == seq(numChannels, c => ChannelSelected(channelMask, c))
    requires forall c, f {:trigger ChannelScrollAt(frames[..], c, nv, f)} :: 0 <= f < frames.Length ==>
      table(c, f) == ChannelScrollAt(frames[..], c, nv, f)
    modifies frames
    ensures forall f :: 0 <= f < frames.Length ==>
      frames[f] == old(frames[f]).(scroll := ScrollAfter(old(frames[f].scroll), selected, table, numChannels, numChannels, f))
  {
    ghost var original := frames[..];
    var c := 0;
    while c < numChannels
      invariant 0 <= c <= numChannels
      invariant forall f :: 0 <= f < frames.Length ==>
        frames[f] == original[f].(scroll := ScrollAfter(original[f].scroll, selected, table, numChannels, c, f))
    {
      if ChannelSelected(channelMask, c) {
        ghost var before := frames[..];
        ComputeChannelScroll(frames, c, numChannels, nv);
        SameScrollPlan(before, original, c, nv);
        forall f | 0 <= f < frames.Length
          ensures frames[f] == original[f].(scroll := ScrollAfter(original[f].scroll, selected, table, numChannels, c + 1, f))
        {
          ScrollAfterStep(original, before, selected, table, nv, numChannels, c, f, before[f], frames[f]);
        }
      }
      c := c + 1;
    }
  }

  /**
    Every frame keeps its notes, volumes and timing; the scroll of each selected
    channel is the one its segment plan gives; the other channels keep theirs
    (0 where the array was allocated by this pass).
   */
  method ComputeChannelsScroll(frames: array<FrameMetadata>, channelMask: int, numVisibleNotes: nat)
    requires frames.Length > 0 && ValidFrames(frames[..], |frames[0].channelNotes|)
    modifies frames
    ensures forall f :: 0 <= f < frames.Length ==> frames[f] == old(frames[f]).(scroll := frames[f].scroll)
    ensures forall f :: 0 <= f < frames.Length ==>
      frames[f].scroll == old(frames[f].scroll) || |frames[f].scroll| == |frames[0].channelNotes|
    ensures forall c, f :: 0 <= c < |frames[0].channelNotes| && ChannelSelected(channelMask, c) && 0 <= f < frames.Length ==>
      |frames[f].scroll| == |frames[0].channelNotes| &&
      frames[f].scroll[c] == ChannelScrollAt(old(frames[..]), c, numVisibleNotes, f)
    ensures forall c, f ::
      (0 <= c < |frames[0].channelNotes| && !ChannelSelected(channelMask, c) && 0 <= f < frames.Length
       && |frames[f].scroll| == |frames[0].channelNotes|) ==>
      frames[f].scroll[c] == ScrollBefore(old(frames[f].scroll), c)
  {
    var numChannels := |frames[0].channelNotes|;
    ghost var original := frames[..];
    ghost var selected := seq(numChannels, c => ChannelSelected(channelMask, c));
    ghost var table := ChannelScrollTable(original, numVisibleNotes);
    ComputeSelectedChannels(frames, channelMask, numChannels, numVisibleNotes, selected, table);
    forall c, f | 0 <= c < numChannels && ChannelSelected(channelMask, c) && 0 <= f < frames.Length
      ensures |frames[f].scroll| == numChannels && frames[f].scroll[c] == ChannelScrollAt(original, c, numVisibleNotes, f)
    {
      ScrollAfterSelected(original[f].scroll, selected, table, numChannels, numChannels, f, c);
    }
    forall c, f | (0 <= c < numChannels && !ChannelSelected(channelMask, c) && 0 <= f < frames.Length
                   && |frames[f].scroll| == numChannels)
      ensures frames[f].scroll[c] == ScrollBefore(original[f].scroll, c)
    {
      ScrollAfterUnselected(original[f].scroll, selected, table, numChannels, numChannels, f, c);
    }
  }
}
