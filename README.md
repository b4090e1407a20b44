# FamiStudio video export and parameter providers, in Dafny

This project models two parts of FamiStudio, the NES music editor.

**The video exporter** is `VideoFile.cs`. It turns a song into a piano-roll video with one vertical strip per selected channel. The model covers the computation it performs before and while writing frames:

- **Metadata.** `VideoMetadataPlayer` plays the song once, one frame at a time, and records per frame:
  - the pattern and row;
  - every channel's note and volume;
  - the audio sample offset.
- **Scroll segmentation** (`ComputeChannelsScroll`). For every selected channel:
  - the frames are cut into segments whose notes fit in the visible piano range;
  - segments that are too short are merged into a neighbour;
  - each segment gets a scroll position;
  - every frame gets the scroll of its segment, with a 16-frame eased transition into the next one.
- **Tempo smoothing** (`SmoothFamiTrackerTempo`). The play position advances linearly inside each run of frames that sit on the same row.
- **Oscilloscope** (`GenerateOscilloscope`). It searches for a zero crossing near the current sample, then maps a window of samples to the points of a trace.
- **Compositing.** Each channel image is rotated and alpha-blended into the video frame, written in the byte order ffmpeg expects (A, R, G, B as 255, B, G, R). A seam column is byte-swapped where rounding left a gap between strips.
- **Save.** Which channels the mask selects, the oscilloscope look-back, and the value `Save` returns.

**The parameter providers** are `ParamProviders.cs`. They supply the instrument and DPCM-sample property pages:

- `ParamInfo.SnapAndClampValue`.
- The instrument parameter list built by `InstrumentParamProvider.GetParams`:
  - the pitch envelope's Relative flag;
  - the FDS, N163 and VRC6 properties;
  - the VRC7 and EPSM patch index;
  - the VRC7 and EPSM register bit-fields.
- The `GetValue`/`SetValue` behaviour of these parameters on an instrument.
- The DPCM "Reverse Bits" parameter.

## Modelling choices

- `VideoFrameMetadata` is a datatype. The frames are an `array<FrameMetadata>`.
  - The methods that update frames in place modify that array.
  - A null `scroll` array is the empty sequence.
- `ScrollSegment` is a datatype in a `seq`. The "current segment" of the C# loop is always the last element.
- C# `float` values are Dafny `real`, with no rounding.
- C# integer `/` is truncating division (`CsDiv`).
- `1 << i` on an `int` shifts by `i % 32` (`ChannelSelected`).
- `(byte)` casts are taken modulo 256 (`ToByte`).
- Patch registers are `bv8`. A parameter value is a C# `int`: only its low byte (two's complement) reaches the masked bits.
- The playback engine (`BasePlayer`, the APU emulation) is not part of this model. It becomes a `Playback` script that says:
  - whether `BeginPlaySong` succeeds;
  - the state it leaves and the samples it emits;
  - the state and sample count of every frame `PlaySongFrame` plays.
- `Instrument.cs`, `WavePresetType` and the patch-1 register tables (`Vrc7InstrumentPatch.Infos[1]`, `EpsmInstrumentPatch.Infos[1]`) are not part of this model. The wave preset count, its `Sine`/`Flat` indices and the patch-1 bytes are inputs (`Presets`).

### Where the model follows the code rather than the description of the program

- **Silent oscilloscope buffer.** On an all-zero buffer, the crossing search does not stop at once.
  - A zero sample takes the "walk forward" branch. The search advances until it finds a positive sample, reaches the buffer end or uses up the look-back budget.
  - `Oscilloscope.SilenceWalksForward` proves the resulting position.
- **Centre of the trace.** A zero sample is drawn at `minY + (maxY - minY) * 32768 / 65535`, not exactly at the midpoint. `PointY` maps `sample - short.MinValue` over `ushort.MaxValue`.

## Model

| member | source | states |
|---|---|---|
| Metadata.Snapshot | FamiStudio/Source/IO/VideoFile.cs:671-690 | The record carries the player's current pattern, row, notes and volumes, and the offset passed in. Its scroll starts out null. |
| Metadata.MaxSample | FamiStudio/Source/IO/VideoFile.cs:694-697 | With no duration the cap is int.MaxValue. With a duration, the cap is duration × sampleRate whenever that fits 32 bits. |
| Metadata.LoopSnapshotsClosedForm | FamiStudio/Source/IO/VideoFile.cs:703-706 | The loop records exactly NumWritten frames. Record j is frame k+j's state, stamped with the samples produced before that frame. |
| Metadata.VideoMetadataShape | FamiStudio/Source/IO/VideoFile.cs:692-710 | The result of GetVideoMetadata has the following shape. A song that fails to begin gives no records. Otherwise there is one record for the initial state at offset 0. Then there is one record per played frame, stamped with the samples before it. |
| Metadata.WavOffsetsNonDecreasing | FamiStudio/Source/IO/VideoFile.cs:677 | Audio offsets never decrease along the metadata. |
| Metadata.FirstOffsetsGap | FamiStudio/Source/IO/VideoFile.cs:677 | The first record has offset 0. The second has the sample count BeginPlaySong produced: each record is stamped with the count at the previous write. |
| Metadata.UncappedRecordsEveryFrame | FamiStudio/Source/IO/VideoFile.cs:694-706 | Without a duration, a song shorter than int.MaxValue samples yields 1 + (number of frames) records. |
| Metadata.NumWrittenStops | FamiStudio/Source/IO/VideoFile.cs:703 | Every recorded frame ended below the cap. The first frame not recorded, if any, reached it. |
| Metadata.VideoMetadataPlayer.EndFrame | FamiStudio/Source/IO/VideoFile.cs:712-716 | The frame's sample count is added to numSamples, and nothing else changes. |
| Metadata.VideoMetadataPlayer.WriteMetadata | FamiStudio/Source/IO/VideoFile.cs:671-690 | Appends a snapshot stamped with the previous count. prevNumSamples catches up with numSamples. |
| Metadata.VideoMetadataPlayer.RecordFrames | FamiStudio/Source/IO/VideoFile.cs:703-706 | The while loop appends exactly the snapshots of the closed form. |
| Metadata.VideoMetadataPlayer.GetVideoMetadata | FamiStudio/Source/IO/VideoFile.cs:692-710 | Returns exactly VideoMetadata(playback, sampleRate, duration), whose shape VideoMetadataShape gives. |
| ScrollSegments.NoteSpan | FamiStudio/Source/IO/VideoFile.cs:116-131 | The span depends on the note. A small enough arpeggio gives the chord's span. Otherwise the span holds the note and, if the slide is short enough, the slide target. Otherwise it is note ± 1. It never exceeds max(3, nv/2+2) notes. |
| ScrollSegments.CloseAndSeed | FamiStudio/Source/IO/VideoFile.cs:140-149 | The current segment ends at f. A new segment starts at f with the frame's span, and the earlier segments are unchanged. |
| ScrollSegments.WidenLast | FamiStudio/Source/IO/VideoFile.cs:150-154 | Only the current segment's range changes. |
| ScrollSegments.SetLast | FamiStudio/Source/IO/VideoFile.cs:167 | Only the last segment is replaced. |
| ScrollSegments.Segmentation | FamiStudio/Source/IO/VideoFile.cs:97-167 | The segments tile the frames [0, n). |
| ScrollSegments.SegmentationSpec | FamiStudio/Source/IO/VideoFile.cs:97-167 | A silent channel gets one C4 segment covering the song. Otherwise the segments tile the song, every musical frame's span is inside its segment's range, and each range fits the view. Every break is justified by an overflow or by the 600-frame forced break. |
| ScrollSegments.FinalizeKeepsBuilt | FamiStudio/Source/IO/VideoFile.cs:167 | Closing the last segment at the song's end keeps coverage, fit and justified breaks. |
| ScrollSegments.SegmentsUpToBuilt | FamiStudio/Source/IO/VideoFile.cs:97-156 | The loop invariant: after k frames, the segments are chained, cover and fit the frames seen, and break only when they must. |
| ScrollSegments.AddFrameKeepsBuilt | FamiStudio/Source/IO/VideoFile.cs:105-155 | One iteration, widening or breaking, preserves that invariant. |
| ScrollSegments.ShortestIndex | FamiStudio/Source/IO/VideoFile.cs:175-179 | Picks a segment no longer than any other, and the first such. |
| ScrollSegments.MergeTarget | FamiStudio/Source/IO/VideoFile.cs:192-203 | The merge goes into the next segment iff it exists and is longer than the previous one. It is -1 iff there is no neighbour. |
| ScrollSegments.MergeInto | FamiStudio/Source/IO/VideoFile.cs:204-211 | One segment fewer, still a tiling. The absorbing neighbour stretches over the removed segment's frames. |
| ScrollSegments.MergeAll | FamiStudio/Source/IO/VideoFile.cs:169-216 | Still a tiling. Either one segment is left or all are at least 32 frames. Segments that were all long enough are left untouched. |
| ScrollSegments.MergeIntoKeepsRanges | FamiStudio/Source/IO/VideoFile.cs:207-210 | After a merge, each surviving segment keeps its own note range. |
| ScrollSegments.MergeAllKeepsRanges | FamiStudio/Source/IO/VideoFile.cs:169-216 | Merging never invents a range: every result segment has an original segment's range. |
| ScrollSegments.WithScrollsKeepsFrames | FamiStudio/Source/IO/VideoFile.cs:224-227 | Assigning scrolls changes nothing but the scroll field. |
| ScrollSegments.ScrollBoundsOrdered | FamiStudio/Source/IO/VideoFile.cs:219-222 | The Debug.Assert that maxScroll >= minScroll holds iff at most 94 notes are visible. |
| ScrollSegments.SegmentScroll | FamiStudio/Source/IO/VideoFile.cs:224-227 | The centre of the segment's range, clamped: within [minScroll, maxScroll] whenever those are ordered. |
| ScrollSegments.SegmentScrollInBounds | FamiStudio/Source/IO/VideoFile.cs:226 | A segment's scroll lies within [minScroll, maxScroll]. |
| ScrollSegments.ViewShowsSegment | FamiStudio/Source/IO/VideoFile.cs:226 | A segment whose range fits the view inside the keyboard is fully visible at its scroll. |
| ScrollSegments.EmptyRangeScrollsToTop | FamiStudio/Source/IO/VideoFile.cs:143-145 | A segment that never saw a note keeps (int.MaxValue, int.MinValue) as its range, so it scrolls to maxScroll. |
| ScrollSegments.FrameScroll | FamiStudio/Source/IO/VideoFile.cs:229-247 | A frame's scroll: the segment's own until the last 16 frames before a next segment, then the eased lerp; TransitionIsMonotone and NextSegmentStartsAtItsScroll state its properties. |
| ScrollSegments.TransitionIsMonotone | FamiStudio/Source/IO/VideoFile.cs:234-246 | The transition starts at the segment's scroll. It moves monotonically toward the next segment's scroll and never overshoots it. |
| ScrollSegments.NextSegmentStartsAtItsScroll | FamiStudio/Source/IO/VideoFile.cs:234-237 | After a transition the next segment is shown at its own scroll from its first frame. |
| ChannelScroll.Allocated | FamiStudio/Source/IO/VideoFile.cs:102-103 | A null scroll array becomes numChannels zeros. An existing one is kept. |
| ChannelScroll.ScrollPlan | FamiStudio/Source/IO/VideoFile.cs:97-227 | A channel's final segments tile the song. There is one segment, or every segment is at least 32 frames. |
| ChannelScroll.SegmentIndexOf | FamiStudio/Source/IO/VideoFile.cs:229-237 | Finds the segment that holds frame f. |
| ChannelScroll.TilesOrdered | FamiStudio/Source/IO/VideoFile.cs:229-248 | Segments come in frame order. |
| ChannelScroll.SegmentIsUnique | FamiStudio/Source/IO/VideoFile.cs:229-248 | A frame lies in exactly one segment, so the write-back writes it once. |
| ChannelScroll.PlanHasRoomForTransitions | FamiStudio/Source/IO/VideoFile.cs:234-242 | Every segment but the last is at least 16 frames, so the transition stays inside it. |
| ChannelScroll.BuildSegments | FamiStudio/Source/IO/VideoFile.cs:97-167 | The segmentation loop returns exactly Segmentation(...). Its only effect on the frames is to allocate null scroll arrays. |
| ChannelScroll.FrameSpan | FamiStudio/Source/IO/VideoFile.cs:116-131 | The loop's min/max note values equal NoteSpan. |
| ChannelScroll.AddFrameStep | FamiStudio/Source/IO/VideoFile.cs:105-155 | One loop iteration equals AddFrame. |
| ChannelScroll.MergeShortSegmentsAsWritten | FamiStudio/Source/IO/VideoFile.cs:169-216 | The merge loop as written never ends iff there are at least two segments and the song is shorter than 32 frames. Otherwise it returns MergeAll. |
| ChannelScroll.TwoFrameSongHasTwoSegments | FamiStudio/Source/IO/VideoFile.cs:140-149 | A concrete two-frame channel segments into two segments, an input on which the as-written merge does not end. |
| ChannelScroll.MergeShortSegments | FamiStudio/Source/IO/VideoFile.cs:169-216 | The corrected merge loop returns MergeAll. |
| ChannelScroll.ResolveScrolls | FamiStudio/Source/IO/VideoFile.cs:224-227 | Every segment gets its clamped centre (WithScrolls). |
| ChannelScroll.FillSegment | FamiStudio/Source/IO/VideoFile.cs:231-247 | Exactly the segment's frames get channel c's FrameScroll. All else is unchanged. |
| ChannelScroll.WriteChannelScroll | FamiStudio/Source/IO/VideoFile.cs:229-248 | Every frame's channel-c scroll is the FrameScroll of the segment holding it. Nothing else changes. |
| ChannelScroll.SameScrollPlan | FamiStudio/Source/IO/VideoFile.cs:97-167 | The plan depends only on the channel's notes and the play positions, not on the scroll arrays being written. |
| ChannelScroll.ScrollAfterSelected | FamiStudio/Source/IO/VideoFile.cs:85-88 | After the channel loop, a selected channel's entry is its computed scroll. |
| ChannelScroll.ScrollAfterUnselected | FamiStudio/Source/IO/VideoFile.cs:85-88 | An unselected channel keeps its old entry, or 0 in a freshly allocated array. |
| ChannelScroll.WriteBackAt | FamiStudio/Source/IO/VideoFile.cs:102-103 | After one channel, a frame is its input with the scroll allocated and entry c set to the channel's scroll. |
| ChannelScroll.ComputeChannelScroll | FamiStudio/Source/IO/VideoFile.cs:90-248 | The work for one channel sets entry c of every frame to ChannelScrollAt and changes nothing else. |
| ChannelScroll.ComputeSelectedChannels | FamiStudio/Source/IO/VideoFile.cs:85-249 | The loop over channels leaves every frame's scroll equal to ScrollAfter. |
| ChannelScroll.ComputeChannelsScroll | FamiStudio/Source/IO/VideoFile.cs:80-250 | Only the scroll arrays change. Each selected channel's entry is its computed scroll at every frame. Unselected entries keep their old value (0 when allocated). |
| Tempo.RunStart | FamiStudio/Source/IO/VideoFile.cs:256-273 | The start of frame f's run is at or before f. |
| Tempo.RunEnd | FamiStudio/Source/IO/VideoFile.cs:264-273 | The end of frame f's run is after f, within the song. |
| Tempo.RunsPartition | FamiStudio/Source/IO/VideoFile.cs:256-284 | Every frame's run is a maximal block of frames on the same pattern and row. |
| Tempo.RowsBefore | FamiStudio/Source/IO/VideoFile.cs:264-273 | A run starts after a row change, and every frame from its start to f is on f's row. |
| Tempo.RowsAfter | FamiStudio/Source/IO/VideoFile.cs:264-273 | A run ends at a row change or at the song's end, and every frame up to it is on f's row. |
| Tempo.RunStartInRun | FamiStudio/Source/IO/VideoFile.cs:256-283 | Every frame of a run has that run's start. |
| Tempo.RunEndInRun | FamiStudio/Source/IO/VideoFile.cs:256-283 | Every frame of a run has that run's end. |
| Tempo.SmoothedMovesNoteOnly | FamiStudio/Source/IO/VideoFile.cs:278-281 | Smoothing changes only playNote. The note rises by less than one row, and stays put exactly on a run's first frame. |
| Tempo.OffsetInUnitInterval | FamiStudio/Source/IO/VideoFile.cs:280 | The added offset i/n lies in [0, 1), and is 0 exactly at a run's start. |
| Tempo.SmoothedIncreasesInRun | FamiStudio/Source/IO/VideoFile.cs:278-281 | Inside a run the smoothed notes strictly increase and stay below the next row. |
| Tempo.SmoothedKeepsRow | FamiStudio/Source/IO/VideoFile.cs:280 | A frame on an integer row keeps that row as the floor of its smoothed position. |
| Tempo.SmoothFamiTrackerTempo | FamiStudio/Source/IO/VideoFile.cs:252-285 | Every frame becomes Smoothed(old frames, f). |
| Tempo.FindRowEnd | FamiStudio/Source/IO/VideoFile.cs:264-273 | Returns the first frame after f on another row, or the end, with all frames between on f's row. |
| Tempo.SmoothRun | FamiStudio/Source/IO/VideoFile.cs:275-281 | The frames of [f, nf) are smoothed, and all other frames are untouched. |
| Oscilloscope.WalkBack | FamiStudio/Source/IO/VideoFile.cs:50-53 | The backward search stays within [0, p]. |
| Oscilloscope.WalkForward | FamiStudio/Source/IO/VideoFile.cs:55-58 | The forward search stays within [p, length). |
| Oscilloscope.Anchor | FamiStudio/Source/IO/VideoFile.cs:44-62 | The anchor is a valid index of the buffer. |
| Oscilloscope.WalkBackStops | FamiStudio/Source/IO/VideoFile.cs:48-62 | The backward walk stops where StopsBack says: at a negative sample, at index 0, or after maxLookback steps. |
| Oscilloscope.WalkForwardStops | FamiStudio/Source/IO/VideoFile.cs:48-62 | The forward walk stops where StopsForward says: at a positive sample, at the end, or after maxLookback steps. |
| Oscilloscope.AnchorIsFirstCrossing | FamiStudio/Source/IO/VideoFile.cs:44-62 | The anchor is exactly the first stopping point in the direction the starting sample's sign chooses (both directions of the iff). |
| Oscilloscope.SilenceWalksForward | FamiStudio/Source/IO/VideoFile.cs:55-61 | On a silent buffer the search walks forward the whole budget, clipped to the buffer's end. |
| Oscilloscope.FindCrossing | FamiStudio/Source/IO/VideoFile.cs:44-62 | The search loop returns Anchor. |
| Oscilloscope.SampleIndex | FamiStudio/Source/IO/VideoFile.cs:68 | The sampled index is clamped into the buffer. |
| Oscilloscope.ScaledSample | FamiStudio/Source/IO/VideoFile.cs:70 | The scaled sample is clamped to the 16-bit range. |
| Oscilloscope.PointXSpansWidth | FamiStudio/Source/IO/VideoFile.cs:72 | x runs from minX at the first point to maxX at the last, monotonically. |
| Oscilloscope.PointYWithin | FamiStudio/Source/IO/VideoFile.cs:73 | Every y lies within [minY, maxY]. |
| Oscilloscope.PointYMonotone | FamiStudio/Source/IO/VideoFile.cs:73 | A larger sample is drawn nearer maxY. |
| Oscilloscope.SampleIndexMonotone | FamiStudio/Source/IO/VideoFile.cs:68 | The window moves forward through the buffer from point to point. |
| Oscilloscope.GenerateOscilloscope | FamiStudio/Source/IO/VideoFile.cs:42-78 | Point i gets PointX and TraceY at the anchor. Other columns of the output array are untouched. |
| Compositor.Blend | FamiStudio/Source/IO/VideoFile.cs:536-545 | The integer blend before the byte cast is never negative; with a transparent overlay (straight variant) it is the channel colour × 255/256. |
| Compositor.Composite | FamiStudio/Source/IO/VideoFile.cs:524-553 | The written pixel starts with 255, and a transparent overlay passes the channel colour through as (255, B, G, R). |
| Compositor.BlendFits | FamiStudio/Source/IO/VideoFile.cs:543-545 | The straight blend is at most 254 and lies between its inputs up to rounding down. |
| Compositor.PremultipliedBlendFits | FamiStudio/Source/IO/VideoFile.cs:537-541 | The Windows blend fits a byte when the overlay is premultiplied. |
| Compositor.PremultipliedBlendWrapsOtherwise | FamiStudio/Source/IO/VideoFile.cs:539 | A non-premultiplied overlay overflows the Windows blend (507), and the byte cast wraps it to 251. |
| Compositor.OpaqueOverlay | FamiStudio/Source/IO/VideoFile.cs:536-546 | An opaque overlay gives its colour × 255/256, so 255 becomes 254. |
| Compositor.CompositeLayout | FamiStudio/Source/IO/VideoFile.cs:524-553 | The output is (255, B, G, R). A transparent overlay passes the channel colour through, and otherwise each component is the blend. |
| Compositor.FlatOffsetInjective | FamiStudio/Source/IO/VideoFile.cs:521-522 | Distinct (row, column, byte) triples map to distinct offsets inside the image buffer. |
| Compositor.RotatedMapping | FamiStudio/Source/IO/VideoFile.cs:521-522 | Video pixel (x, channelPosX + y) takes channel pixel (resY - y - 1, resX - x - 1): the strip is the channel image rotated. |
| Compositor.CompositePixel | FamiStudio/Source/IO/VideoFile.cs:519-560 | The inner body writes Composite at one pixel and touches nothing else. |
| Compositor.CompositeColumn | FamiStudio/Source/IO/VideoFile.cs:519-560 | Column channelPosX + y is composited on every row, and nothing else changes. |
| Compositor.CompositeChannel | FamiStudio/Source/IO/VideoFile.cs:517-561 | Every pixel of the strip is composited from the rotated channel image, and pixels outside the strip are untouched. |
| Compositor.SeamMatchesComposite | FamiStudio/Source/IO/VideoFile.cs:566-581 | A fixed seam pixel has the same byte layout as a composited pixel under a transparent overlay. |
| Compositor.FixSeam | FamiStudio/Source/IO/VideoFile.cs:566-581 | Column channelPosX - 1 is byte-swapped on every row, and nothing else changes. |
| Export.SelectedChannels | FamiStudio/Source/IO/VideoFile.cs:379-382 | The channels the mask keeps number at most the channel count (SelectedChannelsSpec gives the exact set and order). |
| Export.SelectedChannelsSpec | FamiStudio/Source/IO/VideoFile.cs:379-382 | The selection is strictly increasing and holds exactly the channels whose mask bit (i mod 32) is set. |
| Export.EmptyMaskSelectsNothing | FamiStudio/Source/IO/VideoFile.cs:354-355 | A zero mask selects no channel. |
| Export.SelectChannels | FamiStudio/Source/IO/VideoFile.cs:379-401 | Selected channels get consecutive video indices 0, 1, 2, … paired with their song channel index, in order. |
| Export.OscLookback | FamiStudio/Source/IO/VideoFile.cs:407 | The truncated half of the first offsets' gap: for non-decreasing offsets, non-negative and at most half the gap. |
| Export.OscLookbackIsHalfFirstFrame | FamiStudio/Source/IO/VideoFile.cs:407 | The look-back is half the samples BeginPlaySong produced, and is non-negative. |
| Export.ComposeChannel | FamiStudio/Source/IO/VideoFile.cs:514-581 | The strip is composited. The seam column is swapped when the strip does not start at the previous strip's end. Nothing else changes. |
| Export.SaveResultAsWritten | FamiStudio/Source/IO/VideoFile.cs:352-635 | An empty mask or a missing ffmpeg returns false; otherwise the result is true, whether or not the export threw (the catch at 618-635 only logs). |
| Export.SaveReportsFailedExport | FamiStudio/Source/IO/VideoFile.cs:618-635 | An export that threw still returns true. |
| Export.SaveResult | FamiStudio/Source/IO/VideoFile.cs:352-358 | The corrected Save reports success only if the mask is non-empty, ffmpeg is found and nothing threw. |
| Export.SaveResultCorrected | FamiStudio/Source/IO/VideoFile.cs:618-635 | The correction agrees with Save whenever nothing threw. |
| Params.Snap | FamiStudio/Source/UI/Common/ParamProviders.cs:47 | Truncating snap: the result has the value's sign, moves toward zero, and moves by less than one step. |
| Params.SnapAndClampValue | FamiStudio/Source/UI/Common/ParamProviders.cs:43-51 | With MinValue <= MaxValue the result lies in [MinValue, MaxValue], whatever the step. |
| Params.SnapAndClampInRange | FamiStudio/Source/UI/Common/ParamProviders.cs:43-51 | With MinValue <= MaxValue the result is in range. |
| Params.SnapAndClampWithoutStep | FamiStudio/Source/UI/Common/ParamProviders.cs:45-50 | A step of 1 or less is a plain clamp. |
| Params.SnapIsMultiple | FamiStudio/Source/UI/Common/ParamProviders.cs:47 | A snapped value is a multiple of the step. |
| Params.SnapKeepsMultiple | FamiStudio/Source/UI/Common/ParamProviders.cs:47 | Snapping leaves multiples of the step unchanged (idempotence). |
| Params.SnapAndClampKeepsMultiple | FamiStudio/Source/UI/Common/ParamProviders.cs:43-51 | An in-range multiple of the step comes back unchanged. |
| Params.SnapAndClampGivesMultiple | FamiStudio/Source/UI/Common/ParamProviders.cs:43-51 | With bounds that are multiples of the step, every result is a multiple of the step. |
| Params.NegativeSnapsTowardZero | FamiStudio/Source/UI/Common/ParamProviders.cs:47 | With a step of 4, -5 snaps to -4: toward zero, not down. |
| BitFields.GetField | FamiStudio/Source/UI/Common/ParamProviders.cs:154 | The GetValue lambda's bits, `(reg & mask) >> shift`, are at most the mask moved down to bit 0. |
| BitFields.SetFieldValue | FamiStudio/Source/UI/Common/ParamProviders.cs:154 | The SetValue lambda's new register keeps every bit outside the mask. |
| BitFields.FieldValue | FamiStudio/Source/UI/Common/ParamProviders.cs:154 | A field reads 0..MaxValue (its mask shifted down). |
| BitFields.SetKeepsOtherBits | FamiStudio/Source/UI/Common/ParamProviders.cs:154 | SetValue changes no bit outside the field's mask. |
| BitFields.SetKeepsOtherFields | FamiStudio/Source/UI/Common/ParamProviders.cs:153-200 | Setting a field leaves every field with a disjoint mask reading the same. |
| BitFields.SetTruncates | FamiStudio/Source/UI/Common/ParamProviders.cs:154 | Any int value leaves its low bits that fit the mask in the field. |
| BitFields.GetAfterSet | FamiStudio/Source/UI/Common/ParamProviders.cs:154 | GetValue after SetValue(v) returns v for every v in 0..MaxValue. |
| BitFields.SetCurrentValueKeepsRegister | FamiStudio/Source/UI/Common/ParamProviders.cs:154 | Setting the value that GetValue reports leaves the register unchanged. |
| InstrumentParams.Vrc7Field | FamiStudio/Source/UI/Common/ParamProviders.cs:153-200 | Each of the 24 VRC7 fields is well formed, lives in registers 0..7, and its parameter maximum equals its mask's range. |
| InstrumentParams.Vrc7FieldsDisjoint | FamiStudio/Source/UI/Common/ParamProviders.cs:153-200 | No two VRC7 parameters share a register bit. |
| InstrumentParams.EpsmGlobalField | FamiStudio/Source/UI/Common/ParamProviders.cs:208-223 | Each of the 8 EPSM global fields (Algorithm, Feedback, Left, Right, AMS, PMS, LFO enable, LFO) lives in register 0, 1 or 30, is well formed, and its parameter maximum equals its mask's range. |
| InstrumentParams.EpsmGlobalFieldsDisjoint | FamiStudio/Source/UI/Common/ParamProviders.cs:208-223 | No two EPSM global parameters share a bit. |
| InstrumentParams.OperatorFieldsDisjoint | FamiStudio/Source/UI/Common/ParamProviders.cs:232-255 | No two fields of one operator share a bit. |
| InstrumentParams.OperatorFieldAt | FamiStudio/Source/UI/Common/ParamProviders.cs:228-255 | Operator i's field is the operator-0 field moved 7·i registers up, inside operator i's 2+7i..8+7i block. |
| InstrumentParams.OperatorRegistersSeparate | FamiStudio/Source/UI/Common/ParamProviders.cs:225-256 | Different operators use different registers, none of them a global register. |
| InstrumentParams.EpsmFieldsDisjoint | FamiStudio/Source/UI/Common/ParamProviders.cs:208-256 | No two of the 56 EPSM register parameters share a bit. |
| InstrumentParams.FdsParams | FamiStudio/Source/UI/Common/ParamProviders.cs:119-132 | The FDS list has six property parameters. |
| InstrumentParams.N163Params | FamiStudio/Source/UI/Common/ParamProviders.cs:134-141 | The N163 list has three property parameters. |
| InstrumentParams.Vrc7Params | FamiStudio/Source/UI/Common/ParamProviders.cs:148-200 | The VRC7 list is the ADSR drawing, the patch (0..15, default 1) and then the 24 register fields. |
| InstrumentParams.EpsmHeader | FamiStudio/Source/UI/Common/ParamProviders.cs:204-223 | The EPSM list starts with the patch (0..1, default 1), the algorithm drawing and then the 8 global fields. |
| InstrumentParams.OperatorParams | FamiStudio/Source/UI/Common/ParamProviders.cs:225-255 | One operator contributes a drawing row and its 12 fields, all on tab "OP(i+1)"; with `SixStride` the Detune default is read from byte 2+6i as at line 232. |
| InstrumentParams.OperatorsParams | FamiStudio/Source/UI/Common/ParamProviders.cs:225-256 | n operators contribute 13·n parameters, in operator order. |
| InstrumentParams.AddOperatorParams | FamiStudio/Source/UI/Common/ParamProviders.cs:225-256 | The operator loop appends exactly OperatorsParams(4) as written, Detune defaults read from byte 2+6i. |
| InstrumentParams.GetParams | FamiStudio/Source/UI/Common/ParamProviders.cs:87-262 | Null iff HasParams is false (an empty list); otherwise the pitch row (if active) followed by the expansion's list as written, Detune defaults included. |
| InstrumentParams.HasParams | FamiStudio/Source/UI/Common/ParamProviders.cs:76-85 | True for an active pitch envelope or an FDS, N163, VRC6, EPSM or VRC7 instrument; ParamListEmptyIffNoParams ties it to a non-empty list. |
| InstrumentParams.ParamListEmptyIffNoParams | FamiStudio/Source/UI/Common/ParamProviders.cs:76-85 | The list is empty iff neither the pitch envelope nor an FDS, N163, VRC6, VRC7 or EPSM expansion applies. |
| InstrumentParams.ParamListWellDescribed | FamiStudio/Source/UI/Common/ParamProviders.cs:87-262 | In the corrected list every default lies in its range. Every register parameter is well formed, ranges over exactly 0..MaxValue, and defaults to its own field in patch 1. |
| InstrumentParams.OperatorsParamsWellDescribed | FamiStudio/Source/UI/Common/ParamProviders.cs:225-256 | The same holds for every operator block. |
| InstrumentParams.Vrc7ParamsWellDescribed | FamiStudio/Source/UI/Common/ParamProviders.cs:148-200 | The same holds for the VRC7 list. |
| InstrumentParams.EpsmHeaderWellDescribed | FamiStudio/Source/UI/Common/ParamProviders.cs:204-223 | The same holds for the EPSM header. |
| InstrumentParams.N163WaveSnapsToFour | FamiStudio/Source/UI/Common/ParamProviders.cs:137-140 | Any value entered for Wave Size or Wave Position becomes a multiple of 4 in range. |
| InstrumentParams.DetuneDefaultAsWritten | FamiStudio/Source/UI/Common/ParamProviders.cs:232 | The as-written Detune default is a 3-bit value read from patch byte 2+6i. |
| InstrumentParams.OperatorParamsAsWritten | FamiStudio/Source/UI/Common/ParamProviders.cs:225-256 | An operator as written differs from the corrected one only in the Detune default (byte 2+6i), and not at all for operator 1. |
| InstrumentParams.OperatorsParamsAsWritten | FamiStudio/Source/UI/Common/ParamProviders.cs:225-256 | The same for the whole operator loop: entries agree up to the Detune defaults of operators 2 to 4. |
| InstrumentParams.ParamListAsWritten | FamiStudio/Source/UI/Common/ParamProviders.cs:87-262 | GetParams's list equals the corrected list outside EPSM; in EPSM every entry has the same kind, name, range and tab, and only the Detune defaults of operators 2 to 4 may differ, still within 0..7. |
| InstrumentParams.GetParamsShowsWrongDetune | FamiStudio/Source/UI/Common/ParamProviders.cs:232 | With Detune 1 on operator 2 in patch 1, entry 24 of the EPSM list (that Detune) shows 0, where the corrected list shows 1. |
| InstrumentParams.DetuneDefaultReadsWrongRegister | FamiStudio/Source/UI/Common/ParamProviders.cs:232-233 | A patch with Detune 1 on operator 2 shows a default of 0. |
| InstrumentParams.OperatorDefaultsFromOwnRegister | FamiStudio/Source/UI/Common/ParamProviders.cs:228-255 | In the corrected list each operator field defaults to its own register 2+7i+… in patch 1. |
| InstrumentParams.WriteField | FamiStudio/Source/UI/Common/ParamProviders.cs:154 | A register write changes only the field's register. |
| InstrumentParams.WriteThenRead | FamiStudio/Source/UI/Common/ParamProviders.cs:154 | A value that fits reads back. |
| InstrumentParams.WriteKeepsDisjointField | FamiStudio/Source/UI/Common/ParamProviders.cs:153-256 | Writing a field leaves every disjoint field reading the same. |
| InstrumentParams.WriteCurrentValueKeepsRegisters | FamiStudio/Source/UI/Common/ParamProviders.cs:154 | Writing back the current value leaves the registers unchanged. |
| InstrumentParams.Instrument.GetValue | FamiStudio/Source/UI/Common/ParamProviders.cs:95 | Pitch reads 1 iff relative. A register reads 0..MaxValue, a patch reads a byte, and a drawing row reads 0. |
| InstrumentParams.Instrument.SetPitchRelative | FamiStudio/Source/UI/Common/ParamProviders.cs:97-113 | Relative becomes v != 0, and nothing else changes. |
| InstrumentParams.Instrument.SetPatch | FamiStudio/Source/UI/Common/ParamProviders.cs:152 | The chip's patch becomes (byte)v, and the other patch is unchanged. |
| InstrumentParams.Instrument.SetRegister | FamiStudio/Source/UI/Common/ParamProviders.cs:154 | The registers become WriteField(old, f, v): a fitting value reads back and disjoint fields are unchanged. The chip's patch is reset to 0. |
| InstrumentParams.Instrument.SetValue | FamiStudio/Source/UI/Common/ParamProviders.cs:93-256 | Any value within the parameter's range reads back. The patch resets on a register write. Every separate register parameter reads as before, and a pitch-envelope write leaves the registers alone. |
| DpcmParams.DpcmSample.GetReverseBits | FamiStudio/Source/UI/Common/ParamProviders.cs:424 | Reads 0 or 1: 0 on WAV source data, and 1 iff the bits are reversed on DMC data. |
| DpcmParams.DpcmSample.SetReverseBits | FamiStudio/Source/UI/Common/ParamProviders.cs:424 | On DMC data it stores v != 0 and reprocesses once, and 0 and 1 read back. On WAV data it changes nothing and the parameter still reads 0. |
| DpcmParams.ReverseBitsEntryIsFlag | FamiStudio/Source/UI/Common/ParamProviders.cs:423 | An entered value snaps and clamps to 0 or 1, and becomes 1 iff it is at least 1. |

## Left out

- **Outside the model.**
  - Drawing, bitmaps, fonts and the piano roll.
  - ffmpeg processes, temporary files and the audio (WavPlayer, WaveFile).
  - The APU emulation, abstracted as the `Playback` script.
  - These are I/O or foreign code. The rendered images are inputs to the compositing.
- **C# `float` arithmetic** is modelled on `real`: single-precision rounding is not captured.
- **`Math.Round` in the channel positions.** `channelPosX` and `prevChannelEndPosX` are inputs to `Export.ComposeChannel`, since the rounding is floating point.
- **The `maxAbsSample` scan and `oscScale`** (VideoFile.cs:398-406) are left out. The scale is an input to `GenerateOscilloscope`.
- **Oscilloscope.GenerateOscilloscope** requires at least two output points. With one point the C# code divides by zero in float and draws at NaN, which `real` cannot express.
- **Oscilloscope.SampleIndex** does not model 32-bit overflow of `i * windowSize`. The window sizes used are far below it.
- **Metadata.MaxSample** states the cap only when `duration * sampleRate` fits 32 bits. The body wraps the product explicitly.
- **Export.OscLookback** is stated on the generated metadata, which has at least two records. Save indexes `metadata[1]` without a check and would throw on a song without frames; that throw is not modelled.
- **ComputeChannelsScroll: minOverallNote and maxOverallNote** (VideoFile.cs:94-95, 133-134) are computed but never used, so they are not modelled.
- **ComputeChannelsScroll: frame 0.** It reads `frames[0]` for the channel count, so the model requires at least one frame. GetVideoMetadata always gives one when the song begins.
- **List.Sort in the merge loop** is unstable. The model picks the first of equally short segments. Any choice gives a tiling with the same guarantees, but the exact segments can differ.
- **The Note class, the arpeggio envelope and `Note.FromFriendlyName("C4")`** (from Note.cs and Arpeggio.cs) are not part of this model. A note is reduced to the fields the exporter reads, and C4 is note 49.
- **The per-frame rendering loop of Save** (VideoFile.cs:447-599) is modelled one channel step at a time (`ComposeChannel`). Writing the frame to the ffmpeg pipe is I/O.
- **FDS, N163 and VRC6 properties.** Their `GetValue`/`SetValue` delegates write instrument properties of `Instrument.cs`, which is not part of this model. The list entries (names, ranges, defaults, snapping) are modelled; the reads and writes are not.
- ChannelScroll.ComputeChannelsScroll uses the corrected merge (`MergeShortSegments`), and so do ChannelScroll.ComputeSelectedChannels and ChannelScroll.ComputeChannelScroll. On a song with fewer than 32 frames, where a selected channel's segmentation has two or more segments, the merge loop at VideoFile.cs:172-216 never returns; these methods return the merged tiling instead. `MergeShortSegmentsAsWritten` states exactly when the source hangs (see Findings).
- Metadata.VideoMetadataPlayer.EndFrame adds to an unbounded `numSamples`, and `prevNumSamples`, `LoopSnapshots` and `VideoMetadata` use unbounded sums too. In C# these are `int`s that wrap after 2^31 - 1 samples (about 13.5 hours at 44100 Hz), which would upset the `numSamples < maxSample` test at VideoFile.cs:703; the wrap is not modelled.
- InstrumentParams.Instrument.SetValue says nothing of the registers after a Patch write: the `Vrc7Patch` and `EpsmPatch` setters of `Instrument.cs` load the preset's registers, and that file is not part of this model. The model's SetPatch leaves them as they are.
- **Instrument.SetPatch** stores the `(byte)` cast. The `Vrc7Patch` and `EpsmPatch` property setters in `Instrument.cs`, which also load the preset's registers, are not part of this model.
- **InstrumentParams.Instrument.SetValue** requires a well-formed field for register parameters. Every field in the tables is well formed (`Vrc7Field`, `EpsmField`), and the C# code has no such check to model.
- **Register array sizes.** The instrument's register arrays are assumed to hold at least 8 (VRC7) and 31 (EPSM) bytes, as `Instrument.cs` allocates them.
- **WavePresetType.Count and its Sine/Flat indices, and the patch-1 register bytes,** come from other files. They are inputs (`Presets`).
- **InstrumentParams.AddOperatorParams** is the EPSM operator loop, taken out of `GetParams` as a method of its own. It appends in the same order.
- **The other DPCM parameters** (preview rate, sample rate, padding, DMC initial value, volume adjust, fine tuning, PAL processing, trim) are left out as outside the modelled core. `DPCMSample.Process` is a counter of calls.
- **Tool tips, `GetValueString` labels and custom-draw callbacks** are display-only and are not modelled.

## Findings

| source | as written | input that shows it | evidently intended | confidence | as-written member | corrected member |
|---|---|---|---|---|---|---|
| FamiStudio/Source/IO/VideoFile.cs:172-216 | `removed` is set to true inside the loop and never reset. Once a merge has happened, a pass that merges nothing repeats forever. With one segment left that is shorter than 32 frames, no pass can merge. | A channel whose notes jump by more than the view (note 30, then note 80, with 20 visible notes) in a 2-frame song: two segments, which merge into one 2-frame segment, after which the loop never ends. | Reset `removed` at the start of every pass, so the loop stops once nothing can be merged. | not executed | ChannelScroll.MergeShortSegmentsAsWritten, ChannelScroll.TwoFrameSongHasTwoSegments | ChannelScroll.MergeShortSegments |
| FamiStudio/Source/UI/Common/ParamProviders.cs:232 | The default of operator i's Detune reads patch-1 byte `2 + 6 * i`, while its GetValue and SetValue use byte `2 + 7 * i`. | Patch 1 with Detune 1 on operator 2 (byte 9 = 0x10) and byte 8 = 0: the default shown is 0, while the field holds 1. | Read the default from byte `2 + 7 * i`, like every other operator field. | not executed | InstrumentParams.DetuneDefaultAsWritten, InstrumentParams.DetuneDefaultReadsWrongRegister, InstrumentParams.GetParamsShowsWrongDetune | InstrumentParams.OperatorDefaultsFromOwnRegister, InstrumentParams.ParamListWellDescribed |
| FamiStudio/Source/IO/VideoFile.cs:618-635 | The catch only logs the exception, and `Save` then returns true. | An export during which ffmpeg or the file system throws: Save reports success. | Return false when the export threw. | not executed | Export.SaveResultAsWritten, Export.SaveReportsFailedExport | Export.SaveResult, Export.SaveResultCorrected |
