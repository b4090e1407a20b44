/**
  The parts of VideoFile.Save that are plain computation: which song channels
  the mask selects and the video column each one gets, the oscilloscope
  look-back taken from the first two metadata snapshots, the per-channel
  compositing step with its seam fix-up, and the value Save returns.
  Launching ffmpeg, drawing and the audio engine are outside the model; the
  rendered images are inputs.
 */
module Export {
  import opened Utils
  import opened Metadata
  import opened ChannelScroll
  import opened Compositor

  /** The per-channel state Save keeps, reduced to its two indices (icon, wave and channel object are outside the model). */
  datatype VideoChannelState = VideoChannelState(videoChannelIndex: nat, songChannelIndex: nat)

  /** The song channels among the first `n` that the mask selects, in increasing order. */
  function SelectedChannels(channelMask: int, n: nat): (r: seq<nat>)
    ensures |r| <= n
  {
    if n == 0 then []
    else SelectedChannels(channelMask, n - 1) + (if ChannelSelected(channelMask, n - 1) then [n - 1] else [])
  }

  /** The selection is strictly increasing and holds exactly the selected channels below `n`. */
  lemma {:induction false} SelectedChannelsSpec(channelMask: int, n: nat)
    ensures var r := SelectedChannels(channelMask, n);
      && (forall j :: 0 <= j < |r| ==> r[j] < n)
      && (forall j, k :: 0 <= j < k < |r| ==> r[j] < r[k])
      && (forall i :: 0 <= i < n ==> (i in r <==> ChannelSelected(channelMask, i)))
  {
    if n > 0 {
      SelectedChannelsSpec(channelMask, n - 1);
      var r := SelectedChannels(channelMask, n - 1);
      assert n - 1 !in r;
    }
  }

  lemma {:induction false} NoBitOfZero(b: nat)
    ensures !Bit(0, b)
  {
    if b > 0 {
      NoBitOfZero(b - 1);
    }
  }

  /** An empty mask selects no channel (Save rejects it before getting here). */
  lemma {:induction false} EmptyMaskSelectsNothing(n: nat)
    ensures SelectedChannels(0, n) == []
  {
    if n > 0 {
      EmptyMaskSelectsNothing(n - 1);
      NoBitOfZero((n - 1) % 32);
    }
  }

  /**
    The channel loop of Save: skips every channel whose mask bit is clear and
    gives the selected ones consecutive video column indices 0, 1, 2, ...
   */
  method SelectChannels(channelMask: int, numSongChannels: nat) returns (channelStates: seq<VideoChannelState>)
    ensures |channelStates| == |SelectedChannels(channelMask, numSongChannels)|
    ensures forall j :: 0 <= j < |channelStates| ==>
      channelStates[j] == VideoChannelState(j, SelectedChannels(channelMask, numSongChannels)[j])
  {
    channelStates := [];
    var channelIndex := 0;
    var i := 0;
    while i < numSongChannels
      invariant 0 <= i <= numSongChannels
      invariant channelIndex == |channelStates| == |SelectedChannels(channelMask, i)|
      invariant forall j :: 0 <= j < |channelStates| ==>
        channelStates[j] == VideoChannelState(j, SelectedChannels(channelMask, i)[j])
      decreases numSongChannels - i
    {
      if !ChannelSelected(channelMask, i) {
        i := i + 1;
        continue;
      }
      channelStates := channelStates + [VideoChannelState(channelIndex, i)];
      channelIndex := channelIndex + 1;
      i := i + 1;
    }
  }

  /** Half the samples between the first two snapshots: how far back the oscilloscope may look for a zero crossing. */
  function OscLookback(metadata: seq<FrameMetadata>): (r: int)
    requires |metadata| >= 2
    ensures metadata[0].wavOffset <= metadata[1].wavOffset ==> 0 <= 2 * r <= metadata[1].wavOffset - metadata[0].wavOffset
  {
    CsDiv(metadata[1].wavOffset - metadata[0].wavOffset, 2)
  }

  /** On the generated metadata the look-back is half the samples BeginPlaySong produced. */
  lemma OscLookbackIsHalfFirstFrame(p: Playback, sampleRate: int, duration: int)
    requires |VideoMetadata(p, sampleRate, duration)| >= 2
    ensures OscLookback(VideoMetadata(p, sampleRate, duration)) == p.initialSamples / 2
    ensures OscLookback(VideoMetadata(p, sampleRate, duration)) >= 0
  {
    FirstOffsetsGap(p, sampleRate, duration);
  }

  /**
    One channel's step of a video frame: composite the channel image into its
    strip, then, for every channel but the first whose strip does not start
    where the previous one ended, byte-swap the column just left of the strip.
   */
  method ComposeChannel(videoImage: array3<byte>, channelImage: array3<byte>, channelResX: int, channelResY: int,
                        channelPosX: int, videoChannelIndex: int, prevChannelEndPosX: int, premultiplied: bool)
    requires videoImage.Length2 == 4 && channelImage.Length2 == 4 && videoImage != channelImage
    requires channelImage.Length0 == channelResY && channelImage.Length1 == channelResX
    requires channelResX == videoImage.Length0
    requires 0 <= channelPosX && channelPosX + channelResY <= videoImage.Length1
    requires NeedsSeamFix(videoChannelIndex, channelPosX, prevChannelEndPosX) ==> 1 <= channelPosX
    modifies videoImage
    ensures forall x, c :: 0 <= x < channelResX && channelPosX <= c < channelPosX + channelResY ==>
      PixelAt(videoImage, x, c)
        == Composite(old(PixelAt(videoImage, x, c)), PixelAt(channelImage, channelResY - (c - channelPosX) - 1, channelResX - x - 1), premultiplied)
    ensures NeedsSeamFix(videoChannelIndex, channelPosX, prevChannelEndPosX) ==>
      forall y, c :: 0 <= y < videoImage.Length0 && c == channelPosX - 1 ==>
        PixelAt(videoImage, y, c) == Swapped(old(PixelAt(videoImage, y, c)))
    ensures forall r, c, k :: (0 <= r < videoImage.Length0 && 0 <= c < videoImage.Length1 && 0 <= k < 4
      && !InStrip(channelPosX, channelResX, channelResY, r, c)
      && !(NeedsSeamFix(videoChannelIndex, channelPosX, prevChannelEndPosX) && c == channelPosX - 1)) ==>
      videoImage[r, c, k] == old(videoImage[r, c, k])
  {
    CompositeChannel(videoImage, channelImage, channelResX, channelResY, channelPosX, premultiplied);
    if videoChannelIndex > 0 && channelPosX != prevChannelEndPosX {
      FixSeam(videoImage, channelPosX);
    }
  }

  // ---------------------------------------------------------------------------
  // What Save returns.

  /**
    Save as written: an empty mask or a missing ffmpeg returns false; once the
    export has started, the result is true whether or not it threw (the catch
    only logs).
   */
  function SaveResultAsWritten(channelMask: int, ffmpegFound: bool, exportThrew: bool): (ok: bool)
    ensures channelMask == 0 || !ffmpegFound ==> !ok
    ensures channelMask != 0 && ffmpegFound ==> ok
  {
    if channelMask == 0 then false
    else if !ffmpegFound then false
    else true
  }

  /** A failed export is reported as a success. */
  lemma SaveReportsFailedExport()
    ensures SaveResultAsWritten(1, true, true)
  {
  }

  /** Save with the result the caller evidently expects: false also when the export threw. */
  function SaveResult(channelMask: int, ffmpegFound: bool, exportThrew: bool): (ok: bool)
    ensures ok ==> channelMask != 0 && ffmpegFound && !exportThrew
  {
    channelMask != 0 && ffmpegFound && !exportThrew
  }

  /** The corrected result reports success only if the export completed, and agrees with Save whenever nothing threw. */
  lemma SaveResultCorrected(channelMask: int, ffmpegFound: bool, exportThrew: bool)
    ensures SaveResult(channelMask, ffmpegFound, exportThrew) ==> !exportThrew
    ensures !exportThrew ==> SaveResult(channelMask, ffmpegFound, exportThrew) == SaveResultAsWritten(channelMask, ffmpegFound, exportThrew)
    ensures SaveResult(channelMask, ffmpegFound, exportThrew) ==> SaveResultAsWritten(channelMask, ffmpegFound, exportThrew)
  {
  }
}
