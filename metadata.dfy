/**
  Frame metadata of a video export (VideoFrameMetadata, VideoFile.cs) and the
  player that produces it (VideoMetadataPlayer): the song is played one frame
  at a time and the playback state is recorded once before the first frame and
  once after every frame, together with the audio sample offset of that frame.

  The playback engine (BasePlayer, the APU emulation) is not part of this model.
  It is abstracted as a `Playback` script: whether BeginPlaySong succeeds, the
  state it leaves and the samples it emits, then the state and the sample count
  of every frame that PlaySongFrame plays before it reports the end of the song.
 */
module Metadata {
  import opened Utils

  /** Arpeggio.GetChordMinMaxOffset's two out-values; they come from arpeggio envelope values (signed bytes). */
  datatype ChordOffsets = ChordOffsets(minOffset: sbyte, maxOffset: sbyte)

  /** The part of a channel's current Note that the export reads. */
  datatype Note = Note(
    isMusical: bool,
    value: byte,
    isSlideNote: bool,
    slideNoteTarget: byte,
    isArpeggio: bool,
    chord: Option<ChordOffsets>)  // None: GetChordMinMaxOffset returned false

  /**
    One video frame's metadata. `scroll` is the per-channel camera position
    written by the scroll segmentation; the empty sequence stands for the null
    array the player leaves there.
   */
  datatype FrameMetadata = FrameMetadata(
    playPattern: int,
    playNote: real,
    wavOffset: int,
    channelNotes: seq<Note>,
    channelVolumes: seq<int>,
    scroll: seq<real>)

  /** What the playback engine exposes: pattern, row, and every channel's current note and volume. */
  datatype PlayerState = PlayerState(playPattern: int, playNote: real, notes: seq<Note>, volumes: seq<int>)

  /** One successful PlaySongFrame: the state it leaves and the samples its EndFrame produced. */
  datatype FrameStep = FrameStep(state: PlayerState, numSamples: nat)

  /** The playback engine as the exporter sees it. */
  datatype Playback = Playback(begins: bool, initial: PlayerState, initialSamples: nat, steps: seq<FrameStep>)

  /** Samples produced by the first `k` frames of the script. */
  function SamplesBefore(steps: seq<FrameStep>, k: nat): (n: nat)
    requires k <= |steps|
    ensures k == 0 ==> n == 0
  {
    if k == 0 then 0 else SamplesBefore(steps, k - 1) + steps[k - 1].numSamples
  }

  /** Samples produced once frame `i` has been played (frames 0..i). */
  function SamplesThrough(steps: seq<FrameStep>, i: nat): nat
    requires i < |steps|
  {
    SamplesBefore(steps, i + 1)
  }

  /** The record WriteMetadata adds for the player's current state. */
  function Snapshot(s: PlayerState, wavOffset: int): (m: FrameMetadata)
    ensures m.wavOffset == wavOffset && m.playPattern == s.playPattern && m.playNote == s.playNote
    ensures m.channelNotes == s.notes && m.channelVolumes == s.volumes && m.scroll == []
  {
    FrameMetadata(s.playPattern, s.playNote, wavOffset, s.notes, s.volumes, [])
  }

  /** GetVideoMetadata's sample cap: `duration * sampleRate` in 32-bit arithmetic, int.MaxValue when there is no duration. */
  function MaxSample(sampleRate: int, duration: int): (m: int)
    ensures duration <= 0 ==> m == IntMax
    ensures duration > 0 && duration * sampleRate <= IntMax && sampleRate >= 0 ==> m == duration * sampleRate
  {
    if duration > 0 then Wrap32(duration * sampleRate) else IntMax
  }

  /**
    The records the stepping loop writes from frame `k` on, when `numSamples`
    samples have been produced so far (the count recorded at the last write).
   */
  function LoopSnapshots(steps: seq<FrameStep>, k: nat, numSamples: int, maxSample: int): seq<FrameMetadata>
    decreases |steps| - k
  {
    if k >= |steps| then []
    else
      var n := numSamples + steps[k].numSamples;
      if n < maxSample then [Snapshot(steps[k].state, numSamples)] + LoopSnapshots(steps, k + 1, n, maxSample)
      else []
  }

  /** The metadata GetVideoMetadata returns for a playback script. */
  function VideoMetadata(p: Playback, sampleRate: int, duration: int): seq<FrameMetadata>
  {
    if !p.begins then []
    else [Snapshot(p.initial, 0)] + LoopSnapshots(p.steps, 0, p.initialSamples, MaxSample(sampleRate, duration))
  }

  /** Number of frames the loop writes: it stops at the end of the song or at the first frame that reaches the cap. */
  function NumWritten(steps: seq<FrameStep>, base: int, maxSample: int): (m: nat)
    ensures m <= |steps|
  {
    NumWrittenFrom(steps, 0, base, maxSample)
  }

  function NumWrittenFrom(steps: seq<FrameStep>, k: nat, base: int, maxSample: int): (m: nat)
    requires k <= |steps|
    ensures m <= |steps| - k
    decreases |steps| - k
  {
    if k == |steps| || base + SamplesThrough(steps, k) >= maxSample then 0
    else 1 + NumWrittenFrom(steps, k + 1, base, maxSample)
  }

  /**
    Closed form of the loop: the j-th record written from frame k on is the
    state after frame k + j, stamped with the samples produced before that frame.
   */
  lemma {:induction false} LoopSnapshotsClosedForm(steps: seq<FrameStep>, k: nat, base: int, maxSample: int)
    requires k <= |steps|
    ensures var r := LoopSnapshots(steps, k, base + SamplesBefore(steps, k), maxSample);
      && |r| == NumWrittenFrom(steps, k, base, maxSample)
      && forall j :: 0 <= j < |r| ==> r[j] == Snapshot(steps[k + j].state, base + SamplesBefore(steps, k + j))
    decreases |steps| - k
  {
    if k < |steps| {
      var n := base + SamplesBefore(steps, k + 1);
      if n < maxSample {
        LoopSnapshotsClosedForm(steps, k + 1, base, maxSample);
        var r := LoopSnapshots(steps, k, base + SamplesBefore(steps, k), maxSample);
        var tail := LoopSnapshots(steps, k + 1, n, maxSample);
        assert r == [Snapshot(steps[k].state, base + SamplesBefore(steps, k))] + tail;
        forall j | 0 <= j < |r|
          ensures r[j] == Snapshot(steps[k + j].state, base + SamplesBefore(steps, k + j))
        {
          if j > 0 {
            assert r[j] == tail[j - 1];
            assert k + 1 + (j - 1) == k + j;
          }
        }
      }
    }
  }

  /**
    What GetVideoMetadata produces: nothing if BeginPlaySong fails; otherwise a first
    record of the initial state at offset 0, then the state after each of the first
    NumWritten frames, each stamped with the samples produced before that frame
    (BeginPlaySong's samples plus those of the earlier frames).
   */
  lemma VideoMetadataShape(p: Playback, sampleRate: int, duration: int)
    ensures var r := VideoMetadata(p, sampleRate, duration);
      && (!p.begins ==> r == [])
      && (p.begins ==>
            && |r| == 1 + NumWritten(p.steps, p.initialSamples, MaxSample(sampleRate, duration))
            && r[0] == Snapshot(p.initial, 0)
            && forall j :: 1 <= j < |r| ==>
                 r[j] == Snapshot(p.steps[j - 1].state, p.initialSamples + SamplesBefore(p.steps, j - 1)))
  {
    if p.begins {
      var cap := MaxSample(sampleRate, duration);
      LoopSnapshotsClosedForm(p.steps, 0, p.initialSamples, cap);
      var r := VideoMetadata(p, sampleRate, duration);
      var tail := LoopSnapshots(p.steps, 0, p.initialSamples, cap);
      assert r == [Snapshot(p.initial, 0)] + tail;
      forall j | 1 <= j < |r|
        ensures r[j] == Snapshot(p.steps[j - 1].state, p.initialSamples + SamplesBefore(p.steps, j - 1))
      {
        assert r[j] == tail[j - 1];
      }
    }
  }

  lemma {:induction false} SamplesBeforeMonotone(steps: seq<FrameStep>, i: nat, j: nat)
    requires i <= j <= |steps|
    ensures SamplesBefore(steps, i) <= SamplesBefore(steps, j)
    decreases j - i
  {
    if i < j {
      SamplesBeforeMonotone(steps, i, j - 1);
    }
  }

  /** Audio sample offsets never decrease from one record to the next. */
  lemma WavOffsetsNonDecreasing(p: Playback, sampleRate: int, duration: int, i: nat, j: nat)
    requires i <= j < |VideoMetadata(p, sampleRate, duration)|
    ensures VideoMetadata(p, sampleRate, duration)[i].wavOffset <= VideoMetadata(p, sampleRate, duration)[j].wavOffset
  {
    VideoMetadataShape(p, sampleRate, duration);
    if i >= 1 {
      SamplesBeforeMonotone(p.steps, i - 1, j - 1);
    }
  }

  /**
    The first two records lie BeginPlaySong's sample count apart (the offset
    lags the running count by one write), so Save's oscilloscope look-back,
    half of that difference, is 0 when BeginPlaySong emits no audio.
   */
  lemma FirstOffsetsGap(p: Playback, sampleRate: int, duration: int)
    requires |VideoMetadata(p, sampleRate, duration)| >= 2
    ensures var r := VideoMetadata(p, sampleRate, duration);
      r[0].wavOffset == 0 && r[1].wavOffset - r[0].wavOffset == p.initialSamples
  {
    VideoMetadataShape(p, sampleRate, duration);
  }

  lemma {:induction false} NumWrittenAll(steps: seq<FrameStep>, k: nat, base: int)
    requires k <= |steps|
    requires base + SamplesBefore(steps, |steps|) < IntMax
    ensures NumWrittenFrom(steps, k, base, IntMax) == |steps| - k
    decreases |steps| - k
  {
    if k < |steps| {
      SamplesBeforeMonotone(steps, k + 1, |steps|);
      NumWrittenAll(steps, k + 1, base);
    }
  }

  /** Without a duration cap every frame of a song shorter than int.MaxValue samples is recorded. */
  lemma UncappedRecordsEveryFrame(p: Playback, sampleRate: int, duration: int)
    requires p.begins && duration <= 0
    requires p.initialSamples + SamplesBefore(p.steps, |p.steps|) < IntMax
    ensures |VideoMetadata(p, sampleRate, duration)| == 1 + |p.steps|
  {
    VideoMetadataShape(p, sampleRate, duration);
    NumWrittenAll(p.steps, 0, p.initialSamples);
  }

  /** Every record after the first belongs to a frame that ended below the cap; the frame after the last record (if any) reached it. */
  lemma {:induction false} NumWrittenStops(steps: seq<FrameStep>, k: nat, base: int, maxSample: int)
    requires k <= |steps|
    ensures var m := NumWrittenFrom(steps, k, base, maxSample);
      && (forall i :: k <= i < k + m ==> base + SamplesThrough(steps, i) < maxSample)
      && (k + m < |steps| ==> base + SamplesThrough(steps, k + m) >= maxSample)
    decreases |steps| - k
  {
    if k < |steps| && base + SamplesThrough(steps, k) < maxSample {
      NumWrittenStops(steps, k + 1, base, maxSample);
    }
  }

  /**
    The VideoMetadataPlayer object: the running `numSamples` that EndFrame
    accumulates, `prevNumSamples` (the count at the last WriteMetadata) and the
    `metadata` list. `cursor` and `state` stand for the BasePlayer internals.
   */
  class VideoMetadataPlayer {
    const sampleRate: int
    const playback: Playback
    var cursor: nat
    var state: PlayerState
    var numSamples: int
    var prevNumSamples: int
    var metadata: seq<FrameMetadata>

    constructor (sampleRate: int, playback: Playback)
      ensures this.sampleRate == sampleRate && this.playback == playback
      ensures cursor == 0 && numSamples == 0 && prevNumSamples == 0 && metadata == []
    {
      this.sampleRate := sampleRate;
      this.playback := playback;
      cursor := 0;
      state := playback.initial;
      numSamples := 0;
      prevNumSamples := 0;
      metadata := [];
    }

    /** BasePlayer.BeginPlaySong, as the playback script says. */
    method BeginPlaySong() returns (ok: bool)
      modifies this
      ensures ok == playback.begins
      ensures ok ==> state == playback.initial && cursor == 0
      ensures ok ==> numSamples == old(numSamples) + playback.initialSamples
      ensures !ok ==> numSamples == old(numSamples)
      ensures prevNumSamples == old(prevNumSamples) && metadata == old(metadata)
    {
      ok := playback.begins;
      if ok {
        state := playback.initial;
        cursor := 0;
        EndFrame(playback.initialSamples);
      }
    }

    /** The EndFrame override: counts the samples the frame produced. */
    method EndFrame(frameSamples: nat)
      modifies this`numSamples
      ensures numSamples == old(numSamples) + frameSamples
    {
      numSamples := numSamples + frameSamples;
    }

    /** BasePlayer.PlaySongFrame: plays the next frame of the script, false at the end of the song. */
    method PlaySongFrame() returns (ok: bool)
      modifies this
      ensures ok == (old(cursor) < |playback.steps|)
      ensures ok ==> cursor == old(cursor) + 1 && state == playback.steps[old(cursor)].state
      ensures ok ==> numSamples == old(numSamples) + playback.steps[old(cursor)].numSamples
      ensures !ok ==> cursor == old(cursor) && numSamples == old(numSamples)
      ensures prevNumSamples == old(prevNumSamples) && metadata == old(metadata)
    {
      ok := cursor < |playback.steps|;
      if ok {
        state := playback.steps[cursor].state;
        EndFrame(playback.steps[cursor].numSamples);
        cursor := cursor + 1;
      }
    }

    /** Appends a record of the current state, stamped with the count at the previous write. */
    method WriteMetadata()
      modifies this`metadata, this`prevNumSamples
      ensures metadata == old(metadata) + [Snapshot(state, old(prevNumSamples))]
      ensures prevNumSamples == numSamples
    {
      metadata := metadata + [Snapshot(state, prevNumSamples)];
      prevNumSamples := numSamples;
    }

    /**
      The stepping loop: play a frame, stop at the end of the song or once the
      running count reaches `maxSample`, otherwise record the frame.
     */
    method RecordFrames(maxSample: int)
      requires cursor <= |playback.steps| && prevNumSamples == numSamples
      modifies this
      ensures metadata == old(metadata) + LoopSnapshots(playback.steps, old(cursor), old(numSamples), maxSample)
    {
      while true
        invariant cursor <= |playback.steps| && prevNumSamples == numSamples
        invariant metadata + LoopSnapshots(playback.steps, cursor, numSamples, maxSample)
                  == old(metadata) + LoopSnapshots(playback.steps, old(cursor), old(numSamples), maxSample)
        decreases |playback.steps| - cursor
      {
        ghost var written := metadata;
        ghost var k, n := cursor, numSamples;
        var played := PlaySongFrame();
        if !played || numSamples >= maxSample {
          break;
        }
        assert LoopSnapshots(playback.steps, k, n, maxSample)
               == [Snapshot(state, n)] + LoopSnapshots(playback.steps, cursor, numSamples, maxSample);
        WriteMetadata();
        assert metadata == written + [Snapshot(state, n)];
      }
    }

    method GetVideoMetadata(duration: int) returns (r: seq<FrameMetadata>)
      requires cursor == 0 && numSamples == 0 && prevNumSamples == 0 && metadata == []
      modifies this
      ensures r == VideoMetadata(playback, sampleRate, duration)
    {
      var maxSample := IntMax;
      if duration > 0 {
        maxSample := Wrap32(duration * sampleRate);
      }
      assert maxSample == MaxSample(sampleRate, duration);

      var ok := BeginPlaySong();
      if ok {
        WriteMetadata();
        RecordFrames(maxSample);
      }
      r := metadata;
    }
  }
}
