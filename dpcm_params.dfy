/**
  The "Reverse Bits" parameter of a DPCM sample (DPCMSampleParamProvider,
  ParamProviders.cs). It only applies to samples whose source data is DMC:
  for a WAV source it reads 0 and ignores writes. Reprocessing the sample
  (`Process`) is outside the model; a counter records each time it runs.
 */
module DpcmParams {
  import opened Utils
  import opened Params

  const ReverseBitsInfo: ParamInfo := ParamInfo("Reverse Bits", 0, 1, 0, false, 1, "")

  class DpcmSample {
    var sourceDataIsWav: bool
    var reverseBits: bool
    /** How many times the sample has been reprocessed. */
    var processCount: nat

    /** IsEnabled: only DMC source data can be bit-reversed. */
    predicate ReverseBitsEnabled()
      reads this
    {
      !sourceDataIsWav
    }

    /** GetValue: 1 when bits are reversed on DMC source data, 0 otherwise. */
    function GetReverseBits(): (v: int)
      reads this
      ensures v == 0 || v == 1
      ensures sourceDataIsWav ==> v == 0
      ensures !sourceDataIsWav ==> (v == 1 <==> reverseBits)
    {
      if !sourceDataIsWav && reverseBits then 1 else 0
    }

    /** SetValue: on DMC source data store `v != 0` and reprocess; on WAV source data do nothing. */
    method SetReverseBits(v: int)
      modifies this
      ensures sourceDataIsWav == old(sourceDataIsWav)
      ensures old(sourceDataIsWav) ==> reverseBits == old(reverseBits) && processCount == old(processCount)
      ensures !old(sourceDataIsWav) ==> reverseBits == (v != 0) && processCount == old(processCount) + 1
      ensures !sourceDataIsWav && (v == 0 || v == 1) ==> GetReverseBits() == v
      ensures sourceDataIsWav ==> GetReverseBits() == 0
    {
      if !sourceDataIsWav {
        reverseBits := v != 0;
        processCount := processCount + 1;
      }
    }
  }

  /** A value entered for Reverse Bits is snapped and clamped to 0 or 1, so it always reads back on DMC source data. */
  lemma ReverseBitsEntryIsFlag(v: int)
    ensures var s := SnapAndClampValue(ReverseBitsInfo, v);
      && (s == 0 || s == 1)
      && (s == 1 <==> v >= 1)
  {
    SnapAndClampWithoutStep(ReverseBitsInfo, v);
  }
}
