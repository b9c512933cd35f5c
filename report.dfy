/**
 * The report buffer each codec instance hands the VPU: a picture-parameter
 * area followed by the motion-vector, macroblock and finally either the
 * slice-info area (encoder) or the frame-buffer-status area (decoder).  The
 * last two share one offset; only the role decides which is there.
 */
module ReportBuffer {
  import opened Layout

  const SizePicParaBaseBuf: nat := 0x100
  const SizeMvData: nat := 0x20000
  const SizeMbData: nat := 0x4000
  const SizeFrameBufStat: nat := 0x100
  const SizeSliceInfo: nat := 0x4000

  const AddrPicParaBaseOffset: nat := 0
  const AddrMvBaseOffset: nat := AddrPicParaBaseOffset + SizePicParaBaseBuf
  const AddrMbBaseOffset: nat := AddrMvBaseOffset + SizeMvData
  const AddrFrameBufStatBaseOffset: nat := AddrMbBaseOffset + SizeMbData
  const AddrSliceBaseOffset: nat := AddrMbBaseOffset + SizeMbData
  const EncAddrEndOfRptBuf: nat := AddrFrameBufStatBaseOffset + SizeSliceInfo
  const DecAddrEndOfRptBuf: nat := AddrFrameBufStatBaseOffset + SizeFrameBufStat

  /** An encoder's report areas: picture parameters, motion vectors, macroblocks, slice info. */
  function EncReportRegions(): (rs: seq<Region>)
    ensures |rs| == 4
  {
    [ Region(AddrPicParaBaseOffset, SizePicParaBaseBuf),
      Region(AddrMvBaseOffset, SizeMvData),
      Region(AddrMbBaseOffset, SizeMbData),
      Region(AddrSliceBaseOffset, SizeSliceInfo) ]
  }

  /** A decoder's report areas: picture parameters, motion vectors, macroblocks, frame-buffer status. */
  function DecReportRegions(): (rs: seq<Region>)
    ensures |rs| == 4
  {
    [ Region(AddrPicParaBaseOffset, SizePicParaBaseBuf),
      Region(AddrMvBaseOffset, SizeMvData),
      Region(AddrMbBaseOffset, SizeMbData),
      Region(AddrFrameBufStatBaseOffset, SizeFrameBufStat) ]
  }

  /**
   * The report offsets are additive: each area starts where the one before
   * it ends, the frame-buffer-status and slice areas share one offset, and
   * the decoder's report buffer ends below the encoder's.
   */
  lemma ReportOffsets()
    ensures AddrMvBaseOffset == AddrPicParaBaseOffset + 0x100
    ensures AddrMbBaseOffset == AddrMvBaseOffset + 0x20000
    ensures AddrFrameBufStatBaseOffset == AddrSliceBaseOffset == AddrMbBaseOffset + 0x4000
    ensures EncAddrEndOfRptBuf == AddrSliceBaseOffset + 0x4000
    ensures DecAddrEndOfRptBuf == AddrFrameBufStatBaseOffset + 0x100
    ensures DecAddrEndOfRptBuf < EncAddrEndOfRptBuf
  {
  }

  /**
   * Each role's report areas are laid out back to back from offset 0, do
   * not overlap, and end at that role's end-of-report-buffer mark.
   */
  lemma ReportLayout()
    ensures BackToBack(EncReportRegions(), 0) && EndOf(EncReportRegions(), 0) == EncAddrEndOfRptBuf
    ensures BackToBack(DecReportRegions(), 0) && EndOf(DecReportRegions(), 0) == DecAddrEndOfRptBuf
    ensures forall i, j :: 0 <= i < 4 && 0 <= j < 4 && i != j ==> Disjoint(EncReportRegions()[i], EncReportRegions()[j])
    ensures forall i, j :: 0 <= i < 4 && 0 <= j < 4 && i != j ==> Disjoint(DecReportRegions()[i], DecReportRegions()[j])
  {
    assert BackToBack(EncReportRegions(), 0);
    assert BackToBack(DecReportRegions(), 0);
    BackToBackDisjoint(EncReportRegions(), 0);
    BackToBackDisjoint(DecReportRegions(), 0);
  }
}
