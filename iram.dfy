/**
 * The static partition of the VPU's on-chip IRAM ("second AXI" memory)
 * among the hardware sub-units, one layout for the decoder and one for the
 * encoder.  Every size is a round-up to a multiple of 1024 by
 * `(x + 1023) & ~1023`, and every offset is the previous offset plus the
 * previous size.  The macros are written over the platform's maximum
 * supported widths; here they are functions of those widths, instantiated
 * for each platform at the end.
 */
module Iram {
  import opened BitOps
  import opened Layout

  /** The SoC the library is built for: the IMX51 / IMX53 build flags, or neither. */
  datatype Platform = IMX51 | IMX53 | OtherSoc

  /** DEC_MAX_WIDTH_IRAM_SUPPORT: 720p decoding on i.MX51/53, 1080p elsewhere. */
  function DecMaxWidth(p: Platform): nat
  {
    if p == IMX51 || p == IMX53 then 1280 else 1920
  }

  /** ENC_MAX_WIDTH_IRAM_SUPPORT: D1 encoding on i.MX51/53, 720p elsewhere. */
  function EncMaxWidth(p: Platform): nat
  {
    if p == IMX51 || p == IMX53 then 720 else 1280
  }

  /** `k` bytes per 16-pixel column of a picture `w` pixels wide, as the macros write it. */
  function PerColumn(k: nat, w: nat): nat { k * w / 16 }

  // Decoder layout, a function of the decoder's maximum width `d`.

  function DecBitOffset(d: nat): nat { 0 }
  function DecBitSize(d: nat): nat { RoundUp1024(PerColumn(128, d)) }
  function DecIpOffset(d: nat): nat { DecBitOffset(d) + DecBitSize(d) }
  function DecIpSize(d: nat): nat { RoundUp1024(PerColumn(128, d)) }
  function DecDbkYOffset(d: nat): nat { DecIpOffset(d) + DecIpSize(d) }
  function DecDbkYSize(d: nat): nat { RoundUp1024(PerColumn(256, d)) }
  function DecDbkCOffset(d: nat): nat { DecDbkYOffset(d) + DecDbkYSize(d) }
  function DecDbkCSize(d: nat): nat { RoundUp1024(PerColumn(256, d)) }
  function DecOvlOffset(d: nat): nat { DecDbkCOffset(d) + DecDbkCSize(d) }
  function DecOvlSize(d: nat): nat { RoundUp1024(PerColumn(80, d)) }
  function DecTotalSize(d: nat): nat { DecOvlOffset(d) + DecOvlSize(d) }

  /** The decoder's regions in address order: bit, intra/AC-DC, deblock-Y, deblock-C, overlap. */
  function DecRegions(d: nat): (rs: seq<Region>)
    ensures |rs| == 5
  {
    [ Region(DecBitOffset(d), DecBitSize(d)),
      Region(DecIpOffset(d), DecIpSize(d)),
      Region(DecDbkYOffset(d), DecDbkYSize(d)),
      Region(DecDbkCOffset(d), DecDbkCSize(d)),
      Region(DecOvlOffset(d), DecOvlSize(d)) ]
  }

  // Encoder layout, a function of the encoder's maximum width `e` and, for
  // the two deblocking buffers, of the DECODER's maximum width `d`.

  function EncSearchOffset(e: nat, d: nat): nat { 0 }
  function EncSearchSize(e: nat): nat { RoundUp1024(e * 36 + 2048) }
  function EncBitOffset(e: nat, d: nat): nat { EncSearchOffset(e, d) + EncSearchSize(e) }
  function EncBitSize(e: nat): nat { RoundUp1024(PerColumn(128, e)) }
  function EncIpOffset(e: nat, d: nat): nat { EncBitOffset(e, d) + EncBitSize(e) }
  function EncIpSize(e: nat): nat { RoundUp1024(PerColumn(128, e)) }
  function EncDbkYOffset(e: nat, d: nat): nat { EncIpOffset(e, d) + EncIpSize(e) }
  function EncDbkYSize(d: nat): nat { RoundUp1024(PerColumn(128, d)) }
  function EncDbkCOffset(e: nat, d: nat): nat { EncDbkYOffset(e, d) + EncDbkYSize(d) }
  function EncDbkCSize(d: nat): nat { RoundUp1024(PerColumn(128, d)) }
  function EncOvlOffset(e: nat, d: nat): nat { EncDbkCOffset(e, d) + EncDbkCSize(d) }
  function EncOvlSize(): nat { 0 }
  function EncTotalSize(e: nat, d: nat): nat { EncOvlOffset(e, d) + EncOvlSize() }

  /** The encoder's regions in address order: search, bit, intra/AC-DC, deblock-Y, deblock-C, overlap. */
  function EncRegions(e: nat, d: nat): (rs: seq<Region>)
    ensures |rs| == 6
  {
    [ Region(EncSearchOffset(e, d), EncSearchSize(e)),
      Region(EncBitOffset(e, d), EncBitSize(e)),
      Region(EncIpOffset(e, d), EncIpSize(e)),
      Region(EncDbkYOffset(e, d), EncDbkYSize(d)),
      Region(EncDbkCOffset(e, d), EncDbkCSize(d)),
      Region(EncOvlOffset(e, d), EncOvlSize()) ]
  }

  /** `r` is the least multiple of 1024 that is at least `x`. */
  predicate IsCeil1024(r: nat, x: nat)
  {
    r % 1024 == 0 && x <= r < x + 1024
  }

  /** Sizes and offsets of a layout are all multiples of 1024. */
  predicate Aligned1024(rs: seq<Region>)
  {
    forall i :: 0 <= i < |rs| ==> rs[i].offset % 1024 == 0 && rs[i].size % 1024 == 0
  }

  /** In a back-to-back layout from 0 with sizes that are multiples of 1024, region `i` starts at a multiple of 1024. */
  lemma {:induction false} OffsetAligned(rs: seq<Region>, i: nat)
    requires BackToBack(rs, 0)
    requires forall k :: 0 <= k < |rs| ==> rs[k].size % 1024 == 0
    requires i < |rs|
    ensures rs[i].offset % 1024 == 0
    decreases i
  {
    if i > 0 {
      OffsetAligned(rs, i - 1);
      assert rs[i].offset == rs[i - 1].offset + rs[i - 1].size;
    }
  }

  lemma BackToBackAligned(rs: seq<Region>)
    requires BackToBack(rs, 0)
    requires forall i :: 0 <= i < |rs| ==> rs[i].size % 1024 == 0
    ensures Aligned1024(rs)
    ensures EndOf(rs, 0) % 1024 == 0
  {
    forall i | 0 <= i < |rs|
      ensures rs[i].offset % 1024 == 0
    {
      OffsetAligned(rs, i);
    }
  }

  /**
   * Each decoder size is the least multiple of 1024 at least `k * d / 16`,
   * with k = 128, 128, 256, 256, 80 for bit, intra/AC-DC, deblock-Y,
   * deblock-C and overlap.
   */
  lemma DecoderSizes(d: nat)
    ensures IsCeil1024(DecBitSize(d), 8 * d)
    ensures IsCeil1024(DecIpSize(d), 8 * d)
    ensures IsCeil1024(DecDbkYSize(d), 16 * d)
    ensures IsCeil1024(DecDbkCSize(d), 16 * d)
    ensures IsCeil1024(DecOvlSize(d), 5 * d)
  {
    assert PerColumn(128, d) == 8 * d;
    assert PerColumn(256, d) == 16 * d;
    assert PerColumn(80, d) == 5 * d;
  }

  /**
   * The decoder layout starts at 0 and has no gap: each region starts where
   * the previous one ends, and the total is the sum of the five sizes.
   */
  lemma DecoderContiguous(d: nat)
    ensures BackToBack(DecRegions(d), 0)
    ensures DecTotalSize(d) == EndOf(DecRegions(d), 0) == Sum(Sizes(DecRegions(d)))
  {
    var rs := DecRegions(d);
    assert BackToBack(rs, 0) by {
      forall i | 0 < i < 5 ensures rs[i].offset == rs[i - 1].End() {
        assert i == 1 || i == 2 || i == 3 || i == 4;
      }
    }
    BackToBackOffsets(rs, 0);
    assert EndOf(rs, 0) == rs[4].End();
  }

  /** No two decoder regions overlap, and all of them lie below the total. */
  lemma DecoderDisjoint(d: nat)
    ensures forall i, j :: 0 <= i < 5 && 0 <= j < 5 && i != j ==> Disjoint(DecRegions(d)[i], DecRegions(d)[j])
    ensures forall i :: 0 <= i < 5 ==> DecRegions(d)[i].End() <= DecTotalSize(d)
  {
    DecoderContiguous(d);
    BackToBackDisjoint(DecRegions(d), 0);
  }

  /** Every decoder offset and size is a multiple of 1024. */
  lemma DecoderAligned(d: nat)
    ensures Aligned1024(DecRegions(d))
  {
    DecoderContiguous(d);
    BackToBackAligned(DecRegions(d));
  }

  /**
   * The encoder's search RAM is the least multiple of 1024 at least
   * `e * 36 + 2048`; its bit and intra/AC-DC buffers take 128 bytes per
   * column of the encoder width; its deblocking buffers take 128 bytes per
   * column of the DECODER width; it reserves nothing for the overlap filter.
   */
  lemma EncoderSizes(e: nat, d: nat)
    ensures IsCeil1024(EncSearchSize(e), 36 * e + 2048)
    ensures IsCeil1024(EncBitSize(e), 8 * e)
    ensures IsCeil1024(EncIpSize(e), 8 * e)
    ensures IsCeil1024(EncDbkYSize(d), 8 * d)
    ensures IsCeil1024(EncDbkCSize(d), 8 * d)
    ensures EncOvlSize() == 0
  {
    assert PerColumn(128, e) == 8 * e;
    assert PerColumn(128, d) == 8 * d;
  }

  /**
   * The encoder layout starts at 0 and has no gap: each region starts where
   * the previous one ends; the total is the sum of the six sizes, which, the
   * overlap size being 0, is where the chroma deblocking buffer ends.
   */
  lemma EncoderContiguous(e: nat, d: nat)
    ensures BackToBack(EncRegions(e, d), 0)
    ensures EncTotalSize(e, d) == EndOf(EncRegions(e, d), 0) == Sum(Sizes(EncRegions(e, d)))
    ensures EncTotalSize(e, d) == EncDbkCOffset(e, d) + EncDbkCSize(d)
  {
    var rs := EncRegions(e, d);
    assert BackToBack(rs, 0) by {
      forall i | 0 < i < 6 ensures rs[i].offset == rs[i - 1].End() {
        assert i == 1 || i == 2 || i == 3 || i == 4 || i == 5;
      }
    }
    BackToBackOffsets(rs, 0);
    assert EndOf(rs, 0) == rs[5].End();
  }

  /** No two encoder regions overlap, and all of them lie below the total. */
  lemma EncoderDisjoint(e: nat, d: nat)
    ensures forall i, j :: 0 <= i < 6 && 0 <= j < 6 && i != j ==> Disjoint(EncRegions(e, d)[i], EncRegions(e, d)[j])
    ensures forall i :: 0 <= i < 6 ==> EncRegions(e, d)[i].End() <= EncTotalSize(e, d)
  {
    EncoderContiguous(e, d);
    BackToBackDisjoint(EncRegions(e, d), 0);
  }

  /** Every encoder offset and size is a multiple of 1024. */
  lemma EncoderAligned(e: nat, d: nat)
    ensures Aligned1024(EncRegions(e, d))
  {
    EncoderContiguous(e, d);
    BackToBackAligned(EncRegions(e, d));
  }

  /** The decoder partition for a wider maximum picture needs at least as much IRAM, region by region. */
  lemma DecoderMonotone(d1: nat, d2: nat)
    requires d1 <= d2
    ensures forall i :: 0 <= i < 5 ==> DecRegions(d1)[i].size <= DecRegions(d2)[i].size
    ensures forall i :: 0 <= i < 5 ==> DecRegions(d1)[i].offset <= DecRegions(d2)[i].offset
    ensures DecTotalSize(d1) <= DecTotalSize(d2)
  {
    RoundUpMonotone(PerColumn(128, d1), PerColumn(128, d2));
    RoundUpMonotone(PerColumn(256, d1), PerColumn(256, d2));
    RoundUpMonotone(PerColumn(80, d1), PerColumn(80, d2));
  }

  /** The encoder partition grows with either maximum width, region by region. */
  lemma EncoderMonotone(e1: nat, d1: nat, e2: nat, d2: nat)
    requires e1 <= e2 && d1 <= d2
    ensures forall i :: 0 <= i < 6 ==> EncRegions(e1, d1)[i].size <= EncRegions(e2, d2)[i].size
    ensures forall i :: 0 <= i < 6 ==> EncRegions(e1, d1)[i].offset <= EncRegions(e2, d2)[i].offset
    ensures EncTotalSize(e1, d1) <= EncTotalSize(e2, d2)
  {
    RoundUpMonotone(e1 * 36 + 2048, e2 * 36 + 2048);
    RoundUpMonotone(PerColumn(128, e1), PerColumn(128, e2));
    RoundUpMonotone(PerColumn(128, d1), PerColumn(128, d2));
  }

  /**
   * The encoder's deblocking buffers depend on the decoder width only: they
   * do not change with the encoder width, and they equal the decoder's
   * bit-buffer size.
   */
  lemma EncoderDeblockUsesDecoderWidth(e1: nat, e2: nat, d: nat)
    ensures EncRegions(e1, d)[3].size == EncRegions(e2, d)[3].size == DecBitSize(d)
    ensures EncRegions(e1, d)[4].size == EncRegions(e2, d)[4].size == DecBitSize(d)
  {
  }

  /** The largest value of a C `int` on the platforms the library targets. */
  const IntMax: nat := 0x7fff_ffff

  /**
   * For maximum widths up to 2^20 pixels no intermediate value and no
   * total of the macros exceeds a 32-bit `int`, so evaluating them on
   * unbounded integers gives what C computes.
   */
  lemma MacrosFitInt(e: nat, d: nat)
    requires e <= 0x10_0000 && d <= 0x10_0000
    ensures 128 * d + 1023 <= IntMax && 256 * d + 1023 <= IntMax && 80 * d + 1023 <= IntMax
    ensures 128 * e + 1023 <= IntMax && e * 36 + 2048 + 1023 <= IntMax
    ensures DecTotalSize(d) <= IntMax && EncTotalSize(e, d) <= IntMax
  {
    DecoderSizes(d);
    EncoderSizes(e, d);
  }

  /** The decoder layout for 1080p (the default DEC_MAX_WIDTH_IRAM_SUPPORT), byte for byte. */
  lemma DecoderLayout1920()
    ensures DecRegions(1920) ==
      [Region(0, 15360), Region(15360, 15360), Region(30720, 30720),
       Region(61440, 30720), Region(92160, 10240)]
    ensures DecTotalSize(1920) == 102400
  {
    RoundUpExact(15360);
    RoundUpExact(30720);
    RoundUpIsLeast(9600, 10240);
    assert PerColumn(128, 1920) == 15360 && PerColumn(256, 1920) == 30720 && PerColumn(80, 1920) == 9600;
  }

  /** The decoder layout for 720p (DEC_MAX_WIDTH_IRAM_SUPPORT on i.MX51/53), byte for byte. */
  lemma DecoderLayout1280()
    ensures DecRegions(1280) ==
      [Region(0, 10240), Region(10240, 10240), Region(20480, 20480),
       Region(40960, 20480), Region(61440, 7168)]
    ensures DecTotalSize(1280) == 68608
  {
    RoundUpExact(10240);
    RoundUpExact(20480);
    RoundUpIsLeast(6400, 7168);
    assert PerColumn(128, 1280) == 10240 && PerColumn(256, 1280) == 20480 && PerColumn(80, 1280) == 6400;
  }

  /** The default encoder layout (encoder width 1280, decoder width 1920), byte for byte. */
  lemma EncoderLayout1280()
    ensures EncRegions(1280, 1920) ==
      [Region(0, 48128), Region(48128, 10240), Region(58368, 10240),
       Region(68608, 15360), Region(83968, 15360), Region(99328, 0)]
    ensures EncTotalSize(1280, 1920) == 99328
  {
    RoundUpExact(48128);
    RoundUpExact(10240);
    RoundUpExact(15360);
    assert 1280 * 36 + 2048 == 48128;
    assert PerColumn(128, 1280) == 10240 && PerColumn(128, 1920) == 15360;
  }

  /** The i.MX51/53 encoder layout (encoder width 720, decoder width 1280), byte for byte. */
  lemma EncoderLayout720()
    ensures EncRegions(720, 1280) ==
      [Region(0, 28672), Region(28672, 6144), Region(34816, 6144),
       Region(40960, 10240), Region(51200, 10240), Region(61440, 0)]
    ensures EncTotalSize(720, 1280) == 61440
  {
    RoundUpIsLeast(27968, 28672);
    RoundUpIsLeast(5760, 6144);
    RoundUpExact(10240);
    assert 720 * 36 + 2048 == 27968;
    assert PerColumn(128, 720) == 5760 && PerColumn(128, 1280) == 10240;
  }

  /** The partition each platform gets from its two maximum widths. */
  lemma PlatformLayouts(p: Platform)
    ensures DecTotalSize(DecMaxWidth(p)) == if p == OtherSoc then 102400 else 68608
    ensures EncTotalSize(EncMaxWidth(p), DecMaxWidth(p)) == if p == OtherSoc then 99328 else 61440
    ensures EncDbkYSize(DecMaxWidth(p)) == EncDbkCSize(DecMaxWidth(p)) ==
      (if p == OtherSoc then 15360 else 10240)
    ensures EncDbkYSize(DecMaxWidth(p)) > RoundUp1024(PerColumn(128, EncMaxWidth(p)))
  {
    if p == OtherSoc {
      DecoderLayout1920();
      EncoderLayout1280();
    } else {
      DecoderLayout1280();
      EncoderLayout720();
    }
  }
}
