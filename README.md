# VPU utility core: IRAM partition, report-buffer offsets, byte swap and the VPU lock

A Dafny model of the self-contained logic in the i.MX VPU library's
`vpu/vpu_util.h`:

- **IRAM ("second AXI") partition.** The VPU's on-chip IRAM is split
  statically among hardware sub-units. One layout serves decoding: bit,
  intra/AC-DC, deblock-Y, deblock-C, overlap. Another serves encoding:
  motion search, bit, intra/AC-DC, deblock-Y, deblock-C, overlap (size 0).
  Every size is `(x + 1023) & ~1023`. Every offset is the previous offset
  plus the previous size. The macros are modelled as functions of the
  maximum decoder width `d` and maximum encoder width `e`. They are then
  instantiated for both platform constant sets: 1280/720 on i.MX51/53 and
  1920/1280 elsewhere. The encoder's deblocking buffers are sized from the
  DECODER width, exactly as the macros do.
- **Report-buffer offsets.** This is the additive chain of picture-parameter,
  motion-vector, macroblock and frame-buffer-status/slice areas, with the
  encoder and decoder end marks.
- **`swab32`.** The four-byte reversal, on `bv32`.
- **`LockVpu` / `UnlockVpu`.** The shared record `semaphore_t` is a class.
  That class also holds the lock state, the clock-gate value and an ordered
  trace of the semaphore and clock-gate effects. The outcome of the
  semaphore wait is a parameter.

Files: `bitops.dfy` (C's `&` and `~` on two's-complement integers, and the
round-up), `layout.dfy` (back-to-back byte ranges), `iram.dfy`, `report.dfy`,
`byteorder.dfy`, `vpulock.dfy`.

Two details of the source that the model keeps:

- `UnlockVpu` posts the semaphore before it writes 0 to the clock gate
  (vpu/vpu_util.h:325-326).
- The size macros multiply before dividing, as in `128 * W / 16`
  (vpu/vpu_util.h:58). Every constant used is a multiple of 16, so the
  division is exact.

## Model

| member | source | states |
|---|---|---|
| `BitOps.ClearLowBits` | vpu/vpu_util.h:58 | for every integer x and n, two's-complement `x & ~(2^n - 1)` is x rounded down to a multiple of 2^n |
| `BitOps.RoundUp1024` | vpu/vpu_util.h:58 | the result is a multiple of 1024, at least x and less than x + 1024 |
| `BitOps.RoundUpIsMasked` | vpu/vpu_util.h:58 | `(x + 1023) & ~1023`, with C's bitwise operators on two's-complement ints, equals RoundUp1024(x) for every x |
| `BitOps.RoundUpIsLeast` | vpu/vpu_util.h:58 | no multiple of 1024 that is at least x lies below RoundUp1024(x) |
| `BitOps.RoundUpMonotone` | vpu/vpu_util.h:58 | rounding up preserves order |
| `BitOps.RoundUpExact` | vpu/vpu_util.h:58 | a multiple of 1024 is left unchanged |
| `BitOps.BitNot` | vpu/vpu_util.h:58 | C's `~` on a two's-complement int, as used in `~1023`: `~a` is `-a - 1` |
| `BitOps.BitAnd` | vpu/vpu_util.h:58 | C's `&` on two's-complement ints of any width, as used in `(x + 1023) & ~1023`, defined bit by bit from the least significant bit |
| `Iram.DecMaxWidth` | vpu/vpu_util.h:46-53 | `DEC_MAX_WIDTH_IRAM_SUPPORT`: 1280 when built for i.MX51 or i.MX53, 1920 otherwise |
| `Iram.EncMaxWidth` | vpu/vpu_util.h:46-53 | `ENC_MAX_WIDTH_IRAM_SUPPORT`: 720 when built for i.MX51 or i.MX53, 1280 otherwise |
| `Iram.PerColumn` | vpu/vpu_util.h:58 | the macros' `k * W / 16`: k bytes for each 16-pixel column of a W-pixel picture, multiplied before dividing |
| `Iram.DecBitOffset` | vpu/vpu_util.h:57 | `VPU_DEC_BIT_IRAM_OFFSET`: 0 |
| `Iram.DecBitSize` | vpu/vpu_util.h:58 | `VPU_DEC_BIT_IRAM_SIZE`: RoundUp1024(128*d/16) |
| `Iram.DecIpOffset` | vpu/vpu_util.h:60 | `VPU_DEC_IP_IRAM_OFFSET`: bit offset plus bit size |
| `Iram.DecIpSize` | vpu/vpu_util.h:61 | `VPU_DEC_IP_IRAM_SIZE`: RoundUp1024(128*d/16) |
| `Iram.DecDbkYOffset` | vpu/vpu_util.h:63 | `VPU_DEC_DBKY_IRAM_OFFSET`: IP offset plus IP size |
| `Iram.DecDbkYSize` | vpu/vpu_util.h:64 | `VPU_DEC_DBKY_IRAM_SIZE`: RoundUp1024(256*d/16) |
| `Iram.DecDbkCOffset` | vpu/vpu_util.h:65 | `VPU_DEC_DBKC_IRAM_OFFSET`: DBKY offset plus DBKY size |
| `Iram.DecDbkCSize` | vpu/vpu_util.h:66 | `VPU_DEC_DBKC_IRAM_SIZE`: RoundUp1024(256*d/16) |
| `Iram.DecOvlOffset` | vpu/vpu_util.h:68 | `VPU_DEC_OVL_IRAM_OFFSET`: DBKC offset plus DBKC size |
| `Iram.DecOvlSize` | vpu/vpu_util.h:69 | `VPU_DEC_OVL_IRAM_SIZE`: RoundUp1024(80*d/16) |
| `Iram.DecTotalSize` | vpu/vpu_util.h:70 | `VPU_DEC_TOTAL_IRAM_SIZE`: OVL offset plus OVL size |
| `Iram.DecRegions` | vpu/vpu_util.h:57-70 | the five decoder (offset, size) pairs in address order: bit, IP, DBKY, DBKC, OVL |
| `Iram.EncSearchOffset` | vpu/vpu_util.h:73 | `VPU_ENC_SEARCH_IRAM_OFFSET`: 0 |
| `Iram.EncSearchSize` | vpu/vpu_util.h:74 | `VPU_ENC_SEARCH_IRAM_SIZE`: RoundUp1024(e*36 + 2048) |
| `Iram.EncBitOffset` | vpu/vpu_util.h:76 | `VPU_ENC_BIT_IRAM_OFFSET`: search offset plus search size |
| `Iram.EncBitSize` | vpu/vpu_util.h:77 | `VPU_ENC_BIT_IRAM_SIZE`: RoundUp1024(128*e/16), from the encoder width |
| `Iram.EncIpOffset` | vpu/vpu_util.h:79 | `VPU_ENC_IP_IRAM_OFFSET`: bit offset plus bit size |
| `Iram.EncIpSize` | vpu/vpu_util.h:80 | `VPU_ENC_IP_IRAM_SIZE`: RoundUp1024(128*e/16), from the encoder width |
| `Iram.EncDbkYOffset` | vpu/vpu_util.h:83 | `VPU_ENC_DBKY_IRAM_OFFSET`: IP offset plus IP size |
| `Iram.EncDbkYSize` | vpu/vpu_util.h:84 | `VPU_ENC_DBKY_IRAM_SIZE`: RoundUp1024(128*d/16), from the DECODER width |
| `Iram.EncDbkCOffset` | vpu/vpu_util.h:85 | `VPU_ENC_DBKC_IRAM_OFFSET`: DBKY offset plus DBKY size |
| `Iram.EncDbkCSize` | vpu/vpu_util.h:86 | `VPU_ENC_DBKC_IRAM_SIZE`: RoundUp1024(128*d/16), from the DECODER width |
| `Iram.EncOvlOffset` | vpu/vpu_util.h:88 | `VPU_ENC_OVL_IRAM_OFFSET`: DBKC offset plus DBKC size |
| `Iram.EncOvlSize` | vpu/vpu_util.h:89 | `VPU_ENC_OVL_IRAM_SIZE`: 0 |
| `Iram.EncTotalSize` | vpu/vpu_util.h:90 | `VPU_ENC_TOTAL_IRAM_SIZE`: OVL offset plus OVL size |
| `Iram.EncRegions` | vpu/vpu_util.h:73-90 | the six encoder (offset, size) pairs in address order: search, bit, IP, DBKY, DBKC, OVL |
| `Layout.BackToBackOffsets` | vpu/vpu_util.h:57-70 | in a layout where each offset is the previous offset plus the previous size, every offset is the base plus the sum of all earlier sizes, and the layout ends at the base plus the sum of all sizes |
| `Layout.BackToBackOrdered` | vpu/vpu_util.h:57-70 | in such a layout, each region ends no later than any later region starts |
| `Layout.BackToBackDisjoint` | vpu/vpu_util.h:57-70 | in such a layout, regions are pairwise disjoint, in increasing address order, and inside [base, end) |
| `Iram.DecoderSizes` | vpu/vpu_util.h:57-69 | each decoder size is the least multiple of 1024 at least k*d/16, for k = 128, 128, 256, 256, 80 (bit, IP, DBKY, DBKC, OVL) |
| `Iram.DecoderContiguous` | vpu/vpu_util.h:57-70 | the decoder bit offset is 0; each later region starts where the previous one ends; VPU_DEC_TOTAL_IRAM_SIZE is the end of the layout and the sum of the five sizes |
| `Iram.DecoderDisjoint` | vpu/vpu_util.h:57-70 | no two decoder regions overlap, and each ends at or below the total |
| `Iram.DecoderAligned` | vpu/vpu_util.h:57-70 | every decoder offset and size is a multiple of 1024 |
| `Iram.EncoderSizes` | vpu/vpu_util.h:73-89 | search RAM is the least multiple of 1024 at least 36*e + 2048; bit and IP use 128 bytes per 16-pixel column of the encoder width; DBKY and DBKC use 128 bytes per column of the decoder width; OVL is 0 |
| `Iram.EncoderContiguous` | vpu/vpu_util.h:73-90 | the search offset is 0; the order is search, bit, IP, DBKY, DBKC, OVL with no gaps; VPU_ENC_TOTAL_IRAM_SIZE is the sum of the six sizes and equals the DBKC offset plus the DBKC size |
| `Iram.EncoderDisjoint` | vpu/vpu_util.h:73-90 | no two encoder regions overlap, and each ends at or below the total |
| `Iram.EncoderAligned` | vpu/vpu_util.h:73-90 | every encoder offset and size is a multiple of 1024 |
| `Iram.EncoderDeblockUsesDecoderWidth` | vpu/vpu_util.h:82-86 | the encoder deblock-Y and deblock-C sizes do not depend on the encoder width, and equal the decoder bit size for the decoder width |
| `Iram.DecoderMonotone` | vpu/vpu_util.h:45-70 | a wider maximum decoder width gives every region an offset and size at least as large, and a total at least as large |
| `Iram.EncoderMonotone` | vpu/vpu_util.h:45-90 | the same for the encoder, in both widths |
| `Iram.MacrosFitInt` | vpu/vpu_util.h:46-90 | for widths up to 2^20 every product plus 1023 (128*d, 256*d, 80*d, 128*e), the search sum e*36 + 2048 + 1023, and both totals fit in a 32-bit int; since each offset and size is at most its total, every value the macros compute fits, so unbounded evaluation matches C |
| `Iram.DecoderLayout1920` | vpu/vpu_util.h:50-70 | the default decoder layout is bit 0+15360, IP 15360+15360, DBKY 30720+30720, DBKC 61440+30720, OVL 92160+10240, total 102400 |
| `Iram.DecoderLayout1280` | vpu/vpu_util.h:46-70 | the i.MX51/53 decoder layout is bit 0+10240, IP 10240+10240, DBKY 20480+20480, DBKC 40960+20480, OVL 61440+7168, total 68608 |
| `Iram.EncoderLayout1280` | vpu/vpu_util.h:50-90 | the default encoder layout is search 0+48128, bit 48128+10240, IP 58368+10240, DBKY 68608+15360, DBKC 83968+15360, OVL 99328+0, total 99328 |
| `Iram.EncoderLayout720` | vpu/vpu_util.h:46-90 | the i.MX51/53 encoder layout is search 0+28672, bit 28672+6144, IP 34816+6144, DBKY 40960+10240, DBKC 51200+10240, OVL 61440+0, total 61440 |
| `Iram.PlatformLayouts` | vpu/vpu_util.h:46-90 | for each platform, the decoder and encoder totals and the encoder deblock sizes (15360 by default, 10240 on i.MX51/53); the latter exceed what the encoder width would give |
| `ReportBuffer.EncReportRegions` | vpu/vpu_util.h:30-42 | the encoder's report areas in address order: picture parameters, motion vectors, macroblocks, slice info, at their offset macros with their size macros |
| `ReportBuffer.DecReportRegions` | vpu/vpu_util.h:30-43 | the decoder's report areas in address order: picture parameters, motion vectors, macroblocks, frame-buffer status, at their offset macros with their size macros |
| `ReportBuffer.ReportOffsets` | vpu/vpu_util.h:30-43 | over the constants `SizePicParaBaseBuf`, `SizeMvData`, `SizeMbData`, `SizeFrameBufStat`, `SizeSliceInfo`, `AddrPicParaBaseOffset`, `AddrMvBaseOffset`, `AddrMbBaseOffset`, `AddrFrameBufStatBaseOffset`, `AddrSliceBaseOffset`, `EncAddrEndOfRptBuf` and `DecAddrEndOfRptBuf` (the macros of the same names): MV base = pic-para base + 0x100; MB base = MV base + 0x20000; frame-buf-stat base = slice base = MB base + 0x4000; encoder end = that base + 0x4000; decoder end = that base + 0x100, below the encoder end |
| `ReportBuffer.ReportLayout` | vpu/vpu_util.h:30-43 | each role's report areas are back to back from 0, pairwise disjoint, and end at that role's end-of-report-buffer mark |
| `ByteOrder.Swab32` | vpu/vpu_util.h:329-334 | byte i of the result is byte 3-i of the argument |
| `ByteOrder.Swab32Reverses` | vpu/vpu_util.h:329-334 | the word with bytes b0 b1 b2 b3 becomes the word with bytes b3 b2 b1 b0 |
| `ByteOrder.Swab32Involution` | vpu/vpu_util.h:329-334 | swapping twice gives the original word |
| `ByteOrder.BytesDetermineWord` | vpu/vpu_util.h:329-334 | a word is rebuilt from its four bytes, so a statement about bytes fixes the word |
| `VpuLock.Semaphore.constructor` | vpu/vpu_util.h:269-276 | the shared record holds MAX_NUM_INSTANCE = 4 pool slots and starts unlocked with the clock off |
| `VpuLock.Semaphore.Wait` | vpu/vpu_util.h:312 | semaphore_wait's outcome is supplied; the lock is taken exactly when it succeeds, and the wait is recorded |
| `VpuLock.Semaphore.Post` | vpu/vpu_util.h:311 | semaphore_post releases the lock and is recorded |
| `VpuLock.Semaphore.SetClockGate` | vpu/vpu_util.h:319 | IOClkGateSet stores the written value and is recorded |
| `VpuLock.Semaphore.LockVpu` | vpu/vpu_util.h:315-321 | on a failed wait it returns false and leaves the clock gate and lock unchanged; on success the gate is 1 and it returns true; the effects are wait then clock-on; between calls of a single caller, the clock runs exactly while the lock is held |
| `VpuLock.Semaphore.UnlockVpu` | vpu/vpu_util.h:323-327 | the effects are post, then clock gate 0; afterwards the lock is free and the clock off (clock-iff-locked holds again between calls of a single caller, not between the post and the gate write) |
| `VpuLock.LockedSection` | vpu/vpu_util.h:315-327 | a Lock/Unlock pair leaves the clock off, with effects in the order wait, clock on, post, clock off; a failed lock records only the wait; the pool and the pending-instance marker are untouched |

## Left out

- Pool allocation, freeing and validity checks (`GetCodecInstance`, `FreeCodecInstance`, `CheckInstanceValidity`, `CheckEncInstanceValidity`, `CheckDecInstanceValidity`): only their prototypes are declared in `vpu_util.h`, and their bodies are not part of this model. The pool is kept as a fixed array of MAX_NUM_INSTANCE slots, with no scan or reuse policy.
- `pthread_mutex_t`, the real `semaphore_wait`, `semaphore_post`, `vpu_semaphore_open` and `vpu_semaphore_close`, and cross-process mutual exclusion: these are concurrency and platform primitives. Only the ordering of effects inside the lock wrappers is modelled.
- `IOClkGateSet`, `BitIssueCommand`, `LoadBitCodeTable` and `DownloadBitCodeTable`: register I/O and firmware loading through foreign code. `IOClkGateSet` is reduced to storing the written value.
- `SetDecSecondAXIIRAM` and `SetEncSecondAXIIRAM`: their bodies are not part of this model. This includes how the width argument is used, the fallback to normal memory when the layout does not fit, and the `use*Enable` flags they set. The model covers the macros they build on, parameterised by width.
- Encoder parameter setters and checkers (`SetGopNumber`, `SetIntraQp`, `SetBitrate`, `SetFramerate`, `SetIntraRefreshNum`, `SetSliceMode`, `SetHecMode`, `CheckEncOpenParam`, `CheckEncParam`, `CheckDecOpenParam`, `EncodeHeader`, `GetParaSet`, `SetParaSet`, `CopyBufferData`, `DecBitstreamBufEmpty`): only prototypes are declared in `vpu_util.h`.
- The field layouts of `SecAxiUse`, `EncInfo`, `DecInfo` and the `CodecInst` unions, and the codec-mode and command enums: these are data declarations with no behaviour. Only `CodecInst`'s scalar fields are kept.
- `ARRAY_SIZE` and `MAX_FW_BINARY_LEN`: they belong to `sizeof` and firmware loading.
- The report-buffer macros are unparenthesised. The model evaluates each as the grouped sum it expands to in the additive chain. It does not model how they would expand inside a larger expression.
- Iram: the model uses unbounded integers rather than C's 32-bit `int`. `Iram.MacrosFitInt` shows this changes nothing for widths up to 2^20 pixels, including both platforms' constants.
- ByteOrder.Swab32: takes a `bv32`. The macro's `(Uint32)` cast of a wider or signed argument is not modelled.
- VpuLock.Semaphore.Wait: the environment decides its outcome. Blocking, and waiting while another caller holds the lock, are not represented.
- VpuLock.Semaphore.UnlockVpu: the invariant that the clock is on exactly while the lock is held is only true between calls of one caller. Between `semaphore_post` and `IOClkGateSet(0)` the lock is free while the clock still runs. A second caller that takes the lock in that window, and then has its clock turned off by the first caller's gate write, is not modelled, because the model has a single caller and no interleaving.
- `USER_DATA_INFO_OFFSET`: an offset inside the user-data report area. Nothing in `vpu_util.h` uses it, so it carries no property here.
