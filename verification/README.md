# p9813 frame encoder, in Dafny

A model of the core of the `p9813` C library. The library drives strands of
P9813-based LED pixels through the bit-bang mode of an FTDI USB-serial
adapter: every adapter pin is one strand's data line, and one pin (or a CBUS
pin of the chip) is the serial clock. The model covers five parts:

- **The command word.** A `0xRRGGBB` pixel goes through the 256×3 gamma
  table and becomes the 32-bit word a P9813 chip clocks in. The word is a
  flag byte (`11`, then the inverted top two bits of blue, green and red),
  then blue, green and red.
- **Phase one of `TCrefresh`.**
  - The pixel region of the output buffer is cleared, with clock ticks in
    bit-banged mode.
  - Each physical pixel is resolved through the optional remap table, which
    has two negative sentinels.
  - Each pixel's current is estimated.
  - Each strand's word is turned "sideways" into the buffer: one byte (CBUS
    clock) or two bytes (bit-banged clock) per bit, under the strand's pin
    mask.
- **The latch trailer.** It is rendered once at open and re-rendered when
  the clock pin is reassigned.
- **The statistics step** of `TCrefresh`: bits, throughput, frame period,
  frame rate, current and charge.
- **Configuration and lifecycle.** `TCopen` and its allocation ladder,
  `TCsetStrandPin`, the gamma setters, `TCinitStats` and `TCclose`.

Modules, in dependency order:

| file | module | what it holds |
|---|---|---|
| types.dfy | `Types` | status codes and messages, pin masks, clock modes, remap sentinels, `TCrgb` |
| word.dfy | `Word` | the command word, the chip's reading of it, MSB-first serialisation |
| transpose.dfy | `Transpose` | the per-word early-exit shift loop against a full 32-bit reference walk |
| gamma.dfy | `Bytes`, `Gamma` | byte/value conversion; the gamma table and its setters |
| current.dfy | `Current` | calibration constants and the `EST_CURRENT` estimate |
| slots.dfy | `Slots` | the clear slot, stacking several strands into a slot, decoding a strand back out |
| encoder.dfy | `Encoder` | the clear loop, the strand loops, the latch, the whole of phase one |
| stats.dfy | `Stats` | the `TCstats` record and one refresh's update of it |
| session.dfy | `Session` | device state, open (as written and corrected), refresh, strand pins, close |

External effects are parameters:

- The FTDI driver calls and the allocator are booleans: the `Outcomes`
  record for open, and the `written` flag for a refresh.
- `gettimeofday` readings are `unsigned long` parameters of the statistics
  step.
- `pow` is a function parameter. Where a property needs its mathematical
  behaviour on the 256 sample points, that is a precondition.
- The width of `unsigned long` (32 or 64 bits) is a parameter of the shift
  loop.

## Model

| member | source | states |
|---|---|---|
| Types.StatusCodes | p9813.h:67-76 | codes run 0..7, one per status; the code of a status maps back to it; the warnings are exactly the codes from the divisor warning up, and fatal means neither OK nor a warning |
| Types.StatusOf | p9813.h:67-76 | a code names a status exactly when it lies in 0..7, and then the status carries that code |
| Types.OneMessagePerCode | p9813.c:754-779 | the error printer has a message exactly for the codes 0..7, and distinct codes get distinct messages |
| Types.PinsPartitionPort | p9813.h:56-63 | the eight adapter pin masks are distinct single bits whose union is 0xFF, the all-outputs bit mode |
| Types.RgbRoundTrip | p9813.h:104 | the encoder's channel extraction recovers each component of `TCrgb`, a packed pixel has an empty top byte, and any such pixel is rebuilt from its channels |
| Word.PackWord | p9813.c:470-473 | red in bits 0-7, green in 8-15, blue in 16-23, bits 31-30 set, and bits 29-24 the complements of the top two bits of blue, green and red |
| Word.ParsePack | p9813.c:470-473 | a packed word parses back to its colour, and a word that parses to a colour is that colour's packing |
| Word.OffIsBlack | p9813.c:458 | the off word 0xFF000000 is the packing of black |
| Word.BitsRoundTrip | p9813.c:482-497 | the MSB-first 32-bit stream of a word and the word of a stream are inverse in both directions |
| Word.ByteRoundTrip | p9813.c:482-497 | a byte and its eight bits, most significant first, determine each other |
| Word.PackedStream | p9813.c:470-497 | a packed word is sent as the flag byte, then blue, green and red, each most significant bit first |
| Transpose.TransposeWord | p9813.c:479-498 | the loop that shifts the register until it is zero leaves the slot exactly as a walk over all 32 bits would, for a 32- or 64-bit register |
| Transpose.Mark | p9813.c:484-495 | a set bit ORs the mask into the one (CBUS clock) or two (bit-banged) bytes at the address and no other byte |
| Transpose.FirstByte | p9813.c:479-496 | the byte the loop reaches at bit `k` carries bit `k` (in bit-banged mode so does the next one), and for the 32 stream bits both lie inside the slot |
| Transpose.TopBit | p9813.c:482-484 | after `k` shifts the tested bit is stream bit `k`, and no bit is tested past the 32nd |
| Transpose.Drained | p9813.c:482 | when the register is zero, no stream bit not yet visited is set, so ending the loop early loses nothing |
| Transpose.PartialPast | p9813.c:482-489 | the extra turns of a 64-bit register beyond bit 32 write nothing |
| Transpose.ZeroStream | p9813.c:482 | the word 0 is the all-clear stream and fails the chip's flag check |
| Slots.Decode | p9813.c:479-498 | with nonzero, pairwise disjoint pins apart from the clock, strand `s`'s pin is set in bit `k`'s first byte exactly when bit `31 - k` of its word is set, and in bit-banged mode in the second byte too |
| Slots.StackReceived | p9813.c:448-500 | each strand reads exactly its own stream back from a slot holding every strand's stream |
| Slots.StackWord | p9813.c:448-500 | each strand reads exactly its own word back from a slot holding every strand's word |
| Slots.ClockTicks | p9813.c:428-436 | in bit-banged mode the clock pin of a slot is low in every even byte and high in every odd byte, whatever data is stacked on it |
| Slots.LatchIsEmpty | p9813.c:221-228 | every strand reads 32 clear bits from the latch slot |
| Slots.ClearReceived | p9813.c:428-440 | a pin apart from the clock reads nothing from a cleared slot |
| Slots.FlattenIndex | p9813.c:479 | slot `p` of a buffer of equal slots occupies bytes `p * n` to `p * n + n - 1` of the byte array written out |
| Slots.StackStep | p9813.c:448-450 | the reference slot for `n + 1` strands is the one for `n` strands with strand `n`'s word turned into it under its pin |
| Encoder.AbsIndex | p9813.c:448-453 | a strand's pixel index, strands laid end to end, stays below the number of physical pixels |
| Encoder.ColorFor | p9813.c:456-467 | with no image or a negative remap entry the pixel is black; otherwise each channel is the gamma table's entry for the pixel's channel |
| Encoder.Sentinels | p9813.h:51-52 | the unused and disconnected remap sentinels are distinct and negative, both send the off word, and only the disconnected one draws no current while the unused one draws the estimate for black |
| Encoder.WordFor | p9813.c:456-473 | the word sent for a pixel parses back to its colour, and an off pixel sends the off word |
| Encoder.CurrentFor | p9813.c:456-475 | the current is 0 exactly for a disconnected pixel, the base current for any other off pixel, and otherwise lies between the base and the base plus the three full channels |
| Encoder.ClearPixelSlot | p9813.c:428-436 | the clear loop over one slot writes the clear slot: 0 bytes, with the clock mask in the odd bytes in bit-banged mode |
| Encoder.ClearSlots | p9813.c:428-440 | every pixel slot becomes the clear slot and the latch slot is not touched |
| Encoder.RenderLatch | p9813.c:221-228 | the latch as open renders it is the clear slot for the clock pin |
| Encoder.RewriteClock | p9813.c:657-665 | the odd bytes of the latch become the new clock mask and the even bytes stay as they were |
| Encoder.ClockAtFlat | p9813.c:657-665 | the clock rewrite done slot by slot writes out as the byte array rewritten at the offset, whatever the slots' sizes |
| Encoder.ClockAtSlot | p9813.c:657-665 | when every slot has the window's size, the window at slot `p`'s start rewrites slot `p` alone, so the loop over one slot is the whole rewrite |
| Encoder.ClockAtSpans | p9813.c:657-665 | on a buffer of two 32-byte slots, the 64-byte window at offset 0 sets the odd bytes of both slots to the clock and keeps the even bytes |
| Encoder.LatchRewrite | p9813.c:657-665 | on a bit-banged buffer whose latch is the one open renders, the rewrite at the latch offset renders the latch for the new clock pin and leaves the pixel slots alone |
| Encoder.RewriteIsRerender | p9813.c:657-665 | rewriting the clock of a bit-banged latch gives the latch open renders for the new clock pin |
| Encoder.StrandPass | p9813.c:451-499 | one strand's pass turns its word into every pixel slot and records its pixels' currents in position order |
| Encoder.RenderStrand | p9813.c:448-500 | after strand `s`'s pass every pixel slot holds the first `s + 1` strands' words and the latch is unchanged |
| Encoder.Render | p9813.c:428-500 | phase one: every pixel slot is its reference slot, the latch slot is left alone, and the current of physical pixel `a` is the estimate for the image index it maps to |
| Encoder.StrandReceives | p9813.c:448-500 | end to end: the chip at strand `s`, position `p` reads exactly the word rendered for it, and parses it as the colour that pixel is to show |
| Current.OffCurrent | p9813.c:459-461 | an off pixel draws nothing exactly when it is disconnected, and otherwise draws what `EST_CURRENT(0,0,0)` estimates |
| Current.EstimateBounds | p9813.c:380-390 | an estimate is at least the base current and at most the base plus the channels' linear sum |
| Current.PairFactorRange | p9813.c:388-390 | each combination factor lies between the calibrated ratio and 1, is 1 when either channel is off, and is the ratio when both are full |
| Current.ComboRanges | calibration.h:96-101 | the three calibrated combination ratios lie strictly between 0 and 1 |
| Current.CalibrationReproduced | calibration.h:47-68 | the estimate reproduces the off, single-channel and two-channel readings it was calibrated from |
| Gamma.ZeroTable | p9813.c:90-93 | before any setter runs, every table entry is 0 |
| Gamma.Correct | p9813.c:465-467 | each channel of a pixel is looked up in its own column of the table |
| Gamma.Level | p9813.c:325-330 | an entry of a curve lies between the channel's minimum and maximum when the sample lies in [0, 1] |
| Gamma.SetGammaSimple | p9813.c:268-281 | a non-positive exponent is a value error that leaves the table unchanged; otherwise all three channels get equal entries |
| Gamma.SetGamma | p9813.c:301-334 | any non-positive exponent is a value error that leaves the table unchanged |
| Gamma.DisableGamma | p9813.c:345-351 | every channel maps each level to itself |
| Gamma.CurveBounds | p9813.c:318-331 | with `pow` in [0, 1] on the samples, every entry lies within its channel's range |
| Gamma.CurveEndpoints | p9813.c:322-331 | when `pow` maps 0 to 0 and 1 to 1, entry 0 is the channel's minimum and entry 255 its maximum |
| Gamma.LevelMonotone | p9813.c:325-330 | a larger sample never gives a smaller entry |
| Gamma.CurveMonotone | p9813.c:322-331 | a non-decreasing `pow` gives a non-decreasing channel |
| Gamma.SimpleIsFullRange | p9813.c:272-277 | the simple setter is the general one with the range 0 to 255 and the same exponent on every channel |
| Gamma.LinearIsIdentity | p9813.c:276-277 | exponent 1 with an exact `pow` gives the identity table |
| Gamma.IdentityTransparent | p9813.c:349-350 | with gamma disabled, a pixel's channels reach the packer unchanged |
| Stats.InitStats | p9813.c:368-375 | a fresh record has every counter, rate, total, current and charge, and the saved timestamp, at zero |
| Stats.InitStatsCall | p9813.c:364-378 | a missing record is a value error; a present one is reset |
| Stats.USub | p9813.c:539 | an `unsigned long` time difference is the plain difference when there is no wrap, and adding the earlier time back gives the later one modulo 2^64 |
| Stats.FrameBits | p9813.c:533-534 | the bits of one refresh are 32 per strand and position, latch included, in either clock mode |
| Stats.Rate | p9813.c:541-543 | a throughput is the largest whole number of units per second not above the exact rate |
| Stats.Charge | p9813.c:589-590 | the charge in mAh times the microseconds per hour is the current times the period |
| Stats.FramePeriod | p9813.c:564-602 | the first frame skips the block; otherwise the period is the time since the previous refresh, the rate its reciprocal, the charge the previous current over the period, and the averages the totals over the total time, with the average current guarded |
| Stats.Step | p9813.c:523-613 | bits and the I/O time accumulate, the rate is 0 for zero I/O time, the average rate falls back to the frame's, the current is the sum of the pixels' currents, the peak is a running maximum, and the timestamp and frame count advance |
| Stats.RunTotals | p9813.c:533-612 | after a run of refreshes the frame counter has grown by the run's length and the bit total by one frame's bits per refresh |
| Stats.RunPeak | p9813.c:609 | the peak current after a run is at least every frame's current and the peak it started from |
| Stats.ChargeOfPreviousFrame | p9813.c:586-590 | the charge a refresh records is the previous frame's current over the time between the two refreshes |
| Stats.QuietPreserved | p9813.c:570-591 | as long as no frame time has accrued, no charge has either: a zero period adds no charge |
| Stats.MaAvgAsWritten | p9813.c:599-601 | the average current divided without a guard is finite, and the total charge over the total time, once time has accrued |
| Stats.UnguardedAverage | p9813.c:564-601 | two refreshes in the same microsecond from a fresh record leave 0/0 as the average current |
| Stats.AverageCurrent | p9813.c:593-601 | with the guard, the average current is always defined, and once time has accrued it is what the unguarded division gives |
| Session.DefaultPins | p9813.c:78-88 | strand 0 on TX, strand 1 on RX, strand 2 on DTR and RTS together, strands 3 to 6 unassigned, the clock on CTS |
| Session.StrandsFor | p9813.c:212 | the strand count is 1 to 8, at most 7 with the bit-banged clock, and 8 exactly for the arguments 8 and 16 |
| Session.OpenAlloc | p9813.c:105-179 | the clock mode is set before anything can fail; allocation, open and bit-mode failures are fatal in that order; an allocation failure drops the current array but keeps the handle and the old output buffer, while open and bit-mode failures release everything; divisor and baud-rate failures are warnings, the baud rate's reported over the divisor's |
| Session.Refresh | p9813.c:409-613 | renders the image and the currents, leaves the latch, reports OK exactly when the write succeeds, updates the statistics whatever the outcome, and keeps a ready device ready |
| Session.Setup | p9813.c:212-240 | records the geometry and renders the latch, after which the device is ready whatever the writes answer; on a latch-write success it refreshes a blank frame, and on full success it installs the default gamma curve |
| Session.OpenAsWritten | p9813.c:200-241 | bad arguments change nothing; any status of the ladder other than OK, fatal or warning, is returned with the device as the ladder left it and the geometry as it was; once the ladder passes, the device is ready with the new clock mode and geometry even when a write then fails, holds a blank frame once the latch is written, and gets the default gamma curve only on full success |
| Session.Open | p9813.c:200-241 | only fatal failures end the open; after success or a warning the device is ready, with the strand geometry, the default gamma curve and a blank frame; a write failure leaves it ready with the geometry and the old gamma table |
| Session.WarningLeavesUnready | p9813.c:210 | an open that stops at a divisor warning, from a state with no geometry recorded, leaves a device a refresh cannot drive as set up |
| Session.SetStrandPin | p9813.c:641-668 | a strand outside 0..7 or an empty mask is a value error that changes nothing; otherwise only that strand's mask changes; with a bit-banged clock and a buffer held, a new clock pin is written into the odd bytes of the 64 bytes at the recorded strand length times 64 of the written array, slot sizes kept; a ready device stays ready |
| Session.ReclockLatch | p9813.c:653-665 | on an allocated bit-banged device, the clock pin is replaced and the buffer keeps its slot sizes while its bytes become the written array with the odd bytes of the window at the strand length times 64 set to the pin; a ready device stays ready with its pixel slots unchanged |
| Session.Close | p9813.c:677-692 | the handle is released and the geometry zeroed; the buffer is freed exactly when the current array, which owns the allocation, is held, and otherwise an output buffer left over is kept; clock mode, pin map and gamma table survive |
| Session.CloseIdempotent | p9813.c:677-692 | closing twice is closing once, a closed device is not ready, and the initial state is closed |
| Session.AllocThenClose | p9813.c:105-179 | a close after the allocation ladder is a close before it with the new clock mode; after a successful allocation nothing is held whatever the driver answered, but after an allocation failure on a device that was never closed the old output buffer outlives the close |

## Left out

- FTDI driver calls (`FT_Open`, `FT_SetBitMode`, `FT_SetDivisor`, `FT_SetBaudRate`, `FT_Write`, `FT_Close`): closed foreign library. Each becomes one boolean outcome. `FT_Purge` has no modelled effect because its result is discarded.
- The count check of each write (`len == out`) is folded into that write's boolean.
- `malloc`/`free`: one boolean outcome.
  - The shared allocation's layout is not modelled: the current array is a result of `Session.Refresh`, not device state.
  - Uninitialised memory is a caller-chosen fill byte.
- `gettimeofday`: the readings are `unsigned long` parameters. How they are built from seconds and microseconds is not modelled.
- `pow` and `floor` on doubles: `pow` is a parameter, and rounding is exact real arithmetic.
- Double rounding in `EST_CURRENT`, the rates, the frame rate, the charge and the averages: these are reals. The `Double` datatype models only the division by zero of the average current.
- Stats.Rate: the quotient is the exact rational rate rounded down. The source computes it in double precision before truncating, which can differ for operands beyond 2^53.
- Stats.Step: the cumulative counters (`frames`, `bitsTotal`, `usecIoTotal`, `usecFrameTotal`) are unbounded. Their wrap-around after 2^64 units, or after 2^32 units on a 32-bit `unsigned long`, is not modelled; only time differences wrap.
- Stats.Step: the average current is the corrected one from the p9813.c:599-601 row under "Findings". When frames have been counted but no frame time has accrued, it keeps its previous value where the source divides by zero. The source's division is modelled separately as `Stats.MaAvgAsWritten`.
- Stats.USub: `unsigned long` is 64 bits wide here. On a 32-bit `unsigned long` the differences at p9813.c:539 and p9813.c:570 wrap modulo 2^32. The microsecond readings built at p9813.c:511 and p9813.c:530 then wrap about every 71.6 minutes. The register width is a parameter only of the shift loop (`Transpose.LongWidth`).
- Stats.FrameBits: the `int` products behind the bit count and the buffer size (`(pixelsPerStrand + 1) * bytesPerPixel` at p9813.c:504, the allocation size at p9813.c:129-131, `p * bytesPerPixel` at p9813.c:221) are unbounded. Their overflow for very long strands is not modelled.
- Session.SetStrandPin: the source rewrites the odd bytes of the 64 bytes at byte offset `pixelsPerStrand * 64` of the output buffer, and the model does the same on the written array, across slot boundaries when the buffer's slots are 32 bytes. When the window reaches past the end of the buffer, the source writes beyond the allocation. The model keeps only the bytes inside the buffer. The 32-bit wrap of the `unsigned int` offset is not modelled either.
- Session.Refresh: requires an allocated, consistently shaped buffer, a held current array and a remap table that covers every pixel with in-range indices. The source checks none of these and dereferences whatever it is given, including the null current array that an allocation failure on a re-open leaves.
- Session.Refresh: its statistics go through `Stats.Step`. It therefore uses the guarded average current and 64-bit time differences; see the Stats.Step and Stats.USub lines above.
- `TCprintStats` and the printing of `TCprintError`: standard output. Only the message selection is modelled (`Types.ErrorMessage`).
- The demo programs (`rgb.c`, `gamma.c`, `demo.c`, `random.c`) and the Java/JNI binding under `processing/`: callers, not part of the library core.
- Concurrency: the library keeps static state and is single-threaded; the model threads that state through as a `Device` value.

## Findings

| source | as written | input that shows it | evidently intended | confidence | as-written member | corrected member |
|---|---|---|---|---|---|---|
| p9813.c:210 | `TCopen` returns the allocation ladder's status whenever it is not OK, including the divisor and baud-rate warnings. The ladder documents these (p9813.c:150-157) as failures the program can continue after. | `FT_SetDivisor` fails while the allocation, `FT_Open` and `FT_SetBitMode` succeed, with no geometry recorded before. The device is then open and allocated, but the strand count and length are still 0. The latch is not rendered, no blank frame is sent and the gamma table is left unset. | after a warning, finish the setup and return the warning | not executed | Session.OpenAsWritten, Session.WarningLeavesUnready | Session.Open |
| p9813.c:599-601 | The average current divides the total charge by the total frame time without the zero guard the average frame rate has at p9813.c:580. | Two refreshes with the same clock readings from a fresh record. The second enters the frame-period block with a period of 0, so the total frame time stays 0 and the average becomes 0/0, not a number. | compute the average current only when frame time has accrued | not executed | Stats.MaAvgAsWritten, Stats.UnguardedAverage | Stats.FramePeriod, Stats.AverageCurrent |
