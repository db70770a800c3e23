# MT9V032 sensor driver: control-plane model

This project models the control plane of the Linux 3.4 V4L2 sub-device driver for the
Aptina MT9V032/MT9V034 image sensor (`linux-3.4/drivers/media/video/mt9v032.c`) and
proves properties about it:

- **Geometry.** `set_crop` aligns and clamps the crop rectangle to the 782×492 pixel
  array. `set_format` derives the output size from the crop through a binning ratio.
  Both act on the active selection or on the try selection of a file handle.
- **Register shadows.** `chip_control` and `aec_agc` are cached copies of two sensor
  registers. The driver updates them by read-modify-write and keeps the new value only
  when the bus write succeeds.
- **Controls.** `s_ctrl` maps V4L2 controls to register writes, including the
  test-pattern encoding. It is also replayed over every registered control when the
  sensor powers up.
- **Streaming.** `s_stream` writes the window and binning registers in a fixed order and
  stops at the first bus error.
- **Power and identification.** `power_on` runs its reset sequence only once, guarded by
  the `on_done` latch. `__set_power` and the `set_power` gate decide when that happens.
  `registered` checks the chip version.
- **Small queries.** `enum_mbus_code`, `enum_frame_size`, `s_parm` and `g_parm`.

Every foreign call is an event appended to a log in class `Bus.Log`: SMBus word reads and
writes, `devm_clk_get`, `clk_prepare_enable` and `clk_disable_unprepare`. A constant
oracle `answer: nat -> int` gives the result of the call at each log position, and a
negative value is an error code.

Each operation is a pure function that describes its outcome: the events issued, the
result returned and the new shadow or latch. The properties are stated about those
functions. The driver's state is class `Sensor.Mt9v032`, and its methods perform the same
steps imperatively. Each method's postcondition ties the new log and fields to the
outcome function. Every method that changes the driver's state requires and preserves the
class invariant `Valid()`: both crops in bounds, both formats within their crops, the
power count at 0 and the registered controls in range.

Integer widths are explicit:

- `v4l2_rect` holds signed 32-bit fields, and `ALIGN` on them wraps as 32-bit arithmetic
  does (`Types.Wrap32`).
- Format sizes are unsigned 32-bit (`Types.WrapU32`).
- Register values are the `u16` that `mt9v032_write` takes (`Types.Trunc16`).

Several behaviours of the driver are easy to misread. The model follows the code as written:

- **Odd rounding in `set_crop`.** A requested crop {2, 4, 751, 479} becomes
  {3, 5, 752, 480}, because `ALIGN(x + 1, 2) - 1` rounds up to odd. See
  `ClampCropRoundsUp`.
- **`set_crop` is not idempotent.** A top of 4 (the lower bound) is moved to 5 the next
  time round. See `ClampCropNotIdempotentAtTopBound`.
- **The output size need not divide the crop.** For example, 752 with a request of 250
  keeps 250. See `BinnedSizeNeedNotDivide`.
- **The output size need not be an eighth of the crop.** `set_format` clamps the target
  size to at least an eighth of the crop, but rounding the ratio can still give less. A
  crop cut at the array edge to height 17, with a requested height of 2, stores 1, which
  is below 17 / 8 = 2. See `FormatBelowEighthOfCrop`.
- **The binning ratio is not bounded by 8,** and `READ_MODE`'s 2-bit fields then spill
  into each other. See `RatioNotBoundedByEight` and `ReadModeOverlap`.
- **The `EXPOSURE_AUTO` default clears the AEC bit.** The default is menu entry 0
  ("auto"). `s_ctrl` passes the raw menu value as the enable flag, so auto-exposure ends
  up off after the control replay. See `DefaultReplay`.
- **`s_stream` does not check that the sensor is powered.** The chip version is checked
  only in `registered`, never during power-on.
- **`power_count` is never updated.** The lines that update it are commented out, so
  `set_power` only ever powers up, and `close` never switches the clock off. See
  `SetPowerWithCountZero`.

## Model

| member | source | states |
|---|---|---|
| Types.Other | linux-3.4/drivers/media/video/mt9v032.c:454-480 | the selection a pad operation does not touch differs from the one it does |
| Types.Wrap32 | linux-3.4/drivers/media/video/mt9v032.c:631-645 | s32 arithmetic: the result is congruent to the input modulo 2^32 and equals it when it fits |
| Types.WrapU32 | linux-3.4/drivers/media/video/mt9v032.c:588-593 | u32 arithmetic: congruent modulo 2^32, identity on values that fit |
| Bus.FirstFailure | linux-3.4/drivers/media/video/mt9v032.c:510-529 | a run of writes that stops at the first error: it succeeds iff every call in the run succeeds, issues all of them then, and otherwise returns the failing call's error after a successful prefix |
| Bus.FirstFailureAt | linux-3.4/drivers/media/video/mt9v032.c:510-529 | when the calls before position k succeed and call k fails, the run issues exactly k + 1 calls and returns call k's error |
| Bus.Log.Issue | linux-3.4/drivers/media/video/mt9v032.c:295-329 | a foreign call appends exactly its event to the log and returns the oracle's answer for that position |
| Geometry.ClearLowBit | linux-3.4/drivers/media/video/mt9v032.c:631-645 | the `& ~1` of `ALIGN(x, 2)`: the result is even and is x or x - 1 |
| Geometry.Clamp | linux-3.4/drivers/media/video/mt9v032.c:631-645 | the kernel's clamp: the result lies in [lo, hi] and is the value itself when already inside |
| Geometry.AlignOdd | linux-3.4/drivers/media/video/mt9v032.c:631-632 | `ALIGN(x+1,2)-1` on s32 is odd, rounds up by at most one, and wraps the two largest values to S32_MAX |
| Geometry.AlignEven | linux-3.4/drivers/media/video/mt9v032.c:637-643 | `ALIGN(x,2)` on s32 is even, rounds up by at most one, and wraps S32_MAX to S32_MIN |
| Geometry.AlignEvenU | linux-3.4/drivers/media/video/mt9v032.c:588-593 | `ALIGN(x,2)` on u32 is even, rounds up by at most one, and wraps U32_MAX to 0 |
| Geometry.CropLeft | linux-3.4/drivers/media/video/mt9v032.c:631-633 | the left edge is in [1, 752], odd and rounded up for requests up to 751, and 752 from 752 on |
| Geometry.CropTop | linux-3.4/drivers/media/video/mt9v032.c:634-636 | the top edge is in [4, 482], odd and rounded up for requests in [4, 481], 4 below that and 482 from 482 on |
| Geometry.CropExtent | linux-3.4/drivers/media/video/mt9v032.c:637-645 | an extent is in [1, max] and within the pixel-array edge; it is 1 exactly for a non-positive request or S32_MAX, and otherwise is even or cut at the edge |
| Geometry.ClampCrop | linux-3.4/drivers/media/video/mt9v032.c:631-645 | every crop set_crop derives satisfies 1 ≤ left ≤ 752, 4 ≤ top ≤ 482, 1 ≤ width ≤ 752, 1 ≤ height ≤ 480, left + width ≤ 782 and top + height ≤ 492; it also states the parity and rounding of each field in every range of the request |
| Geometry.ClampCropIdempotent | linux-3.4/drivers/media/video/mt9v032.c:631-645 | re-cropping a result is a no-op whenever the request had top ≥ 4 and positive extents below S32_MAX |
| Geometry.ClampCropFixed | linux-3.4/drivers/media/video/mt9v032.c:631-645 | set_crop leaves a rectangle unchanged if it is in bounds, has its top above 4 and odd origins (or the upper bounds), and has extents of at least 2 that are even or reach the array edge |
| Geometry.ClampCropFixedOnly | linux-3.4/drivers/media/video/mt9v032.c:631-645 | the converse: every rectangle set_crop leaves unchanged has all of those properties |
| Geometry.ClampCropNotIdempotentAtTopBound | linux-3.4/drivers/media/video/mt9v032.c:634-636 | a top of 0 becomes 4, and cropping again moves it to 5 |
| Geometry.ClampCropRoundsUp | linux-3.4/drivers/media/video/mt9v032.c:631-645 | the request {2, 4, 751, 479} becomes {3, 5, 752, 480} |
| Geometry.ClampCropOddCut | linux-3.4/drivers/media/video/mt9v032.c:631-645 | a left edge of 751 leaves the odd width 31 to the array edge |
| Geometry.DivRoundClosest | linux-3.4/drivers/media/video/mt9v032.c:595-596 | `DIV_ROUND_CLOSEST(x, d)` is x / d rounded to the nearest integer, halves up: the result times d is within d below x + d/2 |
| Geometry.BinningTarget | linux-3.4/drivers/media/video/mt9v032.c:588-593 | the aligned request is clamped into [max(c/8, min), c]; a request from c up to U32_MAX - 1 gives exactly c |
| Geometry.BinningRatio | linux-3.4/drivers/media/video/mt9v032.c:595-596 | the binning ratio is at least 1 (no division by zero), at most the crop dimension, and 1 for an unscaled request |
| Geometry.BinnedSize | linux-3.4/drivers/media/video/mt9v032.c:588-601 | the stored size lies in [1, c] and is the quotient of c by the ratio; a request of at least c (below U32_MAX) yields exactly c; U32_MAX wraps to the smallest size |
| Geometry.RatioNotBoundedByEight | linux-3.4/drivers/media/video/mt9v032.c:588-596 | a 14-pixel crop with request 0 has ratio 14 and stores 1 |
| Geometry.BinnedSizeNeedNotDivide | linux-3.4/drivers/media/video/mt9v032.c:588-601 | a 752 crop with request 250 stores 250, which does not divide 752 |
| Geometry.BinnedSizeMaxRequest | linux-3.4/drivers/media/video/mt9v032.c:588-601 | the request U32_MAX on a 752 crop stores 94 |
| Geometry.FormatBelowEighthOfCrop | linux-3.4/drivers/media/video/mt9v032.c:588-601 | a crop {1, 475, 752, 480} is cut to height 17, and a requested height of 2 on it stores 1, below 17 / 8 |
| Geometry.HorizontalBlanking | linux-3.4/drivers/media/video/mt9v032.c:526-527 | the blanking is at least 43 and makes width + blanking reach 660, equal to 43 or exactly 660 - width |
| Controls.ChipControlValue | linux-3.4/drivers/media/video/mt9v032.c:331-344 | the word set_chip_control writes; its bits are stated by ChipControlSets, ChipControlClears and ChipControlKeeps |
| Controls.ChipControlSets | linux-3.4/drivers/media/video/mt9v032.c:331-344 | every requested set bit is on in the word set_chip_control writes |
| Controls.ChipControlClears | linux-3.4/drivers/media/video/mt9v032.c:331-344 | every cleared bit not also set is off |
| Controls.ChipControlKeeps | linux-3.4/drivers/media/video/mt9v032.c:331-344 | every other bit is as in the shadow |
| Controls.AecAgcValue | linux-3.4/drivers/media/video/mt9v032.c:346-364 | the word update_aec_agc writes; its bits are stated by AecAgcEnables, AecAgcDisables and AecAgcKeeps |
| Controls.AecAgcEnables | linux-3.4/drivers/media/video/mt9v032.c:346-364 | a non-zero enable turns the `which` bits on |
| Controls.AecAgcDisables | linux-3.4/drivers/media/video/mt9v032.c:346-364 | a zero enable turns the `which` bits off |
| Controls.AecAgcKeeps | linux-3.4/drivers/media/video/mt9v032.c:346-364 | bits outside `which` keep their shadow value |
| Controls.ShadowedWrite | linux-3.4/drivers/media/video/mt9v032.c:331-364 | one write; the shadow takes the written value iff the write succeeds, and otherwise keeps its value and the error is returned |
| Controls.TestPatternData | linux-3.4/drivers/media/video/mt9v032.c:699-724 | the TEST_PATTERN word for a control value; TestPatternRoundTrip and TestPatternInjective state that it loses nothing |
| Controls.TestPatternEnabled | linux-3.4/drivers/media/video/mt9v032.c:699-724 | the generator is enabled for every value except 0, which writes 0 |
| Controls.TestPatternGray | linux-3.4/drivers/media/video/mt9v032.c:704-715 | values 1 to 3 put the value in the grey field with the enable bit: 0x2800, 0x3000, 0x3800 |
| Controls.TestPatternUserData | linux-3.4/drivers/media/video/mt9v032.c:716-720 | from 4 on the low 10 bits of the word are the control value |
| Controls.TestPatternUserFlags | linux-3.4/drivers/media/video/mt9v032.c:716-720 | from 4 on the rest of the word is use-data, enable and flip (0x6400) |
| Controls.TestPatternRoundTrip | linux-3.4/drivers/media/video/mt9v032.c:699-724 | every value 0..1023 is recovered from the word it writes |
| Controls.TestPatternInjective | linux-3.4/drivers/media/video/mt9v032.c:699-724 | different values never write the same word |
| Controls.CtrlStep | linux-3.4/drivers/media/video/mt9v032.c:676-730 | one s_ctrl call: the write, the result and the new aec_agc shadow; stated by CtrlStepShape |
| Controls.CtrlStepShape | linux-3.4/drivers/media/video/mt9v032.c:676-730 | s_ctrl issues exactly one write for a control it knows and none for any other id, which returns 0; a non-zero result is the bus error; only AUTOGAIN and EXPOSURE_AUTO change the shadow, and only on success |
| Controls.DriverControlCount | linux-3.4/drivers/media/video/mt9v032.c:683-729 | the number of controls s_ctrl acts on is at most the number of controls |
| Controls.ReplayFrom | linux-3.4/drivers/media/video/mt9v032.c:447 | the replay from control i on: one s_ctrl call per control until one returns non-zero |
| Controls.Replay | linux-3.4/drivers/media/video/mt9v032.c:447 | v4l2_ctrl_handler_setup over the registered controls; stated by ReplayShape and computed by Sensor.Mt9v032.ReplayControls |
| Controls.ReplayShape | linux-3.4/drivers/media/video/mt9v032.c:447 | the control replay issues at most one write per known control and all of them when it succeeds; a non-zero result is the answer to its last write |
| Controls.DefaultControls | linux-3.4/drivers/media/video/mt9v032.c:1149-1166 | the registered controls are AUTOGAIN 1, GAIN 16, EXPOSURE_AUTO 0, EXPOSURE 480, TEST_PATTERN 0, in that order |
| Controls.DefaultShadowValues | linux-3.4/drivers/media/video/mt9v032.c:684-693 | from aec_agc 3, AUTOGAIN 1 keeps 3 and EXPOSURE_AUTO 0 gives 2 |
| Controls.DefaultReplay | linux-3.4/drivers/media/video/mt9v032.c:1149-1186 | replaying the defaults from aec_agc 3 on a bus that never fails writes AEC_AGC 3, GAIN 16, AEC_AGC 2, SHUTTER 480, TEST_PATTERN 0, returns 0 and leaves aec_agc 2 (AEC off) |
| Streaming.ReadModeBits | linux-3.4/drivers/media/video/mt9v032.c:504-506 | the two binning fields packed into READ_MODE; ReadModeRowField and ReadModeColumnField read them back |
| Streaming.ReadModeRowField | linux-3.4/drivers/media/video/mt9v032.c:504-508 | a horizontal field below 4 is read back from the ROW_BIN mask |
| Streaming.ReadModeColumnField | linux-3.4/drivers/media/video/mt9v032.c:504-508 | a vertical field below 4 is read back from the COLUMN_BIN mask |
| Streaming.ReadModeOverlap | linux-3.4/drivers/media/video/mt9v032.c:504-508 | a horizontal ratio of 5 writes the same READ_MODE as a vertical ratio of 2 |
| Streaming.ReadModeValue | linux-3.4/drivers/media/video/mt9v032.c:501-508 | the READ_MODE word for the rounded ratios of crop to format |
| Streaming.ReadModeUnbinned | linux-3.4/drivers/media/video/mt9v032.c:501-508 | an unscaled format writes READ_MODE 0 |
| Streaming.ReadModeBinnedByTwo | linux-3.4/drivers/media/video/mt9v032.c:501-508 | 752×480 binned to 376×240 writes READ_MODE 5 |
| Streaming.WindowWrites | linux-3.4/drivers/media/video/mt9v032.c:504-527 | the six window writes in the order s_stream issues them |
| Streaming.StreamOnSequence | linux-3.4/drivers/media/video/mt9v032.c:500-532 | the window writes, then the CHIP_CONTROL write setting the streaming bits |
| Streaming.StreamOn | linux-3.4/drivers/media/video/mt9v032.c:482-533 | s_stream(1) on a given bus; stated by StreamOnStopsAtFirstFailure |
| Streaming.StreamOnStopsAtFirstFailure | linux-3.4/drivers/media/video/mt9v032.c:500-532 | s_stream(1) issues a prefix of READ_MODE, COLUMN_START, ROW_START, WINDOW_WIDTH, WINDOW_HEIGHT, HORIZONTAL_BLANKING, CHIP_CONTROL that ends at the first failure; it succeeds iff all seven succeed, then adding 0x188 to the shadow, and otherwise returns that error with the shadow unchanged |
| Streaming.StreamOnFailsAt | linux-3.4/drivers/media/video/mt9v032.c:510-529 | when window write k is the first to fail, exactly k + 1 writes are issued and its error is returned |
| Streaming.StreamOnWindowWritten | linux-3.4/drivers/media/video/mt9v032.c:510-532 | when the window is written, s_stream(1) ends with the shadowed CHIP_CONTROL write |
| Power.PowerOn | linux-3.4/drivers/media/video/mt9v032.c:366-402 | power_on on a given bus; stated by PowerOnLatch |
| Power.PowerOnLatch | linux-3.4/drivers/media/video/mt9v032.c:366-402 | once latched, power_on issues nothing and returns 0; otherwise it issues a prefix of clock, version read, RESET 1, RESET 0, CHIP_CONTROL 0 of at least three calls; the latch ends up set iff both reset writes succeed; a call that leaves it clear returns an error; the full sequence returns the CHIP_CONTROL result; the shadow is untouched |
| Power.SetPowerInner | linux-3.4/drivers/media/video/mt9v032.c:413-448 | __set_power on a given bus; stated by PowerOffTouchesNoRegister and PowerUpStopsAtFirstFailure |
| Power.PowerUp | linux-3.4/drivers/media/video/mt9v032.c:430-447 | the "on" branch after the clock request; stated by PowerUpStops |
| Power.PowerUpTail | linux-3.4/drivers/media/video/mt9v032.c:435-447 | the polarity write, the row-noise write and the replay; stated by PowerUpTailStops |
| Power.RowNoiseThenReplay | linux-3.4/drivers/media/video/mt9v032.c:443-447 | the row-noise write, then the replay if it succeeds; stated by RowNoiseStops |
| Power.PowerUpStopsAtFirstFailure | linux-3.4/drivers/media/video/mt9v032.c:413-448 | on any bus, __set_power(1) runs the control replay iff the clock request, power_on and the optional polarity and row-noise writes all succeed; then the log is those calls and the replay, the result and shadow are the replay's and the latch is set; otherwise the log is a prefix of those calls that ends at the failing one, whose error is returned, and the shadow is kept |
| Power.PowerUpStops | linux-3.4/drivers/media/video/mt9v032.c:430-447 | the same after the clock request: the replay runs iff power_on and the tail writes succeed, and then the latch is set |
| Power.PowerUpTailStops | linux-3.4/drivers/media/video/mt9v032.c:435-447 | after power_on, the replay runs iff the optional polarity write and the row-noise write succeed; otherwise the tail stops at the failing write with its error |
| Power.RowNoiseStops | linux-3.4/drivers/media/video/mt9v032.c:443-447 | the replay runs iff the row-noise write succeeds; otherwise that write's error is returned and the shadow kept |
| Power.PowerOffTouchesNoRegister | linux-3.4/drivers/media/video/mt9v032.c:413-428 | powering off gets the clock and disables it, writes no register, leaves latch and shadow, and returns 0 or the clock error |
| Power.ColdPowerUp | linux-3.4/drivers/media/video/mt9v032.c:413-448 | a first power-up on a bus that never fails issues clock, the power-on sequence, the optional PIXEL_CLOCK write, ROW_NOISE_CORR_CONTROL 0 and the default replay, and returns 0 with the latch set and aec_agc 2 |
| Power.PowerUpTailWrites | linux-3.4/drivers/media/video/mt9v032.c:435-447 | after power-on, the optional polarity write and the row-noise write precede the control replay, whose result is the call's |
| Power.LatchedPowerUpSkipsReset | linux-3.4/drivers/media/video/mt9v032.c:377-378 | with the latch set, powering up goes from the clock straight to the polarity, row-noise and replay writes, without any reset |
| Power.NormalisePower | linux-3.4/drivers/media/video/mt9v032.c:761-766 | the request normalisation of set_power; used by SetPowerWithCountZero |
| Power.SetPower | linux-3.4/drivers/media/video/mt9v032.c:754-787 | set_power on a given bus and power count; stated by SetPowerWithCountZero |
| Power.SetPowerWithCountZero | linux-3.4/drivers/media/video/mt9v032.c:761-782 | with power_count stuck at 0, set_power(1) is exactly __set_power(1), and any other request issues nothing and returns 0 |
| Power.IsKnownChip | linux-3.4/drivers/media/video/mt9v032.c:845-846 | the three chip versions the driver accepts |
| Power.Registered | linux-3.4/drivers/media/video/mt9v032.c:837-850 | registered on a given bus; stated by RegisteredChecksVersion |
| Power.RegisteredChecksVersion | linux-3.4/drivers/media/video/mt9v032.c:837-850 | after a power-on that did not fail, registered reads the version and returns -ENODEV iff it is not 0x1311, 0x1313 or 0x1324, and the power-on result otherwise |
| Power.ColdRegistration | linux-3.4/drivers/media/video/mt9v032.c:837-850 | a cold registration of a MT9V034 issues the power-on sequence and the identifying read, returns 0 and sets the latch |
| Power.LatchedRegistrationRejectsUnknown | linux-3.4/drivers/media/video/mt9v032.c:843-850 | with the latch set, a version of 0 costs only the read and returns -ENODEV |
| Capabilities.EnumMbusCode | linux-3.4/drivers/media/video/mt9v032.c:535-544 | index 0 gives SGRBG10_1X10 and every other index -EINVAL |
| Capabilities.EnumFrameSize | linux-3.4/drivers/media/video/mt9v032.c:546-559 | succeeds iff index < 8 and the code is SGRBG10_1X10, else -EINVAL (index 0 included); min and max are equal and are 752/index by 480/index |
| Capabilities.FrameSizesShrink | linux-3.4/drivers/media/video/mt9v032.c:553-556 | larger indices list sizes no larger |
| Capabilities.RequestedRate | linux-3.4/drivers/media/video/mt9v032.c:958-964 | after zero parts are replaced by 1/60, an interval of at most one second asks for at least one frame per second |
| Capabilities.Divider | linux-3.4/drivers/media/video/mt9v032.c:964-972 | the divider fits the unsigned char and lies in 1..15 exactly for rates 4..60 |
| Capabilities.DividerInRange | linux-3.4/drivers/media/video/mt9v032.c:964-972 | 60 / rate is at most 60 and in 1..15 iff the rate is in 4..60 |
| Capabilities.SParm | linux-3.4/drivers/media/video/mt9v032.c:944-977 | a non-capture type is -EINVAL; for a capture type a zero part becomes 1/60, and the call returns 0 iff the rate is 4..60 and -EINVAL otherwise |
| Capabilities.GParm | linux-3.4/drivers/media/video/mt9v032.c:979-995 | a capture type gets time-per-frame capability and 1/60; any other type gets -EINVAL |
| Capabilities.GParmAcceptedBySParm | linux-3.4/drivers/media/video/mt9v032.c:944-995 | the interval g_parm reports is accepted unchanged by s_parm, and a zero interval becomes that same 1/60 |
| Sensor.Mt9v032.constructor | linux-3.4/drivers/media/video/mt9v032.c:1137-1186 | probe's state: crop {1,5,752,480}, format 752×480 SGRBG10, chip_control 0, aec_agc 3, latch clear, power_count 0, the five controls in registration order (the custom one by a loop), plus open's try state |
| Sensor.Mt9v032.PadCrop | linux-3.4/drivers/media/video/mt9v032.c:468-480 | the crop of the active or the try selection |
| Sensor.Mt9v032.PadFormat | linux-3.4/drivers/media/video/mt9v032.c:454-466 | the format of the active or the try selection |
| Sensor.Mt9v032.GetCrop | linux-3.4/drivers/media/video/mt9v032.c:608-617 | returns 0 and the selected crop |
| Sensor.Mt9v032.GetFormat | linux-3.4/drivers/media/video/mt9v032.c:561-570 | returns 0 and the selected format |
| Sensor.Mt9v032.SetCrop | linux-3.4/drivers/media/video/mt9v032.c:619-663 | the selected crop becomes the clamped rectangle, which is also handed back; the selected format takes the new size only when the size changed; the other selection is untouched; the crop and format invariants hold |
| Sensor.Mt9v032.SetFormat | linux-3.4/drivers/media/video/mt9v032.c:572-606 | the selected format's size becomes the binned size of its crop; code, field, colour space, the crops and the other selection are unchanged; the format still fits the crop |
| Sensor.Mt9v032.SetChipControl | linux-3.4/drivers/media/video/mt9v032.c:331-344 | one CHIP_CONTROL write of the shadow with the clear bits off and the set bits on; the shadow takes it only on success |
| Sensor.Mt9v032.UpdateAecAgc | linux-3.4/drivers/media/video/mt9v032.c:346-364 | one AEC_AGC_ENABLE write with the `which` bits set or cleared; the shadow takes it only on success |
| Sensor.Mt9v032.SStream | linux-3.4/drivers/media/video/mt9v032.c:482-533 | disable is one shadowed CHIP_CONTROL write clearing 0x188; enable is the StreamOn outcome for the active crop and format, with no power check |
| Sensor.Mt9v032.WriteWindow | linux-3.4/drivers/media/video/mt9v032.c:501-529 | the six window writes in order up to the first failure, returning its error or 0 |
| Sensor.Mt9v032.SCtrl | linux-3.4/drivers/media/video/mt9v032.c:676-730 | the log, result and aec_agc shadow are those of the control's mapping |
| Sensor.Mt9v032.ReplayControls | linux-3.4/drivers/media/video/mt9v032.c:447 | the loop over the registered controls produces exactly the replay outcome: stop at the first non-zero result |
| Sensor.Mt9v032.PowerOn | linux-3.4/drivers/media/video/mt9v032.c:366-402 | the log, result and latch are those of power_on's outcome (the PowerOnLatch properties) |
| Sensor.Mt9v032.PowerOff | linux-3.4/drivers/media/video/mt9v032.c:404-411 | only the clock is switched off |
| Sensor.Mt9v032.SetPowerInner | linux-3.4/drivers/media/video/mt9v032.c:413-448 | the log, result, latch and shadow are those of __set_power's outcome |
| Sensor.Mt9v032.PowerUp | linux-3.4/drivers/media/video/mt9v032.c:430-447 | power_on, ending on its error, then the tail |
| Sensor.Mt9v032.PowerUpTail | linux-3.4/drivers/media/video/mt9v032.c:435-447 | the optional polarity write, ending on its error, then the row-noise write and the replay |
| Sensor.Mt9v032.RowNoiseThenReplay | linux-3.4/drivers/media/video/mt9v032.c:443-447 | the row-noise write, ending on its error, then the control replay |
| Sensor.Mt9v032.SetPower | linux-3.4/drivers/media/video/mt9v032.c:754-787 | the request is normalised, and __set_power runs only when power_count equals `!on` |
| Sensor.Mt9v032.Registered | linux-3.4/drivers/media/video/mt9v032.c:837-850 | power_on, then the identifying read and the version check |
| Sensor.Mt9v032.Open | linux-3.4/drivers/media/video/mt9v032.c:860-880 | the try crop and format are reset to the defaults, and the sensor gets the full __set_power(1) |
| Sensor.Mt9v032.Close | linux-3.4/drivers/media/video/mt9v032.c:882-886 | returns 0 and issues nothing: the sensor stays powered |
| Sensor.Mt9v032.Init | linux-3.4/drivers/media/video/mt9v032.c:888-898 | one shadowed CHIP_CONTROL write adding the streaming bits 0x188 |

## Left out

- The procfs debug channel (`procfile_read`, `procfile_write`, the proc entry and
  `my_client`): a side channel for user-space I/O, not part of the control logic.
- The SMBus primitives and their byte swapping: foreign calls. Every read or write is a
  log event whose result comes from the oracle.
- The clock framework: foreign calls, recorded only as events. The result of
  `clk_prepare_enable` is ignored, as in the driver.
- `udelay(1)` in `power_on` (line 382): a busy wait that touches neither the bus nor the
  driver's state, so it is not modelled, not even as an event.
- `_mt9v032_s_ctrl` (lines 672-675), wired as the core `s_ctrl` operation (line 1034): it
  passes a `struct v4l2_control *` where `mt9v032_s_ctrl` expects a `struct v4l2_ctrl *`,
  so what it does depends on memory layout. Only the control-framework path through
  `mt9v032_ctrl_ops` (line 733) is modelled.
- `devm_clk_get` storing the clock handle: only its success or failure is modelled.
- The probe's own failure paths (missing SMBus functionality, allocation failure,
  `devm_clk_get` at probe time): the model starts from a successful probe.
- `mutex_lock`/`mutex_unlock` and all concurrency: the model is sequential.
- V4L2 and media-framework glue (handler init, sub-device and entity registration,
  driver tables, `cci_sys_register`): there is no logic to model.
- The framework's value cache for controls. The replay uses the values held in `ctrls`,
  which are the registered defaults; no operation here changes them.
- The range check the control framework applies before `s_ctrl`: it is a precondition,
  `InRegisteredRange`.
- The conversion of control values and window coordinates to `u16`: modelled by
  truncation (`Trunc16`).
- The constant stubs (`ioctl`, `sensor_g_exif`, `g_mbus_config`, `g_chip_ident`,
  `s_fmt`, `try_fmt`, `enum_size`, `enum_fmt`): they only return literals.
- `g_parm`'s `memset` and `capturemode`: what it reports beyond its result and the
  1/60 interval.
- `printk` and `dev_dbg` logging.
- Mt9v032 holds the one-shot `on_done` latch as a field, although the driver keeps it
  as a global: the driver has a single instance.
- Mt9v032 holds one file handle's try crop and format, not one per open handle.
- Capabilities.EnumFrameSize: excludes index 0 with the SGRBG10_1X10 code, because the
  driver then divides by zero. Index 0 with any other code is modelled: it returns -EINVAL.
- Capabilities.SParm: requires an interval of at most one second for the capture type,
  because a rate of 0 would divide by zero in the driver.
- Controls.TestPatternData: takes the control value as `bv10`, the 0..1023 range the
  control is registered with, so larger values are not modelled.
- Power.NormalisePower: does not model the platform's `CSI_SUBDEV_PWR_ON`/`_OFF`
  header, which is not part of this model. The values 1 and 0 are assumed.
