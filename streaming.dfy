/** mt9v032_s_stream: the window and binning registers written in a fixed
    order, then the streaming bits switched on through the chip_control shadow. */
module Streaming {
  import opened Types
  import opened Registers
  import opened Bus
  import opened Geometry
  import opened Controls

  /** Master mode, data output enable and sequential readout: 0x188. */
  const STREAM_MODE: bv16 := CHIP_CONTROL_MASTER_MODE | CHIP_CONTROL_DOUT_ENABLE | CHIP_CONTROL_SEQUENTIAL

  /** READ_MODE as s_stream composes it from the two fields; the horizontal
      field goes to ROW_BIN and the vertical one to COLUMN_BIN, as written. */
  function ReadModeBits(rowBin: bv16, columnBin: bv16): bv16 {
    (rowBin << READ_MODE_ROW_BIN_SHIFT) | (columnBin << READ_MODE_COLUMN_BIN_SHIFT)
  }

  /** Fields of at most 2 bits can be read back from their masks. */
  lemma ReadModeRowField(rowBin: bv16, columnBin: bv16)
    requires rowBin < 4 && columnBin < 4
    ensures ReadModeBits(rowBin, columnBin) & READ_MODE_ROW_BIN_MASK == rowBin
  {
  }

  lemma ReadModeColumnField(rowBin: bv16, columnBin: bv16)
    requires rowBin < 4 && columnBin < 4
    ensures (ReadModeBits(rowBin, columnBin) & READ_MODE_COLUMN_BIN_MASK) >> READ_MODE_COLUMN_BIN_SHIFT
            == columnBin
  {
  }

  /** A wider field spills into its neighbour: a horizontal ratio of 5 writes the
      same READ_MODE as a vertical ratio of 2. */
  lemma ReadModeOverlap()
    ensures ReadModeBits(4, 0) == ReadModeBits(0, 1)
  {
  }

  /** The READ_MODE word for a crop and its output format: each ratio is
      DIV_ROUND_CLOSEST(crop, output) and the field holds ratio - 1. The C
      expression is computed in unsigned int and truncated to the u16 the
      write takes; the truncation commutes with the shift and the `|`. */
  function ReadModeValue(crop: Rect, fmt: Format): bv16
    requires FormatFits(fmt, crop)
  {
    ReadModeBits(Trunc16(BinningRatio(crop.width, fmt.width) - 1),
                 Trunc16(BinningRatio(crop.height, fmt.height) - 1))
  }

  /** Unbinned output (format equal to the crop): READ_MODE is 0. */
  lemma ReadModeUnbinned(crop: Rect, fmt: Format)
    requires FormatFits(fmt, crop) && fmt.width == crop.width && fmt.height == crop.height
    ensures ReadModeValue(crop, fmt) == 0
  {
    assert Trunc16(0) == 0;
  }

  /** Binning by 2 in both directions of the full window writes 5. */
  lemma ReadModeBinnedByTwo()
    ensures ReadModeValue(Rect(1, 5, 752, 480), Format(MBUS_FMT_SGRBG10_1X10, 376, 240, FIELD_NONE, COLORSPACE_SRGB)) == 5
  {
    assert BinningRatio(752, 376) == 2 && BinningRatio(480, 240) == 2;
    assert Trunc16(1) == 1;
  }

  /** The six window writes of s_stream, in the order it issues them. */
  function WindowWrites(crop: Rect, fmt: Format): seq<Event>
    requires FormatFits(fmt, crop)
  {
    [ Write(READ_MODE, ReadModeValue(crop, fmt)),
      Write(COLUMN_START, Trunc16(crop.left)),
      Write(ROW_START, Trunc16(crop.top)),
      Write(WINDOW_WIDTH, Trunc16(crop.width)),
      Write(WINDOW_HEIGHT, Trunc16(crop.height)),
      Write(HORIZONTAL_BLANKING, Trunc16(HorizontalBlanking(crop.width))) ]
  }

  /** Everything s_stream(1) writes when no write fails: the window, then
      CHIP_CONTROL with the streaming bits added to the shadow. */
  function StreamOnSequence(crop: Rect, fmt: Format, shadow: bv16): seq<Event>
    requires FormatFits(fmt, crop)
  {
    WindowWrites(crop, fmt) + [Write(CHIP_CONTROL, ChipControlValue(shadow, 0, STREAM_MODE))]
  }

  /** s_stream(1): the window writes up to the first failure, then the shadowed
      CHIP_CONTROL write. */
  function StreamOn(crop: Rect, fmt: Format, shadow: bv16, answer: Oracle, at: nat): Outcome
    requires FormatFits(fmt, crop)
  {
    var ws := WindowWrites(crop, fmt);
    var run := FirstFailure(answer, at, 6);
    if run.ret < 0 then Outcome(ws[..run.issued], run.ret, shadow)
    else
      var cc := ShadowedWrite(CHIP_CONTROL, shadow, ChipControlValue(shadow, 0, STREAM_MODE), answer, at + 6);
      Outcome(ws + cc.events, cc.ret, cc.shadow)
  }

  /** A run of register writes `all` that stops right after the first failing
      one: what was issued is a prefix of `all` whose writes before the last
      all succeeded; the run succeeds iff every write of `all` does, and then
      leaves the shadow `after`; on failure it returns that write's error and
      keeps the shadow it started from. */
  predicate StopsAtFirstFailure(o: Outcome, all: seq<Event>, shadow: bv16, after: bv16, answer: Oracle, at: nat) {
    && 1 <= |o.events| <= |all|
    && o.events == all[..|o.events|]
    && Answered(answer, at, |o.events| - 1)
    && o.ret <= 0
    && (o.ret == 0 <==> Answered(answer, at, |all|))
    && (o.ret == 0 ==> |o.events| == |all| && o.shadow == after)
    && (o.ret < 0 ==> o.ret == answer(at + |o.events| - 1) && o.shadow == shadow)
  }

  /** s_stream(1) issues its seven writes up to the first failure; on success
      the shadow carries the streaming bits. */
  lemma StreamOnStopsAtFirstFailure(crop: Rect, fmt: Format, shadow: bv16, answer: Oracle, at: nat)
    requires FormatFits(fmt, crop)
    ensures StopsAtFirstFailure(StreamOn(crop, fmt, shadow, answer, at), StreamOnSequence(crop, fmt, shadow),
                                shadow, ChipControlValue(shadow, 0, STREAM_MODE), answer, at)
  {
    var ws := WindowWrites(crop, fmt);
    var after := ChipControlValue(shadow, 0, STREAM_MODE);
    var run := FirstFailure(answer, at, 6);
    if run.ret < 0 {
      WindowFailureStops(ws, Write(CHIP_CONTROL, after), shadow, after, answer, at);
    } else {
      var cc := ShadowedWrite(CHIP_CONTROL, shadow, after, answer, at + 6);
      WindowSuccessStops(ws, cc, shadow, after, answer, at);
    }
  }

  /** A failing window write ends the run inside the window. */
  lemma WindowFailureStops(ws: seq<Event>, last: Event, shadow: bv16, after: bv16, answer: Oracle, at: nat)
    requires |ws| == 6 && FirstFailure(answer, at, 6).ret < 0
    ensures var run := FirstFailure(answer, at, 6);
      StopsAtFirstFailure(Outcome(ws[..run.issued], run.ret, shadow), ws + [last], shadow, after, answer, at)
  {
    var run := FirstFailure(answer, at, 6);
    assert answer(at + run.issued - 1) < 0;
    PrefixOfAppend(ws, [last], run.issued);
  }

  /** After a complete window the run ends with the shadowed write `cc`. */
  lemma WindowSuccessStops(ws: seq<Event>, cc: Outcome, shadow: bv16, after: bv16, answer: Oracle, at: nat)
    requires |ws| == 6 && FirstFailure(answer, at, 6).ret == 0
    requires |cc.events| == 1 && cc.ret <= 0 && (cc.ret == 0 <==> answer(at + 6) >= 0)
    requires cc.ret < 0 ==> cc.ret == answer(at + 6) && cc.shadow == shadow
    requires cc.ret == 0 ==> cc.shadow == after
    ensures StopsAtFirstFailure(Outcome(ws + cc.events, cc.ret, cc.shadow), ws + cc.events, shadow, after, answer, at)
  {
    AnsweredSnoc(answer, at, 6);
    assert (ws + cc.events)[..7] == ws + cc.events;
  }

  /** A prefix of a concatenation that ends inside its first part. */
  lemma PrefixOfAppend(a: seq<Event>, b: seq<Event>, k: nat)
    requires k <= |a|
    ensures |a[..k]| == k && (a + b)[..k] == a[..k]
  {
  }

  /** When the first k window writes succeed and write k fails, s_stream(1)
      has issued exactly k + 1 writes and returns that error. */
  lemma StreamOnFailsAt(crop: Rect, fmt: Format, shadow: bv16, answer: Oracle, at: nat, k: nat)
    requires FormatFits(fmt, crop) && k < 6
    requires Answered(answer, at, k)
    requires answer(at + k) < 0
    ensures StreamOn(crop, fmt, shadow, answer, at)
            == Outcome(WindowWrites(crop, fmt)[..k + 1], answer(at + k), shadow)
  {
    FirstFailureAt(answer, at, 6, k);
  }

  /** When all six window writes succeed, s_stream(1) ends with the shadowed
      CHIP_CONTROL write. */
  lemma StreamOnWindowWritten(crop: Rect, fmt: Format, shadow: bv16, answer: Oracle, at: nat)
    requires FormatFits(fmt, crop)
    requires Answered(answer, at, 6)
    ensures var cc := ShadowedWrite(CHIP_CONTROL, shadow, ChipControlValue(shadow, 0, STREAM_MODE), answer, at + 6);
      StreamOn(crop, fmt, shadow, answer, at) == Outcome(WindowWrites(crop, fmt) + cc.events, cc.ret, cc.shadow)
  {
  }
}
