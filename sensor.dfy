/** The device as the driver keeps it: struct mt9v032 (active crop and format,
    the two register shadows, the power count, the registered controls), the
    try crop and format of the one open file handle, and the on_done latch;
    every foreign call goes to the bus log. */
module Sensor {
  import opened Types
  import opened Registers
  import opened Bus
  import opened Geometry
  import opened Controls
  import opened Streaming
  import opened Power

  /** The window probe and open install: the full 752x480 array from (1, 5). */
  const DEFAULT_CROP: Rect := Rect(COLUMN_START_DEF, ROW_START_DEF, WINDOW_WIDTH_DEF, WINDOW_HEIGHT_DEF)
  const DEFAULT_FORMAT: Format :=
    Format(MBUS_FMT_SGRBG10_1X10, WINDOW_WIDTH_DEF, WINDOW_HEIGHT_DEF, FIELD_NONE, COLORSPACE_SRGB)

  class Mt9v032 {
    var crop: Rect
    var format: Format
    var tryCrop: Rect
    var tryFormat: Format
    var chipControl: bv16
    var aecAgc: bv16
    var onDone: bool
    var powerCount: int
    /** The controls registered with the control framework, with the values it holds. */
    var ctrls: seq<Control>
    const bus: Log
    /** The platform's request to invert the pixel clock. */
    const clkPol: bool

    predicate Valid()
      reads this
    {
      && CropInBounds(crop) && FormatFits(format, crop)
      && CropInBounds(tryCrop) && FormatFits(tryFormat, tryCrop)
      && powerCount == 0
      && AllInRange(ctrls)
    }

    /** The state mt9v032_probe leaves: zeroed by kzalloc, the defaults for
        crop, format and aec_agc, and the controls registered in order (the
        driver's own table by a loop). The try state is that of mt9v032_open. */
    constructor (bus: Log, clkPol: bool)
      ensures Valid()
      ensures crop == DEFAULT_CROP && format == DEFAULT_FORMAT
      ensures tryCrop == DEFAULT_CROP && tryFormat == DEFAULT_FORMAT
      ensures chipControl == 0 && aecAgc == AEC_ENABLE | AGC_ENABLE
      ensures !onDone && powerCount == 0
      ensures ctrls == STD_CONTROLS + CUSTOM_CONTROLS
      ensures this.bus == bus && this.clkPol == clkPol
    {
      var registered := STD_CONTROLS;
      for i := 0 to |CUSTOM_CONTROLS|
        invariant registered == STD_CONTROLS + CUSTOM_CONTROLS[..i]
      {
        registered := registered + [CUSTOM_CONTROLS[i]];
      }
      this.bus := bus;
      this.clkPol := clkPol;
      crop := DEFAULT_CROP;
      format := DEFAULT_FORMAT;
      tryCrop := DEFAULT_CROP;
      tryFormat := DEFAULT_FORMAT;
      chipControl := 0;
      aecAgc := AEC_ENABLE | AGC_ENABLE;
      onDone := false;
      powerCount := 0;
      ctrls := registered;
    }

    /** __mt9v032_get_pad_crop and __mt9v032_get_pad_format. */
    function PadCrop(which: Which): Rect
      reads this
    {
      if which == Try then tryCrop else crop
    }

    function PadFormat(which: Which): Format
      reads this
    {
      if which == Try then tryFormat else format
    }

    /** mt9v032_get_crop: the selected rectangle. */
    method GetCrop(which: Which) returns (ret: int, rect: Rect)
      ensures ret == 0 && rect == PadCrop(which)
    {
      rect := PadCrop(which);
      ret := 0;
    }

    /** mt9v032_get_format: the selected format. */
    method GetFormat(which: Which) returns (ret: int, fmt: Format)
      ensures ret == 0 && fmt == PadFormat(which)
    {
      fmt := PadFormat(which);
      ret := 0;
    }

    /** mt9v032_set_crop: installs the clamped rectangle in the selection and
        hands it back; the selection's output size is reset to the new crop
        size only when that size changed. */
    method SetCrop(which: Which, req: Rect) returns (ret: int, rect: Rect)
      requires Valid()
      modifies this`crop, this`format, this`tryCrop, this`tryFormat
      ensures Valid()
      ensures ret == 0 && rect == ClampCrop(req) && PadCrop(which) == rect
      ensures PadFormat(which) ==
        if rect.width != old(PadCrop(which)).width || rect.height != old(PadCrop(which)).height
        then old(PadFormat(which)).(width := rect.width, height := rect.height)
        else old(PadFormat(which))
      ensures PadCrop(Other(which)) == old(PadCrop(Other(which)))
      ensures PadFormat(Other(which)) == old(PadFormat(Other(which)))
    {
      rect := ClampCrop(req);
      var current := PadCrop(which);
      if rect.width != current.width || rect.height != current.height {
        if which == Try {
          tryFormat := tryFormat.(width := rect.width, height := rect.height);
        } else {
          format := format.(width := rect.width, height := rect.height);
        }
      }
      if which == Try {
        tryCrop := rect;
      } else {
        crop := rect;
      }
      ret := 0;
    }

    /** mt9v032_set_format: the selection's output size becomes its crop
        divided by the binning ratio the request asks for; code, field and
        colour space stay, and no crop changes. */
    method SetFormat(which: Which, req: Format) returns (ret: int, fmt: Format)
      requires Valid()
      modifies this`format, this`tryFormat
      ensures Valid()
      ensures ret == 0 && fmt == PadFormat(which)
      ensures fmt == old(PadFormat(which)).(
        width := BinnedSize(req.width, PadCrop(which).width, WINDOW_WIDTH_MIN),
        height := BinnedSize(req.height, PadCrop(which).height, WINDOW_HEIGHT_MIN))
      ensures PadFormat(Other(which)) == old(PadFormat(Other(which)))
    {
      var c := PadCrop(which);
      var width := BinnedSize(req.width, c.width, WINDOW_WIDTH_MIN);
      var height := BinnedSize(req.height, c.height, WINDOW_HEIGHT_MIN);
      if which == Try {
        tryFormat := tryFormat.(width := width, height := height);
      } else {
        format := format.(width := width, height := height);
      }
      fmt := PadFormat(which);
      ret := 0;
    }

    /** mt9v032_set_chip_control: a read-modify-write of CHIP_CONTROL through
        its shadow. */
    method SetChipControl(clearBits: bv16, setBits: bv16) returns (ret: int)
      requires Valid()
      modifies this`chipControl, bus
      ensures Valid()
      ensures var o := ShadowedWrite(CHIP_CONTROL, old(chipControl),
                                     ChipControlValue(old(chipControl), clearBits, setBits),
                                     bus.answer, |old(bus.events)|);
        bus.events == old(bus.events) + o.events && ret == o.ret && chipControl == o.shadow
    {
      var value := ChipControlValue(chipControl, clearBits, setBits);
      ret := bus.Issue(Write(CHIP_CONTROL, value));
      if ret < 0 {
        return;
      }
      chipControl := value;
      ret := 0;
    }

    /** mt9v032_update_aec_agc: a read-modify-write of AEC_AGC_ENABLE through
        its shadow. */
    method UpdateAecAgc(which: bv16, enable: int) returns (ret: int)
      requires Valid()
      modifies this`aecAgc, bus
      ensures Valid()
      ensures var o := ShadowedWrite(AEC_AGC_ENABLE, old(aecAgc), AecAgcValue(old(aecAgc), which, enable),
                                     bus.answer, |old(bus.events)|);
        bus.events == old(bus.events) + o.events && ret == o.ret && aecAgc == o.shadow
    {
      var value := AecAgcValue(aecAgc, which, enable);
      ret := bus.Issue(Write(AEC_AGC_ENABLE, value));
      if ret < 0 {
        return;
      }
      aecAgc := value;
      ret := 0;
    }

    /** mt9v032_s_stream. With `enable` 0 it clears the streaming bits. Otherwise
        it writes the window of the active crop and format, stopping at the
        first error, and then sets the streaming bits. It does not check that
        the sensor is powered. */
    method SStream(enable: int) returns (ret: int)
      requires Valid()
      modifies this`chipControl, bus
      ensures Valid()
      ensures enable == 0 ==>
        var o := ShadowedWrite(CHIP_CONTROL, old(chipControl), ChipControlValue(old(chipControl), STREAM_MODE, 0),
                               bus.answer, |old(bus.events)|);
        bus.events == old(bus.events) + o.events && ret == o.ret && chipControl == o.shadow
      ensures enable != 0 ==>
        var o := StreamOn(old(crop), old(format), old(chipControl), bus.answer, |old(bus.events)|);
        bus.events == old(bus.events) + o.events && ret == o.ret && chipControl == o.shadow
    {
      if enable == 0 {
        ret := SetChipControl(STREAM_MODE, 0);
        return;
      }
      ret := WriteWindow(crop, format);
      if ret < 0 {
        return;
      }
      ret := SetChipControl(0, STREAM_MODE);
    }

    /** The window part of s_stream: the six writes of WindowWrites in order,
        each issued only if the one before it succeeded. */
    method WriteWindow(c: Rect, f: Format) returns (ret: int)
      requires FormatFits(f, c)
      modifies bus
      ensures var run := FirstFailure(bus.answer, |old(bus.events)|, 6);
        bus.events == old(bus.events) + WindowWrites(c, f)[..run.issued] && ret == run.ret
    {
      var ws := WindowWrites(c, f);
      ret := bus.IssueNext(old(bus.events), ws, 0);
      if ret < 0 {
        return;
      }
      ret := bus.IssueNext(old(bus.events), ws, 1);
      if ret < 0 {
        return;
      }
      ret := bus.IssueNext(old(bus.events), ws, 2);
      if ret < 0 {
        return;
      }
      ret := bus.IssueNext(old(bus.events), ws, 3);
      if ret < 0 {
        return;
      }
      ret := bus.IssueNext(old(bus.events), ws, 4);
      if ret < 0 {
        return;
      }
      ret := bus.IssueNext(old(bus.events), ws, 5);
      if ret < 0 {
        return;
      }
      ret := 0;
    }

    /** mt9v032_s_ctrl: the write a control maps to, through the aec_agc shadow
        for the two automatic modes; the test pattern goes through its encoding. */
    method SCtrl(c: Control) returns (ret: int)
      requires Valid()
      requires InRegisteredRange(c)
      modifies this`aecAgc, bus
      ensures Valid()
      ensures var o := CtrlStep(c, old(aecAgc), bus.answer, |old(bus.events)|);
        bus.events == old(bus.events) + o.events && ret == o.ret && aecAgc == o.shadow
    {
      if c.id == CID_AUTOGAIN {
        ret := UpdateAecAgc(AGC_ENABLE, c.val);
      } else if c.id == CID_GAIN {
        ret := bus.Issue(Write(ANALOG_GAIN, Trunc16(c.val)));
      } else if c.id == CID_EXPOSURE_AUTO {
        ret := UpdateAecAgc(AEC_ENABLE, c.val);
      } else if c.id == CID_EXPOSURE {
        ret := bus.Issue(Write(TOTAL_SHUTTER_WIDTH, Trunc16(c.val)));
      } else if c.id == CID_TEST_PATTERN {
        var data := TestPatternData(c.val as bv10);
        ret := bus.Issue(Write(TEST_PATTERN, data));
      } else {
        ret := 0;
      }
    }

    /** v4l2_ctrl_handler_setup as __mt9v032_set_power uses it: s_ctrl on every
        registered control in order, stopping at the first non-zero result. */
    method ReplayControls() returns (ret: int)
      requires Valid()
      modifies this`aecAgc, bus
      ensures Valid()
      ensures var o := Replay(old(ctrls), old(aecAgc), bus.answer, |old(bus.events)|);
        bus.events == old(bus.events) + o.events && ret == o.ret && aecAgc == o.shadow
    {
      var cs := ctrls;
      ghost var full := Replay(cs, aecAgc, bus.answer, |bus.events|);
      ghost var target := Outcome(bus.events + full.events, full.ret, full.shadow);
      var i := 0;
      while i < |cs|
        invariant 0 <= i <= |cs|
        invariant Valid() && ctrls == cs
        invariant Resumes(target, bus.events, cs, i, aecAgc, bus.answer)
      {
        ResumesStep(target, bus.events, cs, i, aecAgc, bus.answer);
        ret := SCtrl(cs[i]);
        if ret != 0 {
          return;
        }
        i := i + 1;
      }
      ResumesEnd(target, bus.events, cs, aecAgc, bus.answer);
      ret := 0;
    }

    /** mt9v032_power_on: nothing once the latch is set; otherwise the clock,
        the ignored version read, the reset pulse (its errors end the call with
        the latch clear), the latch, and the CHIP_CONTROL write's result. */
    method PowerOn() returns (ret: int)
      requires Valid()
      modifies this`onDone, bus
      ensures Valid()
      ensures var p := Power.PowerOn(old(onDone), old(aecAgc), bus.answer, |old(bus.events)|);
        bus.events == old(bus.events) + p.events && ret == p.ret && onDone == p.onDone
    {
      if onDone {
        return 0;
      }
      ghost var log := bus.events;
      var clockRet := bus.Issue(ClockEnable);
      var version := bus.Issue(Read(CHIP_VERSION));
      ret := bus.Issue(Write(RESET, 1));
      LogThree(log, ClockEnable, Read(CHIP_VERSION), Write(RESET, 1));
      if ret < 0 {
        return;
      }
      ret := bus.Issue(Write(RESET, 0));
      LogAppend(log, POWER_ON_HEAD, [Write(RESET, 0)]);
      if ret < 0 {
        return;
      }
      onDone := true;
      ret := bus.Issue(Write(CHIP_CONTROL, 0));
      LogAppend(log, POWER_ON_HEAD + [Write(RESET, 0)], [Write(CHIP_CONTROL, 0)]);
    }

    /** mt9v032_power_off: the sensor clock is switched off. */
    method PowerOff()
      requires Valid()
      modifies bus
      ensures Valid()
      ensures bus.events == old(bus.events) + [ClockDisable]
    {
      var clockRet := bus.Issue(ClockDisable);
    }

    /** __mt9v032_set_power. */
    method SetPowerInner(on: bool) returns (ret: int)
      requires Valid()
      modifies this`onDone, this`aecAgc, bus
      ensures Valid()
      ensures var o := Power.SetPowerInner(on, old(onDone), old(aecAgc), clkPol, old(ctrls),
                                           bus.answer, |old(bus.events)|);
        bus.events == old(bus.events) + o.events && ret == o.ret && onDone == o.onDone && aecAgc == o.aec
    {
      ghost var o := Power.SetPowerInner(on, onDone, aecAgc, clkPol, ctrls, bus.answer, |bus.events|);
      ret := bus.Issue(ClockGet);
      if ret < 0 {
        assert o == PowerOutcome([ClockGet], ret, onDone, aecAgc);
        return;
      }
      if !on {
        PowerOff();
        assert o == PowerOutcome([ClockGet, ClockDisable], 0, onDone, aecAgc);
        return 0;
      }
      ghost var u := Power.PowerUp(onDone, aecAgc, clkPol, ctrls, bus.answer, |bus.events|);
      assert o == PowerOutcome([ClockGet] + u.events, u.ret, u.onDone, u.aec);
      ret := PowerUp();
      LogAppend(old(bus.events), [ClockGet], u.events);
    }

    /** The "on" branch of __mt9v032_set_power: power_on, then the rest. */
    method PowerUp() returns (ret: int)
      requires Valid()
      modifies this`onDone, this`aecAgc, bus
      ensures Valid()
      ensures var u := Power.PowerUp(old(onDone), old(aecAgc), clkPol, old(ctrls), bus.answer, |old(bus.events)|);
        bus.events == old(bus.events) + u.events && ret == u.ret && onDone == u.onDone && aecAgc == u.aec
    {
      ghost var u := Power.PowerUp(onDone, aecAgc, clkPol, ctrls, bus.answer, |bus.events|);
      ghost var p := Power.PowerOn(onDone, aecAgc, bus.answer, |bus.events|);
      ret := PowerOn();
      if ret < 0 {
        assert u == p;
        return;
      }
      ghost var t := Power.PowerUpTail(aecAgc, clkPol, ctrls, bus.answer, |bus.events|);
      assert u == PowerOutcome(p.events + t.events, t.ret, p.onDone, t.shadow);
      ret := PowerUpTail();
      LogAppend(old(bus.events), p.events, t.events);
    }

    /** The rest of __mt9v032_set_power after a successful power-on. */
    method PowerUpTail() returns (ret: int)
      requires Valid()
      modifies this`aecAgc, bus
      ensures Valid()
      ensures var t := Power.PowerUpTail(old(aecAgc), clkPol, old(ctrls), bus.answer, |old(bus.events)|);
        bus.events == old(bus.events) + t.events && ret == t.ret && aecAgc == t.shadow
    {
      if clkPol {
        ret := bus.Issue(Write(PIXEL_CLOCK, PIXEL_CLOCK_INV_PXL_CLK));
        if ret < 0 {
          return;
        }
      }
      ghost var e1: seq<Event> := if clkPol then [Write(PIXEL_CLOCK, PIXEL_CLOCK_INV_PXL_CLK)] else [];
      assert bus.events == old(bus.events) + e1;
      ghost var rest := Power.RowNoiseThenReplay(aecAgc, ctrls, bus.answer, |bus.events|);
      ret := RowNoiseThenReplay();
      LogAppend(old(bus.events), e1, rest.events);
    }

    /** The end of __mt9v032_set_power: the row-noise write, then the replay. */
    method RowNoiseThenReplay() returns (ret: int)
      requires Valid()
      modifies this`aecAgc, bus
      ensures Valid()
      ensures var o := Power.RowNoiseThenReplay(old(aecAgc), old(ctrls), bus.answer, |old(bus.events)|);
        bus.events == old(bus.events) + o.events && ret == o.ret && aecAgc == o.shadow
    {
      ret := bus.Issue(Write(ROW_NOISE_CORR_CONTROL, 0));
      if ret < 0 {
        return;
      }
      ghost var r := Replay(ctrls, aecAgc, bus.answer, |bus.events|);
      ret := ReplayControls();
      LogAppend(old(bus.events), [Write(ROW_NOISE_CORR_CONTROL, 0)], r.events);
    }

    /** mt9v032_set_power: the request is normalised, then __mt9v032_set_power
        runs only when the power count equals `!on`. The count is never
        updated. */
    method SetPower(on: int) returns (ret: int)
      requires Valid()
      modifies this`onDone, this`aecAgc, bus
      ensures Valid()
      ensures var o := Power.SetPower(on, old(powerCount), old(onDone), old(aecAgc), clkPol, old(ctrls),
                                      bus.answer, |old(bus.events)|);
        bus.events == old(bus.events) + o.events && ret == o.ret && onDone == o.onDone && aecAgc == o.aec
    {
      var n := on;
      if on == CSI_SUBDEV_PWR_ON {
        n := 1;
      } else if CSI_SUBDEV_PWR_OFF != 0 {
        n := 0;
      } else if on != 0 && on != 1 {
        return 0;
      }
      ret := 0;
      if powerCount == (if n == 0 then 1 else 0) {
        ret := SetPowerInner(n != 0);
      }
    }

    /** mt9v032_registered: power on, then read the chip version and refuse an
        unknown chip with -ENODEV. */
    method Registered() returns (ret: int)
      requires Valid()
      modifies this`onDone, bus
      ensures Valid()
      ensures var o := Power.Registered(old(onDone), old(aecAgc), bus.answer, |old(bus.events)|);
        bus.events == old(bus.events) + o.events && ret == o.ret && onDone == o.onDone
    {
      ret := PowerOn();
      if ret < 0 {
        return;
      }
      var data := bus.Issue(Read(CHIP_VERSION));
      if !IsKnownChip(data) {
        ret := -ENODEV;
      }
    }

    /** mt9v032_open: the try crop and format go back to the defaults, then the
        sensor is powered up; with the power count at 0 that is always the
        full __mt9v032_set_power(1). */
    method Open() returns (ret: int)
      requires Valid()
      modifies this`tryCrop, this`tryFormat, this`onDone, this`aecAgc, bus
      ensures Valid()
      ensures tryCrop == DEFAULT_CROP && tryFormat == DEFAULT_FORMAT
      ensures var o := Power.SetPowerInner(true, old(onDone), old(aecAgc), clkPol, old(ctrls),
                                           bus.answer, |old(bus.events)|);
        bus.events == old(bus.events) + o.events && ret == o.ret && onDone == o.onDone && aecAgc == o.aec
    {
      tryCrop := DEFAULT_CROP;
      tryFormat := DEFAULT_FORMAT;
      ret := SetPower(1);
      SetPowerWithCountZero(1, old(onDone), old(aecAgc), clkPol, old(ctrls), bus.answer, |old(bus.events)|);
    }

    /** mt9v032_close: set_power(0), which with the power count at 0 does
        nothing and returns 0, so the sensor stays powered. */
    method Close() returns (ret: int)
      requires Valid()
      modifies this`onDone, this`aecAgc, bus
      ensures Valid()
      ensures ret == 0 && bus.events == old(bus.events) && onDone == old(onDone) && aecAgc == old(aecAgc)
    {
      ret := SetPower(0);
      SetPowerWithCountZero(0, old(onDone), old(aecAgc), clkPol, old(ctrls), bus.answer, |old(bus.events)|);
    }

    /** mt9v032_init: sets the streaming bits in CHIP_CONTROL. */
    method Init(val: u32) returns (ret: int)
      requires Valid()
      modifies this`chipControl, bus
      ensures Valid()
      ensures var o := ShadowedWrite(CHIP_CONTROL, old(chipControl), ChipControlValue(old(chipControl), 0, STREAM_MODE),
                                     bus.answer, |old(bus.events)|);
        bus.events == old(bus.events) + o.events && ret == o.ret && chipControl == o.shadow
    {
      ret := SetChipControl(0, STREAM_MODE);
    }
  }
}
