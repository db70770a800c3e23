/** The format and frame-rate queries: mt9v032_enum_mbus_code,
    mt9v032_enum_frame_size, mt9v032_s_parm and mt9v032_g_parm. */
module Capabilities {
  import opened Types
  import opened Registers

  const BUF_TYPE_VIDEO_CAPTURE: int := 1
  const CAP_TIMEPERFRAME: int := 0x1000

  /** The one media-bus code the sensor offers, at index 0. */
  function EnumMbusCode(index: u32): (r: Result<int>)
    ensures r.Ok? <==> index == 0
    ensures r.Ok? ==> r.value == MBUS_FMT_SGRBG10_1X10
    ensures r.Err? ==> r.code == -EINVAL
  {
    if index > 0 then Err(-EINVAL) else Ok(MBUS_FMT_SGRBG10_1X10)
  }

  /** A discrete frame size: minimum and maximum of both dimensions. */
  datatype FrameSize = FrameSize(minWidth: u32, maxWidth: u32, minHeight: u32, maxHeight: u32)

  /** The frame size at `index`: the default window divided by the index. An
      index of 0 with the sensor's code would divide by zero in the driver, so
      that one request is excluded; with any other code it is refused first. */
  function EnumFrameSize(index: u32, code: int): (r: Result<FrameSize>)
    requires index == 0 ==> code != MBUS_FMT_SGRBG10_1X10
    ensures r.Ok? <==> index < 8 && code == MBUS_FMT_SGRBG10_1X10
    ensures r.Err? ==> r.code == -EINVAL
    ensures r.Ok? ==> r.value.minWidth == r.value.maxWidth && r.value.minHeight == r.value.maxHeight
    ensures r.Ok? ==> r.value.minWidth * index <= WINDOW_WIDTH_DEF < (r.value.minWidth + 1) * index
    ensures r.Ok? ==> r.value.minHeight * index <= WINDOW_HEIGHT_DEF < (r.value.minHeight + 1) * index
  {
    if index >= 8 || code != MBUS_FMT_SGRBG10_1X10 then Err(-EINVAL)
    else
      var w := WINDOW_WIDTH_DEF / index;
      var h := WINDOW_HEIGHT_DEF / index;
      Ok(FrameSize(w, w, h, h))
  }

  /** The frame sizes listed shrink as the index grows. */
  lemma FrameSizesShrink(i: u32, j: u32)
    requires 1 <= i <= j < 8
    ensures EnumFrameSize(j, MBUS_FMT_SGRBG10_1X10).value.minWidth
            <= EnumFrameSize(i, MBUS_FMT_SGRBG10_1X10).value.minWidth
    ensures EnumFrameSize(j, MBUS_FMT_SGRBG10_1X10).value.minHeight
            <= EnumFrameSize(i, MBUS_FMT_SGRBG10_1X10).value.minHeight
  {
    DivisionAntitone(WINDOW_WIDTH_DEF, i, j);
    DivisionAntitone(WINDOW_HEIGHT_DEF, i, j);
  }

  lemma DivisionAntitone(a: nat, i: nat, j: nat)
    requires 1 <= i <= j
    ensures a / j <= a / i
  {
    var q := a / j;
    assert q * j <= a;
    MulMonotone(q, i, j);
    QuotientMaximal(a, i, q);
  }

  lemma MulMonotone(q: nat, i: nat, j: nat)
    requires i <= j
    ensures q * i <= q * j
  {
  }

  /** Any q with q * i <= a is at most a / i. */
  lemma QuotientMaximal(a: nat, i: nat, q: nat)
    requires 1 <= i && q * i <= a
    ensures q <= a / i
  {
    var d := a / i;
    assert d * i + a % i == a;
    if q > d {
      MulMonotone(i, d + 1, q);
    }
  }

  /** A frame interval, numerator over denominator seconds. */
  datatype Fract = Fract(numerator: u32, denominator: u32)

  /** What s_parm returns and the interval it leaves in the caller's
      structure (a zero part is replaced by 1/60). */
  datatype SParmResult = SParmResult(ret: int, interval: Fract)

  /** The interval s_parm works with after replacing a zero part by 1/60. */
  function EffectiveInterval(tpf: Fract): Fract {
    if tpf.numerator == 0 || tpf.denominator == 0 then Fract(1, 60) else tpf
  }

  /** The frame rate the interval asks for, in whole frames per second. */
  function RequestedRate(tpf: Fract): (rate: nat)
    requires EffectiveInterval(tpf).numerator > 0
    ensures EffectiveInterval(tpf).denominator >= EffectiveInterval(tpf).numerator ==> rate >= 1
  {
    var t := EffectiveInterval(tpf);
    QuotientPositive(t.denominator, t.numerator);
    t.denominator / t.numerator
  }

  lemma QuotientPositive(a: nat, b: nat)
    requires b > 0
    ensures a >= b ==> a / b >= 1
  {
  }

  /** The divider s_parm derives from a rate, before it is stored in an
      unsigned char. */
  function Divider(rate: nat): (d: nat)
    requires rate >= 1
    ensures d <= 60
    ensures (1 <= d <= 15) <==> 4 <= rate <= 60
  {
    DividerInRange(rate);
    60 / rate
  }

  /** mt9v032_s_parm: only the capture buffer type is accepted; the divider
      60 / rate, kept in an unsigned char, must lie in 1..15. A requested rate
      below 1 frame per second would divide by zero in the driver, so the
      callers must not ask for one. */
  function SParm(bufType: int, tpf: Fract): (r: SParmResult)
    requires bufType == BUF_TYPE_VIDEO_CAPTURE ==>
      EffectiveInterval(tpf).denominator >= EffectiveInterval(tpf).numerator
    ensures bufType != BUF_TYPE_VIDEO_CAPTURE ==> r == SParmResult(-EINVAL, tpf)
    ensures bufType == BUF_TYPE_VIDEO_CAPTURE ==> r.interval == EffectiveInterval(tpf)
    ensures r.ret == 0 || r.ret == -EINVAL
    ensures r.ret == 0 <==> bufType == BUF_TYPE_VIDEO_CAPTURE && 4 <= RequestedRate(tpf) <= 60
  {
    if bufType != BUF_TYPE_VIDEO_CAPTURE then SParmResult(-EINVAL, tpf)
    else
      var t := EffectiveInterval(tpf);
      var div := Divider(RequestedRate(tpf)) % 256;
      if div > 15 || div == 0 then SParmResult(-EINVAL, t) else SParmResult(0, t)
  }

  /** 60 / rate is at most 60, so it fits the unsigned char, and it lies in
      1..15 exactly for rates 4..60. */
  lemma DividerInRange(rate: nat)
    requires rate >= 1
    ensures 60 / rate <= 60
    ensures (1 <= 60 / rate <= 15) <==> 4 <= rate <= 60
  {
    if rate <= 3 {
      assert rate * 20 <= 60;
      assert 60 / rate >= 20 by { DivisionAntitone(60, rate, 3); }
    } else if rate <= 60 {
      DivisionAntitone(60, 4, rate);
      assert 60 / rate >= 1;
    } else {
      assert 60 / rate == 0;
    }
  }

  /** The capture parameters g_parm reports. */
  datatype CaptureParm = CaptureParm(capability: int, timePerFrame: Fract)

  /** mt9v032_g_parm: a fixed 1/60 interval with frame-interval capability. */
  function GParm(bufType: int): (r: Result<CaptureParm>)
    ensures r.Ok? <==> bufType == BUF_TYPE_VIDEO_CAPTURE
    ensures r.Err? ==> r.code == -EINVAL
    ensures r.Ok? ==> r.value.capability == CAP_TIMEPERFRAME && r.value.timePerFrame == Fract(1, 60)
  {
    if bufType != BUF_TYPE_VIDEO_CAPTURE then Err(-EINVAL)
    else Ok(CaptureParm(CAP_TIMEPERFRAME, Fract(1, 60)))
  }

  /** The interval g_parm reports is one s_parm accepts unchanged, and a zero
      interval given to s_parm becomes that same interval. */
  lemma GParmAcceptedBySParm(n: u32)
    ensures var g := GParm(BUF_TYPE_VIDEO_CAPTURE);
      SParm(BUF_TYPE_VIDEO_CAPTURE, g.value.timePerFrame) == SParmResult(0, g.value.timePerFrame)
    ensures SParm(BUF_TYPE_VIDEO_CAPTURE, Fract(n, 0)) == SParmResult(0, Fract(1, 60))
  {
  }
}
