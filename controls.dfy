/** The register shadows (chip_control, aec_agc) and the mapping of V4L2
    controls to register writes in mt9v032_s_ctrl, with the control replay
    that __mt9v032_set_power asks the control framework for. */
module Controls {
  import opened Types
  import opened Registers
  import opened Bus

  /** Control ids, as the V4L2 headers define them. */
  const CID_EXPOSURE: int := 0x0098_0911
  const CID_AUTOGAIN: int := 0x0098_0912
  const CID_GAIN: int := 0x0098_0913
  const CID_EXPOSURE_AUTO: int := 0x009a_0901
  /** V4L2_CID_USER_BASE | 0x1001, the driver's own control. */
  const CID_TEST_PATTERN: int := 0x0098_1901

  /** The two menu entries of V4L2_CID_EXPOSURE_AUTO the driver registers. */
  const EXPOSURE_AUTO: int := 0
  const EXPOSURE_MANUAL: int := 1

  /** A control as the framework hands it to s_ctrl: its id and new value. */
  datatype Control = Control(id: int, val: int)

  /** The controls probe registers, in registration order, at their defaults:
      the four standard ones, then the driver's own table. */
  const STD_CONTROLS: seq<Control> := [
    Control(CID_AUTOGAIN, 1),
    Control(CID_GAIN, ANALOG_GAIN_DEF),
    Control(CID_EXPOSURE_AUTO, EXPOSURE_AUTO),
    Control(CID_EXPOSURE, TOTAL_SHUTTER_WIDTH_DEF)
  ]
  const CUSTOM_CONTROLS: seq<Control> := [Control(CID_TEST_PATTERN, 0)]

  predicate IsDriverControl(id: int) {
    id == CID_AUTOGAIN || id == CID_GAIN || id == CID_EXPOSURE_AUTO
    || id == CID_EXPOSURE || id == CID_TEST_PATTERN
  }

  /** The range the control framework enforces on a registered control before
      s_ctrl sees its value; any other id passes through unchecked. */
  predicate InRegisteredRange(c: Control) {
    && (c.id == CID_AUTOGAIN ==> 0 <= c.val <= 1)
    && (c.id == CID_GAIN ==> ANALOG_GAIN_MIN <= c.val <= ANALOG_GAIN_MAX)
    && (c.id == CID_EXPOSURE_AUTO ==> EXPOSURE_AUTO <= c.val <= EXPOSURE_MANUAL)
    && (c.id == CID_EXPOSURE ==> TOTAL_SHUTTER_WIDTH_MIN <= c.val <= TOTAL_SHUTTER_WIDTH_MAX)
    && (c.id == CID_TEST_PATTERN ==> 0 <= c.val <= 1023)
  }

  /** What a sequence of bus calls did to the log, what it returned, and the
      register shadow it leaves behind. */
  datatype Outcome = Outcome(events: seq<Event>, ret: int, shadow: bv16)

  /** The value set_chip_control writes. */
  function ChipControlValue(shadow: bv16, clearBits: bv16, setBits: bv16): bv16
  {
    (shadow & !clearBits) | setBits
  }

  /** The `setBits` are on in what set_chip_control writes, ... */
  lemma ChipControlSets(shadow: bv16, clearBits: bv16, setBits: bv16)
    ensures ChipControlValue(shadow, clearBits, setBits) & setBits == setBits
  {
  }

  /** ... the `clearBits` that are not also set are off, ... */
  lemma ChipControlClears(shadow: bv16, clearBits: bv16, setBits: bv16)
    ensures ChipControlValue(shadow, clearBits, setBits) & (clearBits & !setBits) == 0
  {
  }

  /** ... and every other bit is as in the shadow. */
  lemma ChipControlKeeps(shadow: bv16, clearBits: bv16, setBits: bv16)
    ensures ChipControlValue(shadow, clearBits, setBits) & !(clearBits | setBits)
            == shadow & !(clearBits | setBits)
  {
  }

  /** The value update_aec_agc writes. */
  function AecAgcValue(shadow: bv16, which: bv16, enable: int): bv16
  {
    if enable != 0 then shadow | which else shadow & !which
  }

  /** A non-zero `enable` turns the `which` bits on, ... */
  lemma AecAgcEnables(shadow: bv16, which: bv16, enable: int)
    requires enable != 0
    ensures AecAgcValue(shadow, which, enable) & which == which
  {
  }

  /** ... a zero `enable` turns them off, ... */
  lemma AecAgcDisables(shadow: bv16, which: bv16, enable: int)
    requires enable == 0
    ensures AecAgcValue(shadow, which, enable) & which == 0
  {
  }

  /** ... and the other bits are as in the shadow. */
  lemma AecAgcKeeps(shadow: bv16, which: bv16, enable: int)
    ensures AecAgcValue(shadow, which, enable) & !which == shadow & !which
  {
  }

  /** A read-modify-write through a shadow: one write of `value`; the shadow
      takes the value only if the write succeeded, and the result is the
      error or 0. */
  function ShadowedWrite(reg: int, shadow: bv16, value: bv16, answer: Oracle, at: nat): (o: Outcome)
    ensures o.events == [Write(reg, value)]
    ensures o.ret <= 0 && (o.ret == 0 <==> answer(at) >= 0)
    ensures o.ret < 0 ==> o.ret == answer(at) && o.shadow == shadow
    ensures o.ret == 0 ==> o.shadow == value
  {
    if answer(at) < 0 then Outcome([Write(reg, value)], answer(at), shadow)
    else Outcome([Write(reg, value)], 0, value)
  }

  /** The register word for a test-pattern control value. */
  function TestPatternData(v: bv10): bv16
  {
    if v == 0 then 0
    else if v == 1 then TEST_PATTERN_GRAY_VERTICAL | TEST_PATTERN_ENABLE
    else if v == 2 then TEST_PATTERN_GRAY_HORIZONTAL | TEST_PATTERN_ENABLE
    else if v == 3 then TEST_PATTERN_GRAY_DIAGONAL | TEST_PATTERN_ENABLE
    else ((v as bv16) << TEST_PATTERN_DATA_SHIFT)
         | TEST_PATTERN_USE_DATA | TEST_PATTERN_ENABLE | TEST_PATTERN_FLIP
  }

  /** The pattern generator is enabled for every value but 0, which writes 0. */
  lemma TestPatternEnabled(v: bv10)
    ensures (TestPatternData(v) & TEST_PATTERN_ENABLE == 0) == (v == 0)
    ensures v == 0 ==> TestPatternData(v) == 0
  {
  }

  /** Values 1 to 3 select a grey ramp: the value itself goes into the 2-bit
      grey field, with no user data. */
  lemma TestPatternGray(v: bv10)
    requires 1 <= v <= 3
    ensures TestPatternData(v) == ((v as bv16) << 11) | TEST_PATTERN_ENABLE
  {
  }

  /** Values from 4 on are sent as user data in the low 10 bits, ... */
  lemma TestPatternUserData(v: bv10)
    requires v >= 4
    ensures TestPatternData(v) & TEST_PATTERN_DATA_MASK == v as bv16
  {
  }

  /** ... with the use-data, enable and flip bits set and the grey field clear. */
  lemma TestPatternUserFlags(v: bv10)
    requires v >= 4
    ensures TestPatternData(v) & !TEST_PATTERN_DATA_MASK
            == TEST_PATTERN_USE_DATA | TEST_PATTERN_ENABLE | TEST_PATTERN_FLIP
  {
  }

  /** Reads a control value back from a TEST_PATTERN register word. */
  function TestPatternValue(d: bv16): bv10
  {
    if d & TEST_PATTERN_ENABLE == 0 then 0
    else if d & TEST_PATTERN_USE_DATA != 0 then (d & TEST_PATTERN_DATA_MASK) as bv10
    else ((d & TEST_PATTERN_GRAY_MASK) >> 11) as bv10
  }

  lemma TestPatternRoundTrip(v: bv10)
    ensures TestPatternValue(TestPatternData(v)) == v
  {
  }

  /** Different control values never share a register word. */
  lemma TestPatternInjective(a: bv10, b: bv10)
    ensures TestPatternData(a) == TestPatternData(b) ==> a == b
  {
    TestPatternRoundTrip(a);
    TestPatternRoundTrip(b);
  }

  /** mt9v032_s_ctrl for one control, given the aec_agc shadow: the bus calls it
      makes, its result and the shadow afterwards. */
  function CtrlStep(c: Control, aec: bv16, answer: Oracle, at: nat): Outcome
    requires InRegisteredRange(c)
  {
    if c.id == CID_AUTOGAIN then
      ShadowedWrite(AEC_AGC_ENABLE, aec, AecAgcValue(aec, AGC_ENABLE, c.val), answer, at)
    else if c.id == CID_GAIN then
      Outcome([Write(ANALOG_GAIN, Trunc16(c.val))], answer(at), aec)
    else if c.id == CID_EXPOSURE_AUTO then
      ShadowedWrite(AEC_AGC_ENABLE, aec, AecAgcValue(aec, AEC_ENABLE, c.val), answer, at)
    else if c.id == CID_EXPOSURE then
      Outcome([Write(TOTAL_SHUTTER_WIDTH, Trunc16(c.val))], answer(at), aec)
    else if c.id == CID_TEST_PATTERN then
      Outcome([Write(TEST_PATTERN, TestPatternData(c.val as bv10))], answer(at), aec)
    else
      Outcome([], 0, aec)
  }

  /** Every control s_ctrl knows issues exactly one write and any other id
      none; an unknown id returns 0, and a non-zero result is the bus error;
      only the AEC/AGC controls, on success, move the shadow. */
  lemma CtrlStepShape(c: Control, aec: bv16, answer: Oracle, at: nat)
    requires InRegisteredRange(c)
    ensures var o := CtrlStep(c, aec, answer, at);
      && |o.events| <= 1
      && (o.events == [] <==> !IsDriverControl(c.id))
      && (o.events == [] ==> o.ret == 0)
      && (o.ret != 0 ==> o.ret == answer(at))
      && (o.shadow != aec ==> (c.id == CID_AUTOGAIN || c.id == CID_EXPOSURE_AUTO) && answer(at) >= 0)
  {
    if c.id == CID_AUTOGAIN || c.id == CID_EXPOSURE_AUTO {
    } else if IsDriverControl(c.id) {
    } else {
    }
  }

  predicate AllInRange(cs: seq<Control>) {
    forall i :: 0 <= i < |cs| ==> InRegisteredRange(cs[i])
  }

  /** How many of the controls from index i on s_ctrl acts on. */
  function DriverControlCount(cs: seq<Control>, i: nat): (n: nat)
    requires i <= |cs|
    ensures n <= |cs| - i
    decreases |cs| - i
  {
    if i == |cs| then 0
    else (if IsDriverControl(cs[i].id) then 1 else 0) + DriverControlCount(cs, i + 1)
  }

  /** The control replay (v4l2_ctrl_handler_setup) from control i on: s_ctrl
      on every control in registration order, stopping at the first non-zero
      result. */
  function ReplayFrom(cs: seq<Control>, i: nat, aec: bv16, answer: Oracle, at: nat): Outcome
    requires AllInRange(cs) && i <= |cs|
    decreases |cs| - i
  {
    if i == |cs| then Outcome([], 0, aec)
    else
      var s := CtrlStep(cs[i], aec, answer, at);
      if s.ret != 0 then s
      else
        var r := ReplayFrom(cs, i + 1, s.shadow, answer, at + |s.events|);
        Outcome(s.events + r.events, r.ret, r.shadow)
  }

  /** A replay in progress: `log` has been issued, and the replay from
      control i at the end of it completes the `target` log and result. */
  predicate Resumes(target: Outcome, log: seq<Event>, cs: seq<Control>, i: nat, aec: bv16, answer: Oracle)
    requires AllInRange(cs) && i <= |cs|
  {
    var r := ReplayFrom(cs, i, aec, answer, |log|);
    target == Outcome(log + r.events, r.ret, r.shadow)
  }

  /** One control further: a non-zero result ends the replay with it,
      otherwise the replay resumes after its writes with its shadow. */
  lemma ResumesStep(target: Outcome, log: seq<Event>, cs: seq<Control>, i: nat, aec: bv16, answer: Oracle)
    requires AllInRange(cs) && i < |cs| && Resumes(target, log, cs, i, aec, answer)
    ensures var s := CtrlStep(cs[i], aec, answer, |log|);
      if s.ret != 0 then target == Outcome(log + s.events, s.ret, s.shadow)
      else Resumes(target, log + s.events, cs, i + 1, s.shadow, answer)
  {
    var s := CtrlStep(cs[i], aec, answer, |log|);
    if s.ret == 0 {
      var r := ReplayFrom(cs, i + 1, s.shadow, answer, |log| + |s.events|);
      LogAppend(log, s.events, r.events);
    }
  }

  /** Past the last control the replay has nothing left to issue. */
  lemma ResumesEnd(target: Outcome, log: seq<Event>, cs: seq<Control>, aec: bv16, answer: Oracle)
    requires AllInRange(cs) && Resumes(target, log, cs, |cs|, aec, answer)
    ensures target == Outcome(log, 0, aec)
  {
    assert log + [] == log;
  }

  function Replay(cs: seq<Control>, aec: bv16, answer: Oracle, at: nat): Outcome
    requires AllInRange(cs)
  {
    ReplayFrom(cs, 0, aec, answer, at)
  }

  /** A replay outcome `o` over controls of which `n` are ones s_ctrl acts
      on: at most one write each, all of them when it succeeds, and a
      non-zero result is the answer to its last write. */
  predicate ReplayShaped(o: Outcome, n: nat, answer: Oracle, at: nat) {
    && |o.events| <= n
    && (o.ret == 0 ==> |o.events| == n)
    && (o.ret != 0 ==> |o.events| >= 1 && o.ret == answer(at + |o.events| - 1))
  }

  /** The replay issues at most one write per control s_ctrl knows, all of them
      when it succeeds, and a non-zero result is the answer to its last write. */
  lemma {:induction false} ReplayShape(cs: seq<Control>, i: nat, aec: bv16, answer: Oracle, at: nat)
    requires AllInRange(cs) && i <= |cs|
    ensures ReplayShaped(ReplayFrom(cs, i, aec, answer, at), DriverControlCount(cs, i), answer, at)
    decreases |cs| - i
  {
    if i < |cs| {
      var s := CtrlStep(cs[i], aec, answer, at);
      if s.ret == 0 {
        ReplayShape(cs, i + 1, s.shadow, answer, at + |s.events|);
      }
      ReplayShapeStep(cs, i, aec, answer, at);
    }
  }

  /** One step of ReplayShape: the shape from control i + 1 on extends to i. */
  lemma ReplayShapeStep(cs: seq<Control>, i: nat, aec: bv16, answer: Oracle, at: nat)
    requires AllInRange(cs) && i < |cs|
    requires var s := CtrlStep(cs[i], aec, answer, at);
      s.ret == 0 ==> ReplayShaped(ReplayFrom(cs, i + 1, s.shadow, answer, at + |s.events|),
                                  DriverControlCount(cs, i + 1), answer, at + |s.events|)
    ensures ReplayShaped(ReplayFrom(cs, i, aec, answer, at), DriverControlCount(cs, i), answer, at)
  {
    CtrlStepShape(cs[i], aec, answer, at);
    var s := CtrlStep(cs[i], aec, answer, at);
    assert |s.events| == if IsDriverControl(cs[i].id) then 1 else 0;
    if s.ret == 0 {
      var r := ReplayFrom(cs, i + 1, s.shadow, answer, at + |s.events|);
      assert ReplayFrom(cs, i, aec, answer, at) == Outcome(s.events + r.events, r.ret, r.shadow);
    } else {
      assert ReplayFrom(cs, i, aec, answer, at) == s;
    }
  }

  /** A bus on which every call succeeds. */
  function AllSucceed(i: nat): int { 0 }

  /** Replaying the controls at their registered defaults on a bus where every
      call succeeds, starting from the probe value 3 of aec_agc: five writes,
      and the EXPOSURE_AUTO default (menu entry 0, "auto") clears the AEC bit. */
  lemma DefaultReplay(at: nat)
    ensures Replay(STD_CONTROLS + CUSTOM_CONTROLS, AEC_ENABLE | AGC_ENABLE, AllSucceed, at)
            == Outcome([Write(AEC_AGC_ENABLE, 3), Write(ANALOG_GAIN, 16),
                        Write(AEC_AGC_ENABLE, 2), Write(TOTAL_SHUTTER_WIDTH, 480),
                        Write(TEST_PATTERN, 0)], 0, 2)
  {
    var cs := STD_CONTROLS + CUSTOM_CONTROLS;
    DefaultControls();
    DefaultShadowValues();
    assert CtrlStep(cs[0], 3, AllSucceed, at) == Outcome([Write(AEC_AGC_ENABLE, 3)], 0, 3);
    DefaultReplayFromGain(at + 1);
  }

  /** The registered defaults, written out. */
  lemma DefaultControls()
    ensures STD_CONTROLS + CUSTOM_CONTROLS
            == [Control(CID_AUTOGAIN, 1), Control(CID_GAIN, 16), Control(CID_EXPOSURE_AUTO, 0),
                Control(CID_EXPOSURE, 480), Control(CID_TEST_PATTERN, 0)]
  {
  }

  lemma DefaultShadowValues()
    ensures AecAgcValue(3, AGC_ENABLE, 1) == 3 && AecAgcValue(3, AEC_ENABLE, 0) == 2
  {
  }

  /** The defaults from the gain on. */
  lemma DefaultReplayFromGain(at: nat)
    ensures ReplayFrom(STD_CONTROLS + CUSTOM_CONTROLS, 1, 3, AllSucceed, at)
            == Outcome([Write(ANALOG_GAIN, 16), Write(AEC_AGC_ENABLE, 2), Write(TOTAL_SHUTTER_WIDTH, 480),
                        Write(TEST_PATTERN, 0)], 0, 2)
  {
    var cs := STD_CONTROLS + CUSTOM_CONTROLS;
    DefaultControls();
    assert CtrlStep(cs[1], 3, AllSucceed, at) == Outcome([Write(ANALOG_GAIN, 16)], 0, 3);
    DefaultReplayFromExposureAuto(at + 1);
  }

  /** The defaults from the exposure mode on. */
  lemma DefaultReplayFromExposureAuto(at: nat)
    ensures ReplayFrom(STD_CONTROLS + CUSTOM_CONTROLS, 2, 3, AllSucceed, at)
            == Outcome([Write(AEC_AGC_ENABLE, 2), Write(TOTAL_SHUTTER_WIDTH, 480), Write(TEST_PATTERN, 0)], 0, 2)
  {
    var cs := STD_CONTROLS + CUSTOM_CONTROLS;
    DefaultControls();
    DefaultShadowValues();
    assert CtrlStep(cs[2], 3, AllSucceed, at) == Outcome([Write(AEC_AGC_ENABLE, 2)], 0, 2);
    DefaultReplayFromExposure(at + 1);
  }

  /** The defaults from the exposure time on. */
  lemma DefaultReplayFromExposure(at: nat)
    ensures ReplayFrom(STD_CONTROLS + CUSTOM_CONTROLS, 3, 2, AllSucceed, at)
            == Outcome([Write(TOTAL_SHUTTER_WIDTH, 480), Write(TEST_PATTERN, 0)], 0, 2)
  {
    var cs := STD_CONTROLS + CUSTOM_CONTROLS;
    DefaultControls();
    assert CtrlStep(cs[3], 2, AllSucceed, at) == Outcome([Write(TOTAL_SHUTTER_WIDTH, 480)], 0, 2);
    DefaultReplayFromTestPattern(at + 1);
  }

  /** The last default: test pattern 0 disables the generator. */
  lemma DefaultReplayFromTestPattern(at: nat)
    ensures ReplayFrom(STD_CONTROLS + CUSTOM_CONTROLS, 4, 2, AllSucceed, at) == Outcome([Write(TEST_PATTERN, 0)], 0, 2)
  {
    var cs := STD_CONTROLS + CUSTOM_CONTROLS;
    DefaultControls();
    assert TestPatternData(0) == 0;
    assert CtrlStep(cs[4], 2, AllSucceed, at) == Outcome([Write(TEST_PATTERN, 0)], 0, 2);
  }
}
