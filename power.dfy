/** Power-up and identification: mt9v032_power_on with its one-shot latch,
    __mt9v032_set_power, the gate in mt9v032_set_power, and the version check
    of mt9v032_registered. */
module Power {
  import opened Types
  import opened Registers
  import opened Bus
  import opened Controls

  /** Values of the platform's power-request constants. */
  const CSI_SUBDEV_PWR_ON: int := 1
  const CSI_SUBDEV_PWR_OFF: int := 0

  /** The bus and clock calls of a power operation, its result, the latch
      (`on_done`) and the aec_agc shadow afterwards. */
  datatype PowerOutcome = PowerOutcome(events: seq<Event>, ret: int, onDone: bool, aec: bv16)

  /** Everything a first power_on issues when nothing fails: clock on, a
      chip-version read whose result is ignored, reset pulse, chip control 0. */
  const POWER_ON_SEQUENCE: seq<Event> :=
    [ClockEnable, Read(CHIP_VERSION), Write(RESET, 1), Write(RESET, 0), Write(CHIP_CONTROL, 0)]

  /** The first three calls of a power_on: clock on, the version read and the
      write that asserts the reset. */
  const POWER_ON_HEAD: seq<Event> := [ClockEnable, Read(CHIP_VERSION), Write(RESET, 1)]

  /** mt9v032_power_on. The clock and read results (positions 0 and 1) are
      ignored; a failing reset write returns its error with the latch still
      clear; otherwise the latch is set and the result is that of the
      CHIP_CONTROL write. The chip_control shadow is not touched. */
  function PowerOn(onDone: bool, aec: bv16, answer: Oracle, at: nat): PowerOutcome
  {
    if onDone then PowerOutcome([], 0, true, aec)
    else if answer(at + 2) < 0 then PowerOutcome(POWER_ON_HEAD, answer(at + 2), false, aec)
    else if answer(at + 3) < 0 then PowerOutcome(POWER_ON_HEAD + [Write(RESET, 0)], answer(at + 3), false, aec)
    else PowerOutcome(POWER_ON_HEAD + [Write(RESET, 0)] + [Write(CHIP_CONTROL, 0)], answer(at + 4), true, aec)
  }

  /** The event lists PowerOn builds are the prefixes of POWER_ON_SEQUENCE. */
  lemma PowerOnPrefixes()
    ensures POWER_ON_HEAD == POWER_ON_SEQUENCE[..3]
    ensures POWER_ON_HEAD + [Write(RESET, 0)] == POWER_ON_SEQUENCE[..4]
    ensures POWER_ON_HEAD + [Write(RESET, 0)] + [Write(CHIP_CONTROL, 0)] == POWER_ON_SEQUENCE
  {
  }

  /** Once latched, power_on does nothing and returns 0; before that it issues
      a prefix of at least the clock, the read and the first reset write; the
      latch ends up set iff both reset writes succeed, and a call that leaves
      it clear returns an error. */
  lemma PowerOnLatch(onDone: bool, aec: bv16, answer: Oracle, at: nat)
    ensures var o := PowerOn(onDone, aec, answer, at);
      && (onDone ==> o.events == [] && o.ret == 0 && o.onDone)
      && (!onDone ==> 3 <= |o.events| && o.events == POWER_ON_SEQUENCE[..|o.events|])
      && (o.onDone <==> onDone || (answer(at + 2) >= 0 && answer(at + 3) >= 0))
      && (!o.onDone ==> o.ret < 0)
      && (!onDone && o.onDone ==> o.events == POWER_ON_SEQUENCE && o.ret == answer(at + 4))
      && EndsWithAnswer(o.events, o.ret, answer, at)
      && o.aec == aec
  {
    PowerOnPrefixes();
    assert POWER_ON_SEQUENCE[..5] == POWER_ON_SEQUENCE;
  }

  /** __mt9v032_set_power: get the clock (an error ends the call), then either
      switch it off, or power on and continue with the PowerUpTail; each step
      ends the call with its error. */
  function SetPowerInner(on: bool, onDone: bool, aec: bv16, clkPol: bool, ctrls: seq<Control>,
                         answer: Oracle, at: nat): PowerOutcome
    requires AllInRange(ctrls)
  {
    if answer(at) < 0 then PowerOutcome([ClockGet], answer(at), onDone, aec)
    else if !on then PowerOutcome([ClockGet, ClockDisable], 0, onDone, aec)
    else
      var u := PowerUp(onDone, aec, clkPol, ctrls, answer, at + 1);
      PowerOutcome([ClockGet] + u.events, u.ret, u.onDone, u.aec)
  }

  /** The "on" branch of __mt9v032_set_power after the clock: power_on, whose
      error ends it, then the PowerUpTail. */
  function PowerUp(onDone: bool, aec: bv16, clkPol: bool, ctrls: seq<Control>, answer: Oracle, at: nat): PowerOutcome
    requires AllInRange(ctrls)
  {
    var p := PowerOn(onDone, aec, answer, at);
    if p.ret < 0 then p
    else
      var t := PowerUpTail(aec, clkPol, ctrls, answer, at + |p.events|);
      PowerOutcome(p.events + t.events, t.ret, p.onDone, t.shadow)
  }

  /** The part of __mt9v032_set_power after a successful power_on: program
      the clock polarity when the platform asks for it, disable the row-noise
      correction and replay the controls. */
  function PowerUpTail(aec: bv16, clkPol: bool, ctrls: seq<Control>, answer: Oracle, at: nat): Outcome
    requires AllInRange(ctrls)
  {
    if clkPol && answer(at) < 0 then Outcome([Write(PIXEL_CLOCK, PIXEL_CLOCK_INV_PXL_CLK)], answer(at), aec)
    else
      var e1 := if clkPol then [Write(PIXEL_CLOCK, PIXEL_CLOCK_INV_PXL_CLK)] else [];
      var rest := RowNoiseThenReplay(aec, ctrls, answer, at + |e1|);
      Outcome(e1 + rest.events, rest.ret, rest.shadow)
  }

  /** The end of __mt9v032_set_power: the row-noise correction is switched
      off (its error ends the call), then the controls are replayed. */
  function RowNoiseThenReplay(aec: bv16, ctrls: seq<Control>, answer: Oracle, at: nat): Outcome
    requires AllInRange(ctrls)
  {
    if answer(at) < 0 then Outcome([Write(ROW_NOISE_CORR_CONTROL, 0)], answer(at), aec)
    else
      var r := Replay(ctrls, aec, answer, at + 1);
      Outcome([Write(ROW_NOISE_CORR_CONTROL, 0)] + r.events, r.ret, r.shadow)
  }

  /** A non-zero result is what the outside world answered to the last call
      issued (the one that ended the sequence). */
  predicate EndsWithAnswer(events: seq<Event>, ret: int, answer: Oracle, at: nat) {
    ret != 0 ==> 1 <= |events| && ret == answer(at + |events| - 1)
  }

  /** The writes of a power-up between power_on and the control replay: the
      optional clock polarity, then the row-noise correction switched off. */
  function TailWrites(clkPol: bool): seq<Event> {
    (if clkPol then [Write(PIXEL_CLOCK, PIXEL_CLOCK_INV_PXL_CLK)] else []) + [Write(ROW_NOISE_CORR_CONTROL, 0)]
  }

  /** A run of calls that either issues all of `pre` and continues with the
      replay `r`, ending with its result and shadow (when `ran`), or stops
      inside `pre` at a failing call, returning its error and keeping the
      shadow `aec`; a non-zero result is the answer to the last call. */
  predicate StopsBeforeReplay(events: seq<Event>, ret: int, shadow: bv16, pre: seq<Event>, r: Outcome,
                              ran: bool, aec: bv16, answer: Oracle, at: nat) {
    && EndsWithAnswer(events, ret, answer, at)
    && (ran ==> events == pre + r.events && ret == r.ret && shadow == r.shadow)
    && (!ran ==> ret < 0 && shadow == aec && 1 <= |events| <= |pre| && events == pre[..|events|])
  }

  /** The tail of a power-up on any bus: the replay runs iff the TailWrites
      all succeed; otherwise the tail stops at the failing one. */
  lemma PowerUpTailStops(aec: bv16, clkPol: bool, ctrls: seq<Control>, answer: Oracle, at: nat)
    requires AllInRange(ctrls)
    ensures var t := PowerUpTail(aec, clkPol, ctrls, answer, at);
      var e2 := TailWrites(clkPol);
      StopsBeforeReplay(t.events, t.ret, t.shadow, e2, Replay(ctrls, aec, answer, at + |e2|),
                        Answered(answer, at, |e2|), aec, answer, at)
  {
    if !clkPol {
      TailStopsPlain(aec, clkPol, ctrls, answer, at);
    } else if answer(at) < 0 {
      TailStopsClockFails(aec, clkPol, ctrls, answer, at);
    } else {
      TailStopsClockOk(aec, clkPol, ctrls, answer, at);
    }
  }

  /** The row-noise write and the replay: the replay runs iff the write
      succeeds. */
  lemma RowNoiseStops(aec: bv16, ctrls: seq<Control>, answer: Oracle, at: nat)
    requires AllInRange(ctrls)
    ensures var t := RowNoiseThenReplay(aec, ctrls, answer, at);
      StopsBeforeReplay(t.events, t.ret, t.shadow, [Write(ROW_NOISE_CORR_CONTROL, 0)],
                        Replay(ctrls, aec, answer, at + 1), answer(at) >= 0, aec, answer, at)
  {
    ReplayShape(ctrls, 0, aec, answer, at + 1);
  }

  /** PowerUpTailStops without the clock-polarity write. */
  lemma TailStopsPlain(aec: bv16, clkPol: bool, ctrls: seq<Control>, answer: Oracle, at: nat)
    requires AllInRange(ctrls) && !clkPol
    ensures var t := PowerUpTail(aec, clkPol, ctrls, answer, at);
      var e2 := TailWrites(clkPol);
      StopsBeforeReplay(t.events, t.ret, t.shadow, e2, Replay(ctrls, aec, answer, at + |e2|),
                        Answered(answer, at, |e2|), aec, answer, at)
  {
    var rest := RowNoiseThenReplay(aec, ctrls, answer, at);
    RowNoiseStops(aec, ctrls, answer, at);
    AnsweredCons(answer, at, 1);
    assert PowerUpTail(aec, clkPol, ctrls, answer, at) == rest by {
      assert [] + rest.events == rest.events;
    }
    assert TailWrites(clkPol) == [Write(ROW_NOISE_CORR_CONTROL, 0)];
  }

  /** PowerUpTailStops when the clock-polarity write fails. */
  lemma TailStopsClockFails(aec: bv16, clkPol: bool, ctrls: seq<Control>, answer: Oracle, at: nat)
    requires AllInRange(ctrls) && clkPol && answer(at) < 0
    ensures var t := PowerUpTail(aec, clkPol, ctrls, answer, at);
      var e2 := TailWrites(clkPol);
      StopsBeforeReplay(t.events, t.ret, t.shadow, e2, Replay(ctrls, aec, answer, at + |e2|),
                        Answered(answer, at, |e2|), aec, answer, at)
  {
    var e2 := TailWrites(clkPol);
    AnsweredCons(answer, at, |e2|);
    assert e2[..1] == [Write(PIXEL_CLOCK, PIXEL_CLOCK_INV_PXL_CLK)];
  }

  /** PowerUpTailStops when the clock-polarity write succeeds. */
  lemma TailStopsClockOk(aec: bv16, clkPol: bool, ctrls: seq<Control>, answer: Oracle, at: nat)
    requires AllInRange(ctrls) && clkPol && answer(at) >= 0
    ensures var t := PowerUpTail(aec, clkPol, ctrls, answer, at);
      var e2 := TailWrites(clkPol);
      StopsBeforeReplay(t.events, t.ret, t.shadow, e2, Replay(ctrls, aec, answer, at + |e2|),
                        Answered(answer, at, |e2|), aec, answer, at)
  {
    var e2 := TailWrites(clkPol);
    var head := [Write(PIXEL_CLOCK, PIXEL_CLOCK_INV_PXL_CLK)];
    var row := [Write(ROW_NOISE_CORR_CONTROL, 0)];
    var at1 := at + 1;
    var rest := RowNoiseThenReplay(aec, ctrls, answer, at1);
    var r := Replay(ctrls, aec, answer, at1 + 1);
    RowNoiseStops(aec, ctrls, answer, at1);
    ShiftStops(head, rest.events, rest.ret, rest.shadow, row, r, answer(at1) >= 0, aec, answer, at, at1);
    AnsweredCons(answer, at, 2);
    AnsweredCons(answer, at1, 1);
    assert e2 == head + row;
    assert r == Replay(ctrls, aec, answer, at + |e2|);
    assert PowerUpTail(aec, clkPol, ctrls, answer, at) == Outcome(head + rest.events, rest.ret, rest.shadow);
  }

  /** A sequence whose prefix is `a` followed by a prefix of `b`. */
  lemma PrefixJoin(a: seq<Event>, b: seq<Event>, k: nat)
    requires k <= |b|
    ensures (a + b)[..|a| + k] == a + b[..k]
  {
  }

  /** StopsBeforeReplay behind calls `head` issued first, from `at`; the
      later calls start at `start`. */
  lemma ShiftStops(head: seq<Event>, events: seq<Event>, ret: int, shadow: bv16, pre: seq<Event>, r: Outcome,
                   ran: bool, aec: bv16, answer: Oracle, at: nat, start: nat)
    requires start == at + |head|
    requires StopsBeforeReplay(events, ret, shadow, pre, r, ran, aec, answer, start)
    ensures StopsBeforeReplay(head + events, ret, shadow, head + pre, r, ran, aec, answer, at)
  {
    if ran {
      LogAppend(head, pre, r.events);
    } else {
      PrefixJoin(head, pre, |events|);
    }
  }

  /** __mt9v032_set_power(1) on any bus. The control replay runs iff the
      clock request, power_on and the TailWrites succeed; the log is then the
      clock request, the power-on calls, the TailWrites and the replay, with
      the replay's result and shadow and the latch set. Otherwise the log is
      a prefix of the calls before the replay that ends at the failing call,
      whose error is returned, and the shadow is kept. */
  lemma PowerUpStopsAtFirstFailure(onDone: bool, aec: bv16, clkPol: bool, ctrls: seq<Control>,
                                   answer: Oracle, at: nat)
    requires AllInRange(ctrls)
    ensures var o := SetPowerInner(true, onDone, aec, clkPol, ctrls, answer, at);
      var p := PowerOn(onDone, aec, answer, at + 1);
      var e2 := TailWrites(clkPol);
      var tailOk := Answered(answer, at + 1 + |p.events|, |e2|);
      var ran := answer(at) >= 0 && (p.ret >= 0 && tailOk);
      && StopsBeforeReplay(o.events, o.ret, o.aec, [ClockGet] + (p.events + e2),
                           Replay(ctrls, aec, answer, at + 1 + |p.events| + |e2|), ran, aec, answer, at)
      && (ran ==> o.onDone)
  {
    if answer(at) < 0 {
      ClockFailureStops(onDone, aec, clkPol, ctrls, answer, at);
    } else {
      ClockSuccessStops(onDone, aec, clkPol, ctrls, answer, at);
    }
  }

  /** PowerUpStopsAtFirstFailure when the clock request fails. */
  lemma ClockFailureStops(onDone: bool, aec: bv16, clkPol: bool, ctrls: seq<Control>, answer: Oracle, at: nat)
    requires AllInRange(ctrls) && answer(at) < 0
    ensures var o := SetPowerInner(true, onDone, aec, clkPol, ctrls, answer, at);
      var p := PowerOn(onDone, aec, answer, at + 1);
      var e2 := TailWrites(clkPol);
      var tailOk := Answered(answer, at + 1 + |p.events|, |e2|);
      var ran := answer(at) >= 0 && (p.ret >= 0 && tailOk);
      && StopsBeforeReplay(o.events, o.ret, o.aec, [ClockGet] + (p.events + e2),
                           Replay(ctrls, aec, answer, at + 1 + |p.events| + |e2|), ran, aec, answer, at)
      && (ran ==> o.onDone)
  {
    PrefixJoin([ClockGet], PowerOn(onDone, aec, answer, at + 1).events + TailWrites(clkPol), 0);
  }

  /** PowerUpStopsAtFirstFailure when the clock request succeeds. */
  lemma ClockSuccessStops(onDone: bool, aec: bv16, clkPol: bool, ctrls: seq<Control>, answer: Oracle, at: nat)
    requires AllInRange(ctrls) && answer(at) >= 0
    ensures var o := SetPowerInner(true, onDone, aec, clkPol, ctrls, answer, at);
      var p := PowerOn(onDone, aec, answer, at + 1);
      var e2 := TailWrites(clkPol);
      var tailOk := Answered(answer, at + 1 + |p.events|, |e2|);
      var ran := answer(at) >= 0 && (p.ret >= 0 && tailOk);
      && StopsBeforeReplay(o.events, o.ret, o.aec, [ClockGet] + (p.events + e2),
                           Replay(ctrls, aec, answer, at + 1 + |p.events| + |e2|), ran, aec, answer, at)
      && (ran ==> o.onDone)
  {
    var at1 := at + 1;
    var p := PowerOn(onDone, aec, answer, at1);
    var e2 := TailWrites(clkPol);
    var u := PowerUp(onDone, aec, clkPol, ctrls, answer, at1);
    PowerUpStops(onDone, aec, clkPol, ctrls, answer, at1);
    var r := Replay(ctrls, aec, answer, at1 + |p.events| + |e2|);
    var ran := p.ret >= 0 && Answered(answer, at1 + |p.events|, |e2|);
    ShiftStops([ClockGet], u.events, u.ret, u.aec, p.events + e2, r, ran, aec, answer, at, at1);
    var o := SetPowerInner(true, onDone, aec, clkPol, ctrls, answer, at);
    assert o == PowerOutcome([ClockGet] + u.events, u.ret, u.onDone, u.aec);
    var r' := Replay(ctrls, aec, answer, at + 1 + |p.events| + |e2|);
    var ran' := answer(at) >= 0 && (p.ret >= 0 && Answered(answer, at + 1 + |p.events|, |e2|));
    RestateStops([ClockGet] + u.events, o.events, u.ret, o.ret, u.aec, o.aec, [ClockGet] + (p.events + e2),
                 r, r', ran, ran', aec, answer, at);
  }

  /** StopsBeforeReplay depends on its arguments' values only. */
  lemma RestateStops(events: seq<Event>, events': seq<Event>, ret: int, ret': int, shadow: bv16, shadow': bv16,
                     pre: seq<Event>, r: Outcome, r': Outcome, ran: bool, ran': bool,
                     aec: bv16, answer: Oracle, at: nat)
    requires events == events' && ret == ret' && shadow == shadow' && r == r' && ran == ran'
    requires StopsBeforeReplay(events, ret, shadow, pre, r, ran, aec, answer, at)
    ensures StopsBeforeReplay(events', ret', shadow', pre, r', ran', aec, answer, at)
  {
  }


  /** The "on" branch after the clock request: the replay runs iff power_on
      and the TailWrites succeed, and then the latch is set; otherwise the
      calls stop at the failing one. */
  predicate PowerUpStopsBeforeReplay(onDone: bool, aec: bv16, clkPol: bool, ctrls: seq<Control>, answer: Oracle, at: nat)
    requires AllInRange(ctrls)
  {
    var p := PowerOn(onDone, aec, answer, at);
    var e2 := TailWrites(clkPol);
    PowerUpShape(PowerUp(onDone, aec, clkPol, ctrls, answer, at), p, e2,
                 Replay(ctrls, aec, answer, at + |p.events| + |e2|), Answered(answer, at + |p.events|, |e2|),
                 aec, answer, at)
  }

  /** A power-up `u` whose power_on step was `p`: it stops before the replay
      `r` after the calls of `p` and `e2`, which all succeed iff `p` does and
      `tailOk`; when they do, the latch is set. */
  predicate PowerUpShape(u: PowerOutcome, p: PowerOutcome, e2: seq<Event>, r: Outcome, tailOk: bool,
                         aec: bv16, answer: Oracle, at: nat) {
    var ran := p.ret >= 0 && tailOk;
    && StopsBeforeReplay(u.events, u.ret, u.aec, p.events + e2, r, ran, aec, answer, at)
    && (ran ==> u.onDone)
  }

  /** A successful power_on `p` followed by a tail `t` that stops before
      the replay `r` gives a power-up that stops before `r`. */
  lemma ThenTail(u: PowerOutcome, p: PowerOutcome, t: Outcome, e2: seq<Event>, r: Outcome, tailOk: bool,
                 aec: bv16, answer: Oracle, at: nat, at2: nat)
    requires at2 == at + |p.events| && p.ret >= 0 && p.onDone
    requires StopsBeforeReplay(t.events, t.ret, t.shadow, e2, r, tailOk, aec, answer, at2)
    requires u == PowerOutcome(p.events + t.events, t.ret, p.onDone, t.shadow)
    ensures PowerUpShape(u, p, e2, r, tailOk, aec, answer, at)
  {
    ShiftStops(p.events, t.events, t.ret, t.shadow, e2, r, tailOk, aec, answer, at, at2);
  }

  /** The "on" branch after the clock request, on any bus. */
  lemma PowerUpStops(onDone: bool, aec: bv16, clkPol: bool, ctrls: seq<Control>, answer: Oracle, at: nat)
    requires AllInRange(ctrls)
    ensures PowerUpStopsBeforeReplay(onDone, aec, clkPol, ctrls, answer, at)
  {
    if PowerOn(onDone, aec, answer, at).ret < 0 {
      PowerOnFailureStops(onDone, aec, clkPol, ctrls, answer, at);
    } else {
      PowerOnSuccessStops(onDone, aec, clkPol, ctrls, answer, at);
    }
  }

  /** PowerUpStops when power_on fails: its calls are all there is. */
  lemma PowerOnFailureStops(onDone: bool, aec: bv16, clkPol: bool, ctrls: seq<Control>, answer: Oracle, at: nat)
    requires AllInRange(ctrls) && PowerOn(onDone, aec, answer, at).ret < 0
    ensures PowerUpStopsBeforeReplay(onDone, aec, clkPol, ctrls, answer, at)
  {
    var p := PowerOn(onDone, aec, answer, at);
    PowerOnEnds(onDone, aec, answer, at);
    PrefixJoin(p.events, TailWrites(clkPol), 0);
  }

  /** PowerUpStops when power_on succeeds: its calls, then the tail. */
  lemma PowerOnSuccessStops(onDone: bool, aec: bv16, clkPol: bool, ctrls: seq<Control>, answer: Oracle, at: nat)
    requires AllInRange(ctrls) && PowerOn(onDone, aec, answer, at).ret >= 0
    ensures PowerUpStopsBeforeReplay(onDone, aec, clkPol, ctrls, answer, at)
  {
    var p := PowerOn(onDone, aec, answer, at);
    var e2 := TailWrites(clkPol);
    var at2 := at + |p.events|;
    var t := PowerUpTail(aec, clkPol, ctrls, answer, at2);
    var r := Replay(ctrls, aec, answer, at2 + |e2|);
    var u := PowerUp(onDone, aec, clkPol, ctrls, answer, at);
    PowerOnEnds(onDone, aec, answer, at);
    PowerUpTailStops(aec, clkPol, ctrls, answer, at2);
    assert u == PowerOutcome(p.events + t.events, t.ret, p.onDone, t.shadow);
    ThenTail(u, p, t, e2, r, Answered(answer, at2, |e2|), aec, answer, at, at2);
    assert r == Replay(ctrls, aec, answer, at + |p.events| + |e2|);
  }

  /** power_on ends with the answer to its last call, keeps the shadow and
      sets the latch whenever it succeeds. */
  lemma PowerOnEnds(onDone: bool, aec: bv16, answer: Oracle, at: nat)
    ensures var o := PowerOn(onDone, aec, answer, at);
      EndsWithAnswer(o.events, o.ret, answer, at) && o.aec == aec && (o.ret >= 0 ==> o.onDone)
  {
  }

  /** Powering off touches no register: it gets the clock and, if that
      worked, disables it, and returns 0 or the clock error. */
  lemma PowerOffTouchesNoRegister(onDone: bool, aec: bv16, clkPol: bool, ctrls: seq<Control>,
                                  answer: Oracle, at: nat)
    requires AllInRange(ctrls)
    ensures var o := SetPowerInner(false, onDone, aec, clkPol, ctrls, answer, at);
      && o.events == (if answer(at) < 0 then [ClockGet] else [ClockGet, ClockDisable])
      && o.ret == (if answer(at) < 0 then answer(at) else 0)
      && o.onDone == onDone && o.aec == aec
  {
  }

  /** A first power-up on a bus where every call succeeds: the clock, the
      power-on sequence, the optional polarity write, the row-noise write and
      the default control replay, returning 0 with the latch set. */
  lemma ColdPowerUp(clkPol: bool)
    ensures SetPowerInner(true, false, AEC_ENABLE | AGC_ENABLE, clkPol, STD_CONTROLS + CUSTOM_CONTROLS, AllSucceed, 0)
            == PowerOutcome([ClockGet] + POWER_ON_SEQUENCE
                            + (if clkPol then [Write(PIXEL_CLOCK, PIXEL_CLOCK_INV_PXL_CLK)] else [])
                            + [Write(ROW_NOISE_CORR_CONTROL, 0)]
                            + Replay(STD_CONTROLS + CUSTOM_CONTROLS, AEC_ENABLE | AGC_ENABLE, AllSucceed, 0).events,
                            0, true, 2)
  {
    var e3 := [ClockGet] + POWER_ON_SEQUENCE
              + (if clkPol then [Write(PIXEL_CLOCK, PIXEL_CLOCK_INV_PXL_CLK)] else [])
              + [Write(ROW_NOISE_CORR_CONTROL, 0)];
    PowerOnPrefixes();
    DefaultReplay(|e3|);
    DefaultReplay(0);
  }

  /** When its writes succeed, the tail of a power-up issues the optional
      polarity write and the row-noise write, then the control replay. */
  lemma PowerUpTailWrites(aec: bv16, clkPol: bool, ctrls: seq<Control>, answer: Oracle, at: nat)
    requires AllInRange(ctrls) && Answered(answer, at, 2)
    ensures var e2 := (if clkPol then [Write(PIXEL_CLOCK, PIXEL_CLOCK_INV_PXL_CLK)] else [])
                      + [Write(ROW_NOISE_CORR_CONTROL, 0)];
      var r := Replay(ctrls, aec, answer, at + |e2|);
      PowerUpTail(aec, clkPol, ctrls, answer, at) == Outcome(e2 + r.events, r.ret, r.shadow)
  {
    assert answer(at) >= 0 && answer(at + 1) >= 0;
  }

  /** A later power-up, with the latch set, issues no reset: after the clock
      come the polarity write, the row-noise write and the replay directly. */
  lemma LatchedPowerUpSkipsReset(aec: bv16, clkPol: bool, ctrls: seq<Control>, answer: Oracle, at: nat)
    requires AllInRange(ctrls)
    requires answer(at) >= 0 && Answered(answer, at + 1, 2)
    ensures var o := SetPowerInner(true, true, aec, clkPol, ctrls, answer, at);
      var e2 := (if clkPol then [Write(PIXEL_CLOCK, PIXEL_CLOCK_INV_PXL_CLK)] else [])
                + [Write(ROW_NOISE_CORR_CONTROL, 0)];
      var r := Replay(ctrls, aec, answer, at + 1 + |e2|);
      && o.events == [ClockGet] + e2 + r.events
      && o.ret == r.ret
      && o.onDone
  {
    var e2 := (if clkPol then [Write(PIXEL_CLOCK, PIXEL_CLOCK_INV_PXL_CLK)] else [])
              + [Write(ROW_NOISE_CORR_CONTROL, 0)];
    PowerUpTailWrites(aec, clkPol, ctrls, answer, at + 1);
    var r := Replay(ctrls, aec, answer, at + 1 + |e2|);
    var t := PowerUpTail(aec, clkPol, ctrls, answer, at + 1);
    assert PowerOn(true, aec, answer, at + 1) == PowerOutcome([], 0, true, aec);
    assert [] + t.events == t.events;
    assert PowerUp(true, aec, clkPol, ctrls, answer, at + 1) == PowerOutcome(t.events, t.ret, true, t.shadow);
    LogAppend([ClockGet], e2, r.events);
  }

  /** The request normalisation at the top of mt9v032_set_power: the platform's
      "on" value means 1; 0 and 1 pass; anything else makes the call a no-op. */
  function NormalisePower(on: int): Option<int>
  {
    if on == CSI_SUBDEV_PWR_ON then Some(1)
    else if CSI_SUBDEV_PWR_OFF != 0 then Some(0)
    else if on != 0 && on != 1 then None
    else Some(on)
  }

  /** mt9v032_set_power: __mt9v032_set_power runs only when the power count
      equals `!on`; the result is its result, or 0 when it does not run. */
  function SetPower(on: int, powerCount: int, onDone: bool, aec: bv16, clkPol: bool,
                    ctrls: seq<Control>, answer: Oracle, at: nat): PowerOutcome
    requires AllInRange(ctrls)
  {
    match NormalisePower(on)
    case None => PowerOutcome([], 0, onDone, aec)
    case Some(n) =>
      if powerCount == (if n == 0 then 1 else 0) then SetPowerInner(n != 0, onDone, aec, clkPol, ctrls, answer, at)
      else PowerOutcome([], 0, onDone, aec)
  }

  /** With the power count stuck at 0, a request for 1 always runs the full
      power-up, and a request for 0 (or any value other than 1) does nothing
      and returns 0: the sensor clock is never switched off. */
  lemma SetPowerWithCountZero(on: int, onDone: bool, aec: bv16, clkPol: bool,
                              ctrls: seq<Control>, answer: Oracle, at: nat)
    requires AllInRange(ctrls)
    ensures on == 1 ==> SetPower(on, 0, onDone, aec, clkPol, ctrls, answer, at)
                        == SetPowerInner(true, onDone, aec, clkPol, ctrls, answer, at)
    ensures on != 1 ==> SetPower(on, 0, onDone, aec, clkPol, ctrls, answer, at)
                        == PowerOutcome([], 0, onDone, aec)
  {
  }

  /** The chip versions mt9v032_registered accepts. */
  predicate IsKnownChip(version: int) {
    version == CHIP_ID_REV1 || version == CHIP_ID_REV3 || version == MT9V034_CHIP_ID_REV1
  }

  /** mt9v032_registered: power on (its error ends the call), read the chip
      version, and answer -ENODEV for an unknown one, else the power-on result. */
  function Registered(onDone: bool, aec: bv16, answer: Oracle, at: nat): PowerOutcome
  {
    var p := PowerOn(onDone, aec, answer, at);
    if p.ret < 0 then p
    else
      var version := answer(at + |p.events|);
      PowerOutcome(p.events + [Read(CHIP_VERSION)],
                   if IsKnownChip(version) then p.ret else -ENODEV, p.onDone, aec)
  }

  /** After a power-on that did not fail, registered rejects exactly the
      versions outside the allow-list, with -ENODEV; a known chip gets the
      (non-negative) power-on result. */
  lemma RegisteredChecksVersion(onDone: bool, aec: bv16, answer: Oracle, at: nat)
    requires PowerOn(onDone, aec, answer, at).ret >= 0
    ensures var p := PowerOn(onDone, aec, answer, at);
      var o := Registered(onDone, aec, answer, at);
      var version := answer(at + |p.events|);
      && o.events == p.events + [Read(CHIP_VERSION)]
      && (o.ret == -ENODEV <==> !IsKnownChip(version))
      && (IsKnownChip(version) ==> o.ret == p.ret >= 0)
  {
  }

  /** A bus on which every call succeeds and the chip version reads 0x1324. */
  function Mt9v034Bus(i: nat): int { if i == 5 then MT9V034_CHIP_ID_REV1 else 0 }

  /** A cold registration of a MT9V034: the power-on sequence, then the
      identifying read, accepted, with the latch set. */
  lemma ColdRegistration()
    ensures Registered(false, 3, Mt9v034Bus, 0)
            == PowerOutcome(POWER_ON_SEQUENCE + [Read(CHIP_VERSION)], 0, true, 3)
  {
    PowerOnPrefixes();
  }

  /** With the latch already set the same bus reading 0 instead is refused. */
  lemma LatchedRegistrationRejectsUnknown()
    ensures Registered(true, 3, AllSucceed, 0) == PowerOutcome([Read(CHIP_VERSION)], -ENODEV, true, 3)
  {
  }
}
