/**
 * The power-hold state machine of the joypad read. Three pieces of state that
 * survive from one poll to the next decide whether the power button is
 * reported, when a press started, and when a held press forces the console
 * off.
 */
module PowerButton {
  import opened Gpio
  import opened Buttons

  /** The tick counter is a 32-bit unsigned count that wraps around. */
  const TICKS: int := 0x1_0000_0000
  type Tick = t: int | 0 <= t < TICKS

  /** Milliseconds per tick: a build-time constant of the scheduler, never 0. */
  type TickPeriod = p: int | 0 < p < TICKS witness 1

  /** A press held longer than this forces the power-down. */
  const FORCE_OFF_MS: nat := 6000

  /** `ms` milliseconds in ticks, rounded down as the unsigned division rounds. */
  function MsToTicks(ms: nat, period: TickPeriod): (ticks: nat)
  {
    ms / period
  }

  /**
   * Ticks from `start` to `now` as the unsigned 32-bit subtraction computes
   * them: the number of ticks that, added to `start`, wrap around to `now`.
   */
  function Elapsed(now: Tick, start: Tick): (d: Tick)
    ensures (start + d) % TICKS == now
  {
    (now - start) % TICKS
  }

  /** The subtraction measures any duration shorter than a full turn of the counter exactly, across wraparound too. */
  lemma ElapsedMeasures(start: Tick, d: Tick)
    ensures Elapsed((start + d) % TICKS, start) == d
  {
  }

  /** The power button reads high while it is pressed. */
  predicate PowerPressed(io: bv64)
  {
    io & GPIO_BTN_PWR != 0
  }

  /**
   * The state kept across polls. `initial` holds from boot until the first
   * poll that sees the button released; `wasPressed` says the previous poll saw
   * it pressed after the wake-up period; `pressedTime` is the tick at which the current press began.
   */
  datatype PowerState = PowerState(initial: bool, wasPressed: bool, pressedTime: Tick)

  /** The state at boot, wake from sleep included (static storage starts zeroed). */
  const Boot: PowerState := PowerState(true, false, 0)

  /** What the power-button logic of one poll decides: the next state, whether the power bit is reported, and whether the power-down is due. */
  datatype PowerOutcome = PowerOutcome(next: PowerState, power: bool, powerDown: bool)

  /**
   * The power-button logic of one poll, with the button `pressed` or not at
   * tick `now`.
   */
  function PowerStep(s: PowerState, pressed: bool, now: Tick, period: TickPeriod): (t: PowerOutcome)
    // The power bit is reported exactly for a press after the wake-up period.
    ensures t.power <==> pressed && !s.initial
    // A press left over from the wake-up changes nothing.
    ensures s.initial && pressed ==> t.next == s && !t.powerDown
    // Releasing the button ends the wake-up period and the current press.
    ensures !pressed ==> !t.next.initial && !t.next.wasPressed && !t.powerDown
    // `initial` is never set again once cleared.
    ensures t.next.initial ==> s.initial
    // The start tick only moves on the release-to-press edge, and then to `now`.
    ensures t.next.pressedTime != s.pressedTime ==>
              pressed && !s.initial && !s.wasPressed && t.next.pressedTime == now
    ensures pressed && !s.initial ==>
              t.next.wasPressed && t.next.pressedTime == (if s.wasPressed then s.pressedTime else now)
    // The power-down is asked for only while a press that an earlier poll
    // already saw has lasted strictly longer than six seconds.
    ensures t.powerDown <==>
              pressed && !s.initial && s.wasPressed &&
              Elapsed(now, s.pressedTime) > MsToTicks(FORCE_OFF_MS, period)
  {
    if !pressed then
      PowerOutcome(PowerState(false, false, s.pressedTime), false, false)
    else if s.initial then
      PowerOutcome(s, false, false)
    else
      var start := if s.wasPressed then s.pressedTime else now;
      PowerOutcome(PowerState(false, true, start), true,
                   Elapsed(now, start) > MsToTicks(FORCE_OFF_MS, period))
  }

  /** What one poll yields: the next state, the mask it returns, and whether it asks for the power-down. */
  datatype PollResult = PollResult(next: PowerState, mask: bv32, powerDown: bool)

  /**
   * One poll of the joypad read on snapshot `io` at tick `now`: the
   * power-button logic on the power line, and the pad mask of the snapshot
   * beside the power bit. The mask holds the power bit exactly when the button
   * is pressed after the wake-up period, the pad bits of the snapshot whatever
   * the state, and nothing else.
   */
  function Step(s: PowerState, io: bv64, now: Tick, period: TickPeriod): (r: PollResult)
    ensures (r.mask & PAD_POWER != 0) <==> PowerPressed(io) && !s.initial
    ensures r.mask & PAD_ALL == PadMask(io)
    ensures r.mask & !(PAD_ALL | PAD_POWER) == 0
  {
    var t := PowerStep(s, PowerPressed(io), now, period);
    PollResult(t.next, WithPower(PadMask(io), t.power), t.powerDown)
  }

  /** An eight-bit pad mask with the power bit set beside it when `power` holds; the pad bits stay readable on their own. */
  function WithPower(pads: bv32, power: bool): (m: bv32)
    requires pads & !PAD_ALL == 0
    ensures (m & PAD_POWER != 0) <==> power
    ensures m & PAD_ALL == pads
    ensures m & !(PAD_ALL | PAD_POWER) == 0
  {
    if power then PAD_POWER | pads else pads
  }

  /** Two states see the same pad bits in one snapshot: the pads do not depend on the power state. */
  lemma PadsIgnorePowerState(s1: PowerState, s2: PowerState, io: bv64, now1: Tick, now2: Tick, period: TickPeriod)
    ensures Step(s1, io, now1, period).mask & PAD_ALL == Step(s2, io, now2, period).mask & PAD_ALL
  {
  }

  /**
   * For a press already seen by an earlier poll, `d` ticks after its start:
   * the power-down is asked for exactly when `d` exceeds six seconds' worth of
   * ticks, also when the counter wrapped in between.
   */
  lemma ForceOffAfter(t0: Tick, d: Tick, io: bv64, period: TickPeriod)
    requires PowerPressed(io)
    ensures Step(PowerState(false, true, t0), io, (t0 + d) % TICKS, period).powerDown <==>
              d > MsToTicks(FORCE_OFF_MS, period)
  {
    ElapsedMeasures(t0, d);
  }

  /** The threshold is strict: held for exactly the threshold, no power-down; one tick more, power-down. */
  lemma ForceOffBoundary(t0: Tick, io: bv64, period: TickPeriod)
    requires PowerPressed(io)
    ensures var th := MsToTicks(FORCE_OFF_MS, period);
      && !Step(PowerState(false, true, t0), io, (t0 + th) % TICKS, period).powerDown
      && Step(PowerState(false, true, t0), io, (t0 + th + 1) % TICKS, period).powerDown
  {
    var th := MsToTicks(FORCE_OFF_MS, period);
    ForceOffAfter(t0, th, io, period);
    ForceOffAfter(t0, th + 1, io, period);
  }

  /** One sampled poll: the snapshot and the tick it was taken at. */
  datatype Sample = Sample(io: bv64, now: Tick)

  /** A sequence of polls from state `s`, with what each of them yields. */
  function Run(s: PowerState, polls: seq<Sample>, period: TickPeriod): (r: seq<PollResult>)
    ensures |r| == |polls|
    ensures polls != [] ==> r[0] == Step(s, polls[0].io, polls[0].now, period)
    decreases |polls|
  {
    if polls == [] then []
    else
      var p := Step(s, polls[0].io, polls[0].now, period);
      [p] + Run(p.next, polls[1..], period)
  }

  /** All polls in `polls` see the power button pressed. */
  ghost predicate AllPressed(polls: seq<Sample>)
  {
    forall k :: 0 <= k < |polls| ==> PowerPressed(polls[k].io)
  }

  /**
   * While the button stays pressed from the wake-up on, no poll reports it,
   * none asks for the power-down and the state does not move.
   */
  lemma {:induction false} WakePressIgnored(s: PowerState, polls: seq<Sample>, period: TickPeriod)
    requires s.initial && AllPressed(polls)
    ensures forall k :: 0 <= k < |polls| ==>
              Run(s, polls, period)[k] == PollResult(s, PadMask(polls[k].io), false)
  {
    if polls != [] {
      WakePressIgnored(s, polls[1..], period);
      var r := Run(s, polls, period);
      assert r[1..] == Run(s, polls[1..], period);
      forall k | 1 <= k < |polls|
        ensures r[k] == PollResult(s, PadMask(polls[k].io), false)
      {
        assert r[k] == r[1..][k - 1];
        assert polls[1..][k - 1] == polls[k];
      }
    }
  }

  /** Polls during the wake-up press leave the state alone, so whatever follows runs from the same state. */
  lemma {:induction false} WakePressThen(s: PowerState, waking: seq<Sample>, rest: seq<Sample>, period: TickPeriod)
    requires s.initial && AllPressed(waking)
    ensures Run(s, waking + rest, period) == Run(s, waking, period) + Run(s, rest, period)
  {
    if waking != [] {
      var p := Step(s, waking[0].io, waking[0].now, period);
      assert PowerPressed(waking[0].io);
      assert p.next == s;
      RunCons(s, waking + rest, period);
      RunCons(s, waking, period);
      assert (waking + rest)[0] == waking[0];
      assert (waking + rest)[1..] == waking[1..] + rest;
      assert AllPressed(waking[1..]) by {
        forall k | 0 <= k < |waking[1..]| ensures PowerPressed(waking[1..][k].io) {
          assert waking[1..][k] == waking[k + 1];
        }
      }
      WakePressThen(s, waking[1..], rest, period);
      ConsAppend(Run(s, waking + rest, period), Run(s, waking, period), Run(s, waking[1..], period), Run(s, rest, period));
    } else {
      assert waking + rest == rest;
    }
  }

  /** Two sequences with the same first element, whose tails are `a + b` and `a`: the first is the second followed by `b`. */
  lemma ConsAppend<T>(r: seq<T>, rw: seq<T>, a: seq<T>, b: seq<T>)
    requires r != [] && rw != [] && r[0] == rw[0]
    requires r[1..] == a + b && rw[1..] == a
    ensures r == rw + b
  {
    assert r == [r[0]] + r[1..];
    assert rw == [rw[0]] + rw[1..];
  }

  /**
   * Once a press has been seen with start tick `t0`, every further pressed poll
   * keeps `t0`, reports the power bit, and asks for the power-down exactly when
   * the ticks elapsed since `t0` exceed six seconds' worth.
   */
  lemma {:induction false} HeldPressMeasured(t0: Tick, polls: seq<Sample>, period: TickPeriod)
    requires AllPressed(polls)
    ensures var s := PowerState(false, true, t0);
      forall k :: 0 <= k < |polls| ==>
        Run(s, polls, period)[k] ==
          PollResult(s, PAD_POWER | PadMask(polls[k].io),
                     Elapsed(polls[k].now, t0) > MsToTicks(FORCE_OFF_MS, period))
  {
    if polls != [] {
      var s := PowerState(false, true, t0);
      assert AllPressed(polls[1..]) by {
        forall k | 0 <= k < |polls[1..]| ensures PowerPressed(polls[1..][k].io) {
          assert polls[1..][k] == polls[k + 1];
        }
      }
      HeldPressMeasured(t0, polls[1..], period);
      var r := Run(s, polls, period);
      assert r[1..] == Run(s, polls[1..], period);
      forall k | 1 <= k < |polls|
        ensures r[k] == PollResult(s, PAD_POWER | PadMask(polls[k].io),
                                   Elapsed(polls[k].now, t0) > MsToTicks(FORCE_OFF_MS, period))
      {
        assert r[k] == r[1..][k - 1];
        assert polls[1..][k - 1] == polls[k];
      }
    }
  }

  /** The first poll of a run, and the run of the rest from the state it leaves. */
  lemma RunCons(s: PowerState, polls: seq<Sample>, period: TickPeriod)
    requires polls != []
    ensures var p := Step(s, polls[0].io, polls[0].now, period);
      && Run(s, polls, period)[0] == p
      && Run(s, polls, period)[1..] == Run(p.next, polls[1..], period)
  {
  }

  /**
   * A press that starts after a release: its first poll takes the start tick,
   * every poll of it reports the power bit, and one asks for the power-down
   * exactly when it comes more than six seconds after the first.
   */
  lemma NewPressTimed(t: Tick, holding: seq<Sample>, period: TickPeriod)
    requires AllPressed(holding) && holding != []
    ensures var r := Run(PowerState(false, false, t), holding, period);
      forall k :: 0 <= k < |holding| ==>
        && r[k].next == PowerState(false, true, holding[0].now)
        && r[k].mask == PAD_POWER | PadMask(holding[k].io)
        && r[k].powerDown == (Elapsed(holding[k].now, holding[0].now) > MsToTicks(FORCE_OFF_MS, period))
  {
    var t0 := holding[0].now;
    var r := Run(PowerState(false, false, t), holding, period);
    RunCons(PowerState(false, false, t), holding, period);
    assert Elapsed(t0, t0) == 0;
    assert AllPressed(holding[1..]) by {
      forall k | 0 <= k < |holding[1..]| ensures PowerPressed(holding[1..][k].io) {
        assert holding[1..][k] == holding[k + 1];
      }
    }
    HeldPressMeasured(t0, holding[1..], period);
    forall k | 1 <= k < |holding|
      ensures && r[k].next == PowerState(false, true, t0)
              && r[k].mask == PAD_POWER | PadMask(holding[k].io)
              && r[k].powerDown == (Elapsed(holding[k].now, t0) > MsToTicks(FORCE_OFF_MS, period))
    {
      assert r[k] == r[1..][k - 1];
      assert holding[1..][k - 1] == holding[k];
    }
  }

  /** A run from boot splits at the release: the wake-up polls, the release, and a run from the released state. */
  lemma BootRunSplit(waking: seq<Sample>, release: Sample, holding: seq<Sample>, period: TickPeriod)
    requires AllPressed(waking) && !PowerPressed(release.io)
    ensures var r := Run(Boot, waking + [release] + holding, period);
      && r[..|waking|] == Run(Boot, waking, period)
      && r[|waking|] == PollResult(PowerState(false, false, 0), PadMask(release.io), false)
      && r[|waking| + 1..] == Run(PowerState(false, false, 0), holding, period)
  {
    var rest := [release] + holding;
    assert waking + [release] + holding == waking + rest;
    WakePressThen(Boot, waking, rest, period);
    RunCons(Boot, rest, period);
    assert rest[1..] == holding;
    var rw := Run(Boot, waking, period);
    var r := Run(Boot, waking + rest, period);
    assert r == rw + Run(Boot, rest, period);
    assert r[|waking|..] == Run(Boot, rest, period);
    assert r[|waking| + 1..] == Run(Boot, rest, period)[1..];
  }

  /**
   * From boot: however long the wake-up press lasts, it is never reported and
   * never forces a power-down; the release ends it; a following press is
   * reported from its first poll and asks for the power-down exactly on the
   * polls more than six seconds after that one.
   */
  lemma BootThenHold(waking: seq<Sample>, release: Sample, holding: seq<Sample>, period: TickPeriod)
    requires AllPressed(waking) && !PowerPressed(release.io) && AllPressed(holding) && holding != []
    ensures var r := Run(Boot, waking + [release] + holding, period);
      && (forall k :: 0 <= k < |waking| ==> r[k] == PollResult(Boot, PadMask(waking[k].io), false))
      && r[|waking|] == PollResult(PowerState(false, false, 0), PadMask(release.io), false)
      && (forall k :: 0 <= k < |holding| ==>
            && r[|waking| + 1 + k].mask == PAD_POWER | PadMask(holding[k].io)
            && r[|waking| + 1 + k].powerDown ==
                 (Elapsed(holding[k].now, holding[0].now) > MsToTicks(FORCE_OFF_MS, period)))
  {
    BootRunSplit(waking, release, holding, period);
    WakePressIgnored(Boot, waking, period);
    NewPressTimed(0, holding, period);
    BootRunRead(Run(Boot, waking + [release] + holding, period), Run(Boot, waking, period),
                Run(PowerState(false, false, 0), holding, period), waking, release, holding, period);
  }

  /** BootThenHold read off a run that is already split into its three parts. */
  lemma BootRunRead(r: seq<PollResult>, rw: seq<PollResult>, rh: seq<PollResult>,
                    waking: seq<Sample>, release: Sample, holding: seq<Sample>, period: TickPeriod)
    requires |rw| == |waking| && |rh| == |holding| && holding != [] && |r| == |waking| + 1 + |holding|
    requires r[..|waking|] == rw && r[|waking| + 1..] == rh
    requires r[|waking|] == PollResult(PowerState(false, false, 0), PadMask(release.io), false)
    requires forall k :: 0 <= k < |waking| ==> rw[k] == PollResult(Boot, PadMask(waking[k].io), false)
    requires forall k :: 0 <= k < |holding| ==>
               && rh[k].mask == PAD_POWER | PadMask(holding[k].io)
               && rh[k].powerDown == (Elapsed(holding[k].now, holding[0].now) > MsToTicks(FORCE_OFF_MS, period))
    ensures && (forall k :: 0 <= k < |waking| ==> r[k] == PollResult(Boot, PadMask(waking[k].io), false))
            && r[|waking|] == PollResult(PowerState(false, false, 0), PadMask(release.io), false)
            && (forall k :: 0 <= k < |holding| ==>
                  && r[|waking| + 1 + k].mask == PAD_POWER | PadMask(holding[k].io)
                  && r[|waking| + 1 + k].powerDown ==
                       (Elapsed(holding[k].now, holding[0].now) > MsToTicks(FORCE_OFF_MS, period)))
  {
    forall k | 0 <= k < |waking| ensures r[k] == rw[k] {}
    forall k | 0 <= k < |holding| ensures r[|waking| + 1 + k] == rh[k] {}
  }

  /**
   * The joypad read's persistent state: the three static variables of the
   * source, owned by the one thread that polls the buttons.
   */
  class PowerButtonTracker {
    var initial: bool
    var powerWasPressed: bool
    var powerPressedTime: Tick
    const tickPeriodMs: TickPeriod

    /** The tracker as it is at boot. */
    constructor (tickPeriodMs: TickPeriod)
      ensures State() == Boot && this.tickPeriodMs == tickPeriodMs
    {
      initial := true;
      powerWasPressed := false;
      powerPressedTime := 0;
      this.tickPeriodMs := tickPeriodMs;
    }

    /** The three variables as one value. */
    function State(): (st: PowerState)
      reads this
    {
      PowerState(initial, powerWasPressed, powerPressedTime)
    }

    /**
     * The power-button part of the joypad read, on the level of the power
     * line: updates the three variables and says whether the power bit is
     * reported and whether the power-down is due.
     */
    method UpdatePower(pressed: bool, now: Tick) returns (power: bool, powerDown: bool)
      modifies this
      ensures PowerOutcome(State(), power, powerDown) == PowerStep(old(State()), pressed, now, tickPeriodMs)
    {
      power, powerDown := false, false;
      if pressed {
        if !initial {
          power := true;
          if !powerWasPressed {
            powerPressedTime := now;
          }
          // The source's two-second check has an empty body and is left out.
          if Elapsed(now, powerPressedTime) > MsToTicks(FORCE_OFF_MS, tickPeriodMs) {
            powerDown := true;
          }
          powerWasPressed := true;
        }
      } else {
        initial := false;
        powerWasPressed := false;
      }
    }
    /**
     * One joypad read on snapshot `io` at tick `now`: returns the button mask
     * and whether the power-down must now run.
     */
    method Poll(io: bv64, now: Tick) returns (mask: bv32, powerDown: bool)
      modifies this
      ensures PollResult(State(), mask, powerDown) == Step(old(State()), io, now, tickPeriodMs)
    {
      var power;
      power, powerDown := UpdatePower(io & GPIO_BTN_PWR != 0, now);
      var i: bv32 := if power then 0x100 else 0;
      ghost var p := i;
      i := OrIfLow(i, io, GPIO_BTN_RIGHT, PAD_RIGHT);
      i := OrIfLow(i, io, GPIO_BTN_LEFT, PAD_LEFT);
      i := OrIfLow(i, io, GPIO_BTN_UP, PAD_UP);
      i := OrIfLow(i, io, GPIO_BTN_DOWN, PAD_DOWN);
      i := OrIfLow(i, io, GPIO_BTN_SELECT, PAD_SELECT);
      i := OrIfLow(i, io, GPIO_BTN_START, PAD_START);
      i := OrIfLow(i, io, GPIO_BTN_A, PAD_A);
      i := OrIfLow(i, io, GPIO_BTN_B, PAD_B);
      assert i == AddPads(p, io);
      PadsAlone(io);
      mask := i;
    }

  }
}
