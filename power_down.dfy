/**
 * The power-down: wait until the power button is let go, switch the 14V rail off,
 * arm the wake-up on the power button and the charger, and enter deep sleep.
 */
module PowerDown {
  import opened Gpio
  import opened Charge
  import opened Oled
  import opened PowerButton

  /** The wake-up condition the power-down arms: some armed line reads high. */
  datatype WakeMode = AnyHigh

  /** Whether snapshot `io` wakes a controller armed on `lines` with `mode`. */
  predicate Wakes(lines: bv64, mode: WakeMode, io: bv64)
  {
    match mode
    case AnyHigh => io & lines != 0
  }

  datatype PowerDomain = RtcFastMem
  datatype DomainOption = DomainOff

  /** The writes and calls of the power-down once the button is released, in the order they are made. */
  datatype SleepAction =
    | SetOutputBits(bits: bv32)
    | EnableExt1Wakeup(lines: bv64, mode: WakeMode)
    | PdConfig(domain: PowerDomain, option: DomainOption)
    | DeepSleepStart

  /** The lines that wake the console: the power button and the charger-standby line. */
  const WAKE_LINES: bv64 := GPIO_BTN_PWR | GPIO_CHGSTDBY

  /**
   * What the power-down does once the button is released: switch the 14V
   * generator off through the set port, then arm and start the sleep controller.
   */
  const ArmSequence: seq<SleepAction> :=
    [SetOutputBits(GPIO_14VEN), EnableExt1Wakeup(WAKE_LINES, AnyHigh), PdConfig(RtcFastMem, DomainOff), DeepSleepStart]

  /** The wake-up lines are exactly GPIO32 and GPIO36. */
  lemma WakeLinesAre(k: Pin)
    ensures (WAKE_LINES & (1 << k) != 0) <==> (k == 32 || k == 36)
  {
  }

  /**
   * The armed console wakes exactly when the power button is pressed or a USB
   * supply is plugged in, whatever the other lines read.
   */
  lemma WakesOnPowerOrCharger(io: bv64)
    ensures Wakes(WAKE_LINES, AnyHigh, io) <==> PowerPressed(io) || ChgStatus(io) != NoCharger
  {
    WakeLinesEither(io);
  }

  /** A snapshot is high on some wake-up line exactly when it is high on one of the two. */
  lemma WakeLinesEither(io: bv64)
    ensures (io & WAKE_LINES != 0) == (io & GPIO_BTN_PWR != 0 || io & GPIO_CHGSTDBY != 0)
  {
  }

  /** Where the button is first seen released in a series of samples, if anywhere. */
  datatype Release = ReleasedAt(index: nat) | StillPressed

  /** The first sample showing the power button released. */
  function FirstRelease(samples: seq<bv64>): (r: Release)
    ensures r.ReleasedAt? ==>
              && r.index < |samples|
              && !PowerPressed(samples[r.index])
              && forall i :: 0 <= i < r.index ==> PowerPressed(samples[i])
    ensures r.StillPressed? ==> forall i :: 0 <= i < |samples| ==> PowerPressed(samples[i])
    decreases |samples|
  {
    if samples == [] then StillPressed
    else if !PowerPressed(samples[0]) then ReleasedAt(0)
    else
      match FirstRelease(samples[1..])
      case ReleasedAt(j) => ReleasedAt(j + 1)
      case StillPressed => StillPressed
  }

  /** A released sample preceded only by pressed ones is the first release. */
  lemma FirstReleaseIs(samples: seq<bv64>, j: nat)
    requires j < |samples| && !PowerPressed(samples[j])
    requires forall i :: 0 <= i < j ==> PowerPressed(samples[i])
    ensures FirstRelease(samples) == ReleasedAt(j)
  {
  }

  /** A series of samples that never shows the button released has no first release. */
  lemma NoRelease(samples: seq<bv64>)
    requires forall i :: 0 <= i < |samples| ==> PowerPressed(samples[i])
    ensures FirstRelease(samples) == StillPressed
  {
  }

  /**
   * The power-down over the snapshots the wait loop samples. Once a sample
   * shows the button released, the loop stops after that sample; the 14V
   * generator is switched off (its enable line is written to the set port) and
   * the sleep controller is armed and
   * started. While every sample shows the button pressed the loop keeps
   * waiting, so nothing else happens.
   */
  method PowerDown(samples: seq<bv64>, gpio: OutputRegister) returns (polled: nat, actions: seq<SleepAction>)
    modifies gpio
    ensures FirstRelease(samples).ReleasedAt? ==>
              && polled == FirstRelease(samples).index + 1
              && gpio.level == SetBits(old(gpio.level), GPIO_14VEN)
              && actions == ArmSequence
    ensures FirstRelease(samples).StillPressed? ==>
              polled == |samples| && gpio.level == old(gpio.level) && actions == []
  {
    polled := 0;
    actions := [];
    var released := false;
    while polled < |samples|
      invariant polled <= |samples|
      invariant forall i :: 0 <= i < polled ==> PowerPressed(samples[i])
      decreases |samples| - polled
    {
      var io := samples[polled];
      if io & GPIO_BTN_PWR == 0 {
        released := true;
        break;
      }
      polled := polled + 1;
    }
    if !released {
      NoRelease(samples);
      return;
    }
    FirstReleaseIs(samples, polled);
    polled := polled + 1;
    gpio.WriteW1ts(GPIO_14VEN);
    actions := actions + [SetOutputBits(GPIO_14VEN)];
    actions := actions + [EnableExt1Wakeup(WAKE_LINES, AnyHigh)];
    actions := actions + [PdConfig(RtcFastMem, DomainOff)];
    actions := actions + [DeepSleepStart];
  }
}
