# Console I/O layer: buttons, power hold, charger, display link, power-down

This project models the decision logic of the I/O layer (`main/io.c`) of a
handheld console built on a dual-core microcontroller. The model is in Dafny,
and it proves properties of that logic. Every decision the layer takes on
its input lines (buttons, power button, charger) is made on one 64-bit input
snapshot: GPIO32..39 sit in the upper half and GPIO0..31 in the lower half.

- **Gpio** (`gpio.dfy`): the line masks of board revision 1 and the
  snapshot `(bank1 << 32) | bank0`.
- **Buttons** (`buttons.dfy`): the button remap. Each of the eight
  active-low pad lines becomes one bit of the emulator's pad mask. `PadMask`
  is the reference definition. `AddPads` is the chain of eight
  test-and-`|=` steps that the joypad read performs.
- **PowerButton** (`power_button.dfy`): the power-hold state machine of the
  joypad read.
  - The class `PowerButtonTracker` holds the three static variables of the
    source: `initial`, `powerWasPressed` and `powerPressedTime`.
  - `PowerButtonTracker.Poll` is one call of the joypad read. It returns the
    mask and whether the power-down is due.
  - The pure `PowerStep` / `Step` / `Run` specify one poll and a series of
    polls. The lemmas about them cover the wake-up press, the latched start
    tick, the strict six-second threshold and tick-counter wraparound.
- **Charge** (`charge.dfy`): the three-way charge status decoder.
- **Oled** (`oled.dfy`): the display link.
  - The output register with its write-1-to-set and write-1-to-clear ports.
  - The SPI pre-transfer hook that drives the data/command (D/C) line.
  - The send routine, which issues one SPI transaction, or none for a count
    of 0.
- **PowerDown** (`power_down.dfy`): the power-down.
  - A wait loop over the snapshots it samples, until the power button is
    released.
  - Then, in this order: the write that switches the 14V generator off, the
    wake-up arming on GPIO32 and GPIO36 ("any high"), and the sleep calls.
    All of them are recorded as actions, and the rail write also changes the
    output register.

Modelling choices:

- Ticks are the 32-bit unsigned tick count, as integers `0 .. 2^32-1`.
  Elapsed time is `(now - start) mod 2^32`, which is the unsigned 32-bit
  subtraction of the source.
- The tick period in milliseconds is a positive parameter of the tracker.
  Thresholds are `ms / period`, rounded down.
- The input registers and the tick counter are inputs: a snapshot `io` and
  one tick `now` per poll. The source reads the tick counter up to three
  times in one poll; the model reads it once.
- The pad-bit values come from the emulator's header (`hw.h`), which is not
  part of this model. The model uses that header's values, 0x01..0x80 for
  RIGHT, LEFT, UP, DOWN, A, B, SELECT, START. Both `PadMask` and `AddPads`
  are written with these constant names, not with bit positions.
  `PadBitsDistinct` records that the values are eight distinct single bits
  below 0x100.
- `io.h` is not part of this model. The three charge results are a
  datatype, not the header's integer codes.
- The source calls the power-down from inside the joypad read, and that call
  never returns. The model returns a `powerDown` flag instead and finishes the
  poll, setting `powerWasPressed` as a poll that does not power down does. So
  polls after a poll that requests the power-down describe nothing the
  program does.
- The SPI driver is not part of this model. `OledLink.Transmit` models
  `spi_device_transmit` with the hook installed: the hook runs, then the
  transaction is appended to the log of sent transactions. A ghost log,
  `dcOut`, records the level of the D/C line at the moment each transaction
  is clocked out.

Facts about the code that the model keeps:

- The code powers down only when the elapsed ticks are strictly greater than
  `6000 / period`, so a hold of exactly six seconds does not
  (`ForceOffBoundary`).
- The two-second check has an empty body, so it is not modelled.
- On board revision 1 the 14V enable (line 17) is an open-drain, active-low
  line. The power-down writes it to the set port before sleeping, and that
  switches the 14V generator off.
- The wake-up condition is a level, not an edge: the console wakes while the
  power button is pressed or while a charger is present (`WakesOnPowerOrCharger`).
  So a power-down with a charger attached meets the condition as soon as it is
  armed. What the sleep entry then does is not part of this model.

## Model

| member | source | states |
|---|---|---|
| Gpio.Snapshot | main/io.c:115 | the snapshot's upper 32 bits are bank 1 and its lower 32 bits are bank 0 |
| Gpio.SnapshotLine | main/io.c:115 | line k of the snapshot is bit k of bank 0 for k < 32, and bit k-32 of bank 1 otherwise |
| Gpio.MaskIsLine | main/io.c:18-29 | testing a snapshot against a single-line mask `1 << k` is reading line k |
| Charge.ChgStatus | main/io.c:96-107 | no charger exactly when line 36 is low, charging exactly when 36 is high and 19 low, full exactly when both are high |
| Charge.ChgStatusReadsOnlyChargerLines | main/io.c:96-107 | two snapshots that agree on lines 36 and 19 get the same status, so no other line matters |
| Charge.ChgStatusOfBanks | main/io.c:97-106 | the status, in terms of the two input registers: bit 4 of bank 1 and bit 19 of bank 0 |
| Buttons.PadMask | main/io.c:134-141 | the pad mask has no bit outside the eight pad bits |
| Buttons.PadMaskLines | main/io.c:134-141 | each pad bit is set exactly when its button line (21, 39, 34, 35, 25, 27, 16, 4) reads low |
| Buttons.PadMaskTable | main/io.c:19-27 | the same, by table: button k's pad bit is set exactly when line ButtonPins[k] is low |
| Buttons.AddPads | main/io.c:134-141 | the eight test-and-`|=` steps, in the source's order, add exactly the pad mask to whatever the mask held before |
| Buttons.PadsAlone | main/io.c:134-141 | from an empty mask, the eight steps give the pad mask itself |
| Buttons.PadBitsDistinct | main/io.c:134-141 | the remap is one-to-one: eight distinct lines onto eight disjoint single bits inside 0xFF, apart from the power bit 0x100 |
| Buttons.PadMaskReadsOnlyButtons | main/io.c:134-141 | snapshots that agree on the eight button lines give the same pad mask |
| Buttons.OneButtonPressed | main/io.c:134-141 | with every button line high but button k's, the pad mask is button k's bit alone |
| PowerButton.Elapsed | main/io.c:122-125 | `now - start` in uint32: a duration that, added to start modulo 2^32, gives now |
| PowerButton.ElapsedMeasures | main/io.c:114-125 | any duration below 2^32 is measured exactly, also when the tick counter wraps in between |
| PowerButton.PowerStep | main/io.c:116-133 | power bit exactly for a press after the wake-up; a wake-up press changes nothing; a release clears `initial` and `powerWasPressed`; the start tick moves only on the release-to-press edge, to `now`; power-down exactly when a press already seen by an earlier poll has lasted strictly longer than 6000/period ticks (so never on a press's first poll) |
| PowerButton.Step | main/io.c:110-144 | one whole joypad read: the returned mask holds 0x100 exactly when the button is pressed and `initial` is clear, holds the snapshot's pad mask in its low eight bits, and holds nothing else |
| PowerButton.PadsIgnorePowerState | main/io.c:117-141 | the pad bits of a poll do not depend on the power state or the tick |
| PowerButton.ForceOffAfter | main/io.c:120-127 | d ticks into a held press, power-down is requested exactly when d > 6000/period, across wraparound too |
| PowerButton.ForceOffBoundary | main/io.c:125 | the threshold is strict: no power-down at exactly 6000/period ticks, power-down one tick later |
| PowerButton.Run | main/io.c:110-144 | a series of polls yields one result per poll, and the first is one poll of the joypad read from the starting state |
| PowerButton.WakePressIgnored | main/io.c:116-119 | however long the wake-up press lasts, no poll of it reports the power bit, asks for the power-down or changes the state |
| PowerButton.WakePressThen | main/io.c:116-119 | the polls of the wake-up press leave the state alone, so what follows runs as if they never happened |
| PowerButton.HeldPressMeasured | main/io.c:120-128 | once a press is latched at t0, every further pressed poll keeps t0, reports 0x100, and asks for the power-down exactly when `now - t0` exceeds the threshold |
| PowerButton.NewPressTimed | main/io.c:120-128 | a press after a release latches its first poll's tick: every poll of it leaves the state "pressed, started at that tick", reports 0x100, and asks for the power-down exactly when more than the threshold has passed since then |
| PowerButton.BootRunSplit | main/io.c:116-133 | a run from boot splits into the wake-up polls, the release (which resets the state) and a run from the released state |
| PowerButton.BootThenHold | main/io.c:110-144 | from boot, wake-up press then release then press: the wake-up press is never reported and never powers down, and the new press is timed from its own first poll |
| PowerButton.PowerButtonTracker.constructor | main/io.c:112-114 | the three variables start as at boot: `initial` set, no press seen |
| PowerButton.PowerButtonTracker.UpdatePower | main/io.c:117-133 | the power-button part of one poll updates the three variables and returns the power bit and the power-down flag as `PowerStep` gives them |
| PowerButton.PowerButtonTracker.Poll | main/io.c:110-144 | one joypad read: the new variables, the mask and the power-down flag are those of `Step` on the old variables |
| Oled.SetBits | main/io.c:80 | a write to the set port makes the written bits 1 and keeps every other bit |
| Oled.ClearBits | main/io.c:80 | a write to the clear port makes the written bits 0 and keeps every other bit |
| Oled.DcLevel | main/io.c:77-81 | after the hook, the D/C line (bit 22) is high exactly when `dc != 0`, and every other output line is unchanged |
| Oled.DcLevelIdempotent | main/io.c:77-81 | running the hook twice for one transaction ends where running it once does |
| Oled.DcLevelOnlyZeroMatters | main/io.c:79-80 | the hook looks only at whether the user word is zero |
| Oled.OutputRegister.WriteW1ts | main/io.c:80 | a write to the set port sets exactly the written bits |
| Oled.OutputRegister.WriteW1tc | main/io.c:80 | a write to the clear port clears exactly the written bits |
| Oled.TotalBitsCountsBytes | main/io.c:89-90 | when every transaction's length is eight times its byte count, the announced bits are eight per byte clocked out |
| Oled.PreTransferCallback | main/io.c:77-81 | the hook leaves the output register at `DcLevel` of its old level and the transaction's user word |
| Oled.OledLink.Transmit | main/io.c:92 | the transaction is appended to those sent, and it is clocked out with the D/C line at its own flag (`dcOut` grows by `t.user != 0`), so the hook has run first; the register ends as the hook leaves it |
| Oled.OledLink.Send | main/io.c:84-94 | count 0 sends nothing and leaves the D/C line alone; otherwise exactly one transaction, of `count*8` bits over the first `count` bytes with user word `dc`, and the D/C line shows `dc`; the bytes clocked out grow by exactly `data[..count]`; every sent transaction is well formed and went out with the D/C line at its flag, and the D/C line shows the last one's flag |
| PowerDown.WakeLinesAre | main/io.c:163 | the wake-up mask holds exactly lines 32 and 36 |
| PowerDown.WakeLinesEither | main/io.c:163 | a snapshot is high on the wake-up mask exactly when it is high on line 32 or on line 36 |
| PowerDown.WakesOnPowerOrCharger | main/io.c:163 | armed "any high" on that mask, the console wakes exactly when the power button is pressed or a charger is present (`ChgStatus` is not `NoCharger`) |
| PowerDown.FirstRelease | main/io.c:150-154 | the index found shows the button released and every earlier sample shows it pressed; with no index found, every sample shows it pressed |
| PowerDown.FirstReleaseIs | main/io.c:150-154 | a released sample with only pressed samples before it is the first release |
| PowerDown.NoRelease | main/io.c:150-154 | samples that all show the button pressed have no first release |
| PowerDown.PowerDown | main/io.c:147-192 | the loop stops just after the first released sample; it then switches the 14V generator off by writing line 17 to the set port, and arms ext1 wake-up on lines 32 and 36 "any high", turns off RTC fast memory and starts deep sleep, recorded in that order with the rail write first; with no release it samples everything and does nothing else |

## Left out

- `ioInit` (pin muxing, GPIO configuration, SPI bus and device parameters, display reset and rail timing) is hardware set-up with no decision logic.
- `vTaskDelay` calls, `printf` diagnostics, `assert(ret==ESP_OK)` after the transmit, and the final `while(1)` halt are timing, I/O and fatal-halt code.
- The real register reads and the tick counter are inputs of the model: one snapshot, and one tick per poll.
- The sleep controller calls (`esp_deep_sleep_*`) are recorded only as actions in order. Sleep itself is not modelled.
- The commented-out wake-up and pad-hold code in the power-down is not modelled, and neither are the board-revision-0 branches. The board revision is fixed at 1.
- The display's pixel protocol and the SPI driver internals are not part of this model. The driver's transaction queue, DMA and timing are not modelled.
- PowerButton.PowerButtonTracker.Poll: the source calls the power-down (which never returns) from inside the poll. The model returns a flag instead and lets the poll finish.
- PowerDown.PowerDown: the source's wait loop never ends while the button stays pressed. The model runs over a finite series of samples and, when none shows a release, returns without powering down.
- Oled.OledLink.Send: requires `0 <= count <= |data|` and `count * 8` within the C `int` range. The source relies on its callers for both: the buffer must hold `count` bytes, and the multiplication must not overflow.
