/**
 * The GPIO lines the I/O layer of the console reads and drives (board revision 1),
 * and the 64-bit input snapshot that every decision of the layer on its input
 * lines (buttons, power button, charger) is made on.
 *
 * GPIO0..31 are read from one 32-bit input register and GPIO32..39 from a second
 * one; the layer glues them together as `(bank1 << 32) | bank0` and then tests
 * bits of that word with the masks below.
 */
module Gpio {

  // Input lines. Every pad button pulls its line low when pressed.
  const GPIO_BTN_RIGHT: bv64 := 1 << 21
  const GPIO_BTN_LEFT: bv64 := 1 << 39
  const GPIO_BTN_UP: bv64 := 1 << 34
  const GPIO_BTN_DOWN: bv64 := 1 << 35
  const GPIO_BTN_B: bv64 := 1 << 4
  const GPIO_BTN_A: bv64 := 1 << 16
  const GPIO_BTN_SELECT: bv64 := 1 << 25
  const GPIO_BTN_START: bv64 := 1 << 27

  // The power button is wired the other way round: a pressed button reads high.
  const GPIO_BTN_PWR: bv64 := 1 << 32

  // Charger lines: charge-detect is low while the battery charges,
  // charger-standby is high while a USB supply is plugged in.
  const GPIO_CHGDET: bv64 := 1 << 19
  const GPIO_CHGSTDBY: bv64 := 1 << 36

  // Output lines (bank 0). The display's data/command select line, and the
  // active-low, open-drain enable of the 14V generator for the display and the
  // audio amplifier: driving it high switches the generator off.
  const GPIO_OLED_DC: bv32 := 1 << 22
  const GPIO_14VEN: bv32 := 1 << 17

  /** The number of a GPIO line, GPIO0..GPIO63 (the chip has 40 of them). */
  type Pin = k: bv64 | k < 64

  /** Line `k` reads high in snapshot `io`. */
  predicate Bit(io: bv64, k: Pin)
  {
    (io >> k) & 1 == 1
  }

  /**
   * The snapshot the layer reads: bank 1 (GPIO32..39) in the upper half and
   * bank 0 (GPIO0..31) in the lower half.
   */
  function Snapshot(bank1: bv32, bank0: bv32): (io: bv64)
    ensures (io >> 32) as bv32 == bank1
    ensures (io & 0xFFFF_FFFF) as bv32 == bank0
  {
    (bank1 as bv64 << 32) | bank0 as bv64
  }

  /** Line `k` of the snapshot is bit `k` of bank 0 below 32 and bit `k - 32` of bank 1 above. */
  lemma SnapshotLine(bank1: bv32, bank0: bv32, k: Pin)
    ensures Bit(Snapshot(bank1, bank0), k) <==>
              if k < 32 then (bank0 as bv64 >> k) & 1 == 1 else (bank1 as bv64 >> (k - 32)) & 1 == 1
  {
  }

  /** Testing against one of the single-line masks above is the same as reading that line. */
  lemma MaskIsLine(io: bv64, k: Pin)
    ensures (io & (1 << k) != 0) <==> Bit(io, k)
  {
  }
}
