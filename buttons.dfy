/**
 * The button remap of the joypad read: every active-low pad line of the
 * snapshot becomes one bit of the emulator's pad mask.
 */
module Buttons {
  import opened Gpio

  // The emulator's pad bits, with the values of its header (which is not part
  // of this model). PadMask and AddPads are both written with these names.
  const PAD_RIGHT: bv32 := 0x01
  const PAD_LEFT: bv32 := 0x02
  const PAD_UP: bv32 := 0x04
  const PAD_DOWN: bv32 := 0x08
  const PAD_A: bv32 := 0x10
  const PAD_B: bv32 := 0x20
  const PAD_SELECT: bv32 := 0x40
  const PAD_START: bv32 := 0x80

  /** All eight pad bits. */
  const PAD_ALL: bv32 := 0xFF
  /** The synthetic "power held" bit the joypad read adds above the pad bits. */
  const PAD_POWER: bv32 := 0x100

  /** Button `k` is wired to line ButtonPins[k] and reported as PadBits[k], in the order the joypad read tests them. */
  const ButtonPins: seq<Pin> := [21, 39, 34, 35, 25, 27, 16, 4]
  const PadBits: seq<bv32> := [PAD_RIGHT, PAD_LEFT, PAD_UP, PAD_DOWN, PAD_SELECT, PAD_START, PAD_A, PAD_B]

  /** All eight button lines. */
  const GPIO_BUTTONS: bv64 :=
    GPIO_BTN_RIGHT | GPIO_BTN_LEFT | GPIO_BTN_UP | GPIO_BTN_DOWN |
    GPIO_BTN_SELECT | GPIO_BTN_START | GPIO_BTN_A | GPIO_BTN_B

  /** Pad bit `pad` when line `k` of the snapshot reads low, else no bit. */
  function IfLow(io: bv64, k: Pin, pad: bv32): (b: bv32)
  {
    if Bit(io, k) then 0 else pad
  }

  /**
   * The pad mask of a snapshot, as the emulator sees it. Reference definition:
   * the inverted level of each button line, moved to the position of its pad
   * bit; PadMaskLines states it line by line.
   */
  function PadMask(io: bv64): (i: bv32)
    ensures i & !PAD_ALL == 0
  {
    IfLow(io, 21, PAD_RIGHT) | IfLow(io, 39, PAD_LEFT) | IfLow(io, 34, PAD_UP) | IfLow(io, 35, PAD_DOWN) |
    IfLow(io, 25, PAD_SELECT) | IfLow(io, 27, PAD_START) | IfLow(io, 16, PAD_A) | IfLow(io, 4, PAD_B)
  }

  /** Each pad bit is set exactly when its button line reads low: the buttons are active low. */
  lemma PadMaskLines(io: bv64)
    ensures var i := PadMask(io);
      && ((i & PAD_RIGHT != 0) <==> !Bit(io, 21))
      && ((i & PAD_LEFT != 0) <==> !Bit(io, 39))
      && ((i & PAD_UP != 0) <==> !Bit(io, 34))
      && ((i & PAD_DOWN != 0) <==> !Bit(io, 35))
      && ((i & PAD_SELECT != 0) <==> !Bit(io, 25))
      && ((i & PAD_START != 0) <==> !Bit(io, 27))
      && ((i & PAD_A != 0) <==> !Bit(io, 16))
      && ((i & PAD_B != 0) <==> !Bit(io, 4))
  {
  }

  /** One line of the remap: `if (!(io & line)) i |= pad;`. */
  function OrIfLow(i: bv32, io: bv64, line: bv64, pad: bv32): (r: bv32)
  {
    i | (if io & line == 0 then pad else 0)
  }

  /**
   * The remap as the joypad read performs it, one active-low test and one `|=`
   * per button, in its order. The eight steps add exactly the pad mask to
   * whatever the mask held before.
   */
  function AddPads(i: bv32, io: bv64): (r: bv32)
    ensures r == i | PadMask(io)
  {
    var i := OrIfLow(i, io, GPIO_BTN_RIGHT, PAD_RIGHT);
    var i := OrIfLow(i, io, GPIO_BTN_LEFT, PAD_LEFT);
    var i := OrIfLow(i, io, GPIO_BTN_UP, PAD_UP);
    var i := OrIfLow(i, io, GPIO_BTN_DOWN, PAD_DOWN);
    var i := OrIfLow(i, io, GPIO_BTN_SELECT, PAD_SELECT);
    var i := OrIfLow(i, io, GPIO_BTN_START, PAD_START);
    var i := OrIfLow(i, io, GPIO_BTN_A, PAD_A);
    OrIfLow(i, io, GPIO_BTN_B, PAD_B)
  }

  /** Starting from an empty mask, the eight steps give the pad mask itself. */
  lemma PadsAlone(io: bv64)
    ensures AddPads(0, io) == PadMask(io)
  {
  }

  /** The same, read from the wiring table: button `k`'s bit is set exactly when line ButtonPins[k] is low. */
  lemma PadMaskTable(io: bv64)
    ensures forall k :: 0 <= k < |ButtonPins| ==> ((PadMask(io) & PadBits[k] != 0) <==> !Bit(io, ButtonPins[k]))
  {
    PadMaskLines(io);
  }

  /**
   * The remap is one-to-one: the eight lines are distinct, and the eight pad
   * bits are distinct single bits inside PAD_ALL.
   */
  lemma PadBitsDistinct()
    ensures |ButtonPins| == |PadBits| == 8
    ensures forall j, k :: 0 <= j < k < 8 ==> ButtonPins[j] != ButtonPins[k] && PadBits[j] & PadBits[k] == 0
    ensures forall k :: 0 <= k < 8 ==> PadBits[k] != 0 && PadBits[k] & (PadBits[k] - 1) == 0 && PadBits[k] & !PAD_ALL == 0
    ensures PAD_ALL & PAD_POWER == 0
  {
  }

  /** The pad mask reads only the button lines. */
  lemma PadMaskReadsOnlyButtons(a: bv64, b: bv64)
    requires a & GPIO_BUTTONS == b & GPIO_BUTTONS
    ensures PadMask(a) == PadMask(b)
  {
  }

  /** With every button line high except that of button `k`, the mask holds that button's bit alone. */
  lemma OneButtonPressed(io: bv64, k: nat)
    requires k < 8
    requires io & GPIO_BUTTONS == GPIO_BUTTONS & !(1 << ButtonPins[k])
    ensures PadMask(io) == PadBits[k]
  {
  }
}
