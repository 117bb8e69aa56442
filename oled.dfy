/**
 * The display link: the general-purpose output register with its
 * write-1-to-set / write-1-to-clear ports, the SPI pre-transfer hook that
 * drives the display's data/command line from the transaction, and the send
 * routine that turns a byte buffer into one SPI transaction.
 */
module Oled {
  import opened Gpio

  /** Writing `bits` to the set port: those bits become 1, every other bit keeps its level. */
  function SetBits(level: bv32, bits: bv32): (r: bv32)
    ensures r & bits == bits
    ensures r & !bits == level & !bits
  {
    level | bits
  }

  /** Writing `bits` to the clear port: those bits become 0, every other bit keeps its level. */
  function ClearBits(level: bv32, bits: bv32): (r: bv32)
    ensures r & bits == 0
    ensures r & !bits == level & !bits
  {
    level & !bits
  }

  /** D/C line high selects display data, low selects a command. */
  predicate DcHigh(level: bv32)
  {
    level & GPIO_OLED_DC != 0
  }

  /**
   * The output level after the pre-transfer hook ran for a transaction
   * carrying `dc`: the D/C line high exactly when `dc` is non-zero, every other
   * output line as it was.
   */
  function DcLevel(level: bv32, dc: int): (r: bv32)
    ensures DcHigh(r) <==> dc != 0
    ensures r & !GPIO_OLED_DC == level & !GPIO_OLED_DC
  {
    if dc != 0 then SetBits(level, GPIO_OLED_DC) else ClearBits(level, GPIO_OLED_DC)
  }

  /** Running the hook twice for the same transaction changes nothing the first run did not. */
  lemma DcLevelIdempotent(level: bv32, dc: int)
    ensures DcLevel(DcLevel(level, dc), dc) == DcLevel(level, dc)
  {
  }

  /** The hook only looks at whether `dc` is zero. */
  lemma DcLevelOnlyZeroMatters(level: bv32, dc1: int, dc2: int)
    requires (dc1 == 0) == (dc2 == 0)
    ensures DcLevel(level, dc1) == DcLevel(level, dc2)
  {
  }

  /**
   * The output register of GPIO0..31 as the set and clear ports change it.
   */
  class OutputRegister {
    var level: bv32

    constructor (level: bv32)
      ensures this.level == level
    {
      this.level := level;
    }

    /** A write to the write-1-to-set port. */
    method WriteW1ts(bits: bv32)
      modifies this
      ensures level == SetBits(old(level), bits)
    {
      level := level | bits;
    }

    /** A write to the write-1-to-clear port. */
    method WriteW1tc(bits: bv32)
      modifies this
      ensures level == ClearBits(old(level), bits)
    {
      level := level & !bits;
    }
  }

  /**
   * One SPI transaction: its length in bits, the bytes it clocks out, and the
   * user word, which the display send uses for the D/C flag. Every other field
   * of the driver's transaction record is left zero by the send.
   */
  datatype Transaction = Transaction(length: int, txBuffer: seq<bv8>, user: int)

  /** The length field counts exactly the bits of the buffer. */
  ghost predicate WellFormed(t: Transaction)
  {
    t.length == 8 * |t.txBuffer|
  }

  /** The bytes a sequence of transactions clocks out, in order. */
  function Bytes(log: seq<Transaction>): (bytes: seq<bv8>)
    decreases |log|
  {
    if log == [] then [] else Bytes(log[..|log| - 1]) + log[|log| - 1].txBuffer
  }

  /** The bits a sequence of transactions announces in its length fields. */
  function TotalBits(log: seq<Transaction>): (bits: int)
    decreases |log|
  {
    if log == [] then 0 else TotalBits(log[..|log| - 1]) + log[|log| - 1].length
  }

  /** When every transaction is well formed, the announced bits are eight per byte clocked out. */
  lemma {:induction false} TotalBitsCountsBytes(log: seq<Transaction>)
    requires forall i :: 0 <= i < |log| ==> WellFormed(log[i])
    ensures TotalBits(log) == 8 * |Bytes(log)|
    decreases |log|
  {
    if log != [] {
      TotalBitsCountsBytes(log[..|log| - 1]);
    }
  }

  /** The largest value of the 32-bit C `int` the send computes the bit length in. */
  const INT_MAX: int := 0x7FFF_FFFF

  /** The pre-transfer hook: drives the D/C line from the transaction's user word before the bytes go out. */
  method PreTransferCallback(gpio: OutputRegister, t: Transaction)
    modifies gpio
    ensures gpio.level == DcLevel(old(gpio.level), t.user)
  {
    var dc := t.user;
    if dc != 0 {
      gpio.WriteW1ts(GPIO_OLED_DC);
    } else {
      gpio.WriteW1tc(GPIO_OLED_DC);
    }
  }

  /**
   * The SPI device of the display, with the pre-transfer hook installed: the
   * transactions sent so far, the level of the D/C line each of them was
   * clocked out with, and the output register the hook writes.
   */
  class OledLink {
    const gpio: OutputRegister
    var sent: seq<Transaction>
    ghost var dcOut: seq<bool>

    constructor (gpio: OutputRegister)
      ensures this.gpio == gpio && sent == [] && dcOut == []
      ensures Valid()
    {
      this.gpio := gpio;
      sent := [];
      dcOut := [];
    }

    /**
     * Every transaction sent so far is well formed and went out with the D/C
     * line at its flag, and the D/C line still shows the flag of the last one.
     */
    ghost predicate Valid()
      reads this, gpio
    {
      && |dcOut| == |sent|
      && (forall i :: 0 <= i < |sent| ==> WellFormed(sent[i]))
      && (forall i :: 0 <= i < |sent| ==> (dcOut[i] <==> sent[i].user != 0))
      && (sent != [] ==> (DcHigh(gpio.level) <==> sent[|sent| - 1].user != 0))
    }

    /**
     * The driver's blocking transmit: the hook runs, then the transaction is
     * clocked out with the D/C line as the hook left it.
     */
    method Transmit(t: Transaction)
      modifies this, gpio
      ensures sent == old(sent) + [t]
      ensures dcOut == old(dcOut) + [t.user != 0]
      ensures gpio.level == DcLevel(old(gpio.level), t.user)
    {
      PreTransferCallback(gpio, t);
      sent := sent + [t];
      dcOut := dcOut + [DcHigh(gpio.level)];
    }

    /**
     * Sends the first `count` bytes of `data` with D/C flag `dc`: nothing at
     * all for a count of 0, otherwise exactly one transaction whose length is
     * the count in bits and whose user word is the flag.
     */
    method Send(data: seq<bv8>, count: int, dc: int)
      requires 0 <= count <= |data| && count * 8 <= INT_MAX
      requires Valid()
      modifies this, gpio
      ensures Valid()
      ensures count == 0 ==> sent == old(sent) && dcOut == old(dcOut) && gpio.level == old(gpio.level)
      ensures count != 0 ==> sent == old(sent) + [Transaction(count * 8, data[..count], dc)]
      ensures count != 0 ==> dcOut == old(dcOut) + [dc != 0]
      ensures count != 0 ==> gpio.level == DcLevel(old(gpio.level), dc)
      ensures Bytes(sent) == Bytes(old(sent)) + data[..count]
    {
      if count == 0 {
        assert data[..count] == [];
        return;
      }
      var t := Transaction(count * 8, data[..count], dc);
      Transmit(t);
      assert sent[..|sent| - 1] == old(sent);
    }
  }
}
