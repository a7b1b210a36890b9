/**
 * The serial helpers of the ohm-meter firmware (Analog_Sensor_2.c): the baud-rate register
 * formula, the split of that 16-bit value over the two UBRR1 registers, the NUL-terminated
 * send loops and the receive poll that gives up after a fixed number of tries.
 */
module Usart {
  import opened CString

  const CLOCK: U32 := 16000000
  const BAUD_1: U16 := 9600
  /** The register value the dispatcher firmware hard-codes for 9600 baud. */
  const UBRR_9600: U16 := 103
  /** Failed polls after which the receive routine gives up. */
  const RX_TIMEOUT: nat := 16000

  /** The quotient of the baud formula, before the subtraction. */
  function Quotient(baud: U16, clockSpeed: U32): nat
    requires baud > 0
  {
    clockSpeed / (16 * baud)
  }

  /**
   * `clock_speed / (16 * baud) - 1` in unsigned 32-bit arithmetic, truncated to 16 bits.
   * `16 * baud` is below 2^20 and cannot overflow; the subtraction and the cast can.
   */
  function BaudCalc(baud: U16, clockSpeed: U32): (r: U16)
    requires baud > 0
    ensures 1 <= Quotient(baud, clockSpeed) <= 0x1_0000 ==> r + 1 == Quotient(baud, clockSpeed)
    ensures clockSpeed < 16 * baud ==> r == 0xFFFF
    ensures Quotient(baud, clockSpeed) >= 1 ==> r == (Quotient(baud, clockSpeed) - 1) % 0x1_0000
  {
    var q := Quotient(baud, clockSpeed);
    // q - 1 in unsigned 32-bit arithmetic: q is below 2^32, so only q == 0 wraps.
    var regValue: U32 := if q == 0 then 0xFFFF_FFFF else q - 1;
    regValue % 0x1_0000
  }

  /** The value the firmware computes for its own settings is the one the other firmware hard-codes. */
  lemma BaudCalcDefault()
    ensures BaudCalc(BAUD_1, CLOCK) == UBRR_9600
  {
  }

  lemma MulLe(d1: nat, d2: nat, q: nat)
    requires d1 <= d2
    ensures d1 * q <= d2 * q
  {
  }

  lemma MulGap(d: nat, a: int, b: int)
    ensures d * a == d * b + d * (a - b)
  {
  }

  lemma MulMono(d: nat, a: int, b: int)
    ensures a <= b ==> d * a <= d * b
  {
    MulGap(d, b, a);
  }

  /** `c / d` is the largest q with d * q <= c. */
  lemma DivIsLargest(c: nat, d: nat, q: nat)
    requires d > 0 && d * q <= c
    ensures q <= c / d
  {
    var m := c / d;
    assert c == d * m + c % d;
    MulGap(d, m + 1, m);
    MulMono(d, m + 1, q);
  }

  /** Where neither value wraps, a faster baud rate never gives a larger register value. */
  lemma BaudCalcAntitone(b1: U16, b2: U16, clockSpeed: U32)
    requires 0 < b1 <= b2
    requires 16 * b2 <= clockSpeed
    requires Quotient(b1, clockSpeed) <= 0x1_0000
    ensures BaudCalc(b2, clockSpeed) <= BaudCalc(b1, clockSpeed)
  {
    var q2 := Quotient(b2, clockSpeed);
    MulLe(16 * b1, 16 * b2, q2);
    assert 16 * b2 * q2 <= clockSpeed;
    DivIsLargest(clockSpeed, 16 * b1, q2);
    DivIsLargest(clockSpeed, 16 * b2, 1);
  }

  /** The 16-bit cast breaks that order for slow rates: 15 baud gives 1129, 16 baud gives 62499. */
  lemma BaudCalcTruncationNotAntitone()
    ensures BaudCalc(15, CLOCK) == 1129 && BaudCalc(16, CLOCK) == 62499
  {
  }

  /** `(uint8_t)(baud >> 8)`. */
  function UbrrHigh(baud: U16): U8 { baud / 256 }

  /** `(uint8_t)baud`. */
  function UbrrLow(baud: U16): U8 { baud % 256 }

  /** The two register halves put back together give the 16-bit value. */
  lemma UbrrSplit(baud: U16)
    ensures UbrrHigh(baud) * 256 + UbrrLow(baud) == baud
    ensures UbrrLow(baud) < 256
  {
  }

  /** The transmit side of USART1: the baud registers and every byte written to UDR1. */
  class Port {
    var ubrr1H: U8
    var ubrr1L: U8
    var sent: seq<Byte>

    constructor ()
      ensures sent == [] && ubrr1H == 0 && ubrr1L == 0
    {
      ubrr1H, ubrr1L, sent := 0, 0, [];
    }

    /** `init_USART`: programs the baud divisor; the frame-format and enable bits are not modelled. */
    method InitUsart(baud: U16)
      modifies this`ubrr1H, this`ubrr1L
      ensures ubrr1H * 256 + ubrr1L == baud
      ensures ubrr1H == UbrrHigh(baud) && ubrr1L == UbrrLow(baud)
    {
      ubrr1H := UbrrHigh(baud);
      ubrr1L := UbrrLow(baud);
      UbrrSplit(baud);
    }

    /** `Tx_USART`: the wait for an empty transmit register is not modelled. */
    method TxByte(b: Byte)
      modifies this`sent
      ensures sent == old(sent) + [b]
    {
      sent := sent + [b];
    }

    /** `Tx_USART_ram_data`: sends the bytes from `str[0]` up to, not including, the first NUL. */
    method TxRamData(str: seq<Byte>)
      requires NUL in str
      modifies this`sent
      ensures sent == old(sent) + CStr(str)
    {
      var i := 0;
      while str[i] != NUL
        invariant 0 <= i <= FirstNul(str)
        invariant sent == old(sent) + str[..i]
        decreases FirstNul(str) - i
      {
        TxByte(str[i]);
        assert str[..i + 1] == str[..i] + [str[i]];
        i := i + 1;
      }
    }

    /** `Tx_USART_ATcmd`: the same walk over a string held in program memory. */
    method TxAtCmd(cmd: seq<Byte>)
      requires NUL in cmd
      modifies this`sent
      ensures sent == old(sent) + CStr(cmd)
    {
      TxRamData(cmd);
    }
  }

  /** The receive poll returns the data byte at the first poll that finds RXC1 set, if any. */
  ghost predicate ReadyWithin(ready: nat -> bool, k: nat) {
    k < RX_TIMEOUT && ready(k) && forall j :: 0 <= j < k ==> !ready(j)
  }

  /**
   * `Rx_USART`: `ready(j)` is the receive-complete flag at poll j and `udr` the data register.
   * Returns the byte and the number of failed polls, or 0 after 16000 failed polls.
   */
  method RxUsart(ready: nat -> bool, udr: U8) returns (r: U16, timer: nat)
    ensures timer <= RX_TIMEOUT
    ensures forall j :: 0 <= j < timer ==> !ready(j)
    ensures timer < RX_TIMEOUT ==> ready(timer) && r == udr
    ensures timer == RX_TIMEOUT ==> r == 0
  {
    timer := 0;
    while !ready(timer)
      invariant timer < RX_TIMEOUT
      invariant forall j :: 0 <= j < timer ==> !ready(j)
      decreases RX_TIMEOUT - timer
    {
      timer := timer + 1;
      if timer >= RX_TIMEOUT {
        return 0, timer;
      }
    }
    return udr, timer;
  }

  /** Both outcomes of the poll, stated against the flag history alone. */
  lemma RxUsartOutcome(ready: nat -> bool, timer: nat)
    requires timer <= RX_TIMEOUT && forall j :: 0 <= j < timer ==> !ready(j)
    requires timer < RX_TIMEOUT ==> ready(timer)
    ensures timer < RX_TIMEOUT <==> ReadyWithin(ready, timer)
    ensures timer == RX_TIMEOUT <==> forall j :: 0 <= j < RX_TIMEOUT ==> !ready(j)
  {
  }
}
