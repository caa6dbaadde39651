/** The spacing of transmitted test packets (Vol 6 Part F section 4.1.6), as
    src/dtm.c computes it with the tone extension off. Times are in microseconds. */
module DtmInterval {
  import opened Bytes
  import opened DtmHw

  const TX_STEP: nat := 625

  /** On-air length the code assigns to a packet with `len` payload octets. BLE 1M gets no
      overhead: the 80-bit case tests for the proprietary 1 Mbit mode instead. */
  function AirTime(len: nat, mode: RadioMode): nat {
    match mode
    case Ble2Mbit => 4 * len + 44
    case Nrf1Mbit => 8 * len + 80
    case BleLr125Kbit => 64 * len + 720
    case BleLr500Kbit => 16 * len + 462
    case _ => 8 * len
  }

  /** ceil((length + 249) / 625) * 625 */
  function Spacing(length: nat): nat {
    (length + 249 + 624) / TX_STEP * TX_STEP
  }

  method PacketIntervalCalculate(payloadLength: byte, mode: RadioMode) returns (interval: nat)
    ensures interval == Spacing(AirTime(payloadLength, mode))
  {
    var overhead := 0;
    if mode == Ble2Mbit {
      overhead := 88;
    } else if mode == Nrf1Mbit {
      overhead := 80;
    } else if mode == BleLr125Kbit {
      overhead := 720;
    } else if mode == BleLr500Kbit {
      overhead := 462;
    }
    var length: nat := payloadLength * 8;
    if mode == BleLr125Kbit {
      length := length * 8;
    }
    if mode == BleLr500Kbit {
      length := length * 2;
    }
    length := length + overhead;
    if mode == Ble2Mbit {
      length := length / 2;
    }
    assert length == AirTime(payloadLength, mode);
    interval := CeilingLoop(length);
  }

  /** The counting loop. `length + 249` fits 32 bits with room for one more step, so no
      sum or product in it wraps. */
  method CeilingLoop(length: nat) returns (interval: nat)
    requires length + 249 + TX_STEP < 0x1_0000_0000
    ensures interval == Spacing(length)
  {
    var i: nat := 1;
    var timeout: uint32 := i * 625;
    while length + 249 > timeout
      invariant i >= 1 && timeout == i * TX_STEP
      invariant (i - 1) * TX_STEP < length + 249
      decreases length + 249 - timeout
    {
      i := i + 1;
      timeout := i * 625;
    }
    interval := i * 625;
    SpacingIsLeast(length, i);
  }

  /** `Spacing` is the least multiple of 625 that leaves 249 after the packet. */
  lemma SpacingIsLeast(length: nat, i: nat)
    ensures i >= 1 && (i - 1) * 625 < length + 249 <= i * 625 <==> i * 625 == Spacing(length)
  {}

  /** Consecutive packets never overlap and the gap is bounded both ways. */
  lemma GapBounds(length: nat)
    ensures length + 249 <= Spacing(length) <= length + 873
    ensures Spacing(length) % 625 == 0
  {}

  /** Every interval the engine can ask for fits the 16-bit timer. */
  lemma FitsTimer(len: byte, mode: RadioMode)
    ensures TX_STEP <= Spacing(AirTime(len, mode)) <= 17500 < 0x1_0000
  {
    assert AirTime(len, mode) <= 17040;
  }

  /** Bits of a packet's PDU: header, length and payload (Vol 6 Part B section 2.3). */
  function PduBits(len: nat): nat { 16 + 8 * len }

  /** The standard's on-air time of a test packet, in microseconds: preamble, access address,
      PDU and CRC at the PHY's bit rate (Vol 6 Part B section 2.1); on coded PHYs preamble,
      then address, coding indicator and termination at 8 us a bit, then PDU, CRC and
      termination at 8 or 2 us a bit (section 2.2). */
  function StandardAirTime(len: nat, mode: RadioMode): nat
    requires Uncoded(mode) || LongRange(mode)
  {
    match mode
    case Ble1Mbit => 8 + 32 + PduBits(len) + 24
    case Ble2Mbit => (16 + 32 + PduBits(len) + 24) / 2
    case BleLr125Kbit => 80 + (32 + 2 + 3) * 8 + (PduBits(len) + 24 + 3) * 8
    case _ => 80 + (32 + 2 + 3) * 8 + (PduBits(len) + 24 + 3) * 2
  }

  /** The computed length is the standard's on every PHY but LE 1M. */
  lemma AirTimeExactly(len: byte, mode: RadioMode)
    requires Uncoded(mode) || LongRange(mode)
    ensures AirTime(len, mode) == StandardAirTime(len, mode) <==> mode != Ble1Mbit
    ensures AirTime(len, Ble1Mbit) == StandardAirTime(len, Ble1Mbit) - 80
  {}

  /** For BLE 1M the programmed interval meets the standard's formula exactly when the
      missing 80 bits cross no multiple of 625; otherwise it is one step too short. */
  lemma Shortfall1M(len: byte)
    ensures Spacing(AirTime(len, Ble1Mbit)) == Spacing(StandardAirTime(len, Ble1Mbit)) <==> (8 * len + 248) % TX_STEP < 545
    ensures Spacing(AirTime(len, Ble1Mbit)) != Spacing(StandardAirTime(len, Ble1Mbit)) ==>
              Spacing(AirTime(len, Ble1Mbit)) + TX_STEP == Spacing(StandardAirTime(len, Ble1Mbit))
  {}

  lemma Shortfall1MExample()
    ensures Spacing(AirTime(38, Ble1Mbit)) == 625 && Spacing(StandardAirTime(38, Ble1Mbit)) == 1250
  {}
}
