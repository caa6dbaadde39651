/** The two-wire command decoder both byte transports share (src/transport/dtm_cmd_core.c):
    bit fields, the upper length bits kept between commands, and the calls into the engine. */
module DtmCmdCore {
  import opened Bytes
  import opened DtmHw
  import opened DtmInterval
  import opened DtmPdu
  import opened DtmState
  import opened DtmEngine

  const TEST_SETUP: nat := 0
  const RECEIVER_TEST: nat := 1
  const TRANSMITTER_TEST: nat := 2
  const TEST_END: nat := 3

  const SETUP_RESET: nat := 0
  const SETUP_SET_UPPER: nat := 1
  const SETUP_READ_SUPPORTED: nat := 4
  const SETUP_READ_MAX: nat := 5

  const STATUS_ERROR: uint16 := 0x0000
  const STATUS_SUCCESS: uint16 := 0x0001
  const PACKET_REPORT: uint16 := 0x8000

  const MAX_OCTETS: uint16 := 0x00FF
  const MAX_RX_TX_TIME: uint16 := 0x0424
  const TEST_END_MAX_RANGE: nat := 10

  /** The bit fields of a command; `chan` doubles as the control code of a setup or end. */
  datatype Fields = Fields(code: nat, chan: byte, low: byte, kind: nat, parameter: byte)

  function Decode(cmd: uint16): (f: Fields)
    ensures f.code < 4 && f.chan < 0x40 && f.low < 0x40 && f.kind < 4
  {
    Fields(cmd / 0x4000 % 4, cmd / 0x100 % 0x40, cmd / 4 % 0x40, cmd % 4, cmd % 0x100)
  }

  function PacketOf(kind: nat): PacketType {
    if kind == 0 then Prbs9 else if kind == 1 then Fill0F else if kind == 2 then Fill55 else FfOrVendor
  }

  /** Bits 7 and 6 of a length, from bits 3 and 2 of the parameter. */
  function UpperBits(parameter: byte): byte { parameter / 4 % 4 * 0x40 }

  lemma UpperShift(parameter: byte)
    ensures parameter * 0x10 % 0x100 / 0x40 * 0x40 == UpperBits(parameter)
  {
    var q, r := parameter / 0x10, parameter % 0x10;
    ShiftInOctet(parameter, q, r);
    assert 0x10 * r / 0x40 == r / 4;
    assert parameter / 4 == 4 * q + r / 4;
  }

  lemma ShiftInOctet(parameter: byte, q: nat, r: nat)
    requires parameter == 0x10 * q + r && r < 0x10
    ensures parameter * 0x10 % 0x100 == 0x10 * r
  {
    assert parameter * 0x10 == 0x100 * q + 0x10 * r;
  }

  predicate IsUpper(upper: byte) { upper == 0 || upper == 0x40 || upper == 0x80 || upper == 0xC0 }

  predicate SetsUpper(f: Fields) {
    f.code == TEST_SETUP && (f.chan == SETUP_RESET || f.chan == SETUP_SET_UPPER)
  }

  function UpperSetBy(f: Fields): byte {
    if f.chan == SETUP_RESET then 0 else UpperBits(f.parameter)
  }

  function UpperAfter(upper: byte, f: Fields): (r: byte)
    ensures IsUpper(upper) ==> IsUpper(r)
  {
    if SetsUpper(f) then UpperSetBy(f) else upper
  }

  predicate Ends(f: Fields) { f.code == TEST_END && f.chan == 0 && f.parameter <= TEST_END_MAX_RANGE }

  /** The packet length of a transmitter test: six bits of its own, two kept from before. */
  function Length(upper: byte, low: byte): byte
    requires IsUpper(upper) && low < 0x40
  {
    low + upper
  }

  /** The engine calls of one command. Setup commands other than reset make none. */
  function Calls(upper: byte, f: Fields): seq<Step>
    requires IsUpper(upper) && f.low < 0x40
  {
    if f.code == TEST_SETUP && f.chan == SETUP_RESET then [Reset]
    else if f.code == RECEIVER_TEST then [Receive(f.chan)]
    else if f.code == TRANSMITTER_TEST then [Transmit(f.chan, Length(upper, f.low), PacketOf(f.kind))]
    else if Ends(f) then [End]
    else []
  }

  function StatusWord(err: int): uint16 { if err != 0 then STATUS_ERROR else STATUS_SUCCESS }

  /** `PACKET_REPORT | count` */
  function ReportWord(count: uint16): uint16 { 0x8000 + count % 0x8000 }

  /** Data length extension, 2M and coded PHYs: bits 1, 2 and 4. */
  function FeaturesWord(parameter: byte): uint16 {
    if parameter > 3 then STATUS_ERROR else 0x16 + STATUS_SUCCESS
  }

  function MaxWord(parameter: byte): uint16 {
    if parameter <= 0x03 || 0x08 <= parameter <= 0x0B then 2 * MAX_OCTETS + STATUS_SUCCESS
    else if parameter <= 0x0F then 2 * MAX_RX_TX_TIME + STATUS_SUCCESS
    else STATUS_ERROR
  }

  class CmdCore {
    const dtm: DtmInstance
    var upperLen: byte

    ghost predicate Valid() reads this, dtm {
      dtm.Valid() && IsUpper(upperLen)
    }

    constructor (dtm: DtmInstance)
      requires dtm.Valid()
      ensures Valid() && upperLen == 0 && this.dtm == dtm
    {
      this.dtm, upperLen := dtm, 0;
    }

    /** One command. If an assertion fails on the way there is no response. */
    method DtmCmdPut(cmd: uint16) returns (response: uint16)
      requires Valid() && !dtm.panicked
      modifies this, dtm, dtm.pdu0, dtm.pdu1
      ensures Valid() && upperLen == UpperAfter(old(upperLen), Decode(cmd))
      ensures dtm.Snapshot() == Run(dtm.powers, old(dtm.Snapshot()), Calls(old(upperLen), Decode(cmd)))
      ensures !dtm.panicked ==> response == Response(dtm.powers, old(dtm.Snapshot()), old(upperLen), Decode(cmd))
    {
      response := Dispatch(Decode(cmd));
    }

    method Dispatch(f: Fields) returns (response: uint16)
      requires Valid() && !dtm.panicked && f.code < 4 && f.low < 0x40 && f.kind < 4
      modifies this, dtm, dtm.pdu0, dtm.pdu1
      ensures Valid() && upperLen == UpperAfter(old(upperLen), f)
      ensures dtm.Snapshot() == Run(dtm.powers, old(dtm.Snapshot()), Calls(old(upperLen), f))
      ensures response == Response(dtm.powers, old(dtm.Snapshot()), old(upperLen), f)
    {
      ghost var t, d := dtm.powers, dtm.Snapshot();
      match f.code {
        case 0 =>
          RunOne(t, d, Reset);
          response := OnTestSetupCmd(f.chan, f.parameter);
        case 1 =>
          RunOne(t, d, Receive(f.chan));
          var err := dtm.TestReceive(f.chan);
          response := StatusWord(err);
        case 2 =>
          RunOne(t, d, Transmit(f.chan, Length(upperLen, f.low), PacketOf(f.kind)));
          response := OnTestTxCmd(f.chan, f.low, f.kind);
        case _ =>
          RunOne(t, d, End);
          response := OnTestEndCmd(f.chan, f.parameter);
      }
    }

    method OnTestSetupCmd(control: byte, parameter: byte) returns (response: uint16)
      requires Valid() && !dtm.panicked
      modifies this, dtm
      ensures Valid()
      ensures upperLen == if control == SETUP_RESET then 0
                          else if control == SETUP_SET_UPPER then UpperBits(parameter) else old(upperLen)
      ensures dtm.Snapshot() == if control == SETUP_RESET then ResetStep(dtm.powers, old(dtm.Snapshot()))
                                else old(dtm.Snapshot())
      ensures response == SetupResponse(dtm.powers, old(dtm.Snapshot()), control, parameter)
    {
      match control {
        case 0 =>
          upperLen := 0;
          var err := dtm.SetupReset();
          response := StatusWord(err);
        case 1 =>
          UpperShift(parameter);
          upperLen := parameter * 0x10 % 0x100 / 0x40 * 0x40;
          response := STATUS_SUCCESS;
        case 4 => response := FeaturesWord(parameter);
        case 5 => response := MaxWord(parameter);
        case _ => response := STATUS_ERROR;
      }
    }

    method OnTestTxCmd(chan: byte, low: byte, kind: nat) returns (response: uint16)
      requires Valid() && !dtm.panicked && low < 0x40 && kind < 4
      modifies dtm, dtm.pdu0
      ensures dtm.Valid()
      ensures dtm.Snapshot() == TransmitStep(dtm.powers, old(dtm.Snapshot()), chan, Length(upperLen, low), PacketOf(kind))
      ensures response == StatusWord(TransmitErr(dtm.powers, old(dtm.Snapshot()), chan, Length(upperLen, low), PacketOf(kind)))
    {
      var pkt := PacketFor(kind);
      var length: byte := low + upperLen;
      var err := dtm.TestTransmit(chan, length, pkt);
      response := StatusWord(err);
    }

    method PacketFor(kind: nat) returns (pkt: PacketType)
      ensures pkt == PacketOf(kind)
    {
      match kind {
        case 0 => pkt := Prbs9;
        case 1 => pkt := Fill0F;
        case 2 => pkt := Fill55;
        case _ => pkt := FfOrVendor;
      }
    }

    method OnTestEndCmd(control: byte, parameter: byte) returns (response: uint16)
      requires Valid() && !dtm.panicked
      modifies dtm
      ensures dtm.Valid()
      ensures var ends := control == 0 && parameter <= TEST_END_MAX_RANGE;
              && dtm.Snapshot() == (if ends then TestDone(old(dtm.Snapshot())) else old(dtm.Snapshot()))
              && response == (if ends then ReportWord(old(dtm.rxPktCount)) else STATUS_ERROR)
    {
      if control != 0 || parameter > TEST_END_MAX_RANGE {
        return STATUS_ERROR;
      }
      var cnt := dtm.TestEnd();
      response := if cnt >= 0x8000 then cnt else 0x8000 + cnt;
    }
  }

  function SetupResponse(t: PowerTable, d: Dtm, control: byte, parameter: byte): uint16 {
    if control == SETUP_RESET then StatusWord(RadioInitErr(t, d.(mode := Ble1Mbit)))
    else if control == SETUP_SET_UPPER then STATUS_SUCCESS
    else if control == SETUP_READ_SUPPORTED then FeaturesWord(parameter)
    else if control == SETUP_READ_MAX then MaxWord(parameter)
    else STATUS_ERROR
  }

  function Response(t: PowerTable, d: Dtm, upper: byte, f: Fields): uint16
    requires IsUpper(upper) && f.low < 0x40
  {
    if f.code == TEST_SETUP then SetupResponse(t, d, f.chan, f.parameter)
    else if f.code == RECEIVER_TEST then StatusWord(ReceiveErr(f.chan))
    else if f.code == TRANSMITTER_TEST then
      StatusWord(TransmitErr(t, d, f.chan, Length(upper, f.low), PacketOf(f.kind)))
    else if Ends(f) then ReportWord(d.rxPktCount)
    else STATUS_ERROR
  }

  /** The word of a transmitter test, and of the setup command for a length's upper bits. */
  function TxWord(chan: byte, low: byte, kind: nat): uint16
    requires chan < 0x40 && low < 0x40 && kind < 4
  {
    0x8000 + 0x100 * chan + 4 * low + kind
  }

  function UpperWord(n: byte): uint16 { 0x100 + n / 0x40 * 4 }

  lemma TxWordDecodes(chan: byte, low: byte, kind: nat)
    requires chan < 0x40 && low < 0x40 && kind < 4
    ensures var f := Decode(TxWord(chan, low, kind));
            f.code == TRANSMITTER_TEST && f.chan == chan && f.low == low && f.kind == kind
  {
    var word := TxWord(chan, low, kind);
    assert word / 4 == 0x40 * (0x80 + chan) + low by { assert word == 4 * (0x40 * (0x80 + chan) + low) + kind; }
    assert word / 0x100 == 0x80 + chan by { assert word == 0x100 * (0x80 + chan) + (4 * low + kind); }
  }

  lemma UpperWordDecodes(n: byte)
    ensures SetsUpper(Decode(UpperWord(n))) && UpperSetBy(Decode(UpperWord(n))) == n / 0x40 * 0x40
    ensures Decode(UpperWord(n)).chan == SETUP_SET_UPPER
  {}

  /** What every 16-bit word does, by its number: the engine calls, and the kept bits. */
  lemma EveryWord(upper: byte, cmd: uint16)
    requires IsUpper(upper)
    ensures Calls(upper, Decode(cmd)) ==
            if cmd < 0x100 then [Reset]
            else if cmd < 0x4000 then []
            else if cmd < 0x8000 then [Receive(cmd / 0x100 % 0x40)]
            else if cmd < 0xC000 then
              [Transmit(cmd / 0x100 % 0x40, upper + cmd / 4 % 0x40,
                        if cmd % 4 == 0 then Prbs9 else if cmd % 4 == 1 then Fill0F
                        else if cmd % 4 == 2 then Fill55 else FfOrVendor)]
            else if cmd <= 0xC00A then [End]
            else []
    ensures UpperAfter(upper, Decode(cmd)) ==
            if cmd < 0x100 then 0 else if cmd < 0x200 then cmd / 4 % 4 * 0x40 else upper
  {
    SetupFields(cmd);
  }

  lemma SetupFields(cmd: uint16)
    ensures var f := Decode(cmd);
            && f.code == (if cmd < 0x4000 then 0 else if cmd < 0x8000 then 1 else if cmd < 0xC000 then 2 else 3)
            && (cmd < 0x4000 ==> f.chan == cmd / 0x100)
            && (cmd >= 0xC000 ==> f.chan == cmd / 0x100 - 0xC0)
            && f.parameter == cmd % 0x100 && f.parameter / 4 % 4 == cmd / 4 % 4
  {
    var high, low := cmd / 0x100, cmd % 0x100;
    assert cmd == 0x100 * high + low;
    assert cmd / 0x4000 == high / 0x40;
    assert cmd / 4 == 0x40 * high + low / 4;
  }

  /** The longest time reported covers the longest packet exactly on the uncoded PHYs. */
  lemma MaxTimeExactly(mode: RadioMode)
    requires Uncoded(mode) || LongRange(mode)
    ensures StandardAirTime(255, mode) <= 2 * MAX_RX_TX_TIME <==> mode == Ble1Mbit || mode == Ble2Mbit
  {}
}
