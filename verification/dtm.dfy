/** The direct test mode engine (src/dtm.c), updated in place. A failed assertion stops
    the device: `panicked` is set, the call is abandoned, and the caller must stop too. */
module DtmEngine {
  import opened Bytes
  import opened DtmHw
  import opened DtmInterval
  import opened DtmPdu
  import opened DtmState

  class DtmInstance {
    const powers: PowerTable
    const pdu0: array<byte>
    const pdu1: array<byte>

    var state: TestState
    var rxPktCount: uint16
    var crcErrorCount: uint32
    var current: PduIndex
    var packetLen: byte
    var packetType: PacketType
    var physCh: byte
    var plen: Preamble
    var mode: RadioMode
    var txPower: byte
    var irq: bool
    var radioPtr: PduIndex
    var link: Link
    var interval: nat
    var panicked: bool

    ghost predicate Valid() reads this {
      pdu0 != pdu1 && pdu0.Length == PDU_SIZE && pdu1.Length == PDU_SIZE
    }

    ghost function Snapshot(): Dtm
      requires Valid()
      reads this, pdu0, pdu1
    {
      Dtm(state, rxPktCount, crcErrorCount, pdu0[..], pdu1[..], current, packetLen, packetType, physCh,
          plen, mode, txPower, irq, radioPtr, link, interval, panicked)
    }

    constructor (powers: PowerTable)
      ensures Valid() && fresh(pdu0) && fresh(pdu1)
      ensures this.powers == powers && Snapshot() == PowerOn()
    {
      this.powers := powers;
      pdu0 := new byte[PDU_SIZE](_ => 0);
      pdu1 := new byte[PDU_SIZE](_ => 0);
      state, rxPktCount, crcErrorCount, current := Uninitialized, 0, 0, 0;
      packetLen, packetType, physCh := 0, Prbs9, 0;
      plen, mode, txPower := Bits8, Ble1Mbit, 0x00;
      irq, radioPtr, link, interval, panicked := false, 0, Link(false, {}), 0, false;
      new;
      assert pdu0[..] == Zeros() && pdu1[..] == Zeros();
    }

    /** `peripheralErr` is the first error of the clock, timer and event-channel setup. */
    method Init(peripheralErr: int) returns (err: int)
      requires Valid() && Snapshot() == PowerOn()
      modifies this
      ensures Valid() && err == peripheralErr
      ensures Snapshot() == if err == 0 then Boot() else PowerOn()
    {
      if peripheralErr != 0 {
        return peripheralErr;
      }
      err := DoRadioInit();
      if err != 0 {
        return;
      }
      state := Idle;
      packetLen := 0;
    }

    method DoRadioReset()
      requires Valid()
      modifies this`irq, this`rxPktCount
      ensures Snapshot() == RadioReset(old(Snapshot()))
    {
      irq := false;
      rxPktCount := 0;
    }

    method DoRadioInit() returns (err: int)
      requires Valid()
      modifies this`irq, this`rxPktCount
      ensures Snapshot() == RadioInit(powers, old(Snapshot()))
      ensures err == RadioInitErr(powers, old(Snapshot()))
    {
      var ok := RadioValidate(powers, txPower, mode);
      if !ok {
        return EINVAL;
      }
      DoRadioReset();
      return 0;
    }

    method RadioPpiClear()
      requires Valid()
      modifies this`link
      ensures Snapshot() == old(Snapshot()).(link := Unlinked(old(Snapshot())))
    {
      link := link.(enabled := false);
      link := link.(ends := link.ends - {TimerCompare0});
      if state == TransmitterTest {
        link := link.(ends := link.ends - {RadioTxen});
      } else if state == ReceiverTest {
        link := link.(ends := link.ends - {RadioRxen});
      }
      link := link.(ends := link.ends - {EguTriggered});
      link := link.(ends := link.ends - {TimerStart});
      assert link == Unlinked(old(Snapshot()));
    }

    method RadioPpiConfigureTx()
      requires Valid()
      modifies this`link
      ensures Snapshot() == old(Snapshot()).(link := Link(true, old(link.ends) + {EguTriggered, RadioTxen, TimerStart}))
    {
      link := link.(ends := link.ends + {EguTriggered, RadioTxen});
      link := link.(ends := link.ends + {TimerStart});
      link := link.(enabled := true);
      assert link.ends == old(link.ends) + {EguTriggered, RadioTxen, TimerStart};
    }

    method RadioTxPpiReconfigure()
      requires Valid()
      modifies this`link
      ensures Snapshot() == old(Snapshot()).(link := TxLinked(old(link)))
    {
      link := link.(enabled := false);
      link := link.(ends := link.ends - {TimerStart});
      link := link.(ends := link.ends - {EguTriggered});
      link := link.(ends := link.ends + {TimerCompare0});
      link := link.(ends := link.ends + {TimerCompare0, RadioTxen});
      link := link.(enabled := true);
      assert link == TxLinked(old(link));
    }

    method DoTestDone()
      requires Valid()
      modifies this
      ensures Valid() && Snapshot() == TestDone(old(Snapshot()))
    {
      RadioPpiClear();
      DoRadioReset();
      state := Idle;
    }

    method DoRadioPrepare()
      requires Valid()
      modifies this`panicked, this`irq, this`radioPtr
      ensures Snapshot() == RadioPrepare(old(Snapshot()))
    {
      if physCh > PHYS_CH_MAX {
        panicked := true;
        return;
      }
      radioPtr := current;
      irq := true;
    }

    method SetupPrepare()
      requires Valid() && !panicked
      modifies this
      ensures Valid() && Snapshot() == TestDone(old(Snapshot()))
    {
      DoTestDone();
    }

    method SetupReset() returns (err: int)
      requires Valid() && !panicked
      modifies this
      ensures Valid() && Snapshot() == ResetStep(powers, old(Snapshot()))
      ensures err == RadioInitErr(powers, old(Snapshot()).(mode := Ble1Mbit))
    {
      packetLen := 0;
      mode := Ble1Mbit;
      plen := Bits8;
      err := DoRadioInit();
    }

    method SetupSetPhy(phy: Phy) returns (err: int)
      requires Valid() && !panicked
      modifies this
      ensures Valid() && Snapshot() == SetPhyStep(powers, old(Snapshot()), phy)
      ensures err == RadioInitErr(powers, old(Snapshot()).(mode := PhyMode(phy)))
    {
      match phy {
        case Phy1M => mode, plen := Ble1Mbit, Bits8;
        case Phy2M => mode, plen := Ble2Mbit, Bits16;
        case PhyCodedS8 => mode, plen := BleLr125Kbit, LongRangeBits;
        case PhyCodedS2 => mode, plen := BleLr500Kbit, LongRangeBits;
      }
      err := DoRadioInit();
    }

    method SetupSetTransmitPower(request: PowerRequest, val: int, channel: byte)
      requires Valid() && !panicked
      requires -0x80 <= val < 0x80
      modifies this
      ensures Valid() && Snapshot() == SetPowerStep(powers, old(Snapshot()), request, val, channel)
    {
      if channel > PHYS_CH_MAX {
        panicked := true;
        return;
      }
      NearestClamps(powers, val);
      var min, max := MinPower(powers), MaxPower(powers);
      match request {
        case RequestMin => txPower := AsByte(min);
        case RequestMax => txPower := AsByte(max);
        case RequestVal =>
          if val <= min {
            txPower := AsByte(min);
          } else if val >= max {
            txPower := AsByte(max);
          } else {
            var power := NearestPowerGet(powers, val);
            txPower := AsByte(power);
          }
      }
    }

    /** The vendor command's power change, refused while a test runs. */
    method SetTxPower(option: byte) returns (ok: bool)
      requires Valid()
      modifies this`txPower
      ensures ok <==> (state == Idle || state == Uninitialized) && Validates(powers, SignExtended(option), mode)
      ensures Snapshot() == if ok then old(Snapshot()).(txPower := SignExtended(option)) else old(Snapshot())
    {
      var power: byte := if option / 0x10 % 4 != 0 then 0xC0 + option % 0x40 else option;
      if state != Idle && state != Uninitialized {
        return false;
      }
      ok := RadioValidate(powers, power, mode);
      if ok {
        txPower := power;
      }
    }

    method VendorSpecificPkt(cmd: byte, option: byte) returns (err: int)
      requires Valid()
      modifies this
      ensures Valid() && Snapshot() == VendorCmd(powers, old(Snapshot()), cmd, option)
      ensures err == VendorErr(powers, old(Snapshot()), cmd, option)
    {
      if cmd == 0 || cmd == 1 {
        DoRadioPrepare();
        if physCh > PHYS_CH_MAX {
          return 0;
        }
        state := CarrierTest;
        return 0;
      } else if cmd == 2 {
        var ok := SetTxPower(option);
        return if ok then 0 else EINVAL;
      }
      return EINVAL;
    }

    method TestReceive(channel: byte) returns (err: int)
      requires Valid() && !panicked
      modifies this, pdu0, pdu1
      ensures Valid() && Snapshot() == ReceiveStep(old(Snapshot()), channel)
      ensures err == ReceiveErr(channel)
    {
      if channel > PHYS_CH_MAX {
        return EINVAL;
      }
      current := 0;
      physCh := channel;
      rxPktCount := 0;
      crcErrorCount := 0;
      ZeroFill(pdu0);
      ZeroFill(pdu1);
      DoRadioPrepare();
      state := ReceiverTest;
      return 0;
    }

    method TestTransmit(channel: byte, length: byte, packet: PacketType) returns (err: int)
      requires Valid() && !panicked
      modifies this, pdu0
      ensures Valid() && Snapshot() == TransmitStep(powers, old(Snapshot()), channel, length, packet)
      ensures err == TransmitErr(powers, old(Snapshot()), channel, length, packet)
    {
      if state != Idle {
        return EBUSY;
      }
      StoreParameters(channel, length, packet);
      if packetType != Vendor && physCh > PHYS_CH_MAX {
        return EINVAL;
      }
      err := Launch();
    }

    method StoreParameters(channel: byte, length: byte, packet: PacketType)
      requires Valid()
      modifies this`packetType, this`packetLen, this`physCh, this`current
      ensures Snapshot() == Chosen(old(Snapshot()), channel, length, packet)
    {
      packetType := packet;
      if packet == FfOrVendor {
        packetType := if Uncoded(mode) then Vendor else FillFF;
      }
      packetLen := length;
      physCh := channel;
      current := 0;
    }

    /** The rest of `TestTransmit`, once its parameters are stored and checked. */
    method Launch() returns (err: int)
      requires Valid() && state == Idle && packetType != FfOrVendor
      requires packetType == Vendor || physCh <= PHYS_CH_MAX
      modifies this, pdu0
      ensures Valid() && Snapshot() == Launched(powers, old(Snapshot()))
      ensures err == if old(packetType) == Vendor
                     then VendorErr(powers, old(Snapshot()), old(packetLen), old(physCh)) else 0
    {
      rxPktCount := 0;
      pdu0[1] := packetLen;
      assert pdu0[..] == old(pdu0[..])[1 := packetLen];
      if packetType == Vendor {
        err := VendorSpecificPkt(packetLen, physCh);
        return;
      }
      FillPdu(pdu0, packetType, packetLen);
      BeginTransmit();
      return 0;
    }

    /** Radio, timer and event channel for a transmitter test whose PDU is ready. */
    method BeginTransmit()
      requires Valid()
      requires physCh <= PHYS_CH_MAX
      modifies this
      ensures Valid() && Snapshot() == Transmitting(old(Snapshot()))
    {
      DoRadioPrepare();
      interval := PacketIntervalCalculate(packetLen, mode);
      RadioPpiConfigureTx();
      RadioTxPpiReconfigure();
      assert link == TxLinked(old(link));
      state := TransmitterTest;
    }

    method TestEnd() returns (count: uint16)
      requires Valid() && !panicked
      modifies this
      ensures Valid() && Snapshot() == TestDone(old(Snapshot()))
      ensures count == old(rxPktCount)
    {
      count := rxPktCount;
      DoTestDone();
    }

    /** Gives the other buffer to the radio and returns the filled one. */
    method RadioBufferSwap() returns (received: array<byte>)
      requires Valid()
      modifies this`current, this`radioPtr
      ensures Snapshot() == old(Snapshot()).(current := 1 - old(current), radioPtr := 1 - old(current))
      ensures received == if old(current) == 0 then pdu0 else pdu1
    {
      received := if current == 0 then pdu0 else pdu1;
      current := if current == 0 then 1 else 0;
      radioPtr := current;
    }

    /** The radio has stored `content` in its buffer and raises END. */
    method RadioHandlerEnd(crcOk: bool, content: AirPdu)
      requires Valid() && !panicked
      modifies this, pdu0, pdu1
      ensures Valid() && Snapshot() == RadioEndStep(old(Snapshot()), crcOk, content)
    {
      if irq && state == ReceiverTest {
        var filled := if radioPtr == 0 then pdu0 else pdu1;
        MemCopy(filled, 0, content);
        assert filled[..] == Overlay(old(Snapshot()).Buffer(radioPtr), content);
        ghost var arrived := Arrived(old(Snapshot()), content);
        assert Snapshot() == arrived;
        OnRadioEndEvent(crcOk);
      }
    }

    method OnRadioEndEvent(crcOk: bool)
      requires Valid() && state == ReceiverTest
      modifies this`current, this`radioPtr, this`rxPktCount, this`crcErrorCount, pdu0, pdu1
      ensures var d := old(Snapshot());
              var good := crcOk && Accepts(d.mode, d.Buffer(d.current));
              Snapshot() == d.WithBuffer(d.current, Zeros()).(
                current := 1 - d.current, radioPtr := 1 - d.current,
                rxPktCount := if good then (d.rxPktCount + 1) % 0x1_0000 else d.rxPktCount,
                crcErrorCount := if crcOk then d.crcErrorCount else (d.crcErrorCount + 1) % 0x1_0000_0000)
    {
      var received := JudgePacket(crcOk);
      ZeroFill(received);
    }

    /** Swaps the buffers, checks the filled one and counts the verdict. */
    method JudgePacket(crcOk: bool) returns (received: array<byte>)
      requires Valid()
      modifies this`current, this`radioPtr, this`rxPktCount, this`crcErrorCount
      ensures received == if old(current) == 0 then pdu0 else pdu1
      ensures var d := old(Snapshot());
              var good := crcOk && Accepts(d.mode, d.Buffer(d.current));
              Snapshot() == d.(
                current := 1 - d.current, radioPtr := 1 - d.current,
                rxPktCount := if good then (d.rxPktCount + 1) % 0x1_0000 else d.rxPktCount,
                crcErrorCount := if crcOk then d.crcErrorCount else (d.crcErrorCount + 1) % 0x1_0000_0000)
    {
      received := RadioBufferSwap();
      var pduOk := false;
      if crcOk {
        pduOk := CheckPdu(received, mode);
      }
      CountVerdict(crcOk, pduOk);
    }

    method CountVerdict(crcOk: bool, pduOk: bool)
      modifies this`rxPktCount, this`crcErrorCount
      ensures rxPktCount == if crcOk && pduOk then (old(rxPktCount) + 1) % 0x1_0000 else old(rxPktCount)
      ensures crcErrorCount == if crcOk then old(crcErrorCount) else (old(crcErrorCount) + 1) % 0x1_0000_0000
    {
      if crcOk && pduOk {
        rxPktCount := (rxPktCount + 1) % 0x1_0000;
      } else {
        if !crcOk {
          crcErrorCount := (crcErrorCount + 1) % 0x1_0000_0000;
        }
      }
    }
  }

  method ZeroFill(a: array<byte>)
    requires a.Length == PDU_SIZE
    modifies a
    ensures a[..] == Zeros()
  {
    MemSet(a, 0, 0, PDU_SIZE);
    assert a[..] == Zeros();
  }
}
