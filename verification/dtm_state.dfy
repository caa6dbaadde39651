/** The test engine as values: a snapshot of the instance of src/dtm.c together with the
    radio and event-routing registers it drives, and the effect of each interface call on
    it. `DtmInstance` (dtm.dfy) is the engine itself, updated in place; its methods are
    proved to have these effects. */
module DtmState {
  import opened Bytes
  import opened DtmHw
  import opened DtmInterval
  import opened DtmPdu

  const PHYS_CH_MAX: nat := 39

  datatype TestState = Uninitialized | Idle | TransmitterTest | CarrierTest | ReceiverTest

  datatype Preamble = Bits8 | Bits16 | LongRangeBits

  datatype Phy = Phy1M | Phy2M | PhyCodedS8 | PhyCodedS2

  datatype PowerRequest = RequestMin | RequestMax | RequestVal

  /** What can publish to, or subscribe to, the one event channel the engine owns. */
  datatype Endpoint = EguTriggered | TimerCompare0 | RadioTxen | RadioRxen | TimerStart

  datatype Link = Link(enabled: bool, ends: set<Endpoint>)

  type Pdu = s: seq<byte> | |s| == PDU_SIZE witness seq(PDU_SIZE, _ => 0)
  type PduIndex = i: nat | i < 2

  /** What a received packet leaves in memory: header, length and up to 255 octets. */
  type AirPdu = s: seq<byte> | |s| < PDU_SIZE

  datatype Dtm = Dtm(
    state: TestState,
    rxPktCount: uint16,
    crcErrorCount: uint32,
    pdu0: Pdu,
    pdu1: Pdu,
    current: PduIndex,
    packetLen: byte,
    packetType: PacketType,
    physCh: byte,
    plen: Preamble,
    mode: RadioMode,
    txPower: byte,
    irq: bool,            // radio interrupt enabled
    radioPtr: PduIndex,   // buffer the radio writes to
    link: Link,           // event channel of ppi_radio_start
    interval: nat,        // timer COMPARE0 value
    panicked: bool)       // an assertion failed; the device has stopped
  {
    function Buffer(i: PduIndex): Pdu { if i == 0 then pdu0 else pdu1 }

    function WithBuffer(i: PduIndex, s: Pdu): Dtm {
      if i == 0 then this.(pdu0 := s) else this.(pdu1 := s)
    }
  }

  function Zeros(): Pdu { Repeat(0, PDU_SIZE) }

  function PhyMode(phy: Phy): RadioMode {
    match phy
    case Phy1M => Ble1Mbit
    case Phy2M => Ble2Mbit
    case PhyCodedS8 => BleLr125Kbit
    case PhyCodedS2 => BleLr500Kbit
  }

  function PreambleOf(mode: RadioMode): Preamble {
    if mode == Ble2Mbit then Bits16 else if LongRange(mode) then LongRangeBits else Bits8
  }

  /** Static initial values; `Boot` is the engine once initialisation succeeded. */
  function PowerOn(): Dtm {
    Dtm(Uninitialized, 0, 0, Zeros(), Zeros(), 0, 0, Prbs9, 0, Bits8, Ble1Mbit, 0x00,
        false, 0, Link(false, {}), 0, false)
  }

  function Boot(): Dtm { PowerOn().(state := Idle) }

  // ------------------------------------------------------------- radio steps

  function RadioReset(d: Dtm): Dtm { d.(irq := false, rxPktCount := 0) }

  function RadioInitErr(t: PowerTable, d: Dtm): int {
    if Validates(t, d.txPower, d.mode) then 0 else EINVAL
  }

  function RadioInit(t: PowerTable, d: Dtm): Dtm {
    if Validates(t, d.txPower, d.mode) then RadioReset(d) else d
  }

  function RadioPrepare(d: Dtm): Dtm {
    if d.physCh > PHYS_CH_MAX then d.(panicked := true) else d.(irq := true, radioPtr := d.current)
  }

  function Unlinked(d: Dtm): Link {
    var task := if d.state == TransmitterTest then {RadioTxen}
                else if d.state == ReceiverTest then {RadioRxen} else {};
    Link(false, d.link.ends - {EguTriggered, TimerCompare0, TimerStart} - task)
  }

  function TxLinked(link: Link): Link {
    Link(true, link.ends + {TimerCompare0, RadioTxen} - {EguTriggered, TimerStart})
  }

  function TestDone(d: Dtm): Dtm { RadioReset(d.(link := Unlinked(d))).(state := Idle) }

  // --------------------------------------------------------- interface calls

  /** An interface call, or (`RadioEnd`) the radio finishing a packet. */
  datatype Step =
    | Prepare
    | Reset
    | SetPhy(phy: Phy)
    | SetPower(request: PowerRequest, val: int, ch: byte)
    | Receive(ch: byte)
    | Transmit(ch: byte, len: byte, pkt: PacketType)
    | End
    | RadioEnd(crcOk: bool, content: AirPdu)

  function PowerFor(t: PowerTable, request: PowerRequest, val: int): byte {
    match request
    case RequestMin => t[0]
    case RequestMax => t[|t| - 1]
    case RequestVal => Nearest(t, val)
  }

  function ResetStep(t: PowerTable, d: Dtm): Dtm {
    RadioInit(t, d.(packetLen := 0, mode := Ble1Mbit, plen := Bits8))
  }

  function SetPhyStep(t: PowerTable, d: Dtm, phy: Phy): Dtm {
    RadioInit(t, d.(mode := PhyMode(phy), plen := PreambleOf(PhyMode(phy))))
  }

  function SetPowerStep(t: PowerTable, d: Dtm, request: PowerRequest, val: int, ch: byte): Dtm {
    if ch > PHYS_CH_MAX then d.(panicked := true) else d.(txPower := PowerFor(t, request, val))
  }

  function Resolve(mode: RadioMode, pkt: PacketType): (p: PacketType)
    ensures p != FfOrVendor
  {
    if pkt == FfOrVendor then (if Uncoded(mode) then Vendor else FillFF) else pkt
  }

  /** The vendor command's power octet: the two bits a six-bit field cannot carry. */
  function SignExtended(option: byte): byte {
    if option / 0x10 % 4 != 0 then 0xC0 + option % 0x40 else option
  }

  function VendorErr(t: PowerTable, d: Dtm, cmd: byte, option: byte): int {
    if cmd == 0 || cmd == 1 then 0
    else if cmd == 2 && (d.state == Idle || d.state == Uninitialized) && Validates(t, SignExtended(option), d.mode) then 0
    else EINVAL
  }

  function VendorCmd(t: PowerTable, d: Dtm, cmd: byte, option: byte): Dtm {
    if cmd == 0 || cmd == 1 then
      if d.physCh > PHYS_CH_MAX then RadioPrepare(d) else RadioPrepare(d).(state := CarrierTest)
    else if VendorErr(t, d, cmd, option) == 0 then d.(txPower := SignExtended(option))
    else d
  }

  function TransmitErr(t: PowerTable, d: Dtm, ch: byte, len: byte, pkt: PacketType): int {
    var p := Resolve(d.mode, pkt);
    if d.state != Idle then EBUSY
    else if p == Vendor then VendorErr(t, d, len, ch)
    else if ch > PHYS_CH_MAX then EINVAL
    else 0
  }

  function TransmitStep(t: PowerTable, d: Dtm, ch: byte, len: byte, pkt: PacketType): Dtm {
    var chosen := Chosen(d, ch, len, pkt);
    if d.state != Idle then d
    else if chosen.packetType != Vendor && ch > PHYS_CH_MAX then chosen
    else Launched(t, chosen)
  }

  function Chosen(d: Dtm, ch: byte, len: byte, pkt: PacketType): Dtm {
    d.(packetType := Resolve(d.mode, pkt), packetLen := len, physCh := ch, current := 0)
  }

  /** The rest of a transmit call once its parameters are stored and checked. */
  function Launched(t: PowerTable, d: Dtm): Dtm
    requires d.packetType != FfOrVendor
  {
    var q := d.(rxPktCount := 0, pdu0 := d.pdu0[1 := d.packetLen]);
    if d.packetType == Vendor then VendorCmd(t, q, d.packetLen, d.physCh)
    else Transmitting(q.(pdu0 := Built(q.pdu0, d.packetType, d.packetLen)))
  }

  function Transmitting(d: Dtm): Dtm {
    RadioPrepare(d).(
      interval := Spacing(AirTime(d.packetLen, d.mode)), link := TxLinked(d.link), state := TransmitterTest)
  }

  function ReceiveErr(ch: byte): int { if ch > PHYS_CH_MAX then EINVAL else 0 }

  function ReceiveStep(d: Dtm, ch: byte): Dtm {
    if ch > PHYS_CH_MAX then d
    else
      RadioPrepare(d.(current := 0, physCh := ch, rxPktCount := 0, crcErrorCount := 0,
                      pdu0 := Zeros(), pdu1 := Zeros())).(state := ReceiverTest)
  }

  /** A buffer after the radio wrote a packet to its start. */
  function Overlay(before: Pdu, content: AirPdu): Pdu { content + before[|content|..] }

  /** The snapshot the END handler meets: the radio has stored the packet. */
  function Arrived(d: Dtm, content: AirPdu): Dtm {
    d.WithBuffer(d.radioPtr, Overlay(d.Buffer(d.radioPtr), content))
  }

  function RadioEndStep(d: Dtm, crcOk: bool, content: AirPdu): Dtm {
    if !d.irq || d.state != ReceiverTest then d
    else
      var a, next := Arrived(d, content), 1 - d.current;
      var good := crcOk && Accepts(d.mode, a.Buffer(d.current));
      a.WithBuffer(d.current, Zeros()).(
        current := next, radioPtr := next,
        rxPktCount := if good then (d.rxPktCount + 1) % 0x1_0000 else d.rxPktCount,
        crcErrorCount := if crcOk then d.crcErrorCount else (d.crcErrorCount + 1) % 0x1_0000_0000)
  }

  function Apply(t: PowerTable, d: Dtm, s: Step): Dtm {
    if d.panicked then d
    else match s
      case Prepare => TestDone(d)
      case Reset => ResetStep(t, d)
      case SetPhy(phy) => SetPhyStep(t, d, phy)
      case SetPower(request, val, ch) => SetPowerStep(t, d, request, val, ch)
      case Receive(ch) => ReceiveStep(d, ch)
      case Transmit(ch, len, pkt) => TransmitStep(t, d, ch, len, pkt)
      case End => TestDone(d)
      case RadioEnd(crcOk, content) => RadioEndStep(d, crcOk, content)
  }

  function Run(t: PowerTable, d: Dtm, steps: seq<Step>): Dtm
    decreases steps
  {
    if steps == [] then d else Run(t, Apply(t, d, steps[0]), steps[1..])
  }

  lemma {:induction false} RunConcat(t: PowerTable, d: Dtm, a: seq<Step>, b: seq<Step>)
    ensures Run(t, d, a + b) == Run(t, Run(t, d, a), b)
    decreases a
  {
    if a == [] {
      assert a + b == b;
    } else {
      assert (a + b)[1..] == a[1..] + b;
      RunConcat(t, Apply(t, d, a[0]), a[1..], b);
    }
  }

  lemma RunOne(t: PowerTable, d: Dtm, s: Step)
    ensures Run(t, d, [s]) == Apply(t, d, s)
  {
    assert Run(t, Apply(t, d, s), []) == Apply(t, d, s);
  }
}
