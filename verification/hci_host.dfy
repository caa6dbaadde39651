/** The other end of the wire: a host that writes commands with the standard's opcodes and
    parameter orders (Vol 4 Part E sections 7.3, 7.4 and 7.8) and reads the events it gets. */
module HciHost {
  import opened Bytes
  import opened H4Stream
  import opened HciCommands

  datatype HostRequest =
    | Reset
    | ReadBdAddr
    | ReadLocalFeatures
    | ReceiverTestV1(ch: byte)
    | ReceiverTestV2(ch: byte, phy: byte, modulation: byte)
    | ReceiverTestV3(ch: byte, phy: byte, modulation: byte, cteLength: byte, cteType: byte, slots: byte, antennas: seq<byte>)
    | TransmitterTestV1(ch: byte, length: byte, payload: byte)
    | TransmitterTestV2(ch: byte, length: byte, payload: byte, phy: byte)
    | TransmitterTestV3(ch: byte, length: byte, payload: byte, phy: byte, cteLength: byte, cteType: byte, antennas: seq<byte>)
    | TransmitterTestV4(ch: byte, length: byte, payload: byte, phy: byte, cteLength: byte, cteType: byte, antennas: seq<byte>, power: byte)
    | TestEnd
    | Other(opcode: uint16, params: seq<byte>)

  const Known: set<int> :=
    {0x0C03, 0x1009, 0x2003, 0x201D, 0x201E, 0x201F, 0x2033, 0x2034, 0x204F, 0x2050, 0x207B}

  predicate Writable(h: HostRequest) {
    match h
    case ReceiverTestV3(_, _, _, _, _, _, antennas) => |antennas| <= 248
    case TransmitterTestV3(_, _, _, _, _, _, antennas) => |antennas| <= 248
    case TransmitterTestV4(_, _, _, _, _, _, antennas, _) => |antennas| <= 247
    case Other(opcode, params) => opcode !in Known && |params| <= 255
    case _ => true
  }

  function OpcodeOf(h: HostRequest): uint16 {
    match h
    case Reset => 0x0C03
    case ReadBdAddr => 0x1009
    case ReadLocalFeatures => 0x2003
    case ReceiverTestV1(_) => 0x201D
    case ReceiverTestV2(_, _, _) => 0x2033
    case ReceiverTestV3(_, _, _, _, _, _, _) => 0x204F
    case TransmitterTestV1(_, _, _) => 0x201E
    case TransmitterTestV2(_, _, _, _) => 0x2034
    case TransmitterTestV3(_, _, _, _, _, _, _) => 0x2050
    case TransmitterTestV4(_, _, _, _, _, _, _, _) => 0x207B
    case TestEnd => 0x201F
    case Other(opcode, _) => opcode
  }

  function ParamsOf(h: HostRequest): seq<byte>
    requires Writable(h)
  {
    match h
    case ReceiverTestV1(ch) => [ch]
    case ReceiverTestV2(ch, phy, modulation) => [ch, phy, modulation]
    case ReceiverTestV3(ch, phy, modulation, cteLength, cteType, slots, antennas) =>
      [ch, phy, modulation, cteLength, cteType, slots, |antennas|] + antennas
    case TransmitterTestV1(ch, length, payload) => [ch, length, payload]
    case TransmitterTestV2(ch, length, payload, phy) => [ch, length, payload, phy]
    case TransmitterTestV3(ch, length, payload, phy, cteLength, cteType, antennas) =>
      [ch, length, payload, phy, cteLength, cteType, |antennas|] + antennas
    case TransmitterTestV4(ch, length, payload, phy, cteLength, cteType, antennas, power) =>
      [ch, length, payload, phy, cteLength, cteType, |antennas|] + antennas + [power]
    case Other(_, params) => params
    case _ => []
  }

  /** Header and parameters, as they lie in the receive buffer. */
  function Octets(h: HostRequest): seq<byte>
    requires Writable(h)
  {
    [OpcodeOf(h) % 0x100, OpcodeOf(h) / 0x100, |ParamsOf(h)|] + ParamsOf(h)
  }

  /** What the host means. Fields a version lacks: LE 1M, standard modulation, no tone
      extension over a pattern of two antennas, and the highest power. */
  function Meaning(h: HostRequest): Command
    requires Writable(h)
  {
    match h
    case Reset => CmdReset
    case ReadBdAddr => CmdReadBdAddr
    case ReadLocalFeatures => CmdReadFeatures
    case ReceiverTestV1(ch) => CmdRxTest(RxParams(ch, 1, 0, 0, 0, 2))
    case ReceiverTestV2(ch, phy, modulation) => CmdRxTest(RxParams(ch, phy, modulation, 0, 0, 2))
    case ReceiverTestV3(ch, phy, modulation, cteLength, cteType, _, antennas) =>
      CmdRxTest(RxParams(ch, phy, modulation, cteLength, cteType, |antennas|))
    case TransmitterTestV1(ch, length, payload) => CmdTxTest(TxParams(ch, length, payload, 1, 0, 0, 2, 0x7F))
    case TransmitterTestV2(ch, length, payload, phy) => CmdTxTest(TxParams(ch, length, payload, phy, 0, 0, 2, 0x7F))
    case TransmitterTestV3(ch, length, payload, phy, cteLength, cteType, antennas) =>
      CmdTxTest(TxParams(ch, length, payload, phy, cteLength, cteType, |antennas|, 0x7F))
    case TransmitterTestV4(ch, length, payload, phy, cteLength, cteType, antennas, power) =>
      CmdTxTest(TxParams(ch, length, payload, phy, cteLength, cteType, |antennas|, power))
    case TestEnd => CmdTestEnd
    case Other(_, _) => CmdUnknown
  }

  /** Every command a host writes, in every version and with every field value, is decoded as
      meant, whatever lies behind it in the receive buffer. */
  lemma CommandRoundTrip(h: HostRequest, tail: seq<byte>)
    requires Writable(h) && |Octets(h)| + |tail| >= CMD_MEMORY
    ensures Opcode(Octets(h) + tail) == OpcodeOf(h)
    ensures Decode(Octets(h) + tail) == Meaning(h)
  {
    var b, mem, n := Octets(h), Octets(h) + tail, |Octets(h)|;
    assert forall i :: 0 <= i < n ==> mem[i] == b[i];
    assert forall i :: 3 <= i < n ==> b[i] == ParamsOf(h)[i - 3];
    assert Opcode(mem) == OpcodeOf(h);
    if h.TransmitterTestV4? {
      assert mem[9] == |h.antennas| && mem[10 + |h.antennas|] == h.power;
    }
  }

  /** It holds every octet the device reads. */
  lemma WrittenIsComplete(h: HostRequest)
    requires Writable(h)
    ensures Complete(Octets(h))
  {
    var b := Octets(h);
    assert Opcode(b) == OpcodeOf(h);
    assert forall i :: 3 <= i < |b| ==> b[i] == ParamsOf(h)[i - 3];
  }

  /** On the wire it is a command packet. */
  lemma WrittenOnWire(h: HostRequest)
    requires Writable(h)
    ensures Sendable(HostCommand(OpcodeOf(h), ParamsOf(h)))
    ensures Written(HostCommand(OpcodeOf(h), ParamsOf(h))) == [0x01] + Octets(h)
    ensures AsItem(HostCommand(OpcodeOf(h), ParamsOf(h))) == Pkt(Packet(0x01, Octets(h)))
  {}

  // ------------------------------------------------------------------ events

  datatype HostEvent = Answered(opcode: uint16, ret: seq<byte>) | Unreadable

  /** A host takes a frame for an answer only if it is a Command Complete event of the right
      length that allows one more command. */
  function ReadEvent(f: seq<byte>): HostEvent {
    if |f| >= 6 && f[0] == 0x04 && f[1] == 0x0E && f[2] == |f| - 3 && f[3] == 0x01
    then Answered(f[4] + 0x100 * (f[5] as int), f[6..])
    else Unreadable
  }

  /** The device's frames are such events, and carry what it answers. */
  lemma EventRoundTrip(op: uint16, ret: seq<byte>)
    requires |ret| <= 250
    ensures ReadEvent(EventFrame(op, ret)) == Answered(op, ret)
  {
    FrameExactly(op, ret);
  }
}
