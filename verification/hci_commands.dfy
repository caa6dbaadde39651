/** HCI commands and events (Vol 4 Part E sections 5.4 and 7.8.28 to 7.8.30): how command
    parameters are read out of a receive buffer, what each command should make the engine
    do, and what it should answer. The status tables here depend on the command alone; the
    handlers of `DtmHci` (dtm_hci.dfy) reach them by early returns over engine results. */
module HciCommands {
  import opened Bytes
  import opened DtmHw
  import opened DtmPdu
  import opened DtmState
  import H4Stream

  const OP_RESET: uint16 := 0x0C03
  const OP_READ_BD_ADDR: uint16 := 0x1009
  const OP_READ_LOCAL_FEATURES: uint16 := 0x2003
  const OP_RX_TEST: uint16 := 0x201D
  const OP_TX_TEST: uint16 := 0x201E
  const OP_TEST_END: uint16 := 0x201F
  const OP_ENH_RX_TEST: uint16 := 0x2033
  const OP_ENH_TX_TEST: uint16 := 0x2034
  const OP_RX_TEST_V3: uint16 := 0x204F
  const OP_TX_TEST_V3: uint16 := 0x2050
  const OP_TX_TEST_V4: uint16 := 0x207B

  const SUCCESS: byte := 0x00
  const UNKNOWN_CMD: byte := 0x01
  const HW_FAILURE: byte := 0x03
  const CMD_DISALLOWED: byte := 0x0C
  const UNSUPP_FEATURE_PARAM_VAL: byte := 0x11
  const INVALID_PARAM: byte := 0x12

  const MAX_ANT_PATTERN_LENGTH: nat := 0x4B

  /** Least receive buffer: header, and the parameters of the longest test command. */
  const CMD_MEMORY: nat := 266

  datatype RxParams = RxParams(ch: byte, phy: byte, modIndex: byte, cteLen: byte, cteType: byte, patternLen: byte)

  datatype TxParams = TxParams(
    ch: byte, len: byte, payload: byte, phy: byte, cteLen: byte, cteType: byte, patternLen: byte, power: byte)

  datatype Command =
    | CmdReset
    | CmdReadBdAddr
    | CmdReadFeatures
    | CmdRxTest(rx: RxParams)
    | CmdTxTest(tx: TxParams)
    | CmdTestEnd
    | CmdUnknown

  predicate IsRxTest(op: uint16) { op == OP_RX_TEST || op == OP_ENH_RX_TEST || op == OP_RX_TEST_V3 }

  predicate IsTxTest(op: uint16) {
    op == OP_TX_TEST || op == OP_ENH_TX_TEST || op == OP_TX_TEST_V3 || op == OP_TX_TEST_V4
  }

  function Opcode(mem: seq<byte>): uint16
    requires |mem| >= 2
  {
    Le16(mem[0], mem[1])
  }

  /** Parameters start after the three header octets; each version adds fields. The read
      is not bounded by the announced length: it may meet what the buffer held before. */
  function RxParamsAt(op: uint16, mem: seq<byte>): RxParams
    requires |mem| >= CMD_MEMORY
  {
    if op == OP_RX_TEST then RxParams(mem[3], 1, 0, 0, 0, 2)
    else if op == OP_ENH_RX_TEST then RxParams(mem[3], mem[4], mem[5], 0, 0, 2)
    else RxParams(mem[3], mem[4], mem[5], mem[6], mem[7], mem[9])
  }

  function TxParamsAt(op: uint16, mem: seq<byte>): TxParams
    requires |mem| >= CMD_MEMORY
  {
    if op == OP_TX_TEST then TxParams(mem[3], mem[4], mem[5], 1, 0, 0, 2, 0x7F)
    else if op == OP_ENH_TX_TEST then TxParams(mem[3], mem[4], mem[5], mem[6], 0, 0, 2, 0x7F)
    else if op == OP_TX_TEST_V3 then TxParams(mem[3], mem[4], mem[5], mem[6], mem[7], mem[8], mem[9], 0x7F)
    else TxParams(mem[3], mem[4], mem[5], mem[6], mem[7], mem[8], mem[9], mem[10 + mem[9]])
  }

  function Decode(mem: seq<byte>): Command
    requires |mem| >= CMD_MEMORY
  {
    var op := Opcode(mem);
    if op == OP_RESET then CmdReset
    else if op == OP_READ_BD_ADDR then CmdReadBdAddr
    else if op == OP_READ_LOCAL_FEATURES then CmdReadFeatures
    else if IsRxTest(op) then CmdRxTest(RxParamsAt(op, mem))
    else if IsTxTest(op) then CmdTxTest(TxParamsAt(op, mem))
    else if op == OP_TEST_END then CmdTestEnd
    else CmdUnknown
  }

  // ------------------------------------------------------------------ status

  predicate SupportedPhy(phy: byte) { 1 <= phy <= 4 }

  function PhyFor(phy: byte): Phy
    requires SupportedPhy(phy)
  {
    if phy == 1 then Phy1M else if phy == 2 then Phy2M else if phy == 3 then PhyCodedS8 else PhyCodedS2
  }

  /** Tone extension is not supported; how a request for it is refused. */
  function CteStatus(phy: byte, cteLen: byte, cteType: byte, patternLen: byte): byte {
    if cteLen == 0 then SUCCESS
    else if phy != 3 && phy != 4 then CMD_DISALLOWED
    else if patternLen > MAX_ANT_PATTERN_LENGTH || cteType > 2 then HW_FAILURE
    else UNSUPP_FEATURE_PARAM_VAL
  }

  function RxStatus(p: RxParams): byte {
    if !SupportedPhy(p.phy) || p.modIndex == 1 then UNSUPP_FEATURE_PARAM_VAL
    else if p.modIndex > 1 then HW_FAILURE
    else if p.cteLen != 0 then CteStatus(p.phy, p.cteLen, p.cteType, p.patternLen)
    else if p.ch > PHYS_CH_MAX then INVALID_PARAM
    else SUCCESS
  }

  /** -127..20 dBm, or the two codes for the extremes of the table. */
  predicate ValidPower(power: byte) {
    power == 0x7E || power == 0x7F || -0x7F <= AsInt8(power) <= 20
  }

  function TxStatus(p: TxParams): byte {
    if p.payload > 7 || !SupportedPhy(p.phy) then UNSUPP_FEATURE_PARAM_VAL
    else if p.cteLen != 0 then CteStatus(p.phy, p.cteLen, p.cteType, p.patternLen)
    else if !ValidPower(p.power) then UNSUPP_FEATURE_PARAM_VAL
    else SUCCESS
  }

  // ---------------------------------------------------- calls into the engine

  function RxCalls(p: RxParams): seq<Step> {
    if !SupportedPhy(p.phy) then [Prepare]
    else if p.modIndex != 0 || p.cteLen != 0 then [Prepare, SetPhy(PhyFor(p.phy))]
    else [Prepare, SetPhy(PhyFor(p.phy)), Receive(p.ch)]
  }

  function PowerStep(power: byte, ch: byte): Step {
    if power == 0x7E then SetPower(RequestMin, 0, ch)
    else if power == 0x7F then SetPower(RequestMax, 0, ch)
    else SetPower(RequestVal, AsInt8(power), ch)
  }

  function TxCalls(p: TxParams): seq<Step> {
    if p.payload > 7 || !SupportedPhy(p.phy) then [Prepare]
    else if p.cteLen != 0 || !ValidPower(p.power) then [Prepare, SetPhy(PhyFor(p.phy))]
    else [Prepare, SetPhy(PhyFor(p.phy)), PowerStep(p.power, p.ch), Transmit(p.ch, p.len, TypeOf(p.payload))]
  }

  /** What a command makes the engine do: a sequence of calls fixed by the command. */
  function Calls(c: Command): seq<Step> {
    match c
    case CmdReset => [Reset]
    case CmdRxTest(p) => RxCalls(p)
    case CmdTxTest(p) => TxCalls(p)
    case CmdTestEnd => [End]
    case _ => []
  }

  // ------------------------------------------------------------------ answers

  /** Transmit side of the transport: free buffers, and the frames queued so far. */
  datatype Tx = Tx(free: nat, frames: seq<seq<byte>>)

  /** Command Complete: event code 0x0E, length, one more command allowed, opcode, returns. */
  function EventFrame(op: uint16, ret: seq<byte>): seq<byte>
    requires |ret| <= 250
  {
    H4Stream.Frame(H4Stream.H4_EVT, [0x0E, 3 + |ret|], [1, Lo(op), Hi(op)] + ret)
  }

  function Send(tx: Tx, op: uint16, ret: seq<byte>): Tx
    requires |ret| <= 250
  {
    if tx.free == 0 then tx else Tx(tx.free - 1, tx.frames + [EventFrame(op, ret)])
  }

  /** Return parameters, given the packet count the engine held when the command came. */
  function Returns(c: Command, count: uint16): (ret: seq<byte>)
    ensures 1 <= |ret| <= 9
  {
    match c
    case CmdReset => [SUCCESS]
    case CmdReadBdAddr => [SUCCESS, 0, 0, 0, 0, 0, 0]
    case CmdReadFeatures => [SUCCESS, 0x20, 0x09, 0, 0, 0, 0, 0, 0]
    case CmdRxTest(p) => [RxStatus(p)]
    case CmdTxTest(p) => [TxStatus(p)]
    case CmdTestEnd => [SUCCESS, Lo(count), Hi(count)]
    case CmdUnknown => [UNKNOWN_CMD]
  }

  /** The effect of processing one command packet whose buffer holds `mem`. */
  function Handled(t: PowerTable, d: Dtm, tx: Tx, mem: seq<byte>): (Dtm, Tx)
    requires |mem| >= CMD_MEMORY
  {
    var c := Decode(mem);
    var next := Run(t, d, Calls(c));
    (next, if next.panicked then tx else Send(tx, Opcode(mem), Returns(c, d.rxPktCount)))
  }

  // ------------------------------------------------- properties of the tables

  /** A frame, octet by octet: H4 event indicator, Command Complete, length of the rest, one
      more command allowed, opcode with its low octet first, return parameters. */
  lemma FrameExactly(op: uint16, ret: seq<byte>)
    requires |ret| <= 250
    ensures EventFrame(op, ret) == [0x04, 0x0E, 3 + |ret|, 0x01, op % 0x100, op / 0x100] + ret
  {}

  /** Which commands the device never answers: transmitter tests good in every parameter
      but the channel, whose power request trips the channel assertion. */
  predicate Fatal(c: Command) {
    c.CmdTxTest? && TxStatus(c.tx) == SUCCESS && c.tx.ch > PHYS_CH_MAX
  }

  lemma RunTwo(t: PowerTable, d: Dtm, a: Step, b: Step)
    ensures Run(t, d, [a, b]) == Apply(t, Apply(t, d, a), b)
  {
    assert [a, b][1..] == [b];
    RunOne(t, Apply(t, d, a), b);
  }

  lemma RunThree(t: PowerTable, d: Dtm, a: Step, b: Step, c: Step)
    ensures Run(t, d, [a, b, c]) == Apply(t, Apply(t, Apply(t, d, a), b), c)
  {
    assert [a, b, c][1..] == [b, c];
    RunTwo(t, Apply(t, d, a), b, c);
  }

  lemma RunFour(t: PowerTable, d: Dtm, a: Step, b: Step, c: Step, e: Step)
    ensures Run(t, d, [a, b, c, e]) == Apply(t, Apply(t, Apply(t, Apply(t, d, a), b), c), e)
  {
    assert [a, b, c, e][1..] == [b, c, e];
    RunThree(t, Apply(t, d, a), b, c, e);
  }

  // ------------------------------------------------ leftovers as parameters

  /** Octets a command's parameters are read from, its header included; the power of the
      longest transmitter test stands behind its antenna pattern. */
  function Needed(op: uint16): nat {
    if op == OP_RX_TEST then 4
    else if op == OP_ENH_RX_TEST || op == OP_TX_TEST then 6
    else if op == OP_ENH_TX_TEST then 7
    else if op == OP_RX_TEST_V3 || op == OP_TX_TEST_V3 || op == OP_TX_TEST_V4 then 10
    else 3
  }

  /** The packet holds every octet its opcode makes the device read. */
  predicate Complete(b: seq<byte>)
    requires |b| >= 3
  {
    |b| >= Needed(Opcode(b)) && (Opcode(b) == OP_TX_TEST_V4 ==> |b| >= 11 + (b[9] as int))
  }

  lemma CompleteIsEnough(b: seq<byte>, t1: seq<byte>, t2: seq<byte>)
    requires |b| >= 3 && |b| + |t1| >= CMD_MEMORY && |b| + |t2| >= CMD_MEMORY && Complete(b)
    ensures Decode(b + t1) == Decode(b + t2)
  {
    assert forall i :: 0 <= i < |b| ==> (b + t1)[i] == b[i] == (b + t2)[i];
  }

  /** The octet that tells two leftovers apart: the first missing one that is used. */
  function Missing(b: seq<byte>): (k: nat)
    requires |b| >= 3 && !Complete(b)
    ensures |b| <= k < CMD_MEMORY
  {
    var n := Needed(Opcode(b));
    if |b| < n then (if Opcode(b) == OP_RX_TEST_V3 || Opcode(b) == OP_TX_TEST_V3 || Opcode(b) == OP_TX_TEST_V4 then 9 else n - 1)
    else 10 + (b[9] as int)
  }

  /** Leftovers of `n` octets, all zero but for one. */
  function Leftover(n: nat, k: nat, value: byte): (t: seq<byte>)
    ensures |t| == n && forall i :: 0 <= i < n ==> t[i] == if i == k then value else 0
  {
    seq(n, i => if i == k then value else 0)
  }

  lemma IncompleteIsNot(b: seq<byte>, n: nat)
    requires |b| >= 3 && |b| + n >= CMD_MEMORY && !Complete(b)
    ensures Decode(b + Leftover(n, Missing(b) - |b|, 0)) != Decode(b + Leftover(n, Missing(b) - |b|, 1))
  {
    var k, m0, m1 := Missing(b), b + Leftover(n, Missing(b) - |b|, 0), b + Leftover(n, Missing(b) - |b|, 1);
    assert m0[k] == 0 && m1[k] == 1;
    assert forall i :: 0 <= i < |b| + n && i != k ==> m0[i] == m1[i];
    assert Opcode(m0) == Opcode(b) == Opcode(m1);
    if Opcode(b) == OP_TX_TEST_V4 && |b| >= 10 { assert m0[9] == b[9] == m1[9]; }
  }

  /** What a command means depends on itself alone exactly when it holds every octet the
      device reads for its opcode; otherwise earlier packets' octets decide. */
  lemma OwnOctetsExactly(b: seq<byte>, n: nat)
    requires |b| >= 3 && |b| + n >= CMD_MEMORY
    ensures (forall t1: seq<byte>, t2: seq<byte> :: |t1| == n && |t2| == n ==> Decode(b + t1) == Decode(b + t2)) <==> Complete(b)
  {
    if Complete(b) {
      forall t1: seq<byte>, t2: seq<byte> | |t1| == n && |t2| == n ensures Decode(b + t1) == Decode(b + t2) {
        CompleteIsEnough(b, t1, t2);
      }
    } else {
      IncompleteIsNot(b, n);
    }
  }

  /** A transmitter test without parameters stops the device or is answered, depending on
      what an earlier packet left in its buffer. */
  lemma LeftoversDecide(n: nat)
    requires n >= CMD_MEMORY - 3
    ensures Fatal(Decode([0x1E, 0x20, 0] + Leftover(n, 0, 40)))
    ensures !Fatal(Decode([0x1E, 0x20, 0] + Leftover(n, 0, 39)))
  {
    var m0, m1 := [0x1E, 0x20, 0] + Leftover(n, 0, 40), [0x1E, 0x20, 0] + Leftover(n, 0, 39);
    assert m0[3] == 40 && m1[3] == 39 && m0[5] == 0 && m1[5] == 0;
    assert Opcode(m0) == OP_TX_TEST && Opcode(m1) == OP_TX_TEST;
  }

  /** Not every octet read matters: this receiver test lacks three of those it is decoded
      from, but with its tone length zero they change neither calls nor answer. */
  lemma HarmlessExample(t1: seq<byte>, t2: seq<byte>, count: uint16)
    requires |t1| >= CMD_MEMORY && |t2| >= CMD_MEMORY
    ensures var b := [0x4F, 0x20, 4, 0, 1, 0, 0];
            && !Complete(b)
            && Calls(Decode(b + t1)) == Calls(Decode(b + t2))
            && Returns(Decode(b + t1), count) == Returns(Decode(b + t2), count)
  {
    var b: seq<byte> := [0x4F, 0x20, 4, 0, 1, 0, 0];
    var m1, m2 := b + t1, b + t2;
    assert Opcode(b) == OP_RX_TEST_V3;
    assert m1[..7] == b && m2[..7] == b;
    assert m1[3] == 0 && m1[4] == 1 && m1[5] == 0 && m1[6] == 0;
    assert m2[3] == 0 && m2[4] == 1 && m2[5] == 0 && m2[6] == 0;
    assert Opcode(m1) == OP_RX_TEST_V3 && Opcode(m2) == OP_RX_TEST_V3;
  }

  // -------------------------------------------- what test commands may ask for

  /** A receiver test is accepted exactly with a PHY, standard modulation, no tone
      extension and a channel up to 39. */
  lemma RxAcceptedExactly(p: RxParams)
    ensures RxStatus(p) == SUCCESS <==> SupportedPhy(p.phy) && p.modIndex == 0 && p.cteLen == 0 && p.ch <= PHYS_CH_MAX
  {}

  /** A transmitter test likewise, but for the channel; any length will do. */
  lemma TxAcceptedExactly(p: TxParams)
    ensures TxStatus(p) == SUCCESS <==> SupportedPhy(p.phy) && p.payload <= 7 && p.cteLen == 0 && ValidPower(p.power)
  {}

  /** The fault each status of a receiver test stands for, by its number: 0x11 a PHY or
      modulation or tone extension that is not supported, 0x03 a value out of range, 0x0C a
      tone extension on an uncoded PHY, 0x12 the channel, 0x00 none. */
  lemma RxStatusExactly(p: RxParams)
    ensures var phyOk, tone, coded := 1 <= p.phy <= 4, p.modIndex == 0 && p.cteLen != 0, p.phy == 3 || p.phy == 4;
            var toneOk := p.patternLen <= 75 && p.cteType <= 2;
            && (RxStatus(p) == 0x11 <==> !phyOk || p.modIndex == 1 || (tone && coded && toneOk))
            && (RxStatus(p) == 0x03 <==> phyOk && (p.modIndex > 1 || (tone && coded && !toneOk)))
            && (RxStatus(p) == 0x0C <==> phyOk && tone && !coded)
            && (RxStatus(p) == 0x12 <==> phyOk && p.modIndex == 0 && p.cteLen == 0 && p.ch > 39)
            && (RxStatus(p) == 0x00 <==> phyOk && p.modIndex == 0 && p.cteLen == 0 && p.ch <= 39)
  {}

  /** The same for a transmitter test; its power is 127 or 126 (the highest and lowest) or a
      signed octet from -127 to 20 dBm. */
  lemma TxStatusExactly(p: TxParams)
    ensures var known, coded := p.payload <= 7 && 1 <= p.phy <= 4, p.phy == 3 || p.phy == 4;
            var toneOk := p.patternLen <= 75 && p.cteType <= 2;
            var powerOk := p.power <= 20 || p.power >= 0x81 || p.power == 0x7E || p.power == 0x7F;
            && (TxStatus(p) == 0x11 <==> !known || (p.cteLen != 0 && coded && toneOk) || (p.cteLen == 0 && !powerOk))
            && (TxStatus(p) == 0x03 <==> known && p.cteLen != 0 && coded && !toneOk)
            && (TxStatus(p) == 0x0C <==> known && p.cteLen != 0 && !coded)
            && (TxStatus(p) == 0x00 <==> known && p.cteLen == 0 && powerOk)
  {}

  /** HCI's PHY numbers: 1M, 2M, coded with 8 and with 2 symbols a bit. */
  predicate PhyNumber(phy: byte, mode: RadioMode) {
    || (phy == 1 && mode == Ble1Mbit) || (phy == 2 && mode == Ble2Mbit)
    || (phy == 3 && mode == BleLr125Kbit) || (phy == 4 && mode == BleLr500Kbit)
  }

  lemma PhyNumbersExactly(phy: byte, mode: RadioMode)
    ensures PhyNumber(phy, mode) <==> SupportedPhy(phy) && PhyMode(PhyFor(phy)) == mode
  {}

  /** Bit `k` of the features answered: data length extension, 2M and coded PHY, and no other
      (Vol 6 Part B section 4.6). */
  lemma FeatureBits(k: nat, count: uint16)
    requires k < 64
    ensures var ret := Returns(CmdReadFeatures, count);
            |ret| == 9 && ret[0] == 0x00 && (Bit(ret[1 + k / 8], k % 8) <==> k == 5 || k == 8 || k == 11)
  {
    var ret := Returns(CmdReadFeatures, count);
    assert ret == [0, 0x20, 0x09, 0, 0, 0, 0, 0, 0];
  }

  /** The other answers: success alone, a zero address, the count with its low octet first,
      0x01 for a command that is not known. */
  lemma ReturnsExactly(count: uint16)
    ensures Returns(CmdReset, count) == [0x00]
    ensures Returns(CmdReadBdAddr, count) == [0x00, 0, 0, 0, 0, 0, 0]
    ensures Returns(CmdTestEnd, count) == [0x00, count % 0x100, count / 0x100]
    ensures Returns(CmdUnknown, count) == [0x01]
  {}
}
