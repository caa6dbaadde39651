/** The HCI transport of the tester (src/transport/dtm_hci.c): handlers that drive the
    engine call by call and answer early on the first refusal, over the UART framer. */
module DtmHciTransport {
  import opened Bytes
  import opened H4Stream
  import opened DtmHw
  import opened DtmPdu
  import opened DtmState
  import opened DtmRuns
  import opened DtmEngine
  import opened HciCommands
  import opened HciUartTransport
  import opened HciWorld

  /** Writes a Command Complete event with the given return parameters. */
  method CommandComplete(tx: HciTx, opcode: uint16, ret: seq<byte>) returns (err: int)
    requires |ret| <= 9 && tx.size >= CMD_MEMORY
    modifies tx
    ensures tx.State() == Send(old(tx.State()), opcode, ret)
    ensures err == if old(tx.free) > 0 then 0 else ENOMEM
  {
    err := tx.HciUartWrite(H4_EVT, [0x0E, 3 + |ret|], [1, Lo(opcode), Hi(opcode)] + ret);
  }

  method HciToDtmPayload(hciPld: byte) returns (err: int, pld: PacketType)
    ensures err == if hciPld <= 7 then 0 else EINVAL
    ensures hciPld <= 7 ==> pld == TypeOf(hciPld)
  {
    err, pld := 0, Prbs9;
    match hciPld {
      case 0 => pld := Prbs9;
      case 1 => pld := Fill0F;
      case 2 => pld := Fill55;
      case 3 => pld := Prbs15;
      case 4 => pld := FillFF;
      case 5 => pld := Fill00;
      case 6 => pld := FillF0;
      case 7 => pld := FillAA;
      case _ => err := EINVAL;
    }
  }

  method ModSet(mod: byte) returns (err: int)
    ensures err == if mod == 0 then 0 else if mod == 1 then ENOTSUP else EINVAL
  {
    if mod == 0 {
      return 0;
    } else if mod == 1 {
      return ENOTSUP;
    }
    return EINVAL;
  }

  /** `cte_set` over an engine without tone extension. */
  method CteSet(cteLen: byte, cteType: byte, patternLen: byte) returns (err: int)
    ensures err == if cteLen == 0 then 0
                   else if patternLen > MAX_ANT_PATTERN_LENGTH || cteType > 2 then EINVAL else ENOTSUP
  {
    if cteLen == 0 {
      return 0;
    }
    if patternLen > MAX_ANT_PATTERN_LENGTH {
      return EINVAL;
    }
    if cteType == 0 || cteType == 1 || cteType == 2 {
      err := ENOTSUP;
    } else {
      err := EINVAL;
    }
  }

  method PhySet(dtm: DtmInstance, phy: byte) returns (err: int)
    requires dtm.Valid() && !dtm.panicked
    modifies dtm
    ensures dtm.Valid()
    ensures if SupportedPhy(phy) then
              && dtm.Snapshot() == SetPhyStep(dtm.powers, old(dtm.Snapshot()), PhyFor(phy))
              && err == RadioInitErr(dtm.powers, old(dtm.Snapshot()).(mode := PhyMode(PhyFor(phy))))
            else dtm.Snapshot() == old(dtm.Snapshot()) && err == EINVAL
  {
    match phy {
      case 1 => err := dtm.SetupSetPhy(Phy1M);
      case 2 => err := dtm.SetupSetPhy(Phy2M);
      case 3 => err := dtm.SetupSetPhy(PhyCodedS8);
      case 4 => err := dtm.SetupSetPhy(PhyCodedS2);
      case _ => err := EINVAL;
    }
  }

  method TxPowerSet(dtm: DtmInstance, power: byte, channel: byte) returns (err: int)
    requires dtm.Valid() && !dtm.panicked
    modifies dtm
    ensures dtm.Valid() && err == (if ValidPower(power) then 0 else EINVAL)
    ensures dtm.Snapshot() == if ValidPower(power) then Apply(dtm.powers, old(dtm.Snapshot()), PowerStep(power, channel))
                              else old(dtm.Snapshot())
  {
    if power == 0x7E {
      dtm.SetupSetTransmitPower(RequestMin, 0, channel);
    } else if power == 0x7F {
      dtm.SetupSetTransmitPower(RequestMax, 0, channel);
    } else if -0x7F <= AsInt8(power) <= 20 {
      dtm.SetupSetTransmitPower(RequestVal, AsInt8(power), channel);
    } else {
      return EINVAL;
    }
    return 0;
  }

  /** Answers twice exactly when the radio refuses to initialise: the failure is reported,
      and then success as well. */
  method HciReset(dtm: DtmInstance, tx: HciTx) returns (err: int)
    requires dtm.Valid() && !dtm.panicked && tx.size >= CMD_MEMORY
    modifies dtm, tx
    ensures dtm.Valid() && dtm.Snapshot() == ResetStep(dtm.powers, old(dtm.Snapshot()))
    ensures tx.State() ==
            if RadioInitErr(dtm.powers, old(dtm.Snapshot()).(mode := Ble1Mbit)) == 0
            then Send(old(tx.State()), OP_RESET, [SUCCESS])
            else Send(Send(old(tx.State()), OP_RESET, [HW_FAILURE]), OP_RESET, [SUCCESS])
  {
    err := dtm.SetupReset();
    if err != 0 {
      var _ := CommandComplete(tx, OP_RESET, [HW_FAILURE]);
    }
    err := CommandComplete(tx, OP_RESET, [SUCCESS]);
  }

  method HciRxTest(dtm: DtmInstance, tx: HciTx, opcode: uint16, mem: seq<byte>) returns (err: int)
    requires dtm.Valid() && !dtm.panicked && tx.size >= CMD_MEMORY
    requires IsRxTest(opcode) && |mem| >= CMD_MEMORY && ConfigInv(dtm.powers, dtm.Snapshot())
    modifies dtm, dtm.pdu0, dtm.pdu1, tx
    ensures dtm.Valid()
    ensures dtm.Snapshot() == Run(dtm.powers, old(dtm.Snapshot()), RxCalls(RxParamsAt(opcode, mem)))
    ensures tx.State() == Send(old(tx.State()), opcode, [RxStatus(RxParamsAt(opcode, mem))])
  {
    var chan: byte := mem[3];
    var phy: byte, mod: byte, cteLen: byte, cteType: byte, patternLen: byte := 1, 0, 0, 0, 2;
    if opcode != OP_RX_TEST {
      phy, mod := mem[4], mem[5];
      if opcode == OP_RX_TEST_V3 {
        cteLen, cteType, patternLen := mem[6], mem[7], mem[9];
      }
    }
    var p := RxParams(chan, phy, mod, cteLen, cteType, patternLen);
    assert p == RxParamsAt(opcode, mem);
    ghost var t, d := dtm.powers, dtm.Snapshot();
    RunOne(t, d, Prepare);

    dtm.SetupPrepare();
    err := PhySet(dtm, phy);
    if err != 0 {
      err := CommandComplete(tx, opcode, [UNSUPP_FEATURE_PARAM_VAL]);
      return;
    }
    RunTwo(t, d, Prepare, SetPhy(PhyFor(phy)));
    RunThree(t, d, Prepare, SetPhy(PhyFor(phy)), Receive(chan));

    err := StartRx(dtm, tx, opcode, p);
  }

  /** The end of the receiver test handler: modulation, tone extension, start, answer. With
      `cteLen` zero by then, setting antenna slots is never reached. */
  method StartRx(dtm: DtmInstance, tx: HciTx, opcode: uint16, p: RxParams) returns (err: int)
    requires dtm.Valid() && !dtm.panicked && tx.size >= CMD_MEMORY && SupportedPhy(p.phy)
    modifies dtm, dtm.pdu0, dtm.pdu1, tx
    ensures dtm.Valid()
    ensures dtm.Snapshot() ==
            if p.modIndex == 0 && p.cteLen == 0 then ReceiveStep(old(dtm.Snapshot()), p.ch) else old(dtm.Snapshot())
    ensures tx.State() == Send(old(tx.State()), opcode, [RxStatus(p)])
  {
    err := ModSet(p.modIndex);
    if err == ENOTSUP {
      err := CommandComplete(tx, opcode, [UNSUPP_FEATURE_PARAM_VAL]);
      return;
    } else if err != 0 {
      err := CommandComplete(tx, opcode, [HW_FAILURE]);
      return;
    }
    if p.cteLen != 0 && p.phy != 3 && p.phy != 4 {
      err := CommandComplete(tx, opcode, [CMD_DISALLOWED]);
      return;
    }
    err := CteSet(p.cteLen, p.cteType, p.patternLen);
    if err == ENOTSUP {
      err := CommandComplete(tx, opcode, [UNSUPP_FEATURE_PARAM_VAL]);
      return;
    } else if err != 0 {
      err := CommandComplete(tx, opcode, [HW_FAILURE]);
      return;
    }
    err := dtm.TestReceive(p.ch);
    err := CommandComplete(tx, opcode, [StatusOf(err)]);
  }

  /** The answer to a test start's result. */
  function StatusOf(err: int): byte {
    if err == EINVAL then INVALID_PARAM else if err != 0 then HW_FAILURE else SUCCESS
  }

  /** A failed assertion in the power request leaves the command without an answer. */
  method HciTxTest(dtm: DtmInstance, tx: HciTx, opcode: uint16, mem: seq<byte>) returns (err: int)
    requires dtm.Valid() && !dtm.panicked && tx.size >= CMD_MEMORY
    requires IsTxTest(opcode) && |mem| >= CMD_MEMORY && ConfigInv(dtm.powers, dtm.Snapshot())
    modifies dtm, dtm.pdu0, tx
    ensures dtm.Valid()
    ensures dtm.Snapshot() == Run(dtm.powers, old(dtm.Snapshot()), TxCalls(TxParamsAt(opcode, mem)))
    ensures tx.State() == if dtm.panicked then old(tx.State())
                              else Send(old(tx.State()), opcode, [TxStatus(TxParamsAt(opcode, mem))])
  {
    var p := ReadTxParams(opcode, mem);
    ghost var t, d := dtm.powers, dtm.Snapshot();
    RunOne(t, d, Prepare);

    dtm.SetupPrepare();
    var pld;
    err, pld := HciToDtmPayload(p.payload);
    if err != 0 {
      err := CommandComplete(tx, opcode, [UNSUPP_FEATURE_PARAM_VAL]);
      return;
    }
    err := PhySet(dtm, p.phy);
    if err != 0 {
      err := CommandComplete(tx, opcode, [UNSUPP_FEATURE_PARAM_VAL]);
      return;
    }
    RunTwo(t, d, Prepare, SetPhy(PhyFor(p.phy)));
    RunFour(t, d, Prepare, SetPhy(PhyFor(p.phy)), PowerStep(p.power, p.ch), Transmit(p.ch, p.len, TypeOf(p.payload)));

    if p.cteLen != 0 && p.phy != 3 && p.phy != 4 {
      err := CommandComplete(tx, opcode, [CMD_DISALLOWED]);
      return;
    }
    err := CteSet(p.cteLen, p.cteType, p.patternLen);
    if err == ENOTSUP {
      err := CommandComplete(tx, opcode, [UNSUPP_FEATURE_PARAM_VAL]);
      return;
    } else if err != 0 {
      err := CommandComplete(tx, opcode, [HW_FAILURE]);
      return;
    }

    err := StartTx(dtm, tx, opcode, p.ch, p.len, pld, p.power);
  }

  method ReadTxParams(opcode: uint16, mem: seq<byte>) returns (p: TxParams)
    requires IsTxTest(opcode) && |mem| >= CMD_MEMORY
    ensures p == TxParamsAt(opcode, mem)
  {
    var phy: byte, cteLen: byte, cteType: byte, patternLen: byte, power: byte := 1, 0, 0, 2, 0x7F;
    if opcode != OP_TX_TEST {
      phy := mem[6];
      if opcode != OP_ENH_TX_TEST {
        cteLen, cteType, patternLen := mem[7], mem[8], mem[9];
        if opcode == OP_TX_TEST_V4 {
          power := mem[10 + patternLen];
        }
      }
    }
    p := TxParams(mem[3], mem[4], mem[5], phy, cteLen, cteType, patternLen, power);
  }

  /** The end of the transmitter test handler: power, start, answer. */
  method StartTx(dtm: DtmInstance, tx: HciTx, opcode: uint16, chan: byte, dataLen: byte, pld: PacketType, power: byte)
    returns (err: int)
    requires dtm.Valid() && !dtm.panicked && tx.size >= CMD_MEMORY && dtm.state == Idle && HasPattern(pld)
    modifies dtm, dtm.pdu0, tx
    ensures dtm.Valid()
    ensures dtm.Snapshot() ==
            if ValidPower(power)
            then Apply(dtm.powers, Apply(dtm.powers, old(dtm.Snapshot()), PowerStep(power, chan)), Transmit(chan, dataLen, pld))
            else old(dtm.Snapshot())
    ensures tx.State() == if dtm.panicked then old(tx.State())
                              else Send(old(tx.State()), opcode,
                                        [if ValidPower(power) then SUCCESS else UNSUPP_FEATURE_PARAM_VAL])
  {
    err := TxPowerSet(dtm, power, chan);
    if err != 0 {
      err := CommandComplete(tx, opcode, [UNSUPP_FEATURE_PARAM_VAL]);
      return;
    }
    if dtm.panicked {
      return;
    }
    err := dtm.TestTransmit(chan, dataLen, pld);
    err := CommandComplete(tx, opcode, [StatusOf(err)]);
  }

  method HciTestEnd(dtm: DtmInstance, tx: HciTx) returns (err: int)
    requires dtm.Valid() && !dtm.panicked && tx.size >= CMD_MEMORY
    modifies dtm, tx
    ensures dtm.Valid() && dtm.Snapshot() == TestDone(old(dtm.Snapshot()))
    ensures tx.State() ==
            Send(old(tx.State()), OP_TEST_END, [SUCCESS, Lo(old(dtm.rxPktCount)), Hi(old(dtm.rxPktCount))])
  {
    var cnt := dtm.TestEnd();
    err := CommandComplete(tx, OP_TEST_END, [SUCCESS, Lo(cnt), Hi(cnt)]);
  }

  /** `hci_cmd`: one command packet, whose buffer holds `mem`. */
  method HciCmd(dtm: DtmInstance, tx: HciTx, mem: seq<byte>) returns (err: int)
    requires dtm.Valid() && !dtm.panicked && tx.size >= CMD_MEMORY
    requires |mem| >= CMD_MEMORY && ConfigInv(dtm.powers, dtm.Snapshot())
    modifies dtm, dtm.pdu0, dtm.pdu1, tx
    ensures dtm.Valid()
    ensures (dtm.Snapshot(), tx.State()) == Handled(dtm.powers, old(dtm.Snapshot()), old(tx.State()), mem)
  {
    var cmd := Le16(mem[0], mem[1]);
    ghost var t, d := dtm.powers, dtm.Snapshot();
    if cmd == OP_RESET {
      RunOne(t, d, Reset);
      err := HciReset(dtm, tx);
    } else if cmd == OP_READ_BD_ADDR {
      err := CommandComplete(tx, OP_READ_BD_ADDR, [SUCCESS, 0, 0, 0, 0, 0, 0]);
    } else if cmd == OP_READ_LOCAL_FEATURES {
      err := CommandComplete(tx, OP_READ_LOCAL_FEATURES, [SUCCESS, 0x20, 0x09, 0, 0, 0, 0, 0, 0]);
    } else if cmd == OP_RX_TEST || cmd == OP_ENH_RX_TEST || cmd == OP_RX_TEST_V3 {
      RxTestAlive(t, d, RxParamsAt(cmd, mem));
      err := HciRxTest(dtm, tx, cmd, mem);
    } else if cmd == OP_TX_TEST || cmd == OP_ENH_TX_TEST || cmd == OP_TX_TEST_V3 || cmd == OP_TX_TEST_V4 {
      err := HciTxTest(dtm, tx, cmd, mem);
    } else if cmd == OP_TEST_END {
      RunOne(t, d, End);
      err := HciTestEnd(dtm, tx);
    } else {
      var _ := CommandComplete(tx, cmd, [UNKNOWN_CMD]);
      err := ENOTSUP;
    }
  }

  lemma RxTestAlive(t: PowerTable, d: Dtm, p: RxParams)
    requires ConfigInv(t, d) && !d.panicked
    ensures !Run(t, d, RxCalls(p)).panicked
  {
    RunOne(t, d, Prepare);
    if SupportedPhy(p.phy) {
      RunTwo(t, d, Prepare, SetPhy(PhyFor(p.phy)));
      RunThree(t, d, Prepare, SetPhy(PhyFor(p.phy)), Receive(p.ch));
    }
  }

  /** What the framer, which knows only the queue, adds to the log of all packets. */
  lemma ReadsOntoLog(c: Config, w: World, rx: Rx, data: seq<byte>)
    requires ValidConfig(c) && !Stopped(w) && w.taken <= |w.rx.out|
    requires rx == Rx(w.rx.phase, w.rx.free, w.rx.out[w.taken..])
    ensures var next, read := Next(c, w, UartRx(data)), FeedAll(c.size, rx, data);
            && next.rx.phase == read.phase && next.rx.free == read.free
            && w.rx.out <= next.rx.out && next.rx.out[w.taken..] == read.out
  {
    var earlier := w.rx.out[..w.taken];
    assert w.rx.out == earlier + rx.out;
    OutGrows(c.size, rx, earlier, data);
    OutGrows(c.size, rx.(out := []), w.rx.out, data);
    assert w.rx.out + [] == w.rx.out;
  }

  class DtmHci {
    const dtm: DtmInstance
    const uart: HciUart
    const tx: HciTx
    ghost const config: Config
    ghost var world: World
    var current: nat             // the packet buffer the main loop works on

    ghost predicate Wired() {
      && uart.mem as object != dtm.pdu0 as object && uart.mem as object != dtm.pdu1 as object
      && config == Config(dtm.powers, uart.count, uart.size, tx.count) && tx.size >= CMD_MEMORY
    }

    /** Engine and transmitter are as `w` says. */
    ghost predicate EngineAt(w: World) reads dtm, dtm.pdu0, dtm.pdu1, tx {
      dtm.Valid() && w.dtm == dtm.Snapshot() && Inv(dtm.powers, w.dtm) && w.tx == tx.State()
    }

    /** So are the framer, its queue and the packet in process. */
    ghost predicate PacketsAt(w: World) reads this`current, uart, uart.mem {
      && uart.Valid()
      && w.taken <= |w.rx.out|
      && w.rx.phase == uart.CurrentPhase() && w.rx.free == |uart.free|
      && w.rx.out[w.taken..] == uart.queued
      && (w.busy && !Stopped(w) ==>
            && w.taken > 0 && current < uart.count && uart.owner[current] == Consumer
            && Content(uart.meta, uart.image, current) == w.rx.out[w.taken - 1])
    }

    /** The machine this object is: the world it has reached, and the packet in process. */
    ghost predicate Valid() reads this, dtm, dtm.pdu0, dtm.pdu1, uart, uart.mem, tx {
      Wired() && EngineAt(world) && PacketsAt(world)
    }

    constructor (dtm: DtmInstance, uart: HciUart, tx: HciTx)
      requires dtm.Valid() && dtm.Snapshot() == Boot()
      requires uart.Valid() && uart.RxState() == Rx(AwaitType, uart.count, [])
      requires tx.State() == Tx(tx.count, []) && tx.size >= CMD_MEMORY
      requires uart.mem as object != dtm.pdu0 as object && uart.mem as object != dtm.pdu1 as object
      ensures Valid() && ValidConfig(config) && world == Start(config)
      ensures this.dtm == dtm && this.uart == uart && this.tx == tx
    {
      this.dtm, this.uart, this.tx := dtm, uart, tx;
      config := Config(dtm.powers, uart.count, uart.size, tx.count);
      world := World(Rx(AwaitType, uart.count, []), 0, false, 0, Boot(), Tx(tx.count, []));
      current := 0;
    }

    /** UART_RX_RDY: the framer reads what arrived. */
    method OnUartRx(data: seq<byte>)
      requires Valid() && ValidConfig(config)
      modifies this`world, uart, uart.mem
      ensures Valid() && world == Next(config, old(world), UartRx(data))
    {
      if uart.halted || dtm.panicked {
        return;
      }
      ghost var next := Next(config, world, UartRx(data));
      ReadOctets(data);
      world := next;
    }

    /** The framer's part of it. */
    method ReadOctets(data: seq<byte>)
      requires PacketsAt(world) && !Stopped(world) && ValidConfig(config) && uart.size == config.size
      modifies uart, uart.mem
      ensures PacketsAt(Next(config, world, UartRx(data)))
    {
      ghost var rx := uart.RxState();
      ReadsOntoLog(config, world, rx, data);
      assert data[0..0 + |data|] == data;
      ghost var lending := uart.Lending();
      uart.H4Read(data, 0, |data|);
      assert current < uart.count ==> uart.Lending()[current] == lending[current];
    }

    /** The main loop takes the oldest packet; on an empty queue it waits. */
    method DtmTrGet()
      requires Valid() && ValidConfig(config)
      requires !world.busy
      modifies this`world, this`current, uart`queue, uart`queued, uart`owner
      ensures Valid() && world == Next(config, old(world), TrGet)
    {
      if uart.halted || dtm.panicked || |uart.queue| == 0 {
        return;
      }
      TakePacket();
      world := Next(config, world, TrGet);
    }

    method TakePacket()
      requires PacketsAt(world) && !world.busy && !uart.halted && uart.queue != []
      modifies this`current, uart`queue, uart`queued, uart`owner
      ensures world.taken < |world.rx.out| && PacketsAt(world.(taken := world.taken + 1, busy := true))
    {
      assert world.rx.out[world.taken..][1..] == world.rx.out[world.taken + 1..];
      current := uart.Take();
    }

    method ReleasePacket()
      requires PacketsAt(world) && world.busy && !Stopped(world)
      modifies uart`free, uart`owner
      ensures PacketsAt(world.(busy := false, rx := world.rx.(free := world.rx.free + 1)))
    {
      uart.Unref(current);
    }

    /** All that the buffer in process holds: the packet, and what lies behind it. */
    method CurrentMemory() returns (memory: seq<byte>)
      requires PacketsAt(world) && world.busy && !Stopped(world)
      ensures memory == world.rx.out[world.taken - 1].bytes + Tail() && |memory| == uart.size
    {
      memory := seq(uart.size, j requires 0 <= j < uart.size && current < uart.mem.Length0 && uart.size == uart.mem.Length1
                                 reads this, uart, uart.mem => uart.mem[current, j]);
      assert memory == uart.image[current];
    }

    /** Octets behind the packet in its buffer. */
    ghost function Tail(): seq<byte>
      requires PacketsAt(world) && world.busy && !Stopped(world)
      reads this, uart, uart.mem
    {
      uart.image[current][uart.meta[current].len..]
    }

    /** The main loop processes the packet it took. A refused packet's buffer is kept. */
    method DtmTrProcess() returns (err: int)
      requires Valid() && ValidConfig(config) && world.busy && !Stopped(world)
      modifies this`world, dtm, dtm.pdu0, dtm.pdu1, uart`free, uart`owner, tx
      ensures Valid() && world == Next(config, old(world), TrProcess(old(Tail())))
    {
      if uart.meta[current].kind == H4_CMD {
        err := ProcessCommand();
      } else {
        err := ENOTSUP;
        world := Next(config, world, TrProcess(Tail()));
      }
    }

    method ProcessCommand() returns (err: int)
      requires Valid() && ValidConfig(config) && world.busy && !Stopped(world)
      requires uart.meta[current].kind == H4_CMD
      modifies this`world, dtm, dtm.pdu0, dtm.pdu1, uart`free, uart`owner, tx
      ensures Valid() && world == Next(config, old(world), TrProcess(old(Tail())))
    {
      ghost var w, tail := world, Tail();
      var packet := CurrentMemory();
      NextOnCommand(config, w, tail);
      ghost var next := Next(config, w, TrProcess(tail));
      err := RunCommand(packet);
      if !dtm.panicked {
        ReleasePacket();
      }
      world := next;
    }

    /** The engine's and transmitter's part of it. */
    method RunCommand(packet: seq<byte>) returns (err: int)
      requires EngineAt(world) && !dtm.panicked && tx.size >= CMD_MEMORY && |packet| >= CMD_MEMORY
      modifies dtm, dtm.pdu0, dtm.pdu1, tx
      ensures var (d, sent) := Handled(dtm.powers, world.dtm, world.tx, packet);
              EngineAt(world.(dtm := d, tx := sent))
    {
      RunKeepsInv(dtm.powers, world.dtm, Calls(Decode(packet)));
      err := HciCmd(dtm, tx, packet);
    }

    method OnTxDone()
      requires Valid() && ValidConfig(config)
      modifies this`world, tx
      ensures Valid() && world == Next(config, old(world), TxDone)
    {
      if uart.halted || dtm.panicked {
        return;
      }
      tx.TxDone();
      world := Next(config, world, TxDone);
    }

    method OnRadioEnd(crcOk: bool, content: AirPdu)
      requires Valid() && ValidConfig(config)
      modifies this`world, dtm, dtm.pdu0, dtm.pdu1
      ensures Valid() && world == Next(config, old(world), RadioDone(crcOk, content))
    {
      if uart.halted || dtm.panicked {
        return;
      }
      RunRadio(crcOk, content);
      world := world.(dtm := Apply(dtm.powers, world.dtm, RadioEnd(crcOk, content)));
    }

    /** The engine's part of it. */
    method RunRadio(crcOk: bool, content: AirPdu)
      requires EngineAt(world) && !dtm.panicked
      modifies dtm, dtm.pdu0, dtm.pdu1
      ensures EngineAt(world.(dtm := Apply(dtm.powers, world.dtm, RadioEnd(crcOk, content))))
    {
      StepKeepsInv(dtm.powers, world.dtm, RadioEnd(crcOk, content));
      dtm.RadioHandlerEnd(crcOk, content);
    }
  }
}
