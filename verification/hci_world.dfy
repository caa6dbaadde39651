/** The HCI tester as one state machine: octets arrive in any pieces, the main loop takes
    and processes packets, transmit buffers come back, packets finish on the radio, in any
    interleaving. `DtmHci` (dtm_hci.dfy) is proved to take these steps. */
module HciWorld {
  import opened Bytes
  import opened H4Stream
  import opened DtmHw
  import opened DtmPdu
  import opened DtmState
  import opened DtmRuns
  import opened HciCommands
  import Host = HciHost

  /** Build parameters: power table, receive buffers and their size, transmit buffers. */
  datatype Config = Config(powers: PowerTable, count: nat, size: nat, txCount: nat)

  ghost predicate ValidConfig(c: Config) { c.size >= CMD_MEMORY }

  /** `rx.out` is every packet delivered so far; the first `taken` have left the queue and
      the last of those is being processed while `busy`. */
  datatype World = World(rx: Rx, taken: nat, busy: bool, leaked: nat, dtm: Dtm, tx: Tx)

  datatype Event =
    | UartRx(chunk: seq<byte>)
    | TrGet
    | TrProcess(tail: seq<byte>)  // memory behind the packet in its buffer
    | TxDone
    | RadioDone(crcOk: bool, content: AirPdu)

  predicate Stopped(w: World) { w.rx.phase.Halted? || w.dtm.panicked }

  function Start(c: Config): World {
    World(Rx(AwaitType, c.count, []), 0, false, 0, Boot(), Tx(c.txCount, []))
  }

  function Done(w: World): nat {
    if w.busy && w.taken > 0 then w.taken - 1 else w.taken
  }

  /** Commands are answered and their buffer released; other packets are refused, and
      their buffer is not released. */
  function Processed(c: Config, w: World, tail: seq<byte>): World
    requires ValidConfig(c) && 0 < w.taken <= |w.rx.out|
    requires |w.rx.out[w.taken - 1].bytes| + |tail| == c.size
  {
    var p := w.rx.out[w.taken - 1];
    if p.kind != H4_CMD then w.(busy := false, leaked := w.leaked + 1)
    else
      var (d, tx) := Handled(c.powers, w.dtm, w.tx, p.bytes + tail);
      if d.panicked then w.(dtm := d, tx := tx)
      else w.(busy := false, rx := w.rx.(free := w.rx.free + 1), dtm := d, tx := tx)
  }

  predicate Processing(c: Config, w: World, e: Event) {
    && e.TrProcess? && w.busy && !Stopped(w) && 0 < w.taken <= |w.rx.out|
    && |w.rx.out[w.taken - 1].bytes| + |e.tail| == c.size
  }

  function Next(c: Config, w: World, e: Event): World
    requires ValidConfig(c)
  {
    if Stopped(w) then w
    else match e
      case UartRx(chunk) => w.(rx := FeedAll(c.size, w.rx, chunk))
      case TrGet => if w.busy || w.taken >= |w.rx.out| then w else w.(taken := w.taken + 1, busy := true)
      case TrProcess(tail) => if Processing(c, w, e) then Processed(c, w, tail) else w
      case TxDone => w.(tx := w.tx.(free := Min(w.tx.free + 1, c.txCount)))
      case RadioDone(crcOk, content) => w.(dtm := Apply(c.powers, w.dtm, RadioEnd(crcOk, content)))
  }

  function WRun(c: Config, w: World, events: seq<Event>): World
    requires ValidConfig(c)
    decreases events
  {
    if events == [] then w else WRun(c, Next(c, w, events[0]), events[1..])
  }

  // ------------------------------------------------ one command on the engine

  /** The three-state machine a tester sees: a test command leaves its test running exactly
      when it succeeded and the device idle otherwise; a reset changes nothing. */
  function ModeAfter(c: Command, before: TestState): TestState {
    match c
    case CmdRxTest(p) => if RxStatus(p) == SUCCESS then ReceiverTest else Idle
    case CmdTxTest(p) => if TxStatus(p) == SUCCESS then TransmitterTest else Idle
    case CmdTestEnd => Idle
    case _ => before
  }

  predicate HciState(s: TestState) { s == Idle || s == TransmitterTest || s == ReceiverTest }

  ghost predicate EngineInv(t: PowerTable, d: Dtm) {
    Inv(t, d) && LinkExact(d) && HciState(d.state)
  }

  lemma RxTestRuns(t: PowerTable, d: Dtm, p: RxParams)
    requires EngineInv(t, d) && !d.panicked
    ensures var next := Run(t, d, RxCalls(p));
            && !next.panicked && next.state == ModeAfter(CmdRxTest(p), d.state) && LinkExact(next)
            && (RxStatus(p) == SUCCESS ==> Listening(next) && next.physCh == p.ch)
            && next.mode == (if SupportedPhy(p.phy) then PhyMode(PhyFor(p.phy)) else d.mode)
  {
    var q := Apply(t, d, Prepare);
    StepKeepsInv(t, d, Prepare);
    RunOne(t, d, Prepare);
    if SupportedPhy(p.phy) {
      RunTwo(t, d, Prepare, SetPhy(PhyFor(p.phy)));
      StepKeepsInv(t, q, SetPhy(PhyFor(p.phy)));
      RunThree(t, d, Prepare, SetPhy(PhyFor(p.phy)), Receive(p.ch));
    }
  }

  lemma TxTestRuns(t: PowerTable, d: Dtm, p: TxParams)
    requires EngineInv(t, d) && !d.panicked
    ensures var next := Run(t, d, TxCalls(p));
            && (next.panicked <==> Fatal(CmdTxTest(p)))
            && (!next.panicked ==> next.state == ModeAfter(CmdTxTest(p), d.state) && LinkExact(next))
            && next.mode == (if p.payload <= 7 && SupportedPhy(p.phy) then PhyMode(PhyFor(p.phy)) else d.mode)
  {
    var q := Apply(t, d, Prepare);
    StepKeepsInv(t, d, Prepare);
    RunOne(t, d, Prepare);
    if p.payload <= 7 && SupportedPhy(p.phy) {
      var phy, power := SetPhy(PhyFor(p.phy)), PowerStep(p.power, p.ch);
      StepKeepsInv(t, q, phy);
      RunTwo(t, d, Prepare, phy);
      RunFour(t, d, Prepare, phy, power, Transmit(p.ch, p.len, TypeOf(p.payload)));
      LinkExactly(t, d, Prepare);
      LinkExactly(t, q, phy);
      StartTransmits(t, Apply(t, q, phy), power, p.ch, p.len, TypeOf(p.payload));
    }
  }

  /** From idle, a power request and a start on a valid channel transmit; on an invalid one
      the request stops the device. */
  lemma StartTransmits(t: PowerTable, d: Dtm, power: Step, ch: byte, len: byte, pkt: PacketType)
    requires d.state == Idle && LinkExact(d) && !d.panicked
    requires power.SetPower? && power.ch == ch && HasPattern(pkt)
    ensures var next := Apply(t, Apply(t, d, power), Transmit(ch, len, pkt));
            if ch > PHYS_CH_MAX then next.panicked else !next.panicked && next.state == TransmitterTest && LinkExact(next)
  {
    var ready := Apply(t, d, power);
    if ch <= PHYS_CH_MAX {
      LinkExactly(t, ready, Transmit(ch, len, pkt));
    }
  }

  /** One command refines the three-state machine, keeps every engine invariant, and
      stops the device exactly when it is fatal. */
  lemma CommandRefines(t: PowerTable, d: Dtm, c: Command)
    requires EngineInv(t, d) && !d.panicked
    ensures var next := Run(t, d, Calls(c));
            && (next.panicked <==> Fatal(c))
            && Inv(t, next)
            && (!next.panicked ==> next.state == ModeAfter(c, d.state) && EngineInv(t, next))
  {
    RunKeepsInv(t, d, Calls(c));
    match c {
      case CmdRxTest(p) => RxTestRuns(t, d, p);
      case CmdTxTest(p) => TxTestRuns(t, d, p);
      case CmdReset => RunOne(t, d, Reset);
      case CmdTestEnd => RunOne(t, d, End);
      case _ =>
    }
  }

  // ---------------------------------------------------------- world invariant

  /** Opcodes of the commands among packets, in order. */
  function Commands(ps: seq<Packet>): seq<uint16> {
    if ps == [] then []
    else
      var p := ps[|ps| - 1];
      Commands(ps[..|ps| - 1]) + if p.kind == H4_CMD && |p.bytes| >= 2 then [Opcode(p.bytes)] else []
  }

  /** Opcodes answered, in order, as a host reads them. */
  function Answers(frames: seq<seq<byte>>): seq<uint16> {
    if frames == [] then []
    else Answers(frames[..|frames| - 1]) + AnswerIn(frames[|frames| - 1])
  }

  function AnswerIn(f: seq<byte>): seq<uint16> {
    match Host.ReadEvent(f)
    case Answered(op, _) => [op]
    case Unreadable => []
  }

  /** How many buffers came back: one per processed command. */
  function Released(w: World): nat
    requires Done(w) <= |w.rx.out|
  {
    |Commands(w.rx.out[..Done(w)])|
  }

  ghost predicate WInv(c: Config, w: World, fed: seq<byte>)
    requires ValidConfig(c)
  {
    && w.taken <= |w.rx.out|
    && (w.busy ==> w.taken > 0)
    && (forall i :: 0 <= i < |w.rx.out| ==> Whole(w.rx.out[i].kind, w.rx.out[i].bytes))
    && w.leaked + Released(w) == Done(w)
    && Valid(c.size, w.rx)
    && EngineInv(c.powers, w.dtm)
    && w.rx == FeedAll(c.size, Rx(AwaitType, c.count + Released(w), []), fed)
  }

  function Fed(events: seq<Event>): seq<byte> {
    if events == [] then []
    else
      var e := events[|events| - 1];
      Fed(events[..|events| - 1]) + if e.UartRx? then e.chunk else []
  }

  lemma CommandsSnoc(ps: seq<Packet>, p: Packet)
    ensures Commands(ps + [p]) == Commands(ps) + if p.kind == H4_CMD && |p.bytes| >= 2 then [Opcode(p.bytes)] else []
  {
    assert (ps + [p])[..|ps|] == ps;
  }

  lemma AnswersSnoc(frames: seq<seq<byte>>, f: seq<byte>)
    ensures Answers(frames + [f]) == Answers(frames) + AnswerIn(f)
  {
    assert (frames + [f])[..|frames|] == frames;
  }

  lemma {:induction false} FeedWhole(cap: nat, rx: Rx, s: seq<byte>)
    requires Valid(cap, rx)
    requires forall i :: 0 <= i < |rx.out| ==> Whole(rx.out[i].kind, rx.out[i].bytes)
    ensures forall i :: 0 <= i < |FeedAll(cap, rx, s).out| ==>
              Whole(FeedAll(cap, rx, s).out[i].kind, FeedAll(cap, rx, s).out[i].bytes)
    ensures rx.out <= FeedAll(cap, rx, s).out
    decreases s
  {
    if s != [] {
      FeedKeepsValid(cap, rx, s[0]);
      FeedWhole(cap, Feed(cap, rx, s[0]), s[1..]);
    }
  }

  lemma UartRxKeeps(c: Config, w: World, fed: seq<byte>, chunk: seq<byte>)
    requires ValidConfig(c) && WInv(c, w, fed) && !Stopped(w)
    ensures WInv(c, Next(c, w, UartRx(chunk)), fed + chunk)
  {
    FeedAllConcat(c.size, Rx(AwaitType, c.count + Released(w), []), fed, chunk);
    FeedAllValid(c.size, w.rx, chunk);
    FeedWhole(c.size, w.rx, chunk);
    var next := Next(c, w, UartRx(chunk));
    assert next.rx.out[..Done(w)] == w.rx.out[..Done(w)];
  }

  lemma SendAnswers(tx: Tx, op: uint16, ret: seq<byte>)
    requires |ret| <= 250
    ensures Answers(Send(tx, op, ret).frames) == Answers(tx.frames) + if tx.free > 0 then [op] else []
  {
    Host.EventRoundTrip(op, ret);
    AnswersSnoc(tx.frames, EventFrame(op, ret));
  }

  /** Handling a command packet: its fate, its mode and its one answer. */
  lemma HandledOnce(t: PowerTable, d: Dtm, tx: Tx, mem: seq<byte>)
    requires |mem| >= CMD_MEMORY && EngineInv(t, d) && !d.panicked
    ensures var (next, sent) := Handled(t, d, tx, mem);
            && (next.panicked <==> Fatal(Decode(mem)))
            && (!next.panicked ==>
                  && EngineInv(t, next) && next.state == ModeAfter(Decode(mem), d.state)
                  && Answers(sent.frames) == Answers(tx.frames) + (if tx.free > 0 then [Opcode(mem)] else []))
  {
    var cmd := Decode(mem);
    CommandRefines(t, d, cmd);
    SendAnswers(tx, Opcode(mem), Returns(cmd, d.rxPktCount));
  }

  lemma ReleaseKeeps(c: Config, w: World, fed: seq<byte>, d: Dtm, tx: Tx)
    requires ValidConfig(c) && WInv(c, w, fed) && !Stopped(w) && w.busy
    requires w.rx.out[w.taken - 1].kind == H4_CMD && EngineInv(c.powers, d)
    ensures WInv(c, w.(busy := false, rx := w.rx.(free := w.rx.free + 1), dtm := d, tx := tx), fed)
  {
    var p, start := w.rx.out[w.taken - 1], Rx(AwaitType, c.count + Released(w), []);
    assert |p.bytes| >= 2 by { assert Whole(p.kind, p.bytes); }
    assert w.rx.out[..w.taken] == w.rx.out[..w.taken - 1] + [p];
    CommandsSnoc(w.rx.out[..w.taken - 1], p);
    PoolIrrelevant(c.size, start, 1, fed);
    var next := w.(busy := false, rx := w.rx.(free := w.rx.free + 1), dtm := d, tx := tx);
    assert Released(next) == Released(w) + 1;
    assert start.(free := start.free + 1) == Rx(AwaitType, c.count + Released(next), []);
  }

  /** What processing a command does, wherever it stands in the stream. */
  lemma ProcessCommand(c: Config, w: World, fed: seq<byte>, tail: seq<byte>)
    requires ValidConfig(c) && WInv(c, w, fed) && Processing(c, w, TrProcess(tail))
    requires w.rx.out[w.taken - 1].kind == H4_CMD
    ensures var p, next := w.rx.out[w.taken - 1], Next(c, w, TrProcess(tail));
            && |p.bytes| >= 3
            && (Stopped(next) <==> Fatal(Decode(p.bytes + tail)))
            && (!Stopped(next) ==>
                  && WInv(c, next, fed)
                  && next.dtm.state == ModeAfter(Decode(p.bytes + tail), w.dtm.state)
                  && Answers(next.tx.frames) == Answers(w.tx.frames) + (if w.tx.free > 0 then [Opcode(p.bytes)] else []))
  {
    var p := w.rx.out[w.taken - 1];
    var mem := p.bytes + tail;
    assert Whole(p.kind, p.bytes);
    OpcodeOfPacket(p.bytes, tail);
    HandledOnce(c.powers, w.dtm, w.tx, mem);
    var (d, tx) := Handled(c.powers, w.dtm, w.tx, mem);
    NextOnCommand(c, w, tail);
    if !d.panicked { ReleaseKeeps(c, w, fed, d, tx); }
  }

  lemma OpcodeOfPacket(bytes: seq<byte>, tail: seq<byte>)
    requires |bytes| >= 2
    ensures Opcode(bytes + tail) == Opcode(bytes)
  {}

  lemma NextOnCommand(c: Config, w: World, tail: seq<byte>)
    requires ValidConfig(c) && Processing(c, w, TrProcess(tail)) && w.rx.out[w.taken - 1].kind == H4_CMD
    ensures var (d, tx) := Handled(c.powers, w.dtm, w.tx, w.rx.out[w.taken - 1].bytes + tail);
            Next(c, w, TrProcess(tail)) ==
              if d.panicked then w.(dtm := d, tx := tx)
              else w.(busy := false, rx := w.rx.(free := w.rx.free + 1), dtm := d, tx := tx)
  {}

  lemma ProcessOther(c: Config, w: World, fed: seq<byte>, tail: seq<byte>)
    requires ValidConfig(c) && WInv(c, w, fed) && Processing(c, w, TrProcess(tail))
    requires w.rx.out[w.taken - 1].kind != H4_CMD
    ensures WInv(c, Next(c, w, TrProcess(tail)), fed)
  {
    var p := w.rx.out[w.taken - 1];
    assert w.rx.out[..w.taken] == w.rx.out[..w.taken - 1] + [p];
    CommandsSnoc(w.rx.out[..w.taken - 1], p);
  }

  lemma EventKeeps(c: Config, w: World, fed: seq<byte>, e: Event)
    requires ValidConfig(c) && WInv(c, w, fed) && !Stopped(Next(c, w, e))
    ensures WInv(c, Next(c, w, e), fed + if e.UartRx? then e.chunk else [])
  {
    assert fed + [] == fed;
    match e {
      case UartRx(chunk) => UartRxKeeps(c, w, fed, chunk);
      case TrProcess(tail) =>
        if Processing(c, w, e) {
          if w.rx.out[w.taken - 1].kind == H4_CMD {
            ProcessCommand(c, w, fed, tail);
          } else {
            ProcessOther(c, w, fed, tail);
          }
        }
      case RadioDone(crcOk, content) => StepKeepsInv(c.powers, w.dtm, RadioEnd(crcOk, content));
      case TrGet =>
      case TxDone =>
    }
  }

  lemma {:induction false} WRunSnoc(c: Config, w: World, events: seq<Event>, e: Event)
    requires ValidConfig(c)
    ensures WRun(c, w, events + [e]) == Next(c, WRun(c, w, events), e)
    decreases events
  {
    if events == [] {
      assert [] + [e] == [e];
      assert WRun(c, Next(c, w, e), []) == Next(c, w, e);
    } else {
      assert (events + [e])[1..] == events[1..] + [e];
      WRunSnoc(c, Next(c, w, events[0]), events[1..], e);
    }
  }

  /** At every processing of the run a transmit buffer was free. */
  ghost predicate Roomy(c: Config, events: seq<Event>)
    requires ValidConfig(c)
  {
    forall i :: 0 <= i < |events| && Processing(c, WRun(c, Start(c), events[..i]), events[i]) ==>
                  WRun(c, Start(c), events[..i]).tx.free > 0
  }

  lemma {:induction false} RunKeepsWInv(c: Config, events: seq<Event>)
    requires ValidConfig(c) && !Stopped(WRun(c, Start(c), events))
    ensures WInv(c, WRun(c, Start(c), events), Fed(events))
    ensures Roomy(c, events) ==>
              var w := WRun(c, Start(c), events);
              Answers(w.tx.frames) == Commands(w.rx.out[..Done(w)])
    decreases |events|
  {
    if events == [] {
      assert LinkExact(Boot());
    } else {
      var before, e := events[..|events| - 1], events[|events| - 1];
      assert events == before + [e];
      WRunSnoc(c, Start(c), before, e);
      var w, fed := WRun(c, Start(c), before), Fed(before);
      RunKeepsWInv(c, before);
      EventKeeps(c, w, fed, e);
      if Roomy(c, events) {
        RoomyPrefix(c, before, e);
        AnswersFollow(c, w, fed, e);
      }
    }
  }

  lemma RoomyPrefix(c: Config, before: seq<Event>, e: Event)
    requires ValidConfig(c) && Roomy(c, before + [e])
    ensures Roomy(c, before)
    ensures var w := WRun(c, Start(c), before); Processing(c, w, e) ==> w.tx.free > 0
  {
    var events := before + [e];
    assert events[..|before|] == before && events[|before|] == e;
    forall i | 0 <= i < |before| && Processing(c, WRun(c, Start(c), before[..i]), before[i])
      ensures WRun(c, Start(c), before[..i]).tx.free > 0
    {
      assert events[..i] == before[..i] && events[i] == before[i];
    }
  }

  lemma AnswersFollow(c: Config, w: World, fed: seq<byte>, e: Event)
    requires ValidConfig(c) && WInv(c, w, fed) && !Stopped(Next(c, w, e))
    requires Processing(c, w, e) ==> w.tx.free > 0
    requires Answers(w.tx.frames) == Commands(w.rx.out[..Done(w)])
    ensures var next := Next(c, w, e);
            Done(next) <= |next.rx.out| && Answers(next.tx.frames) == Commands(next.rx.out[..Done(next)])
  {
    if Processing(c, w, e) {
      AnswersFollowProcess(c, w, fed, e.tail);
    } else if e.UartRx? {
      FeedWhole(c.size, w.rx, e.chunk);
      assert Next(c, w, e).rx.out[..Done(w)] == w.rx.out[..Done(w)];
    }
  }

  lemma AnswersFollowProcess(c: Config, w: World, fed: seq<byte>, tail: seq<byte>)
    requires ValidConfig(c) && WInv(c, w, fed) && !Stopped(Next(c, w, TrProcess(tail)))
    requires Processing(c, w, TrProcess(tail)) && w.tx.free > 0
    requires Answers(w.tx.frames) == Commands(w.rx.out[..Done(w)])
    ensures var next := Next(c, w, TrProcess(tail));
            Done(next) <= |next.rx.out| && Answers(next.tx.frames) == Commands(next.rx.out[..Done(next)])
  {
    var p, next := w.rx.out[w.taken - 1], Next(c, w, TrProcess(tail));
    assert w.rx.out[..w.taken] == w.rx.out[..w.taken - 1] + [p];
    CommandsSnoc(w.rx.out[..w.taken - 1], p);
    if p.kind == H4_CMD {
      ProcessCommand(c, w, fed, tail);
      NextOnCommand(c, w, tail);
      assert next.rx.out == w.rx.out && Done(next) == w.taken;
    } else {
      assert next == w.(busy := false, leaked := w.leaked + 1);
    }
  }

  // -------------------------------------------------------------- main results

  /** End to end: whatever the interleaving, while the device runs it has delivered exactly
      the packets of the octet stream, and (a transmit buffer being free each time) the
      log holds one Command Complete per processed command, same opcode, in stream order. */
  lemma EndToEnd(c: Config, events: seq<Event>)
    requires ValidConfig(c) && !Stopped(WRun(c, Start(c), events))
    ensures var w := WRun(c, Start(c), events);
            && w.rx.out == StreamPackets(c.size, Fed(events))
            && Done(w) <= |w.rx.out|
            && (Roomy(c, events) ==>
                  Answers(w.tx.frames) == Commands(StreamPackets(c.size, Fed(events))[..Done(w)]))
  {
    RunKeepsWInv(c, events);
    var w := WRun(c, Start(c), events);
    PacketsOfStream(c.size, c.count + Released(w), Fed(events));
  }

  /** Buffer ownership: pool, framer, queue, processing and leaked buffers add up to the
      pool's size, and those leaked are one per processed packet that was no command. */
  lemma BufferConservation(c: Config, events: seq<Event>)
    requires ValidConfig(c) && !Stopped(WRun(c, Start(c), events))
    ensures var w := WRun(c, Start(c), events);
            && w.taken <= |w.rx.out|
            && w.rx.free + Held(w.rx.phase) + (|w.rx.out| - w.taken) + (if w.busy then 1 else 0) + w.leaked == c.count
            && w.leaked + |Commands(w.rx.out[..Done(w)])| == Done(w)
  {
    RunKeepsWInv(c, events);
    var w := WRun(c, Start(c), events);
    PoolAccount(c.size, Rx(AwaitType, c.count + Released(w), []), Fed(events));
  }

  /** The engine under every such run: three states only, the transmit link on exactly in a
      transmitter test, every configuration and buffer invariant. */
  lemma EngineStaysSound(c: Config, events: seq<Event>)
    requires ValidConfig(c) && !Stopped(WRun(c, Start(c), events))
    ensures EngineInv(c.powers, WRun(c, Start(c), events).dtm)
  {
    RunKeepsWInv(c, events);
  }

  /** The octets so far begin more packets than the pool has had buffers for, or hold one
      too long for its buffer. Commands give their buffer back when processed. */
  ghost predicate Overruns(c: Config, w: World, fed: seq<byte>)
    requires Done(w) <= |w.rx.out|
  {
    Begun(Unlimited(fed)) > c.count + Released(w) || !AllFit(c.size, Unlimited(fed))
  }

  /** The device stops on an event exactly when the octets it brings overrun the pool or a
      buffer, as the whole-stream parse tells, or it processes a fatal command. */
  lemma StopsExactly(c: Config, events: seq<Event>, e: Event)
    requires ValidConfig(c) && !Stopped(WRun(c, Start(c), events))
    ensures var w := WRun(c, Start(c), events);
            && w.taken <= |w.rx.out|
            && (Stopped(Next(c, w, e)) <==>
                  || (e.UartRx? && Overruns(c, w, Fed(events) + e.chunk))
                  || (Processing(c, w, e) && w.rx.out[w.taken - 1].kind == H4_CMD
                      && Fatal(Decode(w.rx.out[w.taken - 1].bytes + e.tail))))
  {
    RunKeepsWInv(c, events);
    var w := WRun(c, Start(c), events);
    if e.UartRx? {
      ReadHalts(c, w, Fed(events), e.chunk);
    } else if Processing(c, w, e) && w.rx.out[w.taken - 1].kind == H4_CMD {
      ProcessCommand(c, w, Fed(events), e.tail);
    }
  }

  lemma ReadHalts(c: Config, w: World, fed: seq<byte>, chunk: seq<byte>)
    requires ValidConfig(c) && WInv(c, w, fed)
    ensures FeedAll(c.size, w.rx, chunk).phase.Halted? <==> Overruns(c, w, fed + chunk)
  {
    var start := Rx(AwaitType, c.count + Released(w), []);
    FeedAllConcat(c.size, start, fed, chunk);
    StreamHaltsExactly(c.size, start.free, fed + chunk);
  }

  /** Once as many packets that are no commands were processed as there are buffers, none
      is left, and the next type octet stops the device, whatever the interleaving. */
  lemma PoolExhausted(c: Config, events: seq<Event>, chunk: seq<byte>)
    requires ValidConfig(c) && !Stopped(WRun(c, Start(c), events))
    requires var w := WRun(c, Start(c), events);
             Done(w) <= |w.rx.out| && Done(w) - |Commands(w.rx.out[..Done(w)])| == c.count
    ensures Stopped(Next(c, WRun(c, Start(c), events), UartRx(chunk))) <==>
              exists i :: 0 <= i < |chunk| && RxType(chunk[i])
  {
    BufferConservation(c, events);
    NoBufferLeft(c.size, WRun(c, Start(c), events).rx, chunk);
  }

  lemma {:induction false} NoBufferLeft(cap: nat, rx: Rx, s: seq<byte>)
    requires rx.phase == AwaitType && rx.free == 0
    ensures FeedAll(cap, rx, s).phase.Halted? <==> exists i :: 0 <= i < |s| && RxType(s[i])
    decreases s
  {
    if s != [] {
      var next := Feed(cap, rx, s[0]);
      if RxType(s[0]) {
        FeedAllHalted(cap, next, s[1..]);
      } else {
        NoBufferLeft(cap, rx, s[1..]);
        assert forall i :: 0 < i < |s| ==> s[i] == s[1..][i - 1];
        assert forall i :: 0 <= i < |s| - 1 ==> s[1..][i] == s[i + 1];
      }
    }
  }

  // ------------------------------------------------------ concrete failures

  /** Octets arrive while nothing is in process, and the packet they make is processed. */
  lemma OnePacketRun(c: Config, p: Packet, tail: seq<byte>)
    requires ValidConfig(c) && c.count > 0 && WellFormed(Pkt(p)) && |p.bytes| + |tail| == c.size
    ensures WRun(c, Start(c), [UartRx(Wire(Pkt(p))), TrGet, TrProcess(tail)]) ==
            Processed(c, Start(c).(rx := Rx(AwaitType, c.count - 1, [p]), taken := 1, busy := true), tail)
  {
    var start, octets := Rx(AwaitType, c.count, []), Wire(Pkt(p));
    FeedOne(c.size, start, p, []);
    assert octets + [] == octets && [] + [p] == [p];
    var received := Start(c).(rx := Rx(AwaitType, c.count - 1, [p]));
    var taken := received.(taken := 1, busy := true);
    assert Next(c, Start(c), UartRx(octets)) == received && Next(c, received, TrGet) == taken;
    WRunSnoc(c, Start(c), [], UartRx(octets));
    WRunSnoc(c, Start(c), [UartRx(octets)], TrGet);
    WRunSnoc(c, Start(c), [UartRx(octets), TrGet], TrProcess(tail));
    assert [] + [UartRx(octets)] == [UartRx(octets)];
    assert [UartRx(octets)] + [TrGet] == [UartRx(octets), TrGet];
    assert [UartRx(octets), TrGet] + [TrProcess(tail)] == [UartRx(octets), TrGet, TrProcess(tail)];
  }

  /** A transmitter test on channel 40 stops the device without an answer. */
  lemma Channel40Example(c: Config, tail: seq<byte>)
    requires ValidConfig(c) && c.count > 0 && 6 + |tail| == c.size
    ensures var w := WRun(c, Start(c), [UartRx([H4_CMD, 0x1E, 0x20, 3, 40, 37, 0]), TrGet, TrProcess(tail)]);
            Stopped(w) && w.tx.frames == []
  {
    var p := Packet(H4_CMD, [0x1E, 0x20, 3, 40, 37, 0]);
    assert Wire(Pkt(p)) == [H4_CMD, 0x1E, 0x20, 3, 40, 37, 0];
    OnePacketRun(c, p, tail);
    Channel40IsFatal(p.bytes, tail);
    EveryRunIsSound(c.powers, []);
    HandledOnce(c.powers, Boot(), Tx(c.txCount, []), p.bytes + tail);
  }

  lemma Channel40IsFatal(bytes: seq<byte>, tail: seq<byte>)
    requires bytes == [0x1E, 0x20, 3, 40, 37, 0] && |bytes| + |tail| >= CMD_MEMORY
    ensures Fatal(Decode(bytes + tail))
  {
    var mem := bytes + tail;
    assert mem[0] == 0x1E && mem[1] == 0x20 && mem[3] == 40 && mem[5] == 0;
    assert Opcode(mem) == OP_TX_TEST;
  }

  /** An empty ACL packet is not answered and costs a receive buffer for good. */
  lemma AclExample(c: Config, tail: seq<byte>)
    requires ValidConfig(c) && c.count > 0 && 4 + |tail| == c.size
    ensures var w := WRun(c, Start(c), [UartRx([H4_ACL, 0, 0, 0, 0]), TrGet, TrProcess(tail)]);
            !Stopped(w) && w.tx.frames == [] && !w.busy && w.rx.free == c.count - 1 && w.leaked == 1
  {
    var p := Packet(H4_ACL, [0, 0, 0, 0]);
    assert Wire(Pkt(p)) == [H4_ACL, 0, 0, 0, 0];
    OnePacketRun(c, p, tail);
  }

  // ------------------------------------------------- leftovers in the buffers

  /** The same run but for what lay in the buffers behind the packets. */
  ghost predicate SameButTails(a: seq<Event>, b: seq<Event>) {
    |a| == |b| && forall i :: 0 <= i < |a| ==> SameButTail(a[i], b[i])
  }

  ghost predicate SameButTail(e: Event, f: Event) {
    e == f || (e.TrProcess? && f.TrProcess? && |e.tail| == |f.tail|)
  }

  /** Every command processed in the run holds the octets its opcode makes the device read. */
  ghost predicate AllComplete(c: Config, events: seq<Event>)
    requires ValidConfig(c)
  {
    forall i :: 0 <= i < |events| ==> CompleteAt(c, WRun(c, Start(c), events[..i]), events[i])
  }

  ghost predicate CompleteAt(c: Config, w: World, e: Event) {
    Processing(c, w, e) && w.rx.out[w.taken - 1].kind == H4_CMD ==>
      |w.rx.out[w.taken - 1].bytes| >= 3 && Complete(w.rx.out[w.taken - 1].bytes)
  }

  lemma SameStep(c: Config, w: World, e: Event, f: Event)
    requires ValidConfig(c) && SameButTail(e, f) && CompleteAt(c, w, e)
    ensures Next(c, w, e) == Next(c, w, f)
  {
    if e != f && Processing(c, w, e) && w.rx.out[w.taken - 1].kind == H4_CMD {
      var bytes := w.rx.out[w.taken - 1].bytes;
      CompleteIsEnough(bytes, e.tail, f.tail);
      OpcodeOfPacket(bytes, e.tail);
      OpcodeOfPacket(bytes, f.tail);
      NextOnCommand(c, w, e.tail);
      NextOnCommand(c, w, f.tail);
    }
  }

  /** If every command processed is long enough for its opcode, leftovers in the buffers
      change nothing: the same engine, buffers and transmit log, octet for octet. */
  lemma {:induction false} LeftoversIgnored(c: Config, a: seq<Event>, b: seq<Event>)
    requires ValidConfig(c) && SameButTails(a, b) && AllComplete(c, a)
    ensures WRun(c, Start(c), a) == WRun(c, Start(c), b)
    decreases |a|
  {
    if a != [] {
      var n := |a| - 1;
      assert a == a[..n] + [a[n]] && b == b[..n] + [b[n]];
      forall i | 0 <= i < n ensures CompleteAt(c, WRun(c, Start(c), a[..n][..i]), a[..n][i]) {
        assert a[..n][..i] == a[..i];
      }
      LeftoversIgnored(c, a[..n], b[..n]);
      WRunSnoc(c, Start(c), a[..n], a[n]);
      WRunSnoc(c, Start(c), b[..n], b[n]);
      assert SameButTail(a[n], b[n]);
      SameStep(c, WRun(c, Start(c), a[..n]), a[n], b[n]);
    }
  }

  // ------------------------------------------------------- the engine's history

  /** What an event makes the engine do. */
  function StepsAt(c: Config, w: World, e: Event): seq<Step>
    requires ValidConfig(c)
  {
    if Stopped(w) then []
    else if e.RadioDone? then [RadioEnd(e.crcOk, e.content)]
    else if Processing(c, w, e) && w.rx.out[w.taken - 1].kind == H4_CMD then
      Calls(Decode(w.rx.out[w.taken - 1].bytes + e.tail))
    else []
  }

  /** The engine calls and radio events of a run, in order. */
  function EngineSteps(c: Config, w: World, events: seq<Event>): seq<Step>
    requires ValidConfig(c)
    decreases events
  {
    if events == [] then [] else StepsAt(c, w, events[0]) + EngineSteps(c, Next(c, w, events[0]), events[1..])
  }

  lemma OneEvent(c: Config, w: World, e: Event)
    requires ValidConfig(c)
    ensures Next(c, w, e).dtm == Run(c.powers, w.dtm, StepsAt(c, w, e))
  {
    if e.RadioDone? && !Stopped(w) {
      RunOne(c.powers, w.dtm, RadioEnd(e.crcOk, e.content));
    } else if Processing(c, w, e) && w.rx.out[w.taken - 1].kind == H4_CMD {
      NextOnCommand(c, w, e.tail);
    }
  }

  lemma {:induction false} EngineHistory(c: Config, w: World, events: seq<Event>)
    requires ValidConfig(c)
    ensures WRun(c, w, events).dtm == Run(c.powers, w.dtm, EngineSteps(c, w, events))
    decreases events
  {
    if events != [] {
      var e := events[0];
      OneEvent(c, w, e);
      EngineHistory(c, Next(c, w, e), events[1..]);
      RunConcat(c.powers, w.dtm, StepsAt(c, w, e), EngineSteps(c, Next(c, w, e), events[1..]));
    }
  }

  /** The count a Test End answer carries is the exact count of the run's history. */
  lemma TestEndCount(c: Config, events: seq<Event>)
    requires ValidConfig(c) && !Stopped(WRun(c, Start(c), events))
    ensures var w := WRun(c, Start(c), events);
            var count := Counted(EngineSteps(c, Start(c), events)) % 0x1_0000;
            Returns(CmdTestEnd, w.dtm.rxPktCount) == [SUCCESS, Lo(count), Hi(count)]
  {
    EngineHistory(c, Start(c), events);
    CountedExactly(c.powers, EngineSteps(c, Start(c), events));
  }

  /** What a tester must see: for each command processed with a transmit buffer free, unless
      it is fatal, in order, an event with its opcode and the parameters its buffer's octets
      determine (its own alone if it is long enough for its opcode), a Test End's count read
      off the run so far. */
  function Replies(c: Config, events: seq<Event>): seq<seq<byte>>
    requires ValidConfig(c)
    decreases |events|
  {
    if events == [] then []
    else
      var before := events[..|events| - 1];
      Replies(c, before) + NewReplies(c, before, events[|events| - 1])
  }

  function NewReplies(c: Config, before: seq<Event>, e: Event): seq<seq<byte>>
    requires ValidConfig(c)
  {
    var w := WRun(c, Start(c), before);
    if Processing(c, w, e) && w.rx.out[w.taken - 1].kind == H4_CMD && w.tx.free > 0
       && !Fatal(Decode(w.rx.out[w.taken - 1].bytes + e.tail)) then
      [Reply(w.rx.out[w.taken - 1].bytes + e.tail, Counted(EngineSteps(c, Start(c), before)))]
    else []
  }

  /** A Command Complete event as the standard lays it out. */
  function Reply(mem: seq<byte>, accepted: nat): seq<byte>
    requires |mem| >= CMD_MEMORY
  {
    var op, ret := Opcode(mem), Returns(Decode(mem), accepted % 0x1_0000);
    [0x04, 0x0E, 3 + |ret|, 0x01, op % 0x100, op / 0x100] + ret
  }

  /** The whole log, octet for octet, of every run, stopped or not: exactly these replies
      and nothing else. */
  lemma {:induction false} EveryReply(c: Config, events: seq<Event>)
    requires ValidConfig(c)
    ensures WRun(c, Start(c), events).tx.frames == Replies(c, events)
    decreases |events|
  {
    if events != [] {
      var before, e := events[..|events| - 1], events[|events| - 1];
      assert events == before + [e];
      WRunSnoc(c, Start(c), before, e);
      EveryReply(c, before);
      OneReply(c, before, e);
    }
  }

  /** What one event adds to the log. */
  lemma OneReply(c: Config, before: seq<Event>, e: Event)
    requires ValidConfig(c)
    ensures var w := WRun(c, Start(c), before);
            Next(c, w, e).tx.frames == w.tx.frames + NewReplies(c, before, e)
  {
    var w := WRun(c, Start(c), before);
    if Processing(c, w, e) && w.rx.out[w.taken - 1].kind == H4_CMD {
      RunKeepsWInv(c, before);
      ProcessCommand(c, w, Fed(before), e.tail);
      NextOnCommand(c, w, e.tail);
      EngineHistory(c, Start(c), before);
      CountedExactly(c.powers, EngineSteps(c, Start(c), before));
      ReplyIsFrame(w.rx.out[w.taken - 1].bytes + e.tail, Counted(EngineSteps(c, Start(c), before)));
    }
  }

  lemma ReplyIsFrame(mem: seq<byte>, accepted: nat)
    requires |mem| >= CMD_MEMORY
    ensures Reply(mem, accepted) == EventFrame(Opcode(mem), Returns(Decode(mem), accepted % 0x1_0000))
  {
    FrameExactly(Opcode(mem), Returns(Decode(mem), accepted % 0x1_0000));
  }

  // ------------------------------------------------------------ polite hosts

  /** Packets fit a buffer, and no command among them is fatal, whatever lies behind it. */
  ghost predicate Harmless(c: Config, ps: seq<Packet>)
    requires ValidConfig(c)
  {
    forall k, tail: seq<byte> :: 0 <= k < |ps| && ps[k].kind == H4_CMD && |ps[k].bytes| + |tail| == c.size ==>
                                   !Fatal(Decode(ps[k].bytes + tail))
  }

  /** The host sends harmless packets that fit, and has never begun more than there are
      buffers beyond those it has seen answered. */
  ghost predicate PoliteAt(c: Config, w: World, fed: seq<byte>, e: Event)
    requires ValidConfig(c)
  {
    e.UartRx? ==>
      var stream := Unlimited(fed + e.chunk);
      Begun(stream) <= c.count + |w.tx.frames| && AllFit(c.size, stream) && Harmless(c, stream.out)
  }

  ghost predicate Polite(c: Config, events: seq<Event>)
    requires ValidConfig(c)
  {
    forall i :: 0 <= i < |events| ==> PoliteAt(c, WRun(c, Start(c), events[..i]), Fed(events[..i]), events[i])
  }

  /** Such a host never stops the device, whatever the interleaving. */
  lemma {:induction false} PoliteNeverStops(c: Config, events: seq<Event>)
    requires ValidConfig(c) && Polite(c, events)
    ensures !Stopped(WRun(c, Start(c), events)) && Harmless(c, Unlimited(Fed(events)).out)
    decreases |events|
  {
    if events != [] {
      var before, e := events[..|events| - 1], events[|events| - 1];
      assert events == before + [e] && PoliteAt(c, WRun(c, Start(c), before), Fed(before), e);
      forall i | 0 <= i < |before| ensures PoliteAt(c, WRun(c, Start(c), before[..i]), Fed(before[..i]), before[i]) {
        assert before[..i] == events[..i] && before[i] == events[i];
      }
      PoliteNeverStops(c, before);
      WRunSnoc(c, Start(c), before, e);
      PoliteStep(c, before, e);
      assert Fed(before) + [] == Fed(before);
    }
  }

  lemma PoliteStep(c: Config, before: seq<Event>, e: Event)
    requires ValidConfig(c) && !Stopped(WRun(c, Start(c), before)) && Harmless(c, Unlimited(Fed(before)).out)
    requires PoliteAt(c, WRun(c, Start(c), before), Fed(before), e)
    ensures !Stopped(Next(c, WRun(c, Start(c), before), e))
  {
    RunKeepsWInv(c, before);
    FramesBounded(c, before);
    PoliteEvent(c, WRun(c, Start(c), before), Fed(before), e);
  }

  lemma PoliteEvent(c: Config, w: World, fed: seq<byte>, e: Event)
    requires ValidConfig(c) && WInv(c, w, fed) && !Stopped(w) && Harmless(c, Unlimited(fed).out)
    requires PoliteAt(c, w, fed, e) && |w.tx.frames| <= Released(w)
    ensures !Stopped(Next(c, w, e))
  {
    if e.UartRx? {
      ReadHalts(c, w, fed, e.chunk);
    } else if Processing(c, w, e) && w.rx.out[w.taken - 1].kind == H4_CMD {
      StreamHaltsExactly(c.size, c.count + Released(w), fed);
      assert w.rx.out == Unlimited(fed).out;
      ProcessCommand(c, w, fed, e.tail);
    }
  }

  /** No more answers than processed commands. */
  lemma {:induction false} FramesBounded(c: Config, events: seq<Event>)
    requires ValidConfig(c) && !Stopped(WRun(c, Start(c), events))
    ensures var w := WRun(c, Start(c), events);
            Done(w) <= |w.rx.out| && |w.tx.frames| <= |Commands(w.rx.out[..Done(w)])|
    decreases |events|
  {
    if events != [] {
      var before, e := events[..|events| - 1], events[|events| - 1];
      assert events == before + [e];
      WRunSnoc(c, Start(c), before, e);
      RunKeepsWInv(c, before);
      FramesBounded(c, before);
      FramesFollow(c, WRun(c, Start(c), before), Fed(before), e);
    }
  }

  lemma FramesFollow(c: Config, w: World, fed: seq<byte>, e: Event)
    requires ValidConfig(c) && WInv(c, w, fed) && !Stopped(Next(c, w, e))
    requires |w.tx.frames| <= |Commands(w.rx.out[..Done(w)])|
    ensures var next := Next(c, w, e);
            Done(next) <= |next.rx.out| && |next.tx.frames| <= |Commands(next.rx.out[..Done(next)])|
  {
    if Processing(c, w, e) {
      FramesFollowProcess(c, w, e.tail);
    } else if e.UartRx? {
      FeedWhole(c.size, w.rx, e.chunk);
      assert Next(c, w, e).rx.out[..Done(w)] == w.rx.out[..Done(w)];
    }
  }

  lemma FramesFollowProcess(c: Config, w: World, tail: seq<byte>)
    requires ValidConfig(c) && Processing(c, w, TrProcess(tail)) && !Stopped(Next(c, w, TrProcess(tail)))
    requires Whole(w.rx.out[w.taken - 1].kind, w.rx.out[w.taken - 1].bytes)
    requires |w.tx.frames| <= |Commands(w.rx.out[..w.taken - 1])|
    ensures var next := Next(c, w, TrProcess(tail));
            next.rx.out == w.rx.out && Done(next) == w.taken && |next.tx.frames| <= |Commands(w.rx.out[..w.taken])|
  {
    var p := w.rx.out[w.taken - 1];
    assert w.rx.out[..w.taken] == w.rx.out[..w.taken - 1] + [p];
    CommandsSnoc(w.rx.out[..w.taken - 1], p);
    if p.kind == H4_CMD { NextOnCommand(c, w, tail); }
  }

  // -------------------------------------------------------- transmit buffers

  function Completions(events: seq<Event>): nat {
    if events == [] then 0
    else Completions(events[..|events| - 1]) + if events[|events| - 1].TxDone? then 1 else 0
  }

  /** No buffer is returned that was not taken. */
  ghost predicate HonestUart(c: Config, events: seq<Event>)
    requires ValidConfig(c)
  {
    forall i :: 0 <= i < |events| && events[i].TxDone? ==> WRun(c, Start(c), events[..i]).tx.free < c.txCount
  }

  /** Every answer takes one transmit buffer and every completion returns one. */
  lemma {:induction false} TransmitConservation(c: Config, events: seq<Event>)
    requires ValidConfig(c) && !Stopped(WRun(c, Start(c), events)) && HonestUart(c, events)
    ensures var w := WRun(c, Start(c), events); w.tx.free + |w.tx.frames| == c.txCount + Completions(events)
    decreases |events|
  {
    if events != [] {
      var before, e := events[..|events| - 1], events[|events| - 1];
      assert events == before + [e];
      WRunSnoc(c, Start(c), before, e);
      forall i | 0 <= i < |before| && before[i].TxDone? ensures WRun(c, Start(c), before[..i]).tx.free < c.txCount {
        assert before[..i] == events[..i] && before[i] == events[i];
      }
      TransmitConservation(c, before);
      BuffersStep(c, WRun(c, Start(c), before), e);
    }
  }

  lemma BuffersStep(c: Config, w: World, e: Event)
    requires ValidConfig(c) && !Stopped(Next(c, w, e)) && (e.TxDone? ==> w.tx.free < c.txCount)
    ensures var next := Next(c, w, e);
            next.tx.free + |next.tx.frames| == w.tx.free + |w.tx.frames| + if e.TxDone? then 1 else 0
  {
    if Processing(c, w, e) && w.rx.out[w.taken - 1].kind == H4_CMD { NextOnCommand(c, w, e.tail); }
  }
}
