/** Two testers at work: one transmits, the other counts. What the standard's packet error
    measurement rests on, from the two HCI commands to the count that Test End reports. */
module DtmLink {
  import opened Bytes
  import opened DtmHw
  import opened DtmInterval
  import opened DtmPdu
  import opened DtmState
  import opened DtmRuns
  import opened HciCommands
  import opened HciWorld
  import Core = DtmCmdCore
  import Two = DtmSession

  /** What a transmitting engine sends: header, length and payload of the radio's buffer. */
  function OnAir(d: Dtm): AirPdu {
    var pdu := d.Buffer(d.radioPtr);
    pdu[..2 + pdu[1]]
  }

  /** A started transmitter test has the radio on the requested channel, sending a packet
      of the requested type and length whatever the buffers held before. */
  lemma SendsWhatWasAsked(t: PowerTable, d: Dtm, ch: byte, len: byte, pkt: PacketType)
    requires d.state == Idle && !d.panicked && ch <= PHYS_CH_MAX && HasPattern(Resolve(d.mode, pkt))
    ensures var sent := Apply(t, d, Transmit(ch, len, pkt));
            var code := TypeCode(Resolve(d.mode, pkt));
            && sent.irq && sent.physCh == ch && sent.mode == d.mode && sent.rxPktCount == 0
            && sent.interval == Spacing(AirTime(len, d.mode)) && sent.txPower == d.txPower
            && OnAir(sent) == [code, len] + Pattern(code, len)
  {
    var sent := Apply(t, d, Transmit(ch, len, pkt));
    var p := Resolve(d.mode, pkt);
    assert sent.Buffer(sent.radioPtr) == Built(d.pdu0[1 := len], p, len);
    assert Built(d.pdu0[1 := len], p, len)[..2 + len] == [TypeCode(p), len] + Pattern(TypeCode(p), len);
  }

  /** A receiver meeting such a packet accepts it exactly when its PHY admits the type. */
  lemma HeardRight(mode: RadioMode, code: byte, len: byte)
    requires code < 8
    ensures Accepts(mode, AirView([code, len] + Pattern(code, len))) <==> Allowed(mode, code)
  {
    var view := AirView([code, len] + Pattern(code, len));
    assert view[2..2 + len] == Pattern(code, len);
  }

  /** Every packet with good CRC is the one on air; corrupted ones may hold anything. */
  predicate Hears(events: seq<Step>, air: AirPdu) {
    forall i :: 0 <= i < |events| ==> events[i].RadioEnd? && (events[i].crcOk ==> events[i].content == air)
  }

  function GoodCrc(events: seq<Step>): nat
    requires forall i :: 0 <= i < |events| ==> events[i].RadioEnd?
  {
    if events == [] then 0
    else GoodCrc(events[..|events| - 1]) + if events[|events| - 1].crcOk then 1 else 0
  }

  lemma {:induction false} AcceptedAreGood(phy: RadioMode, events: seq<Step>, code: byte, len: byte)
    requires code < 8 && Hears(events, [code, len] + Pattern(code, len))
    ensures Tally(phy, events, Accepted) == if Allowed(phy, code) then GoodCrc(events) else 0
    decreases |events|
  {
    if events != [] {
      HeardRight(phy, code, len);
      AcceptedAreGood(phy, events[..|events| - 1], code, len);
    }
  }

  /** The receiver's engine right after a successful receiver test command: on the channel
      and PHY asked for, its count at zero. */
  lemma ReceiverStarted(t: PowerTable, d: Dtm, q: RxParams)
    requires EngineInv(t, d) && !d.panicked && RxStatus(q) == SUCCESS
    ensures var rx := Run(t, d, RxCalls(q));
            && Inv(t, rx) && !rx.panicked && rx.physCh == q.ch && PhyNumber(q.phy, rx.mode) && rx.radioPtr == 0
            && Refines(Ref(ReceiverTest, true, rx.mode, 0, 0), rx)
  {
    RunKeepsInv(t, d, RxCalls(q));
    RxTestRuns(t, d, q);
    PhyNumbersExactly(q.phy, PhyMode(PhyFor(q.phy)));
    RunThree(t, d, Prepare, SetPhy(PhyFor(q.phy)), Receive(q.ch));
  }

  /** An HCI power octet as asked: 0x7E the lowest entry, 0x7F the highest, else the entry
      nearest to the signed octet. */
  ghost predicate PowerOctet(t: PowerTable, octet: byte, p: byte) {
    if octet == 0x7E then PowerAsAsked(t, RequestMin, 0, p)
    else if octet == 0x7F then PowerAsAsked(t, RequestMax, 0, p)
    else PowerAsAsked(t, RequestVal, AsInt8(octet), p)
  }

  /** The transmitter's engine right after a successful transmitter test command: channel,
      PHY, power, packet and spacing are those asked for, and the timer drives the radio. */
  lemma TransmitterStarted(t: PowerTable, d: Dtm, p: TxParams)
    requires EngineInv(t, d) && !d.panicked && TxStatus(p) == SUCCESS && p.ch <= PHYS_CH_MAX
    ensures var tx := Run(t, d, TxCalls(p));
            && tx.state == TransmitterTest && tx.irq && tx.physCh == p.ch && PhyNumber(p.phy, tx.mode)
            && LinkExact(tx) && tx.rxPktCount == 0 && PowerOctet(t, p.power, tx.txPower)
            && OnAir(tx) == [p.payload, p.len] + Pattern(p.payload, p.len)
            && tx.interval == Spacing(AirTime(p.len, tx.mode))
  {
    var q := Apply(t, d, Prepare);
    var phy, power := SetPhy(PhyFor(p.phy)), PowerStep(p.power, p.ch);
    TxTestRuns(t, d, p);
    StepKeepsInv(t, d, Prepare);
    StepKeepsInv(t, q, phy);
    RunFour(t, d, Prepare, phy, power, Transmit(p.ch, p.len, TypeOf(p.payload)));
    PhyNumbersExactly(p.phy, PhyMode(PhyFor(p.phy)));
    PowerSet(t, Apply(t, q, phy), p.power, p.ch);
    SendsWhatWasAsked(t, Apply(t, Apply(t, q, phy), power), p.ch, p.len, TypeOf(p.payload));
  }

  lemma PowerSet(t: PowerTable, d: Dtm, octet: byte, ch: byte)
    requires !d.panicked && ch <= PHYS_CH_MAX
    ensures var next := Apply(t, d, PowerStep(octet, ch));
            PowerOctet(t, octet, next.txPower) && next == d.(txPower := next.txPower)
  {
    var step := PowerStep(octet, ch);
    PowerRequested(t, d, step.request, step.val, ch);
  }

  /** A receiver test just started counts exactly the good packets of an admitted type. */
  lemma CountsGood(t: PowerTable, d: Dtm, events: seq<Step>, code: byte, len: byte)
    requires Inv(t, d) && !d.panicked && Refines(Ref(ReceiverTest, true, d.mode, 0, 0), d)
    requires code < 8 && Hears(events, [code, len] + Pattern(code, len))
    ensures Run(t, d, events).rxPktCount == (if Allowed(d.mode, code) then GoodCrc(events) else 0) % 0x1_0000
  {
    CountsAccepted(t, d, events);
    AcceptedAreGood(d.mode, events, code, len);
  }

  lemma CountsAccepted(t: PowerTable, d: Dtm, events: seq<Step>)
    requires Inv(t, d) && !d.panicked && Refines(Ref(ReceiverTest, true, d.mode, 0, 0), d)
    requires forall i :: 0 <= i < |events| ==> events[i].RadioEnd?
    ensures Run(t, d, events).rxPktCount == Tally(d.mode, events, Accepted) % 0x1_0000
  {
    var r := Ref(ReceiverTest, true, d.mode, 0, 0);
    EventsNeverPanic(t, d, events);
    RunRefines(t, r, d, events);
    RefTally(r, events);
  }

  /** An engine that does not listen is left alone by packets finishing on its radio. */
  lemma {:induction false} DeafTo(t: PowerTable, d: Dtm, events: seq<Step>)
    requires !Listening(d) && forall i :: 0 <= i < |events| ==> events[i].RadioEnd?
    ensures Run(t, d, events) == d
    decreases events
  {
    if events != [] { DeafTo(t, d, events[1..]); }
  }

  /** The whole measurement: one device is told to transmit and another to receive, both
      having done anything before. However many packets then finish on either radio, the
      receiver's answer to Test End carries the number received with good CRC, modulo 2^16,
      for payload types up to 2 on LE 1M and 2M and up to 4 on coded PHYs, and 0 otherwise;
      the transmitter's carries 0. */
  lemma Measurement(ta: PowerTable, a: Dtm, p: TxParams, own: seq<Step>,
                    tb: PowerTable, b: Dtm, q: RxParams, events: seq<Step>)
    requires forall i :: 0 <= i < |own| ==> own[i].RadioEnd?
    requires EngineInv(ta, a) && !a.panicked && TxStatus(p) == SUCCESS && p.ch <= PHYS_CH_MAX
    requires EngineInv(tb, b) && !b.panicked && RxStatus(q) == SUCCESS
    requires Hears(events, OnAir(Run(ta, a, TxCalls(p))))
    ensures var admitted := if q.phy == 1 || q.phy == 2 then p.payload <= 2 else p.payload <= 4;
            var count := (if admitted then GoodCrc(events) else 0) % 0x1_0000;
            Returns(CmdTestEnd, Run(tb, Run(tb, b, RxCalls(q)), events).rxPktCount) == [0x00, count % 0x100, count / 0x100]
    ensures Returns(CmdTestEnd, Run(ta, Run(ta, a, TxCalls(p)), own).rxPktCount) == [0x00, 0, 0]
  {
    Received(tb, b, q, p, events, OnAir(Run(ta, a, TxCalls(p)))) by { TransmitterStarted(ta, a, p); }
    Unheard(ta, a, p, own);
  }

  lemma Received(t: PowerTable, d: Dtm, q: RxParams, p: TxParams, events: seq<Step>, air: AirPdu)
    requires EngineInv(t, d) && !d.panicked && RxStatus(q) == SUCCESS && p.payload <= 7
    requires air == [p.payload, p.len] + Pattern(p.payload, p.len) && Hears(events, air)
    ensures var admitted := if q.phy == 1 || q.phy == 2 then p.payload <= 2 else p.payload <= 4;
            var count := (if admitted then GoodCrc(events) else 0) % 0x1_0000;
            Returns(CmdTestEnd, Run(t, Run(t, d, RxCalls(q)), events).rxPktCount) == [0x00, count % 0x100, count / 0x100]
  {
    ReceiverStarted(t, d, q);
    CountsGood(t, Run(t, d, RxCalls(q)), events, p.payload, p.len);
    ReturnsExactly(Run(t, Run(t, d, RxCalls(q)), events).rxPktCount);
  }

  lemma Unheard(t: PowerTable, d: Dtm, p: TxParams, own: seq<Step>)
    requires forall i :: 0 <= i < |own| ==> own[i].RadioEnd?
    requires EngineInv(t, d) && !d.panicked && TxStatus(p) == SUCCESS && p.ch <= PHYS_CH_MAX
    ensures Returns(CmdTestEnd, Run(t, Run(t, d, TxCalls(p)), own).rxPktCount) == [0x00, 0, 0]
  {
    TransmitterStarted(t, d, p);
    SilentWhileSending(t, Run(t, d, TxCalls(p)), own);
  }

  lemma SilentWhileSending(t: PowerTable, tx: Dtm, own: seq<Step>)
    requires forall i :: 0 <= i < |own| ==> own[i].RadioEnd?
    requires tx.state == TransmitterTest && tx.rxPktCount == 0
    ensures Returns(CmdTestEnd, Run(t, tx, own).rxPktCount) == [0x00, 0, 0]
  {
    DeafTo(t, tx, own);
    ReturnsExactly(0);
  }

  // --------------------------------------------------- by two-octet commands

  /** A two-octet receiver word: code 1, channel, six unused bits, packet type. */
  function ReceiverWord(chan: byte): uint16
    requires chan < 0x40
  {
    0x4000 + 0x100 * chan
  }

  /** After any session that left the device idle, the two words for a length and a
      transmitter test put exactly the packet asked for on the air. */
  lemma WordsSend(t: PowerTable, before: seq<Two.Event>, chan: byte, n: byte, kind: nat)
    requires chan <= 39 && kind <= 2
    requires var d := Two.After(t, Two.Fresh(), before).d; d.state == Idle && !d.panicked
    ensures var s := Two.After(t, Two.Fresh(), before + [Two.Word(Core.UpperWord(n))]);
            var sent := Two.Advance(t, s, Two.Word(Core.TxWord(chan, n % 0x40, kind))).d;
            && sent.state == TransmitterTest && sent.irq && sent.physCh == chan && sent.mode == Ble1Mbit
            && sent.interval == Spacing(AirTime(n, Ble1Mbit))
            && OnAir(sent) == [kind, n] + Pattern(kind, n)
  {
    var upper := Two.Word(Core.UpperWord(n));
    var idle, s := Two.After(t, Two.Fresh(), before), Two.After(t, Two.Fresh(), before + [upper]);
    Two.AfterConcat(t, Two.Fresh(), before, [upper]);
    Two.AfterOne(t, idle, upper);
    Core.UpperWordDecodes(n);
    assert s.d == idle.d;
    Two.SessionStaysOn1M(t, Two.Fresh(), before);
    assert before + [upper] + [] == before + [upper];
    Two.LengthRoundTrip(t, before, n, [], chan, kind);
    RunOne(t, s.d, Transmit(chan, n, Core.PacketOf(kind)));
    SendsWhatWasAsked(t, s.d, chan, n, Core.PacketOf(kind));
  }

  /** After any session the receiver word makes the device listen on its channel, on LE 1M,
      from a count of zero. */
  lemma WordsListen(t: PowerTable, before: seq<Two.Event>, chan: byte)
    requires chan <= 39 && !Two.After(t, Two.Fresh(), before).d.panicked
    ensures var d := Two.Advance(t, Two.After(t, Two.Fresh(), before), Two.Word(ReceiverWord(chan))).d;
            && Listening(d) && d.physCh == chan && d.mode == Ble1Mbit && !d.panicked && Inv(t, d)
            && Refines(Ref(ReceiverTest, true, d.mode, 0, 0), d)
  {
    var s := Two.After(t, Two.Fresh(), before);
    Two.SessionIsRun(t, Two.Fresh(), before);
    EveryRunIsSound(t, Two.SessionSteps(0, before));
    Two.SessionStaysOn1M(t, Two.Fresh(), before);
    WordReceives(t, s, chan);
    Listens(t, s.d, chan);
  }

  lemma WordReceives(t: PowerTable, s: Two.Session, chan: byte)
    requires chan < 0x40 && Core.IsUpper(s.upper)
    ensures Two.Advance(t, s, Two.Word(ReceiverWord(chan))).d == Apply(t, s.d, Receive(chan))
  {
    Core.EveryWord(s.upper, ReceiverWord(chan));
    RunOne(t, s.d, Receive(chan));
  }

  lemma Listens(t: PowerTable, d: Dtm, ch: byte)
    requires Inv(t, d) && !d.panicked && ch <= 39
    ensures var rx := Apply(t, d, Receive(ch));
            && Listening(rx) && rx.physCh == ch && rx.mode == d.mode && !rx.panicked && Inv(t, rx)
            && Refines(Ref(ReceiverTest, true, d.mode, 0, 0), rx)
  {
    StepKeepsInv(t, d, Receive(ch));
  }

  /** And a Test End after any packets reports how many of them had good CRC, modulo 2^15, if
      they carry a type up to 2, and else none. */
  lemma WordsReceive(t: PowerTable, d: Dtm, events: seq<Step>, code: byte, n: byte)
    requires Inv(t, d) && d.mode == Ble1Mbit && !d.panicked && Refines(Ref(ReceiverTest, true, d.mode, 0, 0), d)
    requires code < 8 && Hears(events, [code, n] + Pattern(code, n))
    ensures Core.ReportWord(Run(t, d, events).rxPktCount) == 0x8000 + (if code <= 2 then GoodCrc(events) else 0) % 0x8000
  {
    CountsGood(t, d, events, code, n);
    Two.HalfReport(if code <= 2 then GoodCrc(events) else 0, Run(t, d, events).rxPktCount);
  }
}
