/** What holds over every run of the engine: any sequence of interface calls, in any
    order, interleaved with packets finishing on the radio. */
module DtmRuns {
  import opened Bytes
  import opened DtmHw
  import opened DtmInterval
  import opened DtmPdu
  import opened DtmState

  // ------------------------------------------------------ engine invariants

  predicate Listening(d: Dtm) { d.state == ReceiverTest && d.irq }

  /** The timer retriggers the transmitter: COMPARE0 drives TXEN through the channel. */
  predicate LinkOn(link: Link) {
    link.enabled && TimerCompare0 in link.ends && RadioTxen in link.ends
  }

  ghost predicate ConfigInv(t: PowerTable, d: Dtm) {
    && d.txPower in t
    && (Uncoded(d.mode) || LongRange(d.mode))
    && d.plen == PreambleOf(d.mode)
  }

  /** While receiving, the radio owns the current buffer and both buffers are clean. */
  ghost predicate BufferInv(d: Dtm) {
    Listening(d) ==> d.radioPtr == d.current && d.pdu0 == Zeros() && d.pdu1 == Zeros()
  }

  ghost predicate LinkInv(d: Dtm) {
    && EguTriggered !in d.link.ends && TimerStart !in d.link.ends
    && (d.state == TransmitterTest ==> LinkOn(d.link))
    && (LinkOn(d.link) ==> d.state == TransmitterTest || d.state == ReceiverTest)
  }

  ghost predicate TimerInv(d: Dtm) {
    d.state == TransmitterTest ==> 0 < d.interval <= 17500 && d.interval % 625 == 0
  }

  ghost predicate Inv(t: PowerTable, d: Dtm) {
    d.state != Uninitialized && ConfigInv(t, d) && BufferInv(d) && LinkInv(d) && TimerInv(d)
  }

  lemma StepKeepsConfig(t: PowerTable, d: Dtm, s: Step)
    requires ConfigInv(t, d)
    ensures ConfigInv(t, Apply(t, d, s))
  {
    if s.SetPower? {
      assert PowerFor(t, s.request, s.val) in t;
    } else if s.SetPhy? {
      assert Validates(t, d.txPower, PhyMode(s.phy));
    }
  }

  lemma StepKeepsBuffers(t: PowerTable, d: Dtm, s: Step)
    requires BufferInv(d)
    ensures BufferInv(Apply(t, d, s))
  {}

  lemma StepKeepsLink(t: PowerTable, d: Dtm, s: Step)
    requires LinkInv(d)
    ensures LinkInv(Apply(t, d, s))
  {
    match s {
      case Transmit(ch, len, pkt) => TransmitKeepsLink(t, d, ch, len, pkt);
      case RadioEnd(crcOk, content) => assert RadioEndStep(d, crcOk, content).link == d.link;
      case _ =>
    }
  }

  lemma TransmitKeepsLink(t: PowerTable, d: Dtm, ch: byte, len: byte, pkt: PacketType)
    requires LinkInv(d)
    ensures LinkInv(TransmitStep(t, d, ch, len, pkt))
  {
    assert LinkOn(TxLinked(d.link));
  }

  lemma StepKeepsTimer(t: PowerTable, d: Dtm, s: Step)
    requires TimerInv(d)
    ensures TimerInv(Apply(t, d, s))
  {
    if s.Transmit? {
      FitsTimer(s.len, d.mode);
      GapBounds(AirTime(s.len, d.mode));
    }
  }

  lemma StepKeepsInv(t: PowerTable, d: Dtm, s: Step)
    requires Inv(t, d)
    ensures Inv(t, Apply(t, d, s))
  {
    StepKeepsConfig(t, d, s);
    StepKeepsBuffers(t, d, s);
    StepKeepsLink(t, d, s);
    StepKeepsTimer(t, d, s);
  }

  lemma {:induction false} RunKeepsInv(t: PowerTable, d: Dtm, steps: seq<Step>)
    requires Inv(t, d)
    ensures Inv(t, Run(t, d, steps))
    decreases steps
  {
    if steps != [] {
      StepKeepsInv(t, d, steps[0]);
      RunKeepsInv(t, Apply(t, d, steps[0]), steps[1..]);
    }
  }

  lemma EveryRunIsSound(t: PowerTable, steps: seq<Step>)
    ensures Inv(t, Run(t, Boot(), steps))
  {
    RunKeepsInv(t, Boot(), steps);
  }

  /** Reset and PHY selection never fail, whatever was called before. */
  lemma SetupNeverFails(t: PowerTable, steps: seq<Step>, phy: Phy)
    ensures var d := Run(t, Boot(), steps);
            && RadioInitErr(t, d) == 0
            && RadioInitErr(t, d.(mode := Ble1Mbit)) == 0
            && RadioInitErr(t, d.(mode := PhyMode(phy))) == 0
  {
    EveryRunIsSound(t, steps);
  }

  /** The device stops exactly on a channel above 39 in a power request, or in an
      unmodulated-carrier command accepted while idle. */
  lemma PanicExactly(t: PowerTable, d: Dtm, s: Step)
    requires !d.panicked
    ensures Apply(t, d, s).panicked <==>
              || (s.SetPower? && s.ch > PHYS_CH_MAX)
              || (s.Transmit? && d.state == Idle && Resolve(d.mode, s.pkt) == Vendor
                  && s.len <= 1 && s.ch > PHYS_CH_MAX)
  {}

  /** The preamble each PHY needs. */
  lemma PreambleExactly(mode: RadioMode)
    requires Uncoded(mode) || LongRange(mode)
    ensures PreambleOf(mode) == Bits8 <==> mode == Ble1Mbit
    ensures PreambleOf(mode) == Bits16 <==> mode == Ble2Mbit
    ensures PreambleOf(mode) == LongRangeBits <==> mode == BleLr125Kbit || mode == BleLr500Kbit
  {}

  /** Packet type 3 is the vendor command on uncoded PHYs and the 0xFF pattern on coded
      ones; every other type is itself. */
  lemma ResolveExactly(mode: RadioMode, pkt: PacketType)
    requires Uncoded(mode) || LongRange(mode)
    ensures pkt != FfOrVendor ==> Resolve(mode, pkt) == pkt
    ensures Resolve(mode, FfOrVendor) == FillFF <==> mode == BleLr125Kbit || mode == BleLr500Kbit
    ensures Resolve(mode, FfOrVendor) == Vendor <==> mode == Ble1Mbit || mode == Ble2Mbit
  {}

  // ----------------------------------------------------------- power and channel

  /** `p` is what a power request asks for: the lowest or highest entry of the table, or
      the one nearest to `val`. */
  ghost predicate PowerAsAsked(t: PowerTable, request: PowerRequest, val: int, p: byte) {
    && p in t
    && match request
       case RequestMin => forall q :: q in t ==> AsInt8(p) <= AsInt8(q)
       case RequestMax => forall q :: q in t ==> AsInt8(q) <= AsInt8(p)
       case RequestVal => IsNearest(t, val, p)
  }

  lemma PowerRequested(t: PowerTable, d: Dtm, request: PowerRequest, val: int, ch: byte)
    requires !d.panicked && ch <= PHYS_CH_MAX
    ensures PowerAsAsked(t, request, val, Apply(t, d, SetPower(request, val, ch)).txPower)
    ensures Apply(t, d, SetPower(request, val, ch)) ==
            d.(txPower := Apply(t, d, SetPower(request, val, ch)).txPower)
  {
    NearestIsNearest(t, val);
    forall q | q in t ensures AsInt8(t[0]) <= AsInt8(q) <= AsInt8(t[|t| - 1]) {
      var k :| 0 <= k < |t| && t[k] == q;
    }
  }

  /** The channel of the latest receiver start, found by looking back over a run. */
  function LatestChannel(steps: seq<Step>): byte {
    if steps == [] then 0
    else
      var s := steps[|steps| - 1];
      if StartsReceiver(s) then s.ch else LatestChannel(steps[..|steps| - 1])
  }

  lemma RunSnoc(t: PowerTable, d: Dtm, steps: seq<Step>, s: Step)
    ensures Run(t, d, steps + [s]) == Apply(t, Run(t, d, steps), s)
  {
    RunConcat(t, d, steps, [s]);
    RunOne(t, Run(t, d, steps), s);
  }

  /** After every run, a listening receiver is on the channel of the latest start. */
  lemma {:induction false} ListensWhereAsked(t: PowerTable, steps: seq<Step>)
    requires Listening(Run(t, Boot(), steps)) && !Run(t, Boot(), steps).panicked
    ensures Run(t, Boot(), steps).physCh == LatestChannel(steps)
    decreases |steps|
  {
    if steps != [] {
      var before, s := steps[..|steps| - 1], steps[|steps| - 1];
      assert steps == before + [s];
      RunSnoc(t, Boot(), before, s);
      var d := Run(t, Boot(), before);
      ChannelStep(t, d, s);
      if !StartsReceiver(s) { ListensWhereAsked(t, before); }
    }
  }

  /** A step that leaves a receiver listening started it, or left its channel alone. */
  lemma ChannelStep(t: PowerTable, d: Dtm, s: Step)
    requires Listening(Apply(t, d, s)) && !Apply(t, d, s).panicked
    ensures StartsReceiver(s) ==> Apply(t, d, s).physCh == s.ch
    ensures !StartsReceiver(s) ==> Listening(d) && !d.panicked && Apply(t, d, s).physCh == d.physCh
  {}

  // ------------------------------------------------------ ping-pong isolation

  /** What the checker should see of a packet: its octets, then nothing but zeros. */
  function AirView(content: AirPdu): Pdu { Overlay(Zeros(), content) }

  /** At every END event of every run the checked buffer holds that packet alone, the
      buffer given to the radio meanwhile is the other one, and it is clean. */
  lemma Isolation(t: PowerTable, steps: seq<Step>, crcOk: bool, content: AirPdu)
    requires Listening(Run(t, Boot(), steps)) && !Run(t, Boot(), steps).panicked
    ensures var d := Run(t, Boot(), steps);
            var next := Apply(t, d, RadioEnd(crcOk, content));
            && Arrived(d, content).Buffer(d.current) == AirView(content)
            && next.radioPtr != d.current
            && Arrived(d, content).Buffer(next.radioPtr) == Zeros()
            && next.Buffer(next.radioPtr) == Zeros()
            && Listening(next)
  {
    EveryRunIsSound(t, steps);
  }

  // --------------------------------------------- refinement to a small machine

  /** The engine without radio, buffers, powers or links: the test it is in, whether the
      receiver listens, the PHY, and unbounded counts. */
  datatype Ref = Ref(state: TestState, listening: bool, phy: RadioMode, accepted: nat, crcErrors: nat)

  function RefBoot(): Ref { Ref(Idle, false, Ble1Mbit, 0, 0) }

  function RefStep(r: Ref, s: Step): Ref {
    match s
    case Prepare => r.(state := Idle, listening := false, accepted := 0)
    case End => r.(state := Idle, listening := false, accepted := 0)
    case Reset => r.(listening := false, phy := Ble1Mbit, accepted := 0)
    case SetPhy(phy) => r.(listening := false, phy := PhyMode(phy), accepted := 0)
    case SetPower(_, _, _) => r
    case Receive(ch) => if ch > PHYS_CH_MAX then r else Ref(ReceiverTest, true, r.phy, 0, 0)
    case Transmit(ch, len, pkt) =>
      if r.state != Idle then r
      else if Resolve(r.phy, pkt) == Vendor then
        r.(state := if len <= 1 then CarrierTest else Idle, accepted := 0)
      else if ch > PHYS_CH_MAX then r
      else r.(state := TransmitterTest, accepted := 0)
    case RadioEnd(crcOk, content) =>
      if !r.listening then r
      else if !crcOk then r.(crcErrors := r.crcErrors + 1)
      else if Accepts(r.phy, AirView(content)) then r.(accepted := r.accepted + 1)
      else r
  }

  function RefRun(r: Ref, steps: seq<Step>): Ref
    decreases steps
  {
    if steps == [] then r else RefRun(RefStep(r, steps[0]), steps[1..])
  }

  ghost predicate Refines(r: Ref, d: Dtm) {
    && r.state == d.state
    && r.listening == Listening(d)
    && r.phy == d.mode
    && d.rxPktCount == r.accepted % 0x1_0000
    && d.crcErrorCount == r.crcErrors % 0x1_0000_0000
  }

  lemma StepRefines(t: PowerTable, r: Ref, d: Dtm, s: Step)
    requires Inv(t, d) && Refines(r, d) && !Apply(t, d, s).panicked
    ensures Refines(RefStep(r, s), Apply(t, d, s))
  {
    match s {
      case RadioEnd(crcOk, content) => RadioEndRefines(r, d, crcOk, content);
      case Transmit(ch, len, pkt) => TransmitRefines(t, r, d, ch, len, pkt);
      case _ =>
    }
  }

  lemma TransmitRefines(t: PowerTable, r: Ref, d: Dtm, ch: byte, len: byte, pkt: PacketType)
    requires Refines(r, d) && !TransmitStep(t, d, ch, len, pkt).panicked && !d.panicked
    ensures Refines(RefStep(r, Transmit(ch, len, pkt)), TransmitStep(t, d, ch, len, pkt))
  {}

  lemma RadioEndRefines(r: Ref, d: Dtm, crcOk: bool, content: AirPdu)
    requires BufferInv(d) && Refines(r, d)
    ensures Refines(RefStep(r, RadioEnd(crcOk, content)), RadioEndStep(d, crcOk, content))
  {
    if Listening(d) {
      assert Arrived(d, content).Buffer(d.current) == AirView(content);
    }
  }

  lemma {:induction false} PanicIsFinal(t: PowerTable, d: Dtm, steps: seq<Step>)
    requires d.panicked
    ensures Run(t, d, steps) == d
    decreases steps
  {
    if steps != [] { PanicIsFinal(t, d, steps[1..]); }
  }

  lemma {:induction false} RunRefines(t: PowerTable, r: Ref, d: Dtm, steps: seq<Step>)
    requires Inv(t, d) && Refines(r, d) && !Run(t, d, steps).panicked
    ensures Refines(RefRun(r, steps), Run(t, d, steps))
    decreases steps
  {
    if steps != [] {
      var next := Apply(t, d, steps[0]);
      if next.panicked { PanicIsFinal(t, next, steps[1..]); }
      StepKeepsInv(t, d, steps[0]);
      StepRefines(t, r, d, steps[0]);
      RunRefines(t, RefStep(r, steps[0]), next, steps[1..]);
    }
  }

  /** The steps that stop the device, told from the reference machine: a power request on a
      channel above 39, or a carrier command on one accepted while idle. */
  predicate Stops(r: Ref, s: Step) {
    || (s.SetPower? && s.ch > PHYS_CH_MAX)
    || (s.Transmit? && r.state == Idle && Resolve(r.phy, s.pkt) == Vendor && s.len <= 1 && s.ch > PHYS_CH_MAX)
  }

  predicate SomeStop(r: Ref, steps: seq<Step>)
    decreases steps
  {
    steps != [] && (Stops(r, steps[0]) || SomeStop(RefStep(r, steps[0]), steps[1..]))
  }

  /** A run stops the device exactly if the reference machine meets such a step. */
  lemma {:induction false} RunPanicsExactly(t: PowerTable, r: Ref, d: Dtm, steps: seq<Step>)
    requires Inv(t, d) && Refines(r, d) && !d.panicked
    ensures Run(t, d, steps).panicked <==> SomeStop(r, steps)
    decreases steps
  {
    if steps != [] {
      var next := Apply(t, d, steps[0]);
      PanicExactly(t, d, steps[0]);
      if next.panicked {
        PanicIsFinal(t, next, steps[1..]);
      } else {
        StepKeepsInv(t, d, steps[0]);
        StepRefines(t, r, d, steps[0]);
        RunPanicsExactly(t, RefStep(r, steps[0]), next, steps[1..]);
      }
    }
  }

  /** Exact receive counting, over all runs: the count a Test End reports is, modulo 2^16,
      the number of listened-to packets with good CRC and acceptable content since the last
      start or radio reset; the CRC counter likewise since the last receiver test began. */
  lemma ExactCounting(t: PowerTable, steps: seq<Step>)
    requires !Run(t, Boot(), steps).panicked
    ensures Refines(RefRun(RefBoot(), steps), Run(t, Boot(), steps))
  {
    RunRefines(t, RefBoot(), Boot(), steps);
  }

  // ------------------------------------------------------- counting corollaries

  predicate StartsReceiver(s: Step) { s.Receive? && s.ch <= PHYS_CH_MAX }

  lemma {:induction false} NothingHeard(r: Ref, steps: seq<Step>)
    requires !r.listening && r.accepted == 0
    requires forall i :: 0 <= i < |steps| ==> !StartsReceiver(steps[i])
    ensures !RefRun(r, steps).listening && RefRun(r, steps).accepted == 0
    decreases steps
  {
    if steps != [] {
      assert !StartsReceiver(steps[0]);
      NothingHeard(RefStep(r, steps[0]), steps[1..]);
    }
  }

  /** Calls that reset the radio. */
  predicate Silences(s: Step) { s.End? || s.Prepare? || s.Reset? || s.SetPhy? }

  /** After any radio reset the count stays 0 until a receiver test starts: a second Test
      End reports 0, so does one ending a transmitter test, and so does one after a reset
      or PHY change even though these leave a receiver test's state standing. */
  lemma SilentUntilReceiver(t: PowerTable, before: seq<Step>, s: Step, between: seq<Step>)
    requires Silences(s)
    requires forall i :: 0 <= i < |between| ==> !StartsReceiver(between[i])
    requires !Run(t, Boot(), before + [s] + between).panicked
    ensures Run(t, Boot(), before + [s] + between).rxPktCount == 0
  {
    var p, d := Run(t, Boot(), before), Run(t, Boot(), before + [s]);
    RunConcat(t, Boot(), before + [s], between);
    RunConcat(t, Boot(), before, [s]);
    RunOne(t, p, s);
    if d.panicked { PanicIsFinal(t, d, between); }
    EveryRunIsSound(t, before);
    EveryRunIsSound(t, before + [s]);
    var r := Ref(d.state, false, d.mode, 0, d.crcErrorCount);
    RunRefines(t, r, d, between);
    NothingHeard(r, between);
  }

  datatype Verdict = Accepted | CrcError | Rejected

  function Judge(phy: RadioMode, s: Step): Verdict
    requires s.RadioEnd?
  {
    if !s.crcOk then CrcError else if Accepts(phy, AirView(s.content)) then Accepted else Rejected
  }

  /** How many finished packets among the steps get a verdict, from step `since` on. */
  function Tally(phy: RadioMode, steps: seq<Step>, v: Verdict, since: nat := 0): nat {
    if |steps| <= since then 0
    else
      var s := steps[|steps| - 1];
      Tally(phy, steps[..|steps| - 1], v, since) + if s.RadioEnd? && Judge(phy, s) == v then 1 else 0
  }

  function Finished(steps: seq<Step>): nat {
    if steps == [] then 0
    else Finished(steps[..|steps| - 1]) + if steps[|steps| - 1].RadioEnd? then 1 else 0
  }

  lemma {:induction false} TallyIsTotal(phy: RadioMode, steps: seq<Step>)
    ensures Finished(steps) == Tally(phy, steps, Accepted) + Tally(phy, steps, CrcError) + Tally(phy, steps, Rejected)
  {
    if steps != [] { TallyIsTotal(phy, steps[..|steps| - 1]); }
  }

  /** Steps that set the packet count to 0: radio resets and receiver starts. */
  predicate Marks(s: Step) { Silences(s) || StartsReceiver(s) }

  lemma {:induction false} RefRunSnoc(r: Ref, steps: seq<Step>, s: Step)
    ensures RefRun(r, steps + [s]) == RefStep(RefRun(r, steps), s)
    decreases steps
  {
    if steps == [] {
      assert [] + [s] == [s];
      assert RefRun(RefStep(r, s), []) == RefStep(r, s);
    } else {
      assert (steps + [s])[1..] == steps[1..] + [s];
      RefRunSnoc(RefStep(r, steps[0]), steps[1..], s);
    }
  }

  lemma {:induction false} RefTally(r: Ref, steps: seq<Step>)
    requires r.listening && r.state == ReceiverTest
    requires forall i :: 0 <= i < |steps| ==> !Marks(steps[i])
    ensures RefRun(r, steps) ==
            r.(accepted := r.accepted + Tally(r.phy, steps, Accepted),
               crcErrors := r.crcErrors + Tally(r.phy, steps, CrcError))
    decreases |steps|
  {
    if steps != [] {
      var before, s := steps[..|steps| - 1], steps[|steps| - 1];
      assert steps == before + [s] && !Marks(s);
      RefTally(r, before);
      RefRunSnoc(r, before, s);
    }
  }

  /** Every packet finished since a receiver test began is accounted for once, as accepted,
      CRC error, or good CRC with unacceptable content, whatever calls that neither reset
      the radio nor start the receiver anew were made, or refused, in between. */
  lemma EventConservation(t: PowerTable, before: seq<Step>, ch: byte, after: seq<Step>)
    requires ch <= PHYS_CH_MAX && forall i :: 0 <= i < |after| ==> !Marks(after[i])
    requires !Run(t, Apply(t, Run(t, Boot(), before), Receive(ch)), after).panicked
    ensures var phy := Run(t, Boot(), before).mode;
            var d := Run(t, Apply(t, Run(t, Boot(), before), Receive(ch)), after);
            && d.rxPktCount == Tally(phy, after, Accepted) % 0x1_0000
            && d.crcErrorCount == Tally(phy, after, CrcError) % 0x1_0000_0000
            && Finished(after) == Tally(phy, after, Accepted) + Tally(phy, after, CrcError) + Tally(phy, after, Rejected)
  {
    var p := Run(t, Boot(), before);
    EveryRunIsSound(t, before);
    if p.panicked { PanicIsFinal(t, p, after); }
    var d := Apply(t, p, Receive(ch));
    StepKeepsInv(t, p, Receive(ch));
    var r := Ref(ReceiverTest, true, p.mode, 0, 0);
    RunRefines(t, r, d, after);
    RefTally(r, after);
    TallyIsTotal(p.mode, after);
  }

  // ------------------------------------------- the count, read off the history

  /** Where the last radio reset or receiver start of a run ends; 0 if there is none. */
  function LastMark(steps: seq<Step>): (k: nat)
    ensures k <= |steps|
    ensures k > 0 ==> Marks(steps[k - 1])
    ensures forall i :: k <= i < |steps| ==> !Marks(steps[i])
  {
    if steps == [] then 0
    else if Marks(steps[|steps| - 1]) then |steps|
    else
      var k := LastMark(steps[..|steps| - 1]);
      assert forall i :: 0 <= i < |steps| - 1 ==> steps[..|steps| - 1][i] == steps[i];
      k
  }

  /** The PHY in force after a run, found by looking back for the latest choice. */
  function LatestPhy(steps: seq<Step>): RadioMode {
    if steps == [] then Ble1Mbit
    else
      match steps[|steps| - 1]
      case Reset => Ble1Mbit
      case SetPhy(phy) => PhyMode(phy)
      case _ => LatestPhy(steps[..|steps| - 1])
  }

  /** The packets a run has to report: those accepted since its last mark, if that mark
      started the receiver. */
  function Counted(steps: seq<Step>): nat {
    CountedSince(LatestPhy(steps), steps, LastMark(steps))
  }

  function CountedSince(phy: RadioMode, steps: seq<Step>, k: nat): nat
    requires k <= |steps|
  {
    if k > 0 && StartsReceiver(steps[k - 1]) then Tally(phy, steps, Accepted, k) else 0
  }

  /** The reference machine is where the history says. */
  ghost predicate Agrees(r: Ref, steps: seq<Step>) {
    var k := LastMark(steps);
    && r.phy == LatestPhy(steps)
    && (r.listening <==> k > 0 && StartsReceiver(steps[k - 1]))
    && (r.listening ==> r.state == ReceiverTest)
    && r.accepted == Counted(steps)
  }

  lemma {:induction false} RefCounts(steps: seq<Step>)
    ensures Agrees(RefRun(RefBoot(), steps), steps)
    decreases |steps|
  {
    if steps != [] {
      var before, s := steps[..|steps| - 1], steps[|steps| - 1];
      assert steps == before + [s];
      RefCounts(before);
      RefRunSnoc(RefBoot(), before, s);
      if s.RadioEnd? {
        AgreesOnPacket(RefRun(RefBoot(), before), before, s);
      } else {
        AgreesOnCall(RefRun(RefBoot(), before), before, s);
      }
    }
  }

  lemma AgreesOnPacket(r: Ref, before: seq<Step>, s: Step)
    requires Agrees(r, before) && s.RadioEnd?
    ensures Agrees(RefStep(r, s), before + [s])
  {
    MarkSnoc(before, s);
    CountedSnoc(before, s);
    TallySnoc(LatestPhy(before), before, s, Accepted, LastMark(before));
    KeptMark(before, s);
  }

  lemma AgreesOnCall(r: Ref, before: seq<Step>, s: Step)
    requires Agrees(r, before) && !s.RadioEnd?
    ensures Agrees(RefStep(r, s), before + [s])
  {
    MarkSnoc(before, s);
    CountedSnoc(before, s);
    TallySnoc(LatestPhy(before), before, s, Accepted, LastMark(before));
    KeptMark(before, s);
  }

  lemma KeptMark(before: seq<Step>, s: Step)
    ensures (before + [s])[|before|] == s
    ensures forall i :: 0 <= i < |before| ==> (before + [s])[i] == before[i]
  {}

  lemma MarkSnoc(before: seq<Step>, s: Step)
    ensures LastMark(before + [s]) == if Marks(s) then |before| + 1 else LastMark(before)
    ensures LatestPhy(before + [s]) ==
            if s.Reset? then Ble1Mbit else if s.SetPhy? then PhyMode(s.phy) else LatestPhy(before)
  {
    var r := before + [s];
    assert r[..|r| - 1] == before && r[|r| - 1] == s;
  }

  lemma TallySnoc(phy: RadioMode, before: seq<Step>, s: Step, v: Verdict, since: nat)
    requires since <= |before|
    ensures Tally(phy, before + [s], v, since) ==
            Tally(phy, before, v, since) + if s.RadioEnd? && Judge(phy, s) == v then 1 else 0
  {
    assert (before + [s])[..|before|] == before;
  }

  lemma CountedSnoc(before: seq<Step>, s: Step)
    ensures Counted(before + [s]) == if Marks(s) then 0 else CountedSince(LatestPhy(before), before + [s], LastMark(before))
  {
    MarkSnoc(before, s);
    if Marks(s) { NoneSince(LatestPhy(before + [s]), before + [s]); }
  }

  lemma NoneSince(phy: RadioMode, steps: seq<Step>)
    ensures CountedSince(phy, steps, |steps|) == 0
  {
    NoTally(phy, steps);
  }

  lemma NoTally(phy: RadioMode, steps: seq<Step>)
    ensures Tally(phy, steps, Accepted, |steps|) == 0
  {}

  /** The count after every run, read off its steps without running anything: the packets
      accepted since the last radio reset or receiver start if that was a start, else 0. */
  lemma CountedExactly(t: PowerTable, steps: seq<Step>)
    requires !Run(t, Boot(), steps).panicked
    ensures Run(t, Boot(), steps).rxPktCount == Counted(steps) % 0x1_0000
  {
    ExactCounting(t, steps);
    RefCounts(steps);
  }

  lemma {:induction false} EventsNeverPanic(t: PowerTable, d: Dtm, events: seq<Step>)
    requires !d.panicked
    requires forall i :: 0 <= i < |events| ==> events[i].RadioEnd?
    ensures !Run(t, d, events).panicked
    decreases events
  {
    if events != [] { EventsNeverPanic(t, Apply(t, d, events[0]), events[1..]); }
  }

  // ------------------------------------------------------------- link safety

  ghost predicate LinkSafe(d: Dtm) {
    d.state == TransmitterTest <==> LinkOn(d.link)
  }

  /** Every endpoint as it should be: timer to transmitter during a transmitter test, and
      otherwise none. */
  ghost predicate LinkExact(d: Dtm) {
    d.link == if d.state == TransmitterTest then Link(true, {TimerCompare0, RadioTxen}) else Link(false, {})
  }

  /** The same for every endpoint of the channel. */
  lemma LinkExactly(t: PowerTable, d: Dtm, s: Step)
    requires d.state != Uninitialized && LinkExact(d) && !d.panicked
    ensures LinkExact(Apply(t, d, s)) <==> !(StartsReceiver(s) && d.state == TransmitterTest)
  {
    if s.Transmit? {
      assert d.state == Idle ==> TxLinked(d.link).ends == {TimerCompare0, RadioTxen};
    } else if s.End? || s.Prepare? {
      assert Unlinked(d).ends == {};
    }
  }

  /** The retrigger link is on exactly during a transmitter test, and a step breaks that
      exactly when it starts a receiver test while a transmitter test runs: the start
      checks no state and leaves the link up. */
  lemma LinkSafeExactly(t: PowerTable, d: Dtm, s: Step)
    requires Inv(t, d) && LinkSafe(d) && !d.panicked
    ensures LinkSafe(Apply(t, d, s)) <==> !(StartsReceiver(s) && d.state == TransmitterTest)
  {
    StepKeepsLink(t, d, s);
  }

  /** One more step of a run, and what it does to the link. */
  lemma LinkAt(t: PowerTable, steps: seq<Step>, i: nat)
    requires i < |steps| && !Run(t, Boot(), steps).panicked && LinkSafe(Run(t, Boot(), steps[..i]))
    ensures LinkSafe(Run(t, Boot(), steps[..i + 1])) <==> !Overlaps(t, steps, i)
  {
    var d := Run(t, Boot(), steps[..i]);
    assert steps == steps[..i] + steps[i..] && steps[..i + 1] == steps[..i] + [steps[i]];
    RunConcat(t, Boot(), steps[..i], steps[i..]);
    if d.panicked { PanicIsFinal(t, d, steps[i..]); }
    RunConcat(t, Boot(), steps[..i], [steps[i]]);
    RunOne(t, d, steps[i]);
    EveryRunIsSound(t, steps[..i]);
    LinkSafeExactly(t, d, steps[i]);
  }

  lemma {:induction false} LinkUpTo(t: PowerTable, steps: seq<Step>, i: nat)
    requires i <= |steps| && !Run(t, Boot(), steps).panicked
    requires forall k :: 0 <= k < |steps| ==> !Overlaps(t, steps, k)
    ensures LinkSafe(Run(t, Boot(), steps[..i]))
    decreases i
  {
    if i > 0 {
      LinkUpTo(t, steps, i - 1);
      LinkAt(t, steps, i - 1);
    }
  }

  /** Over a whole run: the link is right at every point exactly if no receiver test is
      ever started while a transmitter test runs. */
  lemma LinkSafeRun(t: PowerTable, steps: seq<Step>)
    requires !Run(t, Boot(), steps).panicked
    ensures (forall i :: 0 <= i <= |steps| ==> LinkSafe(Run(t, Boot(), steps[..i]))) <==>
            (forall i :: 0 <= i < |steps| ==> !Overlaps(t, steps, i))
  {
    if forall i :: 0 <= i < |steps| ==> !Overlaps(t, steps, i) {
      forall i | 0 <= i <= |steps| ensures LinkSafe(Run(t, Boot(), steps[..i])) { LinkUpTo(t, steps, i); }
    }
    if forall i :: 0 <= i <= |steps| ==> LinkSafe(Run(t, Boot(), steps[..i])) {
      forall i | 0 <= i < |steps| ensures !Overlaps(t, steps, i) {
        assert LinkSafe(Run(t, Boot(), steps[..i])) && LinkSafe(Run(t, Boot(), steps[..i + 1]));
        LinkAt(t, steps, i);
      }
    }
  }

  /** Step `i` starts a receiver test over a running transmitter test. */
  predicate Overlaps(t: PowerTable, steps: seq<Step>, i: nat)
    requires i < |steps|
  {
    StartsReceiver(steps[i]) && Run(t, Boot(), steps[..i]).state == TransmitterTest
  }

  /** A receiver test started over a transmitter test: the link stays on until the test
      is ended, which takes it down. */
  lemma LinkUnsafeExample(t: PowerTable)
    ensures var d := Run(t, Boot(), [Transmit(0, 37, Prbs9), Receive(0)]);
            && d.state == ReceiverTest && LinkOn(d.link)
            && LinkSafe(Apply(t, d, End))
  {
    var tx := Apply(t, Boot(), Transmit(0, 37, Prbs9));
    assert Run(t, Boot(), [Transmit(0, 37, Prbs9), Receive(0)]) == Run(t, tx, [Receive(0)]);
    assert Run(t, tx, [Receive(0)]) == Run(t, Apply(t, tx, Receive(0)), []);
  }

  /** A transmitter test followed by Reset: the engine is still in it, the timer still
      drives the transmitter, and a new test is refused. */
  lemma ResetKeepsTestExample(t: PowerTable)
    ensures var d := Run(t, Boot(), [Transmit(0, 37, Prbs9), Reset]);
            && d.state == TransmitterTest && LinkOn(d.link) && !d.irq
            && TransmitErr(t, d, 0, 37, Prbs9) == EBUSY && Apply(t, d, Transmit(0, 37, Prbs9)) == d
  {
    var tx := Apply(t, Boot(), Transmit(0, 37, Prbs9));
    EveryRunIsSound(t, []);
    StepKeepsInv(t, Boot(), Transmit(0, 37, Prbs9));
    assert Run(t, Boot(), [Transmit(0, 37, Prbs9), Reset]) == Run(t, tx, [Reset]);
    RunOne(t, tx, Reset);
  }

  /** Reset neither ends a test nor stops the retriggered transmitter. */
  lemma ResetKeepsTest(t: PowerTable, d: Dtm)
    requires Inv(t, d) && !d.panicked
    ensures Apply(t, d, Reset).state == d.state && Apply(t, d, Reset).link == d.link
    ensures !Listening(Apply(t, d, Reset))
  {}
}
