/** Whole two-octet sessions: command words in any order, interleaved with packets finishing
    on the radio, and what the device answers to them. */
module DtmSession {
  import opened Bytes
  import opened DtmHw
  import opened DtmPdu
  import opened DtmState
  import opened DtmRuns
  import opened DtmCmdCore

  /** A command word to process, or a packet finishing on the radio. */
  datatype Event = Word(cmd: uint16) | Radio(crcOk: bool, content: AirPdu)

  type RadioEvent = e: Event | e.Radio? witness Radio(false, [])

  /** Engine and kept length bits. */
  datatype Session = Session(d: Dtm, upper: byte)

  function Fresh(): Session { Session(Boot(), 0) }

  function StepsOf(upper: byte, e: Event): seq<Step>
    requires IsUpper(upper)
  {
    match e
    case Word(cmd) => Calls(upper, Decode(cmd))
    case Radio(crcOk, content) => [RadioEnd(crcOk, content)]
  }

  function UpperOn(upper: byte, e: Event): (r: byte)
    ensures IsUpper(upper) ==> IsUpper(r)
  {
    if e.Word? then UpperAfter(upper, Decode(e.cmd)) else upper
  }

  function Advance(t: PowerTable, s: Session, e: Event): (r: Session)
    requires IsUpper(s.upper)
    ensures IsUpper(r.upper)
  {
    Session(Run(t, s.d, StepsOf(s.upper, e)), UpperOn(s.upper, e))
  }

  function After(t: PowerTable, s: Session, events: seq<Event>): (r: Session)
    requires IsUpper(s.upper)
    ensures IsUpper(r.upper)
    decreases events
  {
    if events == [] then s else After(t, Advance(t, s, events[0]), events[1..])
  }

  lemma {:induction false} AfterConcat(t: PowerTable, s: Session, a: seq<Event>, b: seq<Event>)
    requires IsUpper(s.upper)
    ensures After(t, s, a + b) == After(t, After(t, s, a), b)
    decreases a
  {
    if a == [] {
      assert a + b == b;
    } else {
      assert (a + b)[1..] == a[1..] + b;
      AfterConcat(t, Advance(t, s, a[0]), a[1..], b);
    }
  }

  lemma AfterOne(t: PowerTable, s: Session, e: Event)
    requires IsUpper(s.upper)
    ensures After(t, s, [e]) == Advance(t, s, e)
  {
    assert After(t, Advance(t, s, e), []) == Advance(t, s, e);
  }

  /** All engine steps of a session: its effect on the engine is theirs. */
  function SessionSteps(upper: byte, events: seq<Event>): seq<Step>
    requires IsUpper(upper)
    decreases events
  {
    if events == [] then []
    else StepsOf(upper, events[0]) + SessionSteps(UpperOn(upper, events[0]), events[1..])
  }

  lemma {:induction false} SessionIsRun(t: PowerTable, s: Session, events: seq<Event>)
    requires IsUpper(s.upper)
    ensures After(t, s, events).d == Run(t, s.d, SessionSteps(s.upper, events))
    decreases events
  {
    if events != [] {
      var next := Advance(t, s, events[0]);
      SessionIsRun(t, next, events[1..]);
      RunConcat(t, s.d, StepsOf(s.upper, events[0]), SessionSteps(next.upper, events[1..]));
    }
  }

  /** The command words among the events, in order. */
  function CommandsOf(events: seq<Event>): seq<uint16> {
    if events == [] then []
    else (if events[0].Word? then [events[0].cmd] else []) + CommandsOf(events[1..])
  }

  lemma {:induction false} CommandsConcat(a: seq<Event>, b: seq<Event>)
    ensures CommandsOf(a + b) == CommandsOf(a) + CommandsOf(b)
    decreases a
  {
    if a == [] {
      assert a + b == b;
    } else {
      assert (a + b)[1..] == a[1..] + b;
      CommandsConcat(a[1..], b);
      Assoc(if a[0].Word? then [a[0].cmd] else [], CommandsOf(a[1..]), CommandsOf(b));
    }
  }

  lemma {:induction false} RadioHasNoCommands(events: seq<Event>)
    requires forall i :: 0 <= i < |events| ==> events[i].Radio?
    ensures CommandsOf(events) == []
  {
    if events != [] { RadioHasNoCommands(events[1..]); }
  }

  /** The radio events among them, in order. */
  function RadioOf(events: seq<Event>): seq<Event> {
    if events == [] then []
    else (if events[0].Radio? then [events[0]] else []) + RadioOf(events[1..])
  }

  lemma {:induction false} RadioConcat(a: seq<Event>, b: seq<Event>)
    ensures RadioOf(a + b) == RadioOf(a) + RadioOf(b)
    decreases a
  {
    if a == [] {
      assert a + b == b;
    } else {
      assert (a + b)[1..] == a[1..] + b;
      RadioConcat(a[1..], b);
      Assoc(if a[0].Radio? then [a[0]] else [], RadioOf(a[1..]), RadioOf(b));
    }
  }

  lemma {:induction false} RadioIsRadio(events: seq<Event>)
    requires forall i :: 0 <= i < |events| ==> events[i].Radio?
    ensures RadioOf(events) == events
  {
    if events != [] {
      RadioIsRadio(events[1..]);
      assert events == [events[0]] + events[1..];
    }
  }

  lemma RadioGlue(radio: seq<RadioEvent>, words: seq<Event>, rest: seq<Event>)
    requires words == [] || (|words| == 1 && words[0].Word?)
    ensures RadioOf(radio + (words + rest)) == radio + RadioOf(rest)
  {
    RadioConcat(radio, words + rest);
    RadioIsRadio(radio);
    RadioConcat(words, rest);
    assert RadioOf(words) == [];
    assert [] + RadioOf(rest) == RadioOf(rest);
  }

  // ---------------------------------------------------------- the kept bits

  predicate KeepsUpper(e: Event) { e.Word? ==> !SetsUpper(Decode(e.cmd)) }

  /** The bits the latest reset or upper-bits command of a session left, found by looking
      back from its end. */
  function LatestUpper(events: seq<Event>): byte {
    if events == [] then 0
    else
      var e := events[|events| - 1];
      if KeepsUpper(e) then LatestUpper(events[..|events| - 1]) else UpperSetBy(Decode(e.cmd))
  }

  lemma {:induction false} UpperIsLatest(t: PowerTable, events: seq<Event>)
    ensures After(t, Fresh(), events).upper == LatestUpper(events)
    decreases |events|
  {
    if events != [] {
      var before, e := events[..|events| - 1], events[|events| - 1];
      assert events == before + [e];
      UpperIsLatest(t, before);
      AfterConcat(t, Fresh(), before, [e]);
      AfterOne(t, After(t, Fresh(), before), e);
    }
  }

  lemma {:induction false} LatestUpperKept(events: seq<Event>, more: seq<Event>)
    requires forall i :: 0 <= i < |more| ==> KeepsUpper(more[i])
    ensures LatestUpper(events + more) == LatestUpper(events)
    decreases |more|
  {
    if more == [] {
      assert events + more == events;
    } else {
      var n := |more| - 1;
      assert (events + more)[..|events| + n] == events + more[..n];
      assert (events + more)[|events| + n] == more[n] && KeepsUpper(more[n]);
      LatestUpperKept(events, more[..n]);
    }
  }

  /** Every length 0..255 reaches the engine whole: after any session, setting the upper
      bits, then anything but a reset or another setting of them, then sending the lower
      six makes the call with exactly that length. */
  lemma LengthRoundTrip(t: PowerTable, before: seq<Event>, n: byte, between: seq<Event>, chan: byte, kind: nat)
    requires chan < 0x40 && kind < 4
    requires forall i :: 0 <= i < |between| ==> KeepsUpper(between[i])
    ensures var s := After(t, Fresh(), before + [Word(UpperWord(n))] + between);
            StepsOf(s.upper, Word(TxWord(chan, n % 0x40, kind))) == [Transmit(chan, n, PacketOf(kind))]
  {
    var events := before + [Word(UpperWord(n))];
    assert events[|events| - 1] == Word(UpperWord(n));
    UpperIsLatest(t, events + between);
    LatestUpperKept(events, between);
    UpperWordDecodes(n);
    TxWordDecodes(chan, n % 0x40, kind);
  }

  // ------------------------------------------------------------- the engine

  /** No session leaves LE 1M: this decoder has no PHY command. So packet type 3 is always
      the vendor command, never the 0xFF pattern. */
  lemma {:induction false} SessionStaysOn1M(t: PowerTable, s: Session, events: seq<Event>)
    requires IsUpper(s.upper) && s.d.mode == Ble1Mbit
    ensures After(t, s, events).d.mode == Ble1Mbit
    ensures Resolve(After(t, s, events).d.mode, PacketOf(3)) == Vendor
    decreases events
  {
    if events != [] {
      AdvanceStaysOn1M(t, s, events[0]);
      SessionStaysOn1M(t, Advance(t, s, events[0]), events[1..]);
    }
  }

  lemma AdvanceStaysOn1M(t: PowerTable, s: Session, e: Event)
    requires IsUpper(s.upper) && s.d.mode == Ble1Mbit
    ensures Advance(t, s, e).d.mode == Ble1Mbit
  {
    var steps := StepsOf(s.upper, e);
    if steps != [] {
      assert steps == [steps[0]];
      RunOne(t, s.d, steps[0]);
    }
  }

  /** Test commands stop no running test first: a transmitter test is refused, without any
      effect, exactly unless the engine is idle and its parameters are good. */
  lemma TransmitRefused(t: PowerTable, s: Session, f: Fields)
    requires IsUpper(s.upper) && f.code == TRANSMITTER_TEST && f.low < 0x40 && f.kind < 3 && !s.d.panicked
    ensures Response(t, s.d, s.upper, f) == STATUS_SUCCESS <==> s.d.state == Idle && f.chan <= PHYS_CH_MAX
    ensures s.d.state != Idle ==> Run(t, s.d, Calls(s.upper, f)) == s.d
  {
    RunOne(t, s.d, Transmit(f.chan, Length(s.upper, f.low), PacketOf(f.kind)));
  }

  // --------------------------------------------------------------- the report

  /** After any session, packets included, a Test End report is modulo 2^15 the number of
      packets accepted since the last radio reset or receiver start: its top bit only marks
      the report, so it is the engine's count exactly when that is below 2^15. */
  lemma ReportedCount(t: PowerTable, events: seq<Event>)
    requires !After(t, Fresh(), events).d.panicked
    ensures var d := After(t, Fresh(), events).d;
            var report := ReportWord(d.rxPktCount);
            && report >= PACKET_REPORT
            && report - PACKET_REPORT == Counted(SessionSteps(0, events)) % 0x8000
            && (report - PACKET_REPORT == d.rxPktCount <==> d.rxPktCount < 0x8000)
  {
    SessionIsRun(t, Fresh(), events);
    CountedExactly(t, SessionSteps(0, events));
    HalfReport(Counted(SessionSteps(0, events)), After(t, Fresh(), events).d.rxPktCount);
  }

  lemma HalfReport(accepted: nat, count: uint16)
    requires count == accepted % 0x1_0000
    ensures ReportWord(count) - PACKET_REPORT == accepted % 0x8000
    ensures ReportWord(count) - PACKET_REPORT == count <==> count < 0x8000
  {
    ModHalves(accepted);
  }

  lemma ModHalves(n: nat)
    ensures n % 0x1_0000 % 0x8000 == n % 0x8000
  {
    var q, r := n / 0x1_0000, n % 0x1_0000;
    assert n == 0x8000 * (2 * q) + r;
  }

  /** A receiver test on channel 0, then `n` empty packets of type 0x0F with good CRC. */
  function Reception(n: nat): seq<Event> {
    if n == 0 then [Word(0x4000)] else Reception(n - 1) + [Radio(true, [1, 0])]
  }

  lemma {:induction false} ReceptionCounts(t: PowerTable, n: nat)
    requires n < 0x1_0000
    ensures var s := After(t, Fresh(), Reception(n));
            Listening(s.d) && !s.d.panicked && s.d.mode == Ble1Mbit && s.d.rxPktCount == n && Inv(t, s.d)
  {
    if n == 0 {
      AfterOne(t, Fresh(), Word(0x4000));
      RunOne(t, Boot(), Receive(0));
      StepKeepsInv(t, Boot(), Receive(0));
    } else {
      ReceptionCounts(t, n - 1);
      ReceptionGrows(t, n);
      OnePacketCounts(t, After(t, Fresh(), Reception(n - 1)).d);
    }
  }

  lemma ReceptionGrows(t: PowerTable, n: nat)
    requires n > 0
    ensures After(t, Fresh(), Reception(n)).d == Apply(t, After(t, Fresh(), Reception(n - 1)).d, RadioEnd(true, [1, 0]))
  {
    var s, e := After(t, Fresh(), Reception(n - 1)), Radio(true, [1, 0]);
    AfterConcat(t, Fresh(), Reception(n - 1), [e]);
    AfterOne(t, s, e);
    RunOne(t, s.d, RadioEnd(true, [1, 0]));
  }

  lemma OnePacketCounts(t: PowerTable, d: Dtm)
    requires Listening(d) && !d.panicked && d.mode == Ble1Mbit && Inv(t, d) && d.rxPktCount < 0xFFFF
    ensures var next := Apply(t, d, RadioEnd(true, [1, 0]));
            && Listening(next) && !next.panicked && next.mode == Ble1Mbit && Inv(t, next)
            && next.rxPktCount == d.rxPktCount + 1
  {
    StepKeepsInv(t, d, RadioEnd(true, [1, 0]));
    assert Arrived(d, [1, 0]).Buffer(d.current) == AirView([1, 0]);
    EmptyAccepted();
  }

  lemma EmptyAccepted()
    ensures Accepts(Ble1Mbit, AirView([1, 0]))
  {
    assert AirView([1, 0])[2..2] == Pattern(1, 0);
  }

  /** The report loses the count: from 32768 packets on, all of them counted, Test End
      reports 32768 too few. */
  lemma ReportLosesCount(t: PowerTable, n: nat)
    requires 0x8000 <= n < 0x1_0000
    ensures var s := After(t, Fresh(), Reception(n));
            s.d.rxPktCount == n && Response(t, s.d, s.upper, Decode(0xC000)) == PACKET_REPORT + n - 0x8000
  {
    ReceptionCounts(t, n);
  }

  // ------------------------------------------------------- every response

  /** What the device sends over a session: a response per command word, and none from the
      word on that stops it. */
  function Responses(t: PowerTable, s: Session, events: seq<Event>): seq<uint16>
    requires IsUpper(s.upper)
    decreases events
  {
    if events == [] then []
    else
      var next := Advance(t, s, events[0]);
      (if events[0].Word? && !next.d.panicked then [Response(t, s.d, s.upper, Decode(events[0].cmd))] else [])
      + Responses(t, next, events[1..])
  }

  lemma {:induction false} ResponsesConcat(t: PowerTable, s: Session, a: seq<Event>, b: seq<Event>)
    requires IsUpper(s.upper)
    ensures Responses(t, s, a + b) == Responses(t, s, a) + Responses(t, After(t, s, a), b)
    decreases a
  {
    if a == [] {
      assert a + b == b;
    } else {
      var next := Advance(t, s, a[0]);
      assert (a + b)[1..] == a[1..] + b;
      ResponsesConcat(t, next, a[1..], b);
      Assoc(if a[0].Word? && !next.d.panicked then [Response(t, s.d, s.upper, Decode(a[0].cmd))] else [],
            Responses(t, next, a[1..]), Responses(t, After(t, s, a), b));
    }
  }

  lemma {:induction false} StoppedIsSilent(t: PowerTable, s: Session, events: seq<Event>)
    requires IsUpper(s.upper) && s.d.panicked
    ensures Responses(t, s, events) == [] && After(t, s, events).d == s.d
    decreases events
  {
    if events != [] {
      PanicIsFinal(t, s.d, StepsOf(s.upper, events[0]));
      StoppedIsSilent(t, Advance(t, s, events[0]), events[1..]);
    }
  }

  lemma {:induction false} RadioIsSilent(t: PowerTable, s: Session, events: seq<Event>)
    requires IsUpper(s.upper) && forall i :: 0 <= i < |events| ==> events[i].Radio?
    ensures Responses(t, s, events) == [] && After(t, s, events).upper == s.upper
    decreases events
  {
    if events != [] { RadioIsSilent(t, Advance(t, s, events[0]), events[1..]); }
  }

  /** The answers of the small reference machine, which has no radio, buffers or powers. */
  function RefResponse(t: PowerTable, r: Ref, upper: byte, f: Fields): uint16 {
    if f.code == TEST_SETUP then
      if f.chan == SETUP_RESET || f.chan == SETUP_SET_UPPER then STATUS_SUCCESS
      else if f.chan == SETUP_READ_SUPPORTED then FeaturesWord(f.parameter)
      else if f.chan == SETUP_READ_MAX then MaxWord(f.parameter)
      else STATUS_ERROR
    else if f.code == RECEIVER_TEST then (if f.chan <= PHYS_CH_MAX then STATUS_SUCCESS else STATUS_ERROR)
    else if f.code == TRANSMITTER_TEST then
      if r.state == Idle && Startable(t, r, upper, f) then STATUS_SUCCESS else STATUS_ERROR
    else if Ends(f) then PACKET_REPORT + r.accepted % 0x8000
    else STATUS_ERROR
  }

  /** An idle device takes a packet on a channel up to 39, a carrier command, or a power
      that is in its table. */
  predicate Startable(t: PowerTable, r: Ref, upper: byte, f: Fields) {
    if Resolve(r.phy, PacketOf(f.kind)) != Vendor then f.chan <= PHYS_CH_MAX
    else (f.low + upper) <= 1 || (f.low + upper == 2 && Validates(t, SignExtended(f.chan), r.phy))
  }

  /** Up to the word that stops the device, which is not answered. */
  function RefResponses(t: PowerTable, r: Ref, upper: byte, events: seq<Event>): seq<uint16>
    requires IsUpper(upper)
    decreases events
  {
    if events == [] || SomeStop(r, StepsOf(upper, events[0])) then []
    else
      (if events[0].Word? then [RefResponse(t, r, upper, Decode(events[0].cmd))] else [])
      + RefResponses(t, RefRun(r, StepsOf(upper, events[0])), UpperOn(upper, events[0]), events[1..])
  }

  /** The response to every word, by its number: 1 for success, 0 for refusal; features 0x17
      (success, data length extension, 2M and coded PHYs); maxima of 255 octets and 2120 us,
      a time halved, each above the success bit; the report. */
  lemma EveryResponseWord(t: PowerTable, r: Ref, upper: byte, cmd: uint16)
    requires IsUpper(upper) && r.phy == Ble1Mbit
    ensures RefResponse(t, r, upper, Decode(cmd)) ==
            if cmd < 0x200 then 1
            else if cmd < 0x400 then 0
            else if cmd < 0x500 then (if cmd % 0x100 <= 3 then 0x17 else 0)
            else if cmd < 0x600 then
              (if cmd % 0x100 > 15 then 0 else if cmd % 0x100 % 8 <= 3 then 2 * 255 + 1 else 2 * (2120 / 2) + 1)
            else if cmd < 0x4000 then 0
            else if cmd < 0x8000 then (if cmd / 0x100 % 0x40 <= 39 then 1 else 0)
            else if cmd < 0xC000 then (if r.state == Idle && Starts(t, upper, cmd) then 1 else 0)
            else if cmd <= 0xC00A then 0x8000 + r.accepted % 0x8000
            else 0
  {
    SetupFields(cmd);
    if cmd < 0x4000 { SetupResponseWord(t, r, upper, cmd); }
  }

  lemma SetupResponseWord(t: PowerTable, r: Ref, upper: byte, cmd: uint16)
    requires cmd < 0x4000
    ensures RefResponse(t, r, upper, Decode(cmd)) ==
            if cmd < 0x200 then 1
            else if cmd < 0x400 then 0
            else if cmd < 0x500 then (if cmd % 0x100 <= 3 then 0x17 else 0)
            else if cmd < 0x600 then
              (if cmd % 0x100 > 15 then 0 else if cmd % 0x100 % 8 <= 3 then 2 * 255 + 1 else 2 * (2120 / 2) + 1)
            else 0
  {
    SetupFields(cmd);
    MaximaExactly(cmd % 0x100);
    SetupTable(t, r, upper, Decode(cmd));
  }

  lemma SetupTable(t: PowerTable, r: Ref, upper: byte, f: Fields)
    requires f.code == TEST_SETUP
    ensures RefResponse(t, r, upper, f) ==
            if f.chan <= 1 then 1
            else if f.chan == 4 then (if f.parameter <= 3 then 0x17 else 0)
            else if f.chan == 5 then MaxWord(f.parameter)
            else 0
  {}

  lemma MaximaExactly(parameter: byte)
    ensures MaxWord(parameter) ==
            if parameter > 15 then 0 else if parameter % 8 <= 3 then 2 * 255 + 1 else 2 * (2120 / 2) + 1
  {}

  /** On LE 1M an idle device starts a packet on a channel up to 39, or obeys a carrier
      command (lengths 0 and 1) or the choice of a power in its table (length 2). */
  predicate Starts(t: PowerTable, upper: byte, cmd: uint16)
    requires IsUpper(upper)
  {
    var chan, n := cmd / 0x100 % 0x40, upper + cmd / 4 % 0x40;
    if cmd % 4 != 3 then chan <= 39
    else n <= 1 || (n == 2 && (if chan < 0x10 then chan in t else chan + 0xC0 in t))
  }

  lemma ResponseRefines(t: PowerTable, r: Ref, d: Dtm, upper: byte, f: Fields)
    requires IsUpper(upper) && f.low < 0x40 && f.code < 4 && Inv(t, d) && Refines(r, d)
    ensures Response(t, d, upper, f) == RefResponse(t, r, upper, f)
  {
    HalfReport(r.accepted, d.rxPktCount);
  }

  /** Every response of every session is the reference machine's, in order, with none
      missing and none added. */
  lemma {:induction false} RespondsAsReference(t: PowerTable, s: Session, r: Ref, events: seq<Event>)
    requires IsUpper(s.upper) && Inv(t, s.d) && Refines(r, s.d) && !s.d.panicked
    ensures Responses(t, s, events) == RefResponses(t, r, s.upper, events)
    decreases events
  {
    if events != [] {
      var steps, next := StepsOf(s.upper, events[0]), Advance(t, s, events[0]);
      RunPanicsExactly(t, r, s.d, steps);
      if next.d.panicked {
        StoppedIsSilent(t, next, events[1..]);
      } else {
        RunKeepsInv(t, s.d, steps);
        RunRefines(t, r, s.d, steps);
        if events[0].Word? { ResponseRefines(t, r, s.d, s.upper, Decode(events[0].cmd)); }
        RespondsAsReference(t, next, RefRun(r, steps), events[1..]);
      }
    }
  }

  lemma EveryResponse(t: PowerTable, events: seq<Event>)
    ensures Responses(t, Fresh(), events) == RefResponses(t, RefBoot(), 0, events)
  {
    RespondsAsReference(t, Fresh(), RefBoot(), events);
  }

  /** A session stops the device exactly if one of its steps does, as the reference machine
      tells: a carrier command on a channel above 39 while idle. */
  lemma SessionStopsExactly(t: PowerTable, events: seq<Event>)
    ensures After(t, Fresh(), events).d.panicked <==> SomeStop(RefBoot(), SessionSteps(0, events))
  {
    SessionIsRun(t, Fresh(), events);
    RunPanicsExactly(t, RefBoot(), Boot(), SessionSteps(0, events));
  }

  /** A carrier on channel 40 as the first command: no answer, and the device has stopped. */
  lemma Carrier40Example(t: PowerTable)
    ensures After(t, Fresh(), [Word(0xA803)]).d.panicked && Responses(t, Fresh(), [Word(0xA803)]) == []
  {
    AfterOne(t, Fresh(), Word(0xA803));
    Carrier40Word();
    RunOne(t, Boot(), Transmit(40, 0, FfOrVendor));
    PanicExactly(t, Boot(), Transmit(40, 0, FfOrVendor));
    StoppedAtOnce(t, Fresh(), Word(0xA803));
  }

  lemma Carrier40Word()
    ensures StepsOf(0, Word(0xA803)) == [Transmit(40, 0, FfOrVendor)]
  {
    EveryWord(0, 0xA803);
  }

  lemma StoppedAtOnce(t: PowerTable, s: Session, e: Event)
    requires IsUpper(s.upper) && Advance(t, s, e).d.panicked
    ensures Responses(t, s, [e]) == []
  {
    StoppedIsSilent(t, Advance(t, s, e), []);
    assert [e][1..] == [];
  }

  // ---------------------------------------------------------------- powers

  /** The vendor command with this channel field sets this power. */
  predicate Picks(t: PowerTable, d: Dtm, chan: byte, p: byte) {
    TransmitErr(t, d, chan, 2, PacketOf(3)) == 0 && Apply(t, d, Transmit(chan, 2, PacketOf(3))).txPower == p
  }

  /** The six low bits of a power determine it exactly from -48 to 15 dBm. */
  lemma SixBitsExactly(p: byte)
    ensures SignExtended(p % 0x40) == p <==> -48 <= AsInt8(p) < 16
  {}

  /** So those are the table's powers that a session can select, while idle. */
  lemma SelectablePowers(t: PowerTable, d: Dtm, p: byte)
    requires d.state == Idle && d.mode == Ble1Mbit && !d.panicked && p in t
    ensures (exists chan: byte :: chan < 0x40 && Picks(t, d, chan, p)) <==> -48 <= AsInt8(p) < 16
  {
    SixBitsExactly(p);
    PicksExactly(t, d, p % 0x40, p);
    if chan: byte :| chan < 0x40 && Picks(t, d, chan, p) {
      PicksExactly(t, d, chan, p);
      assert chan == p % 0x40;
    }
  }

  lemma PicksExactly(t: PowerTable, d: Dtm, chan: byte, p: byte)
    requires d.state == Idle && d.mode == Ble1Mbit && !d.panicked && p in t
    ensures Picks(t, d, chan, p) <==> SignExtended(chan) == p
  {}
}
