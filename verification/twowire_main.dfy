/** The two-octet testers as a whole: the get-and-process loop that the transport interface
    (src/transport/dtm_transport.h) prescribes, over either receiver, with packets finishing
    on the radio while it polls. */
module TwoWireMain {
  import opened Bytes
  import opened DtmHw
  import opened DtmState
  import opened DtmRuns
  import opened DtmCmdCore
  import opened DtmSession
  import Rtt = TwoWireRtt
  import Uart = TwoWireUart

  /** Octets on the wire: each response's upper octet, then its lower one. */
  function OnWire(responses: seq<uint16>): seq<byte> {
    if responses == [] then [] else [Hi(responses[0]), Lo(responses[0])] + OnWire(responses[1..])
  }

  lemma {:induction false} OnWireConcat(a: seq<uint16>, b: seq<uint16>)
    ensures OnWire(a + b) == OnWire(a) + OnWire(b)
    decreases a
  {
    if a == [] {
      assert a + b == b;
    } else {
      assert (a + b)[1..] == a[1..] + b;
      OnWireConcat(a[1..], b);
    }
  }

  /** The host gets the responses back by reading two octets at a time, upper one first. */
  lemma {:induction false} OnWireReads(responses: seq<uint16>)
    ensures BigEndian(OnWire(responses)) == responses
  {
    if responses != [] {
      var s := OnWire(responses);
      assert s[2..] == OnWire(responses[1..]);
      OnWireReads(responses[1..]);
    }
  }

  /** What a session has put on the wire. */
  function Sent(t: PowerTable, s: Session, events: seq<Event>): seq<byte>
    requires IsUpper(s.upper)
  {
    OnWire(Responses(t, s, events))
  }

  lemma SentConcat(t: PowerTable, s: Session, a: seq<Event>, b: seq<Event>)
    requires IsUpper(s.upper)
    ensures Sent(t, s, a + b) == Sent(t, s, a) + Sent(t, After(t, s, a), b)
  {
    ResponsesConcat(t, s, a, b);
    OnWireConcat(Responses(t, s, a), Responses(t, After(t, s, a), b));
  }

  /** The command decoder, its engine, and the octets sent so far. */
  class Tester {
    const core: CmdCore
    var sent: seq<byte>

    ghost predicate Valid() reads this, core, core.dtm { core.Valid() }

    ghost function State(): (s: Session)
      requires Valid()
      reads this, core, core.dtm, core.dtm.pdu0, core.dtm.pdu1
      ensures IsUpper(s.upper)
    {
      Session(core.dtm.Snapshot(), core.upperLen)
    }

    constructor (core: CmdCore)
      requires core.Valid()
      ensures Valid() && this.core == core && sent == []
    {
      this.core, sent := core, [];
    }

    /** Packets finish on the radio, one after the other. */
    method Hear(events: seq<RadioEvent>)
      requires Valid() && !core.dtm.panicked
      modifies core.dtm, core.dtm.pdu0, core.dtm.pdu1
      ensures Valid() && !core.dtm.panicked && State() == After(core.dtm.powers, old(State()), events)
    {
      ghost var t, start := core.dtm.powers, State();
      for i := 0 to |events|
        invariant Valid() && !core.dtm.panicked && State() == After(t, start, events[..i])
      {
        AfterOne(t, State(), events[i]);
        AfterConcat(t, start, events[..i], [events[i]]);
        assert events[..i + 1] == events[..i] + [events[i]];
        RunOne(t, State().d, RadioEnd(events[i].crcOk, events[i].content));
        core.dtm.RadioHandlerEnd(events[i].crcOk, events[i].content);
      }
      assert events[..|events|] == events;
    }

    /** Processes a command and sends its response. */
    method DtmTrProcess(cmd: uint16)
      requires Valid() && !core.dtm.panicked
      modifies this, core, core.dtm, core.dtm.pdu0, core.dtm.pdu1
      ensures Valid() && State() == After(core.dtm.powers, old(State()), [Word(cmd)])
      ensures sent == old(sent) + Sent(core.dtm.powers, old(State()), [Word(cmd)])
    {
      ghost var t, start := core.dtm.powers, State();
      AfterOne(t, start, Word(cmd));
      OneResponse(t, start, cmd);
      var response := core.DtmCmdPut(cmd);
      if !core.dtm.panicked {
        sent := sent + [Hi(response), Lo(response)];
      }
    }
  }

  lemma OneResponse(t: PowerTable, s: Session, cmd: uint16)
    requires IsUpper(s.upper)
    ensures var r := Response(t, s.d, s.upper, Decode(cmd));
            Sent(t, s, [Word(cmd)]) == if Advance(t, s, Word(cmd)).d.panicked then [] else [Hi(r), Lo(r)]
  {
    var next, r := Advance(t, s, Word(cmd)), Response(t, s.d, s.upper, Decode(cmd));
    assert Responses(t, s, [Word(cmd)]) == (if !next.d.panicked then [r] else []) + Responses(t, next, []);
    assert OnWire([r]) == [Hi(r), Lo(r)] + OnWire([]);
  }

  /** What has been done and what is still to come, seen from the start of the loop. */
  ghost predicate Upto(t: PowerTable, start: Session, all: seq<Event>, s: Session, sent: seq<byte>, rest: seq<Event>)
    requires IsUpper(start.upper) && IsUpper(s.upper)
  {
    After(t, start, all) == After(t, s, rest) && Sent(t, start, all) == sent + Sent(t, s, rest)
  }

  /** One pass of the loop: radio events, then a command. */
  lemma OnePass(t: PowerTable, start: Session, all: seq<Event>, s: Session, sent: seq<byte>,
                radio: seq<RadioEvent>, cmd: uint16, rest: seq<Event>)
    requires IsUpper(start.upper) && IsUpper(s.upper)
    requires Upto(t, start, all, s, sent, radio + ([Word(cmd)] + rest))
    ensures var heard := After(t, s, radio);
            var done := After(t, heard, [Word(cmd)]);
            Upto(t, start, all, done, sent + Sent(t, heard, [Word(cmd)]), rest)
  {
    var heard := After(t, s, radio);
    var done := After(t, heard, [Word(cmd)]);
    AfterConcat(t, s, radio, [Word(cmd)] + rest);
    AfterConcat(t, heard, [Word(cmd)], rest);
    SentConcat(t, s, radio, [Word(cmd)] + rest);
    SentConcat(t, heard, [Word(cmd)], rest);
    RadioIsSilent(t, s, radio);
    assert [] + Sent(t, heard, [Word(cmd)] + rest) == Sent(t, heard, [Word(cmd)] + rest);
    Assoc(sent, Sent(t, heard, [Word(cmd)]), Sent(t, done, rest));
  }

  lemma LastPass(t: PowerTable, start: Session, all: seq<Event>, s: Session, sent: seq<byte>, radio: seq<RadioEvent>)
    requires IsUpper(start.upper) && IsUpper(s.upper) && Upto(t, start, all, s, sent, radio)
    ensures After(t, start, all) == After(t, s, radio) && Sent(t, start, all) == sent
  {
    RadioIsSilent(t, s, radio);
    assert sent + [] == sent;
  }

  lemma StoppedPass(t: PowerTable, start: Session, all: seq<Event>, s: Session, sent: seq<byte>, rest: seq<Event>)
    requires IsUpper(start.upper) && IsUpper(s.upper) && Upto(t, start, all, s, sent, rest) && s.d.panicked
    ensures After(t, start, all).d == s.d && Sent(t, start, all) == sent
  {
    StoppedIsSilent(t, s, rest);
    assert sent + [] == sent;
  }

  /** The loop over RTT. Until the polls run out or the device stops it makes the session of
      all that the polls bring, radio events and command words in their order, and sends
      that session's responses. */
  method RttLoop(rtt: Rtt.Receiver, tester: Tester)
    requires rtt.Valid() && tester.Valid() && !tester.core.dtm.panicked && tester.sent == []
    modifies rtt, tester, tester.core, tester.core.dtm, tester.core.dtm.pdu0, tester.core.dtm.pdu1
    ensures tester.Valid() && tester.sent ==
            Sent(tester.core.dtm.powers, old(tester.State()), Rtt.Incoming(Rtt.NoByte, old(rtt.ring), old(rtt.polls), old(rtt.next)))
    ensures var end := After(tester.core.dtm.powers, old(tester.State()),
                             Rtt.Incoming(Rtt.NoByte, old(rtt.ring), old(rtt.polls), old(rtt.next)));
            tester.State().d == end.d && (!end.d.panicked ==> tester.State() == end && rtt.next == |rtt.polls|)
  {
    ghost var t, start := tester.core.dtm.powers, tester.State();
    ghost var polls, all := rtt.polls, Rtt.Incoming(Rtt.NoByte, rtt.ring, rtt.polls, rtt.next);
    while !tester.core.dtm.panicked
      invariant rtt.Valid() && rtt.polls == polls && tester.Valid()
      invariant Upto(t, start, all, tester.State(), tester.sent, Rtt.Incoming(Rtt.NoByte, rtt.ring, polls, rtt.next))
      decreases |polls| - rtt.next, !tester.core.dtm.panicked
    {
      var from := rtt.next;
      ghost var s, sent := tester.State(), tester.sent;
      var answer := rtt.DtmTrGet();
      var radio := Rtt.RadioBetween(rtt.polls, from, rtt.next);
      tester.Hear(radio);
      match answer {
        case Waiting =>
          assert radio + [] == radio;
          LastPass(t, start, all, s, sent, radio);
          return;
        case Command(word) =>
          OnePass(t, start, all, s, sent, radio, word, Rtt.Incoming(Rtt.NoByte, rtt.ring, polls, rtt.next));
          tester.DtmTrProcess(word);
      }
    }
    StoppedPass(t, start, all, tester.State(), tester.sent, Rtt.Incoming(Rtt.NoByte, rtt.ring, polls, rtt.next));
  }

  /** The same loop over the UART. */
  method UartLoop(uart: Uart.Receiver, tester: Tester)
    requires uart.Valid() && tester.Valid() && !tester.core.dtm.panicked && tester.sent == []
    modifies uart, tester, tester.core, tester.core.dtm, tester.core.dtm.pdu0, tester.core.dtm.pdu1
    ensures tester.Valid() && tester.sent ==
            Sent(tester.core.dtm.powers, old(tester.State()), Uart.Incoming([], old(uart.polls), old(uart.next)))
    ensures var end := After(tester.core.dtm.powers, old(tester.State()), Uart.Incoming([], old(uart.polls), old(uart.next)));
            tester.State().d == end.d && (!end.d.panicked ==> tester.State() == end && uart.next == |uart.polls|)
  {
    ghost var t, start := tester.core.dtm.powers, tester.State();
    ghost var polls, all := uart.polls, Uart.Incoming([], uart.polls, uart.next);
    while !tester.core.dtm.panicked
      invariant uart.Valid() && uart.polls == polls && tester.Valid()
      invariant Upto(t, start, all, tester.State(), tester.sent, Uart.Incoming([], polls, uart.next))
      decreases |polls| - uart.next, !tester.core.dtm.panicked
    {
      var from := uart.next;
      ghost var s, sent := tester.State(), tester.sent;
      var answer := uart.DtmTrGet();
      var radio := Uart.RadioBetween(uart.polls, from, uart.next);
      tester.Hear(radio);
      match answer {
        case Waiting =>
          assert radio + [] == radio;
          LastPass(t, start, all, s, sent, radio);
          return;
        case Command(word) =>
          OnePass(t, start, all, s, sent, radio, word, Uart.Incoming([], polls, uart.next));
          tester.DtmTrProcess(word);
      }
    }
    StoppedPass(t, start, all, tester.State(), tester.sent, Uart.Incoming([], polls, uart.next));
  }

  // ------------------------------------------------------------- main results

  /** RTT, polls and radio events in and octets out, from boot: every packet that finishes
      reaches the engine; the words that come in are the commands of the log; while no octet
      timed out they are the first two-octet numbers of the flat stream, the rest of its
      numbers those of the octets not yet used; and what a host reads back is the reference
      machine's answers to them, up to a word that stops the device. */
  lemma RttEndToEnd(t: PowerTable, polls: seq<Rtt.Poll>)
    ensures var events := Rtt.Incoming(Rtt.NoByte, [], polls, 0);
            var end := Rtt.Run(Rtt.State([], Rtt.NoByte, []), polls);
            && RadioOf(events) == Rtt.AllRadio(polls)
            && CommandsOf(events) == Rtt.CommandWords(end.log)
            && (Rtt.NoDrops(end.log) ==>
                  BigEndian(Rtt.Flat(polls)) == CommandsOf(events) + BigEndian(Rtt.Unused(end)))
            && BigEndian(Sent(t, Fresh(), events)) == RefResponses(t, RefBoot(), 0, events)
  {
    var events := Rtt.Incoming(Rtt.NoByte, [], polls, 0);
    var end := Rtt.Run(Rtt.State([], Rtt.NoByte, []), polls);
    EveryResponse(t, events);
    OnWireReads(RefResponses(t, RefBoot(), 0, events));
    Rtt.IncomingWords(Rtt.NoByte, [], polls, 0);
    Rtt.IncomingRadio(Rtt.NoByte, [], polls, 0);
    assert polls[0..] == polls;
    if Rtt.NoDrops(end.log) {
      Rtt.SplitIndependence(polls);
      Rtt.CommandWordsConcat(end.log, Rtt.Pairs(Rtt.Unused(end)));
      Rtt.PairWords(Rtt.Flat(polls));
      Rtt.PairWords(Rtt.Unused(end));
    }
  }

  /** UART: every packet that finishes reaches the engine, and the words that come in are
      those the stream decoder reads of the arrivals. */
  lemma UartEndToEnd(t: PowerTable, polls: seq<Uart.Poll>)
    ensures var events := Uart.Incoming([], polls, 0);
            && RadioOf(events) == Uart.AllRadio(polls)
            && CommandsOf(events) == Uart.Words(Uart.Read(Uart.Arrivals(polls)))
            && BigEndian(Sent(t, Fresh(), events)) == RefResponses(t, RefBoot(), 0, events)
  {
    var events := Uart.Incoming([], polls, 0);
    EveryResponse(t, events);
    OnWireReads(RefResponses(t, RefBoot(), 0, events));
    Uart.IncomingWords([], polls, 0);
    Uart.IncomingRadio([], polls, 0);
    assert polls[0..] == polls && [] + Uart.Arrivals(polls) == Uart.Arrivals(polls);
  }
}
