/** Two-octet commands over a polled UART (Vol 6 Part F section 3; src/transport/
    dtm_uart_twowire.c): a second octet more than 5 ms after the first replaces it. */
module TwoWireUart {
  import opened Bytes
  import opened DtmSession

  const SECOND_BYTE_MAX_DELAY: int := 5

  /** A received octet, the time read to judge its lateness, and the time noted should it
      become a first octet (the clock is read twice). */
  datatype Arrival = Arrival(b: byte, read: int, stamp: int)

  /** One turn of the polling loop: packets finishing on the radio before it, and an octet
      if the UART has one. */
  datatype Poll = Nothing(radio: seq<RadioEvent>) | Got(radio: seq<RadioEvent>, a: Arrival)

  /** What becomes of arrivals: the octets of a command, or one dropped as out of date. */
  datatype Item = Cmd(msb: Arrival, lsb: Arrival) | Drop(x: Arrival)

  datatype Answer = Command(word: uint16) | Waiting

  predicate Late(x: Arrival, y: Arrival) { y.read - x.stamp > SECOND_BYTE_MAX_DELAY }

  /** The reading of a stream from a fresh start: what its octets became, in order. */
  function Read(a: seq<Arrival>): seq<Item>
    decreases |a|
  {
    if |a| < 2 then []
    else if Late(a[0], a[1]) then [Drop(a[0])] + Read(a[1..])
    else [Cmd(a[0], a[1])] + Read(a[2..])
  }

  /** The first octet still waiting for its second when the stream ends. */
  function Pending(a: seq<Arrival>): (p: seq<Arrival>)
    ensures |p| <= 1
    decreases |a|
  {
    if |a| < 2 then a else if Late(a[0], a[1]) then Pending(a[1..]) else Pending(a[2..])
  }

  function WordOf(item: Item): uint16
    requires item.Cmd?
  {
    Le16(item.lsb.b, item.msb.b)
  }

  function Words(items: seq<Item>): seq<uint16> {
    if items == [] then []
    else (if items[0].Cmd? then [WordOf(items[0])] else []) + Words(items[1..])
  }

  function Arrivals(polls: seq<Poll>): seq<Arrival> {
    if polls == [] then []
    else (if polls[0].Got? then [polls[0].a] else []) + Arrivals(polls[1..])
  }

  class Receiver {
    var polls: seq<Poll>   // what polling the UART yields, one entry a poll
    var next: nat

    ghost predicate Valid() reads this { next <= |polls| }

    ghost function Rest(): seq<Arrival>
      requires Valid()
      reads this
    {
      Arrivals(polls[next..])
    }

    constructor (polls: seq<Poll>)
      ensures Valid() && Rest() == Arrivals(polls)
    {
      this.polls, next := polls, 0;
      new;
      assert polls[0..] == polls;
    }

    /** Polls until a command is complete; `Waiting` if the polls run out first. */
    method DtmTrGet() returns (answer: Answer)
      requires Valid()
      modifies this`next
      ensures Valid() && next >= old(next)
      ensures match answer
              case Waiting => Words(Read(old(Rest()))) == [] && Rest() == [] && next == |polls|
              case Command(word) => Words(Read(old(Rest()))) == [word] + Words(Read(Rest())) && next > old(next)
      ensures Incoming([], polls, old(next)) ==
              RadioBetween(polls, old(next), next) +
              if answer.Command? then [Word(answer.word)] + Incoming([], polls, next) else []
    {
      CallTakes([], polls, next);
      assert [] + Rest() == Rest();
      answer := PollLoop();
    }

    method PollLoop() returns (answer: Answer)
      requires Valid()
      modifies this`next
      ensures Valid()
      ensures match CallOf([], polls, old(next))
              case Completed(word, last) => answer == Command(word) && next == last
              case Starved => answer == Waiting && next == |polls|
    {
      var isMsbRead := false;
      var dtmCmd: uint16 := 0;
      var msbTime := 0;
      ghost var msb: seq<Arrival> := [];
      ghost var call := CallOf([], polls, next);
      while next < |polls|
        invariant Valid() && old(next) <= next
        invariant |msb| == if isMsbRead then 1 else 0
        invariant isMsbRead ==> dtmCmd == 0x100 * msb[0].b && msbTime == msb[0].stamp
        invariant CallOf(msb, polls, next) == call
      {
        var poll := polls[next];
        next := next + 1;
        if poll.Nothing? {
          continue;
        }
        var rx := poll.a;
        if !isMsbRead {
          isMsbRead := true;
          dtmCmd := rx.b * 0x100;
          msbTime := rx.stamp;
          msb := [rx];
          continue;
        }
        if rx.read - msbTime > SECOND_BYTE_MAX_DELAY {
          dtmCmd := rx.b * 0x100;
          msbTime := rx.stamp;
          msb := [rx];
        } else {
          dtmCmd := dtmCmd + rx.b;
          return Command(dtmCmd);
        }
      }
      return Waiting;
    }
  }

  /** How a call ends: a word and the next poll; or the polls run out. */
  datatype Call = Completed(word: uint16, last: nat) | Starved

  /** A call from poll `next` on, turn by turn; `msb` (at most one octet) is already read. */
  function CallOf(msb: seq<Arrival>, polls: seq<Poll>, next: nat): Call
    requires next <= |polls|
    decreases |polls| - next
  {
    if next == |polls| then Starved
    else
      match polls[next]
      case Nothing(_) => CallOf(msb, polls, next + 1)
      case Got(_, a) =>
        if msb == [] || Late(msb[0], a) then CallOf([a], polls, next + 1)
        else Completed(Le16(a.b, msb[0].b), next + 1)
  }

  /** The commands to come, with `msb` (at most one octet) already read. */
  ghost function Outlook(msb: seq<Arrival>, polls: seq<Poll>, next: nat): seq<uint16>
    requires next <= |polls|
  {
    Words(Read(msb + Arrivals(polls[next..])))
  }

  lemma OnePoll(msb: seq<Arrival>, polls: seq<Poll>, next: nat)
    requires next < |polls| && |msb| <= 1
    ensures Outlook(msb, polls, next) ==
            match polls[next]
            case Nothing(_) => Outlook(msb, polls, next + 1)
            case Got(_, a) =>
              if msb == [] || Late(msb[0], a) then Outlook([a], polls, next + 1)
              else [Le16(a.b, msb[0].b)] + Outlook([], polls, next + 1)
  {
    var rest := Arrivals(polls[next + 1..]);
    assert polls[next..][1..] == polls[next + 1..];
    if polls[next].Got? {
      var a := polls[next].a;
      assert Arrivals(polls[next..]) == [a] + rest;
      if msb == [] {
        assert msb + ([a] + rest) == [a] + rest;
      } else {
        assert msb + ([a] + rest) == [msb[0], a] + rest && [] + rest == rest;
        ReadSecond(msb[0], a, rest);
      }
    } else {
      assert Arrivals(polls[next..]) == [] + rest == rest;
    }
  }

  // ------------------------------------------------------- calls in a row

  /** The radio events of the turns from poll `first` up to poll `last`. */
  function RadioBetween(polls: seq<Poll>, first: nat, last: nat): seq<RadioEvent>
    requires first <= last <= |polls|
    decreases last - first
  {
    if first == last then [] else polls[first].radio + RadioBetween(polls, first + 1, last)
  }

  /** All that the polls from `next` on bring to the device, in order: radio events, and the
      command words that the turns complete. */
  function Incoming(msb: seq<Arrival>, polls: seq<Poll>, next: nat): seq<Event>
    requires next <= |polls|
    decreases |polls| - next
  {
    if next == |polls| then [] else polls[next].radio + AfterTurn(msb, polls, next)
  }

  function AfterTurn(msb: seq<Arrival>, polls: seq<Poll>, next: nat): seq<Event>
    requires next < |polls|
    decreases |polls| - next, 0
  {
    match polls[next]
    case Nothing(_) => Incoming(msb, polls, next + 1)
    case Got(_, a) =>
      if msb == [] || Late(msb[0], a) then Incoming([a], polls, next + 1)
      else [Word(Le16(a.b, msb[0].b))] + Incoming([], polls, next + 1)
  }

  /** A call takes its word off the front of the words to come, and off the front of all that
      the polls bring the radio events of its turns and its word; one that ends waiting takes
      all of it. */
  lemma {:induction false} CallTakes(msb: seq<Arrival>, polls: seq<Poll>, next: nat)
    requires next <= |polls| && |msb| <= 1
    ensures match CallOf(msb, polls, next)
            case Completed(word, last) =>
              && next < last <= |polls|
              && Outlook(msb, polls, next) == [word] + Words(Read(Arrivals(polls[last..])))
              && Incoming(msb, polls, next) == RadioBetween(polls, next, last) + ([Word(word)] + Incoming([], polls, last))
            case Starved =>
              && Outlook(msb, polls, next) == [] && Arrivals(polls[|polls|..]) == []
              && Incoming(msb, polls, next) == RadioBetween(polls, next, |polls|)
    decreases |polls| - next
  {
    if next == |polls| {
      assert polls[next..] == [] && msb + [] == msb;
    } else {
      OnePoll(msb, polls, next);
      var radio := polls[next].radio;
      if polls[next].Got? && msb != [] && !Late(msb[0], polls[next].a) {
        assert [] + Arrivals(polls[next + 1..]) == Arrivals(polls[next + 1..]);
        assert RadioBetween(polls, next, next + 1) == radio + RadioBetween(polls, next + 1, next + 1) == radio;
      } else {
        var held := if polls[next].Got? then [polls[next].a] else msb;
        CallTakes(held, polls, next + 1);
        match CallOf(held, polls, next + 1) {
          case Completed(word, last) =>
            Assoc<Event>(radio, RadioBetween(polls, next + 1, last), [Word(word)] + Incoming([], polls, last));
          case Starved =>
        }
      }
    }
  }

  /** Every packet that finished meanwhile, in order. */
  function AllRadio(polls: seq<Poll>): seq<Event> {
    if polls == [] then [] else polls[0].radio + AllRadio(polls[1..])
  }

  lemma {:induction false} IncomingRadio(msb: seq<Arrival>, polls: seq<Poll>, next: nat)
    requires next <= |polls| && |msb| <= 1
    ensures RadioOf(Incoming(msb, polls, next)) == AllRadio(polls[next..])
    decreases |polls| - next
  {
    if next < |polls| {
      assert polls[next..][0] == polls[next] && polls[next..][1..] == polls[next + 1..];
      RadioConcat(polls[next].radio, AfterTurn(msb, polls, next));
      RadioIsRadio(polls[next].radio);
      if polls[next].Nothing? {
        IncomingRadio(msb, polls, next + 1);
      } else if msb == [] || Late(msb[0], polls[next].a) {
        IncomingRadio([polls[next].a], polls, next + 1);
      } else {
        IncomingRadio([], polls, next + 1);
        var word, rest := Word(Le16(polls[next].a.b, msb[0].b)), Incoming([], polls, next + 1);
        assert ([word] + rest)[1..] == rest;
      }
    }
  }

  /** The command words the polls bring are those the stream decoder reads, in order. */
  lemma {:induction false} IncomingWords(msb: seq<Arrival>, polls: seq<Poll>, next: nat)
    requires next <= |polls| && |msb| <= 1
    ensures CommandsOf(Incoming(msb, polls, next)) == Outlook(msb, polls, next)
    decreases |polls| - next
  {
    if next == |polls| {
      assert polls[next..] == [] && msb + [] == msb;
    } else {
      OnePoll(msb, polls, next);
      CommandsConcat(polls[next].radio, AfterTurn(msb, polls, next));
      RadioHasNoCommands(polls[next].radio);
      if polls[next].Nothing? {
        IncomingWords(msb, polls, next + 1);
      } else if msb == [] || Late(msb[0], polls[next].a) {
        IncomingWords([polls[next].a], polls, next + 1);
      } else {
        IncomingWords([], polls, next + 1);
        var word, rest := Word(Le16(polls[next].a.b, msb[0].b)), Incoming([], polls, next + 1);
        assert ([word] + rest)[1..] == rest;
      }
    }
  }

  lemma ReadSecond(x: Arrival, y: Arrival, rest: seq<Arrival>)
    ensures Late(x, y) ==> Words(Read([x, y] + rest)) == Words(Read([y] + rest))
    ensures !Late(x, y) ==> Words(Read([x, y] + rest)) == [Le16(y.b, x.b)] + Words(Read(rest))
  {
    var a := [x, y] + rest;
    assert a[1..] == [y] + rest && a[2..] == rest;
    assert Late(x, y) ==> Read(a)[1..] == Read(a[1..]);
    assert !Late(x, y) ==> Read(a)[1..] == Read(a[2..]);
  }

  // ------------------------------------------------------------------- laws

  function Unread(items: seq<Item>): seq<Arrival> {
    if items == [] then []
    else (if items[0].Cmd? then [items[0].msb, items[0].lsb] else [items[0].x]) + Unread(items[1..])
  }

  /** Every octet is used in one command, dropped, or pending, in order. */
  lemma {:induction false} EveryOctetOnce(a: seq<Arrival>)
    ensures a == Unread(Read(a)) + Pending(a)
    decreases |a|
  {
    if |a| >= 2 {
      var n := if Late(a[0], a[1]) then 1 else 2;
      EveryOctetOnce(a[n..]);
      assert Read(a)[1..] == Read(a[n..]);
    }
  }

  /** Commands are two octets in time; a dropped octet is followed by one too late for it. */
  lemma {:induction false} JudgedRight(a: seq<Arrival>, k: nat)
    requires k < |Read(a)|
    ensures var item := Read(a)[k];
            if item.Cmd? then item.lsb.read - item.msb.stamp <= 5
            else k + 1 < |Read(a)| + |Pending(a)| && Follower(Read(a), Pending(a), k).read - item.x.stamp > 5
    decreases |a|
  {
    var late := Late(a[0], a[1]);
    var rest := if late then a[1..] else a[2..];
    assert Read(a)[1..] == Read(rest);
    if k > 0 {
      JudgedRight(rest, k - 1);
    } else if late {
      FirstOctet(rest);
    }
  }

  lemma FirstOctet(a: seq<Arrival>)
    requires a != []
    ensures |Read(a)| + |Pending(a)| > 0
    ensures a[0] == if Read(a) == [] then Pending(a)[0] else if Read(a)[0].Cmd? then Read(a)[0].msb else Read(a)[0].x
  {}

  /** The octet right after item `k`. */
  function Follower(items: seq<Item>, pending: seq<Arrival>, k: nat): Arrival
    requires k + 1 < |items| + |pending| && |pending| <= 1
  {
    if k + 1 < |items| then (if items[k + 1].Cmd? then items[k + 1].msb else items[k + 1].x) else pending[0]
  }

  /** A prefix acts on what follows only through its pending octet. */
  lemma {:induction false} ReadConcat(g: seq<Arrival>, s: seq<Arrival>)
    ensures Read(g + s) == Read(g) + Read(Pending(g) + s)
    ensures Pending(g + s) == Pending(Pending(g) + s)
    decreases |g|
  {
    if |g| >= 2 {
      var n := if Late(g[0], g[1]) then 1 else 2;
      assert (g + s)[n..] == g[n..] + s;
      ReadConcat(g[n..], s);
    }
  }

  /** After a gap of more than 5 ms the decoding of what follows is that of a fresh start,
      whatever garbage came before. */
  lemma Resynchronised(g: seq<Arrival>, s: seq<Arrival>)
    requires g != [] && s != [] && s[0].read - g[|g| - 1].stamp > 5
    ensures Words(Read(g + s)) == Words(Read(g)) + Words(Read(s))
    ensures Pending(g + s) == Pending(s)
  {
    ReadConcat(g, s);
    if Pending(g) != [] { PendingIsLast(g); }
    PendingDropped(Pending(g), s);
    WordsConcat(Read(g), Read(Pending(g) + s));
  }

  lemma PendingDropped(p: seq<Arrival>, s: seq<Arrival>)
    requires s != [] && |p| <= 1 && (p != [] ==> Late(p[0], s[0]))
    ensures Words(Read(p + s)) == Words(Read(s)) && Pending(p + s) == Pending(s)
  {
    if p == [] {
      assert p + s == s;
    } else {
      assert (p + s)[1..] == s;
      WordsConcat([Drop(p[0])], Read(s));
      assert Words([Drop(p[0])]) == [];
    }
  }

  /** Without such a gap a pending octet pairs with the first of what follows. */
  lemma Misaligned(g: seq<Arrival>, s: seq<Arrival>)
    requires Pending(g) != [] && s != [] && s[0].read - g[|g| - 1].stamp <= 5
    ensures Read(g + s) == Read(g) + [Cmd(g[|g| - 1], s[0])] + Read(s[1..])
  {
    var x := g[|g| - 1];
    ReadConcat(g, s);
    PendingIsLast(g);
    ReadPair(x, s);
    Assoc(Read(g), [Cmd(x, s[0])], Read(s[1..]));
  }

  lemma ReadPair(x: Arrival, s: seq<Arrival>)
    requires s != [] && s[0].read - x.stamp <= 5
    ensures Read([x] + s) == [Cmd(x, s[0])] + Read(s[1..])
  {
    assert ([x] + s)[2..] == s[1..];
  }

  lemma {:induction false} PendingIsLast(g: seq<Arrival>)
    requires Pending(g) != []
    ensures Pending(g) == [g[|g| - 1]]
    decreases |g|
  {
    if |g| >= 2 { PendingIsLast(if Late(g[0], g[1]) then g[1..] else g[2..]); }
  }

  lemma {:induction false} WordsConcat(a: seq<Item>, b: seq<Item>)
    ensures Words(a + b) == Words(a) + Words(b)
    decreases a
  {
    if a == [] {
      assert a + b == b;
    } else {
      assert (a + b)[1..] == a[1..] + b;
      WordsConcat(a[1..], b);
      Assoc(if a[0].Cmd? then [WordOf(a[0])] else [], Words(a[1..]), Words(b));
    }
  }

  function OctetsOf(sent: seq<Item>): seq<byte>
    requires forall k :: 0 <= k < |sent| ==> sent[k].Cmd?
  {
    if sent == [] then [] else [sent[0].msb.b, sent[0].lsb.b] + OctetsOf(sent[1..])
  }

  /** Commands sent with inner gaps of at most 5 ms decode exactly, whatever lies between. */
  lemma {:induction false} CleanCommands(sent: seq<Item>)
    requires forall k :: 0 <= k < |sent| ==> sent[k].Cmd? && sent[k].lsb.read - sent[k].msb.stamp <= 5
    ensures Read(Unread(sent)) == sent && Pending(Unread(sent)) == []
    ensures Words(Read(Unread(sent))) == Bytes.BigEndian(OctetsOf(sent))
    decreases sent
  {
    if sent != [] {
      var a := Unread(sent);
      assert a[2..] == Unread(sent[1..]);
      CleanCommands(sent[1..]);
      assert sent == [Cmd(a[0], a[1])] + sent[1..];
      assert OctetsOf(sent)[2..] == OctetsOf(sent[1..]);
    }
  }
}
