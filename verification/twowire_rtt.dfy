/** Two-octet commands over a polled RTT ring (src/transport/dtm_rtt_twowire.c): both
    octets in one read when they are there, else the second by itself; a poll that finds
    nothing more than 5 ms after a lone first octet drops it. */
module TwoWireRtt {
  import opened Bytes
  import opened DtmSession

  const SECOND_BYTE_MAX_DELAY: int := 5

  /** One turn of the polling loop: what happened before it (packets finishing on the radio,
      octets reaching the ring), and the clock if it is read in this turn. */
  datatype Poll = Poll(arrived: seq<byte>, now: int, radio: seq<RadioEvent>)

  datatype Item = Cmd(msb: byte, lsb: byte) | Drop(x: byte)

  datatype Lone = NoByte | Byte(b: byte, since: int)

  /** Ring contents, a first octet read alone, and what octets have become so far. */
  datatype State = State(ring: seq<byte>, lone: Lone, log: seq<Item>)

  /** What one turn makes of the first octet held and the octets in the ring. */
  datatype Turn = Turn(more: seq<Item>, lone: Lone, ring: seq<byte>)

  function TurnOf(lone: Lone, ring: seq<byte>, now: int): Turn {
    match lone
    case NoByte =>
      if |ring| >= 2 then Turn([Cmd(ring[0], ring[1])], NoByte, ring[2..])
      else if |ring| == 1 then Turn([], Byte(ring[0], now), [])
      else Turn([], NoByte, [])
    case Byte(b, since) =>
      if ring != [] then Turn([Cmd(b, ring[0])], NoByte, ring[1..])
      else if now - since > SECOND_BYTE_MAX_DELAY then Turn([Drop(b)], NoByte, [])
      else Turn([], lone, [])
  }

  function Step(s: State, p: Poll): State {
    var turn := TurnOf(s.lone, s.ring + p.arrived, p.now);
    State(turn.ring, turn.lone, s.log + turn.more)
  }

  function Run(s: State, polls: seq<Poll>): State
    decreases polls
  {
    if polls == [] then s else Run(Step(s, polls[0]), polls[1..])
  }

  datatype Answer = Command(word: uint16) | Waiting

  ghost predicate OnlyDrops(log: seq<Item>) {
    forall k :: 0 <= k < |log| ==> log[k].Drop?
  }

  class Receiver {
    var polls: seq<Poll>
    var next: nat
    var ring: seq<byte>

    ghost predicate Valid() reads this { next <= |polls| }

    constructor (polls: seq<Poll>)
      ensures Valid() && this.polls == polls && next == 0 && ring == []
    {
      this.polls, next, ring := polls, 0, [];
    }

    /** `SEGGER_RTT_Read`: at most `n` octets, as many as there are. */
    method RttRead(n: nat) returns (got: seq<byte>)
      modifies this`ring
      ensures |got| == Min(n, |old(ring)|) && old(ring) == got + ring
    {
      got := ring[..Min(n, |ring|)];
      ring := ring[|got|..];
    }

    /** A turn without a first octet: both octets at once if they are there. */
    method ReadBoth(poll: Poll) returns (buffer: seq<byte>)
      modifies this`ring
      ensures |buffer| <= 2
      ensures TurnOf(NoByte, old(ring) + poll.arrived, poll.now)
           == Turn(if |buffer| == 2 then [Cmd(buffer[0], buffer[1])] else [],
                   if |buffer| == 1 then Byte(buffer[0], poll.now) else NoByte, ring)
    {
      ring := ring + poll.arrived;
      buffer := RttRead(2);
    }

    /** A turn that waits for the second octet of `lone`, read at `msbTime`. */
    method ReadSecond(poll: Poll, msbTime: int, ghost lone: Lone) returns (rx: seq<byte>, expired: bool)
      requires lone.Byte? && msbTime == lone.since
      modifies this`ring
      ensures |rx| <= 1 && (expired ==> rx == [])
      ensures TurnOf(lone, old(ring) + poll.arrived, poll.now)
           == Turn(if rx != [] then [Cmd(lone.b, rx[0])] else if expired then [Drop(lone.b)] else [],
                   if rx != [] || expired then NoByte else lone, ring)
    {
      ring := ring + poll.arrived;
      rx := RttRead(1);
      expired := |rx| == 0 && poll.now - msbTime > SECOND_BYTE_MAX_DELAY;
    }

    /** Polls until a command is complete; `Waiting` if the polls run out first. Each call
        starts without a first octet, and a completed call leaves none behind. */
    method DtmTrGet() returns (answer: Answer)
      requires Valid()
      modifies this`next, this`ring
      ensures Valid() && next >= old(next)
      ensures match CallOf(NoByte, old(ring), polls, old(next))
              case Completed(word, left, last) => answer == Command(word) && ring == left && next == last > old(next)
              case Starved(_, left) => answer == Waiting && ring == left && next == |polls|
      ensures Incoming(NoByte, old(ring), polls, old(next)) ==
              RadioBetween(polls, old(next), next) +
              if answer.Command? then [Word(answer.word)] + Incoming(NoByte, ring, polls, next) else []
    {
      CallTakes(NoByte, ring, polls, next);
      answer := PollLoop();
      assert answer.Waiting? ==> RadioBetween(polls, old(next), next) + [] == RadioBetween(polls, old(next), next);
    }

    method PollLoop() returns (answer: Answer)
      requires Valid()
      modifies this`next, this`ring
      ensures Valid()
      ensures match CallOf(NoByte, old(ring), polls, old(next))
              case Completed(word, left, last) => answer == Command(word) && ring == left && next == last
              case Starved(_, left) => answer == Waiting && ring == left && next == |polls|
    {
      var msb := Msb(false, 0, 0);
      ghost var lone, call := NoByte, CallOf(NoByte, ring, polls, next);
      while next < |polls|
        invariant Valid() && HeldAs(msb, lone)
        invariant CallOf(lone, ring, polls, next) == call
      {
        var poll := polls[next];
        var done: bool;
        ghost var more: seq<Item>;
        ghost var turn := TurnOf(lone, ring + poll.arrived, poll.now);
        done, msb, lone, more := PollOnce(poll, msb, lone);
        assert turn.more == more && turn.lone == lone && turn.ring == ring;
        next := next + 1;
        if done {
          return Command(msb.cmd);
        }
      }
      return Waiting;
    }

    /** One turn of the loop, in its two cases. */
    method PollOnce(poll: Poll, held: Msb, ghost lone: Lone)
      returns (done: bool, msb: Msb, ghost after: Lone, ghost more: seq<Item>)
      requires HeldAs(held, lone)
      modifies this`ring
      ensures TurnOf(lone, old(ring) + poll.arrived, poll.now) == Turn(more, after, ring)
      ensures if done then after == NoByte && |more| == 1 && more[0].Cmd? && msb.cmd == Le16(more[0].lsb, more[0].msb)
              else HeldAs(msb, after) && OnlyDrops(more)
    {
      msb := held;
      if !msb.isRead {
        var buffer := ReadBoth(poll);
        done, after, more := |buffer| == 2, NoByte, [];
        if |buffer| == 2 {
          msb := msb.(cmd := Le16(buffer[1], buffer[0]));
          more := [Cmd(buffer[0], buffer[1])];
        } else if |buffer| == 1 {
          msb := Msb(true, Le16(0, buffer[0]), poll.now);
          after := Byte(buffer[0], poll.now);
        }
      } else {
        var rx, expired := ReadSecond(poll, msb.time, lone);
        done, after, more := |rx| != 0, lone, [];
        if |rx| == 0 {
          if expired {
            msb := msb.(isRead := false);
            after, more := NoByte, [Drop(lone.b)];
          }
        } else {
          msb := msb.(cmd := msb.cmd + rx[0]);
          after, more := NoByte, [Cmd(lone.b, rx[0])];
        }
      }
    }
  }

  /** How a call ends: a word, with what is left in the ring and the next poll; or the polls
      run out. */
  datatype Call = Completed(word: uint16, left: seq<byte>, last: nat) | Starved(lone: Lone, left: seq<byte>)

  /** A call from poll `next` on, turn by turn. */
  function CallOf(lone: Lone, ring: seq<byte>, polls: seq<Poll>, next: nat): Call
    requires next <= |polls|
    decreases |polls| - next
  {
    if next == |polls| then Starved(lone, ring)
    else
      var turn := TurnOf(lone, ring + polls[next].arrived, polls[next].now);
      if turn.more != [] && turn.more[0].Cmd?
      then Completed(Le16(turn.more[0].lsb, turn.more[0].msb), turn.ring, next + 1)
      else CallOf(turn.lone, turn.ring, polls, next + 1)
  }

  /** The loop's variables: is a first octet held, the word so far, when it was read. */
  datatype Msb = Msb(isRead: bool, cmd: uint16, time: int)

  ghost predicate HeldAs(msb: Msb, lone: Lone) {
    && (lone.Byte? <==> msb.isRead)
    && (msb.isRead ==> msb.cmd == 0x100 * lone.b && msb.time == lone.since)
  }

  /** Dropped octets, then the command whose word is `word`. */
  ghost predicate EndsIn(items: seq<Item>, word: uint16) {
    items != [] && OnlyDrops(items[..|items| - 1])
    && var last := items[|items| - 1]; last.Cmd? && word == Le16(last.lsb, last.msb)
  }

  lemma {:induction false} RunConcat(s: State, a: seq<Poll>, b: seq<Poll>)
    ensures Run(s, a + b) == Run(Run(s, a), b)
    decreases a
  {
    if a == [] {
      assert a + b == b;
    } else {
      assert (a + b)[1..] == a[1..] + b;
      RunConcat(Step(s, a[0]), a[1..], b);
    }
  }

  lemma RunSnoc(s: State, polls: seq<Poll>, p: Poll)
    ensures Run(s, polls + [p]) == Step(Run(s, polls), p)
  {
    RunConcat(s, polls, [p]);
    assert Run(Run(s, polls), [p]) == Run(Step(Run(s, polls), p), []);
  }

  /** The turns from poll `first` up to poll `last`. */
  ghost function RunTo(s: State, polls: seq<Poll>, first: nat, last: nat): State
    requires first <= last <= |polls|
    decreases last - first
  {
    if first == last then s else RunTo(Step(s, polls[first]), polls, first + 1, last)
  }

  lemma {:induction false} RunToIsRun(s: State, polls: seq<Poll>, first: nat, last: nat)
    requires first <= last <= |polls|
    ensures RunTo(s, polls, first, last) == Run(s, polls[first..last])
    decreases last - first
  {
    if first < last {
      assert polls[first..last][1..] == polls[first + 1..last];
      RunToIsRun(Step(s, polls[first]), polls, first + 1, last);
    }
  }

  /** A call's turns are those of a run: it drops octets only until, with the last of its
      turns, it completes its command and holds no octet. */
  lemma {:induction false} CallIsRun(s: State, polls: seq<Poll>, first: nat)
    requires first <= |polls| && OnlyDrops(s.log)
    ensures EndsAs(s, polls, first, CallOf(s.lone, s.ring, polls, first))
    decreases |polls| - first
  {
    if first < |polls| {
      TurnEnds(s, polls[first]);
      var next := Step(s, polls[first]);
      if OnlyDrops(next.log) {
        CallIsRun(next, polls, first + 1);
        OneTurnMore(s, polls, first, CallOf(next.lone, next.ring, polls, first + 1));
      }
    }
  }

  /** The turns from `first` lead where the call says. */
  ghost predicate EndsAs(s: State, polls: seq<Poll>, first: nat, call: Call)
    requires first <= |polls|
  {
    match call
    case Completed(word, left, last) =>
      && first < last <= |polls| && OnlyDrops(RunTo(s, polls, first, last - 1).log)
      && var end := RunTo(s, polls, first, last);
         end.ring == left && end.lone == NoByte && EndsIn(end.log, word)
    case Starved(lone, left) =>
      var end := RunTo(s, polls, first, |polls|); end.ring == left && end.lone == lone && OnlyDrops(end.log)
  }

  lemma OneTurnMore(s: State, polls: seq<Poll>, first: nat, call: Call)
    requires first < |polls| && EndsAs(Step(s, polls[first]), polls, first + 1, call)
    ensures EndsAs(s, polls, first, call)
  {}

  lemma TurnEnds(s: State, p: Poll)
    requires OnlyDrops(s.log)
    ensures var more, next := TurnOf(s.lone, s.ring + p.arrived, p.now).more, Step(s, p);
            if more != [] && more[0].Cmd?
            then next.lone == NoByte && EndsIn(next.log, Le16(more[0].lsb, more[0].msb)) && !OnlyDrops(next.log)
            else OnlyDrops(next.log)
  {
    var more, next := TurnOf(s.lone, s.ring + p.arrived, p.now).more, Step(s, p);
    if more != [] {
      assert next.log[..|s.log|] == s.log && next.log[|s.log|] == more[0];
    }
  }

  /** A later call carries on where an earlier one stopped: a run adds to the log what it
      would have made of the same octets with an empty log. */
  lemma {:induction false} RunAdds(s: State, polls: seq<Poll>)
    ensures var end := Run(s.(log := []), polls);
            Run(s, polls) == end.(log := s.log + end.log)
    decreases polls
  {
    if polls == [] {
      assert s.log + [] == s.log;
    } else {
      var turn := TurnOf(s.lone, s.ring + polls[0].arrived, polls[0].now);
      assert [] + turn.more == turn.more;
      RunAdds(Step(s, polls[0]), polls[1..]);
      RunAdds(State(turn.ring, turn.lone, turn.more), polls[1..]);
      Assoc(s.log, turn.more, Run(State(turn.ring, turn.lone, []), polls[1..]).log);
    }
  }

  // ------------------------------------------------------- calls in a row

  function CommandWords(items: seq<Item>): seq<uint16> {
    if items == [] then []
    else
      var item := items[|items| - 1];
      CommandWords(items[..|items| - 1]) + if item.Cmd? then [Le16(item.lsb, item.msb)] else []
  }

  /** The radio events of the turns from poll `first` up to poll `last`. */
  function RadioBetween(polls: seq<Poll>, first: nat, last: nat): seq<RadioEvent>
    requires first <= last <= |polls|
    decreases last - first
  {
    if first == last then [] else polls[first].radio + RadioBetween(polls, first + 1, last)
  }

  function WordEvents(more: seq<Item>): seq<Event> {
    if more != [] && more[0].Cmd? then [Word(Le16(more[0].lsb, more[0].msb))] else []
  }

  /** All that the polls from `next` on bring to the device, in order: radio events, and the
      command words that the turns complete. */
  function Incoming(lone: Lone, ring: seq<byte>, polls: seq<Poll>, next: nat): seq<Event>
    requires next <= |polls|
    decreases |polls| - next
  {
    if next == |polls| then []
    else
      var turn := TurnOf(lone, ring + polls[next].arrived, polls[next].now);
      polls[next].radio + (WordEvents(turn.more) + Incoming(turn.lone, turn.ring, polls, next + 1))
  }

  /** A call takes off the front of all that the polls bring the radio events of its turns
      and its one word, and leaves the rest to the next call; a call that ends waiting takes
      all of it. */
  lemma {:induction false} CallTakes(lone: Lone, ring: seq<byte>, polls: seq<Poll>, next: nat)
    requires next <= |polls|
    ensures match CallOf(lone, ring, polls, next)
            case Completed(word, left, last) =>
              && next < last <= |polls|
              && Incoming(lone, ring, polls, next) ==
                 RadioBetween(polls, next, last) + ([Word(word)] + Incoming(NoByte, left, polls, last))
            case Starved(_, _) => Incoming(lone, ring, polls, next) == RadioBetween(polls, next, |polls|)
    decreases |polls| - next
  {
    if next < |polls| {
      var turn := TurnOf(lone, ring + polls[next].arrived, polls[next].now);
      var radio, rest := polls[next].radio, Incoming(turn.lone, turn.ring, polls, next + 1);
      if WordEvents(turn.more) == [] {
        assert [] + rest == rest;
        CallTakes(turn.lone, turn.ring, polls, next + 1);
        var call := CallOf(turn.lone, turn.ring, polls, next + 1);
        assert CallOf(lone, ring, polls, next) == call;
        if call.Completed? {
          Assoc<Event>(radio, RadioBetween(polls, next + 1, call.last),
                       [Word(call.word)] + Incoming(NoByte, call.left, polls, call.last));
        }
      } else {
        assert CallOf(lone, ring, polls, next) == Completed(Le16(turn.more[0].lsb, turn.more[0].msb), turn.ring, next + 1);
        assert RadioBetween(polls, next, next + 1) == radio + RadioBetween(polls, next + 1, next + 1) == radio;
      }
    }
  }

  lemma {:induction false} CommandWordsConcat(a: seq<Item>, b: seq<Item>)
    ensures CommandWords(a + b) == CommandWords(a) + CommandWords(b)
    decreases |b|
  {
    if b == [] {
      assert a + b == a;
    } else {
      var n := |b| - 1;
      assert (a + b)[..|a| + n] == a + b[..n] && (a + b)[|a| + n] == b[n];
      CommandWordsConcat(a, b[..n]);
      Assoc(CommandWords(a), CommandWords(b[..n]), if b[n].Cmd? then [Le16(b[n].lsb, b[n].msb)] else []);
    }
  }

  /** Every packet that finished meanwhile, in order. */
  function AllRadio(polls: seq<Poll>): seq<Event> {
    if polls == [] then [] else polls[0].radio + AllRadio(polls[1..])
  }

  lemma {:induction false} IncomingRadio(lone: Lone, ring: seq<byte>, polls: seq<Poll>, next: nat)
    requires next <= |polls|
    ensures RadioOf(Incoming(lone, ring, polls, next)) == AllRadio(polls[next..])
    decreases |polls| - next
  {
    if next < |polls| {
      var turn := TurnOf(lone, ring + polls[next].arrived, polls[next].now);
      var rest := Incoming(turn.lone, turn.ring, polls, next + 1);
      assert polls[next..][0] == polls[next] && polls[next..][1..] == polls[next + 1..];
      IncomingRadio(turn.lone, turn.ring, polls, next + 1);
      RadioGlue(polls[next].radio, WordEvents(turn.more), rest);
    }
  }

  /** The words of pairs of octets are their numbers, upper octet first. */
  lemma {:induction false} PairWords(s: seq<byte>)
    ensures CommandWords(Pairs(s)) == BigEndian(s)
    decreases |s|
  {
    if |s| >= 2 {
      PairWords(s[2..]);
      CommandWordsConcat([Cmd(s[0], s[1])], Pairs(s[2..]));
      TurnWords(NoByte, s, 0);
      assert CommandWords([Cmd(s[0], s[1])]) == [Le16(s[1], s[0])];
    }
  }

  /** The command words the polls bring are those of the commands in the log, in order. */
  lemma {:induction false} IncomingWords(lone: Lone, ring: seq<byte>, polls: seq<Poll>, next: nat)
    requires next <= |polls|
    ensures CommandsOf(Incoming(lone, ring, polls, next)) == CommandWords(Run(State(ring, lone, []), polls[next..]).log)
    decreases |polls| - next
  {
    if next < |polls| {
      var turn := TurnOf(lone, ring + polls[next].arrived, polls[next].now);
      var rest := Incoming(turn.lone, turn.ring, polls, next + 1);
      IncomingWords(turn.lone, turn.ring, polls, next + 1);
      CommandsConcat(polls[next].radio, WordEvents(turn.more) + rest);
      RadioHasNoCommands(polls[next].radio);
      CommandsConcat(WordEvents(turn.more), rest);
      RunFirst(lone, ring, polls, next);
      CommandWordsConcat(turn.more, Run(State(turn.ring, turn.lone, []), polls[next + 1..]).log);
      TurnWords(lone, ring + polls[next].arrived, polls[next].now);
    }
  }

  lemma RunFirst(lone: Lone, ring: seq<byte>, polls: seq<Poll>, next: nat)
    requires next < |polls|
    ensures var turn := TurnOf(lone, ring + polls[next].arrived, polls[next].now);
            Run(State(ring, lone, []), polls[next..]).log ==
              turn.more + Run(State(turn.ring, turn.lone, []), polls[next + 1..]).log
  {
    var turn := TurnOf(lone, ring + polls[next].arrived, polls[next].now);
    assert polls[next..][1..] == polls[next + 1..] && [] + turn.more == turn.more;
    RunAdds(State(turn.ring, turn.lone, turn.more), polls[next + 1..]);
  }

  lemma TurnWords(lone: Lone, ring: seq<byte>, now: int)
    ensures var more := TurnOf(lone, ring, now).more; CommandsOf(WordEvents(more)) == CommandWords(more)
  {
    var more := TurnOf(lone, ring, now).more;
    if more != [] { assert more == [more[0]] && more[..0] == []; }
  }

  // ------------------------------------------------------------------- laws

  /** The octets the items stand for, in order. */
  function Unread(log: seq<Item>): seq<byte> {
    if log == [] then []
    else
      var item := log[|log| - 1];
      Unread(log[..|log| - 1]) + OctetsOf(item)
  }

  function OctetsOf(item: Item): seq<byte> { if item.Cmd? then [item.msb, item.lsb] else [item.x] }

  function LoneOctets(lone: Lone): seq<byte> { if lone.Byte? then [lone.b] else [] }

  function Flat(polls: seq<Poll>): seq<byte> {
    if polls == [] then [] else polls[0].arrived + Flat(polls[1..])
  }

  /** Everything that arrived, in order: used or dropped, waiting, or still in the ring. */
  function Octets(s: State): seq<byte> { Unread(s.log) + Unused(s) }

  function Unused(s: State): seq<byte> { LoneOctets(s.lone) + s.ring }

  lemma UnreadSnoc(log: seq<Item>, item: Item)
    ensures Unread(log + [item]) == Unread(log) + OctetsOf(item)
  {
    assert (log + [item])[..|log|] == log;
  }

  lemma UnreadMore(log: seq<Item>, more: seq<Item>)
    requires |more| <= 1
    ensures Unread(log + more) == Unread(log) + Unread(more)
  {
    if more == [] {
      assert log + more == log;
    } else {
      assert more == [more[0]];
      UnreadSnoc(log, more[0]);
      UnreadOne(more[0]);
    }
  }

  lemma Regroup(u: seq<byte>, a: seq<byte>, p: seq<byte>, m: seq<byte>, n: seq<byte>)
    requires a + p == m + n
    ensures (u + a) + p == (u + m) + n
  {
    Assoc(u, a, p);
    Assoc(u, m, n);
  }

  lemma UnreadOne(item: Item)
    ensures Unread([item]) == OctetsOf(item)
  {
    assert [] + [item] == [item];
    UnreadSnoc([], item);
    assert [] + OctetsOf(item) == OctetsOf(item);
  }

  /** What a turn adds to the log comes off the front of what was unused. */
  lemma TurnUses(lone: Lone, ring: seq<byte>, now: int)
    ensures var turn := TurnOf(lone, ring, now);
            |turn.more| <= 1 && LoneOctets(lone) + ring == Unread(turn.more) + (LoneOctets(turn.lone) + turn.ring)
  {
    var turn := TurnOf(lone, ring, now);
    var left := LoneOctets(turn.lone) + turn.ring;
    if turn.more == [] {
      assert [] + left == left;
    } else {
      UnreadOne(turn.more[0]);
      assert turn.more == [turn.more[0]];
      assert left == turn.ring;
      TurnItem(lone, ring, now);
    }
  }

  lemma TurnItem(lone: Lone, ring: seq<byte>, now: int)
    ensures var turn := TurnOf(lone, ring, now);
            turn.more != [] ==> LoneOctets(lone) + ring == OctetsOf(turn.more[0]) + turn.ring
  {}

  lemma StepLosesNothing(s: State, p: Poll)
    ensures Octets(Step(s, p)) == Octets(s) + p.arrived
  {
    var ring := s.ring + p.arrived;
    var more := TurnOf(s.lone, ring, p.now).more;
    TurnUses(s.lone, ring, p.now);
    Assoc(LoneOctets(s.lone), s.ring, p.arrived);
    UnreadMore(s.log, more);
    Regroup(Unread(s.log), Unused(s), p.arrived, Unread(more), Unused(Step(s, p)));
  }

  /** However the reads split the stream, the items, the waiting octet and the ring spell
      it out exactly: no octet is lost, repeated or reordered, dropped ones included. */
  lemma {:induction false} NothingLost(s: State, polls: seq<Poll>)
    ensures Octets(Run(s, polls)) == Octets(s) + Flat(polls)
    decreases polls
  {
    if polls == [] {
      assert Octets(s) + [] == Octets(s);
    } else {
      NothingLost(Step(s, polls[0]), polls[1..]);
      StepLosesNothing(s, polls[0]);
      Assoc(Octets(s), polls[0].arrived, Flat(polls[1..]));
    }
  }

  /** Consecutive pairs of a flat stream. */
  function Pairs(s: seq<byte>): seq<Item> {
    if |s| < 2 then [] else [Cmd(s[0], s[1])] + Pairs(s[2..])
  }

  ghost predicate NoDrops(log: seq<Item>) {
    forall k :: 0 <= k < |log| ==> log[k].Cmd?
  }

  lemma {:induction false} PairsOfUnread(log: seq<Item>, rest: seq<byte>)
    requires NoDrops(log)
    ensures Pairs(Unread(log) + rest) == log + Pairs(rest)
    decreases log
  {
    if log == [] {
      assert Unread(log) + rest == rest && log + Pairs(rest) == Pairs(rest);
    } else {
      var init, item := log[..|log| - 1], log[|log| - 1];
      var more := [item.msb, item.lsb] + rest;
      assert Unread(log) + rest == Unread(init) + more;
      PairsOfUnread(init, more);
      assert more[2..] == rest && log == init + [item];
    }
  }

  /** Read-split independence: while no timeout fires, the commands are the first of the
      consecutive pairs of the flat stream, whatever one- or two-octet reads met them; the
      rest of the pairs are those of the octets not yet used. */
  lemma SplitIndependence(polls: seq<Poll>)
    requires NoDrops(Run(State([], NoByte, []), polls).log)
    ensures var end := Run(State([], NoByte, []), polls);
            Pairs(Flat(polls)) == end.log + Pairs(Unused(end))
  {
    var end := Run(State([], NoByte, []), polls);
    NothingLost(State([], NoByte, []), polls);
    PairsOfUnread(end.log, Unused(end));
    assert Flat(polls) == Octets(State([], NoByte, [])) + Flat(polls);
  }

  /** A timeout fires exactly on an empty poll more than 5 ms after a lone octet was read,
      and drops that octet alone. */
  lemma TimeoutExactly(s: State, p: Poll)
    ensures (exists x :: Step(s, p).log == s.log + [Drop(x)]) <==>
              s.lone.Byte? && s.ring + p.arrived == [] && p.now - s.lone.since > 5
    ensures s.lone.Byte? && s.ring + p.arrived == [] && p.now - s.lone.since > 5 ==>
              Step(s, p) == State([], NoByte, s.log + [Drop(s.lone.b)])
  {
    var next := Step(s, p);
    if x :| next.log == s.log + [Drop(x)] {
      assert next.log[|s.log|] == Drop(x);
    }
    if s.lone.Byte? && s.ring + p.arrived == [] && p.now - s.lone.since > 5 {
      assert next.log == s.log + [Drop(s.lone.b)];
    }
  }

  /** The fate of a first octet read alone, over any run of polls that bring nothing and
      then one that does: it joins the octet that comes exactly when none of those empty
      polls read the clock more than 5 ms after it; else the first that did dropped it. */
  lemma {:induction false} LoneFate(x: byte, since: int, log: seq<Item>, quiet: seq<Poll>, p: Poll)
    requires (forall i :: 0 <= i < |quiet| ==> quiet[i].arrived == []) && p.arrived != []
    ensures var end := Run(State([], Byte(x, since), log), quiet + [p]);
            if forall i :: 0 <= i < |quiet| ==> quiet[i].now - since <= 5
            then end == State(p.arrived[1..], NoByte, log + [Cmd(x, p.arrived[0])])
            else end == Step(State([], NoByte, log + [Drop(x)]), p)
    decreases quiet
  {
    if quiet == [] {
      RunSnoc(State([], Byte(x, since), log), [], p);
      assert [] + p.arrived == p.arrived && log + [] == log;
    } else {
      var late := quiet[0].now - since > SECOND_BYTE_MAX_DELAY;
      assert (quiet + [p])[1..] == quiet[1..] + [p];
      assert [] + quiet[0].arrived == [] && log + [] == log;
      if late {
        RunQuiet(log + [Drop(x)], quiet[1..]);
        RunSnoc(State([], NoByte, log + [Drop(x)]), quiet[1..], p);
      } else {
        LoneFate(x, since, log, quiet[1..], p);
      }
    }
  }

  /** The same from the poll that brought the first octet: its clock is what counts. */
  lemma LoneFateFromRead(x: byte, t0: int, radio: seq<RadioEvent>, quiet: seq<Poll>, p: Poll)
    requires (forall i :: 0 <= i < |quiet| ==> quiet[i].arrived == []) && p.arrived != []
    ensures var end := Run(State([], NoByte, []), [Poll([x], t0, radio)] + (quiet + [p]));
            if forall i :: 0 <= i < |quiet| ==> quiet[i].now - t0 <= 5
            then end == State(p.arrived[1..], NoByte, [Cmd(x, p.arrived[0])])
            else end == Step(State([], NoByte, [Drop(x)]), p)
  {
    var polls := [Poll([x], t0, radio)] + (quiet + [p]);
    assert polls[1..] == quiet + [p] && polls[0] == Poll([x], t0, radio);
    assert [] + [x] == [x];
    assert Step(State([], NoByte, []), polls[0]) == State([], Byte(x, t0), []);
    LoneFate(x, t0, [], quiet, p);
    assert [] + [Cmd(x, p.arrived[0])] == [Cmd(x, p.arrived[0])] && [] + [Drop(x)] == [Drop(x)];
  }

  lemma {:induction false} RunQuiet(log: seq<Item>, quiet: seq<Poll>)
    requires forall i :: 0 <= i < |quiet| ==> quiet[i].arrived == []
    ensures Run(State([], NoByte, log), quiet) == State([], NoByte, log)
    decreases quiet
  {
    if quiet != [] {
      assert [] + quiet[0].arrived == [] && log + [] == log;
      RunQuiet(log, quiet[1..]);
    }
  }

  /** A late second octet is still accepted if no poll came up empty after the deadline:
      unlike the UART decoder, lateness is judged only when nothing is there. */
  lemma LateSecondOctetAccepted(msb: byte, lsb: byte, t0: int, t1: int)
    ensures Run(State([], NoByte, []), [Poll([msb], t0, []), Poll([lsb], t1, [])]).log == [Cmd(msb, lsb)]
  {
    var first := Step(State([], NoByte, []), Poll([msb], t0, []));
    assert Run(State([], NoByte, []), [Poll([msb], t0, []), Poll([lsb], t1, [])]) == Run(first, [Poll([lsb], t1, [])]);
    assert Run(first, [Poll([lsb], t1, [])]) == Run(Step(first, Poll([lsb], t1, [])), []);
  }
}
