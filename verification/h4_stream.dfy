/** The H4 packet stream (Bluetooth Core, Vol 4 Part A section 2) as pure values:
    the state one octet at a time, an independent parser of the whole stream, the
    serialiser, and the laws that connect them. `HciUart` (hci_uart.dfy) is the
    in-place framer that refines `FeedAll`. */
module H4Stream {
  import opened Bytes

  const H4_CMD: byte := 0x01
  const H4_ACL: byte := 0x02
  const H4_EVT: byte := 0x04
  const H4_ISO: byte := 0x05

  /** A delivered packet: its H4 indicator and its header followed by its payload. */
  datatype Packet = Packet(kind: byte, bytes: seq<byte>)

  /** Between packets, inside one with `got` buffered, or stopped by a failed
      assertion (no buffer left, or the packet outgrows its buffer). */
  datatype Phase = AwaitType | InPacket(kind: byte, got: seq<byte>) | Halted

  /** Receiver state: phase, buffers left in the pool, packets delivered so far. */
  datatype Rx = Rx(phase: Phase, free: nat, out: seq<Packet>)

  predicate RxType(kind: byte) {
    kind == H4_CMD || kind == H4_ACL || kind == H4_ISO
  }

  function HdrLen(kind: byte): nat {
    if kind == H4_CMD then 3
    else if kind == H4_ACL then 4
    else if kind == H4_EVT then 2
    else if kind == H4_ISO then 4
    else 0
  }

  function PldLen(kind: byte, hdr: seq<byte>): nat
    requires |hdr| >= HdrLen(kind)
  {
    if kind == H4_CMD then hdr[2]
    else if kind == H4_ACL || kind == H4_ISO then Le16(hdr[2], hdr[3])
    else 0
  }

  /** How many octets the packet is known to owe, given what has arrived of it. */
  function Owed(kind: byte, got: seq<byte>): nat {
    if |got| < HdrLen(kind) then HdrLen(kind) else HdrLen(kind) + PldLen(kind, got)
  }

  predicate Whole(kind: byte, got: seq<byte>) {
    |got| >= HdrLen(kind) && |got| == Owed(kind, got)
  }

  ghost predicate Valid(cap: nat, rx: Rx) {
    rx.phase.InPacket? ==>
      && RxType(rx.phase.kind)
      && |rx.phase.got| < Owed(rx.phase.kind, rx.phase.got)
      && |rx.phase.got| <= cap
  }

  /** What follows once the buffer of the packet in progress holds `got`. */
  function Settle(cap: nat, rx: Rx, kind: byte, got: seq<byte>): Rx {
    if |got| > cap then rx.(phase := Halted)
    else if Whole(kind, got) then rx.(phase := AwaitType, out := rx.out + [Packet(kind, got)])
    else rx.(phase := InPacket(kind, got))
  }

  function Feed(cap: nat, rx: Rx, b: byte): Rx {
    match rx.phase
    case AwaitType =>
      if !RxType(b) then rx
      else if rx.free == 0 then rx.(phase := Halted)
      else rx.(phase := InPacket(b, []), free := rx.free - 1)
    case InPacket(kind, got) => Settle(cap, rx, kind, got + [b])
    case Halted => rx
  }

  function FeedAll(cap: nat, rx: Rx, s: seq<byte>): Rx
    decreases s
  {
    if s == [] then rx else FeedAll(cap, Feed(cap, rx, s[0]), s[1..])
  }

  // ---------------------------------------------------------------- chunking

  lemma {:induction false} FeedAllConcat(cap: nat, rx: Rx, a: seq<byte>, b: seq<byte>)
    ensures FeedAll(cap, rx, a + b) == FeedAll(cap, FeedAll(cap, rx, a), b)
    decreases a
  {
    if a == [] {
      assert a + b == b;
    } else {
      assert (a + b)[1..] == a[1..] + b;
      FeedAllConcat(cap, Feed(cap, rx, a[0]), a[1..], b);
    }
  }

  lemma {:induction false} FeedAllHalted(cap: nat, rx: Rx, s: seq<byte>)
    requires rx.phase.Halted?
    ensures FeedAll(cap, rx, s) == rx
  {
    if s != [] { FeedAllHalted(cap, rx, s[1..]); }
  }

  lemma {:induction false} FeedAllValid(cap: nat, rx: Rx, s: seq<byte>)
    requires Valid(cap, rx)
    ensures Valid(cap, FeedAll(cap, rx, s))
    decreases s
  {
    if s != [] {
      FeedKeepsValid(cap, rx, s[0]);
      FeedAllValid(cap, Feed(cap, rx, s[0]), s[1..]);
    }
  }

  lemma FeedKeepsValid(cap: nat, rx: Rx, b: byte)
    requires Valid(cap, rx)
    ensures Valid(cap, Feed(cap, rx, b))
  {
    if rx.phase.InPacket? { OwedStable(rx.phase.kind, rx.phase.got, [b]); }
  }

  /** A longer prefix of the same packet owes the same, header by header. */
  lemma OwedStable(kind: byte, got: seq<byte>, more: seq<byte>)
    requires RxType(kind) && |got| < Owed(kind, got) && |got| + |more| <= Owed(kind, got)
    ensures |got| + |more| <= Owed(kind, got + more)
    ensures |got| + |more| < Owed(kind, got) ==>
              Owed(kind, got + more) == Owed(kind, got) && !Whole(kind, got + more)
  {}

  /** One bulk copy of at most the octets owed equals feeding them singly. */
  lemma {:induction false} FeedRun(cap: nat, rx: Rx, s: seq<byte>)
    requires Valid(cap, rx) && rx.phase.InPacket?
    requires 0 < |s| && |rx.phase.got| + |s| <= Owed(rx.phase.kind, rx.phase.got)
    ensures FeedAll(cap, rx, s) == Settle(cap, rx, rx.phase.kind, rx.phase.got + s)
    decreases s
  {
    var kind, got := rx.phase.kind, rx.phase.got;
    var next := Feed(cap, rx, s[0]);
    if |s| == 1 {
      assert s == [s[0]];
      assert FeedAll(cap, next, s[1..]) == next;
    } else {
      OwedStable(kind, got, [s[0]]);
      if |got| + 1 > cap {
        FeedAllHalted(cap, next, s[1..]);
      } else {
        assert (got + [s[0]]) + s[1..] == got + s;
        FeedRun(cap, next, s[1..]);
      }
    }
  }

  function Flatten(chunks: seq<seq<byte>>): seq<byte> {
    if chunks == [] then [] else chunks[0] + Flatten(chunks[1..])
  }

  function FeedChunks(cap: nat, rx: Rx, chunks: seq<seq<byte>>): Rx
    decreases chunks
  {
    if chunks == [] then rx else FeedChunks(cap, FeedAll(cap, rx, chunks[0]), chunks[1..])
  }

  // ------------------------------------------------------ whole-stream parser

  /** Parses a stream that starts between packets by slicing whole packets off it. */
  function Parse(cap: nat, rx: Rx, s: seq<byte>): Rx
    requires rx.phase == AwaitType
    decreases |s|
  {
    if s == [] then rx
    else if !RxType(s[0]) then Parse(cap, rx, s[1..])
    else if rx.free == 0 then rx.(phase := Halted)
    else
      var kind, body, taken := s[0], s[1..], rx.(free := rx.free - 1);
      var n := Min(|body|, Owed(kind, body));
      if n > cap then taken.(phase := Halted)
      else if Whole(kind, body[..n]) then
        Parse(cap, taken.(out := rx.out + [Packet(kind, body[..n])]), body[n..])
      else taken.(phase := InPacket(kind, body))
  }

  /** The octet-at-a-time receiver computes the whole-stream parse. */
  lemma {:induction false} FeedIsParse(cap: nat, rx: Rx, s: seq<byte>)
    requires rx.phase == AwaitType
    ensures FeedAll(cap, rx, s) == Parse(cap, rx, s)
    decreases |s|
  {
    if s == [] {
    } else if !RxType(s[0]) {
      FeedIsParse(cap, rx, s[1..]);
    } else if rx.free == 0 {
      FeedAllHalted(cap, Feed(cap, rx, s[0]), s[1..]);
    } else {
      var kind, body := s[0], s[1..];
      var n := Min(|body|, Owed(kind, body));
      var started := rx.(free := rx.free - 1, phase := InPacket(kind, []));
      assert Feed(cap, rx, kind) == started;
      FeedPacket(cap, started, body);
      var stopped := FeedAll(cap, started, body[..n]);
      assert body == body[..n] + body[n..];
      FeedAllConcat(cap, started, body[..n], body[n..]);
      if n > cap {
        FeedAllHalted(cap, stopped, body[n..]);
      } else if Whole(kind, body[..n]) {
        FeedIsParse(cap, stopped, body[n..]);
      } else {
        assert n == |body| && body[..n] == body && body[n..] == [];
      }
    }
  }

  /** From a freshly allocated buffer, everything the packet owes is one `Settle`. */
  lemma FeedPacket(cap: nat, started: Rx, body: seq<byte>)
    requires started.phase.InPacket? && started.phase.got == [] && RxType(started.phase.kind)
    ensures var n := Min(|body|, Owed(started.phase.kind, body));
            FeedAll(cap, started, body[..n]) ==
              if n == 0 then started else Settle(cap, started, started.phase.kind, body[..n])
  {
    var kind := started.phase.kind;
    var h := HdrLen(kind);
    var n := Min(|body|, Owed(kind, body));
    if n == 0 {
      assert body[..n] == [];
    } else if n <= h {
      assert [] + body[..n] == body[..n];
      FeedRun(cap, started, body[..n]);
    } else {
      OwedByHeader(kind, body, n);
      FeedBeyondHeader(cap, started, body[..h], body[h..n]);
      assert body[..n] == body[..h] + body[h..n];
    }
  }

  lemma FeedBeyondHeader(cap: nat, started: Rx, hdr: seq<byte>, pld: seq<byte>)
    requires started.phase.InPacket? && started.phase.got == [] && RxType(started.phase.kind)
    requires |hdr| == HdrLen(started.phase.kind) && 0 < |pld| <= PldLen(started.phase.kind, hdr)
    ensures FeedAll(cap, started, hdr + pld) == Settle(cap, started, started.phase.kind, hdr + pld)
  {
    assert [] + hdr == hdr;
    FeedRun(cap, started, hdr);
    FeedAllConcat(cap, started, hdr, pld);
    if |hdr| > cap {
      FeedAllHalted(cap, FeedAll(cap, started, hdr), pld);
    } else {
      FeedRun(cap, FeedAll(cap, started, hdr), pld);
    }
  }

  /** Once the header is in, it alone fixes what the packet owes. */
  lemma OwedByHeader(kind: byte, body: seq<byte>, n: nat)
    requires RxType(kind) && HdrLen(kind) < n <= |body| && n <= Owed(kind, body)
    ensures Owed(kind, body[..HdrLen(kind)]) == Owed(kind, body)
    ensures !Whole(kind, body[..HdrLen(kind)])
  {}

  /** However the stream is cut into reads, the result is that of the whole-stream parser. */
  lemma {:induction false} ChunkIndependence(cap: nat, rx: Rx, chunks: seq<seq<byte>>)
    ensures FeedChunks(cap, rx, chunks) == FeedAll(cap, rx, Flatten(chunks))
    ensures rx.phase == AwaitType ==> FeedChunks(cap, rx, chunks) == Parse(cap, rx, Flatten(chunks))
    decreases chunks
  {
    if chunks != [] {
      ChunkIndependence(cap, FeedAll(cap, rx, chunks[0]), chunks[1..]);
      FeedAllConcat(cap, rx, chunks[0], Flatten(chunks[1..]));
    }
    if rx.phase == AwaitType { FeedIsParse(cap, rx, Flatten(chunks)); }
  }

  // ------------------------------------------------------------- round trips

  /** A stray octet between packets, or a packet. */
  datatype Item = Noise(b: byte) | Pkt(p: Packet)

  /** The octets `hci_uart_write` puts on the wire after its private buffer pointer. */
  function Frame(kind: byte, hdr: seq<byte>, pld: seq<byte>): seq<byte> {
    [kind] + hdr + pld
  }

  function Wire(item: Item): seq<byte> {
    if item.Noise? then [item.b] else [item.p.kind] + item.p.bytes
  }

  function Encode(items: seq<Item>): seq<byte> {
    if items == [] then [] else Wire(items[0]) + Encode(items[1..])
  }

  function Packets(items: seq<Item>): seq<Packet> {
    if items == [] then []
    else (if items[0].Pkt? then [items[0].p] else []) + Packets(items[1..])
  }

  predicate WellFormed(item: Item) {
    if item.Noise? then !RxType(item.b) else RxType(item.p.kind) && Whole(item.p.kind, item.p.bytes)
  }

  predicate AllWellFormed(items: seq<Item>) {
    items == [] || (WellFormed(items[0]) && AllWellFormed(items[1..]))
  }

  predicate Fits(cap: nat, ps: seq<Packet>) {
    ps == [] || (|ps[0].bytes| <= cap && Fits(cap, ps[1..]))
  }

  /** The serialiser's header and payload make a well-formed item when the header
      announces the payload's length. */
  lemma FrameIsWire(kind: byte, hdr: seq<byte>, pld: seq<byte>)
    requires RxType(kind) && |hdr| == HdrLen(kind) && PldLen(kind, hdr) == |pld|
    ensures WellFormed(Pkt(Packet(kind, hdr + pld)))
    ensures Wire(Pkt(Packet(kind, hdr + pld))) == Frame(kind, hdr, pld)
  {
    assert [kind] + (hdr + pld) == [kind] + hdr + pld;
  }

  /** Receiving one well-formed packet: it needs a buffer, and a buffer long enough. */
  lemma FeedOne(cap: nat, rx: Rx, p: Packet, rest: seq<byte>)
    requires rx.phase == AwaitType && WellFormed(Pkt(p))
    ensures var s := [p.kind] + p.bytes + rest;
            if rx.free == 0 || |p.bytes| > cap then FeedAll(cap, rx, s).phase.Halted?
            else FeedAll(cap, rx, s) == FeedAll(cap, Rx(AwaitType, rx.free - 1, rx.out + [p]), rest)
  {
    var s := [p.kind] + p.bytes + rest;
    assert s[1..] == p.bytes + rest;
    var next := Feed(cap, rx, p.kind);
    if rx.free == 0 {
      FeedAllHalted(cap, next, p.bytes + rest);
    } else {
      assert p.bytes[..|p.bytes|] == p.bytes;
      FeedPacket(cap, next, p.bytes);
      FeedAllConcat(cap, next, p.bytes, rest);
      if |p.bytes| > cap { FeedAllHalted(cap, FeedAll(cap, next, p.bytes), rest); }
    }
  }

  /** Every encoded stream is received exactly, between packets again at its end, unless
      it holds more packets than free buffers or one too long for its buffer; in each of
      those cases, and only then, the receiver halts. */
  lemma {:induction false} RoundTrip(cap: nat, rx: Rx, items: seq<Item>)
    requires rx.phase == AwaitType && AllWellFormed(items)
    ensures var ps, end := Packets(items), FeedAll(cap, rx, Encode(items));
            && (end.phase.Halted? <==> |ps| > rx.free || !Fits(cap, ps))
            && (!end.phase.Halted? ==> end == Rx(AwaitType, rx.free - |ps|, rx.out + ps))
    decreases items
  {
    if items == [] {
    } else if items[0].Noise? {
      NoiseSkipped(cap, rx, items[0].b, Encode(items[1..]));
      RoundTrip(cap, rx, items[1..]);
      assert Packets(items) == Packets(items[1..]);
    } else {
      var p, more := items[0].p, Packets(items[1..]);
      FeedOne(cap, rx, p, Encode(items[1..]));
      assert Packets(items) == [p] + more && Packets(items)[1..] == more;
      if rx.free > 0 && |p.bytes| <= cap {
        RoundTrip(cap, Rx(AwaitType, rx.free - 1, rx.out + [p]), items[1..]);
        assert (rx.out + [p]) + more == rx.out + Packets(items);
      }
    }
  }

  lemma NoiseSkipped(cap: nat, rx: Rx, b: byte, rest: seq<byte>)
    requires rx.phase == AwaitType && !RxType(b)
    ensures FeedAll(cap, rx, [b] + rest) == FeedAll(cap, rx, rest)
  {
    assert ([b] + rest)[1..] == rest;
  }

  /** The same however the encoded stream is cut into reads. */
  lemma ChunkedRoundTrip(cap: nat, free: nat, chunks: seq<seq<byte>>, items: seq<Item>)
    requires AllWellFormed(items) && Flatten(chunks) == Encode(items)
    requires |Packets(items)| <= free && Fits(cap, Packets(items))
    ensures FeedChunks(cap, Rx(AwaitType, free, []), chunks) == Rx(AwaitType, free - |Packets(items)|, Packets(items))
  {
    ChunkIndependence(cap, Rx(AwaitType, free, []), chunks);
    RoundTrip(cap, Rx(AwaitType, free, []), items);
    assert [] + Packets(items) == Packets(items);
  }

  function Pending(phase: Phase): seq<byte> {
    if phase.InPacket? then [phase.kind] + phase.got else []
  }

  /** Nothing is lost or invented: a received stream is, octet for octet, an encoding of
      the packets delivered and the noise skipped, followed by the packet in progress. */
  lemma {:induction false} Lossless(cap: nat, rx: Rx, s: seq<byte>)
    requires rx.phase == AwaitType && !FeedAll(cap, rx, s).phase.Halted?
    ensures exists items :: Explains(rx.out, items, s, FeedAll(cap, rx, s))
    decreases |s|
  {
    if s == [] {
      assert rx.out + Packets([]) == rx.out;
      assert Explains(rx.out, [], s, rx);
    } else {
      var n := |s| - 1;
      assert s == s[..n] + [s[n]];
      FeedAllConcat(cap, rx, s[..n], [s[n]]);
      var before := FeedAll(cap, rx, s[..n]);
      assert FeedAll(cap, before, [s[n]]) == Feed(cap, before, s[n]);
      FeedAllValid(cap, rx, s[..n]);
      Lossless(cap, rx, s[..n]);
      var items :| Explains(rx.out, items, s[..n], before);
      ExplainOneMore(cap, rx.out, items, s[..n], before, s[n]);
    }
  }

  /** `items` and the packet in progress account for every octet of `s`. */
  ghost predicate Explains(earlier: seq<Packet>, items: seq<Item>, s: seq<byte>, rx: Rx) {
    AllWellFormed(items) && rx.out == earlier + Packets(items) && s == Encode(items) + Pending(rx.phase)
  }

  lemma ExplainOneMore(cap: nat, earlier: seq<Packet>, items: seq<Item>, s: seq<byte>, rx: Rx, b: byte)
    requires Explains(earlier, items, s, rx) && Valid(cap, rx) && !Feed(cap, rx, b).phase.Halted?
    ensures exists more :: Explains(earlier, more, s + [b], Feed(cap, rx, b))
  {
    var next := Feed(cap, rx, b);
    if next.phase.InPacket? {
      PendingGrows(cap, rx, b);
      Assoc(Encode(items), Pending(rx.phase), [b]);
      assert Explains(earlier, items, s + [b], next);
    } else {
      var item := Ended(rx.phase, b);
      ItemEnds(cap, rx, b);
      SnocItem(items, item);
      Assoc(Encode(items), Pending(rx.phase), [b]);
      Assoc(earlier, Packets(items), if item.Pkt? then [item.p] else []);
      assert Encode(items + [item]) + [] == Encode(items + [item]);
      assert Explains(earlier, items + [item], s + [b], next);
    }
  }

  lemma PendingGrows(cap: nat, rx: Rx, b: byte)
    requires Valid(cap, rx) && Feed(cap, rx, b).phase.InPacket?
    ensures Pending(Feed(cap, rx, b).phase) == Pending(rx.phase) + [b] && Feed(cap, rx, b).out == rx.out
  {}

  /** What an octet ends that leaves the receiver between packets: a packet, or itself. */
  function Ended(phase: Phase, b: byte): Item {
    if phase.InPacket? then Pkt(Packet(phase.kind, phase.got + [b])) else Noise(b)
  }

  lemma ItemEnds(cap: nat, rx: Rx, b: byte)
    requires Valid(cap, rx) && Feed(cap, rx, b).phase.AwaitType?
    ensures var item := Ended(rx.phase, b);
            && WellFormed(item) && Wire(item) == Pending(rx.phase) + [b]
            && Feed(cap, rx, b).out == rx.out + if item.Pkt? then [item.p] else []
  {}

  lemma {:induction false} SnocItem(items: seq<Item>, item: Item)
    ensures Encode(items + [item]) == Encode(items) + Wire(item)
    ensures Packets(items + [item]) == Packets(items) + if item.Pkt? then [item.p] else []
    ensures AllWellFormed(items + [item]) <==> AllWellFormed(items) && WellFormed(item)
    decreases items
  {
    if items == [] {
      assert [] + [item] == [item] && [item][1..] == [];
    } else {
      assert (items + [item])[1..] == items[1..] + [item];
      SnocItem(items[1..], item);
    }
  }

  /** The stream determines its packets: two well-formed encodings with the same octets
      carry the same packets. */
  lemma UniqueDecoding(a: seq<Item>, b: seq<Item>)
    requires AllWellFormed(a)
    requires AllWellFormed(b)
    requires Encode(a) == Encode(b)
    ensures Packets(a) == Packets(b)
  {
    var cap := TotalLen(Packets(a)) + TotalLen(Packets(b));
    TotalFits(cap, Packets(a));
    TotalFits(cap, Packets(b));
    var rx := Rx(AwaitType, |Packets(a)| + |Packets(b)|, []);
    RoundTrip(cap, rx, a);
    RoundTrip(cap, rx, b);
    assert rx.out + Packets(a) == Packets(a) && rx.out + Packets(b) == Packets(b);
  }

  ghost function TotalLen(ps: seq<Packet>): nat {
    if ps == [] then 0 else |ps[0].bytes| + TotalLen(ps[1..])
  }

  lemma {:induction false} TotalFits(cap: nat, ps: seq<Packet>)
    requires cap >= TotalLen(ps)
    ensures Fits(cap, ps)
  {
    if ps != [] {
      TotalFits(cap, ps[1..]);
    }
  }

  // ------------------------------------------------------ the buffer pool

  function Held(phase: Phase): nat {
    if phase.InPacket? then 1 else 0
  }

  /** Every buffer taken from the pool is either in the parser or was delivered once. */
  lemma {:induction false} PoolAccount(cap: nat, rx: Rx, s: seq<byte>)
    requires !FeedAll(cap, rx, s).phase.Halted?
    ensures var end := FeedAll(cap, rx, s);
            end.free + |end.out| + Held(end.phase) == rx.free + |rx.out| + Held(rx.phase)
    decreases s
  {
    if s != [] {
      if Feed(cap, rx, s[0]).phase.Halted? { FeedAllHalted(cap, Feed(cap, rx, s[0]), s[1..]); }
      PoolAccount(cap, Feed(cap, rx, s[0]), s[1..]);
    }
  }

  /** Spare buffers change nothing but the number left over. */
  lemma {:induction false} PoolIrrelevant(cap: nat, rx: Rx, more: nat, s: seq<byte>)
    requires !FeedAll(cap, rx, s).phase.Halted?
    ensures var end := FeedAll(cap, rx, s);
            FeedAll(cap, rx.(free := rx.free + more), s) == end.(free := end.free + more)
    decreases s
  {
    if s != [] {
      var next := Feed(cap, rx, s[0]);
      if next.phase.Halted? { FeedAllHalted(cap, next, s[1..]); }
      PoolIrrelevant(cap, next, more, s[1..]);
    }
  }

  /** As many buffers as octets are always enough. */
  lemma {:induction false} PoolSuffices(cap: nat, rx: Rx, more: nat, s: seq<byte>)
    requires rx.free >= |s| && !FeedAll(cap, rx.(free := rx.free + more), s).phase.Halted?
    ensures !FeedAll(cap, rx, s).phase.Halted?
    decreases s
  {
    if s != [] {
      var rich := rx.(free := rx.free + more);
      if Feed(cap, rich, s[0]).phase.Halted? { FeedAllHalted(cap, Feed(cap, rich, s[0]), s[1..]); }
      PoolSuffices(cap, Feed(cap, rx, s[0]), more, s[1..]);
    }
  }

  /** The packets of a stream, whatever the pool: the parse with one buffer per octet. */
  function StreamPackets(cap: nat, s: seq<byte>): seq<Packet> {
    Parse(cap, Rx(AwaitType, |s|, []), s).out
  }

  lemma PacketsOfStream(cap: nat, free: nat, s: seq<byte>)
    requires !FeedAll(cap, Rx(AwaitType, free, []), s).phase.Halted?
    ensures FeedAll(cap, Rx(AwaitType, free, []), s).out == StreamPackets(cap, s)
  {
    var enough := Rx(AwaitType, |s|, []);
    PoolIrrelevant(cap, Rx(AwaitType, free, []), |s|, s);
    PoolSuffices(cap, enough, free, s);
    PoolIrrelevant(cap, enough, free, s);
    FeedIsParse(cap, enough, s);
  }

  /** What was delivered before a read stays; the read only adds behind it. */
  lemma {:induction false} OutGrows(cap: nat, rx: Rx, earlier: seq<Packet>, s: seq<byte>)
    ensures var end := FeedAll(cap, rx, s);
            FeedAll(cap, rx.(out := earlier + rx.out), s) == end.(out := earlier + end.out)
    decreases s
  {
    if s != [] {
      var next := Feed(cap, rx, s[0]);
      OutGrows(cap, next, earlier, s[1..]);
      if next.out != rx.out {
        assert next.out == rx.out + [next.out[|rx.out|]];
        assert (earlier + rx.out) + [next.out[|rx.out|]] == earlier + next.out;
      }
      assert Feed(cap, rx.(out := earlier + rx.out), s[0]) == next.(out := earlier + next.out);
    }
  }

  // ----------------------------------------------------- when it halts

  /** Packets begun so far: delivered ones and the one in progress. */
  function Begun(rx: Rx): nat { |rx.out| + Held(rx.phase) }

  /** Every packet, the one in progress included, fits a buffer of `cap` octets. */
  ghost predicate AllFit(cap: nat, rx: Rx) {
    && (forall k :: 0 <= k < |rx.out| ==> |rx.out[k].bytes| <= cap)
    && (rx.phase.InPacket? ==> |rx.phase.got| <= cap)
  }

  /** Unlimited resources: as many buffers as octets, each as long as the stream. */
  function Unlimited(s: seq<byte>): Rx { Parse(|s|, Rx(AwaitType, |s|, []), s) }

  /** Same place in the stream, with resources enough for `n` more octets. */
  ghost predicate Ample(big: nat, rich: Rx, rx: Rx, n: nat) {
    && rich.phase == rx.phase && rich.out == rx.out && !rx.phase.Halted?
    && rich.free >= n && big >= n + if rx.phase.InPacket? then |rx.phase.got| else 0
  }

  /** Octets only add packets, and only lengthen the one in progress. */
  lemma {:induction false} FeedOnlyAdds(cap: nat, big: nat, rich: Rx, s: seq<byte>)
    ensures var end := FeedAll(big, rich, s);
            && rich.out <= end.out && (!end.phase.Halted? ==> Begun(rich) <= Begun(end))
            && (!end.phase.Halted? && !AllFit(cap, rich) ==> !AllFit(cap, end))
    decreases s
  {
    if s != [] {
      var next := Feed(big, rich, s[0]);
      FeedOnlyAdds(cap, big, next, s[1..]);
      if next.phase.Halted? { FeedAllHalted(big, next, s[1..]); }
      FeedAdds(cap, big, rich, s[0]);
    }
  }

  lemma FeedAdds(cap: nat, big: nat, rich: Rx, b: byte)
    ensures var next := Feed(big, rich, b);
            && rich.out <= next.out && (!next.phase.Halted? ==> Begun(rich) <= Begun(next))
            && (!next.phase.Halted? && !AllFit(cap, rich) ==> !AllFit(cap, next))
  {
    var next := Feed(big, rich, b);
    if !AllFit(cap, rich) && (exists k :: 0 <= k < |rich.out| && |rich.out[k].bytes| > cap) {
      var k :| 0 <= k < |rich.out| && |rich.out[k].bytes| > cap;
      assert next.out[k] == rich.out[k];
    } else if rich.phase.InPacket? && |rich.phase.got| > cap && next.phase.AwaitType? {
      assert |next.out[|rich.out|].bytes| > cap;
    }
  }

  /** A receiver halts on a stream exactly when unlimited resources would let it begin more
      packets than it has buffers for, or receive one longer than its buffers. */
  lemma {:induction false} HaltsExactly(cap: nat, rx: Rx, big: nat, rich: Rx, s: seq<byte>)
    requires Valid(cap, rx) && AllFit(cap, rx) && Ample(big, rich, rx, |s|)
    ensures var end := FeedAll(big, rich, s);
            && !end.phase.Halted?
            && (FeedAll(cap, rx, s).phase.Halted? <==> Begun(end) > Begun(rx) + rx.free || !AllFit(cap, end))
            && (!FeedAll(cap, rx, s).phase.Halted? ==>
                  FeedAll(cap, rx, s).out == end.out && FeedAll(cap, rx, s).phase == end.phase)
    decreases s
  {
    if s != [] {
      var next, more := Feed(cap, rx, s[0]), Feed(big, rich, s[0]);
      StaysAmple(cap, rx, big, rich, s[0], |s|);
      if next.phase.Halted? {
        NeverHalts(big, more, s[1..]);
        FeedAllHalted(cap, next, s[1..]);
        FeedOnlyAdds(cap, big, more, s[1..]);
      } else {
        FeedKeepsValid(cap, rx, s[0]);
        HaltsExactly(cap, next, big, more, s[1..]);
      }
    }
  }

  lemma StaysAmple(cap: nat, rx: Rx, big: nat, rich: Rx, b: byte, n: nat)
    requires n > 0 && Valid(cap, rx) && AllFit(cap, rx) && Ample(big, rich, rx, n)
    ensures var next, more := Feed(cap, rx, b), Feed(big, rich, b);
            && Ample(big, more, more, n - 1)
            && (if next.phase.Halted? then Begun(more) > Begun(rx) + rx.free || !AllFit(cap, more)
                else Ample(big, more, next, n - 1) && AllFit(cap, next) && Begun(next) + next.free == Begun(rx) + rx.free)
  {
    var next, more := Feed(cap, rx, b), Feed(big, rich, b);
    if rx.phase.InPacket? && |rx.phase.got| + 1 > cap && more.phase.AwaitType? {
      assert |more.out[|rx.out|].bytes| > cap;
    }
  }

  lemma {:induction false} NeverHalts(big: nat, rich: Rx, s: seq<byte>)
    requires Ample(big, rich, rich, |s|)
    ensures !FeedAll(big, rich, s).phase.Halted?
    decreases s
  {
    if s != [] { NeverHalts(big, Feed(big, rich, s[0]), s[1..]); }
  }

  /** From a fresh start, in terms of the whole-stream parse alone. */
  lemma StreamHaltsExactly(cap: nat, free: nat, s: seq<byte>)
    ensures FeedAll(cap, Rx(AwaitType, free, []), s).phase.Halted? <==>
              Begun(Unlimited(s)) > free || !AllFit(cap, Unlimited(s))
    ensures !FeedAll(cap, Rx(AwaitType, free, []), s).phase.Halted? ==>
              FeedAll(cap, Rx(AwaitType, free, []), s).out == Unlimited(s).out
  {
    var rx, rich := Rx(AwaitType, free, []), Rx(AwaitType, |s|, []);
    HaltsExactly(cap, rx, |s|, rich, s);
    FeedIsParse(|s|, rich, s);
  }

  /** The standard gives an ISO packet's length 14 bits; the upper two of the field are
      reserved. This receiver takes all 16: it reads the standard's length exactly when the
      reserved bits are clear. */
  lemma IsoLength(hdr: seq<byte>)
    requires |hdr| >= 4
    ensures PldLen(H4_ISO, hdr) == Le16(hdr[2], hdr[3]) % 0x4000 <==> hdr[3] < 0x40
  {
    var n := Le16(hdr[2], hdr[3]);
    if hdr[3] >= 0x40 { assert n >= 0x4000; } else { assert n < 0x4000; }
  }

  // ------------------------------------------------------ the host's writer

  /** A packet as a host knows it. */
  datatype HostPacket =
    | HostCommand(opcode: uint16, params: seq<byte>)
    | HostAcl(handle: uint16, data: seq<byte>)
    | HostIso(handle: uint16, data: seq<byte>)

  predicate Sendable(p: HostPacket) {
    if p.HostCommand? then |p.params| < 0x100 else |p.data| < 0x1_0000
  }

  /** Its octets on the wire: indicator, then the layouts of Vol 4 Part E sections 5.4.1,
      5.4.2 and 5.4.5, every number with its low octet first. */
  function Written(p: HostPacket): seq<byte>
    requires Sendable(p)
  {
    match p
    case HostCommand(op, params) => [0x01, op % 0x100, op / 0x100, |params|] + params
    case HostAcl(h, data) => [0x02, h % 0x100, h / 0x100, |data| % 0x100, |data| / 0x100] + data
    case HostIso(h, data) => [0x05, h % 0x100, h / 0x100, |data| % 0x100, |data| / 0x100] + data
  }

  function AsItem(p: HostPacket): Item
    requires Sendable(p)
  {
    Pkt(Packet(Written(p)[0], Written(p)[1..]))
  }

  /** What a host writes is a well-formed packet with those octets, and so (`RoundTrip`) is
      received exactly; stray octets are all but the three indicators. */
  lemma HostWellFormed(p: HostPacket)
    requires Sendable(p)
    ensures WellFormed(AsItem(p)) && Wire(AsItem(p)) == Written(p)
  {
    var body := Written(p)[1..];
    match p {
      case HostCommand(_, params) => assert |body| == 3 + |params| && body[2] == |params|;
      case HostAcl(_, data) => assert |body| == 4 + |data| && Le16(body[2], body[3]) == |data|;
      case HostIso(_, data) => assert |body| == 4 + |data| && Le16(body[2], body[3]) == |data|;
    }
  }

  lemma StrayExactly(b: byte)
    ensures WellFormed(Noise(b)) <==> b != 1 && b != 2 && b != 5
  {}

  lemma HeaderLengths(kind: byte)
    ensures HdrLen(kind) == if kind == 1 then 3 else if kind == 2 || kind == 5 then 4 else if kind == 4 then 2 else 0
  {}
}
