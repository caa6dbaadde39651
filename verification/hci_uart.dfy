/** The HCI UART transport (src/transport/hci_uart.c) over its static receive buffers:
    the incremental H4 framer, the queue it delivers to, and the frame writer. A failed
    assertion stops the framer: `halted` is set and nothing later changes its state. */
module HciUartTransport {
  import opened Bytes
  import opened H4Stream
  import opened HciCommands

  datatype H4State = S_TYPE | S_HEADER | S_PAYLOAD

  /** The bookkeeping part of a network buffer: octets used, and the H4 type as user data. */
  datatype BufMeta = BufMeta(len: nat, kind: byte)

  datatype Owner = Pool | Queue | Framer | Consumer

  /** `image` is the memory's contents, a row per buffer. */
  ghost predicate ImageOf(mem: array2<byte>, image: seq<seq<byte>>)
    reads mem
  {
    && |image| == mem.Length0
    && (forall i :: 0 <= i < mem.Length0 ==> |image[i]| == mem.Length1)
    && (forall i, j :: 0 <= i < mem.Length0 && 0 <= j < mem.Length1 ==> mem[i, j] == image[i][j])
  }

  /** The octets a buffer has received, as a packet. */
  ghost function Content(meta: seq<BufMeta>, image: seq<seq<byte>>, i: nat): Packet
    requires i < |meta| && i < |image| && meta[i].len <= |image[i]|
  {
    Packet(meta[i].kind, image[i][..meta[i].len])
  }

  ghost predicate Sized(meta: seq<BufMeta>, image: seq<seq<byte>>, size: nat) {
    |meta| == |image| && forall i :: 0 <= i < |meta| ==> meta[i].len <= size == |image[i]|
  }

  /** `queued` is what the buffers in `queue` hold. */
  ghost predicate Matches(meta: seq<BufMeta>, image: seq<seq<byte>>, queue: seq<nat>, queued: seq<Packet>)
    requires exists size :: Sized(meta, image, size)
  {
    && |queued| == |queue|
    && forall k :: 0 <= k < |queue| ==> queue[k] < |meta| && queued[k] == Content(meta, image, queue[k])
  }

  predicate Distinct(s: seq<nat>) {
    forall i, j :: 0 <= i < j < |s| ==> s[i] != s[j]
  }

  function Count(owner: seq<Owner>, o: Owner): nat {
    if owner == [] then 0
    else Count(owner[..|owner| - 1], o) + if owner[|owner| - 1] == o then 1 else 0
  }

  /** `list` holds exactly the buffers `o` owns: distinct ones, all its own, and as many. */
  ghost predicate Lists(owner: seq<Owner>, o: Owner, list: seq<nat>) {
    && Distinct(list) && |list| == Count(owner, o)
    && (forall k :: 0 <= k < |list| ==> list[k] < |owner| && owner[list[k]] == o)
  }

  lemma {:induction false} CountUpdate(owner: seq<Owner>, i: nat, to: Owner, o: Owner)
    requires i < |owner|
    ensures Count(owner[i := to], o) ==
            Count(owner, o) - (if owner[i] == o then 1 else 0) + (if to == o then 1 else 0)
    decreases |owner|
  {
    var n := |owner| - 1;
    if i == n {
      assert owner[i := to][..n] == owner[..n];
    } else {
      assert owner[i := to][..n] == owner[..n][i := to];
      CountUpdate(owner[..n], i, to, o);
    }
  }

  /** The four owners share out the whole pool. */
  lemma {:induction false} OwnersAddUp(owner: seq<Owner>)
    ensures Count(owner, Pool) + Count(owner, Queue) + Count(owner, Framer) + Count(owner, Consumer) == |owner|
  {
    if owner != [] { OwnersAddUp(owner[..|owner| - 1]); }
  }

  lemma {:induction false} DistinctBound(owner: seq<Owner>, o: Owner, list: seq<nat>)
    requires Distinct(list) && forall k :: 0 <= k < |list| ==> list[k] < |owner| && owner[list[k]] == o
    ensures |list| <= Count(owner, o)
    decreases |list|
  {
    if list != [] {
      var x, rest := list[|list| - 1], list[..|list| - 1];
      var other := if o == Pool then Queue else Pool;
      CountUpdate(owner, x, other, o);
      DistinctBound(owner[x := other], o, rest);
    }
  }

  /** Every buffer an owner has is in its list: no buffer is ever mislaid. */
  lemma ListsComplete(owner: seq<Owner>, o: Owner, list: seq<nat>, i: nat)
    requires Lists(owner, o, list) && i < |owner|
    ensures i in list <==> owner[i] == o
  {
    if owner[i] == o && i !in list {
      DistinctBound(owner, o, list + [i]);
    }
  }

  lemma ListsPop(owner: seq<Owner>, o: Owner, list: seq<nat>, other: Owner)
    requires Lists(owner, o, list) && list != [] && other != o
    ensures Lists(owner[list[0] := other], o, list[1..])
  {
    CountUpdate(owner, list[0], other, o);
  }

  lemma ListsPush(owner: seq<Owner>, o: Owner, list: seq<nat>, i: nat)
    requires Lists(owner, o, list) && i < |owner| && owner[i] != o
    ensures Lists(owner[i := o], o, list + [i])
  {
    CountUpdate(owner, i, o, o);
  }

  lemma ListsOther(owner: seq<Owner>, o: Owner, list: seq<nat>, i: nat, other: Owner)
    requires Lists(owner, o, list) && i < |owner| && owner[i] != o && other != o
    ensures Lists(owner[i := other], o, list)
  {
    CountUpdate(owner, i, other, o);
  }

  lemma {:induction false} AllInPool(n: nat)
    ensures Count(seq(n, _ => Pool), Pool) == n
    ensures Count(seq(n, _ => Pool), Queue) == Count(seq(n, _ => Pool), Framer) == 0
  {
    if n > 0 {
      assert seq(n, _ => Pool)[..n - 1] == seq(n - 1, _ => Pool);
      AllInPool(n - 1);
    }
  }

  /** Buffers the consumer holds are as they were. */
  ghost predicate LentKept(owner: seq<Owner>, meta: seq<BufMeta>, image: seq<seq<byte>>,
                           owner': seq<Owner>, meta': seq<BufMeta>, image': seq<seq<byte>>)
  {
    && |owner| == |meta| == |image| == |owner'| == |meta'| == |image'|
    && (forall i :: 0 <= i < |owner| ==> (owner[i] == Consumer <==> owner'[i] == Consumer))
    && (forall i :: 0 <= i < |owner| && owner[i] == Consumer ==> meta'[i] == meta[i] && image'[i] == image[i])
  }

  lemma KeptButOne(owner: seq<Owner>, meta: seq<BufMeta>, image: seq<seq<byte>>, i: nat,
                   meta': seq<BufMeta>, image': seq<seq<byte>>)
    requires |owner| == |meta| == |image| == |meta'| == |image'| && i < |owner| && owner[i] != Consumer
    requires meta' == meta[i := meta'[i]] && image' == image[i := image'[i]]
    ensures LentKept(owner, meta, image, owner, meta', image')
  {}

  datatype LentBuf = NotLent | Lent(meta: BufMeta, memory: seq<byte>)

  /** Where a read of the stream leads: the receiver's state and the consumer's buffers. */
  datatype Outcome = Unsound | Outcome(rx: Rx, lending: seq<LentBuf>)

  /** What the consumer's buffers hold, buffer by buffer. */
  ghost function LentView(owner: seq<Owner>, meta: seq<BufMeta>, image: seq<seq<byte>>): seq<LentBuf>
    requires |owner| == |meta| == |image|
  {
    seq(|owner|, i requires 0 <= i < |owner| => if owner[i] == Consumer then Lent(meta[i], image[i]) else NotLent)
  }

  lemma KeptView(owner: seq<Owner>, meta: seq<BufMeta>, image: seq<seq<byte>>,
                 owner': seq<Owner>, meta': seq<BufMeta>, image': seq<seq<byte>>)
    requires LentKept(owner, meta, image, owner', meta', image')
    ensures LentView(owner', meta', image') == LentView(owner, meta, image)
  {}

  /** Feeding the octets of `data` from `pos` up to `end`. */
  ghost function FeedRange(cap: nat, rx: Rx, data: seq<byte>, pos: nat, end: nat): Rx
    requires pos <= end <= |data|
  {
    FeedAll(cap, rx, data[pos..end])
  }

  lemma FeedByte(cap: nat, rx: Rx, data: seq<byte>, pos: nat)
    requires pos < |data|
    ensures FeedAll(cap, rx, data[pos..pos + 1]) == Feed(cap, rx, data[pos])
  {
    assert data[pos..pos + 1] == [data[pos]];
    assert FeedAll(cap, Feed(cap, rx, data[pos]), []) == Feed(cap, rx, data[pos]);
  }

  lemma FeedSplit(cap: nat, rx: Rx, data: seq<byte>, pos: nat, mid: nat, end: nat)
    requires pos <= mid <= end <= |data|
    ensures FeedRange(cap, rx, data, pos, end) == FeedRange(cap, FeedAll(cap, rx, data[pos..mid]), data, mid, end)
  {
    assert data[pos..end] == data[pos..mid] + data[mid..end];
    FeedAllConcat(cap, rx, data[pos..mid], data[mid..end]);
  }

  lemma FeedNone(cap: nat, rx: Rx, data: seq<byte>, pos: nat, end: nat)
    requires pos <= end <= |data| && (pos == end || rx.phase.Halted?)
    ensures FeedRange(cap, rx, data, pos, end) == rx
  {
    if rx.phase.Halted? { FeedAllHalted(cap, rx, data[pos..end]); }
  }

  /** What reading some of what is owed amounts to, if the buffer then holds `got`. */
  lemma OwedRead(cap: nat, rx: Rx, s: seq<byte>, got: seq<byte>, halts: bool)
    requires H4Stream.Valid(cap, rx) && rx.phase.InPacket? && 0 < |s|
    requires |rx.phase.got| + |s| <= Owed(rx.phase.kind, rx.phase.got)
    requires halts <==> |rx.phase.got| + |s| > cap
    requires !halts ==> got == rx.phase.got + s
    ensures FeedAll(cap, rx, s) == if halts then rx.(phase := Halted) else Settle(cap, rx, rx.phase.kind, got)
  {
    FeedRun(cap, rx, s);
  }

  class HciUart {
    const count: nat
    const size: nat
    const mem: array2<byte>       // the receive buffers' memory, a row each

    var meta: seq<BufMeta>
    var free: seq<nat>            // pool of receive buffers
    var queue: seq<nat>           // delivered, not yet taken
    ghost var owner: seq<Owner>
    ghost var image: seq<seq<byte>> // what `mem` holds, row by row
    ghost var queued: seq<Packet> // what `queue` holds, packet by packet

    var state: H4State
    var buf: nat
    var kind: byte
    var rem: nat
    var halted: bool

    ghost predicate Sound() reads this, mem {
      && mem.Length0 == count == |meta| && mem.Length1 == size >= CMD_MEMORY
      && ImageOf(mem, image) && Sized(meta, image, size)
      && (state != S_TYPE ==> buf < count)
      && Matches(meta, image, queue, queued)
    }

    ghost function Held(): seq<nat> reads this {
      if state == S_TYPE then [] else [buf]
    }

    /** Every buffer is in exactly one place: pool, queue, framer or consumer. */
    ghost predicate Owned() reads this {
      |owner| == count && Lists(owner, Pool, free) && Lists(owner, Queue, queue) && Lists(owner, Framer, Held())
    }

    ghost function Got(): seq<byte>
      requires Sound() && state != S_TYPE
      reads this, mem
    {
      Content(meta, image, buf).bytes
    }

    /** Inside a packet something is still owed, and what is buffered plus what is owed is
        the length the type, or the type and header, announce. */
    ghost predicate Framing()
      requires Sound()
      reads this, mem
    {
      state != S_TYPE ==>
        && RxType(kind) && meta[buf].kind == kind
        && rem > 0
        && meta[buf].len + rem == Owed(kind, Got())
        && (state == S_HEADER <==> meta[buf].len < HdrLen(kind))
    }

    ghost predicate Valid() reads this, mem {
      Sound() && Owned() && (!halted ==> Framing())
    }

    ghost function CurrentPhase(): Phase
      requires Sound()
      reads this, mem
    {
      if halted then Halted else if state == S_TYPE then AwaitType else InPacket(kind, Got())
    }

    ghost function RxState(): Rx
      requires Sound()
      reads this, mem
    {
      Rx(CurrentPhase(), |free|, queued)
    }

    constructor (count: nat, size: nat)
      requires size >= CMD_MEMORY
      ensures Valid() && fresh(mem)
      ensures this.count == count && this.size == size
      ensures RxState() == Rx(AwaitType, count, []) && owner == seq(count, _ => Pool)
    {
      this.count, this.size := count, size;
      mem := new byte[count, size]((_, _) => 0);
      meta := seq(count, _ => BufMeta(0, 0));
      free := seq(count, i => i);
      queue, queued := [], [];
      image := seq(count, _ => seq(size, _ => 0));
      owner := seq(count, _ => Pool);
      state, buf, kind, rem, halted := S_TYPE, 0, 0, 0, false;
      new;
      assert forall i :: 0 <= i < count ==> free[i] == i;
      AllInPool(count);
    }

    /** Copies up to `reqLen` octets to the end of the current buffer. */
    method BufRead(src: seq<byte>, offset: nat, srcLen: nat, reqLen: nat) returns (len: nat)
      requires Sound() && !halted && state != S_TYPE && offset + srcLen <= |src| && buf !in queue
      modifies this`halted, this`meta, this`image, mem
      ensures Sound() && len == Min(reqLen, srcLen)
      ensures halted <==> old(meta[buf].len) + len > size
      ensures halted ==> meta == old(meta) && image == old(image)
      ensures !halted ==>
                && meta == old(meta)[buf := old(meta)[buf].(len := old(meta[buf].len) + len)]
                && image == old(image)[buf := image[buf]]
                && Got() == old(Got()) + src[offset..offset + len]
    {
      len := if reqLen > srcLen then srcLen else reqLen;
      var used := meta[buf].len;
      if size - used < len {
        halted := true;
        return;
      }
      CopyRow(used, src[offset..offset + len]);
      meta := meta[buf := meta[buf].(len := used + len)];
      assert Got() == old(Got()) + src[offset..offset + len];
    }

    /** `memcpy` into the current buffer. */
    method CopyRow(at: nat, src: seq<byte>)
      requires ImageOf(mem, image) && buf < mem.Length0 && at + |src| <= mem.Length1 == |image[buf]|
      modifies this`image, mem
      ensures ImageOf(mem, image)
      ensures image == old(image)[buf := old(image)[buf][..at] + src + old(image)[buf][at + |src|..]]
    {
      ghost var row := image[buf][..at] + src + image[buf][at + |src|..];
      forall j | at <= j < at + |src| { mem[buf, j] := src[j - at]; }
      image := image[buf := row];
      forall i, j | 0 <= i < mem.Length0 && 0 <= j < mem.Length1
        ensures mem[i, j] == image[i][j]
      {
        assert old(mem[i, j]) == old(image)[i][j];
        if i == buf { assert image[i] == row; }
      }
    }

    /** `net_buf_alloc`: an empty buffer from the pool, labelled with the packet type. */
    method Alloc()
      requires Sound() && Owned() && state == S_TYPE && free != []
      modifies this`free, this`owner, this`state, this`buf, this`meta
      ensures Sound() && Owned() && state == S_HEADER && |free| == old(|free|) - 1
      ensures meta[buf] == BufMeta(0, kind) && Got() == []
      ensures LentKept(old(owner), old(meta), old(image), owner, meta, image)
    {
      buf := free[0];
      ListsPop(owner, Pool, free, Framer);
      ListsOther(owner, Queue, queue, buf, Framer);
      ListsPush(owner, Framer, [], buf);
      free := free[1..];
      owner := owner[buf := Framer];
      meta := meta[buf := BufMeta(0, kind)];
      state := S_HEADER;
      assert Held() == [] + [buf];
    }

    /** The `S_TYPE` case of the framer. */
    method ReadType(b: byte)
      requires Valid() && !halted && state == S_TYPE
      modifies this`free, this`owner, this`state, this`buf, this`kind, this`rem, this`halted, this`meta
      ensures Valid() && RxState() == Feed(size, old(RxState()), b)
      ensures LentKept(old(owner), old(meta), old(image), owner, meta, image)
    {
      kind := b;
      if !RxType(kind) {
        return;
      }
      rem := HdrLen(kind);
      if |free| == 0 {
        halted := true;
        return;
      }
      Alloc();
    }

    /** What the header and payload cases share: copy what has come of what is owed. */
    method CopyOwed(data: seq<byte>, offset: nat, len: nat) returns (read: nat)
      requires Valid() && !halted && state != S_TYPE && 0 < len && offset + len <= |data|
      modifies this`rem, this`halted, this`meta, this`image, mem
      ensures Sound() && Owned() && LentKept(old(owner), old(meta), old(image), owner, meta, image) && 0 < read <= len
      ensures meta[buf].kind == kind
      ensures meta[buf].len + rem == Owed(kind, old(Got())) && old(meta[buf].len) <= meta[buf].len
      ensures var s := data[offset..offset + read];
              && (if halted then RxState() == FeedAll(size, old(RxState()), s)
                  else FeedAll(size, old(RxState()), s) == Settle(size, old(RxState()), kind, Got()))
              && (!halted ==> Got() == old(Got()) + s)
    {
      ghost var rx := RxState();
      read := Append(data, offset, len);
      OwedRead(size, rx, data[offset..offset + read], Got(), halted);
      if !halted {
        rem := rem - read;
      }
    }

    /** Reads into the framer's buffer, which is nobody else's. */
    method Append(data: seq<byte>, offset: nat, len: nat) returns (read: nat)
      requires Sound() && Owned() && !halted && state != S_TYPE && offset + len <= |data|
      modifies this`halted, this`meta, this`image, mem
      ensures Sound() && Owned() && LentKept(old(owner), old(meta), old(image), owner, meta, image)
      ensures read == Min(rem, len) && (halted <==> old(meta[buf].len) + read > size)
      ensures meta[buf] == if halted then old(meta[buf]) else old(meta[buf]).(len := old(meta[buf].len) + read)
      ensures Got() == if halted then old(Got()) else old(Got()) + data[offset..offset + read]
    {
      assert Held()[0] == buf && buf !in queue && owner[buf] == Framer;
      ghost var m, g := meta, image;
      read := BufRead(data, offset, len, rem);
      KeptButOne(owner, m, g, buf, meta, image);
    }

    /** `S_HEADER`: once the header is complete it fixes the payload still owed. */
    method ReadHeader(data: seq<byte>, offset: nat, len: nat) returns (read: nat)
      requires Valid() && !halted && state == S_HEADER && 0 < len && offset + len <= |data|
      modifies this`queue, this`queued, this`owner, this`state, this`rem, this`halted, this`meta, this`image, mem
      ensures Valid() && 0 < read <= len && LentKept(old(owner), old(meta), old(image), owner, meta, image)
      ensures RxState() == FeedAll(size, old(RxState()), data[offset..offset + read])
    {
      read := CopyOwed(data, offset, len);
      if !halted && rem == 0 {
        HeaderDone();
      }
    }

    method HeaderDone()
      requires Sound() && Owned() && !halted && state == S_HEADER && RxType(kind) && meta[buf].kind == kind
      requires meta[buf].len == HdrLen(kind)
      modifies this`queue, this`queued, this`owner, this`state, this`rem
      ensures Valid() && LentKept(old(owner), old(meta), old(image), owner, meta, image)
      ensures RxState() == Settle(size, old(RxState()), kind, old(Got()))
    {
      rem := PayloadLength();
      state := S_PAYLOAD;
      if rem == 0 {
        Deliver();
      }
    }

    method ReadPayload(data: seq<byte>, offset: nat, len: nat) returns (read: nat)
      requires Valid() && !halted && state == S_PAYLOAD && 0 < len && offset + len <= |data|
      modifies this`queue, this`queued, this`owner, this`state, this`rem, this`halted, this`meta, this`image, mem
      ensures Valid() && 0 < read <= len && LentKept(old(owner), old(meta), old(image), owner, meta, image)
      ensures RxState() == FeedAll(size, old(RxState()), data[offset..offset + read])
    {
      read := CopyOwed(data, offset, len);
      if !halted && rem == 0 {
        Deliver();
      }
    }

    /** Payload length announced by the header at the start of the current buffer. */
    method PayloadLength() returns (n: nat)
      requires Sound() && state != S_TYPE && HdrLen(kind) <= meta[buf].len
      ensures n == PldLen(kind, Got())
    {
      if kind == H4_CMD {
        n := mem[buf, 2];
      } else if kind == H4_ACL || kind == H4_ISO {
        n := Le16(mem[buf, 2], mem[buf, 3]);
      } else {
        n := 0;
      }
    }

    /** Hands the current buffer to the consumer's queue. */
    method Deliver()
      requires Sound() && !halted && Owned() && state != S_TYPE
      modifies this`queue, this`queued, this`owner, this`state
      ensures Valid() && state == S_TYPE && LentKept(old(owner), old(meta), old(image), owner, meta, image)
      ensures queued == old(queued) + [old(Content(meta, image, buf))]
    {
      assert Held()[0] == buf;
      ListsPush(owner, Queue, queue, buf);
      ListsOther(owner, Pool, free, buf, Queue);
      ListsPop(owner, Framer, Held(), Queue);
      queue := queue + [buf];
      queued := queued + [Content(meta, image, buf)];
      owner := owner[buf := Queue];
      state := S_TYPE;
    }

    /** What the consumer holds. */
    ghost function Lending(): seq<LentBuf>
      requires Sound() && Owned()
      reads this, mem
    {
      LentView(owner, meta, image)
    }

    /** One UART receive event: `len` octets of the DMA buffer from `offset`. */
    method H4Read(data: seq<byte>, offset: nat, len: nat)
      requires Valid() && offset + len <= |data|
      modifies this`free, this`queue, this`queued, this`owner, this`state, this`buf, this`kind,
               this`rem, this`halted, this`meta, this`image, mem
      ensures Valid() && Lending() == old(Lending())
      ensures RxState() == FeedAll(size, old(RxState()), data[offset..offset + len])
    {
      var pos, left := offset, len;
      ghost var goal := Foreseen(data, offset, offset + len);
      while left > 0 && !halted
        invariant offset <= pos && pos + left == offset + len
        invariant goal.Outcome? && Foreseen(data, pos, offset + len) == goal
      {
        var read := Turn(data, pos, left, goal);
        pos := pos + read;
        left := left - read;
      }
      Reached(data, pos, offset + len, goal);
    }

    /** Where feeding the octets from `pos` to `end` leads, and what the consumer holds. */
    ghost function Foreseen(data: seq<byte>, pos: nat, end: nat): Outcome
      requires pos <= end <= |data|
      reads this, mem
    {
      if Valid() then Outcome(FeedRange(size, RxState(), data, pos, end), Lending()) else Unsound
    }

    lemma Reached(data: seq<byte>, pos: nat, end: nat, goal: Outcome)
      requires pos <= end <= |data| && goal.Outcome? && Foreseen(data, pos, end) == goal && (pos == end || halted)
      ensures Valid() && Lending() == goal.lending && RxState() == goal.rx
    {
      FeedNone(size, RxState(), data, pos, end);
    }

    /** One turn of the framer's loop. */
    method Turn(data: seq<byte>, pos: nat, left: nat, ghost goal: Outcome) returns (read: nat)
      requires 0 < left && pos + left <= |data| && !halted
      requires goal.Outcome? && Foreseen(data, pos, pos + left) == goal
      modifies this`free, this`queue, this`queued, this`owner, this`state, this`buf, this`kind,
               this`rem, this`halted, this`meta, this`image, mem
      ensures 0 < read <= left && Foreseen(data, pos + read, pos + left) == goal
    {
      ghost var before := RxState();
      read := ReadSome(data, pos, left);
      FeedSplit(size, before, data, pos, pos + read, pos + left);
    }

    /** The framer's switch on its state. */
    method ReadSome(data: seq<byte>, pos: nat, left: nat) returns (read: nat)
      requires Valid() && !halted && 0 < left && pos + left <= |data|
      modifies this`free, this`queue, this`queued, this`owner, this`state, this`buf, this`kind,
               this`rem, this`halted, this`meta, this`image, mem
      ensures Valid() && Lending() == old(Lending()) && 0 < read <= left
      ensures RxState() == FeedAll(size, old(RxState()), data[pos..pos + read])
    {
      ghost var o, m, g := owner, meta, image;
      match state {
        case S_TYPE =>
          FeedByte(size, RxState(), data, pos);
          ReadType(data[pos]);
          read := 1;
        case S_HEADER => read := ReadHeader(data, pos, left);
        case S_PAYLOAD => read := ReadPayload(data, pos, left);
      }
      KeptView(o, m, g, owner, meta, image);
    }

    /** The consumer takes the oldest delivered buffer. */
    method Take() returns (taken: nat)
      requires Valid() && !halted && queue != []
      modifies this`queue, this`queued, this`owner
      ensures Valid() && taken < count && old(owner)[taken] == Queue
      ensures owner == old(owner)[taken := Consumer]
      ensures Content(meta, image, taken) == old(queued)[0] && queued == old(queued)[1..]
    {
      taken := PopQueue();
    }

    method PopQueue() returns (taken: nat)
      requires Sound() && Owned() && queue != []
      modifies this`queue, this`queued, this`owner
      ensures Sound() && Owned() && taken < count && old(owner)[taken] == Queue
      ensures owner == old(owner)[taken := Consumer]
      ensures Content(meta, image, taken) == old(queued)[0] && queued == old(queued)[1..]
    {
      taken := queue[0];
      ListsPop(owner, Queue, queue, Consumer);
      ListsOther(owner, Pool, free, taken, Consumer);
      ListsOther(owner, Framer, Held(), taken, Consumer);
      queue := queue[1..];
      queued := queued[1..];
      owner := owner[taken := Consumer];
    }

    /** The consumer returns a buffer to the pool. */
    method Unref(id: nat)
      requires Valid() && !halted && id < count && owner[id] == Consumer
      modifies this`free, this`owner
      ensures Valid() && owner == old(owner)[id := Pool]
      ensures RxState() == old(RxState()).(free := old(|free|) + 1)
    {
      ListsPush(owner, Pool, free, id);
      ListsOther(owner, Queue, queue, id, Pool);
      ListsOther(owner, Framer, Held(), id, Pool);
      free := free + [id];
      owner := owner[id := Pool];
    }
  }

  /** The transmit side: a pool of frame buffers and the queue the UART drains. */
  class HciTx {
    const count: nat
    const size: nat
    var free: nat
    var frames: seq<seq<byte>>

    ghost function State(): Tx reads this { Tx(free, frames) }

    constructor (count: nat, size: nat)
      ensures State() == Tx(count, []) && this.count == count && this.size == size
    {
      this.count, this.size, free, frames := count, size, count, [];
    }

    /** Queues a frame for transmission behind its private pointer of four octets. */
    method HciUartWrite(kind: byte, hdr: seq<byte>, pld: seq<byte>) returns (err: int)
      modifies this
      ensures var fits := old(free) > 0 && |pld| + |hdr| + 5 <= size;
              && err == (if fits then 0 else ENOMEM)
              && State() == if fits then Tx(old(free) - 1, old(frames) + [Frame(kind, hdr, pld)]) else old(State())
    {
      if free == 0 {
        return ENOMEM;
      }
      free := free - 1;
      if size < |pld| + |hdr| + 1 + 4 {
        free := free + 1;
        return ENOMEM;
      }
      frames := frames + [[kind] + hdr + pld];
      return 0;
    }

    /** The UART finished or aborted a frame and its buffer returns to the pool. */
    method TxDone()
      modifies this
      ensures State() == Tx(Min(old(free) + 1, count), old(frames))
    {
      free := if free < count then free + 1 else count;
    }
  }
}
