/**
  The SFF blocks that ff_utils.c puts on a connection and ffserver.c takes off it: a tag,
  a type digit, a 32-bit length and a payload.
 */
module SffFraming {
  import opened Bytes
  import opened Wrappers

  datatype Block = Block(kind: nat, payload: seq<byte>)

  const MAX_PAYLOAD: nat := 1000000

  predicate Sendable(b: Block) { b.kind < 10 && 1 <= |b.payload| <= MAX_PAYLOAD }

  function Header(kind: nat, size: nat): (h: seq<byte>)
    requires kind < 10
    ensures |h| == 8
  {
    [83, 70, 70, 48 + kind] + BigEndian(size, 4)
  }

  /** sff_write_block; a type is reduced modulo 10 first. */
  function WriteBlock(kind: nat, payload: seq<byte>): seq<byte> {
    Header(kind % 10, |payload|) + payload
  }

  function Wire(bs: seq<Block>): seq<byte> {
    if bs == [] then [] else WriteBlock(bs[0].kind, bs[0].payload) + Wire(bs[1..])
  }

  // ------------------------------------------------------------ the receiver

  /** c->sff: a block whose payload has arrived only up to `data`. */
  datatype Pending = Pending(kind: nat, size: nat, data: seq<byte>)

  datatype Found = Nothing | Found(kind: nat, size: nat, at: nat)

  predicate IsDigit(b: byte) { 48 <= b <= 57 }

  /** The four bytes at `ptr` after a recv that may deliver fewer: the rest is what was there. */
  function Overlay(win: seq<byte>, i: nat, old4: seq<byte>): (b: seq<byte>)
    requires i <= |win| && |old4| == 4
    ensures |b| == 4
  {
    if i + 4 <= |win| then win[i..i + 4] else win[i..] + old4[|win| - i..]
  }

  datatype Tag = Tag(ok: bool, next: nat)

  /** Matching "SFF" and a digit from byte `i`: a byte that does not match is dropped with
      those before it; a recv that fails ends the search. */
  function TagAt(win: seq<byte>, i: nat): (t: Tag)
    requires i < |win|
    ensures i < t.next <= |win| && (t.ok ==> i + 4 == t.next && IsDigit(win[i + 3]))
  {
    if win[i] != 83 then Tag(false, i + 1)
    else if i + 1 >= |win| then Tag(false, i + 1)
    else if win[i + 1] != 70 then Tag(false, i + 2)
    else if i + 2 >= |win| then Tag(false, i + 2)
    else if win[i + 2] != 70 then Tag(false, i + 3)
    else if i + 3 >= |win| then Tag(false, i + 3)
    else Tag(IsDigit(win[i + 3]), i + 4)
  }

  /** The search for the next header from byte `i` of the window; `high` are the bytes the
      8-byte scratch buffer holds behind the one being matched. */
  function Sync(win: seq<byte>, i: nat, high: seq<byte>): (f: Found)
    requires |high| == 3
    ensures f.Found? ==> i < f.at <= |win| && 0 < f.size <= MAX_PAYLOAD && f.kind < 10
    decreases |win| - i
  {
    if i >= |win| then Nothing
    else
      var t := TagAt(win, i);
      if !t.ok then Sync(win, t.next, high)
      else
        var b := Overlay(win, t.next, [win[i + 3]] + high);
        var size := FromBigEndian(b);
        var at := Least(t.next + 4, |win|);
        if size == 0 || size > MAX_PAYLOAD then Sync(win, at, b[1..]) else Found(win[i + 3] - 48, size, at)
  }

  datatype Outcome = Outcome(pending: Option<Pending>, consumed: nat, done: Option<Block>)

  /** Payload bytes arriving for `p` from `win[i..]`. */
  function Extend(p: Pending, win: seq<byte>, i: nat): Outcome
    requires i <= |win| && |p.data| <= p.size
  {
    var n := Least(|win| - i, p.size - |p.data|);
    var data := p.data + win[i..i + n];
    if |data| == p.size then Outcome(None, i + n, Some(Block(p.kind, data)))
    else Outcome(Some(p.(data := data)), i + n, None)
  }

  /** One call of http_receive_data on a feed when `win` is what the socket has to offer. */
  function ReceiveCall(pending: Option<Pending>, win: seq<byte>): Outcome
    requires pending.Some? ==> |pending.value.data| <= pending.value.size
  {
    if pending.Some? then Extend(pending.value, win, 0)
    else
      match Sync(win, 0, [0, 0, 0])
      case Nothing => Outcome(None, |win|, None)
      case Found(kind, size, at) => Extend(Pending(kind, size, []), win, at)
  }

  /** A block left pending still misses bytes. */
  lemma PendingIsShort(pending: Option<Pending>, win: seq<byte>)
    requires pending.Some? ==> |pending.value.data| <= pending.value.size
    ensures var o := ReceiveCall(pending, win);
            && (o.pending.Some? ==> |o.pending.value.data| < o.pending.value.size)
            && (o.done.Some? ==> o.pending.None?)
            && o.consumed <= |win|
  {}

  class Receiver {
    var busy: bool
    var kind: nat
    var size: nat
    var data: seq<byte>

    function State(): Option<Pending>
      reads this
    {
      if busy then Some(Pending(kind, size, data)) else None
    }

    ghost predicate Valid()
      reads this
    {
      busy ==> |data| < size
    }

    constructor ()
      ensures Valid() && State() == None
    {
      busy, kind, size, data := false, 0, 0, [];
    }

    method TakePayload(win: seq<byte>, i: nat) returns (consumed: nat, done: Option<Block>)
      requires i <= |win| && busy && |data| <= size
      modifies this
      ensures Valid() && Outcome(State(), consumed, done) == Extend(old(Pending(kind, size, data)), win, i)
    {
      var want := size - |data|;
      var n := Least(|win| - i, want);
      data := data + win[i..i + n];
      consumed := i + n;
      done := None;
      if n == want {
        done := Some(Block(kind, data));
        busy := false;
      }
    }

    /** The SFF branch of http_receive_data: finish the block in hand, or look for the next. */
    method Receive(win: seq<byte>) returns (consumed: nat, done: Option<Block>)
      requires Valid()
      modifies this
      ensures Valid() && Outcome(State(), consumed, done) == ReceiveCall(old(State()), win)
    {
      hide Extend, TagAt, FromBigEndian, Overlay;
      if busy {
        consumed, done := TakePayload(win, 0);
        return;
      }
      var i, high: seq<byte> := 0, [0, 0, 0];
      while i < |win|
        invariant 0 <= i <= |win| && |high| == 3 && !busy
        invariant Sync(win, 0, [0, 0, 0]) == Sync(win, i, high)
        decreases |win| - i
      {
        var ok, next := MatchTag(win, i);
        if !ok {
          i := next;
          continue;
        }
        var tmp := Overlay(win, next, [win[i + 3]] + high);
        var n, k := FromBigEndian(tmp), win[i + 3] - 48;
        i := Least(next + 4, |win|);
        if n == 0 || n > MAX_PAYLOAD {
          high := tmp[1..];
          continue;
        }
        busy, kind, size, data := true, k, n, [];
        consumed, done := TakePayload(win, i);
        return;
      }
      return |win|, None;
    }
  }

  /** The byte-by-byte receives of the tag, each of which may find nothing left. */
  method MatchTag(win: seq<byte>, start: nat) returns (ok: bool, i: nat)
    requires start < |win|
    ensures Tag(ok, i) == TagAt(win, start)
  {
    ok, i := false, start;
    var b := win[i];
    i := i + 1;
    if b != 83 || i >= |win| { return; }
    b := win[i];
    i := i + 1;
    if b != 70 || i >= |win| { return; }
    b := win[i];
    i := i + 1;
    if b != 70 || i >= |win| { return; }
    b := win[i];
    i := i + 1;
    ok := IsDigit(b);
  }

  // ------------------------------------------- the receiver undoes the sender

  datatype Place = Between(bs: seq<Block>) | Inside(bs: seq<Block>, off: nat)

  ghost predicate At(p: Place, wire: seq<byte>, pending: Option<Pending>) {
    match p
    case Between(bs) => pending == None && wire == Wire(bs)
    case Inside(bs, off) =>
      && bs != [] && off < |bs[0].payload|
      && pending == Some(Pending(bs[0].kind, |bs[0].payload|, bs[0].payload[..off]))
      && wire == bs[0].payload[off..] + Wire(bs[1..])
  }

  function Done(o: Option<Block>): seq<Block> { if o.Some? then [o.value] else [] }

  /** The block in hand after `n` more of its bytes; complete, it makes room for the next. */
  function Moved(bs: seq<Block>, off: nat, n: nat): Place
    requires bs != [] && off + n <= |bs[0].payload|
  {
    if off + n < |bs[0].payload| then Inside(bs, off + n) else Between(bs[1..])
  }

  lemma ExtendTakes(b: Block, off: nat, win: seq<byte>, i: nat, tail: seq<byte>) returns (n: nat)
    requires off <= |b.payload| && i <= |win| && win[i..] <= b.payload[off..] + tail
    ensures off + n <= |b.payload| && i + n <= |win| && (i < |win| && off < |b.payload| ==> n > 0)
    ensures Extend(Pending(b.kind, |b.payload|, b.payload[..off]), win, i)
            == if off + n == |b.payload| then Outcome(None, i + n, Some(b))
               else Outcome(Some(Pending(b.kind, |b.payload|, b.payload[..off + n])), i + n, None)
    ensures (b.payload[off..] + tail)[n..] == b.payload[off + n..] + tail
  {
    var a := b.payload[off..];
    n := Least(|win| - i, |a|);
    assert win[i..i + n] == win[i..][..n] == (a + tail)[..n] == a[..n];
    assert b.payload[..off] + a[..n] == b.payload[..off + n];
    assert off + n == |b.payload| ==> b.payload[..off + n] == b.payload;
    assert a[n..] == b.payload[off + n..];
  }

  lemma PayloadStep(bs: seq<Block>, off: nat, win: seq<byte>, i: nat) returns (p': Place)
    requires bs != [] && off <= |bs[0].payload| && i <= |win|
    requires win[i..] <= bs[0].payload[off..] + Wire(bs[1..])
    ensures var b := bs[0];
            var o := Extend(Pending(b.kind, |b.payload|, b.payload[..off]), win, i);
            && i <= o.consumed <= |win|
            && At(p', (b.payload[off..] + Wire(bs[1..]))[o.consumed - i..], o.pending)
            && Done(o.done) + p'.bs == bs
            && (p'.bs == bs || p'.bs == bs[1..])
            && (i < |win| && off < |b.payload| ==> o.consumed > i)
  {
    var n := ExtendTakes(bs[0], off, win, i, Wire(bs[1..]));
    p' := Moved(bs, off, n);
    if p'.Between? {
      assert bs[0].payload[off + n..] + Wire(bs[1..]) == Wire(bs[1..]);
      assert [bs[0]] + bs[1..] == bs;
    }
  }

  lemma SyncFindsHeader(win: seq<byte>, b: Block, high: seq<byte>)
    requires Sendable(b) && |high| == 3
    requires |win| >= 8 && win[..8] == Header(b.kind, |b.payload|)
    ensures Sync(win, 0, high) == Found(b.kind, |b.payload|, 8)
  {
    assert win[0..8] == win[..8];
    HeaderIsFound(win, 0, b.kind, |b.payload|, high);
  }

  // ------------------------------------------------- what the search passes over

  /** Where the search stands for bytes that begin no tag: behind them. */
  lemma {:induction false} NoiseIsSkipped(win: seq<byte>, i: nat, n: nat, high: seq<byte>)
    requires i <= n <= |win| && |high| == 3 && 83 !in win[i..n]
    ensures Sync(win, i, high) == Sync(win, n, high)
    decreases n - i
  {
    if i < n {
      assert win[i..n][0] == win[i] && win[i..n][1..] == win[i + 1..n];
      NoiseIsSkipped(win, i + 1, n, high);
    }
  }

  /** What the search for a header finds from byte `i` on. */
  lemma HeaderIsFound(win: seq<byte>, i: nat, kind: nat, size: nat, high: seq<byte>)
    requires kind < 10 && size < TWO32 && |high| == 3
    requires i + 8 <= |win| && win[i..i + 8] == Header(kind, size)
    ensures Sync(win, i, high)
            == if 1 <= size <= MAX_PAYLOAD then Found(kind, size, i + 8)
               else Sync(win, i + 8, BigEndian(size, 4)[1..])
  {
    var h, length := win[i..i + 8], BigEndian(size, 4);
    assert h == [83, 70, 70, 48 + kind] + length;
    assert win[i] == h[0] && win[i + 1] == h[1] && win[i + 2] == h[2] && win[i + 3] == h[3] == 48 + kind;
    assert win[i + 4..i + 8] == h[4..8] == length;
    Pow256Values();
    BigEndianExact(size, 4);
  }

  /** A type is sent modulo 10. */
  lemma TypeIsReduced(kind: nat, payload: seq<byte>)
    requires 1 <= |payload| <= MAX_PAYLOAD
    ensures Sync(WriteBlock(kind, payload), 0, [0, 0, 0]) == Found(kind % 10, |payload|, 8)
  {
    var win := WriteBlock(kind, payload);
    assert win[0..8] == Header(kind % 10, |payload|);
    HeaderIsFound(win, 0, kind % 10, |payload|, [0, 0, 0]);
  }

  /** Noise without an 'S' and a header whose length is out of range are passed over. */
  lemma SyncPasses(win: seq<byte>, n: nat, kind: nat, size: nat, m: nat, b: Block)
    requires kind < 10 && size < TWO32 && !(1 <= size <= MAX_PAYLOAD) && Sendable(b)
    requires n + 8 <= m && m + 8 <= |win|
    requires 83 !in win[..n] && win[n..n + 8] == Header(kind, size) && 83 !in win[n + 8..m]
    requires win[m..m + 8] == Header(b.kind, |b.payload|)
    ensures Sync(win, 0, [0, 0, 0]) == Found(b.kind, |b.payload|, m + 8)
  {
    assert win[0..n] == win[..n];
    NoiseIsSkipped(win, 0, n, [0, 0, 0]);
    HeaderIsFound(win, n, kind, size, [0, 0, 0]);
    NoiseIsSkipped(win, n + 8, m, BigEndian(size, 4)[1..]);
    HeaderIsFound(win, m, b.kind, |b.payload|, BigEndian(size, 4)[1..]);
  }

  /** A byte that breaks off a tag goes with the tag, even when it begins the next one: an 'S' right
      before a header hides it. */
  lemma StrayTagHidesHeader(win: seq<byte>, i: nat, kind: nat, size: nat, high: seq<byte>)
    requires kind < 10 && |high| == 3 && i + 9 <= |win|
    requires win[i] == 83 && win[i + 1..i + 9] == Header(kind, size)
    ensures Sync(win, i, high) == Sync(win, i + 4, high)
  {
    var h := win[i + 1..i + 9];
    assert h == [83, 70, 70, 48 + kind] + BigEndian(size, 4);
    assert win[i + 1] == h[0] && win[i + 2] == h[1] && win[i + 3] == h[2];
    assert TagAt(win, i) == Tag(false, i + 2);
    NoiseIsSkipped(win, i + 2, i + 4, high);
  }

  /** A length cut off by the end of what has arrived is filled up with what the scratch buffer
      holds: the digit and zeros at first. */
  lemma CutLength(kind: nat, length: seq<byte>)
    requires kind < 10 && |length| < 4
    ensures var win, n := [83, 70, 70, 48 + kind] + length,
                          FromBigEndian(length + ([48 + kind] + [0, 0, 0])[|length|..]);
            Sync(win, 0, [0, 0, 0]) == if 1 <= n <= MAX_PAYLOAD then Found(kind, n, |win|) else Nothing
  {
    var win: seq<byte> := [83, 70, 70, 48 + kind] + length;
    assert win[4..] == length;
    assert TagAt(win, 0) == Tag(true, 4);
  }

  /** A window that holds the header of the first block: the search ends behind it. */
  lemma HeaderStep(bs: seq<Block>, wire: seq<byte>, win: seq<byte>)
    requires bs != [] && Sendable(bs[0]) && wire == Wire(bs)
    requires win <= wire && |win| >= 8
    ensures var rest := bs[0].payload + Wire(bs[1..]);
            && wire[8..] == rest && win[8..] <= rest
            && ReceiveCall(None, win) == Extend(Pending(bs[0].kind, |bs[0].payload|, []), win, 8)
  {
    var b := bs[0];
    var rest := b.payload + Wire(bs[1..]);
    assert wire == Header(b.kind, |b.payload|) + rest;
    assert win[..8] == wire[..8] == Header(b.kind, |b.payload|);
    SyncFindsHeader(win, b, [0, 0, 0]);
    assert wire[8..] == rest;
  }

  lemma FirstPayload(bs: seq<Block>, wire: seq<byte>, win: seq<byte>) returns (p': Place)
    requires bs != [] && Sendable(bs[0]) && wire == Wire(bs)
    requires win <= wire && |win| >= 8
    ensures var o := ReceiveCall(None, win);
            && 0 < o.consumed <= |win|
            && At(p', wire[o.consumed..], o.pending)
            && Done(o.done) + p'.bs == bs
            && (p'.bs == bs || p'.bs == bs[1..])
  {
    HeaderStep(bs, wire, win);
    assert bs[0].payload[0..] == bs[0].payload && bs[0].payload[..0] == [];
    p' := PayloadStep(bs, 0, win, 8);
    var o := ReceiveCall(None, win);
    assert wire[o.consumed..] == wire[8..][o.consumed - 8..];
  }

  lemma EmptyWindow()
    ensures ReceiveCall(None, []) == Outcome(None, 0, None)
  {}

  lemma CallStep(p: Place, wire: seq<byte>, pending: Option<Pending>, win: seq<byte>) returns (p': Place)
    requires (forall b <- p.bs :: Sendable(b)) && At(p, wire, pending) && win <= wire
    requires pending.Some? || win == [] || |win| >= 8
    ensures var o := ReceiveCall(pending, win);
            && o.consumed <= |win| && (win != [] ==> o.consumed > 0)
            && At(p', wire[o.consumed..], o.pending)
            && Done(o.done) + p'.bs == p.bs
            && (forall b <- p'.bs :: Sendable(b))
  {
    hide Sync, WriteBlock;
    if p.Inside? {
      assert win[0..] == win;
      p' := PayloadStep(p.bs, p.off, win, 0);
    } else if win == [] {
      p' := p;
      EmptyWindow();
      assert wire[0..] == wire;
    } else {
      p' := FirstPayload(p.bs, wire, win);
    }
  }

  datatype Reception = Reception(blocks: seq<Block>, pending: Option<Pending>, left: seq<byte>)

  /** A run of calls; `wins` says how many bytes are available at each. */
  function Receives(pending: Option<Pending>, wire: seq<byte>, wins: seq<nat>): Reception
    requires pending.Some? ==> |pending.value.data| <= pending.value.size
    decreases wins
  {
    if wins == [] then Reception([], pending, wire)
    else
      var o := ReceiveCall(pending, Window(wire, wins[0]));
      PendingIsShort(pending, Window(wire, wins[0]));
      var more := Receives(o.pending, wire[o.consumed..], wins[1..]);
      more.(blocks := Done(o.done) + more.blocks)
  }

  /** Between blocks either nothing is available or a whole 8-byte header is. */
  predicate HeadersWhole(pending: Option<Pending>, wire: seq<byte>, wins: seq<nat>)
    requires pending.Some? ==> |pending.value.data| <= pending.value.size
    decreases wins
  {
    wins == [] ||
    var w := Window(wire, wins[0]);
    var o := ReceiveCall(pending, w);
    PendingIsShort(pending, w);
    && (pending.Some? || w == [] || |w| >= 8)
    && HeadersWhole(o.pending, wire[o.consumed..], wins[1..])
  }

  lemma WireIsLong(bs: seq<Block>)
    ensures bs != [] ==> |Wire(bs)| >= 8
  {}

  lemma {:induction false} ReceivesBlocks(p: Place, wire: seq<byte>, pending: Option<Pending>, wins: seq<nat>)
    requires (forall b <- p.bs :: Sendable(b)) && At(p, wire, pending)
    requires HeadersWhole(pending, wire, wins)
    ensures var d := Receives(pending, wire, wins);
            d.blocks <= p.bs && (d.left == [] ==> d.blocks == p.bs && d.pending == None)
    decreases wins
  {
    hide ReceiveCall;
    if wins == [] {
      WireIsLong(p.bs);
    } else {
      hide At;
      var w := Window(wire, wins[0]);
      var p' := CallStep(p, wire, pending, w);
      var o := ReceiveCall(pending, w);
      ReceivesBlocks(p', wire[o.consumed..], o.pending, wins[1..]);
    }
  }

  lemma {:induction false} ReceivesAll(p: Place, wire: seq<byte>, pending: Option<Pending>, wins: seq<nat>)
    requires (forall b <- p.bs :: Sendable(b)) && At(p, wire, pending)
    requires HeadersWhole(pending, wire, wins)
    requires (forall n <- wins :: n >= 1) && |wins| >= |wire|
    ensures Receives(pending, wire, wins).left == []
    decreases wins
  {
    hide ReceiveCall;
    if wins != [] {
      assert wins[0] in wins && forall n <- wins[1..] :: n in wins;
      var w := Window(wire, wins[0]);
      var p' := CallStep(p, wire, pending, w);
      var o := ReceiveCall(pending, w);
      ReceivesAll(p', wire[o.consumed..], o.pending, wins[1..]);
    }
  }

  /** Any list of blocks written one after the other is reassembled, same types and payloads
      in the same order, however the payload bytes are split across calls. */
  lemma BlocksRoundTrip(bs: seq<Block>, wins: seq<nat>)
    requires forall b <- bs :: Sendable(b)
    requires HeadersWhole(None, Wire(bs), wins)
    ensures var d := Receives(None, Wire(bs), wins);
            && d.blocks <= bs
            && (d.left == [] ==> d.blocks == bs && d.pending == None)
            && ((forall n <- wins :: n >= 1) && |wins| >= |Wire(bs)| ==> d.left == [])
  {
    ReceivesBlocks(Between(bs), Wire(bs), None, wins);
    if (forall n <- wins :: n >= 1) && |wins| >= |Wire(bs)| {
      ReceivesAll(Between(bs), Wire(bs), None, wins);
    }
  }

  // -------------------------------------------------------- packets inside blocks

  /** sff_write_packet: the stream index, or (uint32_t)-1 with a trailer, ahead of the data;
      a packet for which the muxer produced nothing is not sent. */
  function WritePacket(index: int, data: seq<byte>): Option<Block> {
    if data == [] then None else Some(Block(2, BigEndian(ToUint32(index), 4) + data))
  }

  /** sff_parse. */
  function Parse(b: Block): Option<(nat, seq<byte>)> {
    if b.kind != 2 || |b.payload| < 4 then None
    else Some((FromBigEndian(b.payload[..4]), b.payload[4..]))
  }

  lemma ParseUndoesWrite(index: int, data: seq<byte>)
    requires data != []
    ensures var b := WritePacket(index, data);
            && b.Some? && Parse(b.value) == Some((ToUint32(index), data))
            && (|data| <= MAX_PAYLOAD - 4 ==> Sendable(b.value))
    ensures IsInt32(index) ==> ToInt32(Parse(WritePacket(index, data).value).value.0) == index
  {
    var n := ToUint32(index);
    var payload := BigEndian(n, 4) + data;
    Pow256Values();
    BigEndianExact(n, 4);
    assert payload[..4] == BigEndian(n, 4) && payload[4..] == data;
    if IsInt32(index) {
      Int32RoundTrip(index);
    }
  }

  /** Exactly the packets of type 2 with room for an index are parsed, those without data included. */
  lemma ParsedIff(kind: nat, index: nat, data: seq<byte>, short: seq<byte>)
    requires index < TWO32 && |short| < 4
    ensures Parse(Block(kind, BigEndian(index, 4) + data)) == if kind == 2 then Some((index, data)) else None
    ensures Parse(Block(kind, short)) == None
  {
    var payload := BigEndian(index, 4) + data;
    Pow256Values();
    BigEndianExact(index, 4);
    assert payload[..4] == BigEndian(index, 4) && payload[4..] == data;
  }
}
