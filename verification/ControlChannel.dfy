/**
  The control channel of stream_buffer.c: a compacting byte FIFO, the framed
  message printer that fills it and the resumable parser that drains it.
 */
module ControlChannel {
  import opened Bytes
  import opened Wrappers

  // ---------------------------------------------------------------- the FIFO

  /** What an offer of `data` leaves in a FIFO of capacity `cap` holding `contents`. */
  function Offer(contents: seq<byte>, cap: nat, data: seq<byte>): seq<byte> {
    if |data| <= cap - |contents| then contents + data else contents
  }

  /** The first `i` of `size` bytes from `r` on are at the front, the others where they were. */
  ghost predicate Slid(now: seq<byte>, was: seq<byte>, r: nat, size: nat, i: nat) {
    && |now| == |was| && i <= size && r + size <= |now|
    && now[..i] == was[r..r + i]
    && now[r + i..r + size] == was[r + i..r + size]
  }

  lemma SlideOne(now: seq<byte>, was: seq<byte>, r: nat, size: nat, i: nat)
    requires Slid(now, was, r, size, i) && i < size
    ensures Slid(now[i := now[r + i]], was, r, size, i + 1)
  {
    var next := now[i := now[r + i]];
    assert now[r + i] == now[r + i..r + size][0] == was[r + i..r + size][0];
    assert next[..i + 1] == now[..i] + [was[r + i]] == was[r..r + i + 1];
    assert next[r + i + 1..r + size] == now[r + i..r + size][1..] == was[r + i..r + size][1..];
  }

  lemma SlidAtStart(was: seq<byte>, r: nat, size: nat)
    requires r + size <= |was|
    ensures Slid(was, was, r, size, 0)
  {}

  lemma SlidAtEnd(now: seq<byte>, was: seq<byte>, r: nat, size: nat)
    requires Slid(now, was, r, size, size)
    ensures size <= |now| == |was| && now[..size] == was[r..r + size]
  {}

  class StreamBuffer {
    var rpos: nat
    var wpos: nat
    const buf: array<byte>

    ghost predicate Valid()
      reads this
    {
      rpos <= wpos <= buf.Length
    }

    function Contents(): seq<byte>
      requires Valid()
      reads this, buf
    {
      buf[rpos..wpos]
    }

    constructor (msize: nat)
      requires msize >= 1
      ensures Valid() && fresh(buf) && buf.Length == msize && Contents() == []
    {
      rpos, wpos := 0, 0;
      buf := new byte[msize](_ => 0);
    }

    /** memcpy of `data` to offset `at`. */
    method CopyIn(at: nat, data: seq<byte>)
      requires at + |data| <= buf.Length
      modifies buf
      ensures buf[..] == old(buf[..at]) + data + old(buf[at + |data|..])
    {
      var i := 0;
      while i < |data|
        invariant 0 <= i <= |data|
        invariant buf[..at] == old(buf[..at])
        invariant buf[at..at + i] == data[..i]
        invariant buf[at + i..] == old(buf[at + i..])
      {
        buf[at + i] := data[i];
        i := i + 1;
      }
    }

    /** The memmove that slides the unread bytes to the front. */
    method Compact()
      requires Valid()
      modifies this`rpos, this`wpos, buf
      ensures Valid() && rpos == 0 && Contents() == old(Contents())
    {
      hide Slid;
      var size := wpos - rpos;
      var i := 0;
      SlidAtStart(buf[..], rpos, size);
      while i < size
        invariant 0 <= i <= size && rpos == old(rpos) && wpos == old(wpos)
        invariant Slid(buf[..], old(buf[..]), rpos, size, i)
      {
        SlideOne(buf[..], old(buf[..]), rpos, size, i);
        buf[i] := buf[rpos + i];
        i := i + 1;
      }
      SlidAtEnd(buf[..], old(buf[..]), rpos, size);
      rpos, wpos := 0, size;
    }

    method Write(data: seq<byte>) returns (ok: bool)
      requires Valid()
      modifies this`rpos, this`wpos, buf
      ensures Valid()
      ensures ok <==> |data| <= buf.Length - (old(wpos) - old(rpos))
      ensures Contents() == Offer(old(Contents()), buf.Length, data)
    {
      var len := |data|;
      if buf.Length - wpos >= len {
        CopyIn(wpos, data);
        wpos := wpos + len;
        ok := true;
      } else if buf.Length - wpos + rpos >= len {
        Compact();
        CopyIn(wpos, data);
        wpos := wpos + len;
        ok := true;
      } else {
        ok := false;
      }
    }

    method Read(len: nat) returns (data: seq<byte>)
      requires Valid()
      modifies this`rpos
      ensures Valid()
      ensures |data| == if old(wpos - rpos) > len then len else old(wpos - rpos)
      ensures data + Contents() == old(Contents())
    {
      var size := wpos - rpos;
      if size > len {
        size := len;
      }
      data := buf[rpos..rpos + size];
      rpos := rpos + size;
    }

    /** One `send` of the pending bytes, which the socket takes `sent` of (0: it would block). */
    method SendPending(sent: nat) returns (wire: seq<byte>)
      requires Valid() && sent <= wpos - rpos
      modifies this`rpos
      ensures Valid() && |wire| == sent
      ensures wire + Contents() == old(Contents())
    {
      wire := buf[rpos..rpos + sent];
      rpos := rpos + sent;
    }
  }

  // ------------------------------------------------------------ the messages

  datatype Message = Message(cmd: int, name: seq<byte>, data: seq<byte>)

  const MSG_TAG: seq<byte> := [77, 83, 71]

  predicate Sendable(m: Message) {
    && 0 < m.cmd <= 255
    && 1 <= |m.name| < TWO31
    && 1 <= |m.data| < TWO31
  }

  function Head(m: Message): (h: seq<byte>)
    requires Sendable(m)
    ensures |h| == 12
  {
    MSG_TAG + [m.cmd as byte] + BigEndian(|m.name|, 4) + BigEndian(|m.data|, 4)
  }

  function Frame(m: Message): (f: seq<byte>)
    requires Sendable(m)
    ensures |f| == 12 + |m.name| + |m.data|
  {
    Head(m) + m.name + m.data
  }

  function Wire(ms: seq<Message>): seq<byte>
    requires forall m <- ms :: Sendable(m)
  {
    if ms == [] then [] else Frame(ms[0]) + Wire(ms[1..])
  }

  /** ff_ctl_send offers the head, the name and the data one after the other. */
  function Sent(contents: seq<byte>, cap: nat, m: Message): seq<byte>
    requires Sendable(m)
  {
    Offer(Offer(Offer(contents, cap, Head(m)), cap, m.name), cap, m.data)
  }

  /** A message arrives whole exactly when all of it fits the free space beforehand. */
  lemma WholeFrameIffItFits(contents: seq<byte>, cap: nat, m: Message)
    requires Sendable(m) && |contents| <= cap
    ensures Sent(contents, cap, m) == contents + Frame(m) <==> |Frame(m)| <= cap - |contents|
  {
    var a := Offer(contents, cap, Head(m));
    var b := Offer(a, cap, m.name);
    if |Frame(m)| <= cap - |contents| {
      assert contents + Head(m) + m.name + m.data == contents + Frame(m);
    } else {
      assert |Sent(contents, cap, m)| < |contents + Frame(m)|;
    }
  }

  /** Each of the three parts is stored or left out on its own account: the head when 12 bytes are
      free, the name when it fits what is left then, the data when they fit what is left after that. */
  lemma PartsAreStored(contents: seq<byte>, cap: nat, m: Message)
    requires Sendable(m) && |contents| <= cap
    ensures var free := cap - |contents|;
            var head := if free >= 12 then Head(m) else [];
            var name := if free - |head| >= |m.name| then m.name else [];
            var data := if free - |head| - |name| >= |m.data| then m.data else [];
            Sent(contents, cap, m) == contents + (head + name + data)
  {
    hide Head;
    var free := cap - |contents|;
    var head := if free >= 12 then Head(m) else [];
    var name := if free - |head| >= |m.name| then m.name else [];
    var data := if free - |head| - |name| >= |m.data| then m.data else [];
    OfferIs(contents, cap, Head(m), head);
    OfferIs(contents + head, cap, m.name, name);
    OfferIs(contents + head + name, cap, m.data, data);
    Regrouped(contents, head, name, data);
  }

  lemma OfferIs(contents: seq<byte>, cap: nat, data: seq<byte>, stored: seq<byte>)
    requires stored == if cap - |contents| >= |data| then data else []
    ensures Offer(contents, cap, data) == contents + stored
  {
    assert contents + [] == contents;
  }

  lemma Regrouped(a: seq<byte>, b: seq<byte>, c: seq<byte>, d: seq<byte>)
    ensures a + b + c + d == a + (b + c + d)
  {
    Associative(a, b, c);
    Associative(a, b + c, d);
  }

  /** A send leaves neither nothing nor the whole frame, but parts of it, exactly when the frame does
      not fit and one of its parts does. */
  lemma PartOfFrameIff(contents: seq<byte>, cap: nat, m: Message)
    requires Sendable(m) && |contents| <= cap
    ensures var free := cap - |contents|;
            Sent(contents, cap, m) != contents && Sent(contents, cap, m) != contents + Frame(m) <==>
              free < 12 + |m.name| + |m.data| && (free >= 12 || free >= |m.name| || free >= |m.data|)
  {
    PartsAreStored(contents, cap, m);
    WholeFrameIffItFits(contents, cap, m);
    var free := cap - |contents|;
    var head := if free >= 12 then Head(m) else [];
    var name := if free - |head| >= |m.name| then m.name else [];
    var data := if free - |head| - |name| >= |m.data| then m.data else [];
    assert |Sent(contents, cap, m)| == |contents| + |head| + |name| + |data|;
    if head + name + data == [] {
      assert contents + [] == contents;
    }
  }

  /** One send after the other. */
  function SentAll(contents: seq<byte>, cap: nat, ms: seq<Message>): seq<byte>
    requires forall m <- ms :: Sendable(m)
    decreases |ms|
  {
    if ms == [] then contents else SentAll(Sent(contents, cap, ms[0]), cap, ms[1..])
  }

  /** A run of sends that all fit puts whole frames on the wire, in order. */
  lemma {:induction false} SendsAppend(contents: seq<byte>, cap: nat, ms: seq<Message>)
    requires (forall m <- ms :: Sendable(m)) && |contents| + |Wire(ms)| <= cap
    ensures SentAll(contents, cap, ms) == contents + Wire(ms)
    decreases |ms|
  {
    hide Sent, Frame;
    if ms == [] {
      assert contents + [] == contents;
    } else {
      WholeFrameIffItFits(contents, cap, ms[0]);
      SendsAppend(contents + Frame(ms[0]), cap, ms[1..]);
      Associative(contents, Frame(ms[0]), Wire(ms[1..]));
    }
  }

  // -------------------------------------------------------------- the parser

  /** The static ctrl_msg_t; an empty name stands for the null pointer. */
  datatype Pending = Pending(cmd: int, nlen: int, dlen: int, name: seq<byte>)

  const CLEARED := Pending(0, 0, 0, [])

  datatype Cursor = Cursor(ptr: nat, msg: Pending, broke: bool, got: seq<Message>)

  function Read32(mem: seq<byte>, p: nat): int {
    if p + 4 <= |mem| then ToInt32(FromBigEndian(mem[p..p + 4])) else 0
  }

  function AtData(mem: seq<byte>, end: nat, c: Cursor): Cursor
    requires end <= |mem|
  {
    if c.msg.dlen > 0 && c.ptr + c.msg.dlen <= end then
      Cursor(c.ptr + c.msg.dlen, CLEARED, false,
             c.got + [Message(c.msg.cmd, c.msg.name, mem[c.ptr..c.ptr + c.msg.dlen])])
    else c
  }

  function AtName(mem: seq<byte>, end: nat, c: Cursor): Cursor
    requires end <= |mem|
  {
    var c1 := if c.msg.nlen > 0 && c.ptr + c.msg.nlen <= end
              then c.(ptr := c.ptr + c.msg.nlen, msg := c.msg.(name := mem[c.ptr..c.ptr + c.msg.nlen]))
              else c;
    if c1.ptr >= end then c1.(broke := true) else AtData(mem, end, c1)
  }

  function AtDataLength(mem: seq<byte>, end: nat, c: Cursor): Cursor
    requires end <= |mem|
  {
    var c1 := c.(msg := c.msg.(dlen := Read32(mem, c.ptr)), ptr := c.ptr + 4);
    if c1.ptr >= end then c1.(broke := true) else AtName(mem, end, c1)
  }

  function AtNameLength(mem: seq<byte>, end: nat, c: Cursor): Cursor
    requires end <= |mem|
  {
    var c1 := c.(msg := c.msg.(nlen := Read32(mem, c.ptr)), ptr := c.ptr + 4);
    if c1.ptr >= end then c1.(broke := true) else AtDataLength(mem, end, c1)
  }

  /** One turn of the parser's loop: resume at the first field still missing. */
  function Turn(mem: seq<byte>, end: nat, c: Cursor): Cursor
    requires c.ptr + 4 < end <= |mem|
  {
    if c.msg.name != [] then AtData(mem, end, c)
    else if c.msg.dlen != 0 then AtName(mem, end, c)
    else if c.msg.nlen != 0 then AtDataLength(mem, end, c)
    else if c.msg.cmd != 0 then AtNameLength(mem, end, c)
    else if mem[c.ptr..c.ptr + 3] != MSG_TAG then c.(ptr := c.ptr + 1)
    else AtNameLength(mem, end, c.(ptr := c.ptr + 4, msg := c.msg.(cmd := mem[c.ptr + 3])))
  }

  /** The five fields of a frame, each where the parser's cursor will find it. */
  lemma FrameFields(mem: seq<byte>, p: nat, m: Message)
    requires Sendable(m) && p + |Frame(m)| <= |mem| && mem[p..p + |Frame(m)|] == Frame(m)
    ensures mem[p..p + 3] == MSG_TAG && mem[p + 3] == m.cmd
    ensures Read32(mem, p + 4) == |m.name| && Read32(mem, p + 8) == |m.data|
    ensures mem[p + 12..p + 12 + |m.name|] == m.name
    ensures mem[p + 12 + |m.name|..p + |Frame(m)|] == m.data
  {
    var q := p + |Frame(m)|;
    assert Frame(m) == Head(m) + (m.name + m.data);
    SplitSlice(mem, p, q, Head(m), m.name + m.data);
    SplitSlice(mem, p + 12, q, m.name, m.data);
    HeadFields(mem, p, m);
  }

  lemma HeadFields(mem: seq<byte>, p: nat, m: Message)
    requires Sendable(m) && p + 12 <= |mem| && mem[p..p + 12] == Head(m)
    ensures mem[p..p + 3] == MSG_TAG && mem[p + 3] == m.cmd
    ensures Read32(mem, p + 4) == |m.name| && Read32(mem, p + 8) == |m.data|
  {
    var n, d := BigEndian(|m.name|, 4), BigEndian(|m.data|, 4);
    assert Head(m) == MSG_TAG + [m.cmd as byte] + n + d;
    SplitSlice(mem, p, p + 12, MSG_TAG + [m.cmd as byte] + n, d);
    SplitSlice(mem, p, p + 8, MSG_TAG + [m.cmd as byte], n);
    SplitSlice(mem, p, p + 4, MSG_TAG, [m.cmd as byte]);
    assert mem[p + 3] == mem[p + 3..p + 4][0];
    LengthReadsBack(mem, p + 4, |m.name|);
    LengthReadsBack(mem, p + 8, |m.data|);
  }

  /** A frame at the cursor of a cleared parser is consumed and delivered in one turn. */
  lemma TurnTakesFrame(mem: seq<byte>, end: nat, c: Cursor, m: Message)
    requires Sendable(m) && c.msg == CLEARED && !c.broke
    requires c.ptr + |Frame(m)| <= end <= |mem|
    requires mem[c.ptr..c.ptr + |Frame(m)|] == Frame(m)
    ensures Turn(mem, end, c) == Cursor(c.ptr + |Frame(m)|, CLEARED, false, c.got + [m])
  {
    FrameFields(mem, c.ptr, m);
    NameAndData(mem, end, Cursor(c.ptr + 12, Pending(m.cmd, |m.name|, |m.data|, []), false, c.got), m);
  }

  lemma NameAndData(mem: seq<byte>, end: nat, c: Cursor, m: Message)
    requires Sendable(m) && c.msg == Pending(m.cmd, |m.name|, |m.data|, []) && !c.broke
    requires c.ptr + |m.name| + |m.data| <= end <= |mem|
    requires mem[c.ptr..c.ptr + |m.name|] == m.name
    requires mem[c.ptr + |m.name|..c.ptr + |m.name| + |m.data|] == m.data
    ensures AtName(mem, end, c) == Cursor(c.ptr + |m.name| + |m.data|, CLEARED, false, c.got + [m])
  {}

  lemma LengthReadsBack(mem: seq<byte>, p: nat, n: nat)
    requires p + 4 <= |mem| && mem[p..p + 4] == BigEndian(n, 4) && n < TWO31
    ensures Read32(mem, p) == n
  {
    Pow256Values();
    BigEndianExact(n, 4);
  }

  // ---------------------------------------------------------------- its loop

  predicate Running(end: nat, c: Cursor) { c.ptr + 4 < end && !c.broke }

  /** The cursor after `n` turns, or where the loop ended before. */
  function Loop(mem: seq<byte>, end: nat, c: Cursor, n: nat): Cursor
    requires end <= |mem|
    decreases n
  {
    if n == 0 || !Running(end, c) then c else Loop(mem, end, Turn(mem, end, c), n - 1)
  }

  predicate EndsWithin(mem: seq<byte>, end: nat, c: Cursor, n: nat)
    requires end <= |mem|
  {
    !Running(end, Loop(mem, end, c, n))
  }

  ghost predicate NeverEnds(mem: seq<byte>, end: nat, c: Cursor)
    requires end <= |mem|
  {
    forall n: nat :: !EndsWithin(mem, end, c, n)
  }

  /** What was delivered before a turn stays in front of what it delivers. */
  lemma GotIsKept(mem: seq<byte>, end: nat, c: Cursor, g: seq<Message>)
    requires c.ptr + 4 < end <= |mem|
    ensures var t := Turn(mem, end, c); Turn(mem, end, c.(got := g + c.got)) == t.(got := g + t.got)
  {
    hide AtNameLength, AtDataLength, AtName, AtData;
    GotKeptAtData(mem, end, c, g);
    GotKeptAtName(mem, end, c, g);
    GotKeptAtDataLength(mem, end, c, g);
    GotKeptAtNameLength(mem, end, c, g);
    GotKeptAtNameLength(mem, end, c.(ptr := c.ptr + 4, msg := c.msg.(cmd := mem[c.ptr + 3])), g);
  }

  lemma GotKeptAtData(mem: seq<byte>, end: nat, c: Cursor, g: seq<Message>)
    requires end <= |mem|
    ensures var t := AtData(mem, end, c); AtData(mem, end, c.(got := g + c.got)) == t.(got := g + t.got)
  {
    if c.msg.dlen > 0 && c.ptr + c.msg.dlen <= end {
      Associative(g, c.got, [Message(c.msg.cmd, c.msg.name, mem[c.ptr..c.ptr + c.msg.dlen])]);
    }
  }

  lemma GotKeptAtName(mem: seq<byte>, end: nat, c: Cursor, g: seq<Message>)
    requires end <= |mem|
    ensures var t := AtName(mem, end, c); AtName(mem, end, c.(got := g + c.got)) == t.(got := g + t.got)
  {
    hide AtData;
    var c1 := if c.msg.nlen > 0 && c.ptr + c.msg.nlen <= end
              then c.(ptr := c.ptr + c.msg.nlen, msg := c.msg.(name := mem[c.ptr..c.ptr + c.msg.nlen]))
              else c;
    GotKeptAtData(mem, end, c1, g);
  }

  lemma GotKeptAtDataLength(mem: seq<byte>, end: nat, c: Cursor, g: seq<Message>)
    requires end <= |mem|
    ensures var t := AtDataLength(mem, end, c); AtDataLength(mem, end, c.(got := g + c.got)) == t.(got := g + t.got)
  {
    hide AtName;
    GotKeptAtName(mem, end, c.(msg := c.msg.(dlen := Read32(mem, c.ptr)), ptr := c.ptr + 4), g);
  }

  lemma GotKeptAtNameLength(mem: seq<byte>, end: nat, c: Cursor, g: seq<Message>)
    requires end <= |mem|
    ensures var t := AtNameLength(mem, end, c); AtNameLength(mem, end, c.(got := g + c.got)) == t.(got := g + t.got)
  {
    hide AtDataLength;
    GotKeptAtDataLength(mem, end, c.(msg := c.msg.(nlen := Read32(mem, c.ptr)), ptr := c.ptr + 4), g);
  }

  lemma {:induction false} LoopKeepsGot(mem: seq<byte>, end: nat, c: Cursor, g: seq<Message>, n: nat)
    requires end <= |mem|
    ensures var t := Loop(mem, end, c, n); Loop(mem, end, c.(got := g + c.got), n) == t.(got := g + t.got)
    decreases n
  {
    hide Turn;
    if n > 0 && Running(end, c) {
      GotIsKept(mem, end, c, g);
      LoopKeepsGot(mem, end, Turn(mem, end, c), g, n - 1);
    }
  }

  /** Whether the loop ends does not depend on what was delivered before. */
  lemma NeverEndsWhateverGot(mem: seq<byte>, end: nat, c: Cursor, g: seq<Message>)
    requires end <= |mem| && c.got == []
    ensures NeverEnds(mem, end, c.(got := g)) <==> NeverEnds(mem, end, c)
  {
    hide Loop;
    assert g + [] == g;
    forall n: nat
      ensures EndsWithin(mem, end, c.(got := g), n) <==> EndsWithin(mem, end, c, n)
    {
      LoopKeepsGot(mem, end, c, g, n);
    }
  }

  /** A turn does not change whether the loop ends. */
  lemma TurnDecides(mem: seq<byte>, end: nat, c: Cursor)
    requires end <= |mem| && Running(end, c)
    ensures NeverEnds(mem, end, c) <==> NeverEnds(mem, end, Turn(mem, end, c))
  {
    hide Turn;
    var t := Turn(mem, end, c);
    forall n: nat
      ensures EndsWithin(mem, end, c, n + 1) <==> EndsWithin(mem, end, t, n)
    {}
    assert !EndsWithin(mem, end, c, 0);
    if NeverEnds(mem, end, t) {
      forall n: nat
        ensures !EndsWithin(mem, end, c, n)
      {
        assert n > 0 ==> (EndsWithin(mem, end, c, (n - 1) + 1) <==> EndsWithin(mem, end, t, n - 1));
      }
    } else {
      var n: nat :| EndsWithin(mem, end, t, n);
      assert EndsWithin(mem, end, c, n + 1);
    }
  }

  lemma {:induction false} FixpointLoops(mem: seq<byte>, end: nat, c: Cursor, n: nat)
    requires end <= |mem| && Running(end, c) && Turn(mem, end, c) == c
    ensures Loop(mem, end, c, n) == c
    decreases n
  {
    hide Turn;
    if n > 0 {
      FixpointLoops(mem, end, c, n - 1);
    }
  }

  /** A cursor that a turn leaves alone stays for ever, unless the loop ends there at once. */
  lemma FixpointDecides(mem: seq<byte>, end: nat, c: Cursor)
    requires end <= |mem| && (Running(end, c) ==> Turn(mem, end, c) == c)
    ensures NeverEnds(mem, end, c) <==> Running(end, c)
  {
    hide Turn;
    if Running(end, c) {
      forall n: nat
        ensures !EndsWithin(mem, end, c, n)
      {
        FixpointLoops(mem, end, c, n);
      }
    } else {
      assert EndsWithin(mem, end, c, 0);
    }
  }

  // ------------------------------------------------- on which buffers it ends

  /** The field that is missing is not all there: its data, behind a name that is in hand or
      that is not all there either. */
  predicate StuckHere(end: nat, c: Cursor) {
    && Running(end, c)
    && !(0 < c.msg.dlen && c.ptr + c.msg.dlen <= end)
    && (c.msg.name != [] || (c.msg.dlen != 0 && !(0 < c.msg.nlen && c.ptr + c.msg.nlen <= end)))
  }

  /** A turn changes nothing at a cursor that is stuck, and moves any other on. */
  lemma TurnMoves(mem: seq<byte>, end: nat, c: Cursor)
    requires end <= |mem| && Running(end, c)
    ensures if StuckHere(end, c) then Turn(mem, end, c) == c else Turn(mem, end, c).ptr > c.ptr
  {}

  /** Whether the parser runs into a place where it is stuck: one scan over the buffer, from any
      position and with anything pending. */
  predicate StallsFrom(mem: seq<byte>, end: nat, c: Cursor)
    requires end <= |mem|
    decreases end - c.ptr
  {
    Running(end, c) &&
    (StuckHere(end, c) ||
     (TurnMoves(mem, end, c);
      StallsFrom(mem, end, Turn(mem, end, c))))
  }

  /** Where the loop ends. */
  function Finished(mem: seq<byte>, end: nat, c: Cursor): Cursor
    requires end <= |mem| && !StallsFrom(mem, end, c)
    decreases end - c.ptr
  {
    if !Running(end, c) then c
    else
      TurnMoves(mem, end, c);
      Finished(mem, end, Turn(mem, end, c))
  }

  /** On every buffer, from every position and with any message pending, the loop fails to end
      exactly when the scan runs into a place where it is stuck. */
  lemma {:induction false} NeverEndsIff(mem: seq<byte>, end: nat, c: Cursor)
    requires end <= |mem|
    ensures NeverEnds(mem, end, c) <==> StallsFrom(mem, end, c)
    decreases end - c.ptr
  {
    hide Turn, NeverEnds, StuckHere;
    if Running(end, c) {
      TurnMoves(mem, end, c);
      if StuckHere(end, c) {
        FixpointDecides(mem, end, c);
      } else {
        TurnDecides(mem, end, c);
        NeverEndsIff(mem, end, Turn(mem, end, c));
      }
    } else {
      FixpointDecides(mem, end, c);
    }
  }

  /** A number of turns on the way changes neither. */
  lemma {:induction false} LoopThenFinished(mem: seq<byte>, end: nat, c: Cursor, n: nat)
    requires end <= |mem|
    ensures StallsFrom(mem, end, Loop(mem, end, c, n)) <==> StallsFrom(mem, end, c)
    ensures !StallsFrom(mem, end, c) ==> Finished(mem, end, Loop(mem, end, c, n)) == Finished(mem, end, c)
    decreases n
  {
    hide Turn, StuckHere;
    if n > 0 && Running(end, c) {
      TurnMoves(mem, end, c);
      LoopThenFinished(mem, end, Turn(mem, end, c), n - 1);
    }
  }

  /** What was delivered before changes neither. */
  lemma {:induction false} FinishedKeepsGot(mem: seq<byte>, end: nat, c: Cursor, g: seq<Message>)
    requires end <= |mem|
    ensures var c' := c.(got := g + c.got);
            && (StallsFrom(mem, end, c') <==> StallsFrom(mem, end, c))
            && (!StallsFrom(mem, end, c) ==>
                  var t := Finished(mem, end, c); Finished(mem, end, c') == t.(got := g + t.got))
    decreases end - c.ptr
  {
    hide Turn;
    if Running(end, c) && !StuckHere(end, c) {
      TurnMoves(mem, end, c);
      GotIsKept(mem, end, c, g);
      FinishedKeepsGot(mem, end, Turn(mem, end, c), g);
    }
  }

  // ------------------------------------------------------- whole and cut frames

  function Cleared(p: nat): Cursor { Cursor(p, CLEARED, false, []) }

  lemma FrameInFront(mem: seq<byte>, p: nat, end: nat, ms: seq<Message>, tail: seq<byte>)
    requires (forall m <- ms :: Sendable(m)) && ms != []
    requires p <= end <= |mem| && mem[p..end] == Wire(ms) + tail
    ensures var n := |Frame(ms[0])|;
            && 14 <= n <= end - p && mem[p..p + n] == Frame(ms[0])
            && mem[p + n..end] == Wire(ms[1..]) + tail
  {
    var f := Frame(ms[0]);
    Associative(f, Wire(ms[1..]), tail);
    SplitSlice(mem, p, end, f, Wire(ms[1..]) + tail);
  }

  /** Whole frames in front are taken one a turn, and what is behind them decides the rest. */
  lemma {:induction false} FramesThenTail(mem: seq<byte>, p: nat, end: nat, ms: seq<Message>, tail: seq<byte>)
    requires (forall m <- ms :: Sendable(m)) && p <= end <= |mem| && mem[p..end] == Wire(ms) + tail
    ensures |Wire(ms)| <= end - p
    ensures Loop(mem, end, Cleared(p), |ms|) == Cursor(p + |Wire(ms)|, CLEARED, false, ms)
    ensures NeverEnds(mem, end, Cleared(p)) <==> NeverEnds(mem, end, Cleared(p + |Wire(ms)|))
    decreases |ms|
  {
    hide Turn, NeverEnds, Frame;
    if ms != [] {
      FrameInFront(mem, p, end, ms, tail);
      var f := Frame(ms[0]);
      var q := p + |f|;
      TurnTakesFrame(mem, end, Cleared(p), ms[0]);
      assert [] + [ms[0]] == [ms[0]] && [ms[0]] + [] == [ms[0]];
      FramesThenTail(mem, q, end, ms[1..], tail);
      LoopKeepsGot(mem, end, Cleared(q), [ms[0]], |ms| - 1);
      assert [ms[0]] + ms[1..] == ms;
      TurnDecides(mem, end, Cleared(p));
      NeverEndsWhateverGot(mem, end, Cleared(q), [ms[0]]);
    }
  }

  /** On a buffer of whole frames the loop ends with the callback called once a message, in
      order, and nothing left over. */
  lemma WholeFramesAreDelivered(mem: seq<byte>, p: nat, end: nat, ms: seq<Message>)
    requires (forall m <- ms :: Sendable(m)) && p <= end <= |mem| && mem[p..end] == Wire(ms)
    ensures !StallsFrom(mem, end, Cleared(p))
    ensures Finished(mem, end, Cleared(p)) == Cursor(end, CLEARED, false, ms)
  {
    hide Turn;
    assert Wire(ms) + [] == Wire(ms);
    FramesThenTail(mem, p, end, ms, []);
    LoopThenFinished(mem, end, Cleared(p), |ms|);
  }

  /** The first `n` bytes of a frame lie at `p`, and the buffer ends there. */
  ghost predicate CutAt(mem: seq<byte>, p: nat, end: nat, m: Message) {
    Sendable(m) && p <= end <= |mem| && end - p < |Frame(m)| && mem[p..end] == Frame(m)[..end - p]
  }

  /** Where the parser is when it has read the lengths. */
  function AfterHead(p: nat, m: Message): Cursor { Cursor(p + 12, Pending(m.cmd, |m.name|, |m.data|, []), false, []) }

  lemma CutShows(mem: seq<byte>, p: nat, end: nat, m: Message, a: nat, b: nat)
    requires CutAt(mem, p, end, m) && a <= b <= end - p
    ensures mem[p + a..p + b] == Frame(m)[a..b]
  {
    hide Frame;
    SliceOfSlice(mem, p, end, a, b);
    SliceOfSlice(Frame(m), 0, end - p, a, b);
    assert Frame(m)[0..end - p] == Frame(m)[..end - p];
  }

  /** A cut head ends the loop, past the end of the bytes unless it is cut between its fields. */
  lemma ShortHeadBreaks(mem: seq<byte>, p: nat, end: nat, m: Message)
    requires CutAt(mem, p, end, m) && 4 < end - p <= 12
    ensures Turn(mem, end, Cleared(p)).broke
    ensures Turn(mem, end, Cleared(p)).ptr > end <==> end - p != 8 && end - p != 12
  {
    CutShows(mem, p, end, m, 0, 3);
    assert Frame(m)[0..3] == MSG_TAG;
    CutShows(mem, p, end, m, 3, 4);
    assert Frame(m)[3..4] == [m.cmd as byte];
    assert mem[p + 3] == mem[p + 3..p + 4][0];
  }

  lemma HeadIsRead(mem: seq<byte>, p: nat, end: nat, m: Message)
    requires CutAt(mem, p, end, m) && end - p > 12
    ensures Turn(mem, end, Cleared(p)) == AtName(mem, end, AfterHead(p, m))
  {
    hide AtName;
    CutShows(mem, p, end, m, 0, 12);
    assert Frame(m)[0..12] == Head(m) by {
      assert Frame(m) == Head(m) + (m.name + m.data);
    }
    HeadFields(mem, p, m);
  }

  /** A frame whose name is whole and whose data is cut. */
  lemma NameWhole(mem: seq<byte>, p: nat, end: nat, m: Message)
    requires CutAt(mem, p, end, m) && end - p >= 12 + |m.name|
    ensures NeverEnds(mem, end, AtName(mem, end, AfterHead(p, m))) <==> end - p > 16 + |m.name|
  {
    hide NeverEnds;
    CutShows(mem, p, end, m, 12, 12 + |m.name|);
    assert Frame(m)[12..12 + |m.name|] == m.name;
    FixpointDecides(mem, end, AtName(mem, end, AfterHead(p, m)));
  }

  /** A frame cut inside its name, too short to take as much data as it announces. */
  lemma NameCut(mem: seq<byte>, p: nat, end: nat, m: Message)
    requires CutAt(mem, p, end, m) && 12 < end - p < 12 + |m.name| && end - p < 12 + |m.data|
    ensures NeverEnds(mem, end, AtName(mem, end, AfterHead(p, m))) <==> end - p > 16
  {
    hide NeverEnds;
    FixpointDecides(mem, end, AtName(mem, end, AfterHead(p, m)));
  }

  /** A frame cut inside its name, with as many bytes as its data is long: the parser takes the
      name for the data. */
  lemma NameTakenForData(mem: seq<byte>, p: nat, end: nat, m: Message)
    requires CutAt(mem, p, end, m) && 12 + |m.data| <= end - p < 12 + |m.name|
    ensures AtName(mem, end, AfterHead(p, m))
            == Cursor(p + 12 + |m.data|, CLEARED, false, [Message(m.cmd, [], m.name[..|m.data|])])
  {
    CutShows(mem, p, end, m, 12, 12 + |m.data|);
    FrontOfName(m, |m.data|);
  }

  lemma FrontOfName(m: Message, k: nat)
    requires Sendable(m) && k <= |m.name|
    ensures |Frame(m)| >= 12 + k && Frame(m)[12..12 + k] == m.name[..k]
  {
    hide Head;
    var head, rest := Head(m), m.name + m.data;
    Associative(head, m.name, m.data);
    assert (head + rest)[12..12 + k] == rest[..k];
    assert rest[..k] == m.name[..k];
  }

  /** What a call delivers of a cut frame: nothing, except when it is cut inside its name and
      has as many bytes behind its lengths as its data is long; then a message without a name,
      with the beginning of the name for its data. */
  lemma CutFrameDelivers(mem: seq<byte>, p: nat, end: nat, m: Message)
    requires CutAt(mem, p, end, m) && end - p > 4
    ensures Turn(mem, end, Cleared(p)).got
            == if 12 + |m.data| <= end - p < 12 + |m.name| then [Message(m.cmd, [], m.name[..|m.data|])] else []
  {
    if end - p <= 12 {
      ShortHeadDelivers(mem, p, end, m);
    } else {
      HeadIsRead(mem, p, end, m);
      if 12 + |m.data| <= end - p < 12 + |m.name| {
        NameTakenForData(mem, p, end, m);
      }
    }
  }

  lemma ShortHeadDelivers(mem: seq<byte>, p: nat, end: nat, m: Message)
    requires CutAt(mem, p, end, m) && 4 < end - p <= 12
    ensures Turn(mem, end, Cleared(p)).got == []
  {
    ShortHeadBreaks(mem, p, end, m);
  }

  /** Whether the loop fails to end on a cut frame of `n` bytes. In the last case a scan of what
      follows the bytes taken for data decides. */
  predicate Stalls(mem: seq<byte>, p: nat, end: nat, m: Message)
    requires end <= |mem| && p <= end
  {
    var n := end - p;
    || n > 16 + |m.name|
    || (16 < n < 12 + |m.name| && n < 12 + |m.data|)
    || (12 + |m.data| <= n < 12 + |m.name| && StallsFrom(mem, end, Cleared(p + 12 + |m.data|)))
  }

  lemma CutFrameDecides(mem: seq<byte>, p: nat, end: nat, m: Message)
    requires CutAt(mem, p, end, m)
    ensures NeverEnds(mem, end, Cleared(p)) <==> Stalls(mem, p, end, m)
  {
    hide NeverEnds, Turn, AtName, StallsFrom;
    var n, t := end - p, AtName(mem, end, AfterHead(p, m));
    if n <= 4 {
      FixpointDecides(mem, end, Cleared(p));
    } else if n <= 12 {
      ShortHeadBreaks(mem, p, end, m);
      TurnDecides(mem, end, Cleared(p));
      FixpointDecides(mem, end, Turn(mem, end, Cleared(p)));
    } else {
      HeadIsRead(mem, p, end, m);
      TurnDecides(mem, end, Cleared(p));
      if n >= 12 + |m.name| {
        NameWhole(mem, p, end, m);
      } else if n < 12 + |m.data| {
        NameCut(mem, p, end, m);
      } else {
        NameTakenForData(mem, p, end, m);
        NeverEndsWhateverGot(mem, end, Cleared(p + 12 + |m.data|), t.got);
        NeverEndsIff(mem, end, Cleared(p + 12 + |m.data|));
      }
    }
  }

  /** ff_ctl_recv with a cleared parser on whole frames and a frame cut short fails to return
      exactly when the cut frame has more than 4 bytes of data behind a whole name, or more than
      4 bytes of a name it has no other use for, or when the same happens behind the bytes of
      the name that it takes for data. */
  lemma ReceiveStallsIff(mem: seq<byte>, rpos: nat, wpos: nat, ms: seq<Message>, m: Message, n: nat)
    requires (forall k <- ms :: Sendable(k)) && Sendable(m) && n < |Frame(m)|
    requires rpos <= wpos <= |mem| && mem[rpos..wpos] == Wire(ms) + Frame(m)[..n]
    ensures NeverEnds(mem, wpos, Cleared(rpos)) <==> Stalls(mem, wpos - n, wpos, m)
  {
    hide NeverEnds, Frame, Wire, Stalls, Loop;
    FramesThenTail(mem, rpos, wpos, ms, Frame(m)[..n]);
    SplitSlice(mem, rpos, wpos, Wire(ms), Frame(m)[..n]);
    CutFrameDecides(mem, wpos - n, wpos, m);
  }

  predicate TagAt(s: seq<byte>, i: nat) { i + 3 <= |s| && s[i..i + 3] == MSG_TAG }

  /** Without a tag the loop runs through. */
  lemma {:induction false} NoTagEnds(mem: seq<byte>, p: nat, end: nat)
    requires end <= |mem| && forall i: nat :: p <= i && i + 3 <= end ==> !TagAt(mem, i)
    ensures !NeverEnds(mem, end, Cleared(p))
    decreases end - p
  {
    hide NeverEnds;
    if p + 4 < end {
      assert !TagAt(mem, p);
      assert Turn(mem, end, Cleared(p)) == Cleared(p + 1);
      NoTagEnds(mem, p + 1, end);
      TurnDecides(mem, end, Cleared(p));
    } else {
      FixpointDecides(mem, end, Cleared(p));
    }
  }

  /** When no tag starts inside the name, lengths alone decide. */
  lemma PlainNameStallsIff(mem: seq<byte>, rpos: nat, wpos: nat, ms: seq<Message>, m: Message, n: nat)
    requires (forall k <- ms :: Sendable(k)) && Sendable(m) && n < |Frame(m)|
    requires rpos <= wpos <= |mem| && mem[rpos..wpos] == Wire(ms) + Frame(m)[..n]
    requires forall i: nat :: i < |m.name| ==> !TagAt(m.name, i)
    ensures NeverEnds(mem, wpos, Cleared(rpos))
            <==> n > 16 + |m.name| || (16 < n < 12 + |m.name| && n < 12 + |m.data|)
  {
    hide NeverEnds, Frame, TagAt, Wire, StallsFrom;
    ReceiveStallsIff(mem, rpos, wpos, ms, m, n);
    var p := wpos - n;
    if 12 + |m.data| <= n < 12 + |m.name| {
      SplitSlice(mem, rpos, wpos, Wire(ms), Frame(m)[..n]);
      assert CutAt(mem, p, wpos, m);
      forall i: nat | p + 12 + |m.data| <= i && i + 3 <= wpos
        ensures !TagAt(mem, i)
      {
        TagsOfName(mem, p, wpos, m, i);
      }
      NoTagEnds(mem, p + 12 + |m.data|, wpos);
      NeverEndsIff(mem, wpos, Cleared(p + 12 + |m.data|));
    }
  }

  lemma TagsOfName(mem: seq<byte>, p: nat, end: nat, m: Message, i: nat)
    requires CutAt(mem, p, end, m) && end - p < 12 + |m.name| && p + 12 <= i && i + 3 <= end
    ensures TagAt(mem, i) <==> TagAt(m.name, i - p - 12)
  {
    hide Frame;
    CutShows(mem, p, end, m, i - p, i - p + 3);
    NameBytes(m, i - p - 12);
  }

  lemma NameBytes(m: Message, k: nat)
    requires Sendable(m) && k + 3 <= |m.name|
    ensures Frame(m)[k + 12..k + 15] == m.name[k..k + 3]
  {
    assert Frame(m) == Head(m) + (m.name + m.data);
    assert (m.name + m.data)[k..k + 3] == m.name[k..k + 3];
  }

  /** For instance 18 bytes of the 19 of a message with a name of 1 and data of 6. */
  lemma StallingFrame()
    ensures var m := Message(1, [97], [98, 98, 98, 98, 98, 98]);
            Sendable(m) && |Frame(m)| == 19 && NeverEnds(Frame(m)[..18], 18, Cleared(0))
  {
    var m := Message(1, [97], [98, 98, 98, 98, 98, 98]);
    var mem := Frame(m)[..18];
    assert mem[0..18] == Wire([]) + Frame(m)[..18];
    ReceiveStallsIff(mem, 0, 18, [], m, 18);
  }

  // ------------------------------------------------- a message in several calls

  /** The places inside a frame where a call can leave off with all fields before them read. */
  predicate Stage(m: Message, k: nat) { k == 0 || k == 8 || k == 12 || k == 12 + |m.name| }

  /** What is pending there. */
  function Held(m: Message, k: nat): Pending {
    if k == 0 then CLEARED
    else if k == 8 then Pending(m.cmd, |m.name|, 0, [])
    else if k == 12 then Pending(m.cmd, |m.name|, |m.data|, [])
    else Pending(m.cmd, |m.name|, |m.data|, m.name)
  }

  /** Cuts that a later call makes good: at a place between two fields, or a little behind one
      so that the loop does not start on the next. */
  predicate Resumable(m: Message, n: nat) {
    && Sendable(m) && n < |Frame(m)|
    && (n <= 4 || n == 8 || (12 <= n <= 16 && n < 12 + |m.name| && n < 12 + |m.data|)
        || 12 + |m.name| <= n <= 16 + |m.name|)
  }

  /** The rest of a frame behind its first `k` bytes lies at `p`, up to its first `n` bytes. */
  ghost predicate PartAt(mem: seq<byte>, p: nat, m: Message, k: nat, n: nat) {
    Sendable(m) && k <= n <= |Frame(m)| && p + (n - k) <= |mem| && mem[p..p + (n - k)] == Frame(m)[k..n]
  }

  lemma PartShows(mem: seq<byte>, p: nat, m: Message, k: nat, n: nat, a: nat, b: nat)
    requires PartAt(mem, p, m, k, n) && k <= a <= b <= n
    ensures mem[p + (a - k)..p + (b - k)] == Frame(m)[a..b]
  {
    hide Frame;
    SliceOfSlice(mem, p, p + (n - k), a - k, b - k);
    SliceOfSlice(Frame(m), k, n, a - k, b - k);
  }

  lemma FieldsOfFrame(m: Message)
    requires Sendable(m)
    ensures |Frame(m)| == 12 + |m.name| + |m.data|
    ensures Frame(m)[0..12] == Head(m) && Frame(m)[8..12] == BigEndian(|m.data|, 4)
    ensures Frame(m)[12..12 + |m.name|] == m.name && Frame(m)[12 + |m.name|..|Frame(m)|] == m.data
  {
    assert Frame(m) == Head(m) + (m.name + m.data);
    assert Head(m)[8..12] == BigEndian(|m.data|, 4);
  }

  lemma DataLengthThere(mem: seq<byte>, p: nat, m: Message, n: nat)
    requires PartAt(mem, p, m, 8, n) && n >= 12
    ensures Read32(mem, p) == |m.data|
  {
    hide Frame, Head;
    FieldsOfFrame(m);
    PartShows(mem, p, m, 8, n, 8, 12);
    LengthReadsBack(mem, p, |m.data|);
  }

  lemma RestBehindLengths(mem: seq<byte>, p: nat, end: nat, m: Message)
    requires Sendable(m) && PartAt(mem, p, m, 12, |Frame(m)|) && p + (|Frame(m)| - 12) <= end <= |mem|
    ensures AtName(mem, end, Cursor(p, Held(m, 12), false, [])) == Cursor(p + (|Frame(m)| - 12), CLEARED, false, [m])
  {
    FieldsOfFrame(m);
    hide Frame;
    PartShows(mem, p, m, 12, |Frame(m)|, 12, 12 + |m.name|);
    PartShows(mem, p, m, 12, |Frame(m)|, 12 + |m.name|, |Frame(m)|);
    assert [] + [m] == [m];
    NameAndData(mem, end, Cursor(p, Held(m, 12), false, []), m);
  }

  lemma RestBehindName(mem: seq<byte>, p: nat, end: nat, m: Message)
    requires Sendable(m) && PartAt(mem, p, m, 12 + |m.name|, |Frame(m)|) && p + |m.data| <= end <= |mem|
    ensures |Frame(m)| == 12 + |m.name| + |m.data|
    ensures AtData(mem, end, Cursor(p, Held(m, 12 + |m.name|), false, []))
            == Cursor(p + |m.data|, CLEARED, false, [m])
  {
    FieldsOfFrame(m);
    hide Frame;
    PartShows(mem, p, m, 12 + |m.name|, |Frame(m)|, 12 + |m.name|, |Frame(m)|);
    assert [] + [m] == [m];
  }

  lemma PartFromLengths(mem: seq<byte>, p: nat, m: Message, n: nat)
    requires PartAt(mem, p, m, 8, n) && n >= 12
    ensures PartAt(mem, p + 4, m, 12, n)
  {
    hide Frame;
    PartShows(mem, p, m, 8, n, 12, n);
  }

  /** Where a turn goes from each stage behind the start. */
  lemma StageTurns(mem: seq<byte>, p: nat, end: nat, m: Message)
    requires Sendable(m) && p + 4 < end <= |mem|
    ensures Turn(mem, end, Cursor(p, Held(m, 12), false, [])) == AtName(mem, end, Cursor(p, Held(m, 12), false, []))
    ensures var c := Cursor(p, Held(m, 12 + |m.name|), false, []); Turn(mem, end, c) == AtData(mem, end, c)
    ensures Read32(mem, p) == |m.data| ==>
              Turn(mem, end, Cursor(p, Held(m, 8), false, []))
              == AtName(mem, end, Cursor(p + 4, Held(m, 12), false, []))
  {
    hide AtName, AtData, Read32;
  }

  /** A turn that finds the rest of the frame delivers the message, wherever the last call left off. */
  lemma RestIsDelivered(mem: seq<byte>, p: nat, end: nat, m: Message, k: nat)
    requires Sendable(m) && Stage(m, k) && PartAt(mem, p, m, k, |Frame(m)|)
    requires p + 4 < end <= |mem| && p + (|Frame(m)| - k) <= end
    ensures Turn(mem, end, Cursor(p, Held(m, k), false, [])) == Cursor(p + (|Frame(m)| - k), CLEARED, false, [m])
  {
    hide Frame, Head, AtName, AtData, Turn, Read32;
    FieldsOfFrame(m);
    StageTurns(mem, p, end, m);
    if k == 0 {
      assert Frame(m)[0..|Frame(m)|] == Frame(m);
      assert [] + [m] == [m];
      TurnTakesFrame(mem, end, Cleared(p), m);
    } else if k == 8 {
      DataLengthThere(mem, p, m, |Frame(m)|);
      PartFromLengths(mem, p, m, |Frame(m)|);
      RestBehindLengths(mem, p + 4, end, m);
    } else if k == 12 {
      RestBehindLengths(mem, p, end, m);
    } else {
      RestBehindName(mem, p, end, m);
    }
  }

  /** Where a turn leaves a frame that is cut at a place it can be resumed from. */
  function Reached(m: Message, n: nat): nat {
    if n <= 8 then n else if n < 12 + |m.name| then 12 else 12 + |m.name|
  }

  /** A turn that finds a resumable part of a frame delivers nothing and leaves off at a stage,
      where the loop ends. */
  lemma PartIsHeld(mem: seq<byte>, p: nat, end: nat, m: Message, k: nat, n: nat)
    requires Stage(m, k) && Resumable(m, n) && k <= n && PartAt(mem, p, m, k, n)
    requires p + (n - k) == end && 4 < n - k
    ensures var t, k' := Turn(mem, end, Cursor(p, Held(m, k), false, [])), Reached(m, n);
            && k <= k' && Stage(m, k') && !Running(end, t)
            && t.ptr == p + (k' - k) && t.msg == Held(m, k') && t.got == []
  {
    hide Frame, Head, Turn, Read32;
    FieldsOfFrame(m);
    if k == 0 {
      FirstPart(mem, p, end, m, n);
    } else {
      StageTurns(mem, p, end, m);
      if n >= 12 + |m.name| {
        PartShows(mem, p, m, k, n, 12, 12 + |m.name|);
      }
      if k == 8 {
        DataLengthThere(mem, p, m, n);
      }
    }
  }

  lemma FirstPart(mem: seq<byte>, p: nat, end: nat, m: Message, n: nat)
    requires Resumable(m, n) && 4 < n && PartAt(mem, p, m, 0, n) && p + n == end
    ensures var t, k' := Turn(mem, end, Cleared(p)), Reached(m, n);
            && Stage(m, k') && !Running(end, t) && t.ptr == p + k' && t.msg == Held(m, k') && t.got == []
  {
    hide Frame, Head, Turn;
    assert Frame(m)[0..n] == Frame(m)[..n];
    if n <= 12 {
      HeadPart(mem, p, end, m, n);
    } else {
      HeadIsRead(mem, p, end, m);
      FieldsOfFrame(m);
      if n >= 12 + |m.name| {
        CutShows(mem, p, end, m, 12, 12 + |m.name|);
      }
    }
  }

  lemma HeadPart(mem: seq<byte>, p: nat, end: nat, m: Message, n: nat)
    requires Sendable(m) && (n == 8 || n == 12) && p + n == end <= |mem| && CutAt(mem, p, end, m)
    ensures var t := Turn(mem, end, Cleared(p));
            t.broke && t.ptr == p + n && t.msg == Held(m, n) && t.got == []
  {
    ShortHeadBreaks(mem, p, end, m);
    CutShows(mem, p, end, m, 0, 3);
    CutShows(mem, p, end, m, 3, 4);
    CutShows(mem, p, end, m, 4, 8);
    HeadSlices(m);
    assert mem[p + 3] == mem[p + 3..p + 4][0];
    LengthReadsBack(mem, p + 4, |m.name|);
    if n == 12 {
      CutShows(mem, p, end, m, 8, 12);
      LengthReadsBack(mem, p + 8, |m.data|);
    }
  }

  lemma HeadSlices(m: Message)
    requires Sendable(m)
    ensures |Frame(m)| >= 12
    ensures Frame(m)[0..3] == MSG_TAG && Frame(m)[3..4] == [m.cmd as byte]
    ensures Frame(m)[4..8] == BigEndian(|m.name|, 4) && Frame(m)[8..12] == BigEndian(|m.data|, 4)
  {
    assert Frame(m) == Head(m) + (m.name + m.data);
    var h := Head(m);
    assert h[0..3] == MSG_TAG && h[3..4] == [m.cmd as byte];
    assert h[4..8] == BigEndian(|m.name|, 4) && h[8..12] == BigEndian(|m.data|, 4);
  }

  /** A call from any stage of a message, when the buffer ends at a resumable cut of the same
      message: it delivers nothing, and what it leaves is a stage again and the bytes behind it. */
  lemma PartResumes(mem: seq<byte>, p: nat, end: nat, m: Message, k: nat, n: nat) returns (k': nat)
    requires Stage(m, k) && Resumable(m, n) && k <= n && PartAt(mem, p, m, k, n) && p + (n - k) == end
    ensures var start := Cursor(p, Held(m, k), false, []);
            && !StallsFrom(mem, end, start)
            && var c := Finished(mem, end, start);
               k <= k' <= n && Stage(m, k') && c.msg == Held(m, k') && c.ptr == end - (n - k') && c.got == []
  {
    hide Turn, StuckHere, Frame;
    k' := k;
    if n - k > 4 {
      PartIsHeld(mem, p, end, m, k, n);
      k' := Reached(m, n);
      EndsAfterTurn(mem, end, Cursor(p, Held(m, k), false, []));
    }
  }

  /** And these are the only cuts that a cleared parser takes well: at any other it does not
      return, delivers what was not sent, or leaves the read position past the end. */
  lemma ResumableIff(mem: seq<byte>, p: nat, end: nat, m: Message)
    requires CutAt(mem, p, end, m)
    ensures Resumable(m, end - p) <==>
              !StallsFrom(mem, end, Cleared(p)) &&
              var c := Finished(mem, end, Cleared(p)); c.got == [] && c.ptr <= end
  {
    hide Turn, Frame, StallsFrom, NeverEnds, Finished;
    var n := end - p;
    if Resumable(m, n) {
      assert Frame(m)[0..n] == Frame(m)[..n];
      var _ := PartResumes(mem, p, end, m, 0, n);
    } else {
      assert n > 4 && |Frame(m)| == 12 + |m.name| + |m.data|;
      CutFrameDecides(mem, p, end, m);
      NeverEndsIff(mem, end, Cleared(p));
      TurnOnCut(mem, p, end, m);
      if !StallsFrom(mem, end, Cleared(p)) {
        if n < 12 {
          ShortHeadBreaks(mem, p, end, m);
          TurnThenFinished(mem, end, Cleared(p));
          EndsAtOnce(mem, end, Turn(mem, end, Cleared(p)));
        } else {
          CutFrameDelivers(mem, p, end, m);
          TurnThenFinished(mem, end, Cleared(p));
          FinishedGrows(mem, end, Turn(mem, end, Cleared(p)));
        }
      }
    }
  }

  lemma TurnOnCut(mem: seq<byte>, p: nat, end: nat, m: Message)
    requires CutAt(mem, p, end, m) && end - p > 4
    ensures Turn(mem, end, Cleared(p)).ptr > p
  {
    hide Turn;
    TurnMoves(mem, end, Cleared(p));
  }

  lemma FinishedGrows(mem: seq<byte>, end: nat, c: Cursor)
    requires end <= |mem| && !StallsFrom(mem, end, c)
    ensures |Finished(mem, end, c).got| >= |c.got|
  {
    hide Turn;
    FinishedKeepsGot(mem, end, c.(got := []), c.got);
    assert c.got + [] == c.got;
  }

  lemma EndsAfterTurn(mem: seq<byte>, end: nat, c: Cursor)
    requires end <= |mem| && Running(end, c) && !Running(end, Turn(mem, end, c)) && Turn(mem, end, c) != c
    ensures !StallsFrom(mem, end, c) && Finished(mem, end, c) == Turn(mem, end, c)
  {
    hide Turn;
    TurnMoves(mem, end, c);
  }

  /** A call from any stage of a message, when the rest of it, whole frames and a resumable cut
      of one more follow: each message is delivered once and in order, and what is left is a stage
      of the cut one. Fewer than 5 bytes are left for the next call. */
  lemma CallResumes(mem: seq<byte>, p: nat, end: nat, m: Message, k: nat, ms: seq<Message>, m2: Message, n: nat)
    returns (k2: nat)
    requires Sendable(m) && Stage(m, k) && (forall x <- ms :: Sendable(x)) && Resumable(m2, n)
    requires p <= end <= |mem| && mem[p..end] == Frame(m)[k..] + (Wire(ms) + Frame(m2)[..n])
    ensures var start := Cursor(p, Held(m, k), false, []);
            && !StallsFrom(mem, end, start)
            && var c := Finished(mem, end, start);
               if end - p <= 4 then c == start
               else k2 <= n && Stage(m2, k2) && c.msg == Held(m2, k2) && c.ptr == end - (n - k2) && c.got == [m] + ms
  {
    hide Turn, Frame, Wire, StuckHere, StallsFrom, Finished;
    k2 := 0;
    if end - p <= 4 {
      EndsAtOnce(mem, end, Cursor(p, Held(m, k), false, []));
    } else {
      var tail := Frame(m2)[..n];
      SplitSlice(mem, p, end, Frame(m)[k..], Wire(ms) + tail);
      var q := p + (|Frame(m)| - k);
      assert Frame(m)[k..] == Frame(m)[k..|Frame(m)|];
      RestIsDelivered(mem, p, end, m, k);
      k2 := TailResumes(mem, q, end, ms, m2, n);
      FinishedKeepsGot(mem, end, Cleared(q), [m]);
      assert [m] + [] == [m];
      TurnThenFinished(mem, end, Cursor(p, Held(m, k), false, []));
    }
  }

  lemma EndsAtOnce(mem: seq<byte>, end: nat, c: Cursor)
    requires end <= |mem| && !Running(end, c)
    ensures !StallsFrom(mem, end, c) && Finished(mem, end, c) == c
  {}

  lemma TurnThenFinished(mem: seq<byte>, end: nat, c: Cursor)
    requires end <= |mem| && Running(end, c) && Turn(mem, end, c).ptr > c.ptr
    ensures StallsFrom(mem, end, c) <==> StallsFrom(mem, end, Turn(mem, end, c))
    ensures !StallsFrom(mem, end, c) ==> Finished(mem, end, c) == Finished(mem, end, Turn(mem, end, c))
  {
    hide Turn;
    TurnMoves(mem, end, c);
  }

  lemma TailResumes(mem: seq<byte>, p: nat, end: nat, ms: seq<Message>, m2: Message, n: nat) returns (k2: nat)
    requires (forall x <- ms :: Sendable(x)) && Resumable(m2, n)
    requires p <= end <= |mem| && mem[p..end] == Wire(ms) + Frame(m2)[..n]
    ensures !StallsFrom(mem, end, Cleared(p))
    ensures var c := Finished(mem, end, Cleared(p));
            k2 <= n && Stage(m2, k2) && c.msg == Held(m2, k2) && c.ptr == end - (n - k2) && c.got == ms
  {
    hide Turn, Frame, Wire, StuckHere;
    var tail := Frame(m2)[..n];
    FramesThenTail(mem, p, end, ms, tail);
    SplitSlice(mem, p, end, Wire(ms), tail);
    var q := p + |Wire(ms)|;
    assert Frame(m2)[0..n] == tail;
    k2 := PartResumes(mem, q, end, m2, 0, n);
    LoopThenFinished(mem, end, Cleared(p), |ms|);
    FinishedKeepsGot(mem, end, Cleared(q), ms);
    assert ms + [] == ms;
  }

  // ------------------------------------------------------- a run of calls

  /** The stream up to byte `n` of message `i`. */
  function Upto(ms: seq<Message>, i: nat, n: nat): seq<byte>
    requires (forall m <- ms :: Sendable(m)) && i < |ms| && n <= |Frame(ms[i])|
  {
    Wire(ms[..i]) + Frame(ms[i])[..n]
  }

  /** Between two calls: how much of the stream has arrived, what is pending, the bytes not read,
      and the messages delivered. */
  datatype Line = Line(i: nat, n: nat, pending: Pending, unread: seq<byte>, got: seq<Message>)

  /** The buffer of a call, and how much of the stream has arrived by then. */
  datatype Arrival = Arrival(mem: seq<byte>, p: nat, end: nat, i: nat, n: nat)

  /** A call, unless it never returns. */
  function Called(l: Line, a: Arrival): Option<Line>
    requires a.end <= |a.mem|
  {
    var start := Cursor(a.p, l.pending, false, []);
    if StallsFrom(a.mem, a.end, start) then None
    else
      var c := Finished(a.mem, a.end, start);
      Some(Line(a.i, a.n, c.msg, if c.ptr <= a.end then a.mem[c.ptr..a.end] else [], l.got + c.got))
  }

  /** The buffer holds what was not read and what came in since, up to a resumable cut. */
  predicate Fits(ms: seq<Message>, l: Line, a: Arrival)
    requires forall m <- ms :: Sendable(m)
  {
    && a.p <= a.end <= |a.mem|
    && l.i <= a.i < |ms| && Resumable(ms[a.i], a.n) && (l.i == a.i ==> l.n <= a.n)
    && l.n <= |Frame(ms[l.i])| && l.unread <= a.mem[a.p..a.end]
    && Upto(ms, l.i, l.n) + a.mem[a.p..a.end][|l.unread|..] == Upto(ms, a.i, a.n)
  }

  function Calls(ms: seq<Message>, l: Line, calls: seq<Arrival>): Option<Line>
    requires forall a <- calls :: a.end <= |a.mem|
    decreases |calls|
  {
    if calls == [] then Some(l)
    else match Called(l, calls[0])
      case None => None
      case Some(l') => Calls(ms, l', calls[1..])
  }

  predicate AllFit(ms: seq<Message>, l: Line, calls: seq<Arrival>)
    requires (forall m <- ms :: Sendable(m)) && forall a <- calls :: a.end <= |a.mem|
    decreases |calls|
  {
    calls == [] ||
    (Fits(ms, l, calls[0]) &&
     match Called(l, calls[0])
     case None => true
     case Some(l') => AllFit(ms, l', calls[1..]))
  }

  /** The parser stands at stage `k` of message `j`, with `unread` behind that. */
  ghost predicate Stands(ms: seq<Message>, i: nat, n: nat, j: nat, k: nat, unread: seq<byte>) {
    && (forall m <- ms :: Sendable(m)) && j <= i < |ms|
    && n <= |Frame(ms[i])| && k <= |Frame(ms[j])| && Stage(ms[j], k) && (j == i ==> k <= n)
    && Upto(ms, i, n) == Upto(ms, j, k) + unread
  }

  /** All before message `j` are delivered, and fewer than 5 bytes wait unless `j` is the last. */
  ghost predicate LineAt(ms: seq<Message>, l: Line, j: nat, k: nat) {
    && Stands(ms, l.i, l.n, j, k, l.unread)
    && l.pending == Held(ms[j], k) && l.got == ms[..j] && (j == l.i || |l.unread| <= 4)
  }

  lemma {:induction false} WireSplits(ms: seq<Message>, j: nat, i: nat)
    requires (forall m <- ms :: Sendable(m)) && j <= i <= |ms|
    ensures Wire(ms[..i]) == Wire(ms[..j]) + Wire(ms[j..i])
    decreases j
  {
    hide Frame;
    if j == 0 {
      assert ms[..i] == ms[0..i];
    } else {
      WireSplits(ms[1..], j - 1, i - 1);
      assert ms[..i][1..] == ms[1..][..i - 1] && ms[..j][1..] == ms[1..][..j - 1] && ms[j..i] == ms[1..][j - 1..i - 1];
      Associative(Frame(ms[0]), Wire(ms[..j][1..]), Wire(ms[j..i]));
    }
  }

  lemma Cancel(a: seq<byte>, b: seq<byte>, c: seq<byte>)
    requires a + b == a + c
    ensures b == c
  {
    AfterFirst(a + b, a, b);
    AfterFirst(a + c, a, c);
  }

  /** What is unread is the rest of the message and what follows it. */
  lemma UnreadIs(ms: seq<Message>, i: nat, n: nat, j: nat, k: nat, unread: seq<byte>)
    requires Stands(ms, i, n, j, k, unread)
    ensures if j == i then unread == Frame(ms[i])[k..n]
            else unread == Frame(ms[j])[k..] + (Wire(ms[j + 1..i]) + Frame(ms[i])[..n])
  {
    hide Frame, Stage;
    var f, before := Frame(ms[j]), Wire(ms[..j]);
    assert before + f[..k] + unread == Upto(ms, i, n);
    Associative(before, f[..k], unread);
    if j == i {
      assert f[..n] == f[..k] + f[k..n];
      Cancel(before, f[..k] + unread, f[..n]);
      Cancel(f[..k], unread, f[k..n]);
    } else {
      var rest := Wire(ms[j + 1..i]) + Frame(ms[i])[..n];
      WireSplits(ms, j, i);
      assert ms[j..i][1..] == ms[j + 1..i];
      assert Wire(ms[j..i]) == f + Wire(ms[j + 1..i]);
      Associative(f, Wire(ms[j + 1..i]), Frame(ms[i])[..n]);
      Associative(before, f + Wire(ms[j + 1..i]), Frame(ms[i])[..n]);
      Cancel(before, f[..k] + unread, f + rest);
      assert f == f[..k] + f[k..];
      Associative(f[..k], f[k..], rest);
      Cancel(f[..k], unread, f[k..] + rest);
    }
  }

  /** What the call left: the parser at stage `k'` of message `i`. */
  lemma StandsAtLast(ms: seq<Message>, i: nat, n: nat, k: nat, unread: seq<byte>)
    requires (forall m <- ms :: Sendable(m)) && i < |ms| && k <= n <= |Frame(ms[i])| && Stage(ms[i], k)
    requires unread == Frame(ms[i])[k..n]
    ensures Stands(ms, i, n, i, k, unread)
  {
    hide Frame, Stage, Wire;
    assert Frame(ms[i])[..n] == Frame(ms[i])[..k] + Frame(ms[i])[k..n];
    Associative(Wire(ms[..i]), Frame(ms[i])[..k], unread);
  }

  lemma ArrivalStands(ms: seq<Message>, l: Line, a: Arrival, j: nat, k: nat)
    requires LineAt(ms, l, j, k) && Fits(ms, l, a)
    ensures Stands(ms, a.i, a.n, j, k, a.mem[a.p..a.end])
  {
    hide Frame, Stage, Wire, Upto, Held;
    var now := a.mem[a.p..a.end];
    assert now == l.unread + now[|l.unread|..];
    Associative(Upto(ms, j, k), l.unread, now[|l.unread|..]);
  }

  /** The last `n - k` bytes, when the bytes end with the first `n` of a frame. */
  lemma LastBytes(mem: seq<byte>, p: nat, end: nat, front: seq<byte>, f: seq<byte>, n: nat, k: nat)
    requires p <= end <= |mem| && k <= n <= |f| && mem[p..end] == front + f[..n]
    ensures end - (n - k) >= p && mem[end - (n - k)..end] == f[k..n]
  {
    assert f[..n] == f[..k] + f[k..n];
    Associative(front, f[..k], f[k..n]);
    SplitSlice(mem, p, end, front + f[..k], f[k..n]);
  }

  lemma CallReturns(l: Line, a: Arrival)
    requires a.end <= |a.mem| && !StallsFrom(a.mem, a.end, Cursor(a.p, l.pending, false, []))
    ensures var c := Finished(a.mem, a.end, Cursor(a.p, l.pending, false, []));
            c.ptr <= a.end ==> Called(l, a) == Some(Line(a.i, a.n, c.msg, a.mem[c.ptr..a.end], l.got + c.got))
  {
    hide StallsFrom, Finished;
  }

  /** A call keeps the line. */
  lemma CallKeepsLine(ms: seq<Message>, l: Line, a: Arrival, j: nat, k: nat) returns (j': nat, k': nat)
    requires LineAt(ms, l, j, k) && Fits(ms, l, a)
    ensures Called(l, a).Some? && LineAt(ms, Called(l, a).value, j', k')
  {
    hide Frame, Wire, StallsFrom, Finished, Stage, Held, Upto, Called;
    ArrivalStands(ms, l, a, j, k);
    UnreadIs(ms, a.i, a.n, j, k, a.mem[a.p..a.end]);
    if j == a.i {
      j' := a.i;
      k' := PartKeepsLine(ms, l, a, k);
    } else {
      j', k' := LaterCallKeepsLine(ms, l, a, j, k);
    }
  }

  lemma PartKeepsLine(ms: seq<Message>, l: Line, a: Arrival, k: nat) returns (k': nat)
    requires LineAt(ms, l, a.i, k) && a.p <= a.end <= |a.mem| && a.i < |ms| && Resumable(ms[a.i], a.n)
    requires k <= a.n && a.mem[a.p..a.end] == Frame(ms[a.i])[k..a.n]
    ensures Called(l, a).Some? && LineAt(ms, Called(l, a).value, a.i, k')
  {
    hide Frame, Wire, StallsFrom, Finished, Stage, Held, Upto, Called;
    var f := Frame(ms[a.i]);
    assert |a.mem[a.p..a.end]| == a.end - a.p;
    k' := PartResumes(a.mem, a.p, a.end, ms[a.i], k, a.n);
    assert f[k..a.n] == f[k..k'] + f[k'..a.n];
    SplitSlice(a.mem, a.p, a.end, f[k..k'], f[k'..a.n]);
    StandsAtLast(ms, a.i, a.n, k', f[k'..a.n]);
    CallReturns(l, a);
  }

  /** When the pending message and `more` have arrived whole. */
  lemma LaterCallKeepsLine(ms: seq<Message>, l: Line, a: Arrival, j: nat, k: nat) returns (j': nat, k': nat)
    requires LineAt(ms, l, j, k) && j < a.i && a.p <= a.end <= |a.mem|
    requires Stands(ms, a.i, a.n, j, k, a.mem[a.p..a.end]) && Resumable(ms[a.i], a.n)
    requires a.mem[a.p..a.end] == Frame(ms[j])[k..] + (Wire(ms[j + 1..a.i]) + Frame(ms[a.i])[..a.n])
    ensures Called(l, a).Some? && LineAt(ms, Called(l, a).value, j', k')
  {
    hide Frame, Wire, StallsFrom, Finished, Stage, Held, Upto, Called;
    var more := ms[j + 1..a.i];
    var k2 := CallResumes(a.mem, a.p, a.end, ms[j], k, more, ms[a.i], a.n);
    CallReturns(l, a);
    if a.end - a.p <= 4 {
      j', k' := j, k;
    } else {
      j', k' := a.i, k2;
      LeftAtLast(ms, a, j, k, k2);
      assert ms[..j] + ([ms[j]] + more) == ms[..a.i];
    }
  }

  lemma LeftAtLast(ms: seq<Message>, a: Arrival, j: nat, k: nat, k2: nat)
    requires (forall m <- ms :: Sendable(m)) && j < a.i < |ms| && a.p <= a.end <= |a.mem|
    requires k <= |Frame(ms[j])| && k2 <= a.n <= |Frame(ms[a.i])| && Stage(ms[a.i], k2)
    requires a.mem[a.p..a.end] == Frame(ms[j])[k..] + (Wire(ms[j + 1..a.i]) + Frame(ms[a.i])[..a.n])
    ensures a.end - (a.n - k2) >= 0
    ensures Stands(ms, a.i, a.n, a.i, k2, a.mem[a.end - (a.n - k2)..a.end])
  {
    hide Frame, Wire, Stage, Stands;
    var f, g, more := Frame(ms[a.i]), Frame(ms[j])[k..], Wire(ms[j + 1..a.i]);
    Associative(g, more, f[..a.n]);
    LastBytes(a.mem, a.p, a.end, g + more, f, a.n, k2);
    StandsAtLast(ms, a.i, a.n, k2, f[k2..a.n]);
  }

  lemma {:induction false} CallsKeepLine(ms: seq<Message>, l: Line, calls: seq<Arrival>, j: nat, k: nat)
    returns (j': nat, k': nat)
    requires LineAt(ms, l, j, k) && (forall a <- calls :: a.end <= |a.mem|) && AllFit(ms, l, calls)
    ensures Calls(ms, l, calls).Some? && LineAt(ms, Calls(ms, l, calls).value, j', k')
    decreases |calls|
  {
    hide Called, Fits, Stands;
    j', k' := j, k;
    if calls != [] {
      var j1, k1 := CallKeepsLine(ms, l, calls[0], j, k);
      j', k' := CallsKeepLine(ms, Called(l, calls[0]).value, calls[1..], j1, k1);
    }
  }

  const SILENCE := Line(0, 0, CLEARED, [], [])

  /** Over any run of calls, each met with the stream cut at a resumable place: every call returns,
      and every message that has arrived whole is delivered once and in order, except that the
      last of them may wait while fewer than 5 bytes of it are unread. */
  lemma StreamIsDelivered(ms: seq<Message>, calls: seq<Arrival>)
    requires ms != [] && (forall m <- ms :: Sendable(m))
    requires (forall a <- calls :: a.end <= |a.mem|) && AllFit(ms, SILENCE, calls)
    ensures var l := Calls(ms, SILENCE, calls);
            && l.Some? && l.value.i < |ms|
            && (l.value.got == ms[..l.value.i] ||
                (l.value.i > 0 && l.value.got == ms[..l.value.i - 1] && |l.value.unread| <= 4))
  {
    hide Frame, Wire, Calls, AllFit;
    StandsAtLast(ms, 0, 0, 0, []);
    var j, k := CallsKeepLine(ms, SILENCE, calls, 0, 0);
    var l := Calls(ms, SILENCE, calls).value;
    UnreadIs(ms, l.i, l.n, j, k, l.unread);
    if j + 1 < l.i {
      WireIsLong(ms[j + 1..l.i]);
    }
  }

  lemma WireIsLong(ms: seq<Message>)
    requires ms != [] && forall m <- ms :: Sendable(m)
    ensures |Wire(ms)| >= 12
  {}

  class Receiver {
    const sb: StreamBuffer
    var msg: Pending

    constructor (sb: StreamBuffer)
      ensures this.sb == sb && msg == CLEARED
    {
      this.sb := sb;
      msg := CLEARED;
    }

    /** The tail of the loop body, from the label `name` or from the label `data`. */
    method BodyInPlace(mem: seq<byte>, end: nat, p: nat, atData: bool) returns (ptr: nat, broke: bool,
        got: seq<Message>)
      requires end <= |mem|
      modifies this`msg
      ensures var c := Cursor(p, old(msg), false, []);
              Cursor(ptr, msg, broke, got) == if atData then AtData(mem, end, c) else AtName(mem, end, c)
    {
      ptr, broke, got := p, false, [];
      if !atData {
        if msg.nlen > 0 && ptr + msg.nlen <= end {
          msg := msg.(name := mem[ptr..ptr + msg.nlen]);
          ptr := ptr + msg.nlen;
        }
        if ptr >= end { broke := true; return; }
      }
      if msg.dlen > 0 && ptr + msg.dlen <= end {
        got := got + [Message(msg.cmd, msg.name, mem[ptr..ptr + msg.dlen])];
        ptr := ptr + msg.dlen;
        msg := CLEARED;
      }
    }

    /** One pass of the loop body over `mem`, with its gotos as a stage to resume at. */
    method TurnInPlace(mem: seq<byte>, end: nat, p: nat) returns (ptr: nat, broke: bool, got: seq<Message>)
      requires p + 4 < end <= |mem|
      modifies this`msg
      ensures Cursor(ptr, msg, broke, got) == Turn(mem, end, Cursor(p, old(msg), false, []))
    {
      ptr, broke, got := p, false, [];
      ghost var c0 := Cursor(p, msg, false, []);
      var stage := if msg.name != [] then 4 else if msg.dlen != 0 then 3
                   else if msg.nlen != 0 then 2 else if msg.cmd != 0 then 1 else 0;
      if stage == 0 {
        if mem[ptr..ptr + 3] != MSG_TAG {
          ptr := ptr + 1;
          return;
        }
        ptr := ptr + 3;
        msg := msg.(cmd := mem[ptr]);
        ptr := ptr + 1;
      }
      assert stage <= 1 ==> Turn(mem, end, c0) == AtNameLength(mem, end, Cursor(ptr, msg, broke, got));
      if stage <= 1 {
        msg := msg.(nlen := Read32(mem, ptr));
        ptr := ptr + 4;
        if ptr >= end { broke := true; return; }
      }
      assert stage <= 2 ==> Turn(mem, end, c0) == AtDataLength(mem, end, Cursor(ptr, msg, broke, got));
      if stage <= 2 {
        msg := msg.(dlen := Read32(mem, ptr));
        ptr := ptr + 4;
        if ptr >= end { broke := true; return; }
      }
      ptr, broke, got := BodyInPlace(mem, end, ptr, stage == 4);
    }

    /** ff_ctl_recv on any buffer, with anything pending, on which its loop ends; `got` lists the
        calls of the callback. */
    method Recv() returns (got: seq<Message>)
      requires sb.Valid() && !StallsFrom(sb.buf[..], sb.wpos, Cursor(sb.rpos, msg, false, []))
      modifies this`msg, sb`rpos
      ensures var c := Finished(sb.buf[..], sb.wpos, Cursor(old(sb.rpos), old(msg), false, []));
              got == c.got && msg == c.msg && sb.rpos == c.ptr
    {
      hide Turn, StuckHere;
      var mem, ptr, end, broke := sb.buf[..], sb.rpos, sb.wpos, false;
      got := [];
      ghost var start := Cursor(ptr, msg, false, []);
      while ptr + 4 < end && !broke
        invariant !StallsFrom(mem, end, Cursor(ptr, msg, broke, got))
        invariant Finished(mem, end, Cursor(ptr, msg, broke, got)) == Finished(mem, end, start)
        decreases if ptr < end then end - ptr else 0
      {
        TurnMoves(mem, end, Cursor(ptr, msg, false, got));
        GotIsKept(mem, end, Cursor(ptr, msg, false, []), got);
        assert got + [] == got;
        var more;
        ptr, broke, more := TurnInPlace(mem, end, ptr);
        got := got + more;
      }
      sb.rpos := ptr;
    }
  }

  class Sender {
    const sb: StreamBuffer

    constructor (sb: StreamBuffer)
      ensures this.sb == sb
    {
      this.sb := sb;
    }

    /** ff_ctl_send. */
    method Send(cmd: int, name: seq<byte>, data: seq<byte>) returns (ok: bool)
      requires sb.Valid() && |name| < TWO31 && |data| < TWO31
      modifies sb`rpos, sb`wpos, sb.buf
      ensures sb.Valid()
      ensures ok <==> Sendable(Message(cmd, name, data))
      ensures sb.Contents() == if ok then Sent(old(sb.Contents()), sb.buf.Length, Message(cmd, name, data))
                               else old(sb.Contents())
    {
      if !(0 < cmd && cmd <= 255) || |name| < 1 || |data| < 1 {
        return false;
      }
      var head: seq<byte> := MSG_TAG + [cmd as byte] + BigEndian(|name|, 4) + BigEndian(|data|, 4);
      var _ := sb.Write(head);
      var _ := sb.Write(name);
      var _ := sb.Write(data);
      ok := true;
    }
  }
}
