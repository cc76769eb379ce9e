/**
  The chunked transfer coding of ffserver.c, both ways: the frames that http_send_data
  builds in place around what local_prepare_data has read, and the resumable decoder
  recv_chunked. Section 7.1 of RFC 9112 is the reference.
 */
module Chunked {
  import opened Bytes
  import opened Wrappers

  const CRLF: seq<byte> := [13, 10]

  // ----------------------------------------------------------- hexadecimal text

  predicate IsHex(b: byte) { 48 <= b <= 57 || 97 <= b <= 102 || 65 <= b <= 70 }

  function HexDigit(n: nat): byte
    requires n < 16
  {
    if n < 10 then 48 + n else 87 + n
  }

  function DigitValue(b: byte): (v: nat)
    requires IsHex(b)
    ensures v < 16
  {
    if b <= 57 then b - 48 else if b <= 70 then b - 55 else b - 87
  }

  /** "%lx". */
  function Hex(n: nat): (s: seq<byte>)
    ensures |s| >= 1 && forall b <- s :: IsHex(b)
  {
    if n < 16 then [HexDigit(n)] else Hex(n / 16) + [HexDigit(n % 16)]
  }

  function HexValue(s: seq<byte>): nat
    requires forall b <- s :: IsHex(b)
  {
    if s == [] then 0 else 16 * HexValue(s[..|s| - 1]) + DigitValue(s[|s| - 1])
  }

  lemma {:induction false} HexReadsBack(n: nat)
    ensures HexValue(Hex(n)) == n
  {
    if n >= 16 {
      HexReadsBack(n / 16);
      assert Hex(n)[..|Hex(n)| - 1] == Hex(n / 16);
    }
  }

  lemma {:induction false} HexIsShort(n: nat)
    requires n < 0x10000
    ensures |Hex(n)| <= 4
  {
    if n >= 16 { assert Hex(n) == Hex(n / 16) + [HexDigit(n % 16)]; }
    if n >= 256 { assert Hex(n / 16) == Hex(n / 256) + [HexDigit(n / 16 % 16)]; }
    if n >= 4096 { assert Hex(n / 256) == Hex(n / 4096) + [HexDigit(n / 256 % 16)]; }
  }

  // ------------------------------------------------ the grammar of a chunked body

  datatype Chunk = Chunk(size: seq<byte>, data: seq<byte>)

  /** A size line of hexadecimal digits that counts its data; 28 digits at most fit the
      decoder's 32-byte line buffer, and the count has to fit an int. */
  predicate WellFormed(c: Chunk) {
    && 1 <= |c.size| <= 28 && (forall b <- c.size :: IsHex(b))
    && HexValue(c.size) == |c.data| < TWO31
  }

  function Framed(c: Chunk): seq<byte> { c.size + CRLF + c.data + CRLF }

  function Encoded(cs: seq<Chunk>): seq<byte> {
    if cs == [] then [] else Framed(cs[0]) + Encoded(cs[1..])
  }

  function Content(cs: seq<Chunk>): seq<byte> {
    if cs == [] then [] else cs[0].data + Content(cs[1..])
  }

  predicate AllData(cs: seq<Chunk>) { forall c <- cs :: WellFormed(c) && c.data != [] }

  /** chunked-body: chunks with data, a chunk of size zero, no trailer fields, CRLF. */
  ghost predicate IsChunkedBody(body: seq<byte>, content: seq<byte>) {
    exists cs: seq<Chunk>, last: Chunk ::
      && AllData(cs) && WellFormed(last) && last.data == []
      && body == Encoded(cs) + Framed(last) && content == Content(cs)
  }

  lemma {:induction false} EncodedConcat(a: seq<Chunk>, b: seq<Chunk>)
    ensures Encoded(a + b) == Encoded(a) + Encoded(b)
    ensures Content(a + b) == Content(a) + Content(b)
  {
    if a == [] {
      assert a + b == b;
    } else {
      hide Framed;
      assert (a + b)[1..] == a[1..] + b;
      EncodedConcat(a[1..], b);
      Associative(Framed(a[0]), Encoded(a[1..]), Encoded(b));
      Associative(a[0].data, Content(a[1..]), Content(b));
    }
  }

  lemma EncodedAppend(a: seq<Chunk>, c: Chunk)
    ensures Encoded(a + [c]) == Encoded(a) + Framed(c)
    ensures Content(a + [c]) == Content(a) + c.data
  {
    EncodedConcat(a, [c]);
    assert [c][1..] == [];
    assert Encoded([c]) == Framed(c) + [] == Framed(c);
    assert Content([c]) == c.data + [] == c.data;
  }

  // -------------------------------------------------------------- the sender

  const BUFFER_SIZE: nat := 8192
  const HEAD_LEN: nat := 8
  const READ_SIZE: nat := BUFFER_SIZE - HEAD_LEN - 2

  function OwnChunk(data: seq<byte>): Chunk { Chunk(Hex(|data|), data) }

  function OwnFrame(data: seq<byte>): seq<byte> { Framed(OwnChunk(data)) }

  /** `rest` is what the file still holds, `pending` what the buffer does; `open` until read
      has returned 0; `cuts` lists the chunks made and `wire` the bytes sent so far. */
  datatype Sender = Sender(rest: seq<byte>, open: bool, pending: seq<byte>, finished: bool,
                           cuts: seq<Chunk>, wire: seq<byte>)

  function NewSender(file: seq<byte>): Sender { Sender(file, true, [], false, [], []) }

  /** The lengths a read of the file may return. */
  predicate CanRead(rest: seq<byte>, n: nat) {
    n <= |rest| && n <= READ_SIZE && (n == 0 <==> rest == [])
  }

  /** The refill: the next read framed as one chunk, or the end of the response. */
  function Refill(s: Sender, n: nat): Sender
    requires CanRead(s.rest, n)
  {
    if !s.open then s.(finished := true)
    else
      var c := OwnChunk(s.rest[..n]);
      s.(rest := s.rest[n..], open := n > 0, pending := Framed(c), cuts := s.cuts + [c])
  }

  function Sent(s: Sender, k: nat): Sender {
    var k1 := if k <= |s.pending| then k else |s.pending|;
    s.(pending := s.pending[k1..], wire := s.wire + s.pending[..k1])
  }

  /** One call of http_send_data: `n` is what a read would return, `k` what send takes. */
  function SendCall(s: Sender, n: nat, k: nat): Sender
    requires CanRead(s.rest, n)
  {
    if s.finished then s
    else
      var s1 := if s.pending == [] then Refill(s, n) else s;
      if s1.finished then s1 else Sent(s1, k)
  }

  lemma FrameParts(buf: seq<byte>, p: nat, data: seq<byte>, head: seq<byte>)
    requires p + |head| == HEAD_LEN && HEAD_LEN + |data| + 2 <= |buf|
    requires buf[p..HEAD_LEN] == head && buf[HEAD_LEN..HEAD_LEN + |data|] == data
    requires buf[HEAD_LEN + |data|] == 13 && buf[HEAD_LEN + |data| + 1] == 10
    ensures buf[p..HEAD_LEN + |data| + 2] == head + data + CRLF
  {
    var q := HEAD_LEN + |data|;
    assert buf[q..q + 2] == CRLF;
    assert buf[p..q + 2] == buf[p..HEAD_LEN] + buf[HEAD_LEN..q] + buf[q..q + 2];
  }

  class FileSender {
    const buffer: array<byte>
    var ptr: nat
    var end: nat
    var rest: seq<byte>
    var open: bool
    var finished: bool
    ghost var cuts: seq<Chunk>
    ghost var wire: seq<byte>

    ghost predicate Valid()
      reads this
    {
      buffer.Length == BUFFER_SIZE && ptr <= end <= BUFFER_SIZE
    }

    ghost function State(): Sender
      requires Valid()
      reads this, buffer
    {
      Sender(rest, open, buffer[ptr..end], finished, cuts, wire)
    }

    constructor (file: seq<byte>)
      ensures Valid() && fresh(buffer) && State() == NewSender(file)
    {
      buffer := new byte[BUFFER_SIZE](_ => 0);
      ptr, end, rest, open, finished := 0, 0, file, true, false;
      cuts, wire := [], [];
    }

    /** read(local_fd, buffer + 8, 8182). */
    method ReadFile(n: nat)
      requires Valid() && CanRead(rest, n)
      modifies this`rest, this`open, this`ptr, this`end, buffer
      ensures Valid() && ptr == HEAD_LEN && end == HEAD_LEN + n
      ensures buffer[ptr..end] == old(rest)[..n] && rest == old(rest)[n..] && open == (old(open) && n > 0)
    {
      var i := 0;
      while i < n
        invariant 0 <= i <= n && rest == old(rest) && open == old(open)
        invariant buffer[HEAD_LEN..HEAD_LEN + i] == rest[..i]
      {
        buffer[HEAD_LEN + i] := rest[i];
        i := i + 1;
      }
      rest := rest[n..];
      open := open && n > 0;
      ptr, end := HEAD_LEN, HEAD_LEN + n;
    }

    /** The head is printed at the front of the buffer and moved against the payload, the
        tail goes behind it; the payload bytes stay where they were read. */
    method FrameInPlace()
      requires Valid() && ptr == HEAD_LEN && end <= HEAD_LEN + READ_SIZE
      modifies this`ptr, this`end, buffer
      ensures Valid() && end == old(end) + 2
      ensures 2 <= ptr <= HEAD_LEN && buffer[HEAD_LEN..old(end)] == old(buffer[HEAD_LEN..end])
      ensures buffer[ptr..end] == OwnFrame(old(buffer[ptr..end]))
    {
      ghost var data := buffer[ptr..end];
      var head := Hex(end - ptr) + CRLF;
      HexIsShort(end - ptr);
      PrintHead(head);
      MoveHead(|head|);
      ptr := ptr - |head|;
      buffer[end] := 13;
      buffer[end + 1] := 10;
      end := end + 2;
      FrameParts(buffer[..], ptr, data, head);
    }

    /** snprintf of the head and its NUL at the front of the buffer. */
    method PrintHead(head: seq<byte>)
      requires |head| < HEAD_LEN && buffer.Length == BUFFER_SIZE
      modifies buffer
      ensures buffer[..|head|] == head && buffer[HEAD_LEN..] == old(buffer[HEAD_LEN..])
    {
      var i := 0;
      while i < |head|
        invariant 0 <= i <= |head| && buffer[..i] == head[..i]
        invariant buffer[HEAD_LEN..] == old(buffer[HEAD_LEN..])
      {
        buffer[i] := head[i];
        i := i + 1;
      }
      buffer[|head|] := 0;
    }

    /** memmove(buffer + 8 - len, buffer, len): the ranges may overlap. */
    method MoveHead(len: nat)
      requires len <= 7 && buffer.Length == BUFFER_SIZE
      modifies buffer
      ensures buffer[HEAD_LEN - len..HEAD_LEN] == old(buffer[..len])
      ensures buffer[HEAD_LEN..] == old(buffer[HEAD_LEN..])
    {
      var i := len;
      while i > 0
        invariant 0 <= i <= len
        invariant forall j :: 0 <= j < i ==> buffer[j] == old(buffer[j])
        invariant forall j :: i <= j < len ==> buffer[HEAD_LEN - len + j] == old(buffer[j])
        invariant buffer[HEAD_LEN..] == old(buffer[HEAD_LEN..])
      {
        i := i - 1;
        buffer[HEAD_LEN - len + i] := buffer[i];
      }
    }

    /** The branch that finds the buffer empty. */
    method Prepare(n: nat)
      requires Valid() && CanRead(rest, n) && !finished && ptr == end
      modifies this, buffer
      ensures Valid() && State() == Refill(old(State()), n)
    {
      if !open {
        finished := true;
        return;
      }
      ReadFile(n);
      ghost var data := buffer[ptr..end];
      FrameInPlace();
      cuts := cuts + [OwnChunk(data)];
    }

    /** The branch that sends: the socket takes up to `k` bytes. */
    method SendOut(k: nat)
      requires Valid()
      modifies this`ptr, this`wire
      ensures Valid() && State() == Sent(old(State()), k)
    {
      ghost var pending := buffer[ptr..end];
      var sent := if k <= end - ptr then k else end - ptr;
      wire := wire + buffer[ptr..ptr + sent];
      ptr := ptr + sent;
      assert buffer[ptr - sent..ptr] == pending[..sent] && buffer[ptr..end] == pending[sent..];
    }

    /** http_send_data over local_prepare_data, on a keep-alive response whose reads succeed. */
    method HttpSendData(n: nat, k: nat)
      requires Valid() && CanRead(rest, n)
      modifies this, buffer
      ensures Valid() && State() == SendCall(old(State()), n, k)
    {
      if finished {
        return;
      }
      if ptr >= end {
        Prepare(n);
        if finished {
          return;
        }
      }
      SendOut(k);
    }
  }

  /** Everything sent or buffered is the coding of the chunks cut so far, which are the file
      up to where it has been read; the zero chunk is last and only then is the file closed. */
  ghost predicate SenderInv(s: Sender, file: seq<byte>) {
    && s.wire + s.pending == Encoded(s.cuts)
    && Content(s.cuts) + s.rest == file
    && (s.open ==> AllData(s.cuts))
    && (!s.open ==> && s.rest == [] && s.cuts != [] && AllData(s.cuts[..|s.cuts| - 1])
                    && s.cuts[|s.cuts| - 1] == OwnChunk([]))
    && (s.finished ==> !s.open && s.pending == [])
  }

  lemma OwnChunkIsWellFormed(data: seq<byte>)
    requires |data| <= READ_SIZE
    ensures WellFormed(OwnChunk(data))
  {
    HexReadsBack(|data|);
    HexIsShort(|data|);
  }

  lemma RefillKeepsInv(s: Sender, file: seq<byte>, n: nat)
    requires SenderInv(s, file) && s.pending == [] && CanRead(s.rest, n)
    ensures SenderInv(Refill(s, n), file)
  {
    if s.open {
      var data := s.rest[..n];
      OwnChunkIsWellFormed(data);
      EncodedAppend(s.cuts, OwnChunk(data));
      assert s.wire == s.wire + s.pending;
      assert data + s.rest[n..] == s.rest;
      assert (s.cuts + [OwnChunk(data)])[..|s.cuts|] == s.cuts;
    }
  }

  lemma SentKeepsInv(s: Sender, file: seq<byte>, k: nat)
    requires SenderInv(s, file) && !s.finished
    ensures SenderInv(Sent(s, k), file)
  {
    hide Encoded, Content, AllData;
    MoveToWire(s.wire, s.pending, if k <= |s.pending| then k else |s.pending|);
  }

  lemma SendCallKeepsInv(s: Sender, file: seq<byte>, n: nat, k: nat)
    requires SenderInv(s, file) && CanRead(s.rest, n)
    ensures SenderInv(SendCall(s, n, k), file)
  {
    hide SenderInv, Refill, Sent, CanRead;
    if !s.finished {
      var s1 := if s.pending == [] then Refill(s, n) else s;
      if s.pending == [] {
        RefillKeepsInv(s, file, n);
      }
      if !s1.finished {
        SentKeepsInv(s1, file, k);
      }
    }
  }

  lemma MoveToWire(wire: seq<byte>, pending: seq<byte>, k: nat)
    requires k <= |pending|
    ensures wire + pending[..k] + pending[k..] == wire + pending
  {
    Associative(wire, pending[..k], pending[k..]);
    assert pending[..k] + pending[k..] == pending;
  }

  /** A run of calls: each element holds what read would return and what send takes. */
  function Sends(s: Sender, calls: seq<(nat, nat)>): Sender
    requires ReadsAllowed(s, calls)
    decreases calls
  {
    if calls == [] then s else Sends(SendCall(s, calls[0].0, calls[0].1), calls[1..])
  }

  predicate ReadsAllowed(s: Sender, calls: seq<(nat, nat)>)
    decreases calls
  {
    calls == [] || (CanRead(s.rest, calls[0].0) && ReadsAllowed(SendCall(s, calls[0].0, calls[0].1), calls[1..]))
  }

  lemma {:induction false} SendsKeepInv(s: Sender, file: seq<byte>, calls: seq<(nat, nat)>)
    requires SenderInv(s, file) && ReadsAllowed(s, calls)
    ensures SenderInv(Sends(s, calls), file)
    decreases calls
  {
    if calls != [] {
      SendCallKeepsInv(s, file, calls[0].0, calls[0].1);
      SendsKeepInv(SendCall(s, calls[0].0, calls[0].1), file, calls[1..]);
    }
  }

  /** Whatever the reads and the sends return, the body of a finished response is a chunked
      body of the file, and of an unfinished one the bytes sent are a prefix of the coding. */
  lemma ResponseIsChunkedBody(file: seq<byte>, calls: seq<(nat, nat)>)
    requires ReadsAllowed(NewSender(file), calls)
    ensures var s := Sends(NewSender(file), calls);
            && s.wire <= Encoded(s.cuts)
            && Content(s.cuts) <= file
            && (s.finished ==> IsChunkedBody(s.wire, file))
  {
    hide Sends, ReadsAllowed, SenderInv;
    NewSenderInv(file);
    SendsKeepInv(NewSender(file), file, calls);
    InvMeansCoding(Sends(NewSender(file), calls), file);
  }

  lemma NewSenderInv(file: seq<byte>)
    ensures SenderInv(NewSender(file), file)
  {}

  lemma InvMeansCoding(s: Sender, file: seq<byte>)
    requires SenderInv(s, file)
    ensures s.wire <= Encoded(s.cuts) && Content(s.cuts) <= file
    ensures s.finished ==> IsChunkedBody(s.wire, file)
  {
    hide Encoded, Content, Framed;
    assert s.wire <= s.wire + s.pending;
    assert Content(s.cuts) <= Content(s.cuts) + s.rest;
    if s.finished {
      var cs, last := s.cuts[..|s.cuts| - 1], OwnChunk([]);
      assert s.cuts == cs + [last];
      EncodedAppend(cs, last);
      OwnChunkIsWellFormed([]);
      assert s.wire + [] == s.wire && Content(cs) + [] + [] == Content(cs);
    }
  }

  /** What the next call has to offer the socket: the rest of the chunk in the buffer, or the next
      one, of which a read of `n` bytes makes the size line and its two line breaks. */
  function Offered(s: Sender, n: nat): nat {
    if s.pending != [] then |s.pending| else if s.open then |Hex(n)| + 2 + n + 2 else 0
  }

  /** A call on an open response puts on the wire exactly what the socket takes of that, and ends
      the response exactly when there is nothing left: the buffer is empty and the file closed. */
  lemma SendGrowsWire(s: Sender, n: nat, k: nat)
    requires CanRead(s.rest, n) && !s.finished
    ensures var s' := SendCall(s, n, k);
            && |s.wire| <= |s'.wire| && s'.wire[..|s.wire|] == s.wire
            && |s'.wire| - |s.wire| == (if k <= Offered(s, n) then k else Offered(s, n))
            && (s'.finished <==> s.pending == [] && !s.open)
            && (s'.open <==> s.open && (s.pending == [] ==> n > 0))
            && s'.rest == if s.pending == [] && s.open then s.rest[n..] else s.rest
  {}

  /** Bytes still to be sent at most, and the call that ends the response. */
  function ToGo(s: Sender): nat {
    if s.finished then 0 else 1 + |s.pending| + if s.open then 6 * |s.rest| + 5 else 0
  }

  lemma FrameIsShort(data: seq<byte>)
    requires |data| <= READ_SIZE
    ensures 5 <= |OwnFrame(data)| && |OwnFrame(data)| <= if data == [] then 5 else 6 * |data|
  {
    HexIsShort(|data|);
  }

  lemma CallMakesProgress(s: Sender, n: nat, k: nat)
    requires CanRead(s.rest, n)
    ensures ToGo(SendCall(s, n, k)) <= ToGo(s)
    ensures k > 0 && !s.finished ==> ToGo(SendCall(s, n, k)) < ToGo(s)
  {
    FrameIsShort(s.rest[..n]);
  }

  /** The calls whose sends take something. */
  function Taking(calls: seq<(nat, nat)>): nat {
    if calls == [] then 0 else (if calls[0].1 > 0 then 1 else 0) + Taking(calls[1..])
  }

  lemma {:induction false} SendsMakeProgress(s: Sender, calls: seq<(nat, nat)>)
    requires ReadsAllowed(s, calls)
    ensures Sends(s, calls).finished || ToGo(Sends(s, calls)) + Taking(calls) <= ToGo(s)
    decreases calls
  {
    hide SendCall, ToGo;
    if calls != [] {
      CallMakesProgress(s, calls[0].0, calls[0].1);
      SendsMakeProgress(SendCall(s, calls[0].0, calls[0].1), calls[1..]);
      if s.finished {
        FinishedStays(s, calls);
      }
    }
  }

  lemma {:induction false} FinishedStays(s: Sender, calls: seq<(nat, nat)>)
    requires s.finished && ReadsAllowed(s, calls)
    ensures Sends(s, calls) == s
    decreases calls
  {
    if calls != [] {
      FinishedStays(s, calls[1..]);
    }
  }

  /** Six calls for each byte of the file and six more, in which the socket takes something, finish
      the response, whatever the reads return. */
  lemma ResponseFinishes(file: seq<byte>, calls: seq<(nat, nat)>)
    requires ReadsAllowed(NewSender(file), calls) && Taking(calls) >= 6 * |file| + 6
    ensures Sends(NewSender(file), calls).finished
    ensures IsChunkedBody(Sends(NewSender(file), calls).wire, file)
  {
    SendsMakeProgress(NewSender(file), calls);
    var s := Sends(NewSender(file), calls);
    assert !s.finished ==> ToGo(s) >= 1;
    ResponseIsChunkedBody(file, calls);
  }

  // -------------------------------------------------------------- the receiver

  /** Where the size line ends: past the first CRLF whose LF is the third byte or later, within
      32 bytes; None when it is not all there, or too long. */
  function LineEnd(win: seq<byte>, i: nat): (e: Option<nat>)
    ensures e.Some? ==> i < e.value <= |win|
    decreases |win| - i
  {
    if i >= |win| || i >= 32 then None
    else if i >= 2 && win[i - 1] == 13 && win[i] == 10 then Some(i + 1)
    else LineEnd(win, i + 1)
  }

  predicate IsBlank(b: byte) { b == 32 || 9 <= b <= 13 }

  function HexRun(s: seq<byte>): (n: nat)
    ensures n <= |s| && forall b <- s[..n] :: IsHex(b)
  {
    if s == [] || !IsHex(s[0]) then 0
    else
      var n := HexRun(s[1..]);
      assert s[..1 + n] == [s[0]] + s[1..][..n];
      1 + n
  }

  /** strtol(line, NULL, 16), which skips blanks, a sign and a 0x, cast to int. */
  function LineSize(line: seq<byte>): int
    decreases |line|
  {
    if line != [] && IsBlank(line[0]) then LineSize(line[1..])
    else if line != [] && line[0] == 45 then ToInt32(ToUint32(-Magnitude(line[1..])))
    else if line != [] && line[0] == 43 then ToInt32(ToUint32(Magnitude(line[1..])))
    else ToInt32(ToUint32(Magnitude(line)))
  }

  function Magnitude(s: seq<byte>): (m: int)
    ensures m >= 0
  {
    var digits := if |s| >= 3 && s[0] == 48 && (s[1] == 120 || s[1] == 88) && IsHex(s[2]) then s[2..] else s;
    HexValue(digits[..HexRun(digits)])
  }

  datatype Received = Fail | Eof | Got(data: seq<byte>)

  datatype RecvResult = RecvResult(chunkSize: int, consumed: nat, r: Received)

  function RecvBody(size: int, rest: seq<byte>, cap: nat, used: nat): RecvResult {
    var n := Least(Least(size, cap), |rest|);
    if n <= 0 then RecvResult(size, used, Fail) else RecvResult(size - n, used + n, Got(rest[..n]))
  }

  /** One call of recv_chunked when `win` is what the socket has to offer. */
  function RecvCall(size: int, win: seq<byte>, cap: nat): (r: RecvResult)
    ensures r.consumed <= |win|
  {
    if size != 0 then RecvBody(size, win, cap, 0)
    else match LineEnd(win, 0)
      case None => RecvResult(0, Least(|win|, 32), Fail)
      case Some(e) =>
        if LineSize(win[..e]) == 0 then RecvResult(0, e, Eof)
        else RecvBody(LineSize(win[..e]), win[e..], cap, e)
  }

  class ChunkReader {
    const buffer: array<byte>
    var chunkSize: int

    constructor (size: nat)
      ensures fresh(buffer) && buffer.Length == size && chunkSize == 0
    {
      buffer := new byte[size](_ => 0);
      chunkSize := 0;
    }

    /** The loop over the size line: its end, if it lies within 32 bytes and the window. */
    method ReadLine(win: seq<byte>) returns (used: nat, found: bool)
      requires buffer.Length >= 32
      modifies buffer
      ensures LineEnd(win, 0) == if found then Some(used) else None
      ensures if found then used <= 32 && used <= |win| && buffer[..used] == win[..used] else used == Least(|win|, 32)
    {
      var i := 0;
      while i < 32
        invariant 0 <= i <= 32 && i <= |win| && LineEnd(win, 0) == LineEnd(win, i)
        invariant buffer[..i] == win[..i]
      {
        if i >= |win| {
          return i, false;
        }
        buffer[i] := win[i];
        if i >= 2 && buffer[i - 1] == 13 && buffer[i] == 10 {
          return i + 1, true;
        }
        i := i + 1;
      }
      return 32, false;
    }

    /** The recv into the buffer, of no more than is left of the chunk. */
    method ReadBody(rest: seq<byte>) returns (len: int)
      modifies this`chunkSize, buffer
      ensures -1 <= len <= buffer.Length && len != 0
      ensures forall used: nat ::
                RecvBody(old(chunkSize), rest, buffer.Length, used)
                == RecvResult(chunkSize, if len < 0 then used else used + len, if len < 0 then Fail
                              else Got(buffer[..len]))
    {
      var n := Least(Least(chunkSize, buffer.Length), |rest|);
      if n <= 0 {
        return -1;
      }
      var i := 0;
      while i < n
        invariant 0 <= i <= n && buffer[..i] == rest[..i] && chunkSize == old(chunkSize)
      {
        buffer[i] := rest[i];
        i := i + 1;
      }
      chunkSize := chunkSize - n;
      len := n;
    }

    /** recv_chunked: 0 at the end, a positive length of bytes in the buffer, or -1. */
    method Recv(win: seq<byte>) returns (consumed: nat, len: int)
      requires buffer.Length >= 32
      modifies this`chunkSize, buffer
      ensures -1 <= len <= buffer.Length
      ensures RecvResult(chunkSize, consumed, if len < 0 then Fail else if len == 0 then Eof else Got(buffer[..len]))
              == RecvCall(old(chunkSize), win, buffer.Length)
    {
      hide LineSize, LineEnd, RecvBody;
      consumed := 0;
      if chunkSize == 0 {
        var found;
        consumed, found := ReadLine(win);
        if !found {
          return consumed, -1;
        }
        chunkSize := LineSize(buffer[..consumed]);
        if chunkSize == 0 {
          return consumed, 0;
        }
      }
      assert win[0..] == win;
      len := ReadBody(win[consumed..]);
      consumed := if len < 0 then consumed else consumed + len;
    }
  }

  // ------------------------------------------------------- what a size line says

  lemma {:induction false} HexRunStops(s: seq<byte>, rest: seq<byte>)
    requires (forall b <- s :: IsHex(b)) && (rest == [] || !IsHex(rest[0]))
    ensures HexRun(s + rest) == |s|
    decreases |s|
  {
    if s == [] {
      assert s + rest == rest;
    } else {
      assert s[0] in s && forall b <- s[1..] :: b in s;
      assert (s + rest)[1..] == s[1..] + rest;
      HexRunStops(s[1..], rest);
    }
  }

  lemma MagnitudeIs(size: seq<byte>, rest: seq<byte>)
    requires size != [] && (forall b <- size :: IsHex(b)) && (rest == [] || !IsHex(rest[0]))
    requires size == [48] ==> rest == [] || (rest[0] != 120 && rest[0] != 88)
    ensures Magnitude(size + rest) == HexValue(size)
  {
    var line := size + rest;
    HexRunStops(size, rest);
    assert line[..|size|] == size;
    assert line[0] == size[0] && size[0] in size;
    if |size| > 1 {
      assert line[1] == size[1] && size[1] in size;
    } else if |line| > 1 {
      assert line[1] == rest[0];
    }
  }

  /** Digits are read up to the first other byte, so that chunk extensions are passed over. */
  lemma SizeStopsAtOther(size: seq<byte>, rest: seq<byte>)
    requires size != [] && (forall b <- size :: IsHex(b)) && (rest == [] || !IsHex(rest[0]))
    requires size == [48] ==> rest == [] || (rest[0] != 120 && rest[0] != 88)
    ensures LineSize(size + rest) == ToInt32(ToUint32(HexValue(size)))
  {
    hide Magnitude, HexValue;
    assert size[0] in size && (size + rest)[0] == size[0];
    MagnitudeIs(size, rest);
  }

  /** As strtol does, a size line is read behind any blanks and with a sign. */
  lemma SizeLineForms(size: seq<byte>, rest: seq<byte>, blank: byte)
    requires size != [] && (forall b <- size :: IsHex(b)) && (rest == [] || !IsHex(rest[0]))
    requires size == [48] ==> rest == [] || (rest[0] != 120 && rest[0] != 88)
    ensures blank in {9, 10, 11, 12, 13, 32} ==> LineSize([blank] + (size + rest)) == LineSize(size + rest)
    ensures LineSize([43] + (size + rest)) == LineSize(size + rest)
    ensures LineSize([45] + (size + rest)) == ToInt32(ToUint32(-(HexValue(size) as int)))
  {
    hide Magnitude, HexValue;
    var line := size + rest;
    assert size[0] in size && line[0] == size[0];
    MagnitudeIs(size, rest);
    assert ([blank] + line)[1..] == line && ([43] + line)[1..] == line && ([45] + line)[1..] == line;
  }

  /** And with or without 0x. */
  lemma SizeWith0x(size: seq<byte>, rest: seq<byte>, x: byte)
    requires size != [] && (forall b <- size :: IsHex(b)) && (rest == [] || !IsHex(rest[0])) && (x == 120 || x == 88)
    requires size == [48] ==> rest == [] || (rest[0] != 120 && rest[0] != 88)
    ensures LineSize([48, x] + (size + rest)) == LineSize(size + rest)
  {
    hide HexValue;
    var line, long := size + rest, [48, x] + (size + rest);
    assert size[0] in size && line[0] == size[0];
    MagnitudeIs(size, rest);
    assert long[2] == size[0] && long[2..] == line;
    HexRunStops(size, rest);
    assert line[..|size|] == size;
  }

  /** The digits printed are 0 to 9 and a to f. */
  lemma {:induction false} HexIsLowerCase(n: nat)
    ensures forall b <- Hex(n) :: 48 <= b <= 57 || 97 <= b <= 102
  {
    if n >= 16 {
      HexIsLowerCase(n / 16);
    }
  }

  /** A size line that has not arrived whole is dropped, up to 32 bytes of it, and the next call
      starts a line over. */
  lemma CutLineIsDropped(win: seq<byte>, cap: nat)
    requires forall i :: 2 <= i < |win| && i < 32 ==> !(win[i - 1] == 13 && win[i] == 10)
    ensures RecvCall(0, win, cap) == RecvResult(0, if |win| <= 32 then |win| else 32, Fail)
  {
    NoEndNoLine(win, 0);
  }

  lemma {:induction false} NoEndNoLine(win: seq<byte>, k: nat)
    requires forall i :: 2 <= i < |win| && i < 32 ==> !(win[i - 1] == 13 && win[i] == 10)
    ensures LineEnd(win, k) == None
    decreases |win| - k
  {
    if k < |win| && k < 32 {
      NoEndNoLine(win, k + 1);
    }
  }

  /** A negative size is no end: this call fails, and so does every later one. */
  lemma NegativeSizeFails(win: seq<byte>, next: seq<byte>, cap: nat)
    requires LineEnd(win, 0).Some? && LineSize(win[..LineEnd(win, 0).value]) < 0
    ensures var r := RecvCall(0, win, cap);
            r.r == Fail && r.chunkSize < 0 && r.consumed == LineEnd(win, 0).value
            && RecvCall(r.chunkSize, next, cap) == RecvResult(r.chunkSize, 0, Fail)
  {
    hide LineEnd, LineSize;
  }

  /** So a chunk of 18 bytes whose size line 12 arrives in two parts is taken for one of 2 bytes. */
  lemma CutLineMisleads(cap: nat)
    requires cap >= 2
    ensures RecvCall(0, [49], cap) == RecvResult(0, 1, Fail)
    ensures RecvCall(0, [50, 13, 10, 97, 98], cap) == RecvResult(0, 5, Got([97, 98]))
  {
    CutLineIsDropped([49], cap);
    var win: seq<byte> := [50, 13, 10, 97, 98];
    assert LineEnd(win, 0) == LineEnd(win, 1) == LineEnd(win, 2) == Some(3);
    assert win[..3] == [50] + CRLF;
    SizeStopsAtOther([50], CRLF);
    assert HexValue([50]) == 2 by {
      assert [50][..0] == [];
    }
    assert win[3..] == [97, 98] && [97, 98][..2] == [97, 98];
  }

  // ------------------------------------------- decoding undoes any valid coding

  /** Where a receiver stands: before a size line, which all but the first time follows the
      CRLF of the chunk before, or inside the data of the first of `cs`. */
  datatype Place = Between(cs: seq<Chunk>, first: bool) | Inside(cs: seq<Chunk>, off: nat)

  function Lead(first: bool): seq<byte> { if first then [] else CRLF }

  function Rest(cs: seq<Chunk>, last: Chunk): seq<byte> { Encoded(cs) + Framed(last) }

  /** The rest of the coding, seen from `p`. */
  function Coding(p: Place, last: Chunk): seq<byte>
    requires p.Inside? ==> p.cs != [] && p.off <= |p.cs[0].data|
  {
    match p
    case Between(cs, first) => Lead(first) + Rest(cs, last)
    case Inside(cs, off) => cs[0].data[off..] + (CRLF + Rest(cs[1..], last))
  }

  predicate Sound(cs: seq<Chunk>, last: Chunk) { AllData(cs) && WellFormed(last) && last.data == [] }

  /** The receiver is at `p` of a coding that ends in `last`, and `wire` is the rest of it. */
  ghost predicate At(p: Place, last: Chunk, wire: seq<byte>, size: int) {
    && (p.Inside? ==> p.cs != [] && p.off < |p.cs[0].data|)
    && size == (if p.Inside? then |p.cs[0].data| - p.off else 0)
    && wire == Coding(p, last)
  }

  function Left(p: Place): seq<byte>
    requires p.Inside? ==> p.cs != [] && p.off <= |p.cs[0].data|
  {
    match p
    case Between(cs, _) => Content(cs)
    case Inside(cs, off) => cs[0].data[off..] + Content(cs[1..])
  }

  lemma {:induction false} LineEndIsFirst(win: seq<byte>, i: nat, e: nat)
    requires i <= e < |win| && 2 <= e < 32 && win[e - 1] == 13 && win[e] == 10
    requires forall j :: i <= j < e && j >= 2 ==> !(win[j - 1] == 13 && win[j] == 10)
    ensures LineEnd(win, i) == Some(e + 1)
    decreases e - i
  {
    if i < e {
      LineEndIsFirst(win, i + 1, e);
    }
  }

  lemma {:induction false} HexRunIsWhole(s: seq<byte>, rest: seq<byte>)
    requires (forall b <- s :: IsHex(b)) && rest != [] && !IsHex(rest[0])
    ensures HexRun(s + rest) == |s|
  {
    if s != [] {
      assert (s + rest)[1..] == s[1..] + rest;
      HexRunIsWhole(s[1..], rest);
    } else {
      assert s + rest == rest;
    }
  }

  lemma LineSizeReadsBack(first: bool, c: Chunk)
    requires WellFormed(c)
    ensures LineSize(Line(first, c)) == |c.data|
  {
    LineAlone(c);
    if !first {
      BlanksInFront(c.size + CRLF);
      assert Line(first, c) == CRLF + (c.size + CRLF);
    } else {
      assert Line(first, c) == c.size + CRLF;
    }
  }

  lemma LineAlone(c: Chunk)
    requires WellFormed(c)
    ensures LineSize(c.size + CRLF) == |c.data|
  {
    var line := c.size + CRLF;
    assert IsHex(line[0]) && (|c.size| >= 2 ==> line[1] == c.size[1]);
    HexRunIsWhole(c.size, CRLF);
    assert line[..|c.size|] == c.size;
    assert Magnitude(line) == |c.data|;
  }

  /** strtol skips a line break in front. */
  lemma BlanksInFront(line: seq<byte>)
    ensures LineSize(CRLF + line) == LineSize(line)
  {
    var l2 := CRLF + line;
    assert l2[0] == 13 && l2[1] == 10 && l2[1..][0] == 10;
    assert l2[1..][1..] == line;
    assert LineSize(l2) == LineSize(l2[1..]) == LineSize(l2[1..][1..]);
  }

  /** The decoder finds the whole size line in any window that holds it. */
  lemma FindsLine(win: seq<byte>, first: bool, c: Chunk, rest: seq<byte>)
    requires WellFormed(c) && win <= Line(first, c) + rest
    requires LineEnd(win, 0).Some?
    ensures var e := |Line(first, c)|;
            LineEnd(win, 0) == Some(e) && win[..e] == Line(first, c)
  {
    var line := Lead(first) + c.size + CRLF;
    var e := |line| - 1;
    forall j | 2 <= j < e && j < |win|
      ensures !(win[j - 1] == 13 && win[j] == 10)
    {
      assert win[j] == line[j];
      assert IsHex(line[j]) || line[j] == 13;
    }
    if e < |win| {
      assert win[e - 1] == line[e - 1] == 13 && win[e] == line[e] == 10;
      LineEndIsFirst(win, 0, e);
      assert win[..e + 1] == line;
    } else {
      NoLineEnd(win, 0);
    }
  }

  lemma {:induction false} NoLineEnd(win: seq<byte>, i: nat)
    requires forall j :: i <= j < |win| && j >= 2 ==> !(win[j - 1] == 13 && win[j] == 10)
    ensures LineEnd(win, i) == None
    decreases |win| - i
  {
    if i < |win| {
      NoLineEnd(win, i + 1);
    }
  }

  /** What one receive takes off data `a` that is followed by `tail`. */
  lemma BodyBytes(a: seq<byte>, tail: seq<byte>, w: seq<byte>, cap: nat, used: nat) returns (n: nat)
    requires a != [] && w <= a + tail && cap >= 1
    ensures n <= |a| && n <= |w| && (w != [] ==> n > 0)
    ensures RecvBody(|a|, w, cap, used)
            == RecvResult(|a| - n, used + n, if w == [] then Fail else Got(a[..n]))
    ensures (a + tail)[n..] == a[n..] + tail
  {
    n := Least(Least(|a|, cap), |w|);
    assert w[..n] == (a + tail)[..n] == a[..n];
  }

  /** Inside a chunk after `n` more of its bytes; at its end that is past it. */
  function Moved(cs: seq<Chunk>, off: nat, n: nat): Place
    requires cs != [] && off + n <= |cs[0].data|
  {
    if off + n < |cs[0].data| then Inside(cs, off + n) else Between(cs[1..], false)
  }

  lemma MovedIsThere(cs: seq<Chunk>, off: nat, last: Chunk, n: nat)
    requires cs != [] && off + n <= |cs[0].data|
    ensures var a := cs[0].data[off..];
            At(Moved(cs, off, n), last, a[n..] + (CRLF + Rest(cs[1..], last)), |a| - n)
  {
    hide Rest;
    var a, tail := cs[0].data[off..], CRLF + Rest(cs[1..], last);
    assert a[n..] == cs[0].data[off + n..];
    if n == |a| {
      assert a[n..] + tail == tail;
    }
  }

  lemma MovedLeaves(cs: seq<Chunk>, off: nat, n: nat)
    requires cs != [] && off + n <= |cs[0].data|
    ensures cs[0].data[off..][..n] + Left(Moved(cs, off, n)) == Left(Inside(cs, off))
  {
    var a := cs[0].data[off..];
    hide Content;
    if n == |a| {
      assert a[..n] == a && Moved(cs, off, n) == Between(cs[1..], false);
    } else {
      assert Moved(cs, off, n) == Inside(cs, off + n);
      SplitBefore(cs[0].data, off, n, Content(cs[1..]));
    }
  }

  lemma SplitBefore(data: seq<byte>, off: nat, n: nat, more: seq<byte>)
    requires off + n <= |data|
    ensures data[off..][..n] + (data[off + n..] + more) == data[off..] + more
  {
    var a := data[off..];
    DropDrop(data, off, off + n);
    assert a[..n] + a[n..] == a;
    Associative(a[..n], a[n..], more);
  }

  /** Receiving data inside a chunk moves through it, and at its end past it. */
  lemma BodyStep(cs: seq<Chunk>, off: nat, last: Chunk, wire: seq<byte>, size: int, w: seq<byte>, cap: nat, used: nat)
    returns (p': Place)
    requires At(Inside(cs, off), last, wire, size) && w <= wire && cap >= 1
    ensures var r := RecvBody(size, w, cap, used);
            && used <= r.consumed <= used + |w|
            && At(p', last, wire[r.consumed - used..], r.chunkSize)
            && (p'.cs == cs || p'.cs == cs[1..])
            && (if r.r.Got? then r.consumed > used && r.r.data + Left(p') == Left(Inside(cs, off))
                else r.r.Fail? && w == [] && Left(p') == Left(Inside(cs, off)))
  {
    hide RecvBody, Rest, Left;
    var a, tail := cs[0].data[off..], CRLF + Rest(cs[1..], last);
    assert wire == a + tail && size == |a|;
    var n := BodyBytes(a, tail, w, cap, used);
    p' := Moved(cs, off, n);
    MovedIsThere(cs, off, last, n);
    MovedLeaves(cs, off, n);
    assert n == 0 ==> a[..n] + Left(p') == Left(p');
  }

  /** At the last size line a call that finds it returns the end. */
  lemma LastLineStep(first: bool, last: Chunk, w: seq<byte>, cap: nat)
    requires Sound([], last) && w <= Lead(first) + Rest([], last)
    requires LineEnd(w, 0).Some?
    ensures RecvCall(0, w, cap).r.Eof? && RecvCall(0, w, cap).consumed > 0
  {
    assert Lead(first) + Rest([], last) == Lead(first) + last.size + CRLF + CRLF;
    FindsLine(w, first, last, CRLF);
    LineSizeReadsBack(first, last);
  }

  lemma AfterLine(line: seq<byte>, rest: seq<byte>, w: seq<byte>, cap: nat)
    requires w <= line + rest && LineEnd(w, 0) == Some(|line|) && w[..|line|] == line && LineSize(line) > 0
    ensures w[|line|..] <= rest && (line + rest)[|line|..] == rest
    ensures RecvCall(0, w, cap) == RecvBody(LineSize(line), w[|line|..], cap, |line|)
  {}

  function Line(first: bool, c: Chunk): seq<byte> { Lead(first) + c.size + CRLF }

  /** At any other size line it goes on to the data of the chunk. */
  lemma LineStep(cs: seq<Chunk>, first: bool, last: Chunk, w: seq<byte>, cap: nat)
    requires Sound(cs, last) && cs != [] && w <= Lead(first) + Rest(cs, last)
    requires LineEnd(w, 0).Some?
    ensures var line := Line(first, cs[0]);
            && |line| <= |w| && w[|line|..] <= Coding(Inside(cs, 0), last)
            && (Lead(first) + Rest(cs, last))[|line|..] == Coding(Inside(cs, 0), last)
            && RecvCall(0, w, cap) == RecvBody(|cs[0].data|, w[|line|..], cap, |line|)
  {
    var c, rest := cs[0], Coding(Inside(cs, 0), last);
    RestSplits(cs, first, last);
    FindsLine(w, first, c, rest);
    LineSizeReadsBack(first, c);
    AfterLine(Line(first, c), rest, w, cap);
  }

  lemma RestSplits(cs: seq<Chunk>, first: bool, last: Chunk)
    requires cs != []
    ensures Lead(first) + Rest(cs, last) == Line(first, cs[0]) + Coding(Inside(cs, 0), last)
  {
    var c, more := cs[0], Rest(cs[1..], last);
    assert c.data[0..] == c.data;
    FirstFrame(cs, last);
    hide Rest;
    FrameRegroups(Lead(first), c.size, c.data, more);
  }

  lemma FirstFrame(cs: seq<Chunk>, last: Chunk)
    requires cs != []
    ensures Rest(cs, last) == Framed(cs[0]) + Rest(cs[1..], last)
  {
    hide Framed;
    Associative(Framed(cs[0]), Encoded(cs[1..]), Framed(last));
  }

  lemma FrameRegroups(lead: seq<byte>, size: seq<byte>, data: seq<byte>, more: seq<byte>)
    ensures lead + (size + CRLF + data + CRLF + more) == (lead + size + CRLF) + (data + (CRLF + more))
  {
    Associative(lead, size, CRLF);
    Associative(lead, size + CRLF, data + (CRLF + more));
    Associative(size + CRLF, data, CRLF + more);
    Associative(size + CRLF + data, CRLF, more);
  }

  lemma LineThenBody(cs: seq<Chunk>, first: bool, last: Chunk, wire: seq<byte>, w: seq<byte>,
                     cap: nat) returns (p': Place)
    requires Sound(cs, last) && cs != [] && wire == Lead(first) + Rest(cs, last)
    requires w <= wire && LineEnd(w, 0).Some? && cap >= 1
    ensures var r := RecvCall(0, w, cap);
            && r.consumed > 0 && !r.r.Eof?
            && At(p', last, wire[r.consumed..], r.chunkSize)
            && (p'.cs == cs || p'.cs == cs[1..])
            && (if r.r.Got? then r.r.data + Left(p') == Left(Inside(cs, 0)) else Left(p') == Left(Inside(cs, 0)))
  {
    hide RecvCall, RecvBody, Left, Line, Rest, At, Coding, Sound, LineEnd, Lead;
    LineStep(cs, first, last, w, cap);
    var e := |Line(first, cs[0])|;
    var wire1, w1 := wire[e..], w[e..];
    StartsInside(cs, last, wire1);
    p' := BodyStep(cs, 0, last, wire1, |cs[0].data|, w1, cap, e);
    DropDrop(wire, e, RecvBody(|cs[0].data|, w1, cap, e).consumed);
  }

  lemma DropDrop(s: seq<byte>, a: nat, b: nat)
    requires a <= b <= |s|
    ensures s[a..][b - a..] == s[b..]
  {}

  lemma StartsInside(cs: seq<Chunk>, last: Chunk, wire: seq<byte>)
    requires Sound(cs, last) && cs != [] && wire == Coding(Inside(cs, 0), last)
    ensures At(Inside(cs, 0), last, wire, |cs[0].data|)
  {}

  /** One call in a coding: what it returns is what comes off the front of the content. */
  lemma CallStep(p: Place, last: Chunk, wire: seq<byte>, size: int, w: seq<byte>, cap: nat) returns (p': Place)
    requires Sound(p.cs, last) && At(p, last, wire, size) && w <= wire && cap >= 1
    requires size != 0 || w == [] || LineEnd(w, 0).Some?
    ensures var r := RecvCall(size, w, cap);
            && (w != [] ==> r.consumed > 0)
            && (r.r.Eof? ==> Left(p) == [])
            && (!r.r.Eof? ==> At(p', last, wire[r.consumed..], r.chunkSize))
            && (p'.cs == p.cs || (p.cs != [] && p'.cs == p.cs[1..]))
            && (r.r.Got? ==> r.r.data + Left(p') == Left(p))
            && (r.r.Fail? ==> Left(p') == Left(p))
  {
    p' := p;
    if p.Inside? {
      p' := BodyStep(p.cs, p.off, last, wire, size, w, cap, 0);
    } else if w == [] {
      assert wire[0..] == wire;
    } else if p.cs == [] {
      LastLineStep(p.first, last, w, cap);
    } else {
      p' := LineThenBody(p.cs, p.first, last, wire, w, cap);
      assert p.cs[0].data[0..] == p.cs[0].data;
    }
  }

  datatype Reception = Reception(out: seq<byte>, eof: bool)

  /** A run of calls up to the end of the body; `wins` says how much is available at each. */
  function Receives(size: int, wire: seq<byte>, wins: seq<nat>, cap: nat): Reception
    decreases wins
  {
    if wins == [] then Reception([], false)
    else
      var r := RecvCall(size, Window(wire, wins[0]), cap);
      if r.r.Eof? then Reception([], true)
      else
        var more := Receives(r.chunkSize, wire[r.consumed..], wins[1..], cap);
        Reception((if r.r.Got? then r.r.data else []) + more.out, more.eof)
  }

  /** Between chunks either nothing is available or a whole size line is. */
  predicate LinesWhole(size: int, wire: seq<byte>, wins: seq<nat>, cap: nat)
    decreases wins
  {
    wins == [] ||
    var w := Window(wire, wins[0]);
    var r := RecvCall(size, w, cap);
    && (size != 0 || w == [] || LineEnd(w, 0).Some?)
    && (r.r.Eof? || LinesWhole(r.chunkSize, wire[r.consumed..], wins[1..], cap))
  }

  lemma SoundTail(cs: seq<Chunk>, last: Chunk)
    requires Sound(cs, last) && cs != []
    ensures Sound(cs[1..], last)
  {}

  /** The first of a run of calls, at place `p`. */
  lemma FirstCall(p: Place, last: Chunk, wire: seq<byte>, size: int, wins: seq<nat>, cap: nat) returns (p': Place)
    requires Sound(p.cs, last) && At(p, last, wire, size) && cap >= 1 && LinesWhole(size, wire, wins, cap) && wins != []
    ensures var r := RecvCall(size, Window(wire, wins[0]), cap);
            && r.consumed <= |wire|
            && (wins[0] >= 1 ==> r.consumed > 0)
            && (r.r.Eof? ==> Left(p) == [])
            && (!r.r.Eof? ==> Sound(p'.cs, last) && At(p', last, wire[r.consumed..], r.chunkSize)
                              && LinesWhole(r.chunkSize, wire[r.consumed..], wins[1..], cap))
            && (r.r.Got? ==> r.r.data + Left(p') == Left(p))
            && (r.r.Fail? ==> Left(p') == Left(p))
  {
    WireIsThere(p, last, wire, size);
    hide RecvCall, At, Left, Sound;
    p' := CallStep(p, last, wire, size, Window(wire, wins[0]), cap);
    if p'.cs != p.cs {
      SoundTail(p.cs, last);
    }
  }

  lemma {:induction false} ReceivesContent(p: Place, last: Chunk, wire: seq<byte>, size: int, wins: seq<nat>, cap: nat)
    requires Sound(p.cs, last) && At(p, last, wire, size) && cap >= 1 && LinesWhole(size, wire, wins, cap)
    ensures var d := Receives(size, wire, wins, cap);
            d.out <= Left(p) && (d.eof ==> d.out == Left(p))
    decreases wins
  {
    hide RecvCall, At, Left, Sound, LinesWhole;
    if wins != [] {
      var p' := FirstCall(p, last, wire, size, wins, cap);
      var r := RecvCall(size, Window(wire, wins[0]), cap);
      if !r.r.Eof? {
        ReceivesContent(p', last, wire[r.consumed..], r.chunkSize, wins[1..], cap);
      }
    }
  }

  lemma WireIsThere(p: Place, last: Chunk, wire: seq<byte>, size: int)
    requires Sound(p.cs, last) && At(p, last, wire, size)
    ensures |wire| > 0
  {
    assert |Rest(p.cs, last)| >= |Framed(last)| > 0;
  }

  lemma {:induction false} ReceivesEnd(p: Place, last: Chunk, wire: seq<byte>, size: int, wins: seq<nat>, cap: nat)
    requires Sound(p.cs, last) && At(p, last, wire, size) && cap >= 1 && LinesWhole(size, wire, wins, cap)
    requires (forall n <- wins :: n >= 1) && |wins| >= |wire|
    ensures Receives(size, wire, wins, cap).eof
    decreases wins
  {
    WireIsThere(p, last, wire, size);
    hide RecvCall, At, Left, Sound, LinesWhole;
    assert wins[0] in wins && forall n <- wins[1..] :: n in wins;
    var p' := FirstCall(p, last, wire, size, wins, cap);
    var r := RecvCall(size, Window(wire, wins[0]), cap);
    if !r.r.Eof? {
      ReceivesEnd(p', last, wire[r.consumed..], r.chunkSize, wins[1..], cap);
    }
  }

  /** recv_chunked returns exactly the content of any valid chunked body, however its data is
      fragmented, and then the end; enough non-empty windows reach that end. */
  lemma DecodingReturnsContent(cs: seq<Chunk>, last: Chunk, wins: seq<nat>, cap: nat)
    requires AllData(cs) && WellFormed(last) && last.data == [] && cap >= 1
    requires LinesWhole(0, Rest(cs, last), wins, cap)
    ensures var d := Receives(0, Rest(cs, last), wins, cap);
            && d.out <= Content(cs)
            && (d.eof ==> d.out == Content(cs))
            && ((forall n <- wins :: n >= 1) && |wins| >= |Rest(cs, last)| ==> d.eof)
  {
    assert Lead(true) + Rest(cs, last) == Rest(cs, last);
    ReceivesContent(Between(cs, true), last, Rest(cs, last), 0, wins, cap);
    if (forall n <- wins :: n >= 1) && |wins| >= |Rest(cs, last)| {
      ReceivesEnd(Between(cs, true), last, Rest(cs, last), 0, wins, cap);
    }
  }

  lemma {:induction false} WireIsShort(s: Sender, calls: seq<(nat, nat)>)
    requires ReadsAllowed(s, calls)
    ensures |Sends(s, calls).wire| <= |s.wire| + ToGo(s)
    decreases calls
  {
    if calls != [] {
      hide Sends, ReadsAllowed;
      var s' := SendCall(s, calls[0].0, calls[0].1);
      WireIsShortStep(s, calls[0].0, calls[0].1);
      WireIsShort(s', calls[1..]);
    }
  }

  lemma WireIsShortStep(s: Sender, n: nat, k: nat)
    requires CanRead(s.rest, n)
    ensures |SendCall(s, n, k).wire| + ToGo(SendCall(s, n, k)) <= |s.wire| + ToGo(s)
  {
    FrameIsShort(s.rest[..n]);
  }

  /** A file sent by one server and received by another arrives unchanged: once the socket has
      taken something in enough calls, and windows with something in them have come often enough,
      the receiver is at its end and has the file. */
  lemma FileRoundTrip(file: seq<byte>, calls: seq<(nat, nat)>, wins: seq<nat>, cap: nat)
    requires ReadsAllowed(NewSender(file), calls) && Taking(calls) >= 6 * |file| + 6 && cap >= 1
    requires (forall n <- wins :: n >= 1) && |wins| >= 6 * |file| + 6
    requires LinesWhole(0, Sends(NewSender(file), calls).wire, wins, cap)
    ensures Receives(0, Sends(NewSender(file), calls).wire, wins, cap) == Reception(file, true)
  {
    ResponseFinishes(file, calls);
    WireIsShort(NewSender(file), calls);
    ResponseIsReceived(file, calls, wins, cap);
  }

  /** And whatever comes out before is the beginning of the file. */
  lemma ResponseIsReceived(file: seq<byte>, calls: seq<(nat, nat)>, wins: seq<nat>, cap: nat)
    requires ReadsAllowed(NewSender(file), calls) && Sends(NewSender(file), calls).finished && cap >= 1
    requires LinesWhole(0, Sends(NewSender(file), calls).wire, wins, cap)
    ensures var d := Receives(0, Sends(NewSender(file), calls).wire, wins, cap);
            && d.out <= file
            && (d.eof ==> d.out == file)
            && ((forall n <- wins :: n >= 1) && |wins| >= |Sends(NewSender(file), calls).wire| ==> d.eof)
  {
    ResponseIsChunkedBody(file, calls);
    var body := Sends(NewSender(file), calls).wire;
    var cs: seq<Chunk>, last: Chunk :| AllData(cs) && WellFormed(last) && last.data == []
                                      && body == Encoded(cs) + Framed(last) && file == Content(cs);
    DecodingReturnsContent(cs, last, wins, cap);
  }
}
