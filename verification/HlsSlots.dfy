/**
  The eleven HLS slots of ffserver.c: ten segments and a playlist, each a growing buffer that
  one connection fills and any number of others drain while it grows.
 */
module HlsSlots {
  import opened Bytes
  import opened Wrappers
  import opened Connections

  const S: nat := 10
  const SEG_INC_SIZE: nat := 4096

  /** The bytes of a slot up to csize, and its flag: 1 being written, 2 complete. */
  datatype Slot = Slot(data: seq<byte>, flag: nat)

  // --------------------------------------------------------------- a reader

  /** hls_read: the next range to send is everything not read yet; with nothing left the reader
      sleeps, or ends when the segment is complete. */
  function HlsRead(r: Conn, s: Slot): Conn {
    if |s.data| <= r.rpos then
      r.(state := if s.flag == 2 then SendTrailer else WaitFeed, lo := 0, hi := 0)
    else
      r.(lo := r.rpos, hi := |s.data|, rpos := |s.data|)
  }

  /** What send does: takes up to so many bytes, would block, or fails. */
  datatype Socket = Takes(n: nat) | Blocks | Fails

  /** The connection after a turn, and whether it stays open. */
  datatype Outcome = Outcome(conn: Conn, open: bool)

  /** The bytes lo..hi of a slot; what lies past its csize is not part of this model. */
  function Range(data: seq<byte>, lo: nat, hi: nat): seq<byte> { if lo <= hi <= |data| then data[lo..hi] else [] }

  function SendRange(r: Conn, s: Slot, n: nat): Conn {
    var m := if r.lo + n <= r.hi then r.lo + n else r.hi;
    r.(lo := m, body := r.body + Range(s.data, r.lo, m))
  }

  /** handle_connection for a reader that may write: http_send_data prepares a range when the
      last is used up, sends once, and a connection left in the trailer state is closed. */
  function SendTurn(r: Conn, s: Slot, socket: Socket): Outcome {
    var r1 := if r.lo >= r.hi then HlsRead(r, s) else r;
    if r1.lo >= r1.hi then Outcome(r1, !r1.state.SendTrailer?)
    else
      match socket
      case Fails => Outcome(r1, false)
      case Blocks => Outcome(r1, !r1.state.SendTrailer?)
      case Takes(n) => Outcome(SendRange(r1, s, n), !r1.state.SendTrailer?)
  }

  predicate Sending(k: Conn) { k.state.SendDataHeader? || k.state.SendData? || k.state.SendTrailer? }

  /** What holds of a reader of a slot between any two turns: what it sent and what it is
      sending are the segment up to its read position, it sleeps only when it has sent all
      there is of an incomplete segment, and it ends only when it has sent a complete one. */
  ghost predicate ReaderInv(r: Conn, s: Slot) {
    && r.lo <= r.hi && (r.lo == r.hi || r.hi == r.rpos) && r.hi - r.lo <= r.rpos <= |s.data|
    && r.body == s.data[..r.rpos - (r.hi - r.lo)]
    && (r.state.SendHeader? ==> r.rpos == 0)
    && (r.state.WaitFeed? ==> r.lo == r.hi && r.rpos == |s.data| && s.flag != 2)
    && (r.state.SendTrailer? ==> r.lo == r.hi && r.rpos == |s.data| && s.flag == 2)
  }

  lemma ReadKeepsInv(r: Conn, s: Slot)
    requires ReaderInv(r, s) && r.lo == r.hi && Sending(r)
    ensures ReaderInv(HlsRead(r, s), s)
    ensures HlsRead(r, s).state.SendTrailer? <==> |s.data| == r.rpos && s.flag == 2
  {
    assert s.data[..|s.data|] == s.data;
  }

  lemma SendKeepsInv(r: Conn, s: Slot, n: nat)
    requires ReaderInv(r, s) && r.lo < r.hi && Sending(r)
    ensures ReaderInv(SendRange(r, s, n), s)
  {
    var m := if r.lo + n <= r.hi then r.lo + n else r.hi;
    assert s.data[..r.lo] + s.data[r.lo..m] == s.data[..m];
    assert m < r.hi ==> r.hi == r.rpos;
    assert r.rpos - (r.hi - m) == m;
  }

  /** A turn keeps the invariant; unless the socket fails it closes a connection exactly when
      the segment is complete and was wholly sent. */
  lemma TurnKeepsInv(r: Conn, s: Slot, socket: Socket)
    requires ReaderInv(r, s) && Sending(r)
    ensures var o := SendTurn(r, s, socket);
            && ReaderInv(o.conn, s)
            && (!o.open && o.conn.state.SendTrailer? ==> o.conn.body == s.data && s.flag == 2)
            && (!o.open && !o.conn.state.SendTrailer? ==> socket.Fails?)
            && (!socket.Fails? ==> (!o.open <==> s.flag == 2 && r.body == s.data))
  {
    var r1 := if r.lo >= r.hi then HlsRead(r, s) else r;
    if r.lo >= r.hi {
      ReadKeepsInv(r, s);
    }
    assert s.data[..|s.data|] == s.data;
    if r1.lo < r1.hi && socket.Takes? {
      SendKeepsInv(r1, s, socket.n);
    }
  }

  /** A turn of a reader with bytes left to send puts on the wire as many as the socket takes, up to
      the end of the range in hand, or of the slot if none is; a socket that fails closes it. */
  lemma TurnSends(r: Conn, s: Slot, socket: Socket)
    requires ReaderInv(r, s) && Sending(r) && |r.body| < |s.data|
    ensures var o, end := SendTurn(r, s, socket), if r.lo < r.hi then r.hi else |s.data|;
            && |r.body| < end <= |s.data| && o.conn.lo <= o.conn.hi == end == o.conn.rpos
            && (o.open <==> !socket.Fails?)
            && (match socket
                case Takes(n) => o.conn.body == s.data[..if |r.body| + n <= end then |r.body| + n else end]
                case _ => o.conn.body == r.body)
  {
    var end := if r.lo < r.hi then r.hi else |s.data|;
    var r1 := if r.lo >= r.hi then HlsRead(r, s) else r;
    if r.lo >= r.hi {
      ReadKeepsInv(r, s);
    }
    assert r1.lo == |r.body| && r1.hi == end;
    if socket.Takes? {
      SendKeepsInv(r1, s, socket.n);
    }
  }

  /** More bytes, and everyone asleep woken to send. */
  lemma AppendKeepsInv(r: Conn, s: Slot, bytes: seq<byte>)
    requires ReaderInv(r, s) && (r.state.SendTrailer? ==> bytes == [])
    ensures ReaderInv(if r.state.WaitFeed? then r.(state := SendData) else r, Slot(s.data + bytes, s.flag))
  {
    var n := r.rpos - (r.hi - r.lo);
    assert (s.data + bytes)[..n] == s.data[..n];
  }

  /** The segment completed, and everyone asleep woken to end. */
  lemma FinishKeepsInv(r: Conn, s: Slot)
    requires ReaderInv(r, s)
    ensures ReaderInv(if r.state.WaitFeed? then r.(state := SendTrailer) else r, Slot(s.data, 2))
  {}

  /** Has read nothing and is not about to end. */
  predicate Untouched(r: Conn) { r.rpos == 0 && !r.state.SendTrailer? }

  /** Starting a slot over is safe for a reader exactly when it has read nothing of it and is
      not about to end. */
  lemma StartOverIff(r: Conn, s: Slot, flag: nat)
    requires ReaderInv(r, s) && flag != 2
    ensures ReaderInv(r, Slot([], flag)) <==> Untouched(r)
  {}

  // ------------------------------------------------------------------- the code

  /** A slot with its buffer. */
  class Hls {
    var data: array?<byte>
    var msize: nat
    var csize: nat
    var flag: nat

    ghost predicate Valid()
      reads this
    {
      csize <= msize && if data == null then msize == 0 else msize == data.Length
    }

    function Val(): Slot
      requires Valid()
      reads this, data
    {
      Slot(if data == null then [] else data[..csize], flag)
    }

    constructor ()
      ensures Valid() && Val() == Slot([], 0)
    {
      data, msize, csize, flag := null, 0, 0, 0;
    }

    /** The writer's branch of hls_parse_request. */
    method Open()
      requires Valid()
      modifies this
      ensures Valid() && data != null && Val() == Slot([], 1) && (data == old(data) || fresh(data))
    {
      if data == null {
        data := new byte[SEG_INC_SIZE](_ => 0);
        msize := SEG_INC_SIZE;
      }
      flag, csize := 1, 0;
    }

    /** The turn of hls_close. */
    method Reset()
      requires Valid()
      modifies this
      ensures Valid() && Val() == Slot([], 0) && data == old(data)
    {
      csize, flag := 0, 0;
    }

    /** The end of an upload in http_receive_data. */
    method Finish()
      requires Valid()
      modifies this
      ensures Valid() && Val() == old(Val()).(flag := 2) && data == old(data)
    {
      flag := 2;
    }

    /** av_realloc to a larger size. */
    method Grow(size: nat)
      requires Valid() && data != null && msize <= size
      modifies this
      ensures Valid() && data != null && fresh(data) && msize == size && csize == old(csize) && Val() == old(Val())
    {
      var bigger := new byte[size](_ => 0);
      var i := 0;
      while i < csize
        invariant data == old(data) && csize == old(csize) && msize == old(msize) && flag == old(flag)
        invariant data[..] == old(data[..])
        invariant 0 <= i <= csize && bigger[..i] == data[..i]
      {
        bigger[i] := data[i];
        i := i + 1;
      }
      data, msize := bigger, size;
    }

    /** memcpy to the end of the contents. */
    method CopyIn(bytes: seq<byte>)
      requires Valid() && data != null && csize + |bytes| <= msize
      modifies this`csize, data
      ensures Valid() && Val() == Slot(old(Val()).data + bytes, flag)
    {
      var i := 0;
      while i < |bytes|
        invariant 0 <= i <= |bytes| && csize == old(csize)
        invariant data[..csize + i] == old(data[..csize]) + bytes[..i]
      {
        data[csize + i] := bytes[i];
        i := i + 1;
      }
      csize := csize + |bytes|;
    }

    /** hls_write: grows by whole blocks when needed, and always has room. */
    method Write(bytes: seq<byte>) returns (ok: bool)
      requires Valid()
      modifies this, data
      ensures Valid() && ok == (old(data) != null)
      ensures Val() == if ok then Slot(old(Val()).data + bytes, old(flag)) else old(Val())
      ensures data == old(data) || fresh(data)
    {
      if data == null {
        return false;
      }
      ghost var was := Val();
      if csize + |bytes| > msize {
        var inc := (csize + |bytes| - msize + SEG_INC_SIZE) / SEG_INC_SIZE;
        assert inc * SEG_INC_SIZE >= csize + |bytes| - msize;
        Grow(inc * SEG_INC_SIZE + msize);
      }
      assert Val() == was;
      CopyIn(bytes);
      ok := true;
    }
  }

  /** hls_read. */
  method ReadInPlace(c: Context, s: Hls) returns (ret: int)
    requires s.Valid() && c.lo >= c.hi
    modifies c
    ensures c.Val() == HlsRead(old(c.Val()), s.Val()) && ret == if c.lo < c.hi then 0 else 1
  {
    var left := s.csize - c.rpos;
    if s.data == null || left <= 0 {
      c.state := if s.flag == 2 then SendTrailer else WaitFeed;
      c.lo, c.hi := 0, 0;
      return 1;
    }
    c.lo := c.rpos;
    c.hi := c.lo + left;
    c.rpos := c.rpos + left;
    ret := 0;
  }

  /** http_send_data for a reader of a slot, and the check for the trailer state after it. */
  method SendInPlace(c: Context, s: Hls, socket: Socket) returns (open: bool)
    requires s.Valid()
    modifies c
    ensures Outcome(c.Val(), open) == SendTurn(old(c.Val()), s.Val(), socket)
  {
    while true
      invariant c.Val() == old(c.Val()) || (c.lo < c.hi && old(c.lo >= c.hi) && c.Val() == HlsRead(old(c.Val()),
          s.Val()))
      decreases c.lo >= c.hi
    {
      if c.lo >= c.hi {
        var ret := ReadInPlace(c, s);
        if ret > 0 {
          break;
        }
      } else {
        if socket.Fails? {
          return false;
        }
        if socket.Takes? {
          var m := if c.lo + socket.n <= c.hi then c.lo + socket.n else c.hi;
          c.body := c.body + Range(s.Val().data, c.lo, m);
          c.lo := m;
        }
        break;
      }
    }
    open := c.state != SendTrailer;
  }
}
