/**
  The packet queue of ffplay2.c and the decoder that drains it. Every flush packet
  opens a new serial; a seek empties the queue and then puts a flush packet, under two
  separate acquisitions of the lock, while the decoder reads the serial without it.
 */
module PacketQueue {
  import opened Chains

  /** `Null` is the packet without data that drains a codec at the end of the file. */
  datatype Packet = Flush | Null | Data(id: int, bytes: nat)

  datatype Entry = Entry(pkt: Packet, serial: int)

  /** `node` is the size of a list node, which the byte count includes. */
  datatype State = State(node: nat, list: seq<Entry>, nb: int, size: int, serial: int, aborted: bool)

  function Bytes(p: Packet): nat { if p.Data? then p.bytes else 0 }

  function Append(q: State, p: Packet): State {
    var serial := if p.Flush? then q.serial + 1 else q.serial;
    q.(list := q.list + [Entry(p, serial)], nb := q.nb + 1, size := q.size + Bytes(p) + q.node, serial := serial)
  }

  function PutSpec(q: State, p: Packet): State { if q.aborted then q else Append(q, p) }

  function FlushSpec(q: State): State { q.(list := [], nb := 0, size := 0) }

  function StartSpec(q: State): State { Append(q.(aborted := false), Flush) }

  function TakeSpec(q: State): State
    requires q.list != []
  {
    q.(list := q.list[1..], nb := q.nb - 1, size := q.size - (Bytes(q.list[0].pkt) + q.node))
  }

  // ---------------------------------------------------------------- the queue

  datatype Got = Aborted | Empty | Packet(pkt: Packet, serial: int)

  class Queue {
    const node: nat
    var first: Node?<Entry>
    var last: Node?<Entry>
    ghost var nodes: seq<Node<Entry>>
    var nb: int
    var size: int
    var serial: int
    var aborted: bool

    /** The list runs from `first` to `last` through `nodes`. */
    ghost predicate Valid()
      reads this, nodes
    {
      Linked(nodes) && Distinct(nodes) && first == First(nodes) && last == Last(nodes)
    }

    ghost function View(): State
      reads this
    {
      State(node, Values(nodes), nb, size, serial, aborted)
    }

    /** packet_queue_init: aborted until it is started. */
    constructor (node: nat)
      ensures Valid() && nodes == [] && View() == InitialState(node)
    {
      this.node := node;
      first, last, nodes := null, null, [];
      nb, size, serial, aborted := 0, 0, 0, true;
    }

    /** packet_queue_put_private. */
    method Put(p: Packet) returns (ok: bool)
      requires Valid()
      modifies this, last
      ensures Valid() && (nodes == old(nodes) || (|nodes| > 0 && nodes[..|nodes| - 1] == old(nodes) && fresh(last)))
      ensures ok == !old(aborted) && View() == PutSpec(old(View()), p)
    {
      if aborted {
        return false;
      }
      if p.Flush? {
        serial := serial + 1;
      }
      var n := new Node(Entry(p, serial));
      if last == null {
        first := n;
      } else {
        last.next := n;
      }
      last := n;
      AppendIsLinked(nodes, n);
      hide Linked, Distinct;
      ValuesAppend(nodes, n);
      nodes := nodes + [n];
      nb := nb + 1;
      size := size + (Bytes(p) + node);
      ok := true;
    }

    /** packet_queue_flush: the nodes are freed one by one. */
    method Clear()
      requires Valid()
      modifies this
      ensures Valid() && nodes == [] && View() == FlushSpec(old(View()))
    {
      var pkt := first;
      ghost var k := 0;
      while pkt != null
        invariant k <= |nodes| && pkt == if k < |nodes| then nodes[k] else null
        decreases |nodes| - k
      {
        pkt := pkt.next;
        k := k + 1;
      }
      first, last, nodes := null, null, [];
      nb, size := 0, 0;
    }

    /** packet_queue_abort. */
    method Abort()
      requires Valid()
      modifies this`aborted
      ensures Valid() && View() == old(View()).(aborted := true)
    {
      aborted := true;
    }

    /** packet_queue_start. */
    method Start()
      requires Valid()
      modifies this, last
      ensures Valid() && View() == StartSpec(old(View()))
    {
      aborted := false;
      var _ := Put(Flush);
    }

    /** packet_queue_get; Empty is where a blocking caller waits. */
    method Get() returns (r: Got)
      requires Valid()
      modifies this
      ensures Valid() && nodes == if old(aborted) || old(nodes) == [] then old(nodes) else old(nodes)[1..]
      ensures var list := old(View()).list;
              r == if old(aborted) then Aborted else if list == [] then Empty else Packet(list[0].pkt, list[0].serial)
      ensures View() == if r.Packet? then TakeSpec(old(View())) else old(View())
    {
      if aborted {
        return Aborted;
      }
      if first == null {
        return Empty;
      }
      var n := first;
      TailIsLinked(nodes);
      first := n.next;
      if first == null {
        last := null;
      }
      nodes := nodes[1..];
      nb := nb - 1;
      size := size - (Bytes(n.value.pkt) + node);
      r := Packet(n.value.pkt, n.value.serial);
    }
  }

  function InitialState(node: nat): State { State(node, [], 0, 0, 0, true) }

  predicate Fresh(e: Entry, serial: int) { !e.pkt.Flush? && e.serial == serial }

  /** The inner loop of decoder_decode_frame, run without interference: it skips every flush
      and stale packet and hands over the first one of the current serial. */
  method Fetch(q: Queue) returns (r: Got, ghost skipped: nat)
    requires q.Valid()
    modifies q
    ensures q.Valid() && q.serial == old(q.serial) && q.aborted == old(q.aborted)
    ensures r.Aborted? <==> q.aborted
    ensures var list := old(q.View()).list;
            && skipped <= |list|
            && (forall e <- list[..skipped] :: !Fresh(e, q.serial))
            && (r.Packet? ==> skipped < |list| && Fresh(list[skipped], q.serial)
                              && r == Packet(list[skipped].pkt, q.serial) && q.View().list == list[skipped + 1..])
            && (r.Empty? ==> skipped == |list| && q.View().list == [])
  {
    hide Linked, Distinct, First, Last, Values;
    ghost var list := q.View().list;
    skipped := 0;
    r := q.Get();
    while r.Packet? && (r.pkt.Flush? || q.serial != r.serial)
      invariant q.Valid() && q.serial == old(q.serial) && q.aborted == old(q.aborted)
      invariant r.Aborted? <==> q.aborted
      invariant skipped <= |list| && forall e <- list[..skipped] :: !Fresh(e, q.serial)
      invariant r.Packet? ==> skipped < |list| && q.View().list == list[skipped + 1..]
                              && r == Packet(list[skipped].pkt, list[skipped].serial)
      invariant r.Empty? ==> skipped == |list| && q.View().list == []
      decreases |list| - skipped
    {
      skipped := skipped + 1;
      r := q.Get();
    }
  }

  // --------------------------------------- the reader and the decoder, interleaved

  datatype Reader = Normal | Seeking

  /** Where the decoder thread stands between two unlocked accesses to the queue. */
  datatype Pc = Top | Gate | Getting | Judging(p: Packet) | Decoding | Gone

  /** `pktOf` remembers the serial under which the packet in hand was queued. */
  datatype Decoder = Decoder(pc: Pc, pending: bool, pktSerial: int, pkt: Packet, left: int, pktOf: int)

  datatype Call = FlushBuffers | Feed(pkt: Packet, serial: int)

  /** `log` lists the calls into the codec; `epoch` is the serial of its last flush. */
  datatype Sys = Sys(q: State, reader: Reader, dec: Decoder, log: seq<Call>, epoch: int)

  datatype Action =
    | Start | PutData(p: Packet) | SeekClears | SeekFlushes | Abort | Reopen
    | CheckAbort | CheckPending | Take | Judge | Decode(ret: int, gotFrame: bool, audio: bool)

  const NEW_DECODER := Decoder(Top, false, 0, Null, 0, 0)

  function Init(node: nat): Sys { Sys(InitialState(node), Normal, NEW_DECODER, [], 0) }

  /** What is left pending after the codec has consumed `ret` bytes, or failed. */
  function Consume(d: Decoder, ret: int, gotFrame: bool, audio: bool): Decoder {
    if ret < 0 then d.(pending := false, pc := Top)
    else if d.pkt.Data? then
      var left := d.left - (if audio then ret else d.left);
      d.(left := left, pending := left > 0, pc := Top)
    else d.(pending := gotFrame, pc := Top)
  }

  function Step(s: Sys, a: Action): Sys {
    var q, d := s.q, s.dec;
    match a
    case Start => if q.aborted && q.serial == 0 then s.(q := StartSpec(q)) else s
    case PutData(p) => if s.reader.Normal? && !p.Flush? then s.(q := PutSpec(q, p)) else s
    case SeekClears => if s.reader.Normal? then s.(q := FlushSpec(q), reader := Seeking) else s
    case SeekFlushes => if s.reader.Seeking? then s.(q := PutSpec(q, Flush), reader := Normal) else s
    case Abort => s.(q := q.(aborted := true))
    case Reopen =>
      if q.aborted && d.pc.Gone? && s.reader.Normal? then
        s.(q := StartSpec(FlushSpec(q)), dec := NEW_DECODER, log := [], epoch := 0)
      else s
    case CheckAbort => if d.pc.Top? then s.(dec := d.(pc := if q.aborted then Gone else Gate)) else s
    case CheckPending =>
      if d.pc.Gate? then s.(dec := d.(pc := if !d.pending || q.serial != d.pktSerial then Getting else Decoding)) else s
    case Take =>
      if !d.pc.Getting? then s
      else if q.aborted then s.(dec := d.(pc := Gone))
      else if q.list == [] then s
      else
        var e := q.list[0];
        var s1 := s.(q := TakeSpec(q), dec := d.(pc := Judging(e.pkt), pktSerial := e.serial));
        if e.pkt.Flush? then s1.(log := s.log + [FlushBuffers], epoch := e.serial) else s1
    case Judge =>
      if !d.pc.Judging? then s
      else if d.pc.p.Flush? || q.serial != d.pktSerial then s.(dec := d.(pc := Getting))
      else s.(dec := Decoder(Decoding, true, d.pktSerial, d.pc.p, Bytes(d.pc.p), d.pktSerial))
    case Decode(ret, got, audio) =>
      if d.pc.Decoding? then s.(dec := Consume(d, ret, got, audio), log := s.log + [Feed(d.pkt, d.pktOf)]) else s
  }

  function Run(s: Sys, actions: seq<Action>): Sys
    decreases actions
  {
    if actions == [] then s else Run(Step(s, actions[0]), actions[1..])
  }

  // ---------------------------------------------------------------- invariant

  function TotalSize(list: seq<Entry>, node: nat): int {
    if list == [] then 0 else Bytes(list[0].pkt) + node + TotalSize(list[1..], node)
  }

  ghost predicate Counts(q: State) { q.nb == |q.list| && q.size == TotalSize(q.list, q.node) }

  /** After a flush of serial `e`: packets of serial e, then a flush of a larger serial, and so on. */
  predicate Chained(list: seq<Entry>, e: int) {
    list == [] ||
    if list[0].pkt.Flush? then list[0].serial > e && Chained(list[1..], list[0].serial)
    else list[0].serial == e && Chained(list[1..], e)
  }

  function LastSerial(list: seq<Entry>, e: int): int {
    if list == [] then e else LastSerial(list[1..], list[0].serial)
  }

  ghost predicate QueueInv(s: Sys) {
    var last := LastSerial(s.q.list, s.epoch);
    && Counts(s.q) && Chained(s.q.list, s.epoch)
    && 0 <= s.epoch <= last <= s.q.serial
    && (!s.q.aborted ==> s.q.serial >= 1)
    && (s.epoch == 0 && s.q.list != [] ==> s.q.list[0].pkt.Flush?)
    && (s.q.aborted || s.reader.Seeking? || last == s.q.serial)
  }

  ghost predicate DecoderInv(s: Sys) {
    && s.dec.pktSerial == s.epoch
    && (s.dec.pc.Decoding? ==> s.dec.pending)
    && (s.dec.pending && (s.dec.pc.Top? || s.dec.pc.Gate? || s.dec.pc.Decoding?) ==> s.dec.pktOf == s.epoch)
    && (s.epoch == 0 ==> !s.dec.pending && !s.dec.pc.Judging?)
    && (s.log == [] <==> s.epoch == 0)
  }

  ghost predicate FlushedBetween(log: seq<Call>, i: int, j: int) {
    exists k :: 0 <= k && i < k < j <= |log| && log[k].FlushBuffers?
  }

  /** Serials fed to the codec never go back, and it is flushed wherever they change. */
  ghost predicate CleanLog(log: seq<Call>) {
    forall i, j :: 0 <= i < j < |log| && log[i].Feed? && log[j].Feed? ==>
      && log[i].serial <= log[j].serial
      && (log[i].serial != log[j].serial ==> FlushedBetween(log, i, j))
  }

  /** Packets since the last flush have its serial, earlier ones a smaller one. */
  ghost predicate LogInv(s: Sys) {
    && CleanLog(s.log)
    && forall i :: 0 <= i < |s.log| && s.log[i].Feed? ==>
         && s.log[i].serial <= s.epoch
         && (s.log[i].serial < s.epoch ==> FlushedBetween(s.log, i, |s.log|))
  }

  ghost predicate Inv(s: Sys) { QueueInv(s) && DecoderInv(s) && LogInv(s) }

  lemma {:induction false} AppendChains(list: seq<Entry>, e: int, x: Entry)
    requires Chained(list, e)
    requires if x.pkt.Flush? then x.serial > LastSerial(list, e) else x.serial == LastSerial(list, e)
    ensures Chained(list + [x], e) && LastSerial(list + [x], e) == x.serial
  {
    if list != [] {
      assert (list + [x])[1..] == list[1..] + [x];
      AppendChains(list[1..], list[0].serial, x);
    } else {
      assert ([x])[1..] == [];
    }
  }

  lemma {:induction false} ChainedRises(list: seq<Entry>, e: int)
    requires Chained(list, e)
    ensures e <= LastSerial(list, e)
  {
    if list != [] {
      ChainedRises(list[1..], list[0].serial);
    }
  }

  lemma {:induction false} AppendSize(list: seq<Entry>, node: nat, x: Entry)
    ensures TotalSize(list + [x], node) == TotalSize(list, node) + Bytes(x.pkt) + node
  {
    if list != [] {
      assert (list + [x])[1..] == list[1..] + [x];
      AppendSize(list[1..], node, x);
    } else {
      assert ([x])[1..] == [];
    }
  }

  lemma AppendKeepsInv(s: Sys, q: State, p: Packet)
    requires Inv(s) && q.list == s.q.list && q.nb == s.q.nb && q.size == s.q.size && q.node == s.q.node
        && q.serial == s.q.serial
    requires !p.Flush? ==> LastSerial(q.list, s.epoch) == q.serial >= 1
    ensures Inv(s.(q := Append(q, p), reader := Normal))
  {
    var serial := if p.Flush? then q.serial + 1 else q.serial;
    AppendChains(q.list, s.epoch, Entry(p, serial));
    AppendSize(q.list, q.node, Entry(p, serial));
  }

  lemma TakeKeepsInv(s: Sys)
    requires Inv(s) && s.dec.pc.Getting? && !s.q.aborted && s.q.list != []
    ensures Inv(Step(s, Take))
  {
    var e, s' := s.q.list[0], Step(s, Take);
    ChainedRises(s.q.list[1..], e.serial);
    if e.pkt.Flush? {
      assert s'.log[|s.log|].FlushBuffers?;
      forall i | 0 <= i < |s.log| && s.log[i].Feed?
        ensures FlushedBetween(s'.log, i, |s'.log|)
      {}
      LogGrows(s.log, FlushBuffers);
    }
  }

  /** Flushes seen between two calls are still there when the log grows. */
  lemma LogGrows(log: seq<Call>, c: Call)
    requires CleanLog(log)
    requires c.Feed? ==> forall i :: 0 <= i < |log| && log[i].Feed? ==>
               log[i].serial <= c.serial && (log[i].serial != c.serial ==> FlushedBetween(log, i, |log|))
    ensures CleanLog(log + [c])
  {
    var log' := log + [c];
    forall i, j | 0 <= i < j < |log'| && log'[i].Feed? && log'[j].Feed?
      ensures log'[i].serial <= log'[j].serial
      ensures log'[i].serial != log'[j].serial ==> FlushedBetween(log', i, j)
    {
      if log'[i].serial != log'[j].serial {
        assert FlushedBetween(log, i, j);
        var k :| i < k < j && log[k].FlushBuffers?;
        assert log'[k].FlushBuffers?;
      }
    }
  }

  lemma DecodeKeepsInv(s: Sys, ret: int, got: bool, audio: bool)
    requires Inv(s) && s.dec.pc.Decoding?
    ensures Inv(Step(s, Decode(ret, got, audio)))
  {
    var c, s' := Feed(s.dec.pkt, s.dec.pktOf), Step(s, Decode(ret, got, audio));
    LogGrows(s.log, c);
    forall i | 0 <= i < |s'.log| && s'.log[i].Feed? && s'.log[i].serial < s'.epoch
      ensures FlushedBetween(s'.log, i, |s'.log|)
    {
      assert FlushedBetween(s.log, i, |s.log|);
      var k :| i < k < |s.log| && s.log[k].FlushBuffers?;
      assert s'.log[k].FlushBuffers?;
    }
  }

  lemma StepKeepsInv(s: Sys, a: Action)
    requires Inv(s)
    ensures Inv(Step(s, a))
  {
    match a
    case Start => if s.q.aborted && s.q.serial == 0 { AppendKeepsInv(s, s.q.(aborted := false), Flush); }
    case PutData(p) => if s.reader.Normal? && !p.Flush? && !s.q.aborted { AppendKeepsInv(s, s.q, p); }
    case SeekFlushes => if s.reader.Seeking? && !s.q.aborted { AppendKeepsInv(s, s.q, Flush); }
    case Reopen =>
      if s.q.aborted && s.dec.pc.Gone? && s.reader.Normal? {
        var s1 := s.(q := FlushSpec(s.q), dec := NEW_DECODER, log := [], epoch := 0);
        assert Inv(s1);
        AppendKeepsInv(s1, s1.q.(aborted := false), Flush);
      }
    case Take => if s.dec.pc.Getting? && !s.q.aborted && s.q.list != [] { TakeKeepsInv(s); }
    case Decode(ret, got, audio) => if s.dec.pc.Decoding? { DecodeKeepsInv(s, ret, got, audio); }
    case _ =>
  }

  lemma {:induction false} RunKeepsInv(s: Sys, actions: seq<Action>)
    requires Inv(s)
    ensures Inv(Run(s, actions))
    decreases actions
  {
    if actions != [] {
      StepKeepsInv(s, actions[0]);
      RunKeepsInv(Step(s, actions[0]), actions[1..]);
    }
  }

  // ---------------------------------------------------- what every run satisfies

  lemma {:induction false} ChainedIsOrdered(list: seq<Entry>, e: int, i: nat, j: nat)
    requires Chained(list, e) && i <= j < |list|
    ensures e <= list[i].serial <= list[j].serial <= LastSerial(list, e)
    decreases |list|
  {
    var rest := list[1..];
    if j > 0 {
      ChainedIsOrdered(rest, list[0].serial, if i == 0 then 0 else i - 1, j - 1);
      assert rest[j - 1] == list[j];
      assert i > 0 ==> rest[i - 1] == list[i];
    } else if rest != [] {
      ChainedIsOrdered(rest, list[0].serial, 0, 0);
    }
  }

  /** The counters match the list, and serials along it rise to at most the queue's own. */
  lemma QueueIsConsistent(node: nat, actions: seq<Action>)
    ensures var q := Run(Init(node), actions).q;
            && q.nb == |q.list|
            && q.size == TotalSize(q.list, q.node)
            && forall i, j :: 0 <= i <= j < |q.list| ==> q.list[i].serial <= q.list[j].serial <= q.serial
  {
    RunKeepsInv(Init(node), actions);
    var s := Run(Init(node), actions);
    forall i, j | 0 <= i <= j < |s.q.list|
      ensures s.q.list[i].serial <= s.q.list[j].serial <= s.q.serial
    {
      ChainedIsOrdered(s.q.list, s.epoch, i, j);
    }
  }

  /** Whatever the interleaving of puts, seeks, aborts and decoding, the codec is fed rising
      serials, is flushed before its first packet and between two of different serials. */
  lemma CodecIsFlushedBetweenSerials(node: nat, actions: seq<Action>)
    ensures CleanLog(Run(Init(node), actions).log)
    ensures var log := Run(Init(node), actions).log;
            forall j :: 0 <= j < |log| && log[j].Feed? ==> FlushedBetween(log, -1, j)
  {
    RunKeepsInv(Init(node), actions);
    FirstCallFlushes(Init(node), actions);
  }

  ghost predicate StartsFlushed(log: seq<Call>) { log != [] ==> log[0].FlushBuffers? }

  lemma {:induction false} FirstCallFlushes(s: Sys, actions: seq<Action>)
    requires Inv(s) && StartsFlushed(s.log)
    ensures StartsFlushed(Run(s, actions).log)
    ensures var log := Run(s, actions).log;
            forall j :: 0 <= j < |log| && log[j].Feed? ==> FlushedBetween(log, -1, j)
    decreases actions
  {
    if actions != [] {
      var s' := Step(s, actions[0]);
      StepKeepsInv(s, actions[0]);
      FeedNeedsFlush(s, actions[0]);
      FirstCallFlushes(s', actions[1..]);
    } else {
      assert s.log != [] ==> s.log[0].FlushBuffers?;
    }
  }

  lemma FeedNeedsFlush(s: Sys, a: Action)
    requires Inv(s) && StartsFlushed(s.log)
    ensures StartsFlushed(Step(s, a).log)
  {}

  // ------------------------------------------------------ first in, first out

  /** What was seen from outside: whether the queue is open, that is started and not aborted since,
      the packets put on the open queue since it was last emptied, each with the number of flush
      packets put up to then, that number, and what the decoder took. */
  datatype Seen = Seen(open: bool, puts: seq<Entry>, flushes: int, taken: seq<Entry>)

  const NOTHING := Seen(false, [], 0, [])

  function SawPut(h: Seen, p: Packet): Seen {
    var n := h.flushes + if p == Flush then 1 else 0;
    h.(puts := h.puts + [Entry(p, n)], flushes := n)
  }

  /** The observer sees starts and aborts, puts on the open queue, its emptying, and the packet and
      serial in the hands of the decoder. */
  function See(h: Seen, s: Sys, a: Action): Seen {
    match a
    case PutData(p) => if s.reader.Normal? && p != Flush && h.open then SawPut(h, p) else h
    case SeekClears => if s.reader.Normal? then h.(puts := [], taken := []) else h
    case SeekFlushes => if s.reader.Seeking? && h.open then SawPut(h, Flush) else h
    case Start => if !h.open && h.flushes == 0 then SawPut(h.(open := true), Flush) else h
    case Abort => h.(open := false)
    case Reopen =>
      if !h.open && s.dec.pc.Gone? && s.reader.Normal? then SawPut(Seen(true, [], h.flushes, []), Flush) else h
    case Take =>
      var pc := Step(s, a).dec.pc;
      if s.dec.pc.Getting? && pc.Judging? then h.(taken := h.taken + [Entry(pc.p, Step(s, a).dec.pktSerial)]) else h
    case _ => h
  }

  function SeeAll(h: Seen, s: Sys, actions: seq<Action>): Seen
    decreases actions
  {
    if actions == [] then h else SeeAll(See(h, s, actions[0]), Step(s, actions[0]), actions[1..])
  }

  /** What was taken, followed by the list, is what was put. */
  predicate Fifo(h: Seen, q: State) {
    h.taken + q.list == h.puts && q.serial == h.flushes && (q.aborted <==> !h.open)
  }

  lemma PutIsSeen(h: Seen, q: State, p: Packet)
    requires Fifo(h, q)
    ensures Fifo(if h.open then SawPut(h, p) else h, PutSpec(q, p))
  {
    if !q.aborted {
      Glue(h.taken, q.list, [PutSpec(q, p).list[|q.list|]]);
    }
  }

  lemma Glue(a: seq<Entry>, b: seq<Entry>, c: seq<Entry>)
    ensures a + b + c == a + (b + c)
  {}

  lemma TakeIsSeen(h: Seen, s: Sys)
    requires Fifo(h, s.q)
    ensures Fifo(See(h, s, Take), Step(s, Take).q)
  {
    if s.dec.pc.Getting? && !s.q.aborted && s.q.list != [] {
      Glue(h.taken, [s.q.list[0]], s.q.list[1..]);
      assert [s.q.list[0]] + s.q.list[1..] == s.q.list;
    }
  }

  lemma StepKeepsFifo(h: Seen, s: Sys, a: Action)
    requires Fifo(h, s.q)
    ensures Fifo(See(h, s, a), Step(s, a).q)
  {
    hide Fifo, PutSpec, SawPut;
    FifoGives(h, s.q);
    match a
    case Take => TakeIsSeen(h, s);
    case PutData(p) => PutIsSeen(h, s.q, p);
    case SeekFlushes => PutIsSeen(h, s.q, Flush);
    case Start => StartIsSeen(h, s.q);
    case Reopen => ClearIsSeen(h, s.q); StartIsSeen(h.(puts := [], taken := []), FlushSpec(s.q));
    case SeekClears => ClearIsSeen(h, s.q);
    case Abort => AbortIsSeen(h, s.q);
    case _ =>
  }

  lemma FifoGives(h: Seen, q: State)
    requires Fifo(h, q)
    ensures q.serial == h.flushes && (q.aborted <==> !h.open)
  {}

  lemma StartIsSeen(h: Seen, q: State)
    requires Fifo(h, q)
    ensures Fifo(SawPut(h.(open := true), Flush), StartSpec(q))
  {
    Glue(h.taken, q.list, [StartSpec(q).list[|q.list|]]);
  }

  lemma ClearIsSeen(h: Seen, q: State)
    requires Fifo(h, q)
    ensures Fifo(h.(puts := [], taken := []), FlushSpec(q))
  {}

  lemma AbortIsSeen(h: Seen, q: State)
    requires Fifo(h, q)
    ensures Fifo(h.(open := false), q.(aborted := true))
  {}

  lemma {:induction false} RunKeepsFifo(h: Seen, s: Sys, actions: seq<Action>)
    requires Fifo(h, s.q)
    ensures Fifo(SeeAll(h, s, actions), Run(s, actions).q)
    decreases actions
  {
    hide Step, See, Fifo;
    if actions != [] {
      StepKeepsFifo(h, s, actions[0]);
      RunKeepsFifo(See(h, s, actions[0]), Step(s, actions[0]), actions[1..]);
    }
  }

  /** First in, first out: over every run, what the decoder took since the queue was last emptied,
      followed by what is still in the list, is exactly what was put on the open queue since then,
      in order, each packet under the serial in force when it was put. */
  lemma FirstInFirstOut(node: nat, actions: seq<Action>)
    ensures var h, q := SeeAll(NOTHING, Init(node), actions), Run(Init(node), actions).q;
            h.taken + q.list == h.puts && q.serial == h.flushes && (q.aborted <==> !h.open)
  {
    hide Run, SeeAll;
    RunKeepsFifo(NOTHING, Init(node), actions);
  }

  // -------------------------------------------------------- what the codec gets

  /** What was seen of the decoder since it was started: the packets that it found to be of the
      serial in force, how often each was fed to the codec, the calls that makes, and whether the
      serial of the last of them was in force when the decoder last looked. */
  datatype Heard = Heard(accepted: seq<Entry>, fed: seq<nat>, calls: seq<Call>, inForce: bool)

  const SILENCE := Heard([], [], [], false)

  function Hear(h: Heard, s: Sys, a: Action): Heard
    requires |h.fed| == |h.accepted|
  {
    var pc, n := s.dec.pc, |h.accepted|;
    match a
    case Reopen => if s.q.aborted && pc.Gone? && s.reader.Normal? then SILENCE else h
    case Take =>
      if pc.Getting? && Step(s, a).dec.pc == Judging(Flush) then h.(calls := h.calls + [FlushBuffers]) else h
    case CheckPending => if pc.Gate? then h.(inForce := n > 0 && h.accepted[n - 1].serial == s.q.serial) else h
    case Judge =>
      if pc.Judging? && pc.p != Flush && s.q.serial == s.dec.pktSerial
      then Heard(h.accepted + [Entry(pc.p, s.q.serial)], h.fed + [0], h.calls, true) else h
    case Decode(_, _, _) =>
      if pc.Decoding? && n > 0
      then h.(fed := h.fed[n - 1 := h.fed[n - 1] + 1],
              calls := h.calls + [Feed(h.accepted[n - 1].pkt, h.accepted[n - 1].serial)])
      else h
    case _ => h
  }

  function HearAll(h: Heard, s: Sys, actions: seq<Action>): (h': Heard)
    requires |h.fed| == |h.accepted|
    ensures |h'.fed| == |h'.accepted|
    decreases actions
  {
    if actions == [] then h else HearAll(Hear(h, s, actions[0]), Step(s, actions[0]), actions[1..])
  }

  /** The packet in hand is the one accepted last; all before it have been fed, and it has too,
      unless it is just about to be. */
  ghost predicate Hears(h: Heard, s: Sys) {
    var d, n := s.dec, |h.accepted|;
    && |h.fed| == n && s.log == h.calls
    && (d.pc.Decoding? || (d.pending && (d.pc.Top? || d.pc.Gate?)) ==>
          n > 0 && h.accepted[n - 1] == Entry(d.pkt, d.pktOf) && d.pktSerial == d.pktOf)
    && (d.pc.Decoding? ==> h.inForce)
    && (forall i :: 0 <= i < n - 1 ==> h.fed[i] > 0)
    && (n > 0 && !d.pc.Decoding? ==> h.fed[n - 1] > 0)
  }

  lemma StepKeepsHears(h: Heard, s: Sys, a: Action)
    requires Hears(h, s)
    ensures Hears(Hear(h, s, a), Step(s, a))
  {
    hide Append, FlushSpec;
  }

  lemma {:induction false} RunKeepsHears(h: Heard, s: Sys, actions: seq<Action>)
    requires Hears(h, s)
    ensures Hears(HearAll(h, s, actions), Run(s, actions))
    decreases actions
  {
    hide Step, Hear, Hears;
    if actions != [] {
      assert |h.fed| == |h.accepted| by { HearsLengths(h, s); }
      StepKeepsHears(h, s, actions[0]);
      RunKeepsHears(Hear(h, s, actions[0]), Step(s, actions[0]), actions[1..]);
    }
  }

  lemma HearsLengths(h: Heard, s: Sys)
    requires Hears(h, s)
    ensures |h.fed| == |h.accepted|
  {}

  /** Over every run the calls into the codec are a flush for every flush packet taken and feeds of
      the packet accepted last, each after a look that found its serial in force; every packet found
      to be of the serial in force is fed before the next one is accepted, and at the end too unless
      the decoder stands right before that. */
  lemma AcceptedIsFed(node: nat, actions: seq<Action>)
    ensures var h, s := HearAll(SILENCE, Init(node), actions), Run(Init(node), actions);
            && s.log == h.calls && (s.dec.pc.Decoding? ==> h.inForce)
            && forall i :: 0 <= i < |h.accepted| ==> h.fed[i] > 0 || (i == |h.accepted| - 1 && s.dec.pc.Decoding?)
  {
    hide Run, HearAll;
    RunKeepsHears(SILENCE, Init(node), actions);
  }

  /** One pass of the decoder's loop, from the call into the codec to the next decision. */
  function Pass(ret: int, got: bool, audio: bool): seq<Action> { [Decode(ret, got, audio), CheckAbort, CheckPending] }

  /** A packet is fed again after a pass exactly when it is audio of which some bytes are left, or
      the empty packet and a frame came out; otherwise, or when the codec fails, the next is taken. */
  lemma FedAgainIff(s: Sys, ret: int, got: bool, audio: bool)
    requires s.dec.pc.Decoding? && !s.q.aborted && s.q.serial == s.dec.pktSerial && !s.dec.pkt.Flush?
    ensures var d := Run(s, Pass(ret, got, audio)).dec;
            && (d.pc.Decoding? <==> ret >= 0 && if s.dec.pkt.Null? then got else audio && ret < s.dec.left)
            && (!d.pc.Decoding? ==> d.pc.Getting?)
            && (d.pc.Decoding? ==> d.pkt == s.dec.pkt && d.pktOf == s.dec.pktOf && d.pktSerial == s.dec.pktSerial)
            && (d.pc.Decoding? && audio && s.dec.pkt.Data? ==> d.left == s.dec.left - ret)
  {
    var p := Pass(ret, got, audio);
    var s1 := Step(s, p[0]);
    assert p[1..] == [CheckAbort, CheckPending] && p[1..][1..] == [CheckPending] && p[1..][1..][1..] == [];
    assert Run(s, p) == Run(s1, p[1..]) == Run(Step(s1, CheckAbort), [CheckPending]);
    assert Run(s, p) == Step(Step(s1, CheckAbort), CheckPending);
  }

  function Total(rets: seq<nat>): nat { if rets == [] then 0 else rets[0] + Total(rets[1..]) }

  function Passes(rets: seq<nat>, got: bool): seq<Action> {
    if rets == [] then [] else Pass(rets[0], got, true) + Passes(rets[1..], got)
  }

  lemma {:induction false} RunConcat(s: Sys, a: seq<Action>, b: seq<Action>)
    ensures Run(s, a + b) == Run(Run(s, a), b)
    decreases a
  {
    hide Step;
    if a == [] {
      assert a + b == b;
    } else {
      assert (a + b)[1..] == a[1..] + b;
      RunConcat(Step(s, a[0]), a[1..], b);
    }
  }

  lemma PassFeedsOnce(s: Sys, ret: int, got: bool)
    requires s.dec.pc.Decoding?
    ensures var s' := Run(s, Pass(ret, got, true));
            s'.q == s.q && s'.log == s.log + [Feed(s.dec.pkt, s.dec.pktOf)]
  {
    var p := Pass(ret, got, true);
    assert p[1..] == [CheckAbort, CheckPending] && p[1..][1..] == [CheckPending] && p[1..][1..][1..] == [];
    assert Run(s, p) == Run(Step(s, p[0]), p[1..]);
    assert Run(Step(s, p[0]), p[1..]) == Run(Step(Step(s, p[0]), CheckAbort), [CheckPending]);
  }

  /** An audio packet is fed until the codec has consumed all its bytes: as long as the passes before
      left some, another follows, and with the one that takes the last of them the next is taken. */
  lemma {:induction false} AudioIsConsumed(s: Sys, rets: seq<nat>, got: bool)
    requires s.dec.pc.Decoding? && s.dec.pkt.Data? && !s.q.aborted && s.q.serial == s.dec.pktSerial
    requires rets != [] && Total(rets[..|rets| - 1]) < s.dec.left
    ensures var s' := Run(s, Passes(rets, got));
            && s'.log == s.log + seq(|rets|, _ => Feed(s.dec.pkt, s.dec.pktOf))
            && (if Total(rets) < s.dec.left then s'.dec.pc.Decoding? && s'.dec.left == s.dec.left - Total(rets)
                else s'.dec.pc.Getting?)
    decreases |rets|
  {
    hide Run, Step;
    var x, more := Feed(s.dec.pkt, s.dec.pktOf), rets[1..];
    var s1 := Run(s, Pass(rets[0], got, true));
    RunConcat(s, Pass(rets[0], got, true), Passes(more, got));
    FedAgainIff(s, rets[0], got, true);
    PassFeedsOnce(s, rets[0], got);
    if more == [] {
      RunNothing(s1);
      assert seq(1, _ => x) == [x];
    } else {
      assert rets[..|rets| - 1][0] == rets[0] && rets[..|rets| - 1][1..] == more[..|more| - 1];
      AudioIsConsumed(s1, more, got);
      assert [x] + seq(|more|, _ => x) == seq(|rets|, _ => x);
    }
  }

  lemma RunNothing(s: Sys)
    ensures Run(s, []) == s
  {}

  /** An aborted queue stops the decoder before its next packet. */
  lemma AbortStopsDecoder(s: Sys)
    requires s.q.aborted
    ensures s.dec.pc.Top? ==> Step(s, CheckAbort) == s.(dec := s.dec.(pc := Gone))
    ensures s.dec.pc.Getting? ==> Step(s, Take) == s.(dec := s.dec.(pc := Gone))
  {}

  /** A packet just accepted is whole. */
  lemma AcceptedIsWhole(s: Sys)
    requires s.dec.pc.Judging? && !s.dec.pc.p.Flush? && s.q.serial == s.dec.pktSerial
    ensures var d := Step(s, Judge).dec;
            d.pc.Decoding? && d.pkt == s.dec.pc.p && d.pktOf == s.q.serial && (d.pkt.Data? ==> d.left == d.pkt.bytes)
  {}
}
