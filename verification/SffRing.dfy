/**
  The packet ring of a feed in ffserver.c: 128 slots for packets, one more for the stream
  header, a writer that overwrites the oldest packet and readers that join at any time.
 */
module SffRing {
  import opened Bytes
  import opened Wrappers
  import opened SffFraming

  const N: nat := 128

  datatype Ring = Ring(slots: seq<Option<Block>>, w: nat)

  function Empty(): Ring { Ring(seq(N + 1, _ => None), 0) }

  predicate Shaped(r: Ring) { |r.slots| == N + 1 && r.w < N }

  /** sff_write: headers go to the last slot, packets to the next of the others. */
  function Write(r: Ring, b: Block): Ring
    requires Shaped(r)
  {
    if b.kind == 1 then r.(slots := r.slots[N := Some(b)])
    else if b.kind == 2 then Ring(r.slots[r.w := Some(b)], (r.w + 1) % N)
    else r
  }

  /** sff_read of a packet by a reader at `r`: it is up to date when its index is the writer's. */
  function Read(g: Ring, r: nat): Option<Block>
    requires Shaped(g) && r < N
  {
    if g.slots[r].None? || r == g.w then None else g.slots[r]
  }

  class Feed {
    const pkts: array<Option<Block>>
    var w: nat

    ghost predicate Valid()
      reads this
    {
      pkts.Length == N + 1 && w < N
    }

    function State(): Ring
      reads this, pkts
    {
      Ring(pkts[..], w)
    }

    constructor ()
      ensures Valid() && fresh(pkts) && State() == Empty()
    {
      pkts := new Option<Block>[N + 1](_ => None);
      w := 0;
      new;
      assert pkts[..] == Empty().slots;
    }

    method Put(b: Block)
      requires Valid()
      modifies this`w, pkts
      ensures Valid() && State() == Write(old(State()), b)
    {
      if b.kind == 1 {
        pkts[N] := Some(b);
      } else if b.kind == 2 {
        pkts[w] := Some(b);
        w := (w + 1) % N;
      }
    }
  }

  class Reader {
    const feed: Feed
    var r: nat

    constructor (feed: Feed)
      ensures this.feed == feed && r == 0
    {
      this.feed := feed;
      r := 0;
    }

    /** sff_read; `header` asks for type 1. */
    method Get(header: bool) returns (b: Option<Block>)
      requires feed.Valid() && r < N
      modifies this`r
      ensures r < N
      ensures header ==> b == feed.State().slots[N] && r == old(r)
      ensures !header ==> b == Read(feed.State(), old(r)) && r == if b.Some? then (old(r) + 1) % N else old(r)
    {
      var idx := if header then N else r;
      var sff := feed.pkts[idx];
      if sff.None? {
        return None;
      }
      if header {
        return sff;
      }
      if r == feed.w {
        return None;
      }
      b := feed.pkts[r];
      r := (r + 1) % N;
    }
  }

  // --------------------------------------------------- packets and their numbers

  /** The packets among the blocks written; the k-th written has number k. */
  function Packets(bs: seq<Block>): seq<Block> {
    if bs == [] then []
    else Packets(bs[..|bs| - 1]) + if bs[|bs| - 1].kind == 2 then [bs[|bs| - 1]] else []
  }

  function Written(bs: seq<Block>): (g: Ring)
    ensures Shaped(g)
  {
    if bs == [] then Empty() else Write(Written(bs[..|bs| - 1]), bs[|bs| - 1])
  }

  /** Slot k holds the newest packet whose number is k modulo 128, or nothing yet. */
  ghost predicate Newest(g: Ring, ps: seq<Block>)
    requires Shaped(g)
  {
    && g.w == |ps| % N
    && (forall p :: 0 <= p < |ps| && |ps| <= p + N ==> g.slots[p % N] == Some(ps[p]))
    && (forall k :: |ps| <= k < N ==> g.slots[k] == None)
  }

  /** And the slot behind them holds the last header written, or nothing as long as there was none. */
  lemma {:induction false} RingHoldsHeader(bs: seq<Block>) returns (i: nat)
    ensures match Written(bs).slots[N]
            case None => forall k :: 0 <= k < |bs| ==> bs[k].kind != 1
            case Some(h) => i < |bs| && bs[i] == h && h.kind == 1 && forall k :: i < k < |bs| ==> bs[k].kind != 1
  {
    i := 0;
    if bs != [] {
      i := RingHoldsHeader(bs[..|bs| - 1]);
      if bs[|bs| - 1].kind == 1 {
        i := |bs| - 1;
      }
    }
  }

  lemma PacketKeepsNewest(g: Ring, ps: seq<Block>, b: Block)
    requires Shaped(g) && Newest(g, ps) && b.kind == 2
    ensures Newest(Write(g, b), ps + [b])
  {
    var g', ps' := Write(g, b), ps + [b];
    forall p | 0 <= p < |ps'| && |ps'| <= p + N
      ensures g'.slots[p % N] == Some(ps'[p])
    {
      if p < |ps| {
        SlotsDiffer(p, |ps|, N);
      }
    }
  }

  lemma {:induction false} RingHoldsNewest(bs: seq<Block>)
    ensures Newest(Written(bs), Packets(bs))
  {
    if bs != [] {
      var front, b := bs[..|bs| - 1], bs[|bs| - 1];
      RingHoldsNewest(front);
      if b.kind == 2 {
        PacketKeepsNewest(Written(front), Packets(front), b);
      } else {
        assert Packets(bs) == Packets(front);
      }
    }
  }

  /** The number a reader due for packet `n` finds after `w` packets: the newest congruent to
      n, unless that would be the one being written next. */
  function NumberRead(n: nat, w: nat): Option<nat> {
    if n >= w || (w - n) % N == 0 then None else Some(n + N * ((w - 1 - n) / N))
  }

  lemma NewestCongruent(n: nat, w: nat)
    requires n < w
    ensures var k := n + N * ((w - 1 - n) / N);
            n <= k < w <= k + N && k % N == n % N
    ensures (w - n) % N == 0 <==> w % N == n % N
  {
    var q := (w - 1 - n) / N;
    ModUnique(n + N * q, N, n / N + q, n % N);
    if w % N == n % N {
      ModUnique(w - n, N, w / N - n / N, 0);
    } else if (w - n) % N == 0 {
      ModUnique(w, N, n / N + (w - n) / N, n % N);
    }
  }

  lemma ReadNewest(g: Ring, ps: seq<Block>, n: nat)
    requires Shaped(g) && Newest(g, ps) && n <= |ps|
    ensures var k := NumberRead(n, |ps|);
            && (k.Some? ==> n <= k.value < |ps|)
            && Read(g, n % N) == if k.Some? then Some(ps[k.value]) else None
  {
    if n < |ps| {
      NewestCongruent(n, |ps|);
      var k := n + N * ((|ps| - 1 - n) / N);
      assert g.slots[k % N] == Some(ps[k]);
    }
  }

  lemma ReadByNumber(bs: seq<Block>, n: nat)
    requires n <= |Packets(bs)|
    ensures var ps := Packets(bs);
            var k := NumberRead(n, |ps|);
            && (k.Some? ==> n <= k.value < |ps|)
            && Read(Written(bs), n % N) == if k.Some? then Some(ps[k.value]) else None
  {
    RingHoldsNewest(bs);
    ReadNewest(Written(bs), Packets(bs), n);
  }

  /** A reader gets the packet it is due for exactly while the writer is less than 128 ahead. */
  lemma ReadIsNextIffNotLapped(n: nat, w: nat)
    requires n <= w
    ensures NumberRead(n, w) == Some(n) <==> 0 < w - n < N
    ensures NumberRead(n, w) == None <==> (w - n) % N == 0
  {}

  // --------------------------------------------------------- a reader's whole run

  datatype Event = Wrote(b: Block) | Reads

  /** A reader that joins sends the packets it gets; `r` is its index. */
  datatype Session = Session(bs: seq<Block>, r: nat, got: seq<Block>)

  function Play(s: Session, e: Event): Session
    requires s.r < N
  {
    match e
    case Wrote(b) => s.(bs := s.bs + [b])
    case Reads =>
      var x := Read(Written(s.bs), s.r);
      if x.Some? then s.(r := (s.r + 1) % N, got := s.got + [x.value]) else s
  }

  function Run(s: Session, es: seq<Event>): Session
    requires s.r < N
    decreases es
  {
    if es == [] then s else Run(Play(s, es[0]), es[1..])
  }

  /** The first packet a reader joining after `w` of them is due for. */
  function JoinNumber(w: nat): nat { N * (w / N) }

  /** The writer is never 128 or more packets ahead of the reader when it reads. */
  predicate NeverLapped(s: Session, es: seq<Event>, start: nat)
    requires s.r < N
    decreases es
  {
    es != [] ==>
      && (es[0].Reads? ==> |Packets(s.bs)| < start + |s.got| + N)
      && NeverLapped(Play(s, es[0]), es[1..], start)
  }

  ghost predicate InStep(s: Session, start: nat) {
    var ps := Packets(s.bs);
    && start + |s.got| <= |ps| && s.r == (start + |s.got|) % N
    && s.got == ps[start..start + |s.got|]
  }

  lemma PacketsAppend(bs: seq<Block>, b: Block)
    ensures Packets(bs + [b]) == Packets(bs) + if b.kind == 2 then [b] else []
  {
    assert (bs + [b])[..|bs|] == bs;
  }

  lemma WroteKeepsStep(s: Session, b: Block, start: nat)
    requires s.r < N && InStep(s, start)
    ensures InStep(Play(s, Wrote(b)), start)
  {
    PacketsAppend(s.bs, b);
    var n, ps := start + |s.got|, Packets(s.bs);
    assert Packets(s.bs + [b])[start..n] == ps[start..n];
  }

  lemma ReadKeepsStep(s: Session, start: nat)
    requires s.r < N && InStep(s, start) && |Packets(s.bs)| < start + |s.got| + N
    ensures InStep(Play(s, Reads), start)
  {
    var n, ps := start + |s.got|, Packets(s.bs);
    ReadByNumber(s.bs, n);
    ReadIsNextIffNotLapped(n, |ps|);
    if n < |ps| {
      assert ps[start..n] + [ps[n]] == ps[start..n + 1];
      NextIndex(n);
    }
  }

  lemma NextIndex(n: nat)
    ensures (n % N + 1) % N == (n + 1) % N
  {}

  lemma {:induction false} StaysInStep(s: Session, es: seq<Event>, start: nat)
    requires s.r < N && InStep(s, start) && NeverLapped(s, es, start)
    ensures Run(s, es).r < N && InStep(Run(s, es), start)
    decreases es
  {
    if es != [] {
      match es[0] {
        case Wrote(b) => WroteKeepsStep(s, b, start);
        case Reads => ReadKeepsStep(s, start);
      }
      StaysInStep(Play(s, es[0]), es[1..], start);
    }
  }

  /** A late reader receives the contiguous run that starts at packet 128 * (W / 128), in order,
      with no gap and no repeat, as long as the writer never laps it. */
  lemma LateReaderIsContiguous(before: seq<Block>, es: seq<Event>)
    requires NeverLapped(Session(before, 0, []), es, JoinNumber(|Packets(before)|))
    ensures var start := JoinNumber(|Packets(before)|);
            var s := Run(Session(before, 0, []), es);
            && start <= |Packets(before)| < start + N
            && start + |s.got| <= |Packets(s.bs)|
            && s.got == Packets(s.bs)[start..start + |s.got|]
  {
    var start := JoinNumber(|Packets(before)|);
    StaysInStep(Session(before, 0, []), es, start);
  }
}
