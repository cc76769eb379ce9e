/**
  The feeds of ffserver.c with the packets in them: the poll loop joined to a packet ring for
  every feed and a read index for every reader. A reader sleeps only when its feed has no
  header yet or nothing for it to read, and while the writer does not lap it, it has then been
  given every packet since it joined.
 */
module FeedRelay {
  import opened Bytes
  import opened Connections
  import opened FeedRefs
  import opened HlsSlots
  import opened Server
  import opened SffFraming
  import opened Text
  import opened Wrappers
  import SffRing

  /** The blocks that each feed has received, sff_r of the readers, the packets each of them was
      given, the number of the first packet each was due for when it met its feed, all blocks that
      each reader was sent, headers included, and the readers that met their feed by a packet. */
  datatype Joint = Joint(s: Sys, blocks: map<nat, seq<Block>>, due: map<nat, nat>,
                         given: map<nat, seq<Block>>, start: map<nat, nat>,
                         sent: map<nat, seq<Block>>, late: set<nat>) {
    function Blocks(f: nat): seq<Block> { if f in blocks then blocks[f] else [] }

    /** sff_pkts and sff_w of a feed; a reader without a feed finds nothing. */
    function Ring(f: Option<nat>): (g: SffRing.Ring)
      ensures SffRing.Shaped(g)
    {
      if f.Some? then SffRing.Written(Blocks(f.value)) else SffRing.Empty()
    }

    function Due(r: nat): nat { if r in due then due[r] else 0 }

    function Given(r: nat): seq<Block> { if r in given then given[r] else [] }

    function Sent(r: nat): seq<Block> { if r in sent then sent[r] else [] }

    /** The stream header of a feed. */
    function Header(f: nat): Option<Block> { Ring(Some(f)).slots[SffRing.N] }
  }

  /** A whole block received by a feed, a turn of a feed's reader whose last packet is sent or
      not, or any other event of the loop. */
  datatype Move = Packet(c: nat, b: Block) | Turn(c: nat, drained: bool) | Other(e: Event)

  /** The end of a stream is a packet of stream -1. */
  predicate GoesOn(b: Block) { Parse(b).Some? && Parse(b).value.0 != 0xFFFF_FFFF }

  /** What becomes of the turn, sff_r after it, the packet taken if one is, and the block that is
      put into the buffer: the packet, or the header. */
  datatype Prepared = Prepared(next: Next, due: nat, got: seq<Block>, out: seq<Block>)

  /** sff_prepare_data. */
  function Prepare(state: State, ring: SffRing.Ring, due: nat, drained: bool): (p: Prepared)
    requires SffRing.Shaped(ring) && due < SffRing.N
    ensures p.due < SffRing.N
  {
    if state.SendTrailer? then Prepared(Closes, due, [], [])
    else if state.SendDataHeader? then
      match ring.slots[SffRing.N]
      case None => Prepared(Sleeps, due, [], [])
      case Some(h) => Prepared(Sends, due, [], [h])
    else if !drained then Prepared(Sends, due, [], [])
    else
      match SffRing.Read(ring, due)
      case None => Prepared(Sleeps, due, [], [])
      case Some(b) => Prepared(if GoesOn(b) then Sends else Closes, (due + 1) % SffRing.N, [b], [b])
  }

  ghost predicate Shaped(j: Joint) {
    forall r :: r in j.due ==> j.due[r] < SffRing.N
  }

  predicate Can(j: Joint, m: Move) {
    match m
    case Packet(c, b) => Enabled(j.s, FeedPacket(c, b.kind))
    case Turn(c, _) => c in j.s.conns && Sending(j.s.conns[c]) && j.s.conns[c].slot.None?
    case Other(e) => Enabled(j.s, e) && !e.FeedPacket? && !e.FeedTurn?
  }

  function Outcome(j: Joint, c: nat, drained: bool): Prepared
    requires Shaped(j) && c in j.s.conns
  {
    Prepare(j.s.conns[c].state, j.Ring(j.s.conns[c].feed), j.Due(c), drained)
  }

  /** The event of the loop that a move is. */
  function EventOf(j: Joint, m: Move): Event
    requires Shaped(j) && Can(j, m)
  {
    match m
    case Packet(c, b) => FeedPacket(c, b.kind)
    case Turn(c, drained) => FeedTurn(c, Outcome(j, c, drained).next)
    case Other(e) => e
  }

  ghost function Play(j: Joint, m: Move): Joint
    requires Shaped(j) && Can(j, m) && FeedInv(j.s)
  {
    EventIsEnabled(j, m);
    SlotsAlwaysFit(j.s);
    var s := Step(j.s, EventOf(j, m));
    match m
    case Packet(c, b) =>
      var blocks := j.blocks[c := j.Blocks(c) + [b]];
      Joint(s, blocks, j.due, j.given, Starts(j, s, blocks), j.sent, j.late + MetByPacket(j.s.conns, s.conns, b))
    case Turn(c, drained) =>
      var o := Outcome(j, c, drained);
      Joint(s, j.blocks, j.due[c := o.due], j.given[c := j.Given(c) + o.got], Starts(j, s, j.blocks),
            j.sent[c := j.Sent(c) + o.out], j.late)
    case Other(_) => Joint(s, j.blocks, j.due, j.given, Starts(j, s, j.blocks), j.sent, j.late)
  }

  /** The readers without a feed that have one when packet `b` has come. */
  function MetByPacket(conns: Conns, conns': Conns, b: Block): set<nat> {
    set r | r in conns' && b.kind == 2 && r in conns && conns[r].feed.None? && conns'[r].feed.Some?
  }

  /** A reader that meets its feed, by asking for it or by being woken, is due for the packet of
      slot 0. */
  function Starts(j: Joint, s: Sys, blocks: map<nat, seq<Block>>): map<nat, nat> {
    map r | r in s.conns && s.conns[r].feed.Some? ::
      if r in j.start && r in j.s.conns && j.s.conns[r].feed.Some? then j.start[r]
      else
        var f := s.conns[r].feed.value;
        SffRing.JoinNumber(|SffRing.Packets(if f in blocks then blocks[f] else [])|)
  }

  lemma EventIsEnabled(j: Joint, m: Move)
    requires Shaped(j) && Can(j, m)
    ensures Enabled(j.s, EventOf(j, m))
  {}

  // ------------------------------------------------------------ who sleeps, and why

  predicate Sleeper(conns: Conns, r: nat, f: nat) {
    r in conns && f in conns && conns[r].state.WaitFeed? && conns[r].slot.None? && conns[r].feed == Some(f)
  }

  /** No header yet, or no packet to read. */
  predicate NothingFor(ring: SffRing.Ring, due: nat)
    requires SffRing.Shaped(ring) && due < SffRing.N
  {
    ring.slots[SffRing.N].None? || SffRing.Read(ring, due).None?
  }

  ghost predicate SleepInv(j: Joint)
    requires Shaped(j)
  {
    forall r, f :: Sleeper(j.s.conns, r, f) ==> NothingFor(j.Ring(Some(f)), j.Due(r))
  }

  ghost predicate JointInv(j: Joint) { FeedInv(j.s) && Shaped(j) && SleepInv(j) }

  /** One more block is one more sff_write. */
  lemma OneMoreBlock(bs: seq<Block>, b: Block)
    ensures SffRing.Written(bs + [b]) == SffRing.Write(SffRing.Written(bs), b)
    ensures b.kind != 1 && b.kind != 2 ==> SffRing.Written(bs + [b]) == SffRing.Written(bs)
  {
    assert (bs + [b])[..|bs|] == bs;
  }

  /** A wake-up leaves no sleeper of its own feed and makes none of another. */
  lemma WakeMakesNoSleeper(conns: Conns, c: nat, to: State, r: nat, f: nat)
    requires c in conns && !conns[c].state.WaitFeed? && !to.WaitFeed?
    requires Sleeper(Wake(conns, c, to), r, f)
    ensures Sleeper(conns, r, f) && f != c
  {}

  lemma CloseMakesNoSleeper(conns: Conns, c: nat, r: nat, f: nat)
    requires c in conns && Sleeper(Close(conns, c), r, f)
    ensures Sleeper(conns, r, f)
  {}

  lemma PutMakesNoSleeper(conns: Conns, c: nat, k: Conn, r: nat, f: nat)
    requires c in conns && (!k.state.WaitFeed? || k.slot.Some?) && Sleeper(conns[c := k], r, f)
    ensures Sleeper(conns, r, f)
  {}

  lemma HandleMakesNoSleeper(s: Sys, c: nat, req: Request, r: nat, f: nat)
    requires FeedInv(s) && c in s.conns && s.conns[c].state.WaitRequest? && Sleeper(Handle(s, c, req).conns, r, f)
    ensures Sleeper(s.conns, r, f)
  {
    hide RouteOf, KeepsPost, Atoi, Switches, NameInv, RefInv;
    var w := Handle(s, c, req).conns;
    var k := s.conns[c].(post := KeepsPost(req), url := req.url);
    if RouteOf(req.url).Stream? && !k.post {
      var found := FindFeed(s.conns[c := k], req.url);
      if found.Some? && found.value in s.conns {
        var g := found.value;
        NamesGive(s.conns, s.next, g);
        assert g == c || s.conns[c := k][g] == s.conns[g];
        var conns1 := s.conns[g := s.conns[g].(refs := s.conns[g].refs + 1)];
        PutMakesNoSleeper(conns1, c, w[c], r, f);
        PutMakesNoSleeper(s.conns, g, conns1[g], r, f);
      } else {
        PutMakesNoSleeper(s.conns, c, w[c], r, f);
      }
    } else {
      PutMakesNoSleeper(s.conns, c, w[c], r, f);
    }
  }

  lemma AcceptMakesNoSleeper(s: Sys, r: nat, f: nat)
    requires FeedInv(s) && Sleeper(s.conns[s.next := Fresh()], r, f)
    ensures Sleeper(s.conns, r, f)
  {
    hide ConnInv;
    assert r in s.conns;
    NamesGive(s.conns, s.next, r);
  }

  lemma FinishMakesNoSleeper(s: Sys, c: nat, r: nat, f: nat)
    requires c in s.conns && s.conns[c].state.ReceiveData?
    requires Sleeper(Finish(s, c).conns, r, f) || Sleeper(Closed(Finish(s, c), c).conns, r, f)
    ensures Sleeper(s.conns, r, f)
  {
    hide Wake, Close, Sleeper;
    if !Sleeper(Finish(s, c).conns, r, f) {
      CloseMakesNoSleeper(Finish(s, c).conns, c, r, f);
    }
    WakeMakesNoSleeper(s.conns, c, SendTrailer, r, f);
  }

  lemma ReceiveMakesNoSleeper(s: Sys, c: nat, i: nat, bytes: seq<byte>, r: nat, f: nat)
    requires c in s.conns && s.conns[c].state.ReceiveData? && i < |s.slots| && Sleeper(Receive(s, c, i,
        bytes).conns, r, f)
    ensures Sleeper(s.conns, r, f)
  {
    hide Wake, Sleeper;
    var k := s.conns[c].(body := s.conns[c].body + bytes);
    var conns := s.conns[c := k];
    if Receive(s, c, i, bytes).conns != conns {
      WakeMakesNoSleeper(conns, c, SendData, r, f);
    }
    PutMakesNoSleeper(s.conns, c, k, r, f);
  }

  lemma SegmentMakesNoSleeper(s: Sys, c: nat, i: nat, socket: Socket, r: nat, f: nat)
    requires c in s.conns && s.conns[c].slot.Some? && i < |s.slots| && Sleeper(SendSegment(s, c, i, socket).conns, r, f)
    ensures Sleeper(s.conns, r, f)
  {
    hide Close, Sleeper;
    var k := SendTurn(s.conns[c], s.slots[i], socket).conn;
    hide SendTurn;
    if SendSegment(s, c, i, socket).conns != s.conns[c := k] {
      CloseMakesNoSleeper(s.conns[c := k], c, r, f);
    }
    PutMakesNoSleeper(s.conns, c, k, r, f);
  }

  /** Only a turn of a feed's reader puts one to sleep, and a packet of a feed, header or data,
      leaves none of its own asleep. */
  lemma StepMakesNoSleeper(s: Sys, e: Event, r: nat, f: nat)
    requires FeedInv(s) && Enabled(s, e) && SlotsFit(s) && !e.FeedTurn? && Sleeper(Step(s, e).conns, r, f)
    ensures Sleeper(s.conns, r, f)
    ensures e.FeedPacket? && (e.kind == 1 || e.kind == 2) ==> f != e.c
  {
    hide Handle, Receive, Finish, SendSegment, Close, Wake, Sleeper, NameInv, RefInv;
    match e
    case Accepted => AcceptMakesNoSleeper(s, r, f);
    case Asked(c, req) => HandleMakesNoSleeper(s, c, req, r, f);
    case SegmentBytes(c, bytes) => ReceiveMakesNoSleeper(s, c, s.conns[c].slot.value, bytes, r, f);
    case BodyEnds(c) => FinishMakesNoSleeper(s, c, r, f);
    case HangsUp(c) => FinishMakesNoSleeper(s, c, r, f);
    case SegmentTurn(c, socket) => SegmentMakesNoSleeper(s, c, s.conns[c].slot.value, socket, r, f);
    case FeedPacket(c, kind) =>
      if kind == 1 {
        WakeMakesNoSleeper(s.conns, c, SendDataHeader, r, f);
      } else if kind == 2 {
        WakeMakesNoSleeper(s.conns, c, SendData, r, f);
      }
    case HeaderOut(c) =>
      if s.conns[c].error {
        CloseMakesNoSleeper(s.conns, c, r, f);
      } else {
        PutMakesNoSleeper(s.conns, c, HeaderSent(s, c).conns[c], r, f);
      }
    case Fails(c) => CloseMakesNoSleeper(s.conns, c, r, f);
    case _ =>
  }

  lemma PacketKeeps(j: Joint, c: nat, b: Block)
    requires JointInv(j) && Can(j, Packet(c, b))
    ensures JointInv(Play(j, Packet(c, b)))
  {
    hide Step, Sleeper, NothingFor, FeedInv;
    var m := Packet(c, b);
    EventIsEnabled(j, m);
    SlotsAlwaysFit(j.s);
    StepKeepsFeedInv(j.s, EventOf(j, m));
    OneMoreBlock(j.Blocks(c), b);
    var j' := Play(j, m);
    forall r, f | Sleeper(j'.s.conns, r, f)
      ensures NothingFor(j'.Ring(Some(f)), j'.Due(r))
    {
      StepMakesNoSleeper(j.s, EventOf(j, m), r, f);
      assert j'.Ring(Some(f)) == j.Ring(Some(f));
    }
  }

  lemma OtherKeeps(j: Joint, e: Event)
    requires JointInv(j) && Can(j, Other(e))
    ensures JointInv(Play(j, Other(e)))
  {
    hide Step, Sleeper, NothingFor, FeedInv;
    EventIsEnabled(j, Other(e));
    SlotsAlwaysFit(j.s);
    StepKeepsFeedInv(j.s, e);
    var j' := Play(j, Other(e));
    forall r, f | Sleeper(j'.s.conns, r, f)
      ensures NothingFor(j'.Ring(Some(f)), j'.Due(r))
    {
      StepMakesNoSleeper(j.s, e, r, f);
    }
  }

  lemma FeedTurnSleeps(s: Sys, c: nat, next: Next, r: nat, f: nat)
    requires c in s.conns && Sending(s.conns[c]) && Sleeper(SendPackets(s, c, next).conns, r, f)
    ensures if r == c then next.Sleeps? && s.conns[c].feed == Some(f) else Sleeper(s.conns, r, f)
  {
    if next.Closes? {
      CloseMakesNoSleeper(s.conns, c, r, f);
    }
  }

  lemma TurnKeeps(j: Joint, c: nat, drained: bool)
    requires JointInv(j) && Can(j, Turn(c, drained))
    ensures JointInv(Play(j, Turn(c, drained)))
  {
    hide Sleeper, FeedInv, SendPackets;
    var m, o := Turn(c, drained), Outcome(j, c, drained);
    EventIsEnabled(j, m);
    SlotsAlwaysFit(j.s);
    StepKeepsFeedInv(j.s, EventOf(j, m));
    var j' := Play(j, m);
    forall r, f | Sleeper(j'.s.conns, r, f)
      ensures NothingFor(j'.Ring(Some(f)), j'.Due(r))
    {
      FeedTurnSleeps(j.s, c, o.next, r, f);
    }
  }

  lemma PlayKeepsJointInv(j: Joint, m: Move)
    requires JointInv(j) && Can(j, m)
    ensures JointInv(Play(j, m))
  {
    hide Play, JointInv;
    match m
    case Packet(c, b) => PacketKeeps(j, c, b);
    case Turn(c, drained) => TurnKeeps(j, c, drained);
    case Other(e) => OtherKeeps(j, e);
  }

  // ------------------------------------------------------------------ whole runs

  function Begin(): Joint { Joint(Start(), map[], map[], map[], map[], map[], {}) }

  ghost predicate Plays(j: Joint, moves: seq<Move>, j': Joint)
    decreases |moves|
  {
    if moves == [] then j' == j
    else Shaped(j) && Can(j, moves[0]) && FeedInv(j.s) && Plays(Play(j, moves[0]), moves[1..], j')
  }

  lemma {:induction false} PlaysKeepJointInv(j: Joint, moves: seq<Move>, j': Joint)
    requires JointInv(j) && Plays(j, moves, j')
    ensures JointInv(j')
    decreases |moves|
  {
    if moves != [] {
      hide Play;
      PlayKeepsJointInv(j, moves[0]);
      PlaysKeepJointInv(Play(j, moves[0]), moves[1..], j');
    }
  }

  /** In every reachable state a reader that sleeps on an open feed sleeps because the feed has
      no header yet or because there is no packet for it to read. */
  lemma SleepersHaveNothingToRead(moves: seq<Move>, j: Joint, r: nat, f: nat)
    requires Plays(Begin(), moves, j) && Sleeper(j.s.conns, r, f)
    ensures j.Due(r) < SffRing.N
    ensures NothingFor(j.Ring(Some(f)), j.Due(r))
  {
    StartIsFine();
    PlaysKeepJointInv(Begin(), moves, j);
  }

  /** So a sleeper of a feed with a header is due for the slot that the writer fills next. */
  lemma SleepersFaceTheWriter(moves: seq<Move>, j: Joint, r: nat, f: nat)
    requires Plays(Begin(), moves, j) && Sleeper(j.s.conns, r, f)
    requires j.Ring(Some(f)).slots[SffRing.N].Some? && |SffRing.Packets(j.Blocks(f))| >= SffRing.N
    ensures j.Due(r) == |SffRing.Packets(j.Blocks(f))| % SffRing.N
  {
    SleepersHaveNothingToRead(moves, j, r, f);
    FullRing(j.Blocks(f), j.Due(r));
  }

  lemma FullRing(bs: seq<Block>, k: nat)
    requires |SffRing.Packets(bs)| >= SffRing.N && k < SffRing.N
    ensures SffRing.Written(bs).slots[k].Some? && SffRing.Written(bs).w == |SffRing.Packets(bs)| % SffRing.N
  {
    var w, n := |SffRing.Packets(bs)|, SffRing.N;
    SffRing.RingHoldsNewest(bs);
    var p := w - 1 - (w - 1 - k) % n;
    assert p == k + n * ((w - 1 - k) / n);
    ModUnique(p, n, (w - 1 - k) / n, k);
    assert SffRing.Written(bs).slots[p % n] == Some(SffRing.Packets(bs)[p]);
  }

  // -------------------------------------------------- what one reader was given

  /** Pointers to feeds come with connections and never change. */
  predicate FeedStays(s: Sys, s': Sys, r: nat) {
    && s.next <= s'.next
    && (r in s'.conns ==>
          if r in s.conns then s.conns[r].feed.Some? ==> s'.conns[r].feed == s.conns[r].feed
          else r == s.next < s'.next && s'.conns[r].feed.None?)
  }

  lemma WakeFeedStays(conns: Conns, c: nat, to: State, r: nat)
    requires c in conns && r in conns
    ensures conns[r].feed.Some? ==> Wake(conns, c, to)[r].feed == conns[r].feed
  {}

  lemma CloseFeedStays(conns: Conns, c: nat, r: nat)
    requires c in conns && r in Close(conns, c)
    ensures r in conns && Close(conns, c)[r].feed == conns[r].feed
  {}

  lemma HandleFeedStays(s: Sys, c: nat, req: Request, r: nat)
    requires FeedInv(s) && c in s.conns && s.conns[c].state.WaitRequest?
    ensures FeedStays(s, Handle(s, c, req), r)
  {
    hide RouteOf, KeepsPost, Atoi, Switches, NameInv, RefInv, SlotOf;
    NamesGive(s.conns, s.next, c);
  }

  lemma FinishFeedStays(s: Sys, c: nat, r: nat)
    requires c in s.conns
    ensures FeedStays(s, Finish(s, c), r) && FeedStays(s, Closed(Finish(s, c), c), r)
  {
    hide Wake, Close;
    if r in s.conns {
      WakeFeedStays(s.conns, c, SendTrailer, r);
    }
    if r in Close(Finish(s, c).conns, c) {
      CloseFeedStays(Finish(s, c).conns, c, r);
    }
  }

  lemma ReceiveFeedStays(s: Sys, c: nat, i: nat, bytes: seq<byte>, r: nat)
    requires c in s.conns && i < |s.slots|
    ensures FeedStays(s, Receive(s, c, i, bytes), r)
  {
    hide Wake;
    var conns := s.conns[c := s.conns[c].(body := s.conns[c].body + bytes)];
    if r in conns {
      WakeFeedStays(conns, c, SendData, r);
    }
  }

  lemma SegmentFeedStays(s: Sys, c: nat, i: nat, socket: Socket, r: nat)
    requires c in s.conns && i < |s.slots|
    ensures FeedStays(s, SendSegment(s, c, i, socket), r)
  {
    hide Close;
    var conns := s.conns[c := SendTurn(s.conns[c], s.slots[i], socket).conn];
    if r in Close(conns, c) {
      CloseFeedStays(conns, c, r);
    }
  }

  lemma AcceptFeedStays(s: Sys, r: nat)
    requires FeedInv(s) && SlotsFit(s)
    ensures FeedStays(s, Step(s, Accepted), r)
  {
    hide ConnInv;
    assert s.next !in s.conns;
  }

  lemma StepFeedStays(s: Sys, e: Event, r: nat)
    requires FeedInv(s) && Enabled(s, e) && SlotsFit(s)
    ensures FeedStays(s, Step(s, e), r)
  {
    hide Handle, Receive, Finish, SendSegment, Close, Wake, NameInv, RefInv;
    match e
    case Asked(c, req) => HandleFeedStays(s, c, req, r);
    case SegmentBytes(c, bytes) => ReceiveFeedStays(s, c, s.conns[c].slot.value, bytes, r);
    case BodyEnds(c) => FinishFeedStays(s, c, r);
    case HangsUp(c) => FinishFeedStays(s, c, r);
    case SegmentTurn(c, socket) => SegmentFeedStays(s, c, s.conns[c].slot.value, socket, r);
    case FeedPacket(c, kind) =>
      if r in s.conns {
        WakeFeedStays(s.conns, c, SendDataHeader, r);
        WakeFeedStays(s.conns, c, SendData, r);
      }
    case Accepted => AcceptFeedStays(s, r);
    case _ =>
      if r in Close(s.conns, e.c) {
        CloseFeedStays(s.conns, e.c, r);
      }
  }

  function SessionOf(j: Joint, r: nat, f: nat): SffRing.Session {
    SffRing.Session(j.Blocks(f), j.Due(r), j.Given(r))
  }

  /** Where reader `r` stands: untouched before it meets a feed, then in step with it. */
  ghost predicate GivenInv(j: Joint, r: nat) {
    && (r in j.s.conns ==> r < j.s.next)
    && (r >= j.s.next || (r in j.s.conns && j.s.conns[r].feed.None?) ==> j.Due(r) == 0 && j.Given(r) == [])
    && (r in j.s.conns && j.s.conns[r].feed.Some? ==>
          r in j.start && SffRing.InStep(SessionOf(j, r, j.s.conns[r].feed.value), j.start[r]))
  }

  /** The writer is less than 128 packets ahead of what reader `r` was given. */
  predicate NotLapped(j: Joint, r: nat) {
    r in j.s.conns && j.s.conns[r].feed.Some? && r in j.start ==>
      |SffRing.Packets(j.Blocks(j.s.conns[r].feed.value))| < j.start[r] + |j.Given(r)| + SffRing.N
  }

  lemma StartIsInStep(bs: seq<Block>)
    ensures SffRing.InStep(SffRing.Session(bs, 0, []), SffRing.JoinNumber(|SffRing.Packets(bs)|))
  {
    var w := |SffRing.Packets(bs)|;
    ModUnique(SffRing.JoinNumber(w), SffRing.N, w / SffRing.N, 0);
  }

  /** Reader `r` after a move that leaves its own index and packets alone, with `more` blocks for
      its feed. */
  lemma OthersKeepGiven(j: Joint, j': Joint, r: nat)
    requires GivenInv(j, r) && FeedStays(j.s, j'.s, r) && j'.start == Starts(j, j'.s, j'.blocks)
    requires j'.Due(r) == j.Due(r) && j'.Given(r) == j.Given(r)
    requires r in j.s.conns && j.s.conns[r].feed.Some? ==>
               var f := j.s.conns[r].feed.value;
               j'.Blocks(f) == j.Blocks(f) || exists b :: j'.Blocks(f) == j.Blocks(f) + [b]
    ensures GivenInv(j', r)
  {
    hide SffRing.InStep, SffRing.JoinNumber, SffRing.Packets;
    if r in j'.s.conns && j'.s.conns[r].feed.Some? {
      var f := j'.s.conns[r].feed.value;
      if j.s.conns[r].feed.Some? {
        if j'.Blocks(f) != j.Blocks(f) {
          var b :| j'.Blocks(f) == j.Blocks(f) + [b];
          DueInRange(j, r);
          SffRing.WroteKeepsStep(SessionOf(j, r, f), b, j.start[r]);
        }
      } else {
        StartIsInStep(j'.Blocks(f));
      }
    }
  }

  lemma DueInRange(j: Joint, r: nat)
    requires GivenInv(j, r) && r in j.s.conns && j.s.conns[r].feed.Some?
    ensures j.Due(r) < SffRing.N
  {}

  lemma PacketKeepsGiven(j: Joint, c: nat, b: Block, r: nat)
    requires JointInv(j) && Can(j, Packet(c, b)) && GivenInv(j, r)
    ensures GivenInv(Play(j, Packet(c, b)), r)
  {
    hide Step, FeedInv, GivenInv, Starts;
    var m := Packet(c, b);
    EventIsEnabled(j, m);
    SlotsAlwaysFit(j.s);
    StepFeedStays(j.s, EventOf(j, m), r);
    assert Play(j, m).Blocks(c) == j.Blocks(c) + [b];
    OthersKeepGiven(j, Play(j, m), r);
  }

  lemma OtherKeepsGiven(j: Joint, e: Event, r: nat)
    requires JointInv(j) && Can(j, Other(e)) && GivenInv(j, r)
    ensures GivenInv(Play(j, Other(e)), r)
  {
    hide Step, FeedInv, GivenInv, Starts;
    EventIsEnabled(j, Other(e));
    SlotsAlwaysFit(j.s);
    StepFeedStays(j.s, e, r);
    OthersKeepGiven(j, Play(j, Other(e)), r);
  }

  /** A turn is a read of the ring, or leaves index and packets alone. */
  lemma TurnIsRead(j: Joint, c: nat, drained: bool)
    requires Shaped(j) && c in j.s.conns && j.s.conns[c].feed.Some?
    ensures var f := j.s.conns[c].feed.value;
            var s, o := SessionOf(j, c, f), Outcome(j, c, drained);
            var s' := SffRing.Session(j.Blocks(f), o.due, j.Given(c) + o.got);
            s.r < SffRing.N && (s' == s || s' == SffRing.Play(s, SffRing.Reads))
  {}

  lemma TurnKeepsGiven(j: Joint, c: nat, drained: bool, r: nat)
    requires JointInv(j) && Can(j, Turn(c, drained)) && GivenInv(j, r) && NotLapped(j, r)
    ensures GivenInv(Play(j, Turn(c, drained)), r)
  {
    hide Step, FeedInv, SffRing.InStep, SffRing.Packets, Prepare;
    var m, j' := Turn(c, drained), Play(j, Turn(c, drained));
    EventIsEnabled(j, m);
    SlotsAlwaysFit(j.s);
    StepFeedStays(j.s, EventOf(j, m), r);
    if r != c {
      OthersKeepGiven(j, j', r);
    } else if j.s.conns[c].feed.Some? {
      TurnIsRead(j, c, drained);
      SffRing.ReadKeepsStep(SessionOf(j, c, j.s.conns[c].feed.value), j.start[c]);
    } else {
      NoFeedNoRead(j, c, drained);
      OthersKeepGiven(j, j', r);
    }
  }

  lemma NoFeedNoRead(j: Joint, c: nat, drained: bool)
    requires Shaped(j) && c in j.s.conns && j.s.conns[c].feed.None?
    ensures Outcome(j, c, drained).due == j.Due(c) && Outcome(j, c, drained).got == []
  {}

  lemma PlayKeepsGiven(j: Joint, m: Move, r: nat)
    requires JointInv(j) && Can(j, m) && GivenInv(j, r) && NotLapped(j, r)
    ensures GivenInv(Play(j, m), r)
  {
    hide Play, JointInv, GivenInv, NotLapped;
    match m
    case Packet(c, b) => PacketKeepsGiven(j, c, b, r);
    case Turn(c, drained) => TurnKeepsGiven(j, c, drained, r);
    case Other(e) => OtherKeepsGiven(j, e, r);
  }

  /** A run in which the writer never laps reader `r`. */
  ghost predicate PlaysUnlapped(j: Joint, moves: seq<Move>, j': Joint, r: nat)
    decreases |moves|
  {
    && NotLapped(j, r)
    && if moves == [] then j' == j
       else Shaped(j) && Can(j, moves[0]) && FeedInv(j.s) && PlaysUnlapped(Play(j, moves[0]), moves[1..], j', r)
  }

  lemma {:induction false} PlaysKeepGiven(j: Joint, moves: seq<Move>, j': Joint, r: nat)
    requires JointInv(j) && GivenInv(j, r) && PlaysUnlapped(j, moves, j', r)
    ensures JointInv(j') && GivenInv(j', r) && NotLapped(j', r)
    decreases |moves|
  {
    if moves != [] {
      hide Play, JointInv, GivenInv, NotLapped;
      PlayKeepsJointInv(j, moves[0]);
      PlayKeepsGiven(j, moves[0], r);
      PlaysKeepGiven(Play(j, moves[0]), moves[1..], j', r);
    }
  }

  lemma BeginIsFine(r: nat)
    ensures JointInv(Begin()) && GivenInv(Begin(), r)
  {
    hide FeedInv;
    StartIsFine();
  }

  /** In a run in which the writer never laps it, a reader was given the packets of its feed from
      the one it started at, in order, without gap or repeat. */
  lemma ReadersAreInStep(moves: seq<Move>, j: Joint, r: nat)
    requires PlaysUnlapped(Begin(), moves, j, r) && r in j.s.conns && j.s.conns[r].feed.Some?
    ensures r in j.start
    ensures var ps, start := SffRing.Packets(j.Blocks(j.s.conns[r].feed.value)), j.start[r];
            start + |j.Given(r)| <= |ps| && j.Given(r) == ps[start..start + |j.Given(r)|]
  {
    hide PlaysUnlapped, JointInv, NotLapped;
    BeginIsFine(r);
    PlaysKeepGiven(Begin(), moves, j, r);
  }

  /** And when it sleeps although its feed has a header, it was given all of them. */
  lemma SleepersAreServed(moves: seq<Move>, j: Joint, r: nat, f: nat)
    requires PlaysUnlapped(Begin(), moves, j, r) && Sleeper(j.s.conns, r, f)
    requires j.Ring(Some(f)).slots[SffRing.N].Some?
    ensures r in j.start && j.start[r] <= |SffRing.Packets(j.Blocks(f))|
    ensures j.Given(r) == SffRing.Packets(j.Blocks(f))[j.start[r]..]
  {
    hide PlaysUnlapped, FeedInv, SffRing.Packets, SffRing.Read, SffRing.Written;
    BeginIsFine(r);
    PlaysKeepGiven(Begin(), moves, j, r);
    UpToDate(j, r, f);
  }

  lemma UpToDate(j: Joint, r: nat, f: nat)
    requires JointInv(j) && GivenInv(j, r) && NotLapped(j, r) && Sleeper(j.s.conns, r, f)
    requires j.Ring(Some(f)).slots[SffRing.N].Some?
    ensures r in j.start && j.start[r] <= |SffRing.Packets(j.Blocks(f))|
    ensures j.Given(r) == SffRing.Packets(j.Blocks(f))[j.start[r]..]
  {
    hide FeedInv, SffRing.Packets, SffRing.Read, SffRing.Written;
    var ps, n := SffRing.Packets(j.Blocks(f)), j.start[r] + |j.Given(r)|;
    SffRing.ReadByNumber(j.Blocks(f), n);
    SffRing.ReadIsNextIffNotLapped(n, |ps|);
    assert n == |ps|;
  }

  /** A reader that has sent what it had is put to sleep exactly when the writer is a whole number
      of rounds ahead of it: also with 128 packets unread, which one move can bring about. */
  lemma TurnSleepsIff(moves: seq<Move>, j: Joint, m: Move, c: nat)
    requires PlaysUnlapped(Begin(), moves, j, c) && Shaped(j) && FeedInv(j.s) && Can(j, m)
    requires var conns := Play(j, m).s.conns;
             c in conns && conns[c].feed.Some? && conns[c].state.SendData? && conns[c].slot.None?
    ensures var j' := Play(j, m);
            Shaped(j') && Can(j', Turn(c, true)) && c in j'.start
            && var unread := |SffRing.Packets(j'.Blocks(j'.s.conns[c].feed.value))| - (j'.start[c] + |j'.Given(c)|);
               unread >= 0 && (Outcome(j', c, true).next.Sleeps? <==> unread % SffRing.N == 0)
  {
    hide PlaysUnlapped, GivenInv, NotLapped, FeedInv, Prepare, Play;
    BeginIsFine(c);
    PlaysKeepGiven(Begin(), moves, j, c);
    PlayKeepsJointInv(j, m);
    PlayKeepsGiven(j, m, c);
    SleepsOnRounds(Play(j, m), c);
  }

  lemma SleepsOnRounds(j: Joint, c: nat)
    requires Shaped(j) && GivenInv(j, c) && c in j.s.conns && j.s.conns[c].feed.Some? && j.s.conns[c].state.SendData?
    ensures c in j.start
    ensures var unread := |SffRing.Packets(j.Blocks(j.s.conns[c].feed.value))| - (j.start[c] + |j.Given(c)|);
            unread >= 0 && (Outcome(j, c, true).next.Sleeps? <==> unread % SffRing.N == 0)
  {
    hide SffRing.Read, SffRing.Written, SffRing.Packets;
    var f := j.s.conns[c].feed.value;
    var n, w := j.start[c] + |j.Given(c)|, |SffRing.Packets(j.Blocks(f))|;
    SffRing.ReadByNumber(j.Blocks(f), n);
    SffRing.ReadIsNextIffNotLapped(n, w);
  }

  // ----------------------------------- a reader put to sleep with packets unread

  lemma {:induction false} PlaysOn(j: Joint, moves: seq<Move>, j': Joint, m: Move)
    requires JointInv(j) && Plays(j, moves, j') && Can(j', m)
    ensures JointInv(j') && Shaped(j') && FeedInv(j'.s) && JointInv(Play(j', m))
    ensures Plays(j, moves + [m], Play(j', m))
    decreases |moves|
  {
    hide Play, FeedInv;
    if moves == [] {
      PlayKeepsJointInv(j, m);
      assert ([] + [m])[1..] == [];
    } else {
      PlayKeepsJointInv(j, moves[0]);
      PlaysOn(Play(j, moves[0]), moves[1..], j', m);
      assert (moves + [m])[1..] == moves[1..] + [m];
    }
  }

  /** Events without packets and readers' turns, played. */
  lemma {:induction false} OthersPlay(j: Joint, events: seq<Event>, s: Sys) returns (moves: seq<Move>, j': Joint)
    requires JointInv(j) && Runs(j.s, events, s) && forall e <- events :: !e.FeedPacket? && !e.FeedTurn?
    ensures Plays(j, moves, j')
    ensures j'.s == s && j'.blocks == j.blocks && j'.due == j.due && j'.given == j.given
    ensures j'.sent == j.sent && j'.late == j.late
    decreases |events|
  {
    moves, j' := [], j;
    if events != [] {
      hide Step, JointInv, Starts;
      var m := Other(events[0]);
      PlayKeepsJointInv(j, m);
      var more, last := OthersPlay(Play(j, m), events[1..], s);
      moves, j' := [m] + more, last;
      assert moves[1..] == more;
    }
  }

  const FEED: Conn := Fresh().(post := true, url := STREAM_X, state := ReceiveData, refs := 1)

  function Follower(state: State): Conn { Fresh().(url := STREAM_X, feed := Some(0), state := state) }

  const HEADER := Block(1, [7])
  const PACKET := Block(2, [7])

  /** A feed, and a reader that asked for it. */
  lemma ReaderAsks() returns (events: seq<Event>, s: Sys)
    ensures Runs(Start(), events, s) && forall e <- events :: e.Accepted? || e.Asked?
    ensures s.conns == map[0 := FEED, 1 := Follower(SendHeader)]
  {
    hide RouteOf, KeepsPost, FeedInv;
    XIsAStream();
    StartIsFine();
    events, s := OneFeed();
    RunsOn(Start(), events, s, Asked(1, GET_X));
    var k := Fresh().(url := STREAM_X);
    assert Feeds(s.conns[1 := k][0], STREAM_X) && !Feeds(s.conns[1 := k][1], STREAM_X);
    assert FindFeed(s.conns[1 := k], STREAM_X) == Some(0);
    events, s := events + [Asked(1, GET_X)], Step(s, Asked(1, GET_X));
  }

  /** And got its response header. */
  lemma ReaderJoins() returns (moves: seq<Move>, j: Joint)
    ensures Plays(Begin(), moves, j)
    ensures j.s.conns == map[0 := FEED, 1 := Follower(SendDataHeader)]
    ensures j.blocks == map[] && j.due == map[] && j.given == map[] && j.sent == map[] && j.late == {}
  {
    hide FeedInv, Plays, RouteOf;
    StartIsFine();
    BeginIsFine(0);
    var events, s := ReaderAsks();
    RunsOn(Start(), events, s, HeaderOut(1));
    events, s := events + [HeaderOut(1)], Step(s, HeaderOut(1));
    moves, j := OthersPlay(Begin(), events, s);
  }

  /** A reader that is not asleep is not touched by a packet. */
  lemma PacketPasses(j: Joint, state: State, b: Block)
    requires JointInv(j) && j.s.conns == map[0 := FEED, 1 := Follower(state)] && !state.WaitFeed?
    ensures Can(j, Packet(0, b))
    ensures var j' := Play(j, Packet(0, b));
            && j'.s.conns == j.s.conns && j'.blocks == j.blocks[0 := j.Blocks(0) + [b]]
            && j'.due == j.due && j'.given == j.given && j'.sent == j.sent && j'.late == j.late
  {
    hide FeedInv, SleepInv, Starts, Wake;
    NobodyIsWoken(j.s.conns, state, SendDataHeader);
    NobodyIsWoken(j.s.conns, state, SendData);
  }

  lemma NobodyIsWoken(conns: Conns, state: State, to: State)
    requires conns == map[0 := FEED, 1 := Follower(state)] && !state.WaitFeed?
    ensures Wake(conns, 0, to) == conns
  {
    assert Attached(conns, 0) == {};
  }

  function Packs(n: nat): seq<Block> { if n == 0 then [HEADER] else Packs(n - 1) + [PACKET] }

  /** The reader has sent the header, and `n` packets have arrived. */
  ghost predicate Waiting(moves: seq<Move>, j: Joint, n: nat) {
    && Plays(Begin(), moves, j) && JointInv(j)
    && j.s.conns == map[0 := FEED, 1 := Follower(SendData)] && j.Blocks(0) == Packs(n)
    && j.Due(1) == 0 && j.Given(1) == [] && j.Sent(1) == [HEADER] && j.late == {}
  }

  lemma {:induction false} PacketsPass(n: nat) returns (moves: seq<Move>, j: Joint)
    ensures Waiting(moves, j, n)
  {
    hide Waiting;
    if n == 0 {
      moves, j := HeaderPasses();
    } else {
      moves, j := PacketsPass(n - 1);
      moves, j := PacketMore(moves, j, n - 1);
    }
  }

  lemma PacketMore(moves: seq<Move>, j: Joint, n: nat) returns (moves': seq<Move>, j': Joint)
    requires Waiting(moves, j, n)
    ensures Waiting(moves', j', n + 1)
  {
    hide Play, JointInv, Plays, FeedInv, Shaped;
    BeginIsFine(0);
    PacketPasses(j, SendData, PACKET);
    PlaysOn(Begin(), moves, j, Packet(0, PACKET));
    moves', j' := moves + [Packet(0, PACKET)], Play(j, Packet(0, PACKET));
    assert Packs(n + 1) == Packs(n) + [PACKET];
  }

  lemma HeaderPasses() returns (moves: seq<Move>, j: Joint)
    ensures Waiting(moves, j, 0)
  {
    hide JointInv, Plays;
    BeginIsFine(0);
    moves, j := ReaderJoins();
    PlaysKeepJointInv(Begin(), moves, j);
    PacketPasses(j, SendDataHeader, HEADER);
    PlaysOn(Begin(), moves, j, Packet(0, HEADER));
    moves, j := moves + [Packet(0, HEADER)], Play(j, Packet(0, HEADER));
    assert j.Blocks(0) == [HEADER];
    HeaderTurn(j);
    PlaysOn(Begin(), moves, j, Turn(1, false));
    moves, j := moves + [Turn(1, false)], Play(j, Turn(1, false));
  }

  lemma HeaderTurn(j: Joint)
    requires JointInv(j) && j.s.conns == map[0 := FEED, 1 := Follower(SendDataHeader)]
    requires j.Blocks(0) == [HEADER] && j.Due(1) == 0 && j.Given(1) == [] && j.Sent(1) == [] && j.late == {}
    ensures Can(j, Turn(1, false))
    ensures var j' := Play(j, Turn(1, false));
            && j'.s.conns == map[0 := FEED, 1 := Follower(SendData)] && j'.blocks == j.blocks
            && j'.Due(1) == 0 && j'.Given(1) == [] && j'.Sent(1) == [HEADER] && j'.late == {}
  {
    hide FeedInv, SleepInv, Starts;
    OneMoreBlock([], HEADER);
    assert [] + [HEADER] == [HEADER];
  }

  lemma PacksCount(n: nat)
    ensures |SffRing.Packets(Packs(n))| == n && SffRing.Written(Packs(n)).slots[SffRing.N].Some?
  {
    if n == 0 {
      OneMoreBlock([], HEADER);
      assert [] + [HEADER] == [HEADER] && [HEADER][..0] == [];
    } else {
      PacksCount(n - 1);
      OneMorePacket(Packs(n - 1));
    }
  }

  lemma OneMorePacket(bs: seq<Block>)
    ensures |SffRing.Packets(bs + [PACKET])| == |SffRing.Packets(bs)| + 1
    ensures SffRing.Written(bs + [PACKET]).slots[SffRing.N] == SffRing.Written(bs).slots[SffRing.N]
  {
    hide SffRing.Written;
    OneMoreBlock(bs, PACKET);
    assert (bs + [PACKET])[..|bs|] == bs;
  }

  /** A reader that sends nothing while 128 packets arrive sleeps at its next turn, with all of
      them unread. */
  lemma SlowReaderSleeps() returns (moves: seq<Move>, j: Joint)
    ensures Plays(Begin(), moves, j) && Sleeper(j.s.conns, 1, 0)
    ensures j.Ring(Some(0)).slots[SffRing.N].Some?
    ensures |SffRing.Packets(j.Blocks(0))| == SffRing.N && j.Given(1) == []
  {
    hide JointInv, Plays, Packs, SffRing.Packets, SffRing.Written;
    BeginIsFine(0);
    moves, j := PacketsPass(SffRing.N);
    PacksCount(SffRing.N);
    FullTurn(j);
    PlaysOn(Begin(), moves, j, Turn(1, true));
    moves, j := moves + [Turn(1, true)], Play(j, Turn(1, true));
  }

  lemma FullTurn(j: Joint)
    requires JointInv(j) && j.s.conns == map[0 := FEED, 1 := Follower(SendData)]
    requires |SffRing.Packets(j.Blocks(0))| == SffRing.N && j.Due(1) == 0 && j.Given(1) == []
    ensures Can(j, Turn(1, true))
    ensures var j' := Play(j, Turn(1, true));
            j'.s.conns == map[0 := FEED, 1 := Follower(WaitFeed)] && j'.blocks == j.blocks && j'.Given(1) == []
  {
    hide FeedInv, SleepInv, Starts, SffRing.Packets, SffRing.Written;
    FullRing(j.Blocks(0), 0);
  }
}
