/**
  The stream headers of the feeds of ffserver.c: which readers are sent the header, when, and how
  often, over the runs of the poll loop with its packet rings.
 */
module FeedHeaders {
  import opened Bytes
  import opened Connections
  import opened FeedRefs
  import opened FeedRelay
  import opened HlsSlots
  import opened Server
  import opened SffFraming
  import opened Text
  import opened Wrappers
  import SffRing

  // ----------------------------------------------- what an event does to a reader

  /** Readers of feeds, and connections that may become one. */
  predicate Reads(k: Conn) { !k.post && k.slot.None? }

  /** What a packet of kind `kind` on connection `c` makes of any connection: sleepers on that feed,
      and sleepers on its name that have no feed yet, are woken to send the header if it is one, and
      to send packets if it is a packet; nobody else changes state or feed. */
  lemma PacketWakes(s: Sys, c: nat, kind: nat, r: nat)
    requires FeedInv(s) && Enabled(s, FeedPacket(c, kind)) && SlotsFit(s) && r in s.conns
    ensures var w, k := Step(s, FeedPacket(c, kind)).conns, s.conns[r];
            var sleeps := k.state == WaitFeed
                          && (k.feed == Some(c) || (k.feed == None && !k.post && k.url == s.conns[c].url));
            && r in w && w[r].post == k.post && w[r].slot == k.slot && w[r].url == k.url
            && (sleeps && kind == 1 ==> w[r].state == SendDataHeader && w[r].feed == Some(c))
            && (sleeps && kind == 2 ==> w[r].state == SendData && w[r].feed == Some(c))
            && (!(sleeps && (kind == 1 || kind == 2)) ==> w[r].state == k.state && w[r].feed == k.feed)
  {
    hide NameInv, RefInv;
  }

  /** What any other event but a turn of its own makes of a reader of feeds: it stays as it is, is
      given its request, has its response header out, or is woken to end. */
  predicate Moves(k: Conn, k': Conn) {
    || (k'.state == k.state && k'.feed == k.feed)
    || (k.state == WaitRequest && k.feed == None && k'.state == SendHeader)
    || (k.state == SendHeader && k'.state == SendDataHeader && k'.feed == k.feed)
    || (k.state == WaitFeed && k'.state == SendTrailer && (k.feed.Some? ==> k'.feed == k.feed))
  }

  /** The reader before and after. */
  predicate MovesIn(conns: Conns, conns': Conns, r: nat) {
    r in conns' && Reads(conns'[r]) ==> r in conns && Reads(conns[r]) && Moves(conns[r], conns'[r])
  }

  lemma CloseMoves(conns: Conns, c: nat, r: nat)
    requires c in conns
    ensures r in Close(conns, c) ==> r in conns && r != c
    ensures r in Close(conns, c) ==>
              var k, k' := conns[r], Close(conns, c)[r];
              k'.state == k.state && k'.feed == k.feed && k'.post == k.post && k'.slot == k.slot
  {}

  lemma PutMoves(conns: Conns, c: nat, k: Conn, r: nat)
    requires c in conns && (Reads(k) ==> Reads(conns[c]) && Moves(conns[c], k))
    ensures MovesIn(conns, conns[c := k], r)
  {}

  lemma HandleMoves(s: Sys, c: nat, req: Request, r: nat)
    requires FeedInv(s) && c in s.conns && s.conns[c].state.WaitRequest?
    ensures MovesIn(s.conns, Handle(s, c, req).conns, r)
  {
    hide RouteOf, KeepsPost, Atoi, Switches, NameInv, RefInv, SlotOf;
    NamesGive(s.conns, s.next, c);
  }

  lemma FinishMoves(s: Sys, c: nat, r: nat)
    requires FeedInv(s) && c in s.conns && s.conns[c].state.ReceiveData?
    ensures MovesIn(s.conns, Finish(s, c).conns, r) && MovesIn(s.conns, Closed(Finish(s, c), c).conns, r)
  {
    hide NameInv, RefInv, Close, SlotOf;
    var w := Finish(s, c).conns;
    if r in s.conns {
      NamesGive(s.conns, s.next, r);
      NamesGive(s.conns, s.next, c);
    }
    CloseMoves(w, c, r);
  }

  lemma ReceiveMoves(s: Sys, c: nat, i: nat, bytes: seq<byte>, r: nat)
    requires FeedInv(s) && c in s.conns && i < |s.slots| && s.conns[c].state.ReceiveData? && s.conns[c].slot.Some?
    ensures MovesIn(s.conns, Receive(s, c, i, bytes).conns, r)
  {
    hide NameInv, RefInv, SlotOf;
    if r in s.conns {
      NamesGive(s.conns, s.next, r);
      NamesGive(s.conns, s.next, c);
    }
  }

  lemma SegmentMoves(s: Sys, c: nat, i: nat, socket: Socket, r: nat)
    requires c in s.conns && s.conns[c].slot.Some? && i < |s.slots|
    ensures MovesIn(s.conns, SendSegment(s, c, i, socket).conns, r)
  {
    hide Close;
    var k := SendTurn(s.conns[c], s.slots[i], socket).conn;
    assert k.slot == s.conns[c].slot;
    hide SendTurn;
    CloseMoves(s.conns[c := k], c, r);
  }

  lemma HeaderMoves(s: Sys, c: nat, r: nat)
    requires c in s.conns && s.conns[c].state.SendHeader?
    ensures MovesIn(s.conns, HeaderSent(s, c).conns, r)
  {
    hide Close;
    CloseMoves(s.conns, c, r);
  }

  lemma StepMoves(s: Sys, e: Event, r: nat)
    requires FeedInv(s) && Enabled(s, e) && SlotsFit(s) && !e.FeedPacket? && !e.FeedTurn?
    ensures r in Step(s, e).conns && (e == Accepted ==> r != s.next) ==> MovesIn(s.conns, Step(s, e).conns, r)
    ensures e == Accepted ==> s.next !in s.conns && Step(s, e).conns[s.next] == Fresh()
  {
    hide Handle, Receive, Finish, SendSegment, HeaderSent, Close, NameInv, RefInv;
    match e
    case Accepted => NewIsNew(s);
    case Asked(c, req) => HandleMoves(s, c, req, r);
    case HeaderOut(c) => HeaderMoves(s, c, r);
    case SegmentBytes(c, bytes) => ReceiveMoves(s, c, s.conns[c].slot.value, bytes, r);
    case BodyEnds(c) => FinishMoves(s, c, r);
    case HangsUp(c) => FinishMoves(s, c, r);
    case SegmentTurn(c, socket) => SegmentMoves(s, c, s.conns[c].slot.value, socket, r);
    case Fails(c) => CloseMoves(s.conns, c, r);
  }

  lemma NewIsNew(s: Sys)
    requires FeedInv(s)
    ensures s.next !in s.conns
  {
    hide ConnInv;
  }

  // ------------------------------------------------- feeds that send one header first

  /** No block is a header with a header or a packet before it, and none a packet without a header
      before it. */
  predicate HeaderFirst(bs: seq<Block>) {
    && (forall i, j :: 0 <= i < j < |bs| && bs[j].kind == 1 ==> bs[i].kind != 1 && bs[i].kind != 2)
    && (forall j :: 0 <= j < |bs| && bs[j].kind == 2 ==> exists i :: 0 <= i < j && bs[i].kind == 1)
  }

  lemma HeaderFirstBefore(bs: seq<Block>, b: Block)
    requires HeaderFirst(bs + [b])
    ensures HeaderFirst(bs)
    ensures b.kind == 1 ==> SffRing.Written(bs).slots[SffRing.N].None?
    ensures b.kind == 2 ==> SffRing.Written(bs).slots[SffRing.N].Some?
  {
    var all := bs + [b];
    var h := SffRing.RingHoldsHeader(bs);
    assert all[|bs|] == b;
    assert forall i :: 0 <= i < |bs| ==> all[i] == bs[i];
    forall j | 0 <= j < |bs| && bs[j].kind == 2
      ensures exists i :: 0 <= i < j && bs[i].kind == 1
    {
      var i :| 0 <= i < j && all[i].kind == 1;
      assert bs[i].kind == 1;
    }
    if b.kind == 2 {
      var i :| 0 <= i < |bs| && all[i].kind == 1;
      assert bs[i].kind == 1;
    }
    assert h < |bs| ==> all[h] == bs[h];
  }

  lemma HeaderNow(bs: seq<Block>, b: Block)
    ensures SffRing.Written(bs + [b]).slots[SffRing.N]
            == if b.kind == 1 then Some(b) else SffRing.Written(bs).slots[SffRing.N]
  {
    OneMoreBlock(bs, b);
  }

  // ------------------------------------------------------ what each reader was sent

  /** Where a reader of feed `f` stands that its feed's first packet did not find without a feed, and
      where one stands that it did. */
  predicate Fed(j: Joint, r: nat, f: nat)
    requires r in j.s.conns
  {
    var state, h, sent, given := j.s.conns[r].state, j.Header(f), j.Sent(r), j.Given(r);
    var nothing := sent == [] && given == [];
    var all := h.Some? && sent == [h.value] + given;
    if r in j.late then
      h.Some? && sent == given && (state == SendData || state == WaitFeed || state == SendTrailer)
    else
      match state
      case SendHeader => nothing
      case SendDataHeader => nothing
      case SendData => all
      case WaitFeed => if h.Some? then all else nothing
      case SendTrailer => nothing || all
      case _ => false
  }

  /** A connection that may yet read a feed was sent nothing; a reader of a feed stands where it
      should as long as that feed sends one header first. */
  predicate HeadInv(j: Joint, r: nat) {
    && (r in j.s.conns ==> r < j.s.next)
    && (r >= j.s.next ==> j.Sent(r) == [] && j.Given(r) == [] && r !in j.late)
    && (r in j.s.conns && Reads(j.s.conns[r]) ==>
          match j.s.conns[r].feed
          case None => j.s.conns[r].state != SendData && j.Sent(r) == [] && j.Given(r) == [] && r !in j.late
          case Some(f) => HeaderFirst(j.Blocks(f)) ==> Fed(j, r, f))
  }

  lemma OtherKeepsHeads(j: Joint, e: Event, r: nat)
    requires JointInv(j) && Can(j, Other(e)) && HeadInv(j, r)
    ensures HeadInv(Play(j, Other(e)), r)
  {
    hide Step, FeedInv, HeaderFirst, Starts, SleepInv;
    EventIsEnabled(j, Other(e));
    SlotsAlwaysFit(j.s);
    StepMoves(j.s, e, r);
    StepFeedStays(j.s, e, r);
  }

  lemma PacketKeepsKeys(s: Sys, c: nat, kind: nat)
    requires Enabled(s, FeedPacket(c, kind)) && SlotsFit(s)
    ensures var s' := Step(s, FeedPacket(c, kind)); s'.conns.Keys == s.conns.Keys && s'.next == s.next
  {}

  /** A packet of the reader's own feed. */
  lemma PacketFeeds(j: Joint, j': Joint, f: nat, b: Block, r: nat)
    requires r in j.s.conns && r in j'.s.conns && Reads(j.s.conns[r]) && HeaderFirst(j.Blocks(f) + [b])
    requires j'.Blocks(f) == j.Blocks(f) + [b] && j'.Sent(r) == j.Sent(r) && j'.Given(r) == j.Given(r)
    requires var k, k' := j.s.conns[r], j'.s.conns[r];
             && ((k.feed == Some(f) && Fed(j, r, f) && (r in j'.late <==> r in j.late))
                 || (k.feed == None && k.state == WaitFeed && j.Sent(r) == [] && j.Given(r) == []
                     && (b.kind == 1 || b.kind == 2) && r !in j.late && (r in j'.late <==> b.kind == 2)))
             && k'.state == if k.state == WaitFeed && b.kind == 1 then SendDataHeader
                            else if k.state == WaitFeed && b.kind == 2 then SendData else k.state
    ensures Fed(j', r, f)
  {
    hide HeaderFirst, SffRing.Written;
    HeaderNow(j.Blocks(f), b);
    HeaderFirstBefore(j.Blocks(f), b);
  }

  lemma PacketKeepsHeads(j: Joint, c: nat, b: Block, r: nat)
    requires JointInv(j) && Can(j, Packet(c, b)) && HeadInv(j, r)
    ensures HeadInv(Play(j, Packet(c, b)), r)
  {
    hide Step, FeedInv, HeaderFirst, Starts, SleepInv, SffRing.Written;
    var m := Packet(c, b);
    EventIsEnabled(j, m);
    SlotsAlwaysFit(j.s);
    StepFeedStays(j.s, EventOf(j, m), r);
    PacketKeepsKeys(j.s, c, b.kind);
    var j' := Play(j, m);
    if r in j.s.conns && Reads(j'.s.conns[r]) {
      hide Fed;
      PacketWakes(j.s, c, b.kind, r);
      var f := j'.s.conns[r].feed;
      if f == Some(c) && HeaderFirst(j'.Blocks(c)) {
        HeaderFirstBefore(j.Blocks(c), b);
        PacketFeeds(j, j', c, b, r);
      } else if f.Some? && f != Some(c) {
        FedStays(j, j', r, f.value);
      }
    }
  }

  lemma FedStays(j: Joint, j': Joint, r: nat, f: nat)
    requires r in j.s.conns && r in j'.s.conns && j'.s.conns[r].state == j.s.conns[r].state
    requires j'.Blocks(f) == j.Blocks(f) && j'.Sent(r) == j.Sent(r) && j'.Given(r) == j.Given(r)
    requires r in j'.late <==> r in j.late
    ensures Fed(j', r, f) <==> Fed(j, r, f)
  {}

  lemma TurnStates(s: Sys, c: nat, next: Next, r: nat)
    requires c in s.conns
    ensures var w := SendPackets(s, c, next).conns;
            && SendPackets(s, c, next).next == s.next
            && (r in w ==> r in s.conns && w[r].post == s.conns[r].post && w[r].slot == s.conns[r].slot
                           && w[r].feed == s.conns[r].feed && (r == c ==> !next.Closes?)
                           && w[r].state == if r != c then s.conns[r].state
                                            else if next.Sleeps? then WaitFeed else SendData)
  {
    hide Close;
    CloseMoves(s.conns, c, r);
  }

  /** The reader's own turn. */
  lemma TurnFeeds(j: Joint, j': Joint, r: nat, f: nat, drained: bool)
    requires Shaped(j) && r in j.s.conns && r in j'.s.conns && Fed(j, r, f) && Sending(j.s.conns[r])
    requires j.s.conns[r].feed == Some(f)
    requires var o := FeedRelay.Outcome(j, r, drained);
             && !o.next.Closes? && j'.s.conns[r].state == (if o.next.Sleeps? then WaitFeed else SendData)
             && j'.Sent(r) == j.Sent(r) + o.out && j'.Given(r) == j.Given(r) + o.got
    requires j'.Blocks(f) == j.Blocks(f) && (r in j'.late <==> r in j.late)
    ensures Fed(j', r, f)
  {
    hide SffRing.Written, SffRing.Read;
  }

  lemma TurnKeepsHeads(j: Joint, c: nat, drained: bool, r: nat)
    requires JointInv(j) && Can(j, Turn(c, drained)) && HeadInv(j, r)
    ensures HeadInv(Play(j, Turn(c, drained)), r)
  {
    hide FeedInv, HeaderFirst, Starts, SleepInv, SffRing.Written, Fed, SendPackets, Prepare;
    var m := Turn(c, drained);
    EventIsEnabled(j, m);
    SlotsAlwaysFit(j.s);
    var j', o := Play(j, m), FeedRelay.Outcome(j, c, drained);
    TurnStates(j.s, c, o.next, r);
    if r in j'.s.conns && Reads(j'.s.conns[r]) {
      match j.s.conns[r].feed
      case None =>
        if r == c {
          NothingWithoutFeed(j, c, drained);
        }
      case Some(f) =>
        if HeaderFirst(j.Blocks(f)) {
          if r == c {
            TurnFeeds(j, j', r, f, drained);
          } else {
            FedStays(j, j', r, f);
          }
        }
    }
  }

  lemma NothingWithoutFeed(j: Joint, c: nat, drained: bool)
    requires Shaped(j) && c in j.s.conns && j.s.conns[c].feed == None && Sending(j.s.conns[c])
    requires j.s.conns[c].state != SendData
    ensures var o := FeedRelay.Outcome(j, c, drained); o.got == [] && o.out == [] && (o.next.Sleeps? || o.next.Closes?)
  {}

  lemma PlayKeepsHeads(j: Joint, m: Move, r: nat)
    requires JointInv(j) && Can(j, m) && HeadInv(j, r)
    ensures HeadInv(Play(j, m), r)
  {
    hide Play, JointInv, HeadInv;
    match m
    case Packet(c, b) => PacketKeepsHeads(j, c, b, r);
    case Turn(c, drained) => TurnKeepsHeads(j, c, drained, r);
    case Other(e) => OtherKeepsHeads(j, e, r);
  }

  lemma {:induction false} PlaysKeepHeads(j: Joint, moves: seq<Move>, j': Joint, r: nat)
    requires JointInv(j) && HeadInv(j, r) && Plays(j, moves, j')
    ensures JointInv(j') && HeadInv(j', r)
    decreases |moves|
  {
    if moves != [] {
      hide Play, JointInv, HeadInv;
      PlayKeepsJointInv(j, moves[0]);
      PlayKeepsHeads(j, moves[0], r);
      PlaysKeepHeads(Play(j, moves[0]), moves[1..], j', r);
    }
  }

  lemma BeginHeads(r: nat)
    ensures JointInv(Begin()) && HeadInv(Begin(), r)
  {
    hide FeedInv;
    StartIsFine();
  }

  /** Of a feed that sends one header first, a reader is sent the header exactly once, and before
      its first packet, unless it met the feed by a packet; then it is never sent the header. One
      that sends packets, or sleeps although there is a header, has been sent it. */
  lemma HeaderComesFirst(moves: seq<Move>, j: Joint, r: nat, f: nat)
    requires Plays(Begin(), moves, j) && r in j.s.conns && Reads(j.s.conns[r]) && j.s.conns[r].feed == Some(f)
    requires HeaderFirst(j.Blocks(f))
    ensures r in j.late ==> j.Sent(r) == j.Given(r)
    ensures r !in j.late ==>
              || (j.Sent(r) == [] && j.Given(r) == [])
              || (j.Header(f).Some? && j.Sent(r) == [j.Header(f).value] + j.Given(r))
    ensures var state := j.s.conns[r].state;
            r !in j.late && (state == SendData || (state == WaitFeed && j.Header(f).Some?)) ==> j.Sent(r) != []
  {
    hide JointInv, Plays;
    BeginHeads(r);
    PlaysKeepHeads(Begin(), moves, j, r);
  }

  lemma {:induction false} UnlappedIsARun(j: Joint, moves: seq<Move>, j': Joint, r: nat)
    requires PlaysUnlapped(j, moves, j', r)
    ensures Plays(j, moves, j')
    decreases |moves|
  {
    hide Play, NotLapped;
    if moves != [] {
      UnlappedIsARun(Play(j, moves[0]), moves[1..], j', r);
    }
  }

  /** In a run in which the writer never laps it, a reader of such a feed that did not meet it by a
      packet was sent nothing, or the header and then the packets from the one it started at, in
      order, without gap or repeat; when it sleeps although there is a header, all of them. */
  lemma HeaderThenPackets(moves: seq<Move>, j: Joint, r: nat, f: nat)
    requires PlaysUnlapped(Begin(), moves, j, r) && r in j.s.conns && Reads(j.s.conns[r])
    requires j.s.conns[r].feed == Some(f) && HeaderFirst(j.Blocks(f)) && r !in j.late
    ensures j.Sent(r) != [] ==> j.Header(f).Some? && j.Sent(r)[0] == j.Header(f).value
    ensures var ps, n := SffRing.Packets(j.Blocks(f)), |j.Sent(r)| - 1;
            n >= 0 ==> r in j.start && j.start[r] + n <= |ps| && j.Sent(r)[1..] == ps[j.start[r]..j.start[r] + n]
    ensures f in j.s.conns && j.s.conns[r].state == WaitFeed && j.Header(f).Some? ==>
              r in j.start && j.start[r] <= |SffRing.Packets(j.Blocks(f))|
              && j.Sent(r) == [j.Header(f).value] + SffRing.Packets(j.Blocks(f))[j.start[r]..]
  {
    hide PlaysUnlapped, Plays, HeaderFirst, SffRing.Packets, SffRing.Written;
    UnlappedIsARun(Begin(), moves, j, r);
    HeaderComesFirst(moves, j, r, f);
    ReadersAreInStep(moves, j, r);
    if f in j.s.conns && j.s.conns[r].state == WaitFeed && j.Header(f).Some? {
      SleepersAreServed(moves, j, r, f);
    }
  }

  /** Whoever sleeps on a feed, or on its name without a feed, when a header comes sends that header
      at its next turn, whatever the feed sent before. */
  lemma WokenSendsHeader(j: Joint, f: nat, b: Block, r: nat, drained: bool)
    requires JointInv(j) && Can(j, Packet(f, b)) && b.kind == 1
    requires r in j.s.conns && Reads(j.s.conns[r]) && j.s.conns[r].state == WaitFeed
    requires j.s.conns[r].feed == Some(f) || (j.s.conns[r].feed == None && j.s.conns[r].url == j.s.conns[f].url)
    ensures var j' := Play(j, Packet(f, b));
            && Shaped(j') && Can(j', Turn(r, drained))
            && FeedRelay.Outcome(j', r, drained).next.Sends? && FeedRelay.Outcome(j', r, drained).out == [b]
  {
    hide FeedInv, SleepInv, Starts, Step;
    EventIsEnabled(j, Packet(f, b));
    SlotsAlwaysFit(j.s);
    PacketWakes(j.s, f, 1, r);
    HeaderNow(j.Blocks(f), b);
  }

  /** A reader that sleeps on a feed with a header, and was not lapped, is given the next packet as
      soon as it comes. */
  lemma WokenIsGivenPacket(moves: seq<Move>, j: Joint, f: nat, b: Block, r: nat)
    requires PlaysUnlapped(Begin(), moves, j, r) && Sleeper(j.s.conns, r, f) && j.Header(f).Some?
    requires Shaped(j) && FeedInv(j.s) && Can(j, Packet(f, b)) && b.kind == 2
    ensures var j' := Play(j, Packet(f, b));
            Shaped(j') && Can(j', Turn(r, true)) && FeedRelay.Outcome(j', r, true).out == [b]
  {
    hide PlaysUnlapped, FeedInv, SleepInv, Starts, Step, SffRing.Packets, SffRing.Written, SffRing.Read;
    BeginIsFine(r);
    PlaysKeepGiven(Begin(), moves, j, r);
    SleepersAreServed(moves, j, r, f);
    EventIsEnabled(j, Packet(f, b));
    SlotsAlwaysFit(j.s);
    PacketWakes(j.s, f, 2, r);
    SffRing.PacketsAppend(j.Blocks(f), b);
    var n := |SffRing.Packets(j.Blocks(f))|;
    SffRing.ReadByNumber(j.Blocks(f) + [b], n);
    SffRing.ReadIsNextIffNotLapped(n, n + 1);
  }

  /** A reader that takes the packet of an int index goes on unless the index is -1, with which
      streams end; one that takes a packet too short for an index is closed too. */
  lemma EndsIff(index: int, data: seq<byte>, b: Block)
    requires IsInt32(index) && data != []
    ensures GoesOn(WritePacket(index, data).value) <==> index != -1
    ensures |b.payload| < 4 ==> !GoesOn(b)
  {
    ParseUndoesWrite(index, data);
    assert ToInt32(0xFFFF_FFFF) == -1;
    Int32RoundTrip(index);
  }

  /** What a turn that takes a packet makes of its reader. */
  lemma TakenThenClosed(j: Joint, c: nat)
    requires Shaped(j) && c in j.s.conns && Sending(j.s.conns[c]) && FeedRelay.Outcome(j, c, true).got != []
    ensures var o := FeedRelay.Outcome(j, c, true);
            && j.s.conns[c].state == SendData && |o.got| == 1 && o.out == o.got && o.due == (j.Due(c) + 1) % 128
            && (o.next.Closes? <==> !GoesOn(o.got[0])) && (o.next.Sends? <==> GoesOn(o.got[0]))
  {}

  // --------------------------------------------------- readers without, and with two

  /** One more move of a run. */
  lemma OneMore(moves: seq<Move>, j: Joint, m: Move) returns (moves': seq<Move>, j': Joint)
    requires Plays(Begin(), moves, j) && Can(j, m)
    ensures JointInv(j) && Shaped(j) && FeedInv(j.s)
    ensures Plays(Begin(), moves', j') && j' == Play(j, m) && JointInv(j')
  {
    hide Play, JointInv, FeedInv, Plays;
    BeginIsFine(0);
    PlaysOn(Begin(), moves, j, m);
    moves', j' := moves + [m], Play(j, m);
  }

  lemma IdleTurn(j: Joint)
    requires JointInv(j) && j.s.conns == map[0 := FEED, 1 := Follower(SendData)]
    requires j.Blocks(0) == [HEADER] && j.Due(1) == 0
    ensures Can(j, Turn(1, true))
    ensures var j' := Play(j, Turn(1, true));
            && j'.s.conns == map[0 := FEED, 1 := Follower(WaitFeed)] && j'.blocks == j.blocks
            && j'.Due(1) == 0 && j'.Sent(1) == j.Sent(1)
  {
    hide FeedInv, SleepInv, Starts;
    OneMoreBlock([], HEADER);
    assert [] + [HEADER] == [HEADER];
  }

  /** A second header of a feed is sent to a reader that sleeps when it comes, as the first was. */
  lemma HeaderTwice() returns (moves: seq<Move>, j: Joint)
    ensures Plays(Begin(), moves, j) && j.s.conns == map[0 := FEED, 1 := Follower(SendData)]
    ensures j.Blocks(0) == [HEADER, HEADER] && j.Sent(1) == [HEADER, HEADER]
  {
    hide JointInv, Play, FeedInv, Plays;
    moves, j := PacketsPass(0);
    IdleTurn(j);
    moves, j := OneMore(moves, j, Turn(1, true));
    WakesFollower(j, HEADER);
    moves, j := OneMore(moves, j, Packet(0, HEADER));
    SendsHeader(j);
    moves, j := OneMore(moves, j, Turn(1, true));
    assert [HEADER] + [HEADER] == [HEADER, HEADER];
  }

  lemma WakesFollower(j: Joint, b: Block)
    requires JointInv(j) && j.s.conns == map[0 := FEED, 1 := Follower(WaitFeed)] && b.kind == 1
    ensures Can(j, Packet(0, b))
    ensures var j' := Play(j, Packet(0, b));
            && j'.s.conns == map[0 := FEED, 1 := Follower(SendDataHeader)]
            && j'.Blocks(0) == j.Blocks(0) + [b] && j'.Sent(1) == j.Sent(1)
  {
    hide FeedInv, SleepInv, Starts, Wake, MetByPacket;
    FollowerIsWoken(j.s.conns);
  }

  lemma FollowerIsWoken(conns: Conns)
    requires conns == map[0 := FEED, 1 := Follower(WaitFeed)]
    ensures Wake(conns, 0, SendDataHeader) == map[0 := FEED, 1 := Follower(SendDataHeader)]
  {
    assert Attached(conns, 0) == {};
  }

  lemma SendsHeader(j: Joint)
    requires JointInv(j) && j.s.conns == map[0 := FEED, 1 := Follower(SendDataHeader)]
    requires j.Blocks(0) == [HEADER] + [HEADER]
    ensures Can(j, Turn(1, true))
    ensures var j' := Play(j, Turn(1, true));
            && j'.s.conns == map[0 := FEED, 1 := Follower(SendData)] && j'.blocks == j.blocks
            && j'.Sent(1) == j.Sent(1) + [HEADER]
  {
    hide FeedInv, SleepInv, Starts;
    OneMoreBlock([HEADER], HEADER);
  }

  /** A reader that asked before there was a feed, and the feed with `refs` readers. */
  function Lonely(state: State): Conn { Fresh().(url := STREAM_X, state := state) }

  function Poster(refs: int): Conn { Fresh().(post := true, url := STREAM_X, state := ReceiveData, refs := refs) }

  /** A reader asks, and then another connection posts. */
  lemma AsksTooEarly() returns (events: seq<Event>, s: Sys)
    ensures Runs(Start(), events, s) && forall e <- events :: e.Accepted? || e.Asked? || e.HeaderOut?
    ensures s.conns == map[0 := Poster(0), 1 := Lonely(SendDataHeader)]
  {
    hide RouteOf, KeepsPost, FeedInv;
    XIsAStream();
    StartIsFine();
    events, s := EarlyHeader();
    RunsOn(Start(), events, s, Asked(0, POST_X));
    SecondFeedRefusedIff(s.conns, 0, Fresh().(post := true, url := STREAM_X));
    events, s := events + [Asked(0, POST_X)], Step(s, Asked(0, POST_X));
  }

  lemma EarlyHeader() returns (events: seq<Event>, s: Sys)
    ensures Runs(Start(), events, s) && forall e <- events :: e.Accepted? || e.Asked? || e.HeaderOut?
    ensures s.conns == map[0 := Fresh(), 1 := Lonely(SendDataHeader)]
  {
    hide FeedInv, RouteOf, KeepsPost;
    XIsAStream();
    StartIsFine();
    events, s := TwoConnections();
    RunsOn(Start(), events, s, Asked(1, GET_X));
    NobodyPosts(s.conns[1 := Fresh().(url := STREAM_X)]);
    events, s := events + [Asked(1, GET_X)], Step(s, Asked(1, GET_X));
    assert s.conns == map[0 := Fresh(), 1 := Lonely(SendHeader)];
    RunsOn(Start(), events, s, HeaderOut(1));
    events, s := events + [HeaderOut(1)], Step(s, HeaderOut(1));
  }

  lemma NobodyPosts(conns: Conns)
    requires forall r :: r in conns ==> !conns[r].post
    ensures FindFeed(conns, STREAM_X) == None
  {}

  lemma TwoConnections() returns (events: seq<Event>, s: Sys)
    ensures Runs(Start(), events, s) && forall e <- events :: e.Accepted?
    ensures s.conns == map[0 := Fresh(), 1 := Fresh()]
  {
    hide FeedInv;
    StartIsFine();
    events, s := [], Start();
    RunsOn(Start(), events, s, Accepted);
    events, s := events + [Accepted], Step(s, Accepted);
    RunsOn(Start(), events, s, Accepted);
    events, s := events + [Accepted], Step(s, Accepted);
  }

  /** A reader that asks before there is a feed, and is not asleep yet when the header comes, meets
      the feed by its first packet and is sent that without the header. */
  lemma HeaderMissed() returns (moves: seq<Move>, j: Joint)
    ensures Plays(Begin(), moves, j) && j.s.conns == map[0 := Poster(1), 1 := Follower(SendData)]
    ensures j.Blocks(0) == [HEADER, DATA] && j.Sent(1) == [DATA] && 1 in j.late
  {
    hide JointInv, Play, FeedInv, Plays;
    BeginIsFine(0);
    var events, s := AsksTooEarly();
    moves, j := OthersPlay(Begin(), events, s);
    PlaysKeepJointInv(Begin(), moves, j);
    HeaderPassesBy(j);
    moves, j := OneMore(moves, j, Packet(0, HEADER));
    FindsNoFeed(j);
    moves, j := OneMore(moves, j, Turn(1, true));
    PacketAttaches(j);
    moves, j := OneMore(moves, j, Packet(0, DATA));
    SendsPacket(j);
    moves, j := OneMore(moves, j, Turn(1, true));
  }

  /** A packet of stream 0. */
  const DATA := Block(2, [0, 0, 0, 0, 7])

  lemma HeaderPassesBy(j: Joint)
    requires JointInv(j) && j.s.conns == map[0 := Poster(0), 1 := Lonely(SendDataHeader)]
    requires j.blocks == map[] && j.due == map[] && j.sent == map[]
    ensures Can(j, Packet(0, HEADER))
    ensures var j' := Play(j, Packet(0, HEADER));
            j'.s.conns == j.s.conns && j'.Blocks(0) == [HEADER] && j'.due == map[] && j'.sent == map[]
  {
    hide FeedInv, SleepInv, Starts;
    assert Attached(j.s.conns, 0) == {};
    assert Wake(j.s.conns, 0, SendDataHeader) == j.s.conns;
  }

  lemma FindsNoFeed(j: Joint)
    requires JointInv(j) && j.s.conns == map[0 := Poster(0), 1 := Lonely(SendDataHeader)]
    requires j.Blocks(0) == [HEADER] && j.due == map[] && j.sent == map[]
    ensures Can(j, Turn(1, true))
    ensures var j' := Play(j, Turn(1, true));
            && j'.s.conns == map[0 := Poster(0), 1 := Lonely(WaitFeed)] && j'.Blocks(0) == [HEADER]
            && j'.Due(1) == 0 && j'.Sent(1) == []
  {
    hide FeedInv, SleepInv, Starts;
  }

  lemma PacketAttaches(j: Joint)
    requires JointInv(j) && j.s.conns == map[0 := Poster(0), 1 := Lonely(WaitFeed)]
    requires j.Blocks(0) == [HEADER] && j.Due(1) == 0 && j.Sent(1) == []
    ensures Can(j, Packet(0, DATA))
    ensures var j' := Play(j, Packet(0, DATA));
            && j'.s.conns == map[0 := Poster(1), 1 := Follower(SendData)] && j'.Blocks(0) == [HEADER, DATA]
            && j'.Due(1) == 0 && j'.Sent(1) == [] && 1 in j'.late
  {
    hide FeedInv, SleepInv, Starts, Wake, MetByPacket;
    LonelyIsWoken(j.s.conns);
    MeetsByPacket(j.s.conns, Play(j, Packet(0, DATA)).s.conns);
    assert [HEADER] + [DATA] == [HEADER, DATA];
  }

  lemma LonelyIsWoken(conns: Conns)
    requires conns == map[0 := Poster(0), 1 := Lonely(WaitFeed)]
    ensures Wake(conns, 0, SendData) == map[0 := Poster(1), 1 := Follower(SendData)]
  {
    assert Attached(conns, 0) == {1};
  }

  lemma MeetsByPacket(conns: Conns, conns': Conns)
    requires conns == map[0 := Poster(0), 1 := Lonely(WaitFeed)]
    requires conns' == map[0 := Poster(1), 1 := Follower(SendData)]
    ensures 1 in MetByPacket(conns, conns', DATA)
  {}

  lemma SendsPacket(j: Joint)
    requires JointInv(j) && j.s.conns == map[0 := Poster(1), 1 := Follower(SendData)]
    requires j.Blocks(0) == [HEADER, DATA] && j.Due(1) == 0 && j.Sent(1) == [] && 1 in j.late
    ensures Can(j, Turn(1, true))
    ensures var j' := Play(j, Turn(1, true));
            && j'.s.conns == map[0 := Poster(1), 1 := Follower(SendData)] && j'.Blocks(0) == [HEADER, DATA]
            && j'.Sent(1) == [DATA] && 1 in j'.late
  {
    hide FeedInv, SleepInv, Starts, GoesOn, SffRing.Written, SffRing.Read;
    DataIsRead();
    DataGoesOn();
  }

  lemma DataIsRead()
    ensures SffRing.Read(SffRing.Written([HEADER, DATA]), 0) == Some(DATA)
  {
    OneMoreBlock([], HEADER);
    OneMoreBlock([HEADER], DATA);
    assert [] + [HEADER] == [HEADER] && [HEADER] + [DATA] == [HEADER, DATA];
  }

  lemma DataGoesOn()
    ensures GoesOn(DATA)
  {}
}
