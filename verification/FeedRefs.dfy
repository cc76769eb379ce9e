/**
  Reference counts of feeds in ffserver.c: in every reachable state a feed counts the open
  readers that point at it.
 */
module FeedRefs {
  import opened Bytes
  import opened Text
  import opened Wrappers
  import opened Connections
  import opened HlsSlots
  import opened Server

  // --------------------------------------------------------- names, slots and pointers

  /** What holds of one connection whatever the others do. */
  predicate ConnInv(k: Conn) {
    && k.slot == SlotOf(k.url)
    && (k.state.WaitRequest? ==> k == Fresh())
    && (k.state.ReceiveData? ==> k.post)
    && (k.post ==> k.feed.None? && (k.state.ReceiveData? || k.state.SendHeader?))
    && (k.error ==> k.state.SendHeader?)
    && (k.post && k.state.SendHeader? ==> k.error)
  }

  /** A reader points at a poster of the same name, unless that one is closed. */
  predicate PointerInv(conns: Conns, k: Conn, next: nat) {
    k.feed.Some? ==> k.feed.value < next
                     && (k.feed.value in conns ==> conns[k.feed.value].post && conns[k.feed.value].url == k.url)
  }

  predicate NameInv(conns: Conns, next: nat) {
    forall c :: c in conns ==> c < next && ConnInv(conns[c]) && PointerInv(conns, conns[c], next)
  }

  lemma FreshIsFine()
    ensures ConnInv(Fresh())
  {
    assert LastDot("") == -1;
  }

  /** An update of one connection that keeps its name, or gives it its name. */
  lemma PutKeepsNames(conns: Conns, next: nat, c: nat, k: Conn)
    requires NameInv(conns, next) && c in conns && ConnInv(k) && PointerInv(conns, k, next)
    requires conns[c].state.WaitRequest? || (k.url == conns[c].url && k.post == conns[c].post)
    ensures NameInv(conns[c := k], next)
  {
    hide ConnInv;
    assert conns[c].state.WaitRequest? ==> !conns[c].post by {
      NamesGive(conns, next, c);
    }
  }

  lemma NamesGive(conns: Conns, next: nat, c: nat)
    requires NameInv(conns, next) && c in conns
    ensures ConnInv(conns[c]) && PointerInv(conns, conns[c], next) && c < next
    ensures conns[c].state.WaitRequest? ==> !conns[c].post
  {}

  lemma WakeKeepsNames(conns: Conns, next: nat, c: nat, to: State)
    requires NameInv(conns, next) && c in conns && conns[c].state.ReceiveData?
    requires Sending(conns[c].(state := to))
    ensures NameInv(Wake(conns, c, to), next)
  {
    hide SlotOf;
    forall r | r in conns
      ensures ConnInv(Wake(conns, c, to)[r]) && PointerInv(Wake(conns, c, to), Wake(conns, c, to)[r], next)
    {
      NamesGive(conns, next, r);
      NamesGive(conns, next, c);
    }
  }

  lemma CloseKeepsNames(conns: Conns, next: nat, c: nat)
    requires NameInv(conns, next) && c in conns
    ensures NameInv(Close(conns, c), next)
  {
    hide SlotOf;
  }

  // ------------------------------------------------------------------ the counts

  ghost predicate RefInv(conns: Conns) { forall c :: c in conns ==> conns[c].refs == |Readers(conns, c)| }

  /** An update of one connection that keeps its pointer and its count. */
  lemma PutKeepsRefs(conns: Conns, c: nat, k: Conn)
    requires RefInv(conns) && c in conns && k.feed == conns[c].feed && k.refs == conns[c].refs
    ensures RefInv(conns[c := k])
  {
    var w := conns[c := k];
    forall f | f in w
      ensures w[f].refs == |Readers(w, f)|
    {
      assert Readers(w, f) == Readers(conns, f);
    }
  }

  lemma WakeGives(conns: Conns, c: nat, to: State, r: nat)
    requires c in conns && r in conns && !conns[c].state.WaitFeed?
    ensures var w := Wake(conns, c, to);
            && w[r].feed == (if Attaches(conns[c], conns[r]) then Some(c) else conns[r].feed)
            && w[r].refs == conns[r].refs + if r == c then |Attached(conns, c)| else 0
  {}

  /** A wake-up adds to the readers of the feed exactly those it attaches. */
  lemma WakeReaders(conns: Conns, c: nat, to: State, f: nat)
    requires c in conns && !conns[c].state.WaitFeed?
    ensures Readers(Wake(conns, c, to), f)
            == if f == c then Readers(conns, c) + Attached(conns, c) else Readers(conns, f)
  {
    hide Wake;
    var w := Wake(conns, c, to);
    forall r | r in conns
      ensures w[r].feed == (if Attaches(conns[c], conns[r]) then Some(c) else conns[r].feed)
    {
      WakeGives(conns, c, to, r);
    }
  }

  lemma WakeKeepsRefs(conns: Conns, c: nat, to: State)
    requires RefInv(conns) && c in conns && !conns[c].state.WaitFeed?
    ensures RefInv(Wake(conns, c, to))
  {
    hide Wake;
    var w := Wake(conns, c, to);
    forall f | f in w
      ensures w[f].refs == |Readers(w, f)|
    {
      WakeReaders(conns, c, to, f);
      WakeGives(conns, c, to, f);
      assert Readers(conns, c) !! Attached(conns, c);
    }
  }

  lemma CloseKeepsRefs(conns: Conns, c: nat)
    requires RefInv(conns) && c in conns && (conns[c].post ==> conns[c].feed.None?)
    ensures RefInv(Close(conns, c))
  {
    var w := Close(conns, c);
    forall f | f in w
      ensures w[f].refs == |Readers(w, f)|
    {
      if conns[c].feed == Some(f) {
        assert Readers(w, f) == Readers(conns, f) - {c};
      } else {
        assert Readers(w, f) == Readers(conns, f);
      }
    }
  }

  // --------------------------------------------------------------- every event

  ghost predicate FeedInv(s: Sys) { |s.slots| == S + 1 && NameInv(s.conns, s.next) && RefInv(s.conns) }

  lemma SlotsAlwaysFit(s: Sys)
    requires FeedInv(s)
    ensures SlotsFit(s)
  {}

  lemma PutKeepsBoth(conns: Conns, next: nat, c: nat, k: Conn)
    requires NameInv(conns, next) && RefInv(conns) && c in conns && ConnInv(k)
    requires k.feed == conns[c].feed && k.refs == conns[c].refs
    requires conns[c].state.WaitRequest? || (k.url == conns[c].url && k.post == conns[c].post)
    ensures NameInv(conns[c := k], next) && RefInv(conns[c := k])
  {
    NamesGive(conns, next, c);
    assert PointerInv(conns, k, next);
    PutKeepsNames(conns, next, c, k);
    PutKeepsRefs(conns, c, k);
  }

  lemma WakeKeepsBoth(conns: Conns, next: nat, c: nat, to: State)
    requires NameInv(conns, next) && RefInv(conns) && c in conns && conns[c].state.ReceiveData?
    requires Sending(conns[c].(state := to))
    ensures NameInv(Wake(conns, c, to), next) && RefInv(Wake(conns, c, to))
  {
    WakeKeepsNames(conns, next, c, to);
    WakeKeepsRefs(conns, c, to);
  }

  lemma CloseKeepsBoth(conns: Conns, next: nat, c: nat)
    requires NameInv(conns, next) && RefInv(conns) && c in conns
    ensures NameInv(Close(conns, c), next) && RefInv(Close(conns, c))
  {
    NamesGive(conns, next, c);
    CloseKeepsNames(conns, next, c);
    CloseKeepsRefs(conns, c);
  }

  lemma AcceptKeeps(s: Sys)
    requires FeedInv(s)
    ensures FeedInv(Step(s, Accepted))
  {
    hide SlotOf;
    FreshIsFine();
    var w := s.conns[s.next := Fresh()];
    assert Fresh().feed == None && Fresh().refs == 0;
    hide Fresh, ConnInv;
    forall f | f in w
      ensures w[f].refs == |Readers(w, f)|
    {
      if f == s.next {
        assert Readers(w, f) == {};
      } else {
        assert Readers(w, f) == Readers(s.conns, f);
      }
    }
  }

  /** A reader that joins counts once more on the feed it found. */
  lemma JoinKeeps(conns: Conns, next: nat, c: nat, k: Conn)
    requires NameInv(conns, next) && RefInv(conns) && c in conns && conns[c].state.WaitRequest?
    requires k == Fresh().(url := k.url) && SlotOf(k.url).None?
    ensures NameInv(Join(conns, c, k), next) && RefInv(Join(conns, c, k))
  {
    hide SlotOf;
    NamesGive(conns, next, c);
    var found := FindFeed(conns[c := k], k.url);
    var k1 := k.(feed := found, state := SendHeader);
    if found.Some? {
      var f := found.value;
      assert f != c && conns[c := k][f] == conns[f];
      var conns1 := conns[f := conns[f].(refs := conns[f].refs + 1)];
      NamesGive(conns, next, f);
      PutKeepsNames(conns, next, f, conns1[f]);
      PutKeepsNames(conns1, next, c, k1);
      JoinCounts(conns, c, f, k1);
    } else {
      PutKeepsNames(conns, next, c, k1);
      PutKeepsRefs(conns, c, k1);
    }
  }

  lemma JoinReaders(conns: Conns, w: Conns, c: nat, f: nat, g: nat)
    requires c in conns && f in conns && conns[c].feed.None?
    requires w.Keys == conns.Keys
    requires forall r :: r in conns ==> w[r].feed == if r == c then Some(f) else conns[r].feed
    ensures |Readers(w, g)| == |Readers(conns, g)| + if g == f then 1 else 0
  {
    if g == f {
      assert Readers(w, f) == Readers(conns, f) + {c} && c !in Readers(conns, f);
    } else {
      assert Readers(w, g) == Readers(conns, g);
    }
  }

  lemma JoinCounts(conns: Conns, c: nat, f: nat, k: Conn)
    requires RefInv(conns) && c in conns && f in conns && f != c && conns[c].feed.None?
    requires k.feed == Some(f) && k.refs == conns[c].refs
    ensures RefInv(conns[f := conns[f].(refs := conns[f].refs + 1)][c := k])
  {
    hide Readers;
    var w := conns[f := conns[f].(refs := conns[f].refs + 1)][c := k];
    assert w.Keys == conns.Keys;
    assert forall r :: r in conns ==> w[r].feed == if r == c then Some(f) else conns[r].feed;
    forall g | g in w
      ensures w[g].refs == |Readers(w, g)|
    {
      JoinReaders(conns, w, c, f, g);
    }
  }

  lemma HandleKeeps(s: Sys, c: nat, req: Request)
    requires FeedInv(s) && c in s.conns && s.conns[c].state.WaitRequest?
    ensures FeedInv(Handle(s, c, req))
  {
    hide RouteOf, NameInv, RefInv, KeepsPost, Atoi, Switches;
    NamesGive(s.conns, s.next, c);
    var k := s.conns[c].(post := KeepsPost(req), url := req.url);
    if RouteOf(req.url).Stream? && !k.post {
      JoinKeeps(s.conns, s.next, c, k);
    } else {
      PutKeepsBoth(s.conns, s.next, c, Handle(s, c, req).conns[c]);
    }
  }

  lemma FinishKeeps(s: Sys, c: nat)
    requires FeedInv(s) && c in s.conns && s.conns[c].state.ReceiveData?
    ensures FeedInv(Finish(s, c)) && c in Finish(s, c).conns
  {
    hide NameInv, RefInv, Wake;
    WakeKeepsBoth(s.conns, s.next, c, SendTrailer);
  }

  lemma ReceiveKeeps(s: Sys, c: nat, i: nat, bytes: seq<byte>)
    requires FeedInv(s) && c in s.conns && s.conns[c].state.ReceiveData? && i <= S
    ensures FeedInv(Receive(s, c, i, bytes))
  {
    hide SlotOf, NameInv, RefInv;
    NamesGive(s.conns, s.next, c);
    var k := s.conns[c].(body := s.conns[c].body + bytes);
    PutKeepsBoth(s.conns, s.next, c, k);
    WakeKeepsBoth(s.conns[c := k], s.next, c, SendData);
  }

  lemma TurnKeepsConn(k: Conn, s: Slot, socket: Socket)
    requires ConnInv(k) && Sending(k)
    ensures var k' := SendTurn(k, s, socket).conn;
            ConnInv(k') && k'.feed == k.feed && k'.refs == k.refs && k'.url == k.url && k'.post == k.post
  {
    hide SlotOf;
  }

  lemma SegmentKeeps(s: Sys, c: nat, i: nat, socket: Socket)
    requires FeedInv(s) && c in s.conns && Sending(s.conns[c]) && i <= S
    ensures FeedInv(SendSegment(s, c, i, socket))
  {
    hide SendTurn, NameInv, RefInv, Close;
    NamesGive(s.conns, s.next, c);
    TurnKeepsConn(s.conns[c], s.slots[i], socket);
    var conns := s.conns[c := SendTurn(s.conns[c], s.slots[i], socket).conn];
    PutKeepsBoth(s.conns, s.next, c, conns[c]);
    CloseKeepsBoth(conns, s.next, c);
  }

  lemma OthersKeep(s: Sys, e: Event)
    requires FeedInv(s) && SlotsFit(s) && Enabled(s, e)
    requires e.HeaderOut? || e.FeedPacket? || e.FeedTurn? || e.Fails?
    ensures FeedInv(Step(s, e))
  {
    hide SlotOf, NameInv, RefInv, Close, Wake;
    var c := e.c;
    NamesGive(s.conns, s.next, c);
    CloseKeepsBoth(s.conns, s.next, c);
    if e.FeedPacket? {
      WakeKeepsBoth(s.conns, s.next, c, SendDataHeader);
      WakeKeepsBoth(s.conns, s.next, c, SendData);
    } else if e.HeaderOut? && !s.conns[c].error {
      PutKeepsBoth(s.conns, s.next, c, Step(s, e).conns[c]);
    } else if e.FeedTurn? && !e.next.Closes? {
      PutKeepsBoth(s.conns, s.next, c, Step(s, e).conns[c]);
    }
  }

  /** Every event keeps names, pointers and counts. */
  lemma StepKeepsFeedInv(s: Sys, e: Event)
    requires FeedInv(s) && Enabled(s, e)
    ensures SlotsFit(s) && FeedInv(Step(s, e))
  {
    hide Handle, Receive, Finish, SendSegment, Close, Wake;
    SlotsAlwaysFit(s);
    match e
    case Accepted => AcceptKeeps(s);
    case Asked(c, req) => HandleKeeps(s, c, req);
    case SegmentBytes(c, bytes) => ReceiveKeeps(s, c, s.conns[c].slot.value, bytes);
    case BodyEnds(c) =>
      FinishKeeps(s, c);
      CloseKeepsBoth(Finish(s, c).conns, Finish(s, c).next, c);
    case HangsUp(c) =>
      FinishKeeps(s, c);
      CloseKeepsBoth(Finish(s, c).conns, Finish(s, c).next, c);
    case SegmentTurn(c, socket) => SegmentKeeps(s, c, s.conns[c].slot.value, socket);
    case _ => OthersKeep(s, e);
  }

  // ------------------------------------------------------------------ whole runs

  /** `s'` is reached from `s` by these events. */
  ghost predicate Runs(s: Sys, events: seq<Event>, s': Sys)
    decreases |events|
  {
    if events == [] then s' == s
    else Enabled(s, events[0]) && SlotsFit(s) && Runs(Step(s, events[0]), events[1..], s')
  }

  lemma {:induction false} RunKeepsFeedInv(s: Sys, events: seq<Event>, s': Sys)
    requires FeedInv(s) && Runs(s, events, s')
    ensures FeedInv(s')
    decreases |events|
  {
    if events != [] {
      StepKeepsFeedInv(s, events[0]);
      RunKeepsFeedInv(Step(s, events[0]), events[1..], s');
    }
  }

  /** In every reachable state a feed counts exactly the open readers that point at it. */
  lemma FeedsCountTheirReaders(events: seq<Event>, s: Sys, f: nat)
    requires Runs(Start(), events, s) && f in s.conns
    ensures s.conns[f].refs == |Readers(s.conns, f)|
  {
    RunKeepsFeedInv(Start(), events, s);
  }

  /** The end of a feed's body closes it exactly when nobody reads it, attached sleepers
      included, so that no reader is left pointing at a closed feed; otherwise all its
      sleeping readers are told to end. */
  lemma EndLeavesNoReader(events: seq<Event>, s: Sys, c: nat)
    requires Runs(Start(), events, s) && c in s.conns && s.conns[c].state.ReceiveData? && s.conns[c].slot.None?
    ensures var e := End(s, c);
            && (c !in e.conns <==> Readers(s.conns, c) + Attached(s.conns, c) == {})
            && (c !in e.conns ==> Readers(e.conns, c) == {})
            && (c in e.conns ==> e.conns[c].refs == |Readers(e.conns, c)| > 0)
            && forall r :: r in e.conns && e.conns[r].feed == Some(c) ==> !e.conns[r].state.WaitFeed?
  {
    hide NameInv, RefInv;
    RunKeepsFeedInv(Start(), events, s);
    EndOfFeed(s, c);
  }

  lemma EndOfFeed(s: Sys, c: nat)
    requires FeedInv(s) && c in s.conns && s.conns[c].state.ReceiveData? && s.conns[c].slot.None?
    ensures var e := End(s, c);
            && (c !in e.conns <==> Readers(s.conns, c) + Attached(s.conns, c) == {})
            && (c !in e.conns ==> Readers(e.conns, c) == {})
            && (c in e.conns ==> e.conns[c].refs == |Readers(e.conns, c)| > 0)
            && forall r :: r in e.conns && e.conns[r].feed == Some(c) ==> !e.conns[r].state.WaitFeed?
  {
    hide NameInv, RefInv, SlotOf, Wake, Close, Attached;
    var w := Wake(s.conns, c, SendTrailer);
    NamesGive(s.conns, s.next, c);
    FinishKeeps(s, c);
    WakeGives(s.conns, c, SendTrailer, c);
    CountOf(w, c);
    WakeReaders(s.conns, c, SendTrailer, c);
    ClosedReaders(w, c);
    WakenedAreAwake(s.conns, c);
    var e := End(s, c);
    assert forall r :: r in e.conns && e.conns[r].feed == Some(c) ==> r in Readers(e.conns, c);
  }

  lemma CountOf(conns: Conns, c: nat)
    requires RefInv(conns) && c in conns
    ensures conns[c].refs == |Readers(conns, c)|
  {}

  lemma WakenedAreAwake(conns: Conns, c: nat)
    requires c in conns && !conns[c].state.WaitFeed?
    ensures var w := Wake(conns, c, SendTrailer);
            forall r :: r in w && w[r].feed == Some(c) ==> !w[r].state.WaitFeed?
  {}

  /** A feed whose connection breaks is closed whoever reads it: it leaves readers pointing at
      it exactly when it has any. */
  lemma HangUpLeavesReadersIff(events: seq<Event>, s: Sys, c: nat)
    requires Runs(Start(), events, s) && c in s.conns && s.conns[c].state.ReceiveData?
    ensures var e := Closed(Finish(s, c), c);
            c !in e.conns && (Readers(e.conns, c) != {} <==> Readers(s.conns, c) + Attached(s.conns, c) != {})
  {
    hide NameInv, RefInv, SlotOf, Wake;
    RunKeepsFeedInv(Start(), events, s);
    var w := Wake(s.conns, c, SendTrailer);
    FinishKeeps(s, c);
    NamesGive(s.conns, s.next, c);
    WakeGives(s.conns, c, SendTrailer, c);
    WakeReaders(s.conns, c, SendTrailer, c);
    ClosedReaders(w, c);
  }

  /** The end of a segment's upload closes the connection whoever points at it: it leaves
      readers pointing at it exactly when some point at it already or sleep on its name now. */
  lemma UploadEndLeavesReadersIff(events: seq<Event>, s: Sys, c: nat)
    requires Runs(Start(), events, s) && c in s.conns && s.conns[c].state.ReceiveData? && s.conns[c].slot.Some?
    ensures var e := End(s, c);
            c !in e.conns && (Readers(e.conns, c) != {} <==> Readers(s.conns, c) + Attached(s.conns, c) != {})
  {
    HangUpLeavesReadersIff(events, s, c);
  }

  lemma ClosedReaders(conns: Conns, c: nat)
    requires c in conns && conns[c].feed.None?
    ensures c !in Close(conns, c) && Readers(Close(conns, c), c) == Readers(conns, c)
  {}

  /** The guard against a second feed of a name looks at the latest poster only: a post is
      refused exactly when another poster of the name connected after it. */
  lemma SecondFeedRefusedIff(conns: Conns, c: nat, k: Conn)
    requires c in conns && k.post && !k.error
    ensures OpenFeed(conns, c, k)[c].error <==> exists r :: r in conns && r > c && Feeds(conns[r], k.url)
  {
    var conns1 := conns[c := k];
    var found := FindFeed(conns1, k.url);
    assert Feeds(conns1[c], k.url);
    if found.value != c {
      assert found.value > c && conns1[found.value] == conns[found.value];
    } else {
      forall r | r in conns && Feeds(conns[r], k.url)
        ensures r <= c
      {
        assert r == c || conns1[r] == conns[r];
      }
    }
  }

  // ------------------------------------------------------------ two such runs

  lemma StartIsFine()
    ensures FeedInv(Start())
  {}

  lemma {:induction false} RunsOn(s: Sys, events: seq<Event>, s': Sys, e: Event)
    requires FeedInv(s) && Runs(s, events, s') && Enabled(s', e)
    ensures SlotsFit(s') && Runs(s, events + [e], Step(s', e))
    decreases |events|
  {
    hide Step, FeedInv;
    if events == [] {
      SlotsAlwaysFit(s);
      assert ([] + [e])[1..] == [];
    } else {
      StepKeepsFeedInv(s, events[0]);
      RunsOn(Step(s, events[0]), events[1..], s', e);
      assert (events + [e])[1..] == events[1..] + [e];
    }
  }

  const STREAM_X: string := "stream/x"
  const POST_X: Request := Request(true, STREAM_X, false, false)
  const GET_X: Request := Request(false, STREAM_X, false, false)

  lemma XIsAStream()
    ensures RouteOf(STREAM_X).Stream? && KeepsPost(POST_X) && !KeepsPost(GET_X)
  {}

  /** Two connections, of which the first posts to a stream. */
  lemma OneFeed() returns (events: seq<Event>, s: Sys)
    ensures Runs(Start(), events, s)
    ensures s.conns == map[0 := Fresh().(post := true, url := STREAM_X, state := ReceiveData), 1 := Fresh()]
    ensures forall e <- events :: e.Accepted? || e.Asked?
  {
    hide RouteOf, KeepsPost;
    XIsAStream();
    StartIsFine();
    events, s := [], Start();
    RunsOn(Start(), events, s, Accepted);
    events, s := events + [Accepted], Step(s, Accepted);
    RunsOn(Start(), events, s, Accepted);
    events, s := events + [Accepted], Step(s, Accepted);
    assert s.conns == map[0 := Fresh(), 1 := Fresh()];
    RunsOn(Start(), events, s, Asked(0, POST_X));
    SecondFeedRefusedIff(s.conns, 0, Fresh().(post := true, url := STREAM_X));
    events, s := events + [Asked(0, POST_X)], Step(s, Asked(0, POST_X));
  }

  /** The second connection may post to the stream that the first one feeds: both then feed it. */
  lemma TwoFeedsOfOneName() returns (events: seq<Event>, s: Sys)
    ensures Runs(Start(), events, s)
    ensures 0 in s.conns && 1 in s.conns && s.conns[0].url == s.conns[1].url
    ensures s.conns[0].state.ReceiveData? && s.conns[1].state.ReceiveData?
  {
    hide RouteOf, KeepsPost, FeedInv;
    XIsAStream();
    StartIsFine();
    events, s := OneFeed();
    RunsOn(Start(), events, s, Asked(1, POST_X));
    SecondFeedRefusedIff(s.conns, 1, Fresh().(post := true, url := STREAM_X));
    events, s := events + [Asked(1, POST_X)], Step(s, Asked(1, POST_X));
  }

  /** The second connection reads the stream and the first one breaks: the reader is left
      pointing at a closed feed. */
  lemma ReaderLeftBehind() returns (events: seq<Event>, s: Sys)
    ensures Runs(Start(), events, s)
    ensures 0 !in s.conns && 1 in s.conns && s.conns[1].feed == Some(0)
  {
    hide RouteOf, KeepsPost, FeedInv;
    XIsAStream();
    StartIsFine();
    events, s := OneFeed();
    RunsOn(Start(), events, s, Asked(1, GET_X));
    var k := Fresh().(url := STREAM_X);
    assert Feeds(s.conns[1 := k][0], STREAM_X) && !Feeds(s.conns[1 := k][1], STREAM_X);
    assert FindFeed(s.conns[1 := k], STREAM_X) == Some(0);
    events, s := events + [Asked(1, GET_X)], Step(s, Asked(1, GET_X));
    RunsOn(Start(), events, s, HangsUp(0));
    events, s := events + [HangsUp(0)], Step(s, HangsUp(0));
  }
}
