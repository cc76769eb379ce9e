/**
  HLS segments relayed by ffserver.c while they are uploaded: over any run, what a reader was
  sent is a prefix of what was uploaded, a sleeping reader has everything there is, and a
  reader closed at the end has the whole segment.
 */
module Relay {
  import opened Bytes
  import opened Text
  import opened Wrappers
  import opened Connections
  import opened HlsSlots
  import opened Server
  import opened FeedRefs

  predicate ReadsSlot(k: Conn) { !k.post && k.slot.Some? }

  predicate UploadsTo(k: Conn, i: nat) { k.state.ReceiveData? && k.slot == Some(i) }

  /** A reader is in step with its slot; an uploader is the source of all that is in its slot. */
  ghost predicate InStep(k: Conn, slots: seq<Slot>) {
    k.slot.Some? && k.slot.value < |slots| ==>
      var s := slots[k.slot.value];
      && (ReadsSlot(k) ==> ReaderInv(k, s))
      && (k.state.ReceiveData? ==> s.flag != 2 && k.body == s.data)
  }

  ghost predicate AllInStep(conns: Conns, slots: seq<Slot>) { forall c :: c in conns ==> InStep(conns[c], slots) }

  /** No slot has two uploaders. */
  ghost predicate OneEach(conns: Conns) {
    forall a, b, i: nat :: a in conns && b in conns && UploadsTo(conns[a], i) && UploadsTo(conns[b], i) ==> a == b
  }

  /** A complete slot holds a finished upload, and nothing else was served to the end. */
  ghost predicate HistoryInv(s: Sys) {
    && s.served <= s.finished
    && forall i :: 0 <= i < |s.slots| && s.slots[i].flag == 2 ==> Upload(i, s.slots[i].data) in s.finished
  }

  ghost predicate RelayInv(s: Sys) {
    FeedInv(s) && AllInStep(s.conns, s.slots) && OneEach(s.conns) && HistoryInv(s)
  }

  // ------------------------------------------------- what each operation keeps

  /** The part of a connection that relaying is about. */
  predicate SameReading(a: Conn, b: Conn) {
    a.post == b.post && a.slot == b.slot && a.rpos == b.rpos && a.lo == b.lo && a.hi == b.hi && a.body == b.body
  }

  lemma SameInStep(a: Conn, b: Conn, slots: seq<Slot>)
    requires SameReading(a, b) && a.state == b.state
    ensures InStep(a, slots) == InStep(b, slots)
  {}

  lemma CloseKeeps(conns: Conns, c: nat, slots: seq<Slot>)
    requires c in conns && forall r :: r in conns && r != c ==> InStep(conns[r], slots)
    ensures AllInStep(Close(conns, c), slots) && (OneEach(conns) ==> OneEach(Close(conns, c)))
  {
    hide InStep;
    var w := Close(conns, c);
    forall r | r in w
      ensures InStep(w[r], slots)
    {
      SameInStep(conns[r], w[r], slots);
    }
  }

  lemma PutKeepsStep(conns: Conns, c: nat, k: Conn, slots: seq<Slot>)
    requires AllInStep(conns, slots) && OneEach(conns) && c in conns && InStep(k, slots)
    requires k.state.ReceiveData? && k.slot.Some? ==> k.slot == conns[c].slot && conns[c].state.ReceiveData?
    ensures AllInStep(conns[c := k], slots) && OneEach(conns[c := k])
  {
    hide InStep;
  }

  /** A wake-up changes the state of the sleeping readers of the caller's slot, if it has one,
      and no other reader of a segment. */
  lemma WakeReading(conns: Conns, next: nat, c: nat, to: State, r: nat)
    requires NameInv(conns, next) && c in conns && r in conns && !conns[c].state.WaitFeed?
    ensures var k, w := conns[r], Wake(conns, c, to)[r];
            && SameReading(k, w)
            && (!k.state.WaitFeed? ==> w.state == k.state)
            && (k.slot.Some? && k.state.WaitFeed? ==> w.state == if k.slot == conns[c].slot then to else WaitFeed)
            && (k.slot.None? ==> w.state == k.state || w.state == to)
  {
    hide SlotOf;
    NamesGive(conns, next, c);
    NamesGive(conns, next, r);
  }

  lemma WakeOneEach(conns: Conns, next: nat, c: nat, to: State)
    requires NameInv(conns, next) && c in conns && !conns[c].state.WaitFeed? && OneEach(conns) && !to.ReceiveData?
    ensures OneEach(Wake(conns, c, to))
  {
    hide Wake, NameInv;
    var w := Wake(conns, c, to);
    forall r, i: nat | r in conns
      ensures UploadsTo(w[r], i) <==> UploadsTo(conns[r], i)
    {
      WakeReading(conns, next, c, to, r);
    }
  }

  /** A feed's wake-up does not touch the readers of segments. */
  lemma FeedWakeKeeps(conns: Conns, next: nat, c: nat, to: State, slots: seq<Slot>)
    requires NameInv(conns, next) && c in conns && !conns[c].state.WaitFeed? && conns[c].slot.None? && !to.ReceiveData?
    requires AllInStep(conns, slots) && OneEach(conns)
    ensures AllInStep(Wake(conns, c, to), slots) && OneEach(Wake(conns, c, to))
  {
    hide Wake, NameInv, OneEach;
    WakeOneEach(conns, next, c, to);
    var w := Wake(conns, c, to);
    forall r | r in w
      ensures InStep(w[r], slots)
    {
      WakeReading(conns, next, c, to, r);
      if conns[r].slot.Some? {
        SameInStep(conns[r], w[r], slots);
      }
    }
  }

  // ---------------------------------------------------------- bytes of a segment

  /** One connection when bytes arrive for slot `i`. */
  lemma ArrivalKeeps(k: Conn, w: Conn, slots: seq<Slot>, i: nat, bytes: seq<byte>)
    requires i < |slots| && InStep(k, slots) && slots[i].flag != 2 && !UploadsTo(k, i)
    requires SameReading(k, w) && (!k.state.WaitFeed? ==> w.state == k.state)
    requires k.slot.Some? && k.state.WaitFeed? ==> w.state == if k.slot == Some(i) then SendData else WaitFeed
    ensures InStep(w, slots[i := Slot(slots[i].data + bytes, slots[i].flag)])
  {
    if ReadsSlot(k) && k.slot.value == i {
      AppendKeepsInv(k, slots[i], bytes);
    }
  }

  lemma ReceiveKeepsRelay(s: Sys, c: nat, i: nat, bytes: seq<byte>)
    requires RelayInv(s) && c in s.conns && UploadsTo(s.conns[c], i) && i < |s.slots|
    ensures RelayInv(Receive(s, c, i, bytes))
  {
    hide NameInv, RefInv, OneEach, InStep, Wake, SlotOf;
    var k := s.conns[c];
    var k1 := k.(body := k.body + bytes);
    var conns := s.conns[c := k1];
    var data := s.slots[i].data + bytes;
    var slots := s.slots[i := s.slots[i].(data := data)];
    NamesGive(s.conns, s.next, c);
    PutKeepsNames(s.conns, s.next, c, k1);
    UploaderOf(k, s.slots, i);
    BodyKeepsOneEach(s.conns, c, k1);
    ReceiveKeeps(s, c, i, bytes);
    WakeOneEach(conns, s.next, c, SendData);
    var w := if data != [] then Wake(conns, c, SendData) else conns;
    forall r | r in w
      ensures InStep(w[r], slots)
    {
      WakeReading(conns, s.next, c, SendData, r);
      if r == c {
        UploaderInStep(w[c], slots, i);
      } else if data != [] {
        OtherUploads(s.conns, c, r, i);
        ArrivalKeeps(conns[r], w[r], s.slots, i, bytes);
      } else {
        assert slots == s.slots;
      }
    }
    assert HistoryInv(Receive(s, c, i, bytes));
  }

  lemma UploaderOf(k: Conn, slots: seq<Slot>, i: nat)
    requires InStep(k, slots) && UploadsTo(k, i) && i < |slots|
    ensures slots[i].flag != 2 && k.body == slots[i].data
  {}

  lemma UploaderInStep(k: Conn, slots: seq<Slot>, i: nat)
    requires UploadsTo(k, i) && k.post && i < |slots| && slots[i].flag != 2 && k.body == slots[i].data
    ensures InStep(k, slots)
  {}

  lemma OtherUploads(conns: Conns, c: nat, r: nat, i: nat)
    requires OneEach(conns) && c in conns && r in conns && r != c && UploadsTo(conns[c], i)
    ensures !UploadsTo(conns[r], i)
  {}

  lemma BodyKeepsOneEach(conns: Conns, c: nat, k: Conn)
    requires OneEach(conns) && c in conns && k.slot == conns[c].slot && k.state == conns[c].state
    ensures OneEach(conns[c := k])
  {}

  // ------------------------------------------------------- the end of an upload

  /** One connection when the upload to slot `i` ends. */
  lemma CompletionKeeps(k: Conn, w: Conn, slots: seq<Slot>, i: nat)
    requires i < |slots| && InStep(k, slots) && !UploadsTo(k, i)
    requires SameReading(k, w) && (!k.state.WaitFeed? ==> w.state == k.state)
    requires k.slot.Some? && k.state.WaitFeed? ==> w.state == if k.slot == Some(i) then SendTrailer else WaitFeed
    ensures InStep(w, slots[i := Slot(slots[i].data, 2)])
  {
    if ReadsSlot(k) && k.slot.value == i {
      FinishKeepsInv(k, slots[i]);
    }
  }

  /** After an upload ends everyone but the uploader is in step, which is closed. */
  lemma FinishSegment(s: Sys, c: nat, i: nat)
    requires RelayInv(s) && c in s.conns && UploadsTo(s.conns[c], i) && i < |s.slots|
    ensures RelayInv(Closed(Finish(s, c), c))
  {
    hide NameInv, RefInv, OneEach, InStep, Wake, SlotOf, Close;
    NamesGive(s.conns, s.next, c);
    FinishKeeps(s, c);
    CloseKeepsBoth(Finish(s, c).conns, s.next, c);
    WakeOneEach(s.conns, s.next, c, SendTrailer);
    var w := Wake(s.conns, c, SendTrailer);
    var slots := s.slots[i := Slot(s.slots[i].data, 2)];
    forall r | r in w && r != c
      ensures InStep(w[r], slots)
    {
      WakeReading(s.conns, s.next, c, SendTrailer, r);
      OtherUploads(s.conns, c, r, i);
      CompletionKeeps(s.conns[r], w[r], s.slots, i);
    }
    CloseKeeps(w, c, slots);
  }

  lemma FinishFeed(s: Sys, c: nat)
    requires RelayInv(s) && c in s.conns && s.conns[c].state.ReceiveData? && s.conns[c].slot.None?
    ensures RelayInv(Finish(s, c)) && RelayInv(Closed(Finish(s, c), c))
  {
    hide NameInv, RefInv, OneEach, InStep, Wake, SlotOf, Close;
    FinishKeeps(s, c);
    CloseKeepsBoth(Finish(s, c).conns, s.next, c);
    FeedWakeKeeps(s.conns, s.next, c, SendTrailer, s.slots);
    CloseKeeps(Finish(s, c).conns, c, s.slots);
  }

  lemma CloseKeepsRelay(s: Sys, c: nat)
    requires RelayInv(s) && c in s.conns
    ensures RelayInv(Closed(s, c))
  {
    hide NameInv, RefInv, OneEach, InStep, Close;
    CloseKeepsBoth(s.conns, s.next, c);
    CloseKeeps(s.conns, c, s.slots);
  }

  // ------------------------------------------------------------ a reader's turn

  lemma SegmentTurnKeeps(s: Sys, c: nat, i: nat, socket: Socket)
    requires RelayInv(s) && c in s.conns && Sending(s.conns[c]) && s.conns[c].slot == Some(i) && i < |s.slots|
    ensures RelayInv(SendSegment(s, c, i, socket))
  {
    hide NameInv, RefInv, OneEach, SendTurn, SlotOf, Close, ReaderInv;
    NamesGive(s.conns, s.next, c);
    SegmentKeeps(s, c, i, socket);
    var k := s.conns[c];
    TurnKeepsInv(k, s.slots[i], socket);
    TurnKeepsShape(k, s.slots[i], socket);
    var o := SendTurn(k, s.slots[i], socket);
    PutKeepsStep(s.conns, c, o.conn, s.slots);
    CloseKeeps(s.conns[c := o.conn], c, s.slots);
  }

  lemma TurnKeepsShape(k: Conn, s: Slot, socket: Socket)
    requires Sending(k)
    ensures var w := SendTurn(k, s, socket).conn; w.post == k.post && w.slot == k.slot && !w.state.ReceiveData?
  {}

  // ------------------------------------------------------------------- requests

  /** Nobody uploads to the slot, and whoever reads it has read nothing. */
  ghost predicate Quiet(conns: Conns, i: nat) {
    forall r :: r in conns && conns[r].slot == Some(i) ==>
      !conns[r].state.ReceiveData? && (!conns[r].post ==> Untouched(conns[r]))
  }

  /** Whoever uploads to the slot has sent nothing yet, and whoever reads it has read nothing. */
  ghost predicate Untaken(conns: Conns, i: nat) {
    forall r :: r in conns && conns[r].slot == Some(i) ==>
      && (conns[r].state.ReceiveData? ==> conns[r].body == [])
      && (!conns[r].post ==> Untouched(conns[r]))
  }

  lemma NewReader(k: Conn, slots: seq<Slot>)
    requires k.rpos == 0 && k.lo == 0 && k.hi == 0 && k.body == [] && k.state.SendHeader?
    ensures InStep(k, slots)
  {}

  lemma RestartKeeps(k: Conn, slots: seq<Slot>, slots': seq<Slot>)
    requires InStep(k, slots) && |slots| == |slots'| && (k.state.ReceiveData? ==> k.post)
    requires k.slot.Some? && k.slot.value < |slots| && slots'[k.slot.value] != slots[k.slot.value] ==>
               && (k.state.ReceiveData? ==> k.body == []) && (!k.post ==> Untouched(k))
               && slots'[k.slot.value].data == [] && slots'[k.slot.value].flag != 2
    ensures InStep(k, slots')
  {
    if ReadsSlot(k) && k.slot.value < |slots| && slots'[k.slot.value] != slots[k.slot.value] {
      StartOverIff(k, slots[k.slot.value], slots'[k.slot.value].flag);
    }
  }

  lemma OpenUploadKeeps(s: Sys, c: nat, k: Conn, i: nat)
    requires RelayInv(s) && c in s.conns && i < |s.slots| && Quiet(s.conns, i) && k.post && k.body == []
    requires FeedInv(OpenUpload(s, c, k, i))
    ensures RelayInv(OpenUpload(s, c, k, i))
  {
    hide NameInv, RefInv, InStep, SlotOf;
    var s' := OpenUpload(s, c, k, i);
    forall r | r in s'.conns
      ensures InStep(s'.conns[r], s'.slots)
    {
      if r == c {
        UploaderInStep(s'.conns[c], s'.slots, i);
      } else {
        NamesGive(s.conns, s.next, r);
        RestartKeeps(s.conns[r], s.slots, s'.slots);
      }
    }
  }

  lemma OpenReaderKeeps(s: Sys, c: nat, k: Conn, i: nat, req: Request)
    requires RelayInv(s) && c in s.conns && i < |s.slots|
    requires k == Fresh().(url := k.url)
    requires Switches(s, i, req) ==> forall j: nat :: j <= S ==> Untaken(s.conns, j)
    requires FeedInv(OpenReader(s, c, k, i, req))
    ensures RelayInv(OpenReader(s, c, k, i, req))
  {
    hide NameInv, RefInv, InStep, SlotOf, Switches, Atoi;
    var s' := OpenReader(s, c, k, i, req);
    forall r | r in s'.conns
      ensures InStep(s'.conns[r], s'.slots)
    {
      if r == c {
        NewReader(s'.conns[c], s'.slots);
      } else {
        NamesGive(s.conns, s.next, r);
        assert s.conns[r].slot.Some? && Switches(s, i, req) ==> Untaken(s.conns, s.conns[r].slot.value);
        RestartKeeps(s.conns[r], s.slots, s'.slots);
      }
    }
  }

  lemma NoSlotInStep(k: Conn, slots: seq<Slot>)
    requires k.slot.None?
    ensures InStep(k, slots)
  {}

  lemma OpenFeedKeeps(conns: Conns, c: nat, k: Conn, slots: seq<Slot>)
    requires AllInStep(conns, slots) && OneEach(conns) && c in conns && k.slot.None?
    ensures AllInStep(OpenFeed(conns, c, k), slots) && OneEach(OpenFeed(conns, c, k))
  {
    hide AllInStep, OneEach, InStep;
    NoSlotInStep(OpenFeed(conns, c, k)[c], slots);
    PutKeepsStep(conns, c, OpenFeed(conns, c, k)[c], slots);
  }

  lemma JoinKeepsStep(conns: Conns, c: nat, k: Conn, slots: seq<Slot>)
    requires AllInStep(conns, slots) && OneEach(conns) && c in conns && k.slot.None?
    ensures AllInStep(Join(conns, c, k), slots) && OneEach(Join(conns, c, k))
  {
    hide OneEach, InStep;
    var found := FindFeed(conns[c := k], k.url);
    NoSlotInStep(Join(conns, c, k)[c], slots);
    if found.Some? && found.value in conns {
      var f := found.value;
      var k1 := conns[f].(refs := conns[f].refs + 1);
      SameInStep(conns[f], k1, slots);
      PutKeepsStep(conns, f, k1, slots);
      PutKeepsStep(conns[f := k1], c, Join(conns, c, k)[c], slots);
    } else {
      PutKeepsStep(conns, c, Join(conns, c, k)[c], slots);
    }
  }

  /** A request starts slots over only when nobody is in the middle of them: an upload its own
      slot, a switch of playlists all slots. */
  ghost predicate StartsOverQuietly(s: Sys, req: Request) {
    var r := RouteOf(req.url);
    r.Segment? ==>
      && (KeepsPost(req) ==> Quiet(s.conns, r.slot))
      && (!KeepsPost(req) && Switches(s, r.slot, req) ==> forall j: nat :: j <= S ==> Untaken(s.conns, j))
  }

  lemma HandleKeepsRelay(s: Sys, c: nat, req: Request)
    requires RelayInv(s) && c in s.conns && s.conns[c].state.WaitRequest? && StartsOverQuietly(s, req)
    ensures RelayInv(Handle(s, c, req))
  {
    hide RouteOf, NameInv, RefInv, KeepsPost, Atoi, Switches, AllInStep, OneEach, Quiet, Untaken, OpenFeed, Join,
        OpenUpload, OpenReader;
    NamesGive(s.conns, s.next, c);
    HandleKeeps(s, c, req);
    var k := s.conns[c].(post := KeepsPost(req), url := req.url);
    match RouteOf(req.url)
    case Segment(i) =>
      if k.post {
        OpenUploadKeeps(s, c, k, i);
      } else {
        OpenReaderKeeps(s, c, k, i, req);
      }
    case _ =>
      OpenFeedKeeps(s.conns, c, k, s.slots);
      JoinKeepsStep(s.conns, c, k, s.slots);
      NoSlotInStep(NotFound(k), s.slots);
      PutKeepsStep(s.conns, c, NotFound(k), s.slots);
  }

  // ------------------------------------------------------------------ whole runs

  lemma AcceptKeepsRelay(s: Sys)
    requires RelayInv(s) && SlotsFit(s)
    ensures RelayInv(Step(s, Accepted))
  {
    hide NameInv, RefInv, InStep;
    AcceptKeeps(s);
    NoSlotInStep(Fresh(), s.slots);
    FreshIdIsNew(s.conns, s.next);
  }

  lemma FreshIdIsNew(conns: Conns, next: nat)
    requires NameInv(conns, next)
    ensures next !in conns
  {}

  lemma FeedPacketKeeps(s: Sys, c: nat, kind: nat)
    requires RelayInv(s) && SlotsFit(s) && Enabled(s, FeedPacket(c, kind))
    ensures RelayInv(Step(s, FeedPacket(c, kind)))
  {
    hide NameInv, RefInv, OneEach, InStep, Wake, AllInStep;
    OthersKeep(s, FeedPacket(c, kind));
    FeedWakeKeeps(s.conns, s.next, c, SendDataHeader, s.slots);
    FeedWakeKeeps(s.conns, s.next, c, SendData, s.slots);
  }

  lemma HeaderOutInStep(k: Conn, slots: seq<Slot>)
    requires InStep(k, slots) && k.state.SendHeader?
    ensures InStep(k.(state := SendDataHeader, lo := 0, hi := 0), slots)
  {}

  lemma HeaderOutKeeps(s: Sys, c: nat)
    requires RelayInv(s) && SlotsFit(s) && Enabled(s, HeaderOut(c))
    ensures RelayInv(Step(s, HeaderOut(c)))
  {
    hide NameInv, RefInv, OneEach, InStep, Close;
    OthersKeep(s, HeaderOut(c));
    if s.conns[c].error {
      CloseKeepsRelay(s, c);
    } else {
      HeaderOutInStep(s.conns[c], s.slots);
      PutKeepsStep(s.conns, c, HeaderSent(s, c).conns[c], s.slots);
    }
  }

  lemma FeedTurnKeeps(s: Sys, c: nat, next: Next)
    requires RelayInv(s) && SlotsFit(s) && Enabled(s, FeedTurn(c, next))
    ensures RelayInv(Step(s, FeedTurn(c, next)))
  {
    hide NameInv, RefInv, OneEach, InStep, Close;
    OthersKeep(s, FeedTurn(c, next));
    if next.Closes? {
      CloseKeepsRelay(s, c);
    } else {
      NoSlotInStep(SendPackets(s, c, next).conns[c], s.slots);
      PutKeepsStep(s.conns, c, SendPackets(s, c, next).conns[c], s.slots);
    }
  }

  /** No event but a request that starts over a slot in use breaks the relay. */
  lemma StepKeepsRelay(s: Sys, e: Event)
    requires RelayInv(s) && Enabled(s, e) && (e.Asked? ==> StartsOverQuietly(s, e.req))
    ensures SlotsFit(s) && RelayInv(Step(s, e))
  {
    hide Handle, Receive, Finish, SendSegment, Close, Wake, RelayInv, StartsOverQuietly;
    SlotsAlwaysFitRelay(s);
    match e
    case Accepted => AcceptKeepsRelay(s);
    case Asked(c, req) => HandleKeepsRelay(s, c, req);
    case HeaderOut(c) => HeaderOutKeeps(s, c);
    case SegmentBytes(c, bytes) => ReceiveKeepsRelay(s, c, s.conns[c].slot.value, bytes);
    case FeedPacket(c, kind) => FeedPacketKeeps(s, c, kind);
    case BodyEnds(c) => EndKeeps(s, c);
    case HangsUp(c) => EndKeeps(s, c);
    case SegmentTurn(c, socket) => SegmentTurnKeeps(s, c, s.conns[c].slot.value, socket);
    case FeedTurn(c, next) => FeedTurnKeeps(s, c, next);
    case Fails(c) => CloseKeepsRelay(s, c);
  }

  lemma SlotsAlwaysFitRelay(s: Sys)
    requires RelayInv(s)
    ensures SlotsFit(s)
  {
    SlotsAlwaysFit(s);
  }

  lemma EndKeeps(s: Sys, c: nat)
    requires RelayInv(s) && SlotsFit(s) && c in s.conns && s.conns[c].state.ReceiveData?
    ensures RelayInv(End(s, c)) && RelayInv(Closed(Finish(s, c), c))
  {
    hide Finish, RelayInv, Close;
    if s.conns[c].slot.Some? {
      FinishSegment(s, c, s.conns[c].slot.value);
    } else {
      FinishFeed(s, c);
    }
  }

  /** A run in which slots are started over only when nobody is in the middle of them. */
  ghost predicate RelayRuns(s: Sys, events: seq<Event>, s': Sys)
    decreases |events|
  {
    if events == [] then s' == s
    else
      && Enabled(s, events[0]) && SlotsFit(s) && (events[0].Asked? ==> StartsOverQuietly(s, events[0].req))
      && RelayRuns(Step(s, events[0]), events[1..], s')
  }

  lemma {:induction false} RunKeepsRelay(s: Sys, events: seq<Event>, s': Sys)
    requires RelayInv(s) && RelayRuns(s, events, s')
    ensures RelayInv(s')
    decreases |events|
  {
    if events != [] {
      StepKeepsRelay(s, events[0]);
      RunKeepsRelay(Step(s, events[0]), events[1..], s');
    }
  }

  lemma ReachableInStep(events: seq<Event>, s: Sys, r: nat)
    requires RelayRuns(Start(), events, s) && r in s.conns && s.conns[r].slot.Some?
    ensures |s.slots| == S + 1 && s.conns[r].slot.value <= S && InStep(s.conns[r], s.slots)
  {
    RunKeepsRelay(Start(), events, s);
    SlotsAlwaysFit(s);
  }

  /** What a reader was sent is a prefix of the segment, at every moment of every run. */
  lemma SentIsPrefix(events: seq<Event>, s: Sys, r: nat)
    requires RelayRuns(Start(), events, s) && r in s.conns && ReadsSlot(s.conns[r])
    ensures s.conns[r].slot.value < |s.slots| && s.conns[r].body <= s.slots[s.conns[r].slot.value].data
  {
    ReachableInStep(events, s, r);
  }

  /** A sleeping reader has been sent everything uploaded so far, and never sleeps on a
      segment that is complete. */
  lemma SleepersAreUpToDate(events: seq<Event>, s: Sys, r: nat)
    requires RelayRuns(Start(), events, s) && r in s.conns && ReadsSlot(s.conns[r]) && s.conns[r].state.WaitFeed?
    ensures s.conns[r].slot.value < |s.slots|
    ensures var slot := s.slots[s.conns[r].slot.value]; s.conns[r].body == slot.data && slot.flag != 2
  {
    ReachableInStep(events, s, r);
    var data := s.slots[s.conns[r].slot.value].data;
    assert data[..|data|] == data;
  }

  /** The slot an uploader fills holds what came from that uploader, and no other fills it;
      that is what goes on record as a finished upload. */
  lemma SlotIsTheUpload(events: seq<Event>, s: Sys, c: nat, i: nat)
    requires RelayRuns(Start(), events, s) && c in s.conns && UploadsTo(s.conns[c], i)
    ensures i < |s.slots| && s.slots[i].data == s.conns[c].body
    ensures forall r :: r in s.conns && UploadsTo(s.conns[r], i) ==> r == c
    ensures Finish(s, c).finished == s.finished + {Upload(i, s.conns[c].body)}
  {
    hide Wake;
    RunKeepsRelay(Start(), events, s);
    ReachableInStep(events, s, c);
  }

  /** Whatever was sent to a reader closed by the trailer state is the whole of an upload. */
  lemma ServedInFull(events: seq<Event>, s: Sys, u: Upload)
    requires RelayRuns(Start(), events, s) && u in s.served
    ensures u in s.finished
  {
    RunKeepsRelay(Start(), events, s);
  }

  /** A turn of a reader whose socket works closes it exactly when its segment is complete and
      was wholly sent, and then the record of what it was served is that segment. */
  lemma ReaderEndsInFull(events: seq<Event>, s: Sys, r: nat, socket: Socket)
    requires RelayRuns(Start(), events, s) && r in s.conns && !socket.Fails?
    requires Sending(s.conns[r]) && s.conns[r].slot.Some?
    ensures s.conns[r].slot.value < |s.slots|
    ensures var i := s.conns[r].slot.value;
            var s' := SendSegment(s, r, i, socket);
            && (r !in s'.conns <==> s.slots[i].flag == 2 && s.conns[r].body == s.slots[i].data)
            && (r !in s'.conns ==> s'.served == s.served + {Upload(i, s.slots[i].data)})
  {
    hide SendTurn, ReaderInv, NameInv, RefInv, OneEach, SlotOf;
    RunKeepsRelay(Start(), events, s);
    ReachableInStep(events, s, r);
    NamesGive(s.conns, s.next, r);
    TurnKeepsInv(s.conns[r], s.slots[s.conns[r].slot.value], socket);
    TurnKeepsShape(s.conns[r], s.slots[s.conns[r].slot.value], socket);
  }

  lemma BothInStep(k: Conn, slots: seq<Slot>, slots': seq<Slot>, i: nat)
    requires InStep(k, slots) && InStep(k, slots') && i < |slots| == |slots'| && k.slot == Some(i)
    requires slots'[i].data == [] && slots'[i].flag != 2
    ensures !k.post ==> Untouched(k)
    ensures k.state.ReceiveData? ==> k.body == []
  {
    if !k.post {
      StartOverIff(k, slots[i], slots'[i].flag);
    }
  }

  /** If the relay is kept, nobody but `c` was in the middle of slot `i` when it was started over. */
  lemma KeptMeansUntaken(s: Sys, s': Sys, c: nat, i: nat)
    requires RelayInv(s) && RelayInv(s') && i < |s.slots| == |s'.slots| && c in s.conns && s.conns[c].slot != Some(i)
    requires forall r :: r in s.conns && r != c ==> r in s'.conns && s'.conns[r] == s.conns[r]
    requires s'.slots[i].data == [] && s'.slots[i].flag != 2
    ensures Untaken(s.conns, i)
  {
    hide NameInv, RefInv, InStep, OneEach;
    forall r | r in s.conns && s.conns[r].slot == Some(i)
      ensures (s.conns[r].state.ReceiveData? ==> s.conns[r].body == []) && (!s.conns[r].post ==> Untouched(s.conns[r]))
    {
      assert s'.conns[r] == s.conns[r];
      BothInStep(s.conns[r], s.slots, s'.slots, i);
    }
  }

  lemma OpenReaderMeansUntaken(s: Sys, c: nat, k: Conn, i: nat, req: Request)
    requires RelayInv(s) && c in s.conns && s.conns[c].slot.None? && Switches(s, i, req)
    requires RelayInv(OpenReader(s, c, k, i, req))
    ensures forall j: nat :: j <= S ==> Untaken(s.conns, j)
  {
    hide NameInv, RefInv, AllInStep, OneEach, Untaken, Switches, Atoi, HistoryInv;
    forall j: nat | j <= S
      ensures Untaken(s.conns, j)
    {
      KeptMeansUntaken(s, OpenReader(s, c, k, i, req), c, j);
    }
  }

  lemma OpenUploadMeansQuiet(s: Sys, c: nat, k: Conn, i: nat)
    requires RelayInv(s) && c in s.conns && s.conns[c].slot.None? && i < |s.slots|
    requires RelayInv(OpenUpload(s, c, k, i))
    ensures Quiet(s.conns, i)
  {
    hide NameInv, RefInv, AllInStep, OneEach, HistoryInv;
    var s' := OpenUpload(s, c, k, i);
    KeptMeansUntaken(s, s', c, i);
    forall r | r in s.conns && s.conns[r].slot == Some(i)
      ensures !s.conns[r].state.ReceiveData?
    {
      assert s'.conns[r] == s.conns[r];
      OtherUploads(s'.conns, c, r, i);
    }
  }

  /** A request keeps the relay exactly when nobody is in the middle of a slot it starts over: a
      second upload breaks an upload still going on, a switch of playlists one that has sent
      something, and both break every reader that has read something or is about to end. */
  lemma RequestKeepsRelayIff(s: Sys, c: nat, req: Request)
    requires RelayInv(s) && c in s.conns && s.conns[c].state.WaitRequest?
    ensures RelayInv(Handle(s, c, req)) <==> StartsOverQuietly(s, req)
  {
    hide RouteOf, NameInv, RefInv, KeepsPost, AllInStep, OneEach, SlotOf, Quiet, Untaken, HistoryInv, OpenUpload,
        OpenReader;
    NamesGive(s.conns, s.next, c);
    if StartsOverQuietly(s, req) {
      HandleKeepsRelay(s, c, req);
    } else if RelayInv(Handle(s, c, req)) {
      var k := s.conns[c].(post := KeepsPost(req), url := req.url);
      if KeepsPost(req) {
        OpenUploadMeansQuiet(s, c, k, RouteOf(req.url).slot);
      } else {
        OpenReaderMeansUntaken(s, c, k, RouteOf(req.url).slot, req);
      }
    }
  }

  // ------------------------------------------------------------ one such run

  lemma StartIsInStep()
    ensures RelayInv(Start())
  {
    StartIsFine();
  }

  lemma {:induction false} RelayRunsOn(s: Sys, events: seq<Event>, s': Sys, e: Event)
    requires RelayInv(s) && RelayRuns(s, events, s') && Enabled(s', e)
    requires e.Asked? ==> StartsOverQuietly(s', e.req)
    ensures SlotsFit(s') && RelayRuns(s, events + [e], Step(s', e))
    decreases |events|
  {
    hide Step, RelayInv, StartsOverQuietly;
    if events == [] {
      SlotsAlwaysFitRelay(s);
      assert ([] + [e])[1..] == [];
    } else {
      StepKeepsRelay(s, events[0]);
      RelayRunsOn(Step(s, events[0]), events[1..], s', e);
      assert (events + [e])[1..] == events[1..] + [e];
    }
  }

  const SEGMENT_0: string := "0.ts"
  const POST_0: Request := Request(true, SEGMENT_0, false, false)
  const GET_0: Request := Request(false, SEGMENT_0, false, false)

  lemma SegmentZero()
    ensures RouteOf(SEGMENT_0) == Segment(0) && KeepsPost(POST_0) && !KeepsPost(GET_0)
  {
    assert Decimal(0) == "0" && "" + Decimal(0) == "0" && "0" + ".ts" == SEGMENT_0;
    SegmentNumberPicksSlot("", 0);
  }

  function Uploader(body: seq<byte>): Conn {
    Fresh().(post := true, url := SEGMENT_0, slot := Some(0), state := ReceiveData, body := body)
  }

  function Reader(state: State): Conn { Fresh().(url := SEGMENT_0, slot := Some(0), state := state) }

  /** An uploader of slot 0, a reader of it, and a third connection. */
  lemma UploadAndReader() returns (events: seq<Event>, s: Sys)
    ensures RelayRuns(Start(), events, s)
    ensures s.conns == map[0 := Uploader([]), 1 := Reader(SendHeader), 2 := Fresh()]
    ensures |s.slots| == S + 1 && s.slots[0] == Slot([], 1)
  {
    hide RouteOf, KeepsPost, RelayInv;
    SegmentZero();
    StartIsInStep();
    events, s := [], Start();
    RelayRunsOn(Start(), events, s, Accepted);
    events, s := events + [Accepted], Step(s, Accepted);
    RelayRunsOn(Start(), events, s, Accepted);
    events, s := events + [Accepted], Step(s, Accepted);
    RelayRunsOn(Start(), events, s, Accepted);
    events, s := events + [Accepted], Step(s, Accepted);
    assert s.conns == map[0 := Fresh(), 1 := Fresh(), 2 := Fresh()];
    RelayRunsOn(Start(), events, s, Asked(0, POST_0));
    events, s := events + [Asked(0, POST_0)], Step(s, Asked(0, POST_0));
    assert s.conns == map[0 := Uploader([]), 1 := Fresh(), 2 := Fresh()];
    RelayRunsOn(Start(), events, s, Asked(1, GET_0));
    events, s := events + [Asked(1, GET_0)], Step(s, Asked(1, GET_0));
  }

  /** The reader has its response header. */
  lemma HeaderThrough() returns (events: seq<Event>, s: Sys)
    ensures RelayRuns(Start(), events, s)
    ensures s.conns == map[0 := Uploader([]), 1 := Reader(SendDataHeader), 2 := Fresh()]
    ensures |s.slots| == S + 1 && s.slots[0] == Slot([], 1)
  {
    hide RelayInv;
    StartIsInStep();
    events, s := UploadAndReader();
    RelayRunsOn(Start(), events, s, HeaderOut(1));
    events, s := events + [HeaderOut(1)], Step(s, HeaderOut(1));
  }

  /** A byte has come from the uploader. */
  lemma OneByteIn() returns (events: seq<Event>, s: Sys)
    ensures RelayRuns(Start(), events, s)
    ensures s.conns == map[0 := Uploader([7]), 1 := Reader(SendDataHeader), 2 := Fresh()]
    ensures |s.slots| == S + 1 && s.slots[0] == Slot([7], 1)
  {
    hide RelayInv, Wake;
    StartIsInStep();
    events, s := HeaderThrough();
    RelayRunsOn(Start(), events, s, SegmentBytes(0, [7]));
    NobodySleeps(s.conns, 0, [7]);
    assert [] + [7] == [7];
    events, s := events + [SegmentBytes(0, [7])], Step(s, SegmentBytes(0, [7]));
  }

  /** And it has gone on to the reader. */
  lemma OneByteThrough() returns (events: seq<Event>, s: Sys)
    ensures RelayRuns(Start(), events, s)
    ensures s.conns.Keys == {0, 1, 2} && s.conns[0] == Uploader([7]) && s.conns[2] == Fresh()
    ensures ReadsSlot(s.conns[1]) && s.conns[1].slot == Some(0) && s.conns[1].body == [7] && s.conns[1].rpos == 1
    ensures |s.slots| == S + 1 && s.slots[0] == Slot([7], 1)
  {
    hide RelayInv;
    StartIsInStep();
    events, s := OneByteIn();
    RelayRunsOn(Start(), events, s, SegmentTurn(1, Takes(1)));
    events, s := events + [SegmentTurn(1, Takes(1))], Step(s, SegmentTurn(1, Takes(1)));
  }

  lemma NobodySleeps(conns: Conns, c: nat, bytes: seq<byte>)
    requires c in conns && forall r :: r in conns ==> !conns[r].state.WaitFeed?
    ensures var k := conns[c].(body := conns[c].body + bytes); Wake(conns[c := k], c, SendData) == conns[c := k]
  {
    var after := conns[c := conns[c].(body := conns[c].body + bytes)];
    forall r | r in after
      ensures !after[r].state.WaitFeed? && Wake(after, c, SendData)[r] == after[r]
    {
      assert r == c || after[r] == conns[r];
      assert Attached(after, c) == {};
    }
  }

  /** Then the third connection posts the same segment: what the reader was sent is no prefix of
      the slot any more, and two connections upload to it. */
  lemma SecondUploadBreaksReader() returns (events: seq<Event>, s: Sys)
    ensures RelayRuns(Start(), events, s) && Enabled(s, Asked(2, POST_0)) && SlotsFit(s)
    ensures var s' := Step(s, Asked(2, POST_0));
            && 0 in s'.conns && 1 in s'.conns && 2 in s'.conns && |s'.slots| == S + 1
            && ReadsSlot(s'.conns[1]) && s'.conns[1].slot == Some(0) && !(s'.conns[1].body <= s'.slots[0].data)
            && UploadsTo(s'.conns[0], 0) && UploadsTo(s'.conns[2], 0)
  {
    hide RouteOf, KeepsPost;
    SegmentZero();
    events, s := OneByteThrough();
    StartIsInStep();
    RunKeepsRelay(Start(), events, s);
    SlotsAlwaysFitRelay(s);
  }

  /** The reader of an empty slot goes to sleep, and then its upload ends: the reader is attached
      to a connection that is closed at once. */
  lemma UploadEndLeavesReader() returns (events: seq<Event>, s: Sys)
    ensures RelayRuns(Start(), events, s)
    ensures 0 !in s.conns && 1 in s.conns && s.conns[1].feed == Some(0)
  {
    hide RelayInv;
    StartIsInStep();
    events, s := HeaderThrough();
    RelayRunsOn(Start(), events, s, SegmentTurn(1, Blocks));
    events, s := events + [SegmentTurn(1, Blocks)], Step(s, SegmentTurn(1, Blocks));
    assert s.conns == map[0 := Uploader([]), 1 := Reader(WaitFeed), 2 := Fresh()];
    RelayRunsOn(Start(), events, s, BodyEnds(0));
    events, s := events + [BodyEnds(0)], Step(s, BodyEnds(0));
  }
}
