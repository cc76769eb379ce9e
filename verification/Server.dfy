/**
  The poll loop of ffserver.c as a transition system: any number of connections, scheduled in
  any order, receiving and sending any number of bytes at a time.
 */
module Server {
  import opened Bytes
  import opened Connections
  import opened HlsSlots
  import opened Text
  import opened Wrappers

  // ----------------------------------------------------------------- requests

  /** strrchr for a dot: its index, or -1. */
  function LastDot(s: string): (d: int)
    ensures -1 <= d < |s|
  {
    if s == [] then -1 else if s[|s| - 1] == '.' then |s| - 1 else LastDot(s[..|s| - 1])
  }

  function Lower(s: string): string {
    if s == "" then "" else [if 'A' <= s[0] <= 'Z' then s[0] - 'A' + 'a' else s[0]] + Lower(s[1..])
  }

  /** av_match_ext for one extension. */
  predicate HasExt(url: string, ext: string) {
    var d := LastDot(url);
    d >= 0 && Lower(url[d + 1..]) == ext
  }

  datatype Route = Stream | Segment(slot: nat) | Refused | Plain

  /** The longest base name of a segment, one less than the size of s_hls_name. */
  const MAX_BASE: nat := 31

  /** Which branch of http_parse_request a name takes; the slot of a .ts file is its last digit. */
  function RouteOf(url: string): (r: Route)
    ensures r.Segment? ==> r.slot <= S
  {
    var d := LastDot(url);
    if |url| >= 7 && url[..7] == "stream/" then Stream
    else if !HasExt(url, "m3u8") && !HasExt(url, "ts") then Plain
    else if d > MAX_BASE then Refused
    else if url[d..] == ".m3u8" then Segment(S)
    else if url[d..] == ".ts" && d > 0 && '0' <= url[d - 1] <= '9' then Segment((url[d - 1] - '0') as int)
    else Refused
  }

  function SlotOf(url: string): (i: Option<nat>)
    ensures i.Some? ==> i.value <= S
  {
    var r := RouteOf(url);
    if r.Segment? then Some(r.slot) else None
  }

  function LastDigit(n: nat): char { '0' + (n % 10) as char }

  function Decimal(n: nat): string { if n < 10 then [LastDigit(n)] else Decimal(n / 10) + [LastDigit(n)] }

  /** The text behind the last dot, when there is no dot in it. */
  lemma {:induction false} DotBefore(stem: string, ext: string)
    requires '.' !in ext
    ensures var url := stem + ("." + ext); LastDot(url) == |stem| && url[|stem| + 1..] == ext
    decreases |ext|
  {
    var url := stem + ("." + ext);
    if ext != "" {
      var front := ext[..|ext| - 1];
      DotBefore(stem, front);
      assert url[..|url| - 1] == stem + ("." + front);
    }
  }

  lemma {:induction false} LastDotIs(s: string)
    ensures LastDot(s) == -1 <==> '.' !in s
    ensures LastDot(s) >= 0 ==> s[LastDot(s)] == '.' && '.' !in s[LastDot(s) + 1..]
    decreases |s|
  {
    if s != "" && s[|s| - 1] != '.' {
      var front := s[..|s| - 1];
      LastDotIs(front);
      assert s == front + [s[|s| - 1]];
      var d := LastDot(front);
      if d >= 0 {
        assert s[d + 1..] == front[d + 1..] + [s[|s| - 1]];
      }
    }
  }

  lemma {:induction false} LowerIs(s: string)
    requires forall c <- s :: !('A' <= c <= 'Z')
    ensures Lower(s) == s
  {
    if s != "" {
      assert s[0] in s && forall c <- s[1..] :: c in s;
      LowerIs(s[1..]);
      assert s == [s[0]] + s[1..];
    }
  }

  /** A name ends in a dot and `ext`. */
  predicate EndsIn(url: string, ext: string) { |url| > |ext| && url[|url| - |ext| - 1..] == "." + ext }

  lemma EndsIff(url: string, ext: string)
    requires '.' !in ext
    ensures EndsIn(url, ext) <==> LastDot(url) >= 0 && url[LastDot(url)..] == "." + ext
    ensures EndsIn(url, ext) ==> LastDot(url) == |url| - |ext| - 1
  {
    LastDotIs(url);
    if EndsIn(url, ext) {
      var stem := url[..|url| - |ext| - 1];
      assert url == stem + ("." + ext);
      DotBefore(stem, ext);
    }
  }

  /** Which names take which slot: playlists slot 10, segments that of their last digit. */
  lemma SlotIff(url: string, i: nat)
    ensures RouteOf(url) == Segment(i) <==>
              && !("stream/" <= url)
              && ((i == 10 && |url| <= 36 && EndsIn(url, "m3u8"))
                  || (i < 10 && 4 <= |url| <= 34 && EndsIn(url, "ts") && url[|url| - 4] == '0' + i as char))
  {
    hide LastDot, Lower, EndsIn;
    LastDotIs(url);
    EndsIff(url, "m3u8");
    EndsIff(url, "ts");
    LowerIs("m3u8");
    LowerIs("ts");
    var d := LastDot(url);
    if d >= 0 {
      assert url[d + 1..] == url[d..][1..];
      assert "m3u8" == ".m3u8"[1..] && "ts" == ".ts"[1..];
      assert |url[d..]| == |url| - d;
    }
  }

  /** Segment n of a numbered upload goes to slot n modulo 10, whatever the base name: any ten
      successive segments have slots of their own. */
  lemma SegmentNumberPicksSlot(base: string, n: nat)
    requires |base + Decimal(n)| <= 31 && !("stream/" <= base + Decimal(n) + ".ts")
    ensures RouteOf(base + Decimal(n) + ".ts") == Segment(n % 10)
  {
    var stem := base + Decimal(n);
    assert stem != "" && stem[|stem| - 1] == LastDigit(n);
    assert (stem + ".ts")[|stem|..] == ".ts";
    SlotIff(stem + ".ts", n % 10);
  }

  /** A playlist goes to slot 10, whatever its base name. */
  lemma PlaylistPicksSlot(base: string)
    requires |base| <= 31 && !("stream/" <= base + ".m3u8")
    ensures RouteOf(base + ".m3u8") == Segment(10)
  {
    assert (base + ".m3u8")[|base|..] == ".m3u8";
    SlotIff(base + ".m3u8", 10);
  }

  predicate SameLetter(c: char, low: char) { c == low || ('a' <= low <= 'z' && c == low - 'a' + 'A') }

  /** Equal but for the case of letters; `low` has no capital one. */
  predicate SameLetters(s: string, low: string) {
    |s| == |low| && forall i :: 0 <= i < |s| ==> SameLetter(s[i], low[i])
  }

  lemma SameTail(s: string, low: string)
    requires s != "" && low != ""
    ensures SameLetters(s, low) <==> SameLetter(s[0], low[0]) && SameLetters(s[1..], low[1..])
  {
    hide SameLetter;
    if SameLetters(s[1..], low[1..]) {
      assert forall i :: 1 <= i < |s| ==> s[i] == s[1..][i - 1] && |s| == |low| && low[i] == low[1..][i - 1];
    }
    if SameLetters(s, low) {
      assert forall i :: 0 <= i < |s| - 1 ==> s[1..][i] == s[i + 1] && low[1..][i] == low[i + 1];
    }
  }

  lemma LowerLetter(c: char, low: char)
    requires !('A' <= low <= 'Z')
    ensures (if 'A' <= c <= 'Z' then c - 'A' + 'a' else c) == low <==> SameLetter(c, low)
  {}

  lemma LowerSplits(s: string)
    requires s != ""
    ensures var c := if 'A' <= s[0] <= 'Z' then s[0] - 'A' + 'a' else s[0];
            |Lower(s)| > 0 && Lower(s)[0] == c && Lower(s)[1..] == Lower(s[1..])
  {}

  lemma SameSplits(s: string, t: string)
    requires s != "" && t != ""
    ensures s == t <==> s[0] == t[0] && s[1..] == t[1..]
  {
    assert s == [s[0]] + s[1..] && t == [t[0]] + t[1..];
  }

  lemma {:induction false} LowerIff(s: string, low: string)
    requires forall i :: 0 <= i < |low| ==> !('A' <= low[i] <= 'Z')
    ensures Lower(s) == low <==> SameLetters(s, low)
    decreases |s|
  {
    hide SameLetters, SameLetter, Lower;
    if s != "" && low != "" {
      LowerIff(s[1..], low[1..]);
      SameTail(s, low);
      LowerLetter(s[0], low[0]);
      LowerSplits(s);
      SameSplits(Lower(s), low);
    } else {
      EmptyIsSame(s, low);
    }
  }

  lemma EmptyIsSame(s: string, low: string)
    requires s == "" || low == ""
    ensures SameLetters(s, low) <==> s == low
    ensures Lower(s) == low <==> s == low
  {}

  /** The text behind the last dot is `ext`, in any case of letters. */
  predicate Extension(url: string, ext: string) {
    exists d :: 0 <= d < |url| && url[d] == '.' && '.' !in url[d + 1..] && SameLetters(url[d + 1..], ext)
  }

  lemma ExtensionIff(url: string, ext: string)
    requires forall i :: 0 <= i < |ext| ==> !('A' <= ext[i] <= 'Z')
    ensures HasExt(url, ext) <==> Extension(url, ext)
  {
    hide LastDot, Lower, SameLetters;
    LastDotIs(url);
    forall d | 0 <= d < |url| && url[d] == '.' && '.' !in url[d + 1..]
      ensures d == LastDot(url)
    {
      DotBefore(url[..d], url[d + 1..]);
      assert url == url[..d] + ("." + url[d + 1..]);
    }
    if LastDot(url) >= 0 {
      LowerIff(url[LastDot(url) + 1..], ext);
    }
  }

  /** Refused are the names with the extension of a playlist or a segment, in any case of letters,
      that take no slot; names of streams are none of them. */
  lemma RefusedIff(url: string)
    ensures RouteOf(url).Stream? <==> "stream/" <= url
    ensures RouteOf(url).Refused? <==>
              && !("stream/" <= url) && (Extension(url, "m3u8") || Extension(url, "ts"))
              && forall i: nat :: RouteOf(url) != Segment(i)
  {
    hide HasExt, Extension, LastDot;
    ExtensionIff(url, "m3u8");
    ExtensionIff(url, "ts");
    assert RouteOf(url).Segment? ==> RouteOf(url) == Segment(RouteOf(url).slot);
  }

  /** A parsed request; `content`: it names a content length; `isFirst`: it lacks the cookie. */
  datatype Request = Request(post: bool, url: string, content: bool, isFirst: bool)

  /** A post with content to an ordinary name is handled as a get. */
  predicate KeepsPost(req: Request) {
    req.post && !(req.content && RouteOf(req.url).Plain? && !HasExt(req.url, "flv"))
  }

  /** A post is handled as one unless it has content and its name is neither a stream's nor has the
      extension of a playlist, a segment or a feed. */
  lemma KeepsPostIff(req: Request)
    ensures KeepsPost(req) <==>
              req.post && (!req.content || "stream/" <= req.url || Extension(req.url, "m3u8")
                           || Extension(req.url, "ts") || Extension(req.url, "flv"))
  {
    hide HasExt, Extension, LastDot;
    ExtensionIff(req.url, "m3u8");
    ExtensionIff(req.url, "ts");
    ExtensionIff(req.url, "flv");
  }

  /** strncmp over the base name, against the name last switched to. */
  predicate SameName(name: string, url: string) {
    var d := LastDot(url);
    d >= 0 ==> d <= |name| && name[..d] == url[..d]
  }

  // -------------------------------------------------------------------- state

  datatype Upload = Upload(slot: nat, data: seq<byte>)

  /** `finished` and `served` are history: the uploads that ended, and what was sent to the
      readers that the trailer state closed. */
  datatype Sys = Sys(conns: Conns, next: nat, slots: seq<Slot>, name: string,
                     finished: set<Upload>, served: set<Upload>)

  function EmptySlots(): (s: seq<Slot>)
    ensures |s| == S + 1 && forall i :: 0 <= i < |s| ==> s[i] == Slot([], 0)
  {
    seq(S + 1, _ => Slot([], 0))
  }

  function Start(): Sys { Sys(map[], 0, EmptySlots(), "", {}, {}) }

  // -------------------------------------------------------- one request parsed

  /** send_error. */
  function NotFound(k: Conn): Conn { k.(error := true, state := SendHeader) }

  /** The first reader of another playlist resets every slot. */
  predicate Switches(s: Sys, i: nat, req: Request) { req.isFirst && i == S && !SameName(s.name, req.url) }

  /** hls_parse_request for a writer. */
  function OpenUpload(s: Sys, c: nat, k: Conn, i: nat): Sys
    requires i < |s.slots|
  {
    s.(slots := s.slots[i := Slot([], 1)], conns := s.conns[c := k.(slot := Some(i), state := ReceiveData)])
  }

  /** hls_parse_request for a reader. */
  function OpenReader(s: Sys, c: nat, k: Conn, i: nat, req: Request): Sys {
    var k1 := k.(slot := Some(i), state := SendHeader);
    if Switches(s, i, req) then
      var d := LastDot(req.url);
      var k2 := if 0 <= Atoi(req.url) <= 10000 then k1 else NotFound(k1);
      s.(slots := EmptySlots(), name := if d < 0 then "" else req.url[..d], conns := s.conns[c := k2])
    else s.(conns := s.conns[c := k1])
  }

  /** A post to a feed, unless an earlier entry of the list posts to the same name. */
  ghost function OpenFeed(conns: Conns, c: nat, k: Conn): Conns {
    var found := FindFeed(conns[c := k], k.url);
    conns[c := if found.Some? && found.value != c then NotFound(k) else k.(state := ReceiveData)]
  }

  /** A get of a stream takes a reference to its feed, if there is one. */
  ghost function Join(conns: Conns, c: nat, k: Conn): Conns {
    var found := FindFeed(conns[c := k], k.url);
    var conns1 := if found.Some? && found.value in conns
                  then conns[found.value := conns[found.value].(refs := conns[found.value].refs + 1)] else conns;
    conns1[c := k.(feed := found, state := SendHeader)]
  }

  /** http_parse_request, for a name without a local file. */
  ghost function Handle(s: Sys, c: nat, req: Request): Sys
    requires c in s.conns && |s.slots| == S + 1
  {
    var k := s.conns[c].(post := KeepsPost(req), url := req.url);
    match RouteOf(req.url)
    case Segment(i) => if k.post then OpenUpload(s, c, k, i) else OpenReader(s, c, k, i, req)
    case Refused => s.(conns := s.conns[c := NotFound(k)])
    case Stream => s.(conns := if k.post then OpenFeed(s.conns, c, k) else Join(s.conns, c, k))
    case Plain => s.(conns := if k.post then OpenFeed(s.conns, c, k) else s.conns[c := NotFound(k)])
  }

  /** The first playlist reader of a base name that is no prefix of the current one empties all
      slots and makes its own name the current one; it is served unless the number it starts with
      is out of range. Any other playlist reader changes no slot and is served. */
  lemma PlaylistReader(s: Sys, c: nat, base: string, req: Request)
    requires c in s.conns && |s.slots| == S + 1 && !req.post
    requires req.url == base + ".m3u8" && |base| <= 31 && !("stream/" <= req.url)
    ensures var s', first := Handle(s, c, req), req.isFirst && !(base <= s.name);
            && s'.conns.Keys == s.conns.Keys && (forall r :: r in s.conns && r != c ==> s'.conns[r] == s.conns[r])
            && s'.conns[c].slot == Some(10) && s'.conns[c].state.SendHeader?
            && s'.slots == (if first then seq(11, _ => Slot([], 0)) else s.slots)
            && s'.name == (if first then base else s.name)
            && s'.conns[c].error == (s.conns[c].error || (first && !(0 <= Atoi(base + ".m3u8") <= 10000)))
  {
    hide RouteOf, HasExt, LastDot, SameName, Atoi;
    PlaylistPicksSlot(base);
    NamedIff(s.name, base);
    assert EmptySlots() == seq(11, _ => Slot([], 0));
  }

  lemma NamedIff(name: string, base: string)
    ensures var url := base + ".m3u8";
            LastDot(url) == |base| && url[..|base|] == base && (SameName(name, url) <==> base <= name)
  {
    DotBefore(base, "m3u8");
    var url := base + ".m3u8";
    hide LastDot;
    assert "." + "m3u8" == ".m3u8";
    assert LastDot(url) == |base|;
    assert url[..|base|] == base;
    assert base <= name <==> |base| <= |name| && name[..|base|] == base;
  }

  /** The number at the front of a name is read up to the first other character. */
  lemma {:induction false} NumberRead(n: nat, rest: string)
    requires rest == "" || !IsDigit(rest[0])
    ensures Atoi(Decimal(n) + rest) == n
  {
    DigitsRead(n, rest);
    assert IsDigit((Decimal(n) + rest)[0]) by { FirstDigit(n); }
  }

  lemma {:induction false} FirstDigit(n: nat)
    ensures |Decimal(n)| > 0 && IsDigit(Decimal(n)[0])
  {
    if n >= 10 {
      FirstDigit(n / 10);
    }
  }

  lemma {:induction false} DigitsRead(n: nat, rest: string)
    requires rest == "" || !IsDigit(rest[0])
    ensures DigitsValue(Decimal(n) + rest, 0) == n
  {
    DigitsFirst(n, rest);
    assert DigitsValue(rest, n) == n;
  }

  lemma {:induction false} DigitsFirst(n: nat, more: string)
    ensures DigitsValue(Decimal(n) + more, 0) == DigitsValue(more, n)
    decreases n
  {
    var last := [LastDigit(n)];
    assert (last + more)[1..] == more;
    if n >= 10 {
      assert Decimal(n) + more == Decimal(n / 10) + (last + more);
      DigitsFirst(n / 10, last + more);
    }
  }

  // ------------------------------------------------------------ the other events

  /** hls_write of bytes received, and the wake-up after it; a receive that would block brings none. */
  function Receive(s: Sys, c: nat, i: nat, bytes: seq<byte>): Sys
    requires c in s.conns && i < |s.slots|
  {
    var data := s.slots[i].data + bytes;
    var conns := s.conns[c := s.conns[c].(body := s.conns[c].body + bytes)];
    s.(slots := s.slots[i := s.slots[i].(data := data)], conns := if data != [] then Wake(conns, c,
        SendData) else conns)
  }

  /** A packet completed on a feed: a header, or data. */
  function ReceivePacket(conns: Conns, c: nat, kind: nat): Conns
    requires c in conns
  {
    if kind == 1 then Wake(conns, c, SendDataHeader) else if kind == 2 then Wake(conns, c, SendData) else conns
  }

  /** The end of what a connection sends: its segment is complete, its readers are woken to end. */
  function Finish(s: Sys, c: nat): Sys
    requires c in s.conns
  {
    var i := s.conns[c].slot;
    var s1 := if i.Some? && i.value < |s.slots|
              then s.(slots := s.slots[i.value := s.slots[i.value].(flag := 2)],
                      finished := s.finished + {Upload(i.value, s.slots[i.value].data)})
              else s;
    s1.(conns := Wake(s.conns, c, SendTrailer))
  }

  function Closed(s: Sys, c: nat): Sys
    requires c in s.conns
  {
    s.(conns := Close(s.conns, c))
  }

  /** The end of a body: a feed with readers stays, to be polled again. */
  function End(s: Sys, c: nat): Sys
    requires c in s.conns
  {
    var s1 := Finish(s, c);
    if s.conns[c].slot.Some? || s1.conns[c].refs <= 0 then Closed(s1, c) else s1
  }

  /** The response header went out. */
  function HeaderSent(s: Sys, c: nat): Sys
    requires c in s.conns
  {
    if s.conns[c].error then Closed(s, c)
    else s.(conns := s.conns[c := s.conns[c].(state := SendDataHeader, lo := 0, hi := 0)])
  }

  function SendSegment(s: Sys, c: nat, i: nat, socket: Socket): Sys
    requires c in s.conns && i < |s.slots|
  {
    var o := SendTurn(s.conns[c], s.slots[i], socket);
    var s1 := s.(conns := s.conns[c := o.conn]);
    if o.open then s1
    else Closed(s1, c).(served := if o.conn.state.SendTrailer? then s.served + {Upload(i, o.conn.body)} else s.served)
  }

  /** What sff_prepare_data and send make of a turn of a feed's reader. */
  datatype Next = Sleeps | Sends | Closes

  function SendPackets(s: Sys, c: nat, next: Next): Sys
    requires c in s.conns
  {
    if next.Closes? then Closed(s, c)
    else s.(conns := s.conns[c := s.conns[c].(state := if next.Sleeps? then WaitFeed else SendData)])
  }

  datatype Event =
    | Accepted
    | Asked(c: nat, req: Request)
    | HeaderOut(c: nat)
    | SegmentBytes(c: nat, bytes: seq<byte>)
    | FeedPacket(c: nat, kind: nat)
    | BodyEnds(c: nat)
    | HangsUp(c: nat)
    | SegmentTurn(c: nat, socket: Socket)
    | FeedTurn(c: nat, next: Next)
    | Fails(c: nat)

  predicate Enabled(s: Sys, e: Event) {
    if e.Accepted? then true
    else
      && e.c in s.conns
      && var k := s.conns[e.c];
         match e
         case Asked(_, _) => k.state.WaitRequest?
         case HeaderOut(_) => k.state.SendHeader?
         case SegmentBytes(_, _) => k.state.ReceiveData? && k.slot.Some?
         case FeedPacket(_, _) => k.state.ReceiveData? && k.slot.None?
         case BodyEnds(_) => k.state.ReceiveData?
         case HangsUp(_) => k.state.ReceiveData?
         case SegmentTurn(_, _) => Sending(k) && k.slot.Some?
         case FeedTurn(_, next) => Sending(k) && k.slot.None? && (k.state.SendTrailer? ==> next.Closes?)
         case Fails(_) => !k.state.ReceiveData?
  }

  predicate SlotsFit(s: Sys) {
    |s.slots| == S + 1 && forall c :: c in s.conns && s.conns[c].slot.Some? ==> s.conns[c].slot.value <= S
  }

  /** handle_connection and its caller. */
  ghost function Step(s: Sys, e: Event): Sys
    requires Enabled(s, e) && SlotsFit(s)
  {
    match e
    case Accepted => s.(conns := s.conns[s.next := Fresh()], next := s.next + 1)
    case Asked(c, req) => Handle(s, c, req)
    case HeaderOut(c) => HeaderSent(s, c)
    case SegmentBytes(c, bytes) => Receive(s, c, s.conns[c].slot.value, bytes)
    case FeedPacket(c, kind) => s.(conns := ReceivePacket(s.conns, c, kind))
    case BodyEnds(c) => End(s, c)
    case HangsUp(c) => Closed(Finish(s, c), c)
    case SegmentTurn(c, socket) => SendSegment(s, c, s.conns[c].slot.value, socket)
    case FeedTurn(c, next) => SendPackets(s, c, next)
    case Fails(c) => Closed(s, c)
  }

  // ------------------------------------------------------------------- the code

  method NoteBytes(list: seq<Context>, c: Context, bytes: seq<byte>, ghost conns: Conns)
    requires Represents(list, conns) && c in list && PointersById(list)
    modifies c
    ensures Represents(list, conns[c.id := conns[c.id].(body := conns[c.id].body + bytes)]) && PointersById(list)
    ensures c.state == old(c.state) && c.refs == old(c.refs) && c.hlsIdx == old(c.hlsIdx)
  {
    c.body := c.body + bytes;
  }

  lemma Listed(list: seq<Context>, c: Context, conns: Conns)
    requires Represents(list, conns) && c in list
    ensures c.id in conns && conns[c.id] == c.Val()
  {}

  /** The branch of http_receive_data for a segment that goes on. */
  method ReceiveSegment(list: seq<Context>, c: Context, h: Hls, bytes: seq<byte>, ghost conns: Conns)
    requires Represents(list, conns) && PointersById(list) && c in list && c.state.ReceiveData?
    requires h.Valid() && h.data != null
    modifies list, h, h.data
    ensures h.Valid() && h.Val() == old(h.Val()).(data := old(h.Val()).data + bytes) && PointersById(list)
    ensures var conns' := conns[c.id := conns[c.id].(body := conns[c.id].body + bytes)];
            Represents(list, if h.Val().data != [] then Wake(conns', c.id, SendData) else conns')
  {
    hide PointersById, Wake, Represents;
    Listed(list, c, conns);
    NoteBytes(list, c, bytes, conns);
    ghost var conns' := conns[c.id := conns[c.id].(body := conns[c.id].body + bytes)];
    if bytes != [] {
      var _ := h.Write(bytes);
    }
    assert h.Val().data == old(h.Val()).data + bytes;
    if h.csize > 0 {
      WakeOthers(list, c, SendData, conns');
    }
  }

  /** The end of a body in http_receive_data: whether the connection is closed now. */
  method EndBody(list: seq<Context>, c: Context, h: Hls?, ghost conns: Conns) returns (close: bool)
    requires Represents(list, conns) && PointersById(list) && c in list && c.state.ReceiveData?
    requires h != null ==> h.Valid()
    modifies list, h
    ensures Represents(list, Wake(conns, c.id, SendTrailer)) && PointersById(list)
    ensures h != null ==> h.Valid() && h.Val() == old(h.Val()).(flag := 2)
    ensures close == (h != null || Wake(conns, c.id, SendTrailer)[c.id].refs <= 0)
  {
    hide PointersById;
    if h != null {
      h.Finish();
    }
    WakeOthers(list, c, SendTrailer, conns);
    close := h != null || c.refs <= 0;
  }

  /** hls_close. */
  method CloseSlots(slots: array<Hls>)
    requires slots.Length == S + 1
    requires forall i :: 0 <= i < slots.Length ==> slots[i].Valid()
    requires forall i, j :: 0 <= i < j < slots.Length ==> slots[i] != slots[j]
    modifies slots[..]
    ensures forall i :: 0 <= i < slots.Length ==> slots[i].Valid() && slots[i].Val() == EmptySlots()[i]
  {
    var i := 0;
    while i <= S
      invariant 0 <= i <= S + 1
      invariant forall j :: 0 <= j < slots.Length ==> slots[j].Valid()
      invariant forall j :: 0 <= j < i ==> slots[j].Val() == Slot([], 0)
    {
      slots[i].Reset();
      i := i + 1;
    }
  }
}
