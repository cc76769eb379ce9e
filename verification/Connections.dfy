/**
  The connections of ffserver.c and the three loops over their list: waking the readers of a
  feed, finding a feed by name, and unlinking a connection.

  A connection is known by a number that is never used again, higher for later ones; the list
  holds the latest first.
 */
module Connections {
  import opened Bytes
  import opened Wrappers

  /** HTTPState; no code path sets its HTTPSTATE_CLOSE. */
  datatype State = WaitRequest | SendHeader | SendDataHeader | SendData | SendTrailer | ReceiveData | WaitFeed

  /** HTTPContext. `slot` is hls_idx when that is not -1; the bytes between buffer_ptr and
      buffer_end are `lo..hi` of the slot; `body` is what went to the socket, or, for an
      uploader, came from it. */
  datatype Conn = Conn(state: State, post: bool, url: string, error: bool, slot: Option<nat>,
                       rpos: nat, lo: nat, hi: nat, body: seq<byte>, feed: Option<nat>, refs: int)

  type Conns = map<nat, Conn>

  // ------------------------------------------------------------- waking readers

  /** Readers that came before their feed are attached to it when it first wakes them. */
  predicate Attaches(k: Conn, r: Conn) { r.state.WaitFeed? && r.feed.None? && !r.post && r.url == k.url }

  /** Whom `c`, whose context is `k`, wakes: sleepers on its packets or on its segment. */
  predicate Wakes(c: nat, k: Conn, r: Conn) {
    && r.state.WaitFeed?
    && (Attaches(k, r) || r.feed == Some(c) || (k.slot.Some? && k.slot == r.slot))
  }

  function WakeOne(c: nat, k: Conn, r: Conn, to: State): Conn {
    r.(feed := if Attaches(k, r) then Some(c) else r.feed, state := if Wakes(c, k, r) then to else r.state)
  }

  function Attached(conns: Conns, c: nat): set<nat>
    requires c in conns
  {
    set r | r in conns && Attaches(conns[c], conns[r])
  }

  /** wake_others. */
  function Wake(conns: Conns, c: nat, to: State): (w: Conns)
    requires c in conns
    ensures w.Keys == conns.Keys
  {
    map r | r in conns :: var r' := WakeOne(c, conns[c], conns[r], to);
                          if r == c then r'.(refs := r'.refs + |Attached(conns, c)|) else r'
  }

  // ------------------------------------------------------------------- feeds

  /** The readers that point at a feed. */
  function Readers(conns: Conns, f: nat): set<nat> { set r | r in conns && conns[r].feed == Some(f) }

  predicate Feeds(k: Conn, name: string) { k.post && k.url == name }

  /** find_feed: the latest connection that posts to this name. */
  ghost predicate Finds(conns: Conns, name: string, found: Option<nat>) {
    if found.Some? then
      && found.value in conns && Feeds(conns[found.value], name)
      && forall r :: r in conns && Feeds(conns[r], name) ==> r <= found.value
    else
      forall r :: r in conns ==> !Feeds(conns[r], name)
  }

  lemma {:induction false} HasMax(s: set<nat>)
    requires s != {}
    ensures exists m :: m in s && forall x :: x in s ==> x <= m
    decreases s
  {
    var y :| y in s;
    var above := set x | x in s && x > y;
    assert forall x :: x in s ==> x <= y || x in above;
    if above == {} {
      assert forall x :: x in s ==> x <= y;
    } else {
      assert y !in above;
      HasMax(above);
      var m :| m in above && forall x :: x in above ==> x <= m;
      assert m in s && forall x :: x in s ==> x <= m;
    }
  }

  ghost function FindFeed(conns: Conns, name: string): (found: Option<nat>)
    ensures Finds(conns, name, found)
  {
    var feeding := set r | r in conns && Feeds(conns[r], name);
    assert forall r :: r in conns && Feeds(conns[r], name) ==> r in feeding;
    if feeding == {} then None
    else
      HasMax(feeding);
      var m :| m in feeding && forall x :: x in feeding ==> x <= m;
      Some(m)
  }

  // ------------------------------------------------------------------ closing

  /** sff_reset: a reader gives up its reference, if the feed is still open. */
  function Release(conns: Conns, feed: Option<nat>): Conns {
    if feed.Some? && feed.value in conns
    then conns[feed.value := conns[feed.value].(refs := conns[feed.value].refs - 1)] else conns
  }

  /** close_connection. */
  function Close(conns: Conns, c: nat): Conns
    requires c in conns
  {
    if conns[c].post then conns - {c} else Release(conns - {c}, conns[c].feed)
  }

  // ------------------------------------------------------------------- the code

  /** A connection as the server's loops update it. */
  class Context {
    const id: nat
    var state: State
    var post: bool
    var url: string
    var error: bool
    var hlsIdx: int
    var rpos: nat
    var lo: nat
    var hi: nat
    var body: seq<byte>
    var feed: Context?
    var refs: int

    constructor (id: nat)
      ensures this.id == id && Val() == Fresh()
    {
      this.id := id;
      state, post, url, error, hlsIdx := WaitRequest, false, "", false, -1;
      rpos, lo, hi, body, feed, refs := 0, 0, 0, [], null, 0;
    }

    function Val(): Conn
      reads this
    {
      Conn(state, post, url, error, if hlsIdx >= 0 then Some(hlsIdx) else None, rpos, lo, hi, body,
           if feed == null then None else Some(feed.id), refs)
    }
  }

  /** A connection just accepted. */
  function Fresh(): Conn { Conn(WaitRequest, false, "", false, None, 0, 0, 0, [], None, 0) }

  /** The list is latest first. */
  predicate Ordered(list: seq<Context>) { forall i, j :: 0 <= i < j < |list| ==> list[i].id > list[j].id }

  predicate Within(list: seq<Context>, conns: Conns) { forall i :: 0 <= i < |list| ==> list[i].id in conns }

  ghost predicate Covers(list: seq<Context>, conns: Conns) {
    Within(list, conns) && forall r :: r in conns ==> exists i :: 0 <= i < |list| && list[i].id == r
  }

  /** The list holds these connections. */
  ghost predicate Represents(list: seq<Context>, conns: Conns)
    reads list
  {
    Ordered(list) && Covers(list, conns) && forall i :: 0 <= i < |list| ==> list[i].Val() == conns[list[i].id]
  }

  /** A pointer to an id of the list is a pointer into the list. */
  ghost predicate PointersById(list: seq<Context>)
    reads list
  {
    forall i, j :: 0 <= i < |list| && 0 <= j < |list| && list[i].feed != null && list[i].feed.id == list[j].id ==>
      list[i].feed == list[j]
  }

  /** The turn of wake_others for the connection `c2`; `k` is `c` before the first turn. */
  method WakeContext(c2: Context, c: Context, to: State, ghost k: Conn)
    requires c.Val() == k.(refs := c.refs) && !k.state.WaitFeed?
    requires c2.feed != null && c2.feed.id == c.id ==> c2.feed == c
    modifies c2, c
    ensures c.Val() == k.(refs := c.refs) && c.feed == old(c.feed)
    ensures c2 != c ==> c2.Val() == WakeOne(c.id, k, old(c2.Val()), to)
    ensures c2.feed == old(c2.feed) || c2.feed == c
    ensures c.refs == old(c.refs) + if c2 != c && Attaches(k, old(c2.Val())) then 1 else 0
  {
    if c2.state == WaitFeed {
      if c2.feed == null && !c2.post && c2.url == c.url {
        c2.feed := c;
        c.refs := c.refs + 1;
      }
      if c2.feed == c {
        c2.state := to;
      }
      if c.hlsIdx >= 0 && c.hlsIdx == c2.hlsIdx {
        c2.state := to;
      }
    }
  }

  /** Where the loop of wake_others is after `i` turns. */
  ghost predicate Woken(list: seq<Context>, i: nat, c: Context, to: State, k: Conn, conns: Conns)
    requires Within(list, conns)
    reads list
  {
    forall j :: 0 <= j < |list| && list[j] != c ==>
      list[j].Val() == if j < i then WakeOne(c.id, k, conns[list[j].id], to) else conns[list[j].id]
  }

  /** The readers attached in the first `i` turns. */
  ghost predicate CountsAttached(list: seq<Context>, i: nat, k: Conn, conns: Conns, s: set<nat>)
    requires Within(list, conns)
  {
    && (forall j :: 0 <= j < i && j < |list| && Attaches(k, conns[list[j].id]) ==> list[j].id in s)
    && (forall r :: r in s ==> r in conns && Attaches(k, conns[r]))
    && (forall j :: i <= j < |list| ==> list[j].id !in s)
  }

  lemma AllAttached(list: seq<Context>, c: nat, conns: Conns, s: set<nat>)
    requires Covers(list, conns) && c in conns && CountsAttached(list, |list|, conns[c], conns, s)
    ensures s == Attached(conns, c)
  {}

  /** The set of attached readers after one more turn. */
  ghost function Count(s: set<nat>, k: Conn, r: nat, v: Conn): set<nat> { if Attaches(k, v) then s + {r} else s }

  lemma CountsOneMore(list: seq<Context>, i: nat, k: Conn, conns: Conns, s: set<nat>)
    requires Within(list, conns) && Ordered(list) && i < |list| && CountsAttached(list, i, k, conns, s)
    ensures var s' := Count(s, k, list[i].id, conns[list[i].id]);
            && CountsAttached(list, i + 1, k, conns, s')
            && |s'| == |s| + if Attaches(k, conns[list[i].id]) then 1 else 0
  {
    hide Attaches;
    assert forall j :: i < j < |list| ==> list[j].id != list[i].id;
  }

  lemma AwakeUnchanged(c: nat, k: Conn, r: Conn, to: State)
    requires !r.state.WaitFeed?
    ensures WakeOne(c, k, r, to) == r && !Attaches(k, r)
  {}

  lemma NoneWoken(list: seq<Context>, c: Context, to: State, conns: Conns)
    requires Represents(list, conns) && c in list
    ensures Woken(list, 0, c, to, conns[c.id], conns) && CountsAttached(list, 0, conns[c.id], conns, {})
  {}

  lemma AllWoken(list: seq<Context>, c: Context, to: State, k: Conn, conns: Conns)
    requires c in list && Ordered(list) && Covers(list, conns) && k == conns[c.id] && !k.state.WaitFeed?
    requires c.Val() == k.(refs := k.refs + |Attached(conns, c.id)|)
    requires Woken(list, |list|, c, to, k, conns)
    ensures Represents(list, Wake(conns, c.id, to))
  {
    hide Attaches, WakeOne;
    AwakeUnchanged(c.id, k, k, to);
  }

  /** One turn, in the list. */
  method WakeTurn(list: seq<Context>, i: nat, c: Context, to: State, ghost k: Conn, ghost conns: Conns)
    requires i < |list| && c in list && Ordered(list) && Within(list, conns) && !k.state.WaitFeed? && PointersById(list)
    requires Woken(list, i, c, to, k, conns) && c.Val() == k.(refs := c.refs)
    modifies list[i], c
    ensures Woken(list, i + 1, c, to, k, conns) && c.Val() == k.(refs := c.refs) && PointersById(list)
    ensures c.refs == old(c.refs) + if list[i] != c && Attaches(k, conns[list[i].id]) then 1 else 0
  {
    hide WakeOne, Attaches;
    WakeContext(list[i], c, to, k);
  }

  /** wake_others. */
  method WakeOthers(list: seq<Context>, c: Context, to: State, ghost conns: Conns)
    requires Represents(list, conns) && PointersById(list) && c in list && !c.state.WaitFeed?
    modifies list
    ensures Represents(list, Wake(conns, c.id, to)) && PointersById(list)
  {
    hide WakeOne, Attaches, Woken, Wake, PointersById, CountsAttached, Count;
    ghost var k, s := c.Val(), {};
    assert conns[c.id] == k;
    var i := 0;
    NoneWoken(list, c, to, conns);
    while i < |list|
      invariant 0 <= i <= |list| && PointersById(list)
      invariant Woken(list, i, c, to, k, conns)
      invariant CountsAttached(list, i, k, conns, s)
      invariant c.Val() == k.(refs := c.refs) && c.refs == k.refs + |s|
    {
      CountsOneMore(list, i, k, conns, s);
      s := Count(s, k, list[i].id, conns[list[i].id]);
      AwakeUnchanged(c.id, k, k, to);
      WakeTurn(list, i, c, to, k, conns);
      i := i + 1;
    }
    AllAttached(list, c.id, conns, s);
    AllWoken(list, c, to, k, conns);
  }

  /** find_feed. */
  method Find(list: seq<Context>, name: string, ghost conns: Conns) returns (found: Context?)
    requires Represents(list, conns)
    ensures found != null ==> found in list
    ensures FindFeed(conns, name) == if found == null then None else Some(found.id)
  {
    var i := 0;
    while i < |list|
      invariant 0 <= i <= |list|
      invariant forall j :: 0 <= j < i ==> !Feeds(conns[list[j].id], name)
    {
      if list[i].post && list[i].url == name {
        return list[i];
      }
      i := i + 1;
    }
    found := null;
  }

  /** `rest` is the list up to `i` without `c`. */
  ghost predicate Kept(rest: seq<Context>, list: seq<Context>, i: nat, c: Context) {
    && (forall a :: 0 <= a < |rest| ==> rest[a] in list && rest[a].id != c.id)
    && (forall j :: 0 <= j < i && j < |list| && list[j] != c ==> list[j] in rest)
  }

  lemma KeepsOneMore(rest: seq<Context>, list: seq<Context>, i: nat, c: Context)
    requires i < |list| && Kept(rest, list, i, c) && (list[i] == c || list[i].id != c.id)
    ensures Kept(if list[i] == c then rest else rest + [list[i]], list, i + 1, c)
  {}

  lemma AppendOrdered(rest: seq<Context>, x: Context)
    requires Ordered(rest) && forall a :: 0 <= a < |rest| ==> rest[a].id > x.id
    ensures Ordered(rest + [x])
  {}

  lemma KeptCovers(rest: seq<Context>, list: seq<Context>, c: Context, conns: Conns)
    requires Covers(list, conns) && Kept(rest, list, |list|, c)
    ensures Covers(rest, conns - {c.id})
  {
    forall r | r in conns - {c.id}
      ensures exists a :: 0 <= a < |rest| && rest[a].id == r
    {
      var i :| 0 <= i < |list| && list[i].id == r;
      assert list[i] in rest;
    }
  }

  lemma OnlyOne(list: seq<Context>, c: Context)
    requires Ordered(list) && c in list
    ensures forall i :: 0 <= i < |list| ==> list[i] == c || list[i].id != c.id
  {}

  /** The loop of close_connection. */
  method Unlink(list: seq<Context>, c: Context, ghost conns: Conns) returns (rest: seq<Context>)
    requires Ordered(list) && Covers(list, conns) && c in list
    ensures Ordered(rest) && Covers(rest, conns - {c.id}) && Kept(rest, list, |list|, c)
  {
    hide Kept, Covers;
    OnlyOne(list, c);
    rest := [];
    var i := 0;
    KeptNone(list, c);
    while i < |list|
      invariant 0 <= i <= |list| && Ordered(rest) && Kept(rest, list, i, c)
      invariant i < |list| ==> forall a :: 0 <= a < |rest| ==> rest[a].id > list[i].id
    {
      KeepsOneMore(rest, list, i, c);
      if list[i] != c {
        AppendOrdered(rest, list[i]);
        rest := rest + [list[i]];
      }
      i := i + 1;
    }
    KeptCovers(rest, list, c, conns);
  }

  lemma KeptNone(list: seq<Context>, c: Context)
    ensures Kept([], list, 0, c)
  {}

  method ReleaseFeed(list: seq<Context>, f: Context, ghost conns: Conns)
    requires Represents(list, conns)
    requires forall a :: 0 <= a < |list| && list[a].id == f.id ==> list[a] == f
    modifies f
    ensures Represents(list, Release(conns, Some(f.id)))
  {
    f.refs := f.refs - 1;
  }

  lemma KeptValues(rest: seq<Context>, list: seq<Context>, c: Context, conns: Conns)
    requires Represents(list, conns) && Kept(rest, list, |list|, c)
    ensures forall a :: 0 <= a < |rest| ==> rest[a].id in conns && rest[a].Val() == conns[rest[a].id]
    ensures PointersById(list) && c in list && c.feed != null ==>
              forall a :: 0 <= a < |rest| && rest[a].id == c.feed.id ==> rest[a] == c.feed
  {}

  /** close_connection. */
  method CloseConnection(list: seq<Context>, c: Context, ghost conns: Conns) returns (rest: seq<Context>)
    requires Represents(list, conns) && PointersById(list) && c in list
    modifies c.feed
    ensures Represents(rest, Close(conns, c.id))
  {
    rest := Unlink(list, c, conns);
    KeptValues(rest, list, c, conns);
    if !c.post && c.feed != null {
      ReleaseFeed(rest, c.feed, conns - {c.id});
    }
  }

  lemma PrependCovers(list: seq<Context>, c: Context, conns: Conns)
    requires Ordered(list) && Covers(list, conns) && forall r :: r in conns ==> r < c.id
    ensures Ordered([c] + list) && Covers([c] + list, conns[c.id := Fresh()])
  {
    var longer, more := [c] + list, conns[c.id := Fresh()];
    forall r | r in more
      ensures exists i :: 0 <= i < |longer| && longer[i].id == r
    {
      if r == c.id {
        assert longer[0].id == r;
      } else {
        var i :| 0 <= i < |list| && list[i].id == r;
        assert longer[i + 1].id == r;
      }
    }
  }

  lemma PrependPointers(list: seq<Context>, c: Context)
    requires PointersById(list) && c.feed == null
    requires forall i :: 0 <= i < |list| && list[i].feed != null ==> list[i].feed.id != c.id
    ensures PointersById([c] + list)
  {}

  lemma PrependValues(list: seq<Context>, c: Context, conns: Conns)
    requires Represents(list, conns) && c.Val() == Fresh() && forall r :: r in conns ==> r < c.id
    requires Ordered([c] + list) && Covers([c] + list, conns[c.id := Fresh()])
    ensures Represents([c] + list, conns[c.id := Fresh()])
  {
    hide Fresh, Ordered;
  }

  lemma NoPointerTo(list: seq<Context>, id: nat, conns: Conns)
    requires Represents(list, conns) && forall r :: r in conns ==> conns[r].feed != Some(id)
    ensures forall i :: 0 <= i < |list| && list[i].feed != null ==> list[i].feed.id != id
  {
    forall i | 0 <= i < |list| && list[i].feed != null
      ensures list[i].feed.id != id
    {
      assert conns[list[i].id] == list[i].Val();
    }
  }

  /** The end of new_connection. */
  method NewConnection(list: seq<Context>, id: nat, ghost conns: Conns) returns (longer: seq<Context>)
    requires Represents(list, conns) && PointersById(list)
    requires forall r :: r in conns ==> r < id && conns[r].feed != Some(id)
    ensures Represents(longer, conns[id := Fresh()]) && PointersById(longer)
    ensures |longer| == |list| + 1 && longer[1..] == list
  {
    hide PointersById, Ordered, Covers;
    NoPointerTo(list, id, conns);
    var c := new Context(id);
    longer := [c] + list;
    PrependCovers(list, c, conns);
    PrependPointers(list, c);
    PrependValues(list, c, conns);
  }
}
