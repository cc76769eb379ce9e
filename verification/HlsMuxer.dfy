/**
  The segmenter of hlsenc.c for a program with one video stream: the sliding window of
  segments, the removed segments that wait to be deleted, the file names, the split clock
  and the playlist. Durations are exact rationals where the code uses floating point.
 */
module HlsMuxer {
  import opened Bytes
  import opened Chains
  import opened Wrappers

  /** A segment file: numbered from the template, or the one file of single-file mode. */
  datatype Name = Numbered(n: int) | Single

  datatype Segment = Segment(name: Name, duration: real, pos: int, size: int)

  /** The options, and the time base num/den of the video stream. */
  datatype Config = Config(start: nat, max: nat, wrap: nat, single: bool, delete: bool,
                           recordingTime: int, num: int, den: int) {
    predicate Valid() { num > 0 && den > 0 && recordingTime >= 0 }

    /** Removed segments are kept for deletion. */
    predicate Deletes() { delete && !(single || wrap != 0) }

    function NameOf(sequence: nat): Name {
      if single then Single else Numbered(if wrap != 0 then sequence % wrap else sequence)
    }

    function Seconds(ticks: int): real
      requires Valid()
    {
      ticks as real * (num as real / den as real)
    }

    /** av_compare_ts(ticks, time base, microseconds, 1/1000000) >= 0. */
    predicate Reached(ticks: int, microseconds: int)
      requires Valid()
    {
      ticks * num * 1000000 >= microseconds * den
    }
  }

  datatype State = State(number: nat, sequence: nat, file: Name, segs: seq<Segment>, nb: nat, waiting: seq<Segment>,
                         startPts: Option<int>, endPts: Option<int>, duration: real, startPos: int, keyFound: bool)

  datatype Packet = Packet(video: bool, key: bool, pts: Option<int>)

  function Sum(segs: seq<Segment>): real {
    if segs == [] then 0.0 else Sum(segs[..|segs| - 1]) + segs[|segs| - 1].duration
  }

  // ----------------------------------------------- specification of the operations

  /** How many of the removed segments stay: up to the first before which they already
      last as long as the playlist, that one included. */
  function Kept(removed: seq<Segment>, k: nat, left: real): (m: nat)
    requires k <= |removed|
    ensures k <= m <= |removed| && (k < |removed| ==> k < m)
    decreases |removed| - k
  {
    if k == |removed| then k
    else if left - removed[k].duration <= -removed[k].duration then k + 1
    else Kept(removed, k + 1, left - removed[k].duration)
  }

  datatype Appended = Appended(st: State, deleted: seq<Segment>)

  function Append(c: Config, s: State, duration: real, pos: int, size: int): Appended {
    var segs := s.segs + [Segment(s.file, duration, pos, size)];
    if c.max != 0 && s.nb >= c.max then
      var removed := [segs[0]] + s.waiting;
      var m := Kept(removed, 0, Sum(segs[1..]));
      Appended(s.(segs := segs[1..], sequence := s.sequence + 1, waiting := if c.Deletes() then removed[..m]
                  else s.waiting),
               if c.Deletes() then removed[m..] else [])
    else Appended(s.(segs := segs, nb := s.nb + 1, sequence := s.sequence + 1), [])
  }

  function StartFile(c: Config, s: State): State { s.(file := c.NameOf(s.sequence), number := s.number + 1) }

  /** The state after hls_write_header. */
  function Initial(c: Config): State {
    StartFile(c, State(0, c.start, Single, [], 0, [], None, None, 0.0, 0, false))
  }

  /** What a packet that is not dropped does before the split is considered. */
  function Clocked(c: Config, s: State, p: Packet): State
    requires c.Valid()
  {
    var s1 := if s.startPts.None? then s.(keyFound := true, startPts := p.pts, endPts := p.pts)
        else s.(keyFound := true);
    if p.video && p.pts.Some? && s1.endPts.Some? then s1.(duration := c.Seconds(p.pts.value - s1.endPts.value)) else s1
  }

  predicate Dropped(s: State, p: Packet) { !s.keyFound && !(p.video && p.key) }

  predicate Splits(c: Config, s: State, p: Packet)
    requires c.Valid()
  {
    && p.video && p.key && p.pts.Some? && s.startPts.Some?
    && c.Reached(p.pts.value - s.startPts.value, c.recordingTime * s.number)
  }

  /** Closing a segment at write position `tell` and opening the next. */
  function SplitSpec(c: Config, s: State, pts: Option<int>, tell: int): Appended {
    var a := Append(c, s, s.duration, s.startPos, tell - s.startPos);
    var s2 := a.st.(startPos := tell, endPts := pts, duration := 0.0);
    a.(st := if c.single then s2.(number := s2.number + 1) else StartFile(c, s2))
  }

  /** hls_write_packet; `tell` is the write position if the packet splits. */
  function WritePacketSpec(c: Config, s: State, p: Packet, tell: int): Appended
    requires c.Valid()
  {
    if Dropped(s, p) then Appended(s, [])
    else
      var s1 := Clocked(c, s, p);
      if Splits(c, s1, p) then SplitSpec(c, s1, p.pts, tell) else Appended(s1, [])
  }

  /** hls_write_trailer, before the lists are freed. */
  function TrailerSpec(c: Config, s: State, tell: int): Appended {
    Append(c, s, s.duration, s.startPos, tell - s.startPos)
  }

  datatype Playlist = Playlist(target: int, mediaSequence: int, entries: seq<Segment>, last: bool)

  /** The number the playlist prints for its first entry. */
  function MediaSequence(c: Config, s: State): int {
    if c.start > s.sequence - s.nb then c.start else s.sequence - s.nb
  }

  function Ceil(x: real): int { -((-x).Floor) }

  // ------------------------------------------------------------------- the code

  class HlsContext {
    const c: Config
    var number: nat
    var sequence: nat
    var file: Name
    var segments: Node?<Segment>
    var lastSegment: Node?<Segment>
    var nb: nat
    var oldSegments: Node?<Segment>
    var startPts: Option<int>
    var endPts: Option<int>
    var duration: real
    var startPos: int
    var keyFound: bool
    ghost var listed: seq<Node<Segment>>
    ghost var waiting: seq<Node<Segment>>

    /** Two lists without a node in common: the listed segments, oldest first, and the removed
        ones, newest first. */
    ghost predicate Lists()
      reads this, listed, waiting
    {
      && Linked(listed) && Distinct(listed) && segments == First(listed)
      && (listed != [] ==> lastSegment == Last(listed))
      && Linked(waiting) && Distinct(waiting) && oldSegments == First(waiting)
      && Apart(listed, waiting)
    }

    ghost predicate Valid()
      reads this, listed, waiting
    {
      Lists() && nb == |listed|
    }

    ghost function View(): State
      reads this
    {
      State(number, sequence, file, Values(listed), nb, Values(waiting), startPts, endPts, duration, startPos, keyFound)
    }

    constructor (c: Config)
      ensures this.c == c && Valid() && View() == Initial(c)
    {
      this.c := c;
      number, sequence, file := 1, c.start, c.NameOf(c.start);
      segments, lastSegment, oldSegments, listed, waiting, nb := null, null, null, [], [], 0;
      startPts, endPts, duration, startPos, keyFound := None, None, 0.0, 0, false;
    }

    /** The sum over the listed segments. */
    method Total() returns (sum: real)
      requires Lists()
      ensures sum == Sum(Values(listed))
    {
      sum := 0.0;
      var segment := segments;
      ghost var i := 0;
      while segment != null
        invariant i <= |listed| && segment == (if i < |listed| then listed[i] else null)
        invariant sum == Sum(Values(listed)[..i])
        decreases |listed| - i
      {
        ValueAt(listed, i);
        assert Values(listed)[..i + 1][..i] == Values(listed)[..i];
        sum := sum + segment.value.duration;
        segment := segment.next;
        i := i + 1;
      }
      assert Values(listed)[..i] == Values(listed);
    }

    /** The walk over the removed segments, to the last one that stays when some do not. */
    method LastKept(total: real) returns (previous: Node?<Segment>, ghost k: nat)
      requires Lists()
      ensures k == Kept(Values(waiting), 0, total)
      ensures if previous == null then k == |waiting| else 0 < k <= |waiting| && previous == waiting[k - 1]
    {
      var left := total;
      var segment := oldSegments;
      k := 0;
      while segment != null
        invariant k <= |waiting| && segment == (if k < |waiting| then waiting[k] else null)
        invariant Kept(Values(waiting), 0, total) == Kept(Values(waiting), k, left)
        decreases |waiting| - k
      {
        ValueAt(waiting, k);
        previous := segment;
        left := left - previous.value.duration;
        segment := previous.next;
        k := k + 1;
        if left <= -previous.value.duration {
          return;
        }
      }
      previous := null;
    }

    /** The list of removed segments is cut behind `previous`. */
    method Cut(previous: Node<Segment>, ghost k: nat) returns (segment: Node?<Segment>, ghost rest: seq<Node<Segment>>)
      requires Lists() && 0 < k <= |waiting| && previous == waiting[k - 1]
      modifies this`waiting, previous
      ensures Lists() && waiting == old(waiting)[..k] && rest == old(waiting)[k..]
      ensures Linked(rest) && segment == First(rest)
    {
      segment := previous.next;
      assert segment == First(waiting[k..]) by { FirstOfRest(waiting, k); }
      assert previous !in listed;
      previous.next := null;
      CutIsLinked(waiting, k);
      rest := waiting[k..];
      waiting := waiting[..k];
    }

    /** The loop that unlinks files and frees nodes. */
    static method Delete(first: Node?<Segment>, ghost rest: seq<Node<Segment>>) returns (deleted: seq<Segment>)
      requires Linked(rest) && first == First(rest)
      ensures deleted == Values(rest)
    {
      var segment := first;
      deleted := [];
      ghost var j := 0;
      while segment != null
        invariant j <= |rest| && segment == (if j < |rest| then rest[j] else null)
        invariant deleted == Values(rest)[..j]
        decreases |rest| - j
      {
        ValueAt(rest, j);
        deleted := deleted + [segment.value];
        segment := segment.next;
        j := j + 1;
      }
    }

    /** hls_delete_old_segments: the files unlinked, in the order of the calls. */
    method DeleteOldSegments() returns (deleted: seq<Segment>)
      requires Lists()
      modifies this`waiting, waiting
      ensures Lists()
      ensures var m := Kept(Values(old(waiting)), 0, Sum(Values(listed)));
              Values(waiting) == Values(old(waiting))[..m] && deleted == Values(old(waiting))[m..]
    {
      hide Lists, Linked, Kept, Sum;
      var total := Total();
      var previous, k := LastKept(total);
      deleted := [];
      ValuesSplit(waiting, k);
      if previous != null {
        var segment, rest := Cut(previous, k);
        deleted := Delete(segment, rest);
      }
    }

    /** The new node goes behind the last one. */
    method Attach(x: Segment)
      requires Lists()
      modifies this`segments, this`lastSegment, this`listed, listed
      ensures Lists() && Values(listed) == old(Values(listed)) + [x]
      ensures fresh(lastSegment) && listed == old(listed) + [lastSegment]
    {
      var en := new Node(x);
      if segments == null {
        segments := en;
      } else {
        assert lastSegment !in waiting by { assert lastSegment == listed[|listed| - 1]; }
        lastSegment.next := en;
      }
      lastSegment := en;
      AppendIsLinked(listed, en);
      ValuesAppend(listed, en);
      listed := listed + [en];
    }

    /** The first node leaves the list, for the front of the removed ones if `keep`. */
    method Detach(keep: bool)
      requires Lists() && listed != []
      modifies this`segments, this`listed, this`oldSegments, this`waiting, segments
      ensures Lists() && listed == old(listed)[1..]
      ensures waiting == if keep then [old(listed)[0]] + old(waiting) else old(waiting)
    {
      var en := segments;
      TailIsLinked(listed);
      assert en == listed[0] && en !in waiting && en !in listed[1..];
      segments := en.next;
      listed := listed[1..];
      if keep {
        en.next := oldSegments;
        oldSegments := en;
        PrependIsLinked(en, waiting);
        waiting := [en] + waiting;
      }
    }

    /** hls_append_segment. */
    method AppendSegment(dur: real, pos: int, size: int) returns (deleted: seq<Segment>)
      requires Valid()
      modifies this, listed, waiting
      ensures Valid() && Appended(View(), deleted) == Append(c, old(View()), dur, pos, size)
    {
      hide Kept, Sum, Linked, Distinct, Apart, First, Last;
      deleted := AppendNode(Segment(file, dur, pos, size));
      sequence := sequence + 1;
    }

    /** Its two lists. */
    method AppendNode(x: Segment) returns (deleted: seq<Segment>)
      requires Valid()
      modifies this`segments, this`lastSegment, this`listed, this`oldSegments, this`waiting, this`nb, listed, waiting
      ensures Valid()
      ensures if c.max != 0 && old(nb) >= c.max then
                var segs := old(Values(listed)) + [x];
                var removed := [segs[0]] + old(Values(waiting));
                var m := Kept(removed, 0, Sum(segs[1..]));
                && Values(listed) == segs[1..] && nb == old(nb)
                && Values(waiting) == (if c.Deletes() then removed[..m] else old(Values(waiting)))
                && deleted == if c.Deletes() then removed[m..] else []
              else
                && Values(listed) == old(Values(listed)) + [x] && nb == old(nb) + 1
                && Values(waiting) == old(Values(waiting)) && deleted == []
    {
      hide Kept, Sum, Linked, Distinct, Apart, Last;
      ghost var before := listed;
      deleted := [];
      Attach(x);
      if c.max != 0 && nb >= c.max {
        assert segments == before[0] && segments in before by { assert segments == listed[0]; }
        deleted := Remove();
      } else {
        nb := nb + 1;
      }
    }

    /** Its branch for a full window. */
    method Remove() returns (deleted: seq<Segment>)
      requires Lists() && listed != []
      modifies this`segments, this`listed, this`oldSegments, this`waiting, segments, waiting
      ensures Lists() && Values(listed) == old(Values(listed))[1..]
      ensures var removed := [old(Values(listed))[0]] + old(Values(waiting));
              var m := Kept(removed, 0, Sum(Values(listed)));
              if c.Deletes() then Values(waiting) == removed[..m] && deleted == removed[m..]
              else Values(waiting) == old(Values(waiting)) && deleted == []
    {
      hide Kept, Sum, Linked;
      deleted := [];
      var keep := c.delete && !(c.single || c.wrap != 0);
      ghost var en := segments;
      assert en == listed[0] by { assert en == First(listed); }
      Detach(keep);
      if keep {
        assert forall n <- waiting :: n == en || n in old(waiting);
        deleted := DeleteOldSegments();
      }
    }

    /** hls_start, whose open succeeds. */
    method Start()
      requires Valid()
      modifies this`file, this`number
      ensures Valid() && View() == StartFile(c, old(View()))
    {
      if c.single {
        file := Single;
      } else {
        file := Numbered(if c.wrap != 0 then sequence % c.wrap else sequence);
      }
      number := number + 1;
    }

    /** hls_write_packet. */
    method WritePacket(p: Packet, tell: int) returns (deleted: seq<Segment>)
      requires c.Valid() && Valid()
      modifies this, listed, waiting
      ensures Valid() && Appended(View(), deleted) == WritePacketSpec(c, old(View()), p, tell)
    {
      deleted := [];
      if !keyFound {
        if p.video && p.key {
          keyFound := true;
        } else {
          return;
        }
      }
      TakeClock(p);
      var canSplit := p.video && p.key && p.pts.Some?;
      if canSplit && startPts.Some? && c.Reached(p.pts.value - startPts.value, c.recordingTime * number) {
        deleted := Split(p.pts, tell);
      }
    }

    /** The start of the program, and the length of the current segment up to this packet. */
    method TakeClock(p: Packet)
      requires c.Valid() && keyFound && Valid()
      modifies this`startPts, this`endPts, this`duration
      ensures Valid() && View() == Clocked(c, old(View()), p)
    {
      if startPts.None? {
        startPts := p.pts;
        endPts := p.pts;
      }
      if p.video && p.pts.Some? && endPts.Some? {
        duration := c.Seconds(p.pts.value - endPts.value);
      }
    }

    /** The branch that closes a segment and opens the next. */
    method Split(pts: Option<int>, tell: int) returns (deleted: seq<Segment>)
      requires Valid()
      modifies this, listed, waiting
      ensures Valid() && Appended(View(), deleted) == SplitSpec(c, old(View()), pts, tell)
    {
      hide Append, Linked, Distinct, Apart, First, Last;
      var size := tell - startPos;
      deleted := AppendSegment(duration, startPos, size);
      startPos := tell;
      endPts := pts;
      duration := 0.0;
      if c.single {
        number := number + 1;
      } else {
        Start();
      }
    }

    /** hls_write_trailer. */
    method WriteTrailer(tell: int) returns (deleted: seq<Segment>)
      requires Valid()
      modifies this, listed, waiting
      ensures Valid() && Appended(View(), deleted) == TrailerSpec(c, old(View()), tell)
    {
      deleted := AppendSegment(duration, startPos, tell - startPos);
    }

    /** hls_window: no entry lasts longer than the target duration, which is the ceiling of
        one of them, or zero. */
    method Window(last: bool) returns (p: Playlist)
      requires Valid()
      ensures p.entries == View().segs && p.last == last
      ensures p.mediaSequence == MediaSequence(c, View())
      ensures forall e <- p.entries :: e.duration <= p.target as real
      ensures p.target == 0 || exists e <- p.entries :: p.target == Ceil(e.duration)
    {
      var mediaSequence := if c.start > sequence - nb then c.start else sequence - nb;
      var target := Target();
      var entries: seq<Segment>, en := [], segments;
      ghost var i := 0;
      while en != null
        invariant i <= |listed| && en == (if i < |listed| then listed[i] else null)
        invariant entries == Values(listed)[..i]
        decreases |listed| - i
      {
        ValueAt(listed, i);
        entries := entries + [en.value];
        en := en.next;
        i := i + 1;
      }
      p := Playlist(target, mediaSequence, entries, last);
    }

    /** The first loop of hls_window. */
    method Target() returns (target: int)
      requires Valid()
      ensures forall e <- Values(listed) :: e.duration <= target as real
      ensures target == 0 || exists e <- Values(listed) :: target == Ceil(e.duration)
    {
      target := 0;
      var en := segments;
      ghost var i, segs := 0, Values(listed);
      while en != null
        invariant i <= |listed| && en == (if i < |listed| then listed[i] else null)
        invariant forall j :: 0 <= j < i ==> segs[j].duration <= target as real
        invariant target == 0 || exists j :: 0 <= j < i && target == Ceil(segs[j].duration)
        decreases |listed| - i
      {
        ValueAt(listed, i);
        if target as real < en.value.duration {
          target := Ceil(en.value.duration);
        }
        en := en.next;
        i := i + 1;
      }
    }
  }

  // --------------------------------------------------- which segments are deleted

  function Prefix(segs: seq<Segment>, k: nat): real
    requires k <= |segs|
  {
    Sum(segs[..k])
  }

  lemma {:induction false} KeptFrom(removed: seq<Segment>, k: nat, p: real)
    requires k < |removed| && forall j :: 0 <= j < k ==> Prefix(removed, j) < p
    ensures var m := Kept(removed, k, p - Prefix(removed, k));
            && (forall j :: 0 <= j < m - 1 ==> Prefix(removed, j) < p)
            && (m < |removed| ==> Prefix(removed, m - 1) >= p)
    decreases |removed| - k
  {
    assert removed[..k + 1][..k] == removed[..k];
    assert Prefix(removed, k + 1) == Prefix(removed, k) + removed[k].duration;
    if Prefix(removed, k) < p && k + 1 < |removed| {
      KeptFrom(removed, k + 1, p);
    }
  }

  /** Newest first, exactly the removed segments after the least number of newer ones that
      already last as long as the playlist are deleted; the newest always stays. */
  lemma KeptIsLeast(removed: seq<Segment>, p: real)
    requires removed != []
    ensures var m := Kept(removed, 0, p);
            && 1 <= m <= |removed|
            && (forall j :: 0 <= j < m - 1 ==> Prefix(removed, j) < p)
            && (m < |removed| ==> Prefix(removed, m - 1) >= p)
  {
    KeptFrom(removed, 0, p);
  }

  // ------------------------------------------------------------------ whole runs

  /** `created` lists every segment closed so far, `gone` those deleted, oldest first, and
      `splits` the stamps of the key frames that closed a segment. */
  datatype World = World(st: State, created: seq<Segment>, gone: seq<Segment>, splits: seq<int>, ended: bool)

  datatype Event = Write(p: Packet, tell: int) | Trailer(tell: int)

  function Init(c: Config): World { World(Initial(c), [], [], [], false) }

  function Reverse(s: seq<Segment>): seq<Segment> { if s == [] then [] else Reverse(s[1..]) + [s[0]] }

  /** The segment that closing at `tell` creates. */
  function Current(s: State, tell: int): Segment { Segment(s.file, s.duration, s.startPos, tell - s.startPos) }

  function Step(c: Config, w: World, e: Event): World
    requires c.Valid()
  {
    if w.ended then w
    else match e
      case Write(p, tell) =>
        var a := WritePacketSpec(c, w.st, p, tell);
        if Dropped(w.st, p) then w
        else
          var s1 := Clocked(c, w.st, p);
          if !Splits(c, s1, p) then w.(st := a.st)
          else World(a.st, w.created + [Current(s1, tell)], w.gone + Reverse(a.deleted),
                     w.splits + [p.pts.value], false)
      case Trailer(tell) =>
        var a := TrailerSpec(c, w.st, tell);
        World(a.st, w.created + [Current(w.st, tell)], w.gone + Reverse(a.deleted), w.splits, true)
  }

  function Run(c: Config, w: World, es: seq<Event>): World
    requires c.Valid()
    decreases es
  {
    if es == [] then w else Run(c, Step(c, w, es[0]), es[1..])
  }

  // -------------------------------------------------------------- the window

  /** The part of the state that the lists of segments make up. */
  datatype Lists = Lists(sequence: nat, nb: nat, segs: seq<Segment>, waiting: seq<Segment>)

  function ListsOf(s: State): Lists { Lists(s.sequence, s.nb, s.segs, s.waiting) }

  ghost predicate WindowInv(c: Config, l: Lists, created: seq<Segment>) {
    var n := |created|;
    && l.sequence == c.start + n
    && l.nb == |l.segs| == (if c.max != 0 && n > c.max then c.max else n)
    && l.segs == created[n - l.nb..]
  }

  /** File k in order of creation is named after its place in the sequence. */
  ghost predicate Named(c: Config, created: seq<Segment>) {
    forall i :: 0 <= i < |created| ==> created[i].name == c.NameOf(c.start + i)
  }

  /** Files are created, wait and go in one order, each in one place. */
  ghost predicate DeleteInv(c: Config, l: Lists, created: seq<Segment>, gone: seq<Segment>) {
    if c.Deletes() then |l.segs| <= |created| && created[..|created| - |l.segs|] == gone + Reverse(l.waiting)
    else gone == [] && l.waiting == []
  }

  lemma {:induction false} ReverseConcat(a: seq<Segment>, b: seq<Segment>)
    ensures Reverse(a + b) == Reverse(b) + Reverse(a)
  {
    if a == [] {
      assert a + b == b;
    } else {
      assert (a + b)[1..] == a[1..] + b;
      ReverseConcat(a[1..], b);
    }
  }

  lemma AppendKeepsWindow(c: Config, s: State, created: seq<Segment>, tell: int)
    requires WindowInv(c, ListsOf(s), created)
    ensures WindowInv(c, ListsOf(Append(c, s, s.duration, s.startPos, tell - s.startPos).st),
                      created + [Current(s, tell)])
  {
    var n, x := |created|, Current(s, tell);
    assert s.segs + [x] == (created + [x])[n - s.nb..];
  }

  lemma Regroup<T>(front: seq<T>, gone: seq<T>, rev: seq<T>, x: seq<T>, a: seq<T>, b: seq<T>)
    requires front == gone + rev && rev + x == b + a
    ensures front + x == gone + b + a
  {
    assert front + x == gone + (rev + x);
  }

  /** One more removed segment, of which `m` stay, in terms of the order of creation. */
  lemma RemovedInOrder(front: seq<Segment>, gone: seq<Segment>, waiting: seq<Segment>, x: Segment, m: nat)
    requires front == gone + Reverse(waiting) && m <= |waiting| + 1
    ensures var removed := [x] + waiting;
            front + [x] == gone + Reverse(removed[m..]) + Reverse(removed[..m])
  {
    var removed := [x] + waiting;
    assert removed == removed[..m] + removed[m..];
    ReverseConcat(removed[..m], removed[m..]);
    ReverseConcat([x], waiting);
    assert [x][1..] == [];
    assert Reverse([x]) == Reverse([]) + [x] == [x];
    Regroup(front, gone, Reverse(waiting), [x], Reverse(removed[..m]), Reverse(removed[m..]));
  }

  lemma AppendKeepsFiles(c: Config, s: State, created: seq<Segment>, gone: seq<Segment>, tell: int)
    requires WindowInv(c, ListsOf(s), created) && DeleteInv(c, ListsOf(s), created, gone)
    ensures var a := Append(c, s, s.duration, s.startPos, tell - s.startPos);
            DeleteInv(c, ListsOf(a.st), created + [Current(s, tell)], gone + Reverse(a.deleted))
  {
    var n, x := |created|, Current(s, tell);
    var created' := created + [x];
    assert gone + Reverse([]) == gone;
    if c.Deletes() && c.max != 0 && s.nb >= c.max {
      var segs := s.segs + [x];
      assert segs[0] == created'[n - s.nb];
      assert created'[..n + 1 - s.nb] == created[..n - s.nb] + [segs[0]];
      RemovedInOrder(created[..n - s.nb], gone, s.waiting, segs[0], Kept([segs[0]] + s.waiting, 0, Sum(segs[1..])));
    } else if c.Deletes() {
      assert created'[..n - s.nb] == created[..n - s.nb];
    }
  }

  ghost predicate FilesInv(c: Config, l: Lists, created: seq<Segment>, gone: seq<Segment>) {
    WindowInv(c, l, created) && Named(c, created) && DeleteInv(c, l, created, gone)
  }

  ghost predicate Inv(c: Config, w: World) {
    && FilesInv(c, ListsOf(w.st), w.created, w.gone)
    && (!w.ended ==> w.st.file == c.NameOf(w.st.sequence))
  }

  lemma AppendKeepsInv(c: Config, s: State, created: seq<Segment>, gone: seq<Segment>, tell: int)
    requires FilesInv(c, ListsOf(s), created, gone) && s.file == c.NameOf(s.sequence)
    ensures var a := Append(c, s, s.duration, s.startPos, tell - s.startPos);
            FilesInv(c, ListsOf(a.st), created + [Current(s, tell)], gone + Reverse(a.deleted))
  {
    hide DeleteInv;
    AppendKeepsWindow(c, s, created, tell);
    AppendKeepsFiles(c, s, created, gone, tell);
  }

  lemma SplitIsAppend(c: Config, s: State, pts: Option<int>, tell: int)
    requires s.file == c.NameOf(s.sequence)
    ensures var a, b := Append(c, s, s.duration, s.startPos, tell - s.startPos), SplitSpec(c, s, pts, tell);
            && ListsOf(b.st) == ListsOf(a.st) && b.deleted == a.deleted
            && b.st.file == c.NameOf(b.st.sequence)
  {}

  lemma SplitKeepsInv(c: Config, s: State, created: seq<Segment>, gone: seq<Segment>, pts: Option<int>, tell: int)
    requires FilesInv(c, ListsOf(s), created, gone) && s.file == c.NameOf(s.sequence)
    ensures var a := SplitSpec(c, s, pts, tell);
            && FilesInv(c, ListsOf(a.st), created + [Current(s, tell)], gone + Reverse(a.deleted))
            && a.st.file == c.NameOf(a.st.sequence)
  {
    hide FilesInv, SplitSpec, Append;
    AppendKeepsInv(c, s, created, gone, tell);
    SplitIsAppend(c, s, pts, tell);
  }

  lemma ClockedKeepsLists(c: Config, s: State, p: Packet)
    requires c.Valid()
    ensures ListsOf(Clocked(c, s, p)) == ListsOf(s) && Clocked(c, s, p).file == s.file
  {}

  lemma WriteKeepsInv(c: Config, w: World, p: Packet, tell: int)
    requires c.Valid() && Inv(c, w) && !w.ended && !Dropped(w.st, p)
    ensures Inv(c, Step(c, w, Write(p, tell)))
  {
    var s1 := Clocked(c, w.st, p);
    ClockedKeepsLists(c, w.st, p);
    if Splits(c, s1, p) {
      SplitKeepsInv(c, s1, w.created, w.gone, p.pts, tell);
    }
  }

  lemma StepKeepsInv(c: Config, w: World, e: Event)
    requires c.Valid() && Inv(c, w)
    ensures Inv(c, Step(c, w, e))
  {
    if !w.ended {
      match e
      case Write(p, tell) => if !Dropped(w.st, p) { WriteKeepsInv(c, w, p, tell); }
      case Trailer(tell) => TrailerKeepsInv(c, w, tell);
    }
  }

  lemma TrailerKeepsInv(c: Config, w: World, tell: int)
    requires c.Valid() && Inv(c, w) && !w.ended
    ensures Inv(c, Step(c, w, Trailer(tell)))
  {
    hide FilesInv, Append, Named;
    AppendKeepsInv(c, w.st, w.created, w.gone, tell);
    var a, w' := TrailerSpec(c, w.st, tell), Step(c, w, Trailer(tell));
    assert w'.st == a.st && w'.created == w.created + [Current(w.st, tell)];
    assert w'.gone == w.gone + Reverse(a.deleted) && w'.ended;
  }

  lemma {:induction false} RunKeepsInv(c: Config, w: World, es: seq<Event>)
    requires c.Valid() && Inv(c, w)
    ensures Inv(c, Run(c, w, es))
    decreases es
  {
    hide Inv, Step;
    if es != [] {
      StepKeepsInv(c, w, es[0]);
      RunKeepsInv(c, Step(c, w, es[0]), es[1..]);
    }
  }

  /** What holds in every state that the muxer reaches. */
  lemma ReachableInv(c: Config, es: seq<Event>)
    requires c.Valid()
    ensures Inv(c, Run(c, Init(c), es))
  {
    hide Step, Run;
    assert Inv(c, Init(c));
    RunKeepsInv(c, Init(c), es);
  }

  /** The playlist of any state the run passes through. */
  ghost predicate ShowsWindow(c: Config, s: State, created: seq<Segment>) {
    var n := |created|;
    && s.nb == |s.segs| <= n && (c.max != 0 ==> s.nb <= c.max)
    && s.segs == created[n - s.nb..]
    && MediaSequence(c, s) == s.sequence - s.nb == c.start + (n - s.nb)
    && forall k :: 0 <= k < s.nb ==> s.segs[k].name == c.NameOf(MediaSequence(c, s) + k)
  }

  lemma WindowIsShown(c: Config, w: World)
    requires Inv(c, w)
    ensures ShowsWindow(c, w.st, w.created)
  {
    forall k | 0 <= k < w.st.nb
      ensures w.st.segs[k].name == c.NameOf(w.st.sequence - w.st.nb + k)
    {
      assert w.st.segs[k] == w.created[|w.created| - w.st.nb + k];
    }
  }

  /** The playlist holds the newest segments, at most max of them; the media sequence number
      it prints counts the dropped ones, and is the file number of its first entry. */
  lemma PlaylistIsTheWindow(c: Config, es: seq<Event>)
    requires c.Valid()
    ensures var w := Run(c, Init(c), es); ShowsWindow(c, w.st, w.created)
  {
    hide Run, Inv, ShowsWindow;
    ReachableInv(c, es);
    WindowIsShown(c, Run(c, Init(c), es));
  }

  lemma MultipleInRange(a: int, m: nat, j: int)
    requires m > 0 && (a - j) % m == a % m
    ensures j % m == 0
  {
    assert a - j == m * ((a - j) / m) + a % m;
    var k := a / m - (a - j) / m;
    assert j == m * k by {
      assert a == m * (a / m) + a % m;
    }
    ModUnique(j, m, k, 0);
  }

  lemma ClashIfWrapped(c: Config, s: State, created: seq<Segment>)
    requires !c.single && ShowsWindow(c, s, created) && s.file == c.NameOf(s.sequence)
    requires c.wrap != 0 && s.nb >= c.wrap
    ensures exists k :: 0 <= k < |s.segs| && s.segs[k].name == s.file
  {
    SameSlot(s.sequence, c.wrap);
    assert s.segs[s.nb - c.wrap].name == c.NameOf(s.sequence - c.wrap) == s.file;
  }

  lemma WrappedIfClash(c: Config, s: State, created: seq<Segment>, k: nat)
    requires !c.single && ShowsWindow(c, s, created) && s.file == c.NameOf(s.sequence)
    requires k < s.nb && s.segs[k].name == s.file
    ensures c.wrap != 0 && s.nb >= c.wrap
  {
    var j := s.nb - k;
    assert c.NameOf(s.sequence - j) == c.NameOf(s.sequence);
    if c.wrap != 0 {
      MultipleInRange(s.sequence, c.wrap, j);
      if j < c.wrap {
        ModUnique(j, c.wrap, 0, j);
      }
    }
  }

  predicate Listed(s: State, name: Name) { exists k :: 0 <= k < |s.segs| && s.segs[k].name == name }

  lemma ClashIff(c: Config, w: World)
    requires !c.single && Inv(c, w) && !w.ended
    ensures Listed(w.st, w.st.file) <==> c.wrap != 0 && w.st.nb >= c.wrap
  {
    WindowIsShown(c, w);
    if c.wrap != 0 && w.st.nb >= c.wrap {
      ClashIfWrapped(c, w.st, w.created);
    }
    if k :| 0 <= k < |w.st.segs| && w.st.segs[k].name == w.st.file {
      WrappedIfClash(c, w.st, w.created, k);
    }
  }

  /** The file being written is one the playlist lists exactly when names wrap after no more
      files than the playlist holds: never if wrap is 0 or exceeds a positive max, and in every
      full window of the 6 and 6 that remuxing.c sets. */
  lemma FileInUseIffWrapTooSmall(c: Config, es: seq<Event>)
    requires c.Valid() && !c.single && !Run(c, Init(c), es).ended
    ensures var s := Run(c, Init(c), es).st;
            Listed(s, s.file) <==> c.wrap != 0 && s.nb >= c.wrap
  {
    hide Run, Inv, Listed;
    ReachableInv(c, es);
    ClashIff(c, Run(c, Init(c), es));
  }

  lemma SameSlot(a: int, m: nat)
    requires m > 0
    ensures (a - m) % m == a % m
  {
    assert a - m == m * (a / m - 1) + a % m;
    ModUnique(a - m, m, a / m - 1, a % m);
  }

  lemma WrapSuffices(c: Config, es: seq<Event>)
    requires c.Valid() && !c.single && !Run(c, Init(c), es).ended
    requires c.wrap == 0 || (c.max > 0 && c.wrap > c.max)
    ensures var s := Run(c, Init(c), es).st; !Listed(s, s.file)
  {
    hide Run, Listed;
    FileInUseIffWrapTooSmall(c, es);
    PlaylistIsTheWindow(c, es);
  }

  /** So with a wrap no larger than the list, once so many segments were closed, always. */
  lemma FullWindowClashes(c: Config, es: seq<Event>)
    requires c.Valid() && !c.single && !Run(c, Init(c), es).ended
    requires 0 < c.wrap <= c.max && |Run(c, Init(c), es).created| >= c.wrap
    ensures var s := Run(c, Init(c), es).st; Listed(s, s.file)
  {
    hide Run, Listed;
    ReachableInv(c, es);
    FileInUseIffWrapTooSmall(c, es);
  }

  /** With deletion on, every file ever created is in exactly one place: deleted, waiting or
      listed, in the order of creation; so none is deleted twice and none listed is deleted. */
  lemma EveryFileInOnePlace(c: Config, es: seq<Event>)
    requires c.Valid() && c.Deletes()
    ensures var w := Run(c, Init(c), es);
            && w.created == w.gone + Reverse(w.st.waiting) + w.st.segs
            && (forall i, j :: 0 <= i < j < |w.created| ==> w.created[i].name != w.created[j].name)
  {
    hide Run, Inv;
    ReachableInv(c, es);
    InOnePlace(c, Run(c, Init(c), es));
  }

  lemma InOnePlace(c: Config, w: World)
    requires Inv(c, w) && c.Deletes()
    ensures w.created == w.gone + Reverse(w.st.waiting) + w.st.segs
    ensures forall i, j :: 0 <= i < j < |w.created| ==> w.created[i].name != w.created[j].name
  {
    var n := |w.created| - |w.st.segs|;
    assert w.created == w.created[..n] + w.created[n..];
  }

  lemma NoListedFileDeleted(c: Config, es: seq<Event>)
    requires c.Valid() && c.Deletes()
    ensures var w := Run(c, Init(c), es);
            && (forall i, k :: 0 <= i < |w.gone| && 0 <= k < |w.st.segs| ==> w.gone[i].name != w.st.segs[k].name)
            && (forall i, j :: 0 <= i < j < |w.gone| ==> w.gone[i].name != w.gone[j].name)
            && |w.created| == |w.gone| + |w.st.waiting| + |w.st.segs|
  {
    hide Run;
    EveryFileInOnePlace(c, es);
    var w := Run(c, Init(c), es);
    ReverseLength(w.st.waiting);
    var front := |w.created| - |w.st.segs|;
    forall i, k | 0 <= i < |w.gone| && 0 <= k < |w.st.segs|
      ensures w.gone[i].name != w.st.segs[k].name
    {
      assert w.created[i] == w.gone[i] && w.created[front + k] == w.st.segs[k];
    }
    forall i, j | 0 <= i < j < |w.gone|
      ensures w.gone[i].name != w.gone[j].name
    {
      assert w.created[i] == w.gone[i] && w.created[j] == w.gone[j];
    }
  }

  lemma {:induction false} ReverseLength(s: seq<Segment>)
    ensures |Reverse(s)| == |s|
  {
    if s != [] {
      ReverseLength(s[1..]);
    }
  }

  // --------------------------------------------------------------- the split clock

  /** The stamp a segment is timed from: the split before it, or the start of the program. */
  function Since(start: int, splits: seq<int>, k: nat): int
    requires k <= |splits|
  {
    if k == 0 then start else splits[k - 1]
  }

  /** Positions follow one another from 0. */
  predicate Tiles(created: seq<Segment>, end: int) {
    if created == [] then end == 0
    else
      var x := created[|created| - 1];
      Tiles(created[..|created| - 1], x.pos) && end == x.pos + x.size
  }

  /** Split k is at least k + 1 recording times in, and times the segment it closed. */
  ghost predicate Timed(c: Config, start: int, created: seq<Segment>, splits: seq<int>)
    requires c.Valid()
  {
    && |splits| <= |created|
    && forall k :: 0 <= k < |splits| ==>
         && c.Reached(splits[k] - start, c.recordingTime * (k + 1))
         && created[k].duration == c.Seconds(splits[k] - Since(start, splits, k))
  }

  ghost predicate ClockInv(c: Config, w: World)
    requires c.Valid()
  {
    var s, n := w.st, |w.splits|;
    && s.number == n + 1 && |w.created| == (if w.ended then n + 1 else n)
    && (n > 0 ==> s.keyFound)
    && s.startPts.Some? == s.keyFound
    && (!s.keyFound ==> s.endPts.None?)
    && (s.keyFound ==> s.endPts == Some(Since(s.startPts.value, w.splits, n)) && Timed(c, s.startPts.value,
        w.created, w.splits))
  }

  /** Every video packet carries a stamp. */
  predicate Stamped(e: Event) { e.Write? && e.p.video ==> e.p.pts.Some? }

  lemma TilesAppend(created: seq<Segment>, pos: int, x: Segment)
    requires Tiles(created, pos) && x.pos == pos
    ensures Tiles(created + [x], pos + x.size)
  {
    assert (created + [x])[..|created|] == created;
  }

  lemma TimedAppend(c: Config, start: int, created: seq<Segment>, splits: seq<int>, x: Segment, pts: int)
    requires c.Valid() && Timed(c, start, created, splits) && |created| == |splits|
    requires c.Reached(pts - start, c.recordingTime * (|splits| + 1))
    requires x.duration == c.Seconds(pts - Since(start, splits, |splits|))
    ensures Timed(c, start, created + [x], splits + [pts])
  {
    var splits', created', n := splits + [pts], created + [x], |splits|;
    forall k | 0 <= k <= n
      ensures c.Reached(splits'[k] - start, c.recordingTime * (k + 1))
      ensures created'[k].duration == c.Seconds(splits'[k] - Since(start, splits', k))
    {
      assert Since(start, splits', k) == Since(start, splits, k);
      if k < n {
        assert splits'[k] == splits[k] && created'[k] == created[k];
      }
    }
  }

  lemma ClockedKeepsClock(c: Config, w: World, p: Packet)
    requires c.Valid() && ClockInv(c, w) && !w.ended && !Dropped(w.st, p) && (p.video ==> p.pts.Some?)
    ensures ClockInv(c, w.(st := Clocked(c, w.st, p)))
    ensures var s := Clocked(c, w.st, p);
            p.video ==> s.duration == c.Seconds(p.pts.value - Since(s.startPts.value, w.splits, |w.splits|))
  {}

  lemma SplitKeepsClock(c: Config, w: World, p: Packet, tell: int)
    requires c.Valid() && ClockInv(c, w) && !w.ended && w.st.keyFound && Splits(c, w.st, p)
    requires w.st.duration == c.Seconds(p.pts.value - Since(w.st.startPts.value, w.splits, |w.splits|))
    ensures var a := SplitSpec(c, w.st, p.pts, tell);
            ClockInv(c, World(a.st, w.created + [Current(w.st, tell)], w.gone + Reverse(a.deleted),
                              w.splits + [p.pts.value], false))
  {
    TimedAppend(c, w.st.startPts.value, w.created, w.splits, Current(w.st, tell), p.pts.value);
  }

  lemma WriteKeepsClock(c: Config, w: World, p: Packet, tell: int)
    requires c.Valid() && ClockInv(c, w) && !w.ended && !Dropped(w.st, p) && (p.video ==> p.pts.Some?)
    ensures ClockInv(c, Step(c, w, Write(p, tell)))
  {
    ClockedKeepsClock(c, w, p);
    var w1 := w.(st := Clocked(c, w.st, p));
    if Splits(c, w1.st, p) {
      SplitKeepsClock(c, w1, p, tell);
    }
  }

  lemma StepKeepsClock(c: Config, w: World, e: Event)
    requires c.Valid() && ClockInv(c, w) && Stamped(e)
    ensures ClockInv(c, Step(c, w, e))
  {
    if !w.ended {
      match e
      case Write(p, tell) => if !Dropped(w.st, p) { WriteKeepsClock(c, w, p, tell); }
      case Trailer(tell) => TrailerKeepsClock(c, w, tell);
    }
  }

  lemma TrailerKeepsClock(c: Config, w: World, tell: int)
    requires c.Valid() && ClockInv(c, w) && !w.ended
    ensures ClockInv(c, Step(c, w, Trailer(tell)))
  {
    var w' := Step(c, w, Trailer(tell));
    assert w'.created == w.created + [Current(w.st, tell)] && w'.splits == w.splits && w'.ended;
    if w.st.keyFound {
      TimedExtend(c, w.st.startPts.value, w.created, w.splits, Current(w.st, tell));
    }
  }

  lemma TimedExtend(c: Config, start: int, created: seq<Segment>, splits: seq<int>, x: Segment)
    requires c.Valid() && Timed(c, start, created, splits)
    ensures Timed(c, start, created + [x], splits)
  {
    assert forall k :: 0 <= k < |splits| ==> (created + [x])[k] == created[k];
  }

  lemma {:induction false} RunKeepsClock(c: Config, w: World, es: seq<Event>)
    requires c.Valid() && ClockInv(c, w) && forall e <- es :: Stamped(e)
    ensures ClockInv(c, Run(c, w, es))
    decreases es
  {
    hide ClockInv, Step;
    if es != [] {
      assert es[0] in es;
      StepKeepsClock(c, w, es[0]);
      RunKeepsClock(c, Step(c, w, es[0]), es[1..]);
    }
  }

  lemma SecondsAdd(c: Config, a: int, b: int)
    requires c.Valid()
    ensures c.Seconds(a + b) == c.Seconds(a) + c.Seconds(b)
  {}

  lemma {:induction false} DurationsTelescope(c: Config, start: int, created: seq<Segment>, splits: seq<int>, n: nat)
    requires c.Valid() && Timed(c, start, created, splits) && n <= |splits|
    ensures Prefix(created, n) == c.Seconds(Since(start, splits, n) - start)
  {
    if n == 0 {
      assert created[..0] == [];
      SecondsAdd(c, 0, 0);
    } else {
      DurationsTelescope(c, start, created, splits, n - 1);
      assert created[..n][..n - 1] == created[..n - 1];
      SecondsAdd(c, Since(start, splits, n - 1) - start, splits[n - 1] - Since(start, splits, n - 1));
    }
  }

  /** The k-th split comes no sooner than k recording times after the start, and the durations
      of the segments closed by splits add up to the last split less the start. */
  lemma SplitClock(c: Config, es: seq<Event>)
    requires c.Valid() && forall e <- es :: Stamped(e)
    ensures var w := Run(c, Init(c), es);
            var n := |w.splits|;
            n > 0 ==>
              && w.st.startPts.Some? && n <= |w.created|
              && (forall k :: 1 <= k <= n ==> c.Reached(w.splits[k - 1] - w.st.startPts.value, c.recordingTime * k))
              && Prefix(w.created, n) == c.Seconds(w.splits[n - 1] - w.st.startPts.value)
  {
    hide Run;
    assert ClockInv(c, Init(c));
    RunKeepsClock(c, Init(c), es);
    var w := Run(c, Init(c), es);
    if |w.splits| > 0 {
      DurationsTelescope(c, w.st.startPts.value, w.created, w.splits, |w.splits|);
    }
  }

  // -------------------------------------------------- byte ranges and key frames

  /** The closed segments tile the file up to where the current one starts. */
  predicate TileInv(w: World) { !w.ended ==> Tiles(w.created, w.st.startPos) }

  lemma ClockedKeepsPos(c: Config, s: State, p: Packet)
    requires c.Valid()
    ensures Clocked(c, s, p).startPos == s.startPos
  {}

  lemma StepKeepsTiles(c: Config, w: World, e: Event)
    requires c.Valid() && TileInv(w)
    ensures TileInv(Step(c, w, e))
  {
    hide Append, Splits, Clocked, Reverse;
    if !w.ended && e.Write? && !Dropped(w.st, e.p) {
      var s1 := Clocked(c, w.st, e.p);
      ClockedKeepsPos(c, w.st, e.p);
      TilesAppend(w.created, s1.startPos, Current(s1, e.tell));
    }
  }

  lemma {:induction false} RunKeepsTiles(c: Config, w: World, es: seq<Event>)
    requires c.Valid() && TileInv(w)
    ensures TileInv(Run(c, w, es))
    decreases es
  {
    hide TileInv, Step;
    if es != [] {
      StepKeepsTiles(c, w, es[0]);
      RunKeepsTiles(c, Step(c, w, es[0]), es[1..]);
    }
  }

  /** Byte ranges tile the file, whatever stamps the packets carry: each segment starts where
      the one before ends, the first at 0, and the trailer's segment ends at the end of the file. */
  lemma RangesTileTheFile(c: Config, es: seq<Event>, tell: int)
    requires c.Valid() && !Run(c, Init(c), es).ended
    ensures Tiles(Step(c, Run(c, Init(c), es), Trailer(tell)).created, tell)
  {
    hide Run, Append;
    RunKeepsTiles(c, Init(c), es);
    var w := Run(c, Init(c), es);
    TilesAppend(w.created, w.st.startPos, Current(w.st, tell));
  }

  /** Write positions that only move on, from `from`. */
  predicate MovesOn(es: seq<Event>, from: int) { es != [] ==> from <= es[0].tell && MovesOn(es[1..], es[0].tell) }

  /** No range is negative, and the current segment starts no later than `at`. */
  predicate SizesInv(w: World, at: int) {
    && (!w.ended ==> 0 <= w.st.startPos <= at)
    && forall k :: 0 <= k < |w.created| ==> w.created[k].pos >= 0 && w.created[k].size >= 0
  }

  lemma StepKeepsSizes(c: Config, w: World, e: Event, at: int)
    requires c.Valid() && SizesInv(w, at) && at <= e.tell
    ensures SizesInv(Step(c, w, e), e.tell)
  {
    hide Append, Splits, Clocked, Reverse;
    if !w.ended && e.Write? && !Dropped(w.st, e.p) {
      ClockedKeepsPos(c, w.st, e.p);
    }
    AppendKeepsPos(c, w.st, w.st.duration, w.st.startPos, e.tell - w.st.startPos);
  }

  lemma AppendKeepsPos(c: Config, s: State, duration: real, pos: int, size: int)
    ensures Append(c, s, duration, pos, size).st.startPos == s.startPos
  {}

  lemma {:induction false} RunKeepsSizes(c: Config, w: World, es: seq<Event>, at: int) returns (to: int)
    requires c.Valid() && SizesInv(w, at) && MovesOn(es, at)
    ensures SizesInv(Run(c, w, es), to)
    decreases es
  {
    hide SizesInv, Step;
    to := at;
    if es != [] {
      StepKeepsSizes(c, w, es[0], at);
      to := RunKeepsSizes(c, Step(c, w, es[0]), es[1..], es[0].tell);
    }
  }

  /** When write positions only move on, no range has a negative position or size. */
  lemma RangesAreRanges(c: Config, es: seq<Event>)
    requires c.Valid() && MovesOn(es, 0)
    ensures var created := Run(c, Init(c), es).created;
            forall k :: 0 <= k < |created| ==> created[k].pos >= 0 && created[k].size >= 0
  {
    hide Run;
    var _ := RunKeepsSizes(c, Init(c), es, 0);
  }

  /** What tiling means for each pair of neighbours. */
  lemma {:induction false} TilesAreAdjacent(created: seq<Segment>, end: int)
    requires Tiles(created, end) && created != []
    ensures created[0].pos == 0 && created[|created| - 1].pos + created[|created| - 1].size == end
    ensures forall k :: 0 <= k < |created| - 1 ==> created[k].pos + created[k].size == created[k + 1].pos
  {
    if |created| > 1 {
      var front := created[..|created| - 1];
      TilesAreAdjacent(front, created[|created| - 1].pos);
      assert forall k :: 0 <= k < |front| ==> front[k] == created[k];
    }
  }

  /** A key frame of the video stream with a stamp. */
  predicate IsKey(e: Event) { e.Write? && e.p.video && e.p.key && e.p.pts.Some? }

  /** The stamps of the key frames, in order. */
  function KeyStamps(es: seq<Event>): seq<int> {
    if es == [] then []
    else if IsKey(es[0]) then [es[0].p.pts.value] + KeyStamps(es[1..]) else KeyStamps(es[1..])
  }

  /** `a` is `b` with some elements left out. */
  predicate Among(a: seq<int>, b: seq<int>) {
    a == [] || (b != [] && ((a[0] == b[0] && Among(a[1..], b[1..])) || Among(a, b[1..])))
  }

  lemma StepSplitsAtKey(c: Config, w: World, e: Event)
    requires c.Valid()
    ensures var w' := Step(c, w, e);
            w'.splits == w.splits || (IsKey(e) && w'.splits == w.splits + [e.p.pts.value])
  {}

  lemma {:induction false} RunSplitsAtKeys(c: Config, w: World, es: seq<Event>) returns (more: seq<int>)
    requires c.Valid()
    ensures Run(c, w, es).splits == w.splits + more && Among(more, KeyStamps(es))
    decreases es
  {
    hide Step;
    more := [];
    if es != [] {
      StepSplitsAtKey(c, w, es[0]);
      var w' := Step(c, w, es[0]);
      more := RunSplitsAtKeys(c, w', es[1..]);
      if w'.splits != w.splits {
        var x := [es[0].p.pts.value];
        assert w.splits + x + more == w.splits + (x + more);
        assert (x + more)[1..] == more && KeyStamps(es)[1..] == KeyStamps(es[1..]);
        more := x + more;
      } else if IsKey(es[0]) {
        assert KeyStamps(es)[1..] == KeyStamps(es[1..]);
      }
    } else {
      assert w.splits + [] == w.splits;
    }
  }

  /** Over a whole run, segments split at stamped key frames of the video stream and nowhere
      else, each at its own, in their order. */
  lemma SplitsAtKeyFrames(c: Config, es: seq<Event>)
    requires c.Valid()
    ensures Among(Run(c, Init(c), es).splits, KeyStamps(es))
  {
    hide Run;
    var more := RunSplitsAtKeys(c, Init(c), es);
    assert [] + more == more;
  }

  /** Of the stamps `ts`, those at least `n`, `n + 1`, ... recording times behind `start`, each taken
      as soon as it is due: num/den of a second to a tick, 1000000 microseconds to a second. */
  function Due(c: Config, start: int, n: nat, ts: seq<int>): seq<int>
    decreases |ts|
  {
    if ts == [] then []
    else if IsDue(c, ts[0] - start, n) then [ts[0]] + Due(c, start, n + 1, ts[1..])
    else Due(c, start, n, ts[1..])
  }

  predicate IsDue(c: Config, ticks: int, n: nat) { ticks * c.num * 1000000 >= c.recordingTime * n * c.den }

  /** A stamped key frame splits exactly when it is due. */
  lemma KeySplitsIff(c: Config, w: World, e: Event)
    requires c.Valid() && ClockInv(c, w) && !w.ended && e.Write? && Stamped(e)
    ensures var w', n := Step(c, w, e), |w.splits| + 1;
            && !w'.ended
            && (if IsKey(e) then
                  var t := e.p.pts.value;
                  var start := if w.st.keyFound then w.st.startPts.value else t;
                  && w'.st.keyFound && w'.st.startPts == Some(start)
                  && w'.splits == w.splits + (if IsDue(c, t - start, n) then [t] else [])
                else w'.splits == w.splits && w'.st.keyFound == w.st.keyFound && w'.st.startPts == w.st.startPts)
  {
    assert w.splits + [] == w.splits;
  }

  /** The splits still to come at the key frames `ts`, of which the first is the start unless the
      program has started. */
  function ToCome(c: Config, start: Option<int>, n: nat, ts: seq<int>): seq<int> {
    if ts == [] then [] else Due(c, if start.Some? then start.value else ts[0], n, ts)
  }

  lemma ComesNext(c: Config, start: Option<int>, n: nat, t: int, more: seq<int>)
    ensures var from := if start.Some? then start.value else t;
            ToCome(c, start, n, [t] + more)
            == if IsDue(c, t - from, n) then [t] + ToCome(c, Some(from), n + 1, more)
               else ToCome(c, Some(from), n, more)
  {
    hide IsDue;
    assert ([t] + more)[1..] == more;
  }

  lemma {:induction false} SplitsFrom(c: Config, w: World, es: seq<Event>)
    requires c.Valid() && ClockInv(c, w) && !w.ended && (forall e <- es :: e.Write? && Stamped(e))
    requires w.st.keyFound <==> w.st.startPts.Some?
    ensures Run(c, w, es).splits == w.splits + ToCome(c, w.st.startPts, |w.splits| + 1, KeyStamps(es))
    decreases es
  {
    hide Step, ClockInv, ToCome, IsDue, Stamped;
    if es == [] {
      assert ToCome(c, w.st.startPts, |w.splits| + 1, []) == [] by { NoneToCome(c, w.st.startPts, |w.splits| + 1); }
      assert w.splits + [] == w.splits;
    } else {
      assert es[0] in es && forall e <- es[1..] :: e in es;
      var w', more, n := Step(c, w, es[0]), KeyStamps(es[1..]), |w.splits| + 1;
      KeySplitsIff(c, w, es[0]);
      StepKeepsClock(c, w, es[0]);
      SplitsFrom(c, w', es[1..]);
      if IsKey(es[0]) {
        var t := es[0].p.pts.value;
        ComesNext(c, w.st.startPts, n, t, more);
        if w'.splits == w.splits + [t] {
          Associative(w.splits, [t], ToCome(c, w'.st.startPts, n + 1, more));
        }
      }
    }
  }

  lemma NoneToCome(c: Config, start: Option<int>, n: nat)
    ensures ToCome(c, start, n, []) == []
  {}

  /** Over a whole run that goes on, the splits are exactly the stamps of key frames that are due:
      the k-th is the first key frame behind the one before that is at least k recording times
      behind the first key frame of all. */
  lemma DueKeyFramesSplit(c: Config, es: seq<Event>)
    requires c.Valid() && forall e <- es :: e.Write? && Stamped(e)
    ensures var ts := KeyStamps(es);
            Run(c, Init(c), es).splits == if ts == [] then [] else Due(c, ts[0], 1, ts)
  {
    hide Run;
    SplitsFrom(c, Init(c), es);
  }

  /** The stamp of the last video packet, if there is one. */
  function LastStamp(es: seq<Event>): Option<int>
    requires forall e <- es :: Stamped(e)
  {
    if es == [] then None
    else if es[|es| - 1].Write? && es[|es| - 1].p.video then es[|es| - 1].p.pts
    else LastStamp(es[..|es| - 1])
  }

  lemma {:induction false} RunEndsWith(c: Config, w: World, es: seq<Event>, e: Event)
    requires c.Valid()
    ensures Run(c, w, es + [e]) == Step(c, Run(c, w, es), e)
    decreases es
  {
    hide Step;
    if es == [] {
      assert Run(c, Step(c, w, e), []) == Step(c, w, e);
    } else {
      assert (es + [e])[1..] == es[1..] + [e];
      RunEndsWith(c, Step(c, w, es[0]), es[1..], e);
    }
  }

  /** The current segment lasts from the last split to the last video packet, whose stamp is `last`. */
  ghost predicate Lasts(c: Config, w: World, last: Option<int>)
    requires c.Valid()
  {
    && ClockInv(c, w) && !w.ended
    && (w.st.keyFound ==> last.Some?)
    && (w.st.keyFound ==>
          w.st.duration == c.Seconds(last.value - Since(w.st.startPts.value, w.splits, |w.splits|)))
  }

  lemma InitLasts(c: Config)
    requires c.Valid()
    ensures Lasts(c, Init(c), None) && Run(c, Init(c), []) == Init(c)
  {}

  lemma StepKeepsLasts(c: Config, w: World, last: Option<int>, e: Event)
    requires c.Valid() && Lasts(c, w, last) && e.Write? && Stamped(e)
    ensures Lasts(c, Step(c, w, e), if e.p.video then e.p.pts else last)
  {
    hide Step, ClockInv;
    StepKeepsClock(c, w, e);
    StepLasts(c, w, e);
  }

  lemma {:induction false} CurrentLasts(c: Config, es: seq<Event>)
    requires c.Valid() && forall e <- es :: e.Write? && Stamped(e)
    ensures Lasts(c, Run(c, Init(c), es), LastStamp(es))
    decreases |es|
  {
    hide Lasts, Run, Step;
    if es == [] {
      InitLasts(c);
    } else {
      var front, e := es[..|es| - 1], es[|es| - 1];
      assert es == front + [e] && e in es && forall x <- front :: x in es;
      CurrentLasts(c, front);
      RunEndsWith(c, Init(c), front, e);
      StepKeepsLasts(c, Run(c, Init(c), front), LastStamp(front), e);
    }
  }

  lemma StepLasts(c: Config, w: World, e: Event)
    requires c.Valid() && ClockInv(c, w) && !w.ended && e.Write? && Stamped(e)
    ensures var w' := Step(c, w, e);
            && !w'.ended
            && (w'.st.keyFound && e.p.video ==>
                  w'.st.duration == c.Seconds(e.p.pts.value - Since(w'.st.startPts.value, w'.splits, |w'.splits|)))
            && (w'.st.keyFound && !e.p.video ==>
                  w.st.keyFound && w'.st.duration == w.st.duration && w'.splits == w.splits
                  && w'.st.startPts == w.st.startPts)
  {
    hide Append;
    assert c.Seconds(0) == 0.0;
  }

  lemma TrailerLasts(c: Config, w: World, last: Option<int>, start: int, tell: int)
    requires c.Valid() && Lasts(c, w, last) && w.st.keyFound && w.st.startPts == Some(start)
    ensures last.Some?
    ensures SegmentsLast(c, Step(c, w, Trailer(tell)), start, last.value)
  {
    hide Step;
    TrailerCloses(c, w, tell);
    var created := Step(c, w, Trailer(tell)).created;
    assert forall k :: 0 <= k < |w.created| ==> created[k] == created[..|w.created|][k];
  }

  /** The durations of all segments of a program that began at `start` and ended at `last`. */
  ghost predicate SegmentsLast(c: Config, w: World, start: int, last: int)
    requires c.Valid()
  {
    var n := |w.splits|;
    && |w.created| == n + 1
    && (forall k :: 0 <= k < n ==> w.created[k].duration == c.Seconds(w.splits[k] - Since(start, w.splits, k)))
    && w.created[n].duration == c.Seconds(last - Since(start, w.splits, n))
  }

  /** So the segment that the trailer closes lasts from the last split, or from the first key frame,
      to the last video packet, and those before it from split to split. */
  lemma LastSegmentLasts(c: Config, es: seq<Event>, tell: int)
    requires c.Valid() && (forall e <- es :: e.Write? && Stamped(e)) && KeyStamps(es) != []
    ensures LastStamp(es).Some?
    ensures SegmentsLast(c, Step(c, Run(c, Init(c), es), Trailer(tell)), KeyStamps(es)[0], LastStamp(es).value)
  {
    hide Run, Step, ClockInv, Init, KeyStamps, LastStamp, SegmentsLast, Stamped;
    CurrentLasts(c, es);
    InitLasts(c);
    InitNotFound(c);
    StartIsFirstKey(c, Init(c), es);
    TrailerLasts(c, Run(c, Init(c), es), LastStamp(es), KeyStamps(es)[0], tell);
  }

  lemma InitNotFound(c: Config)
    ensures !Init(c).st.keyFound
  {}

  lemma ClockGives(c: Config, w: World)
    requires c.Valid() && ClockInv(c, w)
    ensures w.st.keyFound <==> w.st.startPts.Some?
    ensures w.st.keyFound ==> Timed(c, w.st.startPts.value, w.created, w.splits)
    ensures |w.created| == |w.splits| + if w.ended then 1 else 0
  {}

  lemma TrailerCloses(c: Config, w: World, tell: int)
    requires c.Valid() && !w.ended
    ensures var w' := Step(c, w, Trailer(tell));
            w'.splits == w.splits && |w'.created| == |w.created| + 1 && w'.created[..|w.created|] == w.created
            && w'.created[|w.created|].duration == w.st.duration
  {
    hide Append;
  }

  lemma {:induction false} StartIsFirstKey(c: Config, w: World, es: seq<Event>)
    requires c.Valid() && ClockInv(c, w) && !w.ended && forall e <- es :: e.Write? && Stamped(e)
    ensures var s := Run(c, w, es).st;
            if w.st.keyFound then s.keyFound && s.startPts == w.st.startPts
            else if KeyStamps(es) == [] then !s.keyFound
            else s.keyFound && s.startPts == Some(KeyStamps(es)[0])
    decreases es
  {
    hide ClockInv, Step;
    if es != [] {
      assert es[0] in es && forall e <- es[1..] :: e in es;
      ClockGives(c, w);
      KeySplitsIff(c, w, es[0]);
      StepKeepsClock(c, w, es[0]);
      StartIsFirstKey(c, Step(c, w, es[0]), es[1..]);
    }
  }

  /** Target durations are rounded up, and no further than to the next whole number. */
  lemma CeilIsLeast(x: real)
    ensures x <= Ceil(x) as real < x + 1.0
  {}
}
