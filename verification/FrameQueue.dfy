/**
  The frame queue of ffplay2.c: a ring filled by a decoder thread and drained by a
  display or audio thread. `rindex` and `windex` move outside the lock, `size` inside
  it, so every such statement is a step of its own.
 */
module FrameQueue {
  import opened Bytes
  import opened Wrappers

  datatype Frame = Frame(serial: int, pos: int)

  /** The memory both threads share; a released slot holds no frame. */
  datatype Ring = Ring(slots: seq<Option<Frame>>, keepLast: bool, rindex: nat, windex: nat, size: int, shown: nat) {
    function Max(): nat { |slots| }
  }

  // ------------------------------------- the statements of the two threads

  function Put(r: Ring, f: Frame): Ring
    requires r.windex < r.Max()
  {
    r.(slots := r.slots[r.windex := Some(f)])
  }

  function BumpW(r: Ring): Ring { r.(windex := r.windex + 1) }

  function WrapW(r: Ring): Ring { if r.windex == r.Max() then r.(windex := 0) else r }

  function Grow(r: Ring): Ring { r.(size := r.size + 1) }

  function Release(r: Ring): Ring
    requires r.rindex < r.Max()
  {
    r.(slots := r.slots[r.rindex := None])
  }

  function BumpR(r: Ring): Ring { r.(rindex := r.rindex + 1) }

  function WrapR(r: Ring): Ring { if r.rindex == r.Max() then r.(rindex := 0) else r }

  function Shrink(r: Ring): Ring { r.(size := r.size - 1) }

  // ----------------------------------- the methods, each run without interference

  class Queue {
    const queue: array<Option<Frame>>
    const keepLast: bool
    var rindex: nat
    var windex: nat
    var size: int
    var shown: nat

    function State(): Ring
      reads this, queue
    {
      Ring(queue[..], keepLast, rindex, windex, size, shown)
    }

    /** frame_queue_init; the array of the source has FRAME_QUEUE_SIZE slots. */
    constructor (maxSize: nat, capacity: nat, keepLast: bool)
      requires 1 <= maxSize && 1 <= capacity
      ensures fresh(queue)
      ensures State() == Initial(if maxSize < capacity then maxSize else capacity, keepLast)
    {
      var n := if maxSize < capacity then maxSize else capacity;
      queue := new Option<Frame>[n](_ => None);
      this.keepLast := keepLast;
      rindex, windex, size, shown := 0, 0, 0, 0;
      new;
      assert queue[..] == seq(n, _ => None);
    }

    /** frame_queue_peek_writable and the caller's stores: None while it would wait or abort. */
    method Fill(f: Frame, abort: bool) returns (ok: bool)
      requires windex < queue.Length
      modifies queue
      ensures ok <==> size < queue.Length && !abort
      ensures State() == if ok then Put(old(State()), f) else old(State())
    {
      ok := size < queue.Length && !abort;
      if ok {
        queue[windex] := Some(f);
      }
    }

    /** frame_queue_push. */
    method Push()
      modifies this`windex, this`size
      ensures State() == Grow(WrapW(BumpW(old(State()))))
    {
      windex := windex + 1;
      if windex == queue.Length {
        windex := 0;
      }
      size := size + 1;
    }

    /** frame_queue_next. */
    method Next()
      requires rindex < queue.Length
      modifies this`rindex, this`size, this`shown, queue
      ensures State() == if keepLast && old(shown) == 0 then old(State()).(shown := 1)
                         else Shrink(WrapR(BumpR(Release(old(State())))))
    {
      if keepLast && shown == 0 {
        shown := 1;
        return;
      }
      queue[rindex] := None;
      rindex := rindex + 1;
      if rindex == queue.Length {
        rindex := 0;
      }
      size := size - 1;
    }

    /** frame_queue_prev. */
    method Prev() returns (ret: nat)
      modifies this`shown
      ensures ret == old(shown) && State() == old(State()).(shown := 0)
    {
      ret := shown;
      shown := 0;
    }
  }

  function Initial(n: nat, keepLast: bool): Ring {
    Ring(seq(n, _ => None), keepLast, 0, 0, 0, 0)
  }

  // --------------------------------------------- the two threads, interleaved

  datatype Producer = Idle | Filling | Bumped | Wrapped

  /** Ready(n): the consumer has seen at least n frames it has not shown yet. */
  datatype Consumer = Resting | Ready(n: nat) | Released | Advanced | Settled

  /** `pushed` and `released` are the histories of what entered and what left. */
  datatype Sys = Sys(ring: Ring, producer: Producer, consumer: Consumer, pushed: seq<Frame>, released: seq<Frame>)

  datatype Action =
    | PeekWritable | Store(f: Frame) | Abandon | IncW | WrapAroundW | SizeUp
    | Remaining | ShowPrevious | NextKeeps | Unref | IncR | WrapAroundR | SizeDown

  function Init(n: nat, keepLast: bool): Sys {
    Sys(Initial(n, keepLast), Idle, Resting, [], [])
  }

  /** One step of either thread; an action that is not next for its thread does nothing. */
  function Step(s: Sys, a: Action): Sys {
    var r := s.ring;
    match a
    case PeekWritable => if s.producer.Idle? && r.size < r.Max() then s.(producer := Filling) else s
    case Store(f) => if s.producer.Filling? && r.windex < r.Max() then s.(ring := Put(r, f)) else s
    case Abandon => if s.producer.Filling? then s.(producer := Idle) else s
    case IncW =>
      if s.producer.Filling? && r.windex < r.Max() && r.slots[r.windex].Some?
      then s.(ring := BumpW(r), producer := Bumped, pushed := s.pushed + [r.slots[r.windex].value])
      else s
    case WrapAroundW => if s.producer.Bumped? then s.(ring := WrapW(r), producer := Wrapped) else s
    case SizeUp => if s.producer.Wrapped? then s.(ring := Grow(r), producer := Idle) else s
    case Remaining =>
      if (s.consumer.Resting? || s.consumer.Ready?) && r.size - r.shown > 0
      then s.(consumer := Ready(r.size - r.shown)) else s
    case ShowPrevious => if s.consumer.Resting? then s.(ring := r.(shown := 0)) else s
    case NextKeeps =>
      if s.consumer.Ready? && r.keepLast && r.shown == 0 then s.(ring := r.(shown := 1), consumer := Resting) else s
    case Unref =>
      if s.consumer.Ready? && !(r.keepLast && r.shown == 0) && r.rindex < r.Max() && r.slots[r.rindex].Some?
      then s.(ring := Release(r), consumer := Released, released := s.released + [r.slots[r.rindex].value])
      else s
    case IncR => if s.consumer.Released? then s.(ring := BumpR(r), consumer := Advanced) else s
    case WrapAroundR => if s.consumer.Advanced? then s.(ring := WrapR(r), consumer := Settled) else s
    case SizeDown => if s.consumer.Settled? then s.(ring := Shrink(r), consumer := Resting) else s
  }

  function Run(s: Sys, actions: seq<Action>): Sys
    decreases actions
  {
    if actions == [] then s else Run(Step(s, actions[0]), actions[1..])
  }

  /** Without interference the three steps of a push are the method Push. */
  lemma UninterruptedPush(s: Sys)
    requires s.producer.Filling? && s.ring.windex < s.ring.Max() && s.ring.slots[s.ring.windex].Some?
    ensures Step(Step(Step(s, IncW), WrapAroundW), SizeUp)
            == s.(ring := Grow(WrapW(BumpW(s.ring))), producer := Idle,
                  pushed := s.pushed + [s.ring.slots[s.ring.windex].value])
  {}

  /** Without interference the four steps of a release are the method Next. */
  lemma UninterruptedNext(s: Sys)
    requires s.consumer.Ready? && !(s.ring.keepLast && s.ring.shown == 0)
    requires s.ring.rindex < s.ring.Max() && s.ring.slots[s.ring.rindex].Some?
    ensures Step(Step(Step(Step(s, Unref), IncR), WrapAroundR), SizeDown)
            == s.(ring := Shrink(WrapR(BumpR(Release(s.ring)))), consumer := Resting,
                  released := s.released + [s.ring.slots[s.ring.rindex].value])
  {}

  // ---------------------------------------------------------------- invariant

  /** Frames counted into `size`: one may be pushed but not counted, one released but still counted. */
  function Counted(s: Sys): int { |s.pushed| - (if s.producer.Bumped? || s.producer.Wrapped? then 1 else 0) }

  function Freed(s: Sys): int {
    |s.released| - (if s.consumer.Released? || s.consumer.Advanced? || s.consumer.Settled? then 1 else 0)
  }

  ghost predicate Indices(s: Sys) {
    var r, w, f := s.ring, Counted(s), Freed(s);
    && r.Max() > 0 && 0 <= f <= w && r.size == w - f <= r.Max()
    && (!s.producer.Idle? ==> r.size < r.Max())
    && r.windex == (match s.producer
                    case Idle => w % r.Max()
                    case Filling => w % r.Max()
                    case Bumped => w % r.Max() + 1
                    case Wrapped => (w + 1) % r.Max())
    && r.rindex == (match s.consumer
                    case Resting => f % r.Max()
                    case Ready(_) => f % r.Max()
                    case Released => f % r.Max()
                    case Advanced => f % r.Max() + 1
                    case Settled => (f + 1) % r.Max())
  }

  ghost predicate Shown(s: Sys) {
    var r := s.ring;
    && r.shown <= 1 && (r.shown == 1 ==> r.keepLast) && r.shown <= r.size
    && (s.consumer.Ready? ==> 1 <= s.consumer.n <= r.size - r.shown)
    && (s.consumer.Released? || s.consumer.Advanced? || s.consumer.Settled? ==>
          r.shown < r.size && (r.keepLast ==> r.shown == 1))
  }

  /** Every frame pushed and not released sits in its own slot. */
  ghost predicate Contents(s: Sys)
    requires s.ring.Max() > 0
  {
    && |s.released| <= |s.pushed| && s.released == s.pushed[..|s.released|]
    && forall k :: |s.released| <= k < |s.pushed| ==> s.ring.slots[k % s.ring.Max()] == Some(s.pushed[k])
  }

  ghost predicate Inv(s: Sys) { Indices(s) && Shown(s) && Contents(s) }

  lemma ModSucc(a: nat, m: nat)
    requires m > 0
    ensures (a + 1) % m == if a % m + 1 == m then 0 else a % m + 1
  {
    var r := if a % m + 1 == m then 0 else a % m + 1;
    var q := if a % m + 1 == m then a / m + 1 else a / m;
    assert a + 1 == m * q + r;
    ModUnique(a + 1, m, q, r);
  }

  lemma StoreKeepsInv(s: Sys, f: Frame)
    requires Inv(s)
    ensures Inv(Step(s, Store(f)))
  {
    var m := s.ring.Max();
    if s.producer.Filling? {
      forall k | |s.released| <= k < |s.pushed|
        ensures k % m != |s.pushed| % m
      {
        SlotsDiffer(k, |s.pushed|, m);
      }
    }
  }

  lemma UnrefKeepsInv(s: Sys)
    requires Inv(s)
    ensures Inv(Step(s, Unref))
  {
    var m := s.ring.Max();
    var f := |s.released|;
    if s.consumer.Ready? && f < |s.pushed| {
      assert s.ring.slots[f % m] == Some(s.pushed[f]);
      forall k | f < k < |s.pushed|
        ensures k % m != f % m
      {
        SlotsDiffer(f, k, m);
      }
    }
  }

  lemma WrapWKeepsInv(s: Sys)
    requires Inv(s)
    ensures Inv(Step(s, WrapAroundW))
  {
    if s.producer.Bumped? {
      ModSucc(Counted(s), s.ring.Max());
    }
  }

  lemma WrapRKeepsInv(s: Sys)
    requires Inv(s)
    ensures Inv(Step(s, WrapAroundR))
  {
    if s.consumer.Advanced? {
      ModSucc(Freed(s), s.ring.Max());
    }
  }

  lemma ProducerKeepsInv(s: Sys, a: Action)
    requires Inv(s) && (a.PeekWritable? || a.Abandon? || a.SizeUp?)
    ensures Inv(Step(s, a))
  {}

  lemma ConsumerKeepsInv(s: Sys, a: Action)
    requires Inv(s) && (a.Remaining? || a.ShowPrevious? || a.NextKeeps?)
    ensures Inv(Step(s, a))
  {}

  lemma ReleaseKeepsInv(s: Sys, a: Action)
    requires Inv(s) && (a.IncR? || a.SizeDown?)
    ensures Inv(Step(s, a))
  {}

  lemma IncWKeepsInv(s: Sys)
    requires Inv(s)
    ensures Inv(Step(s, IncW))
  {}

  lemma StepKeepsInv(s: Sys, a: Action)
    requires Inv(s)
    ensures Inv(Step(s, a))
  {
    hide Inv;
    match a
    case Store(f) => StoreKeepsInv(s, f);
    case Unref => UnrefKeepsInv(s);
    case IncW => IncWKeepsInv(s);
    case WrapAroundW => WrapWKeepsInv(s);
    case WrapAroundR => WrapRKeepsInv(s);
    case PeekWritable => ProducerKeepsInv(s, a);
    case Abandon => ProducerKeepsInv(s, a);
    case SizeUp => ProducerKeepsInv(s, a);
    case IncR => ReleaseKeepsInv(s, a);
    case SizeDown => ReleaseKeepsInv(s, a);
    case _ => ConsumerKeepsInv(s, a);
  }

  lemma StepKeepsSize(s: Sys, a: Action)
    ensures Step(s, a).ring.Max() == s.ring.Max()
  {}

  lemma {:induction false} RunKeepsInv(s: Sys, actions: seq<Action>)
    requires Inv(s)
    ensures Inv(Run(s, actions)) && Run(s, actions).ring.Max() == s.ring.Max()
    decreases actions
  {
    hide Inv;
    if actions != [] {
      StepKeepsInv(s, actions[0]);
      StepKeepsSize(s, actions[0]);
      hide Step;
      RunKeepsInv(Step(s, actions[0]), actions[1..]);
    }
  }

  // ---------------------------------------------------- what every run satisfies

  function AnyRun(n: nat, keepLast: bool, actions: seq<Action>): Sys { Run(Init(n, keepLast), actions) }

  lemma Reached(n: nat, keepLast: bool, actions: seq<Action>)
    requires n >= 1
    ensures Inv(AnyRun(n, keepLast, actions)) && AnyRun(n, keepLast, actions).ring.Max() == n
  {
    assert Inv(Init(n, keepLast));
    RunKeepsInv(Init(n, keepLast), actions);
  }

  lemma ModAdd(x: nat, y: int, m: nat)
    requires m > 0
    ensures (x % m + y) % m == (x + y) % m
  {
    var z := x % m + y;
    assert x + y == m * (x / m) + z;
    assert m * (x / m + z / m) == m * (x / m) + m * (z / m);
    ModUnique(x + y, m, x / m + z / m, z % m);
  }

  /** Slots the producer has moved past, and slots the consumer has. */
  function Passed(s: Sys): (int, int) {
    (Counted(s) + if s.producer.Bumped? || s.producer.Wrapped? then 1 else 0,
     Freed(s) + if s.consumer.Advanced? || s.consumer.Settled? then 1 else 0)
  }

  /** Each index is where its thread is, modulo the length, wrapped around yet or not. */
  lemma IndexResidues(s: Sys)
    requires Indices(s)
    ensures s.ring.windex % s.ring.Max() == Passed(s).0 % s.ring.Max()
    ensures s.ring.rindex % s.ring.Max() == Passed(s).1 % s.ring.Max()
  {
    ModAdd(Counted(s), 0, s.ring.Max());
    ModAdd(Counted(s), 1, s.ring.Max());
    ModAdd(Freed(s), 0, s.ring.Max());
    ModAdd(Freed(s), 1, s.ring.Max());
    ModAdd(Counted(s) + 1, 0, s.ring.Max());
    ModAdd(Freed(s) + 1, 0, s.ring.Max());
  }

  /** The two unlocked indices agree with the locked size at every moment, up to the one slot
      each thread may have moved past and not yet counted; an index equal to the length is one
      that its thread has incremented and not yet wrapped around. */
  lemma IndicesAgree(n: nat, keepLast: bool, actions: seq<Action>)
    requires n >= 1
    ensures var s := AnyRun(n, keepLast, actions);
            var ahead := (if s.producer.Bumped? || s.producer.Wrapped? then 1 else 0)
                         - (if s.consumer.Advanced? || s.consumer.Settled? then 1 else 0);
            && 0 <= s.ring.size <= n
            && s.ring.windex % n == (s.ring.rindex + s.ring.size + ahead) % n
            && s.ring.windex <= n && (s.ring.windex == n ==> s.producer.Bumped?)
            && s.ring.rindex <= n && (s.ring.rindex == n ==> s.consumer.Advanced?)
  {
    Reached(n, keepLast, actions);
    var s := AnyRun(n, keepLast, actions);
    IndexResidues(s);
    var w, r := Passed(s).0, Passed(s).1;
    ModAdd(r, w - r, n);
    ModAdd(s.ring.rindex, w - r, n);
  }

  /** Frames leave in the order they came, none lost and none twice, whatever the interleaving. */
  lemma FramesLeaveInOrder(n: nat, keepLast: bool, actions: seq<Action>)
    requires n >= 1
    ensures var s := AnyRun(n, keepLast, actions);
            && s.ring.Max() == n && s.released <= s.pushed
            && |s.pushed| - |s.released| <= n
            && forall k :: |s.released| <= k < |s.pushed| ==> s.ring.slots[k % n] == Some(s.pushed[k])
  {
    Reached(n, keepLast, actions);
  }

  /** The kept frame, the frame to show and the one after it, as the three peeks find them. */
  lemma PeeksFindTheNextFrames(n: nat, keepLast: bool, actions: seq<Action>)
    requires n >= 1
    ensures var s := AnyRun(n, keepLast, actions);
            var r, k := s.ring, |s.released|;
            && r.Max() == n
            && (s.consumer.Ready? ==>
                  k + r.shown < |s.pushed| && r.slots[(r.rindex + r.shown) % n] == Some(s.pushed[k + r.shown]))
            && (s.consumer.Ready? && s.consumer.n >= 2 ==>
                  k + r.shown + 1 < |s.pushed| && r.slots[(r.rindex + r.shown + 1) % n]
                      == Some(s.pushed[k + r.shown + 1]))
            && (s.consumer.Ready? || (s.consumer.Resting? && r.shown == 1) ==>
                  k < |s.pushed| && r.rindex < n && r.slots[r.rindex] == Some(s.pushed[k]))
  {
    Reached(n, keepLast, actions);
    var s := AnyRun(n, keepLast, actions);
    ModAdd(|s.released|, s.ring.shown, n);
    ModAdd(|s.released|, s.ring.shown + 1, n);
  }

  /** While the producer fills a slot, no frame the consumer may look at is in it. */
  lemma FilledSlotIsPrivate(n: nat, keepLast: bool, actions: seq<Action>)
    requires n >= 1
    ensures var s := AnyRun(n, keepLast, actions);
            var r := s.ring;
            s.producer.Filling? ==>
              && r.windex < n
              && (s.consumer.Ready? ==> r.windex != r.rindex && r.windex != (r.rindex + r.shown) % n)
              && (s.consumer.Ready? && s.consumer.n >= 2 ==> r.windex != (r.rindex + r.shown + 1) % n)
              && (r.shown == 1 && s.consumer.Resting? ==> r.windex != r.rindex)
              && (s.consumer.Released? ==> r.windex != r.rindex)
  {
    Reached(n, keepLast, actions);
    var s := AnyRun(n, keepLast, actions);
    if s.producer.Filling? {
      var f, w := Freed(s), Counted(s);
      forall k | f <= k < w
        ensures k % n != w % n
      {
        SlotsDiffer(k, w, n);
      }
      ModAdd(f, s.ring.shown, n);
      ModAdd(f, s.ring.shown + 1, n);
    }
  }

  /** The read index leaves the ring exactly between an increment at the last slot and its
      wrap-around: a third thread calling frame_queue_last_pos then would look past the end. */
  lemma ReadIndexInRange(n: nat, keepLast: bool, actions: seq<Action>)
    requires n >= 1
    ensures var s := AnyRun(n, keepLast, actions);
            s.ring.rindex < n <==> !(s.consumer.Advanced? && Freed(s) % n == n - 1)
  {
    Reached(n, keepLast, actions);
  }

  // ------------------------------------------------------------------ progress

  /** With room in the queue the producer's steps, whatever the consumer is at, add its frame. */
  lemma PushAdds(s: Sys, f: Frame)
    requires Inv(s) && s.producer.Idle? && s.ring.size < s.ring.Max()
    ensures var s' := Step(Step(Step(Step(Step(s, PeekWritable), Store(f)), IncW), WrapAroundW), SizeUp);
            && s'.pushed == s.pushed + [f] && s'.ring.size == s.ring.size + 1 && s'.producer.Idle?
            && s'.released == s.released && s'.consumer == s.consumer && s'.ring.shown == s.ring.shown
  {
    var s1 := Step(Step(s, PeekWritable), Store(f));
    UninterruptedPush(s1);
  }

  /** A producer that gives its frame up, before or after it was stored, leaves the queue as it was
      to everybody else. */
  lemma AbandonedIsGone(s: Sys, f: Frame)
    requires Inv(s) && s.producer.Idle? && s.ring.size < s.ring.Max()
    ensures Step(Step(s, PeekWritable), Abandon) == s
    ensures var s' := Step(Step(Step(s, PeekWritable), Store(f)), Abandon);
            s' == s.(ring := s.ring.(slots := s'.ring.slots))
            && forall k :: |s.released| <= k < |s.pushed| ==> s'.ring.slots[k % s.ring.Max()] == Some(s.pushed[k])
  {
    var s1 := Step(s, PeekWritable);
    StepKeepsInv(s, PeekWritable);
    StepKeepsInv(s1, Store(f));
  }

  /** A consumer at rest is let on exactly when there are frames it has not shown. */
  lemma LetOnIff(s: Sys)
    requires Inv(s) && s.consumer.Resting?
    ensures var n := s.ring.size - s.ring.shown;
            Step(s, Remaining).consumer == if n > 0 then Ready(n) else Resting
  {}

  /** Where the last frame is kept, a first advance only notes that it was shown, and a step back
      takes that note away. */
  lemma KeptIsNoted(s: Sys)
    requires Inv(s) && s.ring.keepLast && s.ring.shown == 0 && s.consumer.Ready?
    ensures var s' := Step(s, NextKeeps);
            s' == s.(ring := s.ring.(shown := 1), consumer := Resting) && Step(s, Unref) == s
    ensures Step(Step(s, NextKeeps), ShowPrevious) == s.(consumer := Resting)
  {}

  /** Any other advance releases the oldest frame that was pushed and not released. */
  lemma AdvanceReleases(s: Sys)
    requires Inv(s) && s.consumer.Ready? && !(s.ring.keepLast && s.ring.shown == 0)
    ensures |s.released| < |s.pushed|
    ensures var s' := Step(Step(Step(Step(s, Unref), IncR), WrapAroundR), SizeDown);
            && s'.released == s.released + [s.pushed[|s.released|]] && s'.ring.size == s.ring.size - 1
            && s'.consumer.Resting? && s'.pushed == s.pushed && s'.producer == s.producer
            && s'.ring.shown == s.ring.shown
  {
    assert s.ring.slots[|s.released| % s.ring.Max()] == Some(s.pushed[|s.released|]);
    UninterruptedNext(s);
  }

  lemma RunAppend(s: Sys, actions: seq<Action>, a: Action)
    ensures Run(s, actions + [a]) == Step(Run(s, actions), a)
    decreases actions
  {
    hide Step;
    if actions == [] {
      assert Run(Step(s, a), []) == Step(s, a);
    } else {
      assert (actions + [a])[1..] == actions[1..] + [a];
      RunAppend(Step(s, actions[0]), actions[1..], a);
    }
  }

  /** A queue of one frame after its first push, and then on the way to release it. */
  function Pushed(f: Frame): Sys { Sys(Ring([Some(f)], false, 0, 0, 1, 0), Idle, Resting, [f], []) }

  function Leaving(f: Frame): Sys { Sys(Ring([None], false, 1, 0, 1, 0), Idle, Advanced, [f], [f]) }

  lemma OnePush(f: Frame)
    ensures Step(Step(Step(Step(Step(Init(1, false), PeekWritable), Store(f)), IncW), WrapAroundW), SizeUp) == Pushed(f)
  {
    var s := Step(Step(Init(1, false), PeekWritable), Store(f));
    assert s == Sys(Ring([Some(f)], false, 0, 0, 0, 0), Filling, Resting, [], []);
    UninterruptedPush(s);
  }

  lemma OneRelease(f: Frame)
    ensures Step(Step(Step(Pushed(f), Remaining), Unref), IncR) == Leaving(f)
  {}

  /** For instance in a queue of one frame that is pushed and then released. */
  lemma ReadIndexOutside(f: Frame) returns (actions: seq<Action>)
    ensures AnyRun(1, false, actions).ring.rindex == 1
  {
    hide Step, Run;
    var s := Init(1, false);
    var a := [];
    assert Run(s, a) == s by { RunNone(s); }
    RunAppend(s, a, PeekWritable);
    a := a + [PeekWritable];
    RunAppend(s, a, Store(f));
    a := a + [Store(f)];
    RunAppend(s, a, IncW);
    a := a + [IncW];
    RunAppend(s, a, WrapAroundW);
    a := a + [WrapAroundW];
    RunAppend(s, a, SizeUp);
    a := a + [SizeUp];
    OnePush(f);
    RunAppend(s, a, Remaining);
    a := a + [Remaining];
    RunAppend(s, a, Unref);
    a := a + [Unref];
    RunAppend(s, a, IncR);
    OneRelease(f);
    actions := a + [IncR];
  }

  lemma RunNone(s: Sys)
    ensures Run(s, []) == s
  {}
}
