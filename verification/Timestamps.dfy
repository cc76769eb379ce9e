/**
  ff_ts_wrap of ff_utils.c: undoing clock wraparound and discontinuities.
  AV_NOPTS_VALUE is None; where the C code computes with it, it is INT64_MIN.
 */
module Timestamps {
  import opened Bytes
  import opened Wrappers

  const NOPTS: int := -0x8000_0000_0000_0000

  function Val(o: Option<int>): int { if o.Some? then o.value else NOPTS }

  /** What the code reads from the format context and the stream; `firstDelta` is
      the decoder-delay term of the first call, computed in floating point. */
  datatype Clock = Clock(start: Option<int>, wrapBits: nat, num: int, den: int, firstDelta: int) {
    predicate Valid() { wrapBits >= 1 && num > 0 && den > 0 }

    function Threshold(): int
      requires Valid()
    {
      den / num * 10
    }

    function TrickMin(): int
      requires Valid()
    {
      den / num / 10
    }

    function Period(): nat { Pow2(wrapBits) }

    predicate Started() { start.Some? && wrapBits < 64 }

    /** stime2 > stime, with stime2 truncated to 64 bits. */
    predicate CanUnwrap()
      requires Started()
    {
      Truncate64(start.value + Period()) > start.value
    }
  }

  function Truncate64(x: int): int {
    var u := x % 0x1_0000_0000_0000_0000;
    if u < 0x8000_0000_0000_0000 then u else u - 0x1_0000_0000_0000_0000
  }

  datatype Packet = Packet(dts: Option<int>, pts: Option<int>, duration: int)

  datatype Ts = Ts(dts: Option<int>, pts: Option<int>, nextDts: Option<int>, nextPts: Option<int>,
                   lastTs: Option<int>, offset: Option<int>, sawFirst: bool)

  const INIT := Ts(None, None, None, None, None, None, false)

  datatype Outcome = Outcome(ts: Ts, pkt: Packet, jumped: bool)

  // -------------------------------------------- the specification of one call

  function Unwrap(c: Clock, t: int): int
    requires c.Valid()
  {
    if c.Started() && c.CanUnwrap() && t > c.start.value + Pow2(c.wrapBits - 1) then t - c.Period() else t
  }

  function Unwrapped(c: Clock, p: Packet): Packet
    requires c.Valid()
  {
    p.(dts := if p.dts.Some? then Some(Unwrap(c, p.dts.value)) else None,
       pts := if p.pts.Some? then Some(Unwrap(c, p.pts.value)) else None)
  }

  function Shifted(p: Packet, shift: int): Packet {
    p.(dts := if p.dts.Some? then Some(p.dts.value + shift) else None,
       pts := if p.pts.Some? then Some(p.pts.value + shift) else None)
  }

  /** The first call ties the offset to the start time, when there is one. */
  function FirstOffset(c: Clock, s: Ts): Option<int> {
    if c.Started() && s.nextDts.None? && s.offset.None? then Some(-c.start.value) else s.offset
  }

  function Max(a: int, b: int): int { if a > b then a else b }

  function Abs(a: int): int { if a < 0 then -a else a }

  predicate Jumps(c: Clock, s: Ts, dts: Option<int>)
    requires c.Valid()
  {
    && dts.Some? && s.nextDts.Some?
    && (Abs(dts.value - s.nextDts.value) > c.Threshold()
        || dts.value + c.TrickMin() < Max(Val(s.pts), Val(s.dts)))
  }

  function Predict(c: Clock, s: Ts, p: Packet): Ts {
    var s1 := if s.sawFirst then s
              else if p.pts.Some?
              then s.(dts := Some(c.firstDelta + p.pts.value), pts := Some(c.firstDelta + p.pts.value),
                      sawFirst := true)
              else s.(dts := Some(c.firstDelta), pts := Some(0), sawFirst := true);
    var now := if p.dts.Some? then p.dts.value else Val(if s1.nextDts.None? then s1.dts else s1.nextDts);
    s1.(dts := Some(now), pts := Some(now), nextDts := Some(now + p.duration), nextPts := Some(now + p.duration))
  }

  /** The packet brought onto the output timeline, and the offset that did it. */
  function Correct(c: Clock, s: Ts, p: Packet): Outcome
    requires c.Valid()
  {
    var offset := FirstOffset(c, s);
    var p1 := Shifted(Unwrapped(c, p), Val(offset));
    var jumped := Jumps(c, s, p1.dts);
    var delta := if jumped then p1.dts.value - s.nextDts.value else 0;
    var p2 := Shifted(p1, -delta);
    Outcome(s.(offset := if jumped then Some(Val(offset) - delta) else offset,
               lastTs := if p2.dts.Some? then p2.dts else s.lastTs), p2, jumped)
  }

  function Repair(c: Clock, s: Ts, p: Packet): Outcome
    requires c.Valid()
  {
    var r := Correct(c, s, p);
    r.(ts := Predict(c, r.ts, r.pkt))
  }

  // ------------------------------------------------------------ the code

  class TimestampContext {
    var dts: Option<int>
    var pts: Option<int>
    var nextDts: Option<int>
    var nextPts: Option<int>
    var lastTs: Option<int>
    var offset: Option<int>
    var sawFirst: bool

    function State(): Ts
      reads this
    {
      Ts(dts, pts, nextDts, nextPts, lastTs, offset, sawFirst)
    }

    /** ff_ts_init. */
    constructor ()
      ensures State() == INIT
    {
      dts, pts, nextDts, nextPts, lastTs, offset, sawFirst := None, None, None, None, None, None, false;
    }

    /** ff_ts_wrap. */
    method Wrap(c: Clock, pkt: Packet) returns (p: Packet, ret: bool)
      requires c.Valid()
      modifies this
      ensures Outcome(State(), p, ret) == Repair(c, old(State()), pkt)
    {
      p, ret := CorrectInPlace(c, pkt);
      PredictInPlace(c, p);
    }

    /** Its first half, up to the assignment of last_ts. */
    method CorrectInPlace(c: Clock, pkt: Packet) returns (p: Packet, ret: bool)
      requires c.Valid()
      modifies this`offset, this`lastTs
      ensures Outcome(State(), p, ret) == Correct(c, old(State()), pkt)
    {
      p := UnwrapInPlace(c, pkt);
      ret := false;
      if p.dts.Some? {
        p := p.(dts := Some(p.dts.value + Val(offset)));
      }
      if p.pts.Some? {
        p := p.(pts := Some(p.pts.value + Val(offset)));
      }
      assert p == Shifted(Unwrapped(c, pkt), Val(offset));
      if p.dts.Some? && nextDts.Some? {
        var delta := p.dts.value - nextDts.value;
        if Abs(delta) > c.Threshold() || p.dts.value + c.TrickMin() < Max(Val(pts), Val(dts)) {
          offset := Some(Val(offset) - delta);
          p := p.(dts := Some(p.dts.value - delta));
          if p.pts.Some? {
            p := p.(pts := Some(p.pts.value - delta));
          }
          ret := true;
        }
      }
      if p.dts.Some? {
        lastTs := p.dts;
      }
    }

    /** The block on the start time: the first offset, and one period taken off late stamps. */
    method UnwrapInPlace(c: Clock, pkt: Packet) returns (p: Packet)
      requires c.Valid()
      modifies this`offset
      ensures State() == old(State()).(offset := FirstOffset(c, old(State())))
      ensures p == Unwrapped(c, pkt)
    {
      p := pkt;
      if c.start.Some? && c.wrapBits < 64 {
        if nextDts.None? && offset.None? {
          offset := Some(-c.start.value);
        }
        var stime := c.start.value;
        var stime2 := Truncate64(stime + Pow2(c.wrapBits));
        if stime2 > stime && p.dts.Some? && p.dts.value > stime + Pow2(c.wrapBits - 1) {
          p := p.(dts := Some(p.dts.value - Pow2(c.wrapBits)));
        }
        if stime2 > stime && p.pts.Some? && p.pts.value > stime + Pow2(c.wrapBits - 1) {
          p := p.(pts := Some(p.pts.value - Pow2(c.wrapBits)));
        }
      }
    }

    /** Its second half: the first call, and the prediction of the next stamp. */
    method PredictInPlace(c: Clock, p: Packet)
      modifies this
      ensures State() == Predict(c, old(State()), p)
    {
      if !sawFirst {
        dts, pts := Some(c.firstDelta), Some(0);
        if p.pts.Some? {
          dts := Some(dts.value + p.pts.value);
          pts := dts;
        }
        sawFirst := true;
      }
      if nextDts.None? {
        nextDts := dts;
      }
      if nextPts.None? {
        nextPts := pts;
      }
      if p.dts.Some? {
        nextDts, dts := p.dts, p.dts;
        nextPts, pts := dts, dts;
      }
      dts := Some(Val(nextDts));
      nextDts := Some(Val(nextDts) + p.duration);
      pts := dts;
      nextPts := nextDts;
    }
  }

  // ----------------------------------------------------- one call, any input

  /** Continuity: whatever arrives after the first call, the output stays near the
      prediction and never steps back by more than the trick-play margin. */
  lemma OutputIsContinuous(c: Clock, s: Ts, p: Packet)
    requires c.Valid() && p.dts.Some?
    requires s.dts.Some? && s.pts == s.dts && s.nextDts.Some? && s.nextDts.value >= s.dts.value
    ensures var r := Repair(c, s, p);
            && r.pkt.dts.Some?
            && Abs(r.pkt.dts.value - s.nextDts.value) <= c.Threshold()
            && r.pkt.dts.value + c.TrickMin() >= s.dts.value
            && (r.jumped ==> r.pkt.dts == s.nextDts)
  {
    assert c.den / c.num >= 0;
  }

  /** Both stamps move by the same, updated offset; the state predicts from the output. */
  lemma StampsMoveTogether(c: Clock, s: Ts, p: Packet)
    requires c.Valid()
    ensures var r := Repair(c, s, p);
            && (p.dts.Some? ==> r.pkt.dts == Some(Unwrap(c, p.dts.value) + Val(r.ts.offset)) && r.ts.dts == r.pkt.dts)
            && (p.dts.None? ==> r.pkt.dts == None)
            && (p.pts.Some? ==> r.pkt.pts == Some(Unwrap(c, p.pts.value) + Val(r.ts.offset)))
            && r.ts.dts.Some? && r.ts.pts == r.ts.dts
            && r.ts.nextDts == Some(r.ts.dts.value + p.duration) && r.ts.nextPts == r.ts.nextDts
            && (p.dts.Some? ==> r.ts.lastTs == r.pkt.dts) && (p.pts.None? ==> r.pkt.pts == None) && r.ts.sawFirst
  {}

  /** The first output starts from zero at the start time exactly when the start time is
      known and the clock is narrower than 64 bits; otherwise INT64_MIN is added to it. */
  lemma FirstOutput(c: Clock, p: Packet)
    requires c.Valid() && p.dts.Some?
    ensures var r := Repair(c, INIT, p);
            r.pkt.dts == Some(Unwrap(c, p.dts.value) + if c.Started() then -c.start.value else NOPTS)
  {}

  /** A clock narrower than 64 bits whose period above the start time fits an int64: a stamp up to
      half a period above the start time stays, a later one goes back a period, which brings every
      stamp between half a period below and one and a half above it within half a period. */
  lemma UnwrapIsNearest(c: Clock, t: int)
    requires c.Valid() && c.Started()
    requires -0x8000_0000_0000_0000 <= c.start.value && c.start.value + Pow2(c.wrapBits) < 0x8000_0000_0000_0000
    ensures var half: int := Pow2(c.wrapBits - 1);
            && Unwrap(c, t) == (if t > c.start.value + half then t - 2 * half else t)
            && (-half < t - c.start.value <= 3 * half ==> -half < Unwrap(c, t) - c.start.value <= half)
  {}

  lemma {:induction false} PeriodFits(k: nat)
    requires k <= 63
    ensures Pow2(k) <= 0x8000_0000_0000_0000
    decreases 63 - k
  {
    if k == 63 {
      assert Pow2(8) == 256;
      Doubled(8, 8);
      Doubled(16, 16);
      Doubled(32, 16);
      Doubled(48, 15);
    } else {
      PeriodFits(k + 1);
    }
  }

  lemma {:induction false} Doubled(k: nat, n: nat)
    ensures Pow2(k + n) == Pow2(k) * Pow2(n)
  {
    if n > 0 {
      Doubled(k, n - 1);
    }
  }

  /** When a period above the start time is no int64, nothing is unwrapped. */
  lemma NoUnwrapPastInt64(c: Clock, t: int)
    requires c.Valid() && c.Started() && -0x8000_0000_0000_0000 <= c.start.value < 0x8000_0000_0000_0000
    requires c.start.value + Pow2(c.wrapBits) >= 0x8000_0000_0000_0000
    ensures Unwrap(c, t) == t
  {
    PeriodFits(c.wrapBits);
  }

  /** A stamp is corrected exactly when it is more than ten seconds of the time base off the
      prediction, or more than a tenth of a second behind the last one. Any other keeps its
      distance from the input, and a corrected one lands on the prediction. */
  lemma CorrectedIff(c: Clock, s: Ts, p: Packet)
    requires c.Valid() && p.dts.Some? && s.nextDts.Some?
    ensures var r, stamp, next := Repair(c, s, p), Unwrap(c, p.dts.value) + Val(s.offset), s.nextDts.value;
            var second, last := c.den / c.num, if Val(s.pts) > Val(s.dts) then Val(s.pts) else Val(s.dts);
            && (r.jumped <==> stamp > next + 10 * second || stamp < next - 10 * second || stamp + second / 10 < last)
            && (if r.jumped then r.pkt.dts == s.nextDts else r.pkt.dts == Some(stamp) && r.ts.offset == s.offset)
  {
    assert c.Threshold() == 10 * (c.den / c.num);
  }

  /** A packet without a dts is not corrected and changes no offset; it takes the place of the
      prediction, and before the first stamp that of its pts and the frame delay. */
  lemma UnstampedIsPredicted(c: Clock, s: Ts, p: Packet)
    requires c.Valid() && p.dts.None? && (s.nextDts.Some? || s == INIT)
    ensures var r := Repair(c, s, p);
            && !r.jumped && r.pkt.dts.None? && r.ts.lastTs == s.lastTs
            && r.ts.offset == (if s == INIT && c.Started() then Some(-c.start.value) else s.offset)
            && r.ts.dts == if s.nextDts.Some? then s.nextDts
                           else if r.pkt.pts.Some? then Some(c.firstDelta + r.pkt.pts.value) else Some(c.firstDelta)
  {}

  lemma FirstOffsetIsKnown(c: Clock, p: Packet)
    requires c.Valid() && p.dts.Some? && c.Started()
    ensures Repair(c, INIT, p).ts.offset.Some?
  {}

  // ------------------------------------------------------------- whole runs

  function Outputs(c: Clock, s: Ts, ps: seq<Packet>): (out: seq<Option<int>>)
    requires c.Valid()
    ensures |out| == |ps|
    decreases ps
  {
    if ps == [] then [] else
      var r := Repair(c, s, ps[0]);
      [r.pkt.dts] + Outputs(c, r.ts, ps[1..])
  }

  function Durations(ps: seq<Packet>): int {
    if ps == [] then 0 else ps[0].duration + Durations(ps[1..])
  }

  /** The packets carry a true timeline from `t`, reduced modulo the clock's period. */
  ghost predicate WrappedTimeline(c: Clock, t: int, ps: seq<Packet>)
    decreases ps
  {
    ps != [] ==>
      && ps[0].dts == Some(t % c.Period()) && ps[0].duration >= 0
      && WrappedTimeline(c, t + ps[0].duration, ps[1..])
  }

  /** Unwrapping moves a reduced stamp by whole periods only. */
  lemma UnwrapIsCongruent(c: Clock, t: int) returns (q: int)
    requires c.Valid()
    ensures Unwrap(c, t % c.Period()) == t - q * c.Period()
  {
    var m := c.Period();
    q := t / m;
    if Unwrap(c, t % m) != t % m {
      q := q + 1;
      assert q * m == (t / m) * m + m;
    }
  }

  lemma MultipleBelowPeriod(m: nat, k: int)
    requires m > 0 && Abs(k * m) < m
    ensures k == 0
  {
    if k >= 1 {
      MulAtLeast(m, k);
    } else if k <= -1 {
      MulAtLeast(m, -k);
    }
  }

  /** One packet of a true timeline comes out exactly at the prediction, and the
      offset stays a whole number of periods away from the true one. */
  lemma ExactStep(c: Clock, s: Ts, t: int, k: int, p: Packet) returns (k': int)
    requires c.Valid() && c.Threshold() < c.Period()
    requires p.dts == Some(t % c.Period())
    requires s.nextDts.Some? && s.offset.Some?
    requires t + s.offset.value == s.nextDts.value + k * c.Period()
    ensures var r := Repair(c, s, p);
            && r.pkt.dts == s.nextDts
            && r.ts.nextDts == Some(s.nextDts.value + p.duration) && r.ts.offset.Some?
            && t + r.ts.offset.value == s.nextDts.value + k' * c.Period()
  {
    var m := c.Period();
    var q := UnwrapIsCongruent(c, t);
    var dts := Unwrap(c, t % m) + s.offset.value;
    assert dts - s.nextDts.value == (k - q) * m;
    if Jumps(c, s, Some(dts)) {
      k' := q;
    } else {
      MultipleBelowPeriod(m, k - q);
      k' := k;
    }
  }

  lemma {:induction false} ExactRun(c: Clock, s: Ts, t: int, k: int, ps: seq<Packet>, i: nat)
    requires c.Valid() && c.Threshold() < c.Period()
    requires WrappedTimeline(c, t, ps) && i < |ps|
    requires s.nextDts.Some? && s.offset.Some?
    requires t + s.offset.value == s.nextDts.value + k * c.Period()
    ensures Outputs(c, s, ps)[i] == Some(s.nextDts.value + Durations(ps[..i]))
    decreases i
  {
    var k' := ExactStep(c, s, t, k, ps[0]);
    if i > 0 {
      var r := Repair(c, s, ps[0]);
      ExactRun(c, r.ts, t + ps[0].duration, k', ps[1..], i - 1);
      assert ps[..i][0] == ps[0] && ps[..i][1..] == ps[1..][..i - 1];
    }
  }

  /** Through any number of wraparounds, output i is the first output plus the
      durations of the i packets before it. */
  lemma ExactUnwrapping(c: Clock, t: int, ps: seq<Packet>, i: nat)
    requires c.Valid() && c.Started() && c.Threshold() < c.Period()
    requires WrappedTimeline(c, t, ps) && i < |ps|
    ensures Outputs(c, INIT, ps)[0] == Some(Unwrap(c, t % c.Period()) - c.start.value)
    ensures Outputs(c, INIT, ps)[i] == Some(Outputs(c, INIT, ps)[0].value + Durations(ps[..i]))
  {
    hide Repair, Unwrap;
    var r := Repair(c, INIT, ps[0]);
    FirstOutput(c, ps[0]);
    FirstOffsetIsKnown(c, ps[0]);
    StampsMoveTogether(c, INIT, ps[0]);
    if i > 0 {
      var q := UnwrapIsCongruent(c, t);
      var t1 := t + ps[0].duration;
      assert t1 + r.ts.offset.value == r.ts.nextDts.value + q * c.Period();
      ExactRun(c, r.ts, t1, q, ps[1..], i - 1);
      assert ps[..i][0] == ps[0] && ps[..i][1..] == ps[1..][..i - 1];
    }
  }

  /** For arbitrary stamps the output of a run drifts from the sum of the durations by
      at most one threshold a packet. */
  lemma {:induction false} DriftIsBounded(c: Clock, s: Ts, ps: seq<Packet>, i: nat)
    requires c.Valid() && i < |ps|
    requires forall p <- ps :: p.dts.Some? && p.duration >= 0
    requires s.dts.Some? && s.pts == s.dts && s.nextDts.Some? && s.nextDts.value >= s.dts.value
    ensures var out := Outputs(c, s, ps)[i];
            out.Some? && Abs(out.value - (s.nextDts.value + Durations(ps[..i]))) <= (i + 1) * c.Threshold()
    decreases i
  {
    OutputIsContinuous(c, s, ps[0]);
    StampsMoveTogether(c, s, ps[0]);
    if i > 0 {
      var r := Repair(c, s, ps[0]);
      DriftIsBounded(c, r.ts, ps[1..], i - 1);
      assert ps[..i][0] == ps[0] && ps[..i][1..] == ps[1..][..i - 1];
      assert (i + 1) * c.Threshold() == i * c.Threshold() + c.Threshold();
    }
  }

  // ----------------------------------------------------- streams without jumps

  /** Stamp `q` follows `p`, unwrapped, within ten seconds of where `p` ends and at most a tenth
      of a second behind `p`. */
  predicate Follows(c: Clock, p: Packet, q: Packet)
    requires c.Valid() && p.dts.Some? && q.dts.Some?
  {
    var second, step := c.den / c.num, Unwrap(c, q.dts.value) - Unwrap(c, p.dts.value);
    -10 * second <= step - p.duration <= 10 * second && step >= -(second / 10)
  }

  predicate Smooth(c: Clock, ps: seq<Packet>)
    requires c.Valid() && forall p <- ps :: p.dts.Some?
  {
    forall i :: 0 < i < |ps| ==> Follows(c, ps[i - 1], ps[i])
  }

  /** Which packets ff_ts_wrap reports as corrected. */
  function Corrections(c: Clock, s: Ts, ps: seq<Packet>): (js: seq<bool>)
    requires c.Valid()
    ensures |js| == |ps|
    decreases ps
  {
    if ps == [] then [] else
      var r := Repair(c, s, ps[0]);
      [r.jumped] + Corrections(c, r.ts, ps[1..])
  }

  /** The state behind packet `p`. */
  predicate Behind(c: Clock, s: Ts, p: Packet)
    requires c.Valid() && p.dts.Some?
  {
    && s.dts == Some(Unwrap(c, p.dts.value) + Val(s.offset)) && s.pts == s.dts
    && s.nextDts == Some(s.dts.value + p.duration)
  }

  lemma StepsBehind(c: Clock, s: Ts, p: Packet)
    requires c.Valid() && p.dts.Some?
    ensures Behind(c, Repair(c, s, p).ts, p)
    ensures Repair(c, s, p).pkt.dts == Repair(c, s, p).ts.dts
  {
    StampsMoveTogether(c, s, p);
  }

  lemma SmoothTail(c: Clock, p: Packet, ps: seq<Packet>)
    requires c.Valid() && p.dts.Some? && (forall q <- ps :: q.dts.Some?) && ps != []
    ensures Smooth(c, [p] + ps) <==> Follows(c, p, ps[0]) && Smooth(c, ps)
  {
    hide Follows;
    var all := [p] + ps;
    assert forall i :: 0 < i < |all| ==> all[i] == ps[i - 1];
    if Smooth(c, all) {
      assert Follows(c, all[0], all[1]);
      forall i | 0 < i < |ps| ensures Follows(c, ps[i - 1], ps[i]) {
        assert Follows(c, all[i], all[i + 1]);
      }
    }
    if Follows(c, p, ps[0]) && Smooth(c, ps) {
      forall i | 0 < i < |all| ensures Follows(c, all[i - 1], all[i]) {
        assert i > 1 ==> Follows(c, ps[i - 2], ps[i - 1]);
      }
    }
  }

  lemma TailAt(c: Clock, s: Ts, ps: seq<Packet>, i: nat)
    requires c.Valid() && 0 < i < |ps|
    ensures var t := Repair(c, s, ps[0]).ts;
            && Outputs(c, s, ps)[i] == Outputs(c, t, ps[1..])[i - 1]
            && Corrections(c, s, ps)[i] == Corrections(c, t, ps[1..])[i - 1]
  {}

  /** Output and unwrapped input differ by `shift`. */
  predicate Shifts(c: Clock, out: seq<Option<int>>, ps: seq<Packet>, shift: int)
    requires c.Valid() && |out| == |ps| && forall p <- ps :: p.dts.Some?
  {
    forall i :: 0 <= i < |ps| ==> out[i] == Some(Unwrap(c, ps[i].dts.value) + shift)
  }

  /** Nothing is corrected from packet `k` on. */
  predicate Untouched(js: seq<bool>, k: nat) { forall i :: k <= i < |js| ==> !js[i] }

  lemma HeadThenTail(c: Clock, s: Ts, ps: seq<Packet>, shift: int)
    requires c.Valid() && ps != [] && forall p <- ps :: p.dts.Some?
    ensures var r, unwrapped := Repair(c, s, ps[0]), Unwrap(c, ps[0].dts.value);
            r.pkt.dts == Some(unwrapped + shift) && Shifts(c, Outputs(c, r.ts, ps[1..]), ps[1..], shift) ==>
              Shifts(c, Outputs(c, s, ps), ps, shift)
  {
    hide Repair, Unwrap, Corrections, Outputs;
    var t, out := Repair(c, s, ps[0]).ts, Outputs(c, s, ps);
    assert out[0] == Repair(c, s, ps[0]).pkt.dts by { FirstOf(c, s, ps); }
    forall i | 0 < i < |ps|
      ensures out[i] == Outputs(c, t, ps[1..])[i - 1] && ps[i] == ps[1..][i - 1]
    {
      TailAt(c, s, ps, i);
    }
  }

  lemma FirstOf(c: Clock, s: Ts, ps: seq<Packet>)
    requires c.Valid() && ps != []
    ensures var r := Repair(c, s, ps[0]);
            Outputs(c, s, ps)[0] == r.pkt.dts && Corrections(c, s, ps)[0] == r.jumped
  {}

  lemma UntouchedTail(c: Clock, s: Ts, ps: seq<Packet>)
    requires c.Valid() && ps != []
    ensures Untouched(Corrections(c, s, ps), 1) <==> Untouched(Corrections(c, Repair(c, s, ps[0]).ts, ps[1..]), 0)
  {
    hide Repair, Corrections, Outputs;
    var t, js := Repair(c, s, ps[0]).ts, Corrections(c, s, ps);
    forall i | 0 < i < |ps|
      ensures js[i] == Corrections(c, t, ps[1..])[i - 1]
    {
      TailAt(c, s, ps, i);
    }
    if Untouched(js, 1) {
      assert forall i :: 0 <= i < |ps| - 1 ==> Corrections(c, t, ps[1..])[i] == js[i + 1];
    }
  }

  lemma {:induction false} SmoothFrom(c: Clock, s: Ts, p: Packet, ps: seq<Packet>)
    requires c.Valid() && p.dts.Some? && Behind(c, s, p) && forall q <- ps :: q.dts.Some?
    ensures Smooth(c, [p] + ps) <==> Untouched(Corrections(c, s, ps), 0)
    ensures Smooth(c, [p] + ps) ==> Shifts(c, Outputs(c, s, ps), ps, Val(s.offset))
    decreases ps
  {
    hide Repair, Smooth, Unwrap, Shifts;
    if ps == [] {
      assert Shifts(c, [], [], Val(s.offset)) by { NoShift(c, Val(s.offset)); }
      assert [p] + ps == [p];
      NothingFollows(c, p);
    } else {
      var q, r, more := ps[0], Repair(c, s, ps[0]), ps[1..];
      assert q in ps && forall x <- more :: x in ps;
      CorrectedIff(c, s, q);
      StepsBehind(c, s, q);
      SmoothTail(c, p, ps);
      SmoothFrom(c, r.ts, q, more);
      assert [q] + more == ps;
      HeadThenTail(c, s, ps, Val(s.offset));
      UntouchedTail(c, s, ps);
      FirstOf(c, s, ps);
    }
  }

  lemma NoShift(c: Clock, shift: int)
    requires c.Valid()
    ensures Shifts(c, [], [], shift)
  {}

  lemma NothingFollows(c: Clock, p: Packet)
    requires c.Valid() && p.dts.Some?
    ensures Smooth(c, [p])
  {}

  /** No packet of a run but perhaps the first is corrected exactly when every stamp follows the
      one before it; then output less unwrapped input is one constant. */
  lemma SmoothRunIsShifted(c: Clock, s: Ts, ps: seq<Packet>)
    requires c.Valid() && ps != [] && forall p <- ps :: p.dts.Some?
    ensures Smooth(c, ps) <==> forall i :: 0 < i < |ps| ==> !Corrections(c, s, ps)[i]
    ensures Smooth(c, ps) ==> Shifts(c, Outputs(c, s, ps), ps, Val(Repair(c, s, ps[0]).ts.offset))
  {
    hide Repair, Smooth, Unwrap;
    var p, r, more := ps[0], Repair(c, s, ps[0]), ps[1..];
    assert p in ps && forall x <- more :: x in ps;
    StepsBehind(c, s, p);
    SmoothFrom(c, r.ts, p, more);
    assert [p] + more == ps;
    HeadThenTail(c, s, ps, Val(r.ts.offset));
    UntouchedTail(c, s, ps);
  }
}
