/**
  The bytes of a codec header, place by place: where each field of ff_header.c lies, what the head
  says, and when the writer stops.
 */
module CodecLayout {
  import opened Bytes
  import opened CodecHeader

  /** A field is written in a form at an offset of its block. */
  predicate Lies(l: Layout, f: Field, form: Form, off: nat) {
    && l.Put?
    && ((off == 0 && l.field == f && l.form == form)
        || (off >= Octets(l.form) && Lies(l.next, f, form, off - Octets(l.form))))
  }

  lemma SliceOfSecond(a: seq<byte>, b: seq<byte>, i: nat, j: nat)
    requires |a| <= i <= j <= |a| + |b|
    ensures (a + b)[i..j] == b[i - |a|..j - |a|]
  {}

  /** It is the first of its block, or lies in the rest. */
  lemma LiesOn(l: Layout, f: Field, form: Form, off: nat)
    requires Lies(l, f, form, off)
    ensures l.Put? && Size(l) == Octets(l.form) + Size(l.next)
    ensures (off == 0 && l.field == f && l.form == form)
            || (off >= Octets(l.form) && Lies(l.next, f, form, off - Octets(l.form)))
  {}

  lemma EncodeSplits(l: Layout, r: Record, fmt: Format)
    requires l.Put?
    ensures var first := BigEndian(Number(At(r, l.field), l.form, fmt), Octets(l.form));
            |first| == Octets(l.form) && Encode(l, r, fmt) == first + Encode(l.next, r, fmt)
  {}

  /** The bytes there are the number, most significant first. */
  lemma {:induction false} LiesThere(l: Layout, f: Field, form: Form, off: nat, r: Record, fmt: Format)
    requires Lies(l, f, form, off)
    ensures off + Octets(form) <= Size(l) && |Encode(l, r, fmt)| == Size(l)
    ensures Encode(l, r, fmt)[off..off + Octets(form)] == BigEndian(Number(At(r, f), form, fmt), Octets(form))
    decreases l
  {
    hide Encode, Number, BigEndian, Lies, Size, Octets;
    LiesOn(l, f, form, off);
    EncodeSplits(l, r, fmt);
    var first, rest := BigEndian(Number(At(r, l.field), l.form, fmt), Octets(l.form)), Encode(l.next, r, fmt);
    if off == 0 && l.field == f && l.form == form {
      AfterFirst(first + rest, first, rest);
      assert (first + rest)[0..Octets(form)] == (first + rest)[..Octets(form)];
    } else {
      LiesThere(l.next, f, form, off - Octets(l.form), r, fmt);
      SliceOfSecond(first, rest, off, off + Octets(form));
    }
  }

  /** What the numbers are: 32 bits of an int, the low bits of a narrow field, thousandths. */
  lemma NumberIs(x: int, w: nat, fmt: Format)
    ensures Number(x, Int32, fmt) == x % TWO32 && Number(x, Milli, fmt) == fmt.toMilli(x) % 0x10000
    ensures Number(x, Unsigned(w), fmt) == x % Pow256(w)
  {
    Pow256Values();
  }

  /** The block ahead of each stream, and the fields of every codec. */
  lemma FrontPlaces()
    ensures Lies(Prefix(), WrapBits, Int32, 0) && Lies(Prefix(), StreamNum, Int32, 4)
    ensures Lies(Prefix(), StreamDen, Int32, 8) && Lies(Generic(), CodecId, Int32, 0)
    ensures Lies(Generic(), CodecType, Unsigned(1), 4) && Lies(Generic(), BitRate, Int32, 5)
    ensures Lies(Generic(), Flags, Int32, 9) && Lies(Generic(), Flags2, Int32, 13)
    ensures Lies(Generic(), Debug, Int32, 17)
  {}

  lemma AudioPlaces()
    ensures Lies(Audio(), SampleRate, Int32, 0) && Lies(Audio(), Channels, Unsigned(2), 4)
    ensures Lies(Audio(), FrameSize, Unsigned(2), 6)
  {}

  /** The places of a part that stands ahead of `b`, or behind `a`. */
  lemma {:induction false} LiesAhead(a: Layout, b: Layout, f: Field, form: Form, off: nat)
    requires Lies(a, f, form, off)
    ensures Lies(Then(a, b), f, form, off)
    decreases a
  {
    if !(off == 0 && a.field == f && a.form == form) {
      LiesAhead(a.next, b, f, form, off - Octets(a.form));
    }
  }

  lemma {:induction false} LiesBehind(a: Layout, b: Layout, f: Field, form: Form, off: nat)
    requires Lies(b, f, form, off)
    ensures Lies(Then(a, b), f, form, Size(a) + off)
    decreases a
  {
    if a.Put? {
      LiesBehind(a.next, b, f, form, off);
    }
  }

  datatype Part = Picture | Rates | Quants | Tools | Motion | Copies

  function PartOf(p: Part): Layout {
    match p
    case Picture => VideoPicture()
    case Rates => VideoRates()
    case Quants => VideoQuants()
    case Tools => VideoTools()
    case Motion => VideoMotion()
    case Copies => VideoCopies()
  }

  /** Where a part starts. */
  function Start(p: Part): nat {
    match p
    case Picture => 0
    case Rates => 20
    case Quants => 41
    case Tools => 89
    case Motion => 122
    case Copies => 150
  }

  lemma PartLies(p: Part, f: Field, form: Form, off: nat)
    requires Lies(PartOf(p), f, form, off)
    ensures Lies(Video(), f, form, Start(p) + off)
  {
    hide Lies, Then, VideoPicture, VideoRates, VideoQuants, VideoTools, VideoMotion, VideoCopies;
    VideoPartSizes();
    hide Size;
    var e := VideoCopies();
    var d := Then(VideoMotion(), e);
    var c := Then(VideoTools(), d);
    var b := Then(VideoQuants(), c);
    var a := Then(VideoRates(), b);
    assert Video() == Then(VideoPicture(), a);
    var x := VideoPicture();
    match p
    case Picture => LiesAhead(x, a, f, form, off);
    case Rates =>
      LiesAhead(VideoRates(), b, f, form, off);
      LiesBehind(x, a, f, form, off);
    case Quants =>
      LiesAhead(VideoQuants(), c, f, form, off);
      LiesBehind(VideoRates(), b, f, form, off);
      LiesBehind(x, a, f, form, 21 + off);
    case Tools =>
      LiesAhead(VideoTools(), d, f, form, off);
      LiesBehind(VideoQuants(), c, f, form, off);
      LiesBehind(VideoRates(), b, f, form, 48 + off);
      LiesBehind(x, a, f, form, 69 + off);
    case Motion =>
      LiesAhead(VideoMotion(), e, f, form, off);
      LiesBehind(VideoTools(), d, f, form, off);
      LiesBehind(VideoQuants(), c, f, form, 33 + off);
      LiesBehind(VideoRates(), b, f, form, 81 + off);
      LiesBehind(x, a, f, form, 102 + off);
    case Copies =>
      LiesBehind(VideoMotion(), e, f, form, off);
      LiesBehind(VideoTools(), d, f, form, 28 + off);
      LiesBehind(VideoQuants(), c, f, form, 61 + off);
      LiesBehind(VideoRates(), b, f, form, 109 + off);
      LiesBehind(x, a, f, form, 130 + off);
  }

  lemma PictureInside()
    ensures Lies(VideoPicture(), TimeBaseNum, Int32, 0) && Lies(VideoPicture(), TimeBaseDen, Int32, 4)
    ensures Lies(VideoPicture(), Width, Unsigned(2), 8) && Lies(VideoPicture(), Height, Unsigned(2), 10)
    ensures Lies(VideoPicture(), GopSize, Unsigned(2), 12) && Lies(VideoPicture(), PixFmt, Int32, 14)
    ensures Lies(VideoPicture(), Qmin, Unsigned(1), 18) && Lies(VideoPicture(), Qmax, Unsigned(1), 19)
  {}

  lemma PicturePlaces()
    ensures Lies(Video(), TimeBaseNum, Int32, 0) && Lies(Video(), TimeBaseDen, Int32, 4)
    ensures Lies(Video(), Width, Unsigned(2), 8) && Lies(Video(), Height, Unsigned(2), 10)
    ensures Lies(Video(), GopSize, Unsigned(2), 12) && Lies(Video(), PixFmt, Int32, 14)
    ensures Lies(Video(), Qmin, Unsigned(1), 18) && Lies(Video(), Qmax, Unsigned(1), 19)
  {
    hide Video, Lies, VideoPicture;
    PictureInside();
    PartLies(Picture, TimeBaseNum, Int32, 0);
    PartLies(Picture, TimeBaseDen, Int32, 4);
    PartLies(Picture, Width, Unsigned(2), 8);
    PartLies(Picture, Height, Unsigned(2), 10);
    PartLies(Picture, GopSize, Unsigned(2), 12);
    PartLies(Picture, PixFmt, Int32, 14);
    PartLies(Picture, Qmin, Unsigned(1), 18);
    PartLies(Picture, Qmax, Unsigned(1), 19);
  }

  lemma RatesInside()
    ensures Lies(VideoRates(), MaxQdiff, Unsigned(1), 0) && Lies(VideoRates(), QCompress, Milli, 1)
    ensures Lies(VideoRates(), QBlur, Milli, 3) && Lies(VideoRates(), BitRateTolerance, Int32, 5)
    ensures Lies(VideoRates(), RcMaxRate, Int32, 9) && Lies(VideoRates(), RcMinRate, Int32, 13)
    ensures Lies(VideoRates(), RcBufferSize, Int32, 17)
  {}

  lemma RatePlaces()
    ensures Lies(Video(), MaxQdiff, Unsigned(1), 20) && Lies(Video(), QCompress, Milli, 21)
    ensures Lies(Video(), QBlur, Milli, 23) && Lies(Video(), BitRateTolerance, Int32, 25)
    ensures Lies(Video(), RcMaxRate, Int32, 29) && Lies(Video(), RcMinRate, Int32, 33)
    ensures Lies(Video(), RcBufferSize, Int32, 37)
  {
    hide Video, Lies, VideoRates;
    RatesInside();
    PartLies(Rates, MaxQdiff, Unsigned(1), 0);
    PartLies(Rates, QCompress, Milli, 1);
    PartLies(Rates, QBlur, Milli, 3);
    PartLies(Rates, BitRateTolerance, Int32, 5);
    PartLies(Rates, RcMaxRate, Int32, 9);
    PartLies(Rates, RcMinRate, Int32, 13);
    PartLies(Rates, RcBufferSize, Int32, 17);
  }

  lemma QuantsInside()
    ensures Lies(VideoQuants(), IQuantFactor, Unsigned(8), 0) && Lies(VideoQuants(), BQuantFactor, Unsigned(8), 8)
    ensures Lies(VideoQuants(), IQuantOffset, Unsigned(8), 16) && Lies(VideoQuants(), BQuantOffset, Unsigned(8), 24)
    ensures Lies(VideoQuants(), DctAlgo, Int32, 32) && Lies(VideoQuants(), StrictStd, Int32, 36)
    ensures Lies(VideoQuants(), MaxBFrames, Int32, 40) && Lies(VideoQuants(), MpegQuant, Int32, 44)
  {}

  lemma QuantPlaces()
    ensures Lies(Video(), IQuantFactor, Unsigned(8), 41) && Lies(Video(), BQuantFactor, Unsigned(8), 49)
    ensures Lies(Video(), IQuantOffset, Unsigned(8), 57) && Lies(Video(), BQuantOffset, Unsigned(8), 65)
    ensures Lies(Video(), DctAlgo, Int32, 73) && Lies(Video(), StrictStd, Int32, 77)
    ensures Lies(Video(), MaxBFrames, Int32, 81) && Lies(Video(), MpegQuant, Int32, 85)
  {
    hide Video, Lies, VideoQuants;
    QuantsInside();
    PartLies(Quants, IQuantFactor, Unsigned(8), 0);
    PartLies(Quants, BQuantFactor, Unsigned(8), 8);
    PartLies(Quants, IQuantOffset, Unsigned(8), 16);
    PartLies(Quants, BQuantOffset, Unsigned(8), 24);
    PartLies(Quants, DctAlgo, Int32, 32);
    PartLies(Quants, StrictStd, Int32, 36);
    PartLies(Quants, MaxBFrames, Int32, 40);
    PartLies(Quants, MpegQuant, Int32, 44);
  }

  lemma ToolsInside()
    ensures Lies(VideoTools(), IntraDcPrecision, Int32, 0) && Lies(VideoTools(), MeMethod, Int32, 4)
    ensures Lies(VideoTools(), MbDecision, Int32, 8) && Lies(VideoTools(), NsseWeight, Int32, 12)
    ensures Lies(VideoTools(), FrameSkipCmp, Int32, 16) && Lies(VideoTools(), RcAggressivity, Unsigned(8), 20)
    ensures Lies(VideoTools(), CodecTag, Unsigned(4), 28) && Lies(VideoTools(), ThreadCount, Unsigned(1), 32)
  {}

  lemma ToolPlaces()
    ensures Lies(Video(), IntraDcPrecision, Int32, 89) && Lies(Video(), MeMethod, Int32, 93)
    ensures Lies(Video(), MbDecision, Int32, 97) && Lies(Video(), NsseWeight, Int32, 101)
    ensures Lies(Video(), FrameSkipCmp, Int32, 105) && Lies(Video(), RcAggressivity, Unsigned(8), 109)
    ensures Lies(Video(), CodecTag, Unsigned(4), 117) && Lies(Video(), ThreadCount, Unsigned(1), 121)
  {
    hide Video, Lies, VideoTools;
    ToolsInside();
    PartLies(Tools, IntraDcPrecision, Int32, 0);
    PartLies(Tools, MeMethod, Int32, 4);
    PartLies(Tools, MbDecision, Int32, 8);
    PartLies(Tools, NsseWeight, Int32, 12);
    PartLies(Tools, FrameSkipCmp, Int32, 16);
    PartLies(Tools, RcAggressivity, Unsigned(8), 20);
    PartLies(Tools, CodecTag, Unsigned(4), 28);
    PartLies(Tools, ThreadCount, Unsigned(1), 32);
  }

  lemma MotionInside()
    ensures Lies(VideoMotion(), CoderType, Int32, 0) && Lies(VideoMotion(), MeCmp, Int32, 4)
    ensures Lies(VideoMotion(), MeSubpelQuality, Int32, 8) && Lies(VideoMotion(), MeRange, Int32, 12)
    ensures Lies(VideoMotion(), KeyintMin, Int32, 16) && Lies(VideoMotion(), SceneChange, Int32, 20)
    ensures Lies(VideoMotion(), BFrameStrategy, Int32, 24)
  {}

  lemma MotionPlaces()
    ensures Lies(Video(), CoderType, Int32, 122) && Lies(Video(), MeCmp, Int32, 126)
    ensures Lies(Video(), MeSubpelQuality, Int32, 130) && Lies(Video(), MeRange, Int32, 134)
    ensures Lies(Video(), KeyintMin, Int32, 138) && Lies(Video(), SceneChange, Int32, 142)
    ensures Lies(Video(), BFrameStrategy, Int32, 146)
  {
    hide Video, Lies, VideoMotion;
    MotionInside();
    PartLies(Motion, CoderType, Int32, 0);
    PartLies(Motion, MeCmp, Int32, 4);
    PartLies(Motion, MeSubpelQuality, Int32, 8);
    PartLies(Motion, MeRange, Int32, 12);
    PartLies(Motion, KeyintMin, Int32, 16);
    PartLies(Motion, SceneChange, Int32, 20);
    PartLies(Motion, BFrameStrategy, Int32, 24);
  }

  lemma CopiesInside()
    ensures Lies(VideoCopies(), QCompress, Unsigned(8), 0) && Lies(VideoCopies(), QBlur, Unsigned(8), 8)
    ensures Lies(VideoCopies(), MaxQdiff, Int32, 16) && Lies(VideoCopies(), Refs, Int32, 20)
  {}

  lemma CopyPlaces()
    ensures Lies(Video(), QCompress, Unsigned(8), 150) && Lies(Video(), QBlur, Unsigned(8), 158)
    ensures Lies(Video(), MaxQdiff, Int32, 166) && Lies(Video(), Refs, Int32, 170)
  {
    hide Video, Lies, VideoCopies;
    CopiesInside();
    PartLies(Copies, QCompress, Unsigned(8), 0);
    PartLies(Copies, QBlur, Unsigned(8), 8);
    PartLies(Copies, MaxQdiff, Int32, 16);
    PartLies(Copies, Refs, Int32, 20);
  }

  // ------------------------------------------------------------ the head and the stops

  lemma {:induction false} OutputGrows(sts: seq<Stream>, out: seq<byte>, turn: Writer)
    ensures out <= WriteAll(sts, out, turn).out
    decreases sts
  {
    if sts != [] {
      var t := turn(sts[0], |out|);
      assert out <= out + t.bytes;
      if !t.Stop? {
        OutputGrows(sts[1..], out + t.bytes, turn);
      }
    }
  }

  /** The sum of the bit rates, in any order. */
  function Rate(sts: seq<Stream>): int { if sts == [] then 0 else At(sts[0].fields, BitRate) + Rate(sts[1..]) }

  lemma {:induction false} RatesAdd(a: seq<Stream>, st: Stream)
    ensures Rate(a + [st]) == Rate(a) + At(st.fields, BitRate)
  {
    if a == [] {
      assert [st][1..] == [];
    } else {
      assert (a + [st])[1..] == a[1..] + [st];
      RatesAdd(a[1..], st);
    }
  }

  lemma {:induction false} SumsAgree(sts: seq<Stream>)
    ensures BitRates(sts) == Rate(sts)
  {
    if sts != [] {
      var front := sts[..|sts| - 1];
      SumsAgree(front);
      RatesAdd(front, sts[|sts| - 1]);
      assert sts == front + [sts[|sts| - 1]];
    }
  }

  /** Whatever becomes of its streams, a header begins with their number and the sum of their bit
      rates. */
  lemma HeadSays(sts: seq<Stream>, size: nat, fmt: Format)
    requires |sts| < TWO32
    ensures var out := Write(sts, size, fmt).out;
            && |out| >= 8
            && FromBigEndian(out[..4]) == |sts|
            && FromBigEndian(out[4..8]) == Rate(sts) % TWO32
  {
    hide BigEndian, FromBigEndian, WriteAll, BitRates, Rate, WriteStream;
    var n, rate := ToUint32(|sts|), ToUint32(Rate(sts));
    SumsAgree(sts);
    OutputGrows(sts, Head(sts), WriteTurn(size, fmt));
    Pow256Values();
    BigEndianExact(n, 4);
    BigEndianExact(rate, 4);
    ModUnique(|sts|, TWO32, 0, |sts|);
    FrontOf(Write(sts, size, fmt).out, BigEndian(n, 4), BigEndian(rate, 4));
  }

  lemma FrontOf(s: seq<byte>, a: seq<byte>, b: seq<byte>)
    requires |a| == 4 && |b| == 4 && a + b <= s
    ensures |s| >= 8 && s[..4] == a && s[4..8] == b
  {
    assert s[..8] == a + b;
    assert s[..4] == s[..8][..4] && s[4..8] == s[..8][4..8];
  }

  /** The writer stops at a stream exactly when it has no codec, its extradata does not fit, or it is
      of no known kind; only then, and with nothing else wrong, it returns -1. */
  lemma StopsIff(st: Stream, pos: nat, size: nat, fmt: Format)
    requires fmt.Valid()
    ensures var t, id, kind := WriteStream(st, pos, size, fmt), At(st.fields, CodecId), At(st.fields, CodecType);
            var fits := !Global(st) || pos + 33 + |st.extradata| <= size - 228;
            && (t.Go? <==> id != 0 && fits && (kind == 0 || kind == 1))
            && (t.Stop? ==> t.ret == if id != 0 && fits then -1 else 0)
            && |t.bytes| == if id == 0 then 12 else if !fits then 33
                            else 33 + (if Global(st) then 4 + |st.extradata| else 0)
                                 + if kind == 0 then 174 else if kind == 1 then 8 else 0
  {}

  /** What a whole header is cut off with: the return value of the first turn that stops. */
  lemma {:induction false} FirstStopReturns(sts: seq<Stream>, out: seq<byte>, turn: Writer, k: nat, ret: int)
    requires k < |sts|
    requires forall i, pos: nat :: 0 <= i < k ==> turn(sts[i], pos).Go?
    requires forall pos: nat :: turn(sts[k], pos).Stop? && turn(sts[k], pos).ret == ret
    ensures WriteAll(sts, out, turn).ret == ret
    decreases sts
  {
    if k > 0 {
      FirstStopReturns(sts[1..], out + turn(sts[0], |out|).bytes, turn, k - 1, ret);
    }
  }

  /** The reader takes no stream without a codec, of an unknown kind, or cut off by the guard. */
  lemma RefusedIfNoCodec(s: seq<byte>, pos: nat, size: nat, fmt: Format)
    requires fmt.Valid() && fmt.prefix == Prefix() && fmt.generic == Generic()
    requires |s| >= 33 && s[12..16] == [0, 0, 0, 0]
    ensures ReadStream(s, pos, size, fmt) == Refused
  {
    hide Decode, FromBigEndian, ReadRest;
    Sizes();
    var g, r := s[12..], Decode(Prefix(), s, map[], fmt);
    SkipThenTake(s, 12, 4);
    Zeros(g[..4]);
    NoCodecRead(g, r, fmt);
  }

  lemma NoCodecRead(g: seq<byte>, r: Record, fmt: Format)
    requires |g| >= Size(Generic()) && FromBigEndian(g[..4]) == 0
    ensures At(Decode(Generic(), g, r, fmt), CodecId) == 0
  {
    hide FromBigEndian;
    var next := Generic().next;
    OthersStay(next, g[4..], r[CodecId := 0], fmt, CodecId);
  }

  /** The guards of the two sides, for a stream at byte `pos` of a header of 8192 bytes: the reader
      wants 4 bytes more. */
  lemma GuardsAre(st: Stream, pos: nat)
    ensures TooLarge(st, pos + 33, HEADER_SIZE) <==> Global(st) && pos + |st.extradata| > 7931
    ensures ReaderRefuses(st, pos, HEADER_SIZE) <==> Global(st) && pos + |st.extradata| > 7927
  {}

  lemma {:induction false} Zeros(s: seq<byte>)
    requires forall i :: 0 <= i < |s| ==> s[i] == 0
    ensures FromBigEndian(s) == 0
    decreases |s|
  {
    if s != [] {
      Zeros(s[..|s| - 1]);
    }
  }

  lemma {:induction false} OthersStay(l: Layout, s: seq<byte>, r: Record, fmt: Format, f: Field)
    requires |s| >= Size(l) && f !in Fields(l) && f in r
    ensures Decode(l, s, r, fmt)[f] == r[f]
    decreases l
  {
    if l.Put? {
      var w := Octets(l.form);
      OthersStay(l.next, s[w..], r[l.field := Back(FromBigEndian(s[..w]), l.form, fmt)], fmt, f);
    }
  }

  /** A negative number of streams reads none. */
  lemma NegativeCountReadsNone(buf: seq<byte>, size: nat, fmt: Format)
    requires |buf| >= 8 && FromBigEndian(buf[..4]) >= TWO31 && FromBigEndian(buf[..4]) < TWO32
    ensures ReadHeader(buf, size, fmt) == Read(8, [])
  {
    hide FromBigEndian, ReadStream;
  }

  /** Setting the flag for extradata changes no other bit. */
  lemma SetGlobalKeepsOthers(flags: int, k: nat)
    requires IsInt32(flags) && k != GLOBAL_BIT
    ensures Bit(ToUint32(SetGlobal(flags)), k) == Bit(ToUint32(flags), k)
  {
    if !HasGlobal(flags) {
      SetGlobalAdds(flags);
      OtherBit(ToUint32(flags), GLOBAL_BIT, k);
    }
  }

  lemma SetGlobalAdds(flags: int)
    requires IsInt32(flags) && !HasGlobal(flags)
    ensures ToUint32(SetGlobal(flags)) == ToUint32(flags) + Pow2(GLOBAL_BIT)
  {
    var u, p := ToUint32(flags), Pow2(GLOBAL_BIT);
    GlobalBitValue(u, p, GLOBAL_BIT);
    hide Bit, Pow2;
    BackAndForth(u + p);
  }

  lemma BackAndForth(v: nat)
    requires v < TWO32
    ensures ToUint32(ToInt32(v)) == v
  {
    if v >= TWO31 {
      ModUnique(v - TWO32, TWO32, -1, v);
    } else {
      ModUnique(v, TWO32, 0, v);
    }
  }

  lemma {:induction false} OtherBit(u: nat, n: nat, k: nat)
    requires !Bit(u, n) && k != n
    ensures Bit(u + Pow2(n), k) == Bit(u, k)
    decreases n
  {
    if n == 0 {
      assert u % 2 == 0 && (u + 1) / 2 == u / 2;
    } else if k == 0 {
      assert (u + 2 * Pow2(n - 1)) % 2 == u % 2;
    } else {
      HalfAdd(u, Pow2(n - 1));
      OtherBit(u / 2, n - 1, k - 1);
    }
  }
}
