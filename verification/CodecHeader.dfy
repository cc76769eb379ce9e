/**
  The codec header of ff_header.c: a list of streams, each with its fields written big-endian
  in a fixed order and width, and read back in the same order.
 */
module CodecHeader {
  import opened Bytes

  datatype Field =
    | WrapBits | StreamNum | StreamDen | CodecId | CodecType | BitRate | Flags | Flags2 | Debug
    | TimeBaseNum | TimeBaseDen | Width | Height | GopSize | PixFmt | Qmin | Qmax | MaxQdiff | QCompress | QBlur
    | BitRateTolerance | RcMaxRate | RcMinRate | RcBufferSize | IQuantFactor | BQuantFactor | IQuantOffset
    | BQuantOffset | DctAlgo | StrictStd | MaxBFrames | MpegQuant | IntraDcPrecision | MeMethod | MbDecision
    | NsseWeight | FrameSkipCmp | RcAggressivity | CodecTag | ThreadCount | CoderType | MeCmp | MeSubpelQuality
    | MeRange | KeyintMin | SceneChange
    | BFrameStrategy | Refs | SampleRate | Channels | FrameSize

  /** How a number lies in the buffer and in its field: an unsigned field of `w` bytes, a
      32-bit int, or a floating-point field cut down to thousandths in two bytes. The bits of
      a double are an unsigned field of 8 bytes. */
  datatype Form = Unsigned(w: nat) | Int32 | Milli

  function Octets(f: Form): nat { if f.Unsigned? then f.w else if f.Int32? then 4 else 2 }

  /** The writes of one block, in order. */
  datatype Layout = End | Put(field: Field, form: Form, next: Layout)

  function Prefix(): Layout {
    Put(WrapBits, Int32, Put(StreamNum, Int32, Put(StreamDen, Int32, End)))
  }

  function Generic(): Layout {
    Put(CodecId, Int32, Put(CodecType, Unsigned(1), Put(BitRate, Int32, Put(Flags, Int32,
    Put(Flags2, Int32, Put(Debug, Int32, End))))))
  }

  function Then(a: Layout, b: Layout): Layout {
    if a.End? then b else Put(a.field, a.form, Then(a.next, b))
  }

  function Video(): Layout {
    Then(VideoPicture(), Then(VideoRates(), Then(VideoQuants(), Then(VideoTools(), Then(VideoMotion(),
        VideoCopies())))))
  }

  function VideoPicture(): Layout {
    Put(TimeBaseNum, Int32, Put(TimeBaseDen, Int32, Put(Width, Unsigned(2), Put(Height, Unsigned(2),
    Put(GopSize, Unsigned(2), Put(PixFmt, Int32, Put(Qmin, Unsigned(1), Put(Qmax, Unsigned(1), End))))))))
  }

  function VideoRates(): Layout {
    Put(MaxQdiff, Unsigned(1), Put(QCompress, Milli, Put(QBlur, Milli, Put(BitRateTolerance, Int32,
    Put(RcMaxRate, Int32, Put(RcMinRate, Int32, Put(RcBufferSize, Int32, End)))))))
  }

  function VideoQuants(): Layout {
    Put(IQuantFactor, Unsigned(8), Put(BQuantFactor, Unsigned(8), Put(IQuantOffset, Unsigned(8),
    Put(BQuantOffset, Unsigned(8), Put(DctAlgo, Int32, Put(StrictStd, Int32, Put(MaxBFrames, Int32,
    Put(MpegQuant, Int32, End))))))))
  }

  function VideoTools(): Layout {
    Put(IntraDcPrecision, Int32, Put(MeMethod, Int32, Put(MbDecision, Int32, Put(NsseWeight, Int32,
    Put(FrameSkipCmp, Int32, Put(RcAggressivity, Unsigned(8), Put(CodecTag, Unsigned(4),
    Put(ThreadCount, Unsigned(1), End))))))))
  }

  function VideoMotion(): Layout {
    Put(CoderType, Int32, Put(MeCmp, Int32, Put(MeSubpelQuality, Int32, Put(MeRange, Int32,
    Put(KeyintMin, Int32, Put(SceneChange, Int32, Put(BFrameStrategy, Int32, End)))))))
  }

  /** The full-width copies of three fields written above, and the last field. */
  function VideoCopies(): Layout {
    Put(QCompress, Unsigned(8), Put(QBlur, Unsigned(8), Put(MaxQdiff, Int32, Put(Refs, Int32, End))))
  }

  function Audio(): Layout {
    Put(SampleRate, Int32, Put(Channels, Unsigned(2), Put(FrameSize, Unsigned(2), End)))
  }

  function Size(l: Layout): nat { if l.End? then 0 else Octets(l.form) + Size(l.next) }

  lemma {:induction false} SizeThen(a: Layout, b: Layout)
    ensures Size(Then(a, b)) == Size(a) + Size(b)
  {
    if a.Put? {
      SizeThen(a.next, b);
    }
  }

  lemma VideoPartSizes()
    ensures Size(VideoPicture()) == 20 && Size(VideoRates()) == 21 && Size(VideoQuants()) == 48
    ensures Size(VideoTools()) == 33 && Size(VideoMotion()) == 28 && Size(VideoCopies()) == 24
  {}

  lemma VideoSize()
    ensures Size(Video()) == 174
  {
    VideoPartSizes();
    var e := VideoCopies();
    var d := Then(VideoMotion(), e);
    var c := Then(VideoTools(), d);
    var b := Then(VideoQuants(), c);
    SizeThen(VideoMotion(), e);
    SizeThen(VideoTools(), d);
    SizeThen(VideoQuants(), c);
    SizeThen(VideoRates(), b);
    SizeThen(VideoPicture(), Then(VideoRates(), b));
  }

  lemma Sizes()
    ensures Size(Prefix()) == 12 && Size(Generic()) == 21 && Size(Video()) == 174 && Size(Audio()) == 8
  {
    VideoSize();
  }

  function Fields(l: Layout): set<Field> { if l.End? then {} else {l.field} + Fields(l.next) }

  // ---------------------------------------------------------- one block of fields

  /** The struct: doubles are their bit patterns, and fields never set are zero. */
  type Record = map<Field, int>

  function At(r: Record, f: Field): int { if f in r then r[f] else 0 }

  /** The blocks of a header, and the floating-point conversions, on which nothing depends. */
  datatype Format = Format(prefix: Layout, generic: Layout, video: Layout, audio: Layout,
                           toMilli: int -> int, fromMilli: nat -> int) {
    ghost predicate Valid() {
      && Size(prefix) == 12 && Size(generic) == 21 && Size(video) == 174 && Size(audio) == 8
      && {CodecId, CodecType, Flags} <= Fields(generic)
      && CodecId !in Fields(prefix) && CodecType !in Fields(prefix) && Flags !in Fields(prefix)
    }

    /** The bytes of a stream ahead of its extradata. */
    function Front(): nat { Size(prefix) + Size(generic) }

    function Specific(codecType: int): Layout { if codecType == VIDEO then video else audio }
  }

  const VIDEO: int := 0
  const AUDIO: int := 1

  predicate Known(codecType: int) { codecType == VIDEO || codecType == AUDIO }

  /** The header of ff_header.c. */
  function Standard(toMilli: int -> int, fromMilli: nat -> int): Format {
    Format(Prefix(), Generic(), Video(), Audio(), toMilli, fromMilli)
  }

  lemma StandardIsValid(toMilli: int -> int, fromMilli: nat -> int)
    ensures Standard(toMilli, fromMilli).Valid()
  {
    Sizes();
    assert Fields(Generic()) == {CodecId, CodecType, BitRate, Flags, Flags2, Debug};
    assert Fields(Prefix()) == {WrapBits, StreamNum, StreamDen};
  }

  function Number(x: int, f: Form, fmt: Format): nat {
    (if f.Milli? then fmt.toMilli(x) else x) % Pow256(Octets(f))
  }

  function Back(u: nat, f: Form, fmt: Format): int {
    if f.Milli? then fmt.fromMilli(u) else if f.Int32? then ToInt32(u) else u
  }

  function Encode(l: Layout, r: Record, fmt: Format): (s: seq<byte>)
    ensures |s| == Size(l)
  {
    if l.End? then []
    else BigEndian(Number(At(r, l.field), l.form, fmt), Octets(l.form)) + Encode(l.next, r, fmt)
  }

  /** Reading into `r`, which later reads of the same field overwrite. */
  function Decode(l: Layout, s: seq<byte>, r: Record, fmt: Format): (d: Record)
    requires |s| >= Size(l)
    ensures d.Keys == r.Keys + Fields(l)
    decreases l
  {
    if l.End? then r
    else
      var w := Octets(l.form);
      Decode(l.next, s[w..], r[l.field := Back(FromBigEndian(s[..w]), l.form, fmt)], fmt)
  }

  /** A number its form holds without loss. */
  predicate Fits(x: int, f: Form) {
    if f.Int32? then IsInt32(x) else f.Unsigned? && 0 <= x < Pow256(f.w)
  }

  /** Every field fits the last of the forms it is written in. */
  predicate Exact(l: Layout, r: Record) {
    l.Put? ==> (l.field in Fields(l.next) || Fits(At(r, l.field), l.form)) && Exact(l.next, r)
  }

  lemma NumberComesBack(x: int, f: Form, fmt: Format)
    ensures FromBigEndian(BigEndian(Number(x, f, fmt), Octets(f))) == Number(x, f, fmt)
    ensures Fits(x, f) ==> Back(Number(x, f, fmt), f, fmt) == x
  {
    Pow256Values();
    BigEndianExact(Number(x, f, fmt), Octets(f));
    if f.Int32? && Fits(x, f) {
      Int32RoundTrip(x);
    } else if Fits(x, f) {
      ModUnique(x, Pow256(f.w), 0, x);
    }
  }

  /** Fields are restored from their last copies; the narrow copies before them do not matter. */
  lemma {:induction false} BlockRoundTrip(l: Layout, r: Record, rest: seq<byte>, r0: Record, fmt: Format)
    requires Exact(l, r)
    ensures var d := Decode(l, Encode(l, r, fmt) + rest, r0, fmt);
            && (forall f :: f in Fields(l) ==> d[f] == At(r, f))
            && (forall f :: f in r0 && f !in Fields(l) ==> d[f] == r0[f])
    decreases l
  {
    if l.Put? {
      var x, w := Number(At(r, l.field), l.form, fmt), Octets(l.form);
      NumberComesBack(At(r, l.field), l.form, fmt);
      Associative(BigEndian(x, w), Encode(l.next, r, fmt), rest);
      AfterFirst(Encode(l, r, fmt) + rest, BigEndian(x, w), Encode(l.next, r, fmt) + rest);
      BlockRoundTrip(l.next, r, rest, r0[l.field := Back(x, l.form, fmt)], fmt);
    }
  }

  /** Only the fields of a block matter to it. */
  lemma {:induction false} BlockIgnoresOthers(l: Layout, r: Record, r': Record, fmt: Format)
    requires forall f :: f in Fields(l) ==> At(r, f) == At(r', f)
    ensures Encode(l, r, fmt) == Encode(l, r', fmt) && Exact(l, r) == Exact(l, r')
    decreases l
  {
    if l.Put? {
      BlockIgnoresOthers(l.next, r, r', fmt);
    }
  }

  // ---------------------------------------------------------------- one stream

  datatype Stream = Stream(fields: Record, extradata: seq<byte>)

  /** CODEC_FLAG_GLOBAL_HEADER is 1 << 22. */
  const GLOBAL_BIT: nat := 22
  const MARGIN: nat := 57 * 4
  const HEADER_SIZE: nat := 8 * 1024

  predicate HasGlobal(flags: int) { Bit(ToUint32(flags), GLOBAL_BIT) }

  /** flags | CODEC_FLAG_GLOBAL_HEADER. */
  function SetGlobal(flags: int): int {
    if HasGlobal(flags) then flags else ToInt32(ToUint32(flags) + Pow2(GLOBAL_BIT))
  }

  /** The writer sets the flag on a stream that has extradata. */
  function Flagged(st: Stream): Record {
    if st.extradata != [] then st.fields[Flags := SetGlobal(At(st.fields, Flags))] else st.fields
  }

  /** Setting the flag sets it, whatever the other 31 bits are. */
  lemma SetGlobalSets(flags: int)
    ensures HasGlobal(SetGlobal(flags))
  {
    if !HasGlobal(flags) {
      SetBitFits(ToUint32(flags), Pow2(GLOBAL_BIT), GLOBAL_BIT);
    }
  }

  lemma SetBitFits(u: nat, p: nat, k: nat)
    requires u < TWO32 && !Bit(u, k) && p == Pow2(k) && k == GLOBAL_BIT
    ensures Bit(ToUint32(ToInt32(u + p)), k)
  {
    var v := u + p;
    SetBit(u, k);
    GlobalBitValue(u, p, k);
    ModUnique(v, TWO32, 0, v);
    if v >= TWO31 {
      ModUnique(v - TWO32, TWO32, -1, v);
    }
    assert ToUint32(ToInt32(v)) == v;
  }

  lemma {:induction false} BitIsQuotient(u: nat, k: nat)
    ensures Bit(u, k) <==> u / Pow2(k) % 2 == 1
    decreases k
  {
    if k > 0 {
      BitIsQuotient(u / 2, k - 1);
      DivDiv(u, Pow2(k - 1));
    }
  }

  lemma DivDiv(u: nat, p: nat)
    requires p > 0
    ensures u / 2 / p == u / (2 * p)
  {
    var q, r := u / 2 / p, u / 2 % p;
    assert u / 2 == p * q + r;
    assert u == (2 * p) * q + (2 * r + u % 2) by {
      assert (2 * p) * q == 2 * (p * q);
    }
    ModUnique(u, 2 * p, q, 2 * r + u % 2);
  }

  lemma GlobalBitValue(u: nat, p: nat, k: nat)
    requires u < TWO32 && !Bit(u, k) && p == Pow2(k) && k == GLOBAL_BIT
    ensures u + p < TWO32
  {
    BitIsQuotient(u, k);
    GlobalBitWeight();
    EvenQuotient(u);
  }

  lemma GlobalBitWeight()
    ensures Pow2(GLOBAL_BIT) == 0x40_0000
  {
    assert Pow2(6) == 64;
    assert Pow2(12) == 64 * Pow2(6);
    assert Pow2(17) == 32 * Pow2(12);
    assert Pow2(22) == 32 * Pow2(17);
  }

  lemma EvenQuotient(u: nat)
    requires u < TWO32 && u / 0x40_0000 % 2 != 1
    ensures u + 0x40_0000 < TWO32
  {
    var q := u / 0x40_0000;
    assert q <= 1023;
    assert u < (q + 1) * 0x40_0000;
  }

  predicate Global(st: Stream) { HasGlobal(At(Flagged(st), Flags)) }

  function Extra(st: Stream): seq<byte> {
    if Global(st) then BigEndian(ToUint32(|st.extradata|), 4) + st.extradata else []
  }

  /** What one turn of the writer's loop does: stop with a return value, or go on. */
  datatype Turn = Stop(ret: int, bytes: seq<byte>) | Go(bytes: seq<byte>)

  /** The guard, evaluated at byte `pos` before the length of the extradata is stored. */
  predicate TooLarge(st: Stream, pos: nat, size: nat) {
    Global(st) && pos + |st.extradata| > size - MARGIN
  }

  /** The turn for `st`, which starts at byte `pos` and stores `bytes`. */
  function WriteStream(st: Stream, pos: nat, size: nat, fmt: Format): Turn {
    var bytes1 := Encode(fmt.prefix, st.fields, fmt);
    if At(st.fields, CodecId) == 0 then Stop(0, bytes1)
    else
      var bytes2 := bytes1 + Encode(fmt.generic, Flagged(st), fmt);
      if TooLarge(st, pos + |bytes2|, size) then Stop(0, bytes2)
      else if !Known(At(st.fields, CodecType)) then Stop(-1, bytes2 + Extra(st))
      else Go(bytes2 + (Extra(st) + Encode(fmt.Specific(At(st.fields, CodecType)), Flagged(st), fmt)))
  }

  /** What one turn of the reader's loop does: fail, leave the buffer, or take a stream. */
  datatype Taken = Refused | PastEnd | Took(st: Stream, rest: seq<byte>, pos: nat)

  /** The guard, evaluated at the end of the length of the extradata. */
  predicate CutOff(pos: nat, n: int, size: nat) { pos + n > size - MARGIN }

  /** The fields ahead of the extradata. */
  function ReadFront(s: seq<byte>, fmt: Format): Record
    requires fmt.Front() <= |s|
  {
    Decode(fmt.generic, s[Size(fmt.prefix)..], Decode(fmt.prefix, s, map[], fmt), fmt)
  }

  /** The stream that `s` holds at byte `pos` of the header. */
  function ReadStream(s: seq<byte>, pos: nat, size: nat, fmt: Format): Taken {
    if fmt.Front() > |s| then PastEnd
    else
      var r := ReadFront(s, fmt);
      if At(r, CodecId) == 0 then Refused else ReadRest(s[fmt.Front()..], pos + fmt.Front(), size, fmt, r)
  }

  /** Extradata, when the flag announces it, and then the fields of the kind of stream. */
  function ReadRest(s: seq<byte>, pos: nat, size: nat, fmt: Format, r: Record): Taken {
    if !HasGlobal(At(r, Flags)) then ReadSpecific(s, pos, fmt, r, [])
    else if 4 > |s| then PastEnd
    else
      var n := ToInt32(FromBigEndian(s[..4]));
      if CutOff(pos + 4, n, size) then Refused
      else if n < 0 || 4 + n > |s| then PastEnd
      else ReadSpecific(s[4 + n..], pos + 4 + n, fmt, r, s[4..4 + n])
  }

  function ReadSpecific(s: seq<byte>, pos: nat, fmt: Format, r: Record, data: seq<byte>): Taken {
    if !Known(At(r, CodecType)) then Refused
    else
      var l := fmt.Specific(At(r, CodecType));
      if Size(l) > |s| then PastEnd else Took(Stream(Decode(l, s, r, fmt), data), s[Size(l)..], pos + Size(l))
  }

  // ------------------------------------------------- a stream comes back

  /** A stream the header can carry. */
  predicate Portable(st: Stream, fmt: Format) {
    && At(st.fields, CodecId) != 0 && Known(At(st.fields, CodecType))
    && Exact(fmt.prefix, st.fields) && Exact(fmt.generic, Flagged(st))
    && Exact(fmt.Specific(At(st.fields, CodecType)), Flagged(st))
    && |st.extradata| < TWO31
  }

  /** What a reader makes of it: the fields of its kind, with the flag for extradata. */
  function Restored(st: Stream, fmt: Format): Stream {
    var fields := Fields(fmt.prefix) + Fields(fmt.generic) + Fields(fmt.Specific(At(st.fields, CodecType)));
    Stream(map f | f in fields :: At(Flagged(st), f), st.extradata)
  }

  function FrontBytes(st: Stream, fmt: Format): seq<byte> {
    Encode(fmt.prefix, st.fields, fmt) + Encode(fmt.generic, Flagged(st), fmt)
  }

  function SpecificBytes(st: Stream, fmt: Format): seq<byte> {
    Encode(fmt.Specific(At(st.fields, CodecType)), Flagged(st), fmt)
  }

  function StreamBytes(st: Stream, fmt: Format): seq<byte> {
    FrontBytes(st, fmt) + (Extra(st) + SpecificBytes(st, fmt))
  }

  /** The record after the front of a stream. */
  ghost predicate FrontRead(r: Record, st: Stream, fmt: Format) {
    r.Keys == Fields(fmt.prefix) + Fields(fmt.generic) && forall f :: f in r ==> r[f] == At(Flagged(st), f)
  }

  lemma FrontRoundTrip(s: seq<byte>, st: Stream, rest: seq<byte>, fmt: Format)
    requires fmt.Valid() && Portable(st, fmt) && s == FrontBytes(st, fmt) + rest
    ensures |s| == 33 + |rest| && s[33..] == rest && FrontRead(ReadFront(s, fmt), st, fmt)
  {
    var a, b := Encode(fmt.prefix, st.fields, fmt), Encode(fmt.generic, Flagged(st), fmt);
    assert s == a + (b + rest);
    AfterFirst(s, a, b + rest);
    BlockIgnoresOthers(fmt.prefix, st.fields, Flagged(st), fmt);
    BlockRoundTrip(fmt.prefix, Flagged(st), b + rest, map[], fmt);
    BlockRoundTrip(fmt.generic, Flagged(st), rest, Decode(fmt.prefix, s, map[], fmt), fmt);
  }

  lemma SpecificRoundTrip(s: seq<byte>, st: Stream, rest: seq<byte>, r: Record, pos: nat, fmt: Format)
    requires fmt.Valid() && Portable(st, fmt) && s == SpecificBytes(st, fmt) + rest && FrontRead(r, st, fmt)
    ensures ReadSpecific(s, pos, fmt, r, st.extradata)
            == Took(Restored(st, fmt), rest, pos + |SpecificBytes(st, fmt)|)
  {
    var l := fmt.Specific(At(st.fields, CodecType));
    assert At(r, CodecType) == At(Flagged(st), CodecType) == At(st.fields, CodecType);
    BlockRoundTrip(l, Flagged(st), rest, r, fmt);
    AfterFirst(s, SpecificBytes(st, fmt), rest);
    assert Decode(l, s, r, fmt) == Restored(st, fmt).fields;
  }

  /** The reader's guard on a stream at `pos`, which wants 4 bytes more than the writer's. */
  predicate ReaderRefuses(st: Stream, pos: nat, size: nat) { Global(st) && CutOff(pos + 37, |st.extradata|, size) }

  lemma ExtraRoundTrip(s: seq<byte>, h: seq<byte>, x: seq<byte>, rest: seq<byte>)
    requires s == h + (x + rest) && |h| == 4
    ensures |s| == 4 + |x| + |rest| && s[..4] == h && s[4..4 + |x|] == x && s[4 + |x|..] == rest
  {}

  lemma RestWithExtra(s: seq<byte>, h: seq<byte>, x: seq<byte>, tail: seq<byte>, pos: nat, size: nat,
                      fmt: Format, r: Record)
    requires s == h + (x + tail) && |h| == 4 && ToInt32(FromBigEndian(h)) == |x| && HasGlobal(At(r, Flags))
    ensures ReadRest(s, pos, size, fmt, r)
            == if CutOff(pos + 4, |x|, size) then Refused else ReadSpecific(tail, pos + 4 + |x|, fmt, r, x)
  {
    ExtraRoundTrip(s, h, x, tail);
  }

  lemma AfterFront(s: seq<byte>, pos: nat, st: Stream, rest: seq<byte>, size: nat, fmt: Format, r: Record)
    requires fmt.Valid() && Portable(st, fmt) && s == Extra(st) + (SpecificBytes(st, fmt) + rest)
    requires FrontRead(r, st, fmt)
    ensures ReadRest(s, pos, size, fmt, r)
            == if Global(st) && CutOff(pos + 4, |st.extradata|, size) then Refused
               else Took(Restored(st, fmt), rest, pos + |Extra(st)| + |SpecificBytes(st, fmt)|)
  {
    assert At(r, Flags) == At(Flagged(st), Flags);
    SetGlobalSets(At(st.fields, Flags));
    if Global(st) {
      Word32(|st.extradata|);
      AfterFrontGlobal(s, BigEndian(ToUint32(|st.extradata|), 4), pos, st, rest, size, fmt, r);
    } else {
      assert st.extradata == [] && s == SpecificBytes(st, fmt) + rest;
      SpecificRoundTrip(s, st, rest, r, pos, fmt);
    }
  }

  lemma AfterFrontGlobal(s: seq<byte>, h: seq<byte>, pos: nat, st: Stream, rest: seq<byte>, size: nat,
                         fmt: Format, r: Record)
    requires fmt.Valid() && Portable(st, fmt) && s == h + st.extradata + (SpecificBytes(st, fmt) + rest)
    requires FrontRead(r, st, fmt) && HasGlobal(At(r, Flags)) && |h| == 4 && ToInt32(FromBigEndian(h)) == |st.extradata|
    ensures ReadRest(s, pos, size, fmt, r)
            == if CutOff(pos + 4, |st.extradata|, size) then Refused
               else Took(Restored(st, fmt), rest, pos + 4 + |st.extradata| + |SpecificBytes(st, fmt)|)
  {
    var x, tail := st.extradata, SpecificBytes(st, fmt) + rest;
    Associative(h, x, tail);
    RestWithExtra(s, h, x, tail, pos, size, fmt, r);
    SpecificRoundTrip(tail, st, rest, r, pos + 4 + |x|, fmt);
  }

  lemma FrontThenRest(s: seq<byte>, tail: seq<byte>, pos: nat, size: nat, fmt: Format)
    requires fmt.Valid() && |s| >= 33 && s[33..] == tail && At(ReadFront(s, fmt), CodecId) != 0
    ensures ReadStream(s, pos, size, fmt) == ReadRest(tail, pos + 33, size, fmt, ReadFront(s, fmt))
  {}

  /** One stream comes back whole, unless the reader's guard stops it. */
  lemma StreamRoundTrip(st: Stream, rest: seq<byte>, pos: nat, size: nat, fmt: Format)
    requires fmt.Valid() && Portable(st, fmt)
    ensures ReadStream(StreamBytes(st, fmt) + rest, pos, size, fmt)
            == if ReaderRefuses(st, pos, size) then Refused
               else Took(Restored(st, fmt), rest, pos + |StreamBytes(st, fmt)|)
  {
    FrontRoundTripAt(StreamBytes(st, fmt) + rest, FrontBytes(st, fmt), Extra(st), SpecificBytes(st, fmt),
                     st, rest, pos, size, fmt);
  }

  lemma FrontRoundTripAt(s: seq<byte>, front: seq<byte>, extra: seq<byte>, spec: seq<byte>,
                         st: Stream, rest: seq<byte>, pos: nat, size: nat, fmt: Format)
    requires fmt.Valid() && Portable(st, fmt) && s == front + (extra + spec) + rest
    requires front == FrontBytes(st, fmt) && extra == Extra(st) && spec == SpecificBytes(st, fmt)
    ensures ReadStream(s, pos, size, fmt)
            == if ReaderRefuses(st, pos, size) then Refused
               else Took(Restored(st, fmt), rest, pos + 33 + |extra| + |spec|)
  {
    var tail := extra + (spec + rest);
    Regroup(front, extra, spec, rest);
    FrontRoundTrip(s, st, tail, fmt);
    var r := ReadFront(s, fmt);
    assert At(r, CodecId) == At(Flagged(st), CodecId) == At(st.fields, CodecId);
    FrontThenRest(s, tail, pos, size, fmt);
    AfterFront(tail, pos + 33, st, rest, size, fmt, r);
  }

  lemma StreamWrites(st: Stream, pos: nat, size: nat, fmt: Format)
    requires fmt.Valid() && Portable(st, fmt)
    ensures var t := WriteStream(st, pos, size, fmt);
            if TooLarge(st, pos + 33, size) then t.Stop? && t.ret == 0 else t == Go(StreamBytes(st, fmt))
  {}

  // ---------------------------------------------- which streams of ff_header.c those are

  /** The form a field comes back from: the last one it is written in. */
  function FinalForm(f: Field): Form {
    match f
    case CodecType | Qmin | Qmax | ThreadCount => Unsigned(1)
    case Width | Height | GopSize | Channels | FrameSize => Unsigned(2)
    case CodecTag => Unsigned(4)
    case QCompress | QBlur | IQuantFactor | BQuantFactor | IQuantOffset | BQuantOffset | RcAggressivity => Unsigned(8)
    case _ => Int32
  }

  /** Every number is in the range of the width its field comes back from. */
  ghost predicate InRange(r: Record) { forall f: Field :: Fits(At(r, f), FinalForm(f)) }

  /** Every field of `l` is last written in its final form, in `l` or in what comes `later`. */
  predicate EndsInFinalForm(l: Layout, later: set<Field>) {
    l.Put? ==> (l.field in Fields(l.next) + later || l.form == FinalForm(l.field)) && EndsInFinalForm(l.next, later)
  }

  lemma {:induction false} FinalThen(a: Layout, b: Layout, later: set<Field>)
    requires EndsInFinalForm(a, later) && EndsInFinalForm(b, {}) && later <= Fields(b)
    ensures EndsInFinalForm(Then(a, b), {}) && Fields(Then(a, b)) == Fields(a) + Fields(b)
  {
    if a.Put? {
      FinalThen(a.next, b, later);
    }
  }

  /** Every write is in the field's final form. */
  predicate AllFinal(l: Layout) { l.Put? ==> l.form == FinalForm(l.field) && AllFinal(l.next) }

  lemma {:induction false} AllFinalEndsFinal(l: Layout)
    requires AllFinal(l)
    ensures EndsInFinalForm(l, {})
  {
    if l.Put? {
      AllFinalEndsFinal(l.next);
    }
  }

  lemma NothingIsFinal()
    ensures AllFinal(End)
  {}

  lemma FinalPut(f: Field, form: Form, l: Layout) returns (put: Layout)
    requires AllFinal(l) && form == FinalForm(f)
    ensures put == Put(f, form, l) && AllFinal(put)
  {
    put := Put(f, form, l);
  }

  lemma PictureIsFinal()
    ensures AllFinal(VideoPicture())
  {
    hide AllFinal;
    NothingIsFinal();
    var l7 := FinalPut(Qmax, Unsigned(1), End);
    var l6 := FinalPut(Qmin, Unsigned(1), l7);
    var l5 := FinalPut(PixFmt, Int32, l6);
    var l4 := FinalPut(GopSize, Unsigned(2), l5);
    var l3 := FinalPut(Height, Unsigned(2), l4);
    var l2 := FinalPut(Width, Unsigned(2), l3);
    var l1 := FinalPut(TimeBaseDen, Int32, l2);
    var l0 := FinalPut(TimeBaseNum, Int32, l1);
  }

  lemma QuantsAreFinal()
    ensures AllFinal(VideoQuants())
  {
    hide AllFinal;
    NothingIsFinal();
    var l7 := FinalPut(MpegQuant, Int32, End);
    var l6 := FinalPut(MaxBFrames, Int32, l7);
    var l5 := FinalPut(StrictStd, Int32, l6);
    var l4 := FinalPut(DctAlgo, Int32, l5);
    var l3 := FinalPut(BQuantOffset, Unsigned(8), l4);
    var l2 := FinalPut(IQuantOffset, Unsigned(8), l3);
    var l1 := FinalPut(BQuantFactor, Unsigned(8), l2);
    var l0 := FinalPut(IQuantFactor, Unsigned(8), l1);
  }

  lemma LowerToolsAreFinal() returns (lower: Layout)
    ensures lower == Put(FrameSkipCmp, Int32, Put(RcAggressivity, Unsigned(8), Put(CodecTag, Unsigned(4),
                     Put(ThreadCount, Unsigned(1), End))))
    ensures AllFinal(lower)
  {
    hide AllFinal;
    NothingIsFinal();
    var l7 := FinalPut(ThreadCount, Unsigned(1), End);
    var l6 := FinalPut(CodecTag, Unsigned(4), l7);
    var l5 := FinalPut(RcAggressivity, Unsigned(8), l6);
    lower := FinalPut(FrameSkipCmp, Int32, l5);
  }

  lemma ToolsAreFinal()
    ensures AllFinal(VideoTools())
  {
    hide AllFinal;
    var l4 := LowerToolsAreFinal();
    var l3 := FinalPut(NsseWeight, Int32, l4);
    var l2 := FinalPut(MbDecision, Int32, l3);
    var l1 := FinalPut(MeMethod, Int32, l2);
    var l0 := FinalPut(IntraDcPrecision, Int32, l1);
  }

  lemma MotionIsFinal()
    ensures AllFinal(VideoMotion())
  {
    hide AllFinal;
    NothingIsFinal();
    var l6 := FinalPut(BFrameStrategy, Int32, End);
    var l5 := FinalPut(SceneChange, Int32, l6);
    var l4 := FinalPut(KeyintMin, Int32, l5);
    var l3 := FinalPut(MeRange, Int32, l4);
    var l2 := FinalPut(MeSubpelQuality, Int32, l3);
    var l1 := FinalPut(MeCmp, Int32, l2);
    var l0 := FinalPut(CoderType, Int32, l1);
  }

  lemma CopiesAreFinal()
    ensures AllFinal(VideoCopies())
  {
    hide AllFinal;
    NothingIsFinal();
    var l3 := FinalPut(Refs, Int32, End);
    var l2 := FinalPut(MaxQdiff, Int32, l3);
    var l1 := FinalPut(QBlur, Unsigned(8), l2);
    var l0 := FinalPut(QCompress, Unsigned(8), l1);
  }

  lemma GenericIsFinal()
    ensures AllFinal(Generic())
  {}

  lemma SmallBlocksAreFinal()
    ensures AllFinal(Prefix()) && AllFinal(Audio())
  {}

  lemma RatesAreFinal()
    ensures EndsInFinalForm(VideoRates(), {QCompress, QBlur, MaxQdiff})
  {}

  lemma FieldsOfCopies()
    ensures {QCompress, QBlur, MaxQdiff} <= Fields(VideoCopies())
  {}

  lemma VideoEndsInFinalForm()
    ensures EndsInFinalForm(Video(), {})
  {
    hide VideoPicture, VideoRates, VideoQuants, VideoTools, VideoMotion, VideoCopies;
    PictureIsFinal();
    QuantsAreFinal();
    ToolsAreFinal();
    MotionIsFinal();
    CopiesAreFinal();
    RatesAreFinal();
    FieldsOfCopies();
    var e := VideoCopies();
    var d := Then(VideoMotion(), e);
    var c := Then(VideoTools(), d);
    var b := Then(VideoQuants(), c);
    AllFinalEndsFinal(e);
    AllFinalEndsFinal(VideoMotion());
    AllFinalEndsFinal(VideoTools());
    AllFinalEndsFinal(VideoQuants());
    AllFinalEndsFinal(VideoPicture());
    FinalThen(VideoMotion(), e, {});
    FinalThen(VideoTools(), d, {});
    FinalThen(VideoQuants(), c, {});
    FinalThen(VideoRates(), b, {QCompress, QBlur, MaxQdiff});
    FinalThen(VideoPicture(), Then(VideoRates(), b), {});
  }

  lemma {:induction false} FinalIsExact(l: Layout, r: Record)
    requires EndsInFinalForm(l, {}) && InRange(r)
    ensures Exact(l, r)
  {
    if l.Put? {
      FinalIsExact(l.next, r);
    }
  }

  predicate Final(fmt: Format) {
    && EndsInFinalForm(fmt.prefix, {}) && EndsInFinalForm(fmt.generic, {})
    && EndsInFinalForm(fmt.video, {}) && EndsInFinalForm(fmt.audio, {})
  }

  /** The header of ff_header.c writes every field for the last time at its full width. */
  lemma StandardIsFinal(toMilli: int -> int, fromMilli: nat -> int)
    ensures Final(Standard(toMilli, fromMilli))
  {
    hide Prefix, Generic, Video, Audio;
    VideoEndsInFinalForm();
    GenericIsFinal();
    SmallBlocksAreFinal();
    AllFinalEndsFinal(Prefix());
    AllFinalEndsFinal(Generic());
    AllFinalEndsFinal(Audio());
  }

  /** A known codec and numbers in range are all it takes; max_qdiff may be any int, and
      qcompress and qblur any double, because their narrow copies are not the last. */
  lemma InRangeIsPortable(st: Stream, fmt: Format)
    requires Final(fmt)
    requires InRange(st.fields) && At(st.fields, CodecId) != 0 && Known(At(st.fields, CodecType))
    requires |st.extradata| < TWO31
    ensures Portable(st, fmt)
  {
    FlaggedInRange(st);
    FinalIsExact(fmt.prefix, st.fields);
    FinalIsExact(fmt.generic, Flagged(st));
    FinalIsExact(fmt.Specific(At(st.fields, CodecType)), Flagged(st));
  }

  lemma SetGlobalIsInt32(flags: int)
    requires IsInt32(flags)
    ensures IsInt32(SetGlobal(flags))
  {
    if !HasGlobal(flags) {
      GlobalBitValue(ToUint32(flags), Pow2(GLOBAL_BIT), GLOBAL_BIT);
    }
  }

  lemma FlaggedInRange(st: Stream)
    requires InRange(st.fields)
    ensures InRange(Flagged(st))
  {
    hide SetGlobal;
    assert Fits(At(st.fields, Flags), FinalForm(Flags));
    SetGlobalIsInt32(At(st.fields, Flags));
    forall f: Field
      ensures Fits(At(Flagged(st), f), FinalForm(f))
    {
      assert Fits(At(st.fields, f), FinalForm(f));
    }
  }

  // ------------------------------------------------------ the two loops, for any body

  /** The return value, and the bytes stored in the buffer on the way. */
  datatype Written = Written(ret: int, out: seq<byte>)

  /** `Overrun`: the reader would leave its buffer. */
  datatype ReadResult = Read(consumed: nat, streams: seq<Stream>) | Failed | Overrun

  type Writer = (Stream, nat) -> Turn
  type Reader = (seq<byte>, nat) -> Taken

  function WriteAll(sts: seq<Stream>, out: seq<byte>, turn: Writer): Written
    decreases sts
  {
    if sts == [] then Written(|out|, out)
    else
      var t := turn(sts[0], |out|);
      if t.Stop? then Written(t.ret, out + t.bytes) else WriteAll(sts[1..], out + t.bytes, turn)
  }

  function ReadAll(s: seq<byte>, pos: nat, left: nat, take: Reader, done: seq<Stream>): ReadResult
    decreases left
  {
    if left == 0 then Read(pos, done)
    else
      match take(s, pos)
      case Refused => Failed
      case PastEnd => Overrun
      case Took(st, rest, pos') => ReadAll(rest, pos', left - 1, take, done + [st])
  }

  function Concat(sts: seq<Stream>, bytes: Stream -> seq<byte>): seq<byte> {
    if sts == [] then [] else bytes(sts[0]) + Concat(sts[1..], bytes)
  }

  /** No stream is stopped at the byte where it starts. */
  predicate Accepted(sts: seq<Stream>, pos: nat, bytes: Stream -> seq<byte>, ok: (Stream, nat) -> bool) {
    sts != [] ==> ok(sts[0], pos) && Accepted(sts[1..], pos + |bytes(sts[0])|, bytes, ok)
  }

  function Each(sts: seq<Stream>, f: Stream -> Stream): seq<Stream> {
    if sts == [] then [] else [f(sts[0])] + Each(sts[1..], f)
  }

  lemma {:induction false} WriteAllConcats(sts: seq<Stream>, out: seq<byte>, turn: Writer, bytes: Stream -> seq<byte>,
                                          ok: (Stream, nat) -> bool)
    requires out != []
    requires forall i: nat, pos: nat | i < |sts| ::
               if ok(sts[i], pos) then turn(sts[i], pos) == Go(bytes(sts[i]))
               else turn(sts[i], pos).Stop? && turn(sts[i], pos).ret <= 0
    ensures WriteAll(sts, out, turn).ret > 0 <==> Accepted(sts, |out|, bytes, ok)
    ensures Accepted(sts, |out|, bytes, ok) ==>
              var out' := out + Concat(sts, bytes); WriteAll(sts, out, turn) == Written(|out'|, out')
    decreases sts
  {
    if sts != [] {
      var next := out + bytes(sts[0]);
      assert ok(sts[0], |out|) ==> turn(sts[0], |out|) == Go(bytes(sts[0]));
      WriteAllConcats(sts[1..], next, turn, bytes, ok);
      assert next + Concat(sts[1..], bytes) == out + Concat(sts, bytes);
    } else {
      assert out + [] == out;
    }
  }

  /** Each turn takes the bytes of a stream off whatever follows them, or refuses. */
  ghost predicate TakesEach(sts: seq<Stream>, take: Reader, bytes: Stream -> seq<byte>,
                            ok: (Stream, nat) -> bool, f: Stream -> Stream) {
    forall i: nat, rest: seq<byte>, pos: nat | i < |sts| ::
      take(bytes(sts[i]) + rest, pos)
      == if ok(sts[i], pos) then Took(f(sts[i]), rest, pos + |bytes(sts[i])|) else Refused
  }

  lemma {:induction false} ReadAllRestores(sts: seq<Stream>, s: seq<byte>, pos: nat, pad: seq<byte>, take: Reader,
                                           bytes: Stream -> seq<byte>, ok: (Stream, nat) -> bool,
                                           f: Stream -> Stream, done: seq<Stream>)
    requires s == Concat(sts, bytes) + pad
    requires TakesEach(sts, take, bytes, ok, f)
    ensures ReadAll(s, pos, |sts|, take, done)
            == if Accepted(sts, pos, bytes, ok) then Read(pos + |Concat(sts, bytes)|, done + Each(sts, f)) else Failed
    decreases sts
  {
    if sts != [] {
      var rest := Concat(sts[1..], bytes) + pad;
      assert s == bytes(sts[0]) + rest;
      if ok(sts[0], pos) {
        ReadAllRestores(sts[1..], rest, pos + |bytes(sts[0])|, pad, take, bytes, ok, f, done + [f(sts[0])]);
        assert done + [f(sts[0])] + Each(sts[1..], f) == done + Each(sts, f);
      }
    } else {
      assert done + [] == done;
    }
  }

  // ------------------------------------------------------------- whole headers

  function BytesOf(fmt: Format): Stream -> seq<byte> { st => StreamBytes(st, fmt) }

  function WriteTurn(size: nat, fmt: Format): Writer { (st: Stream, pos: nat) => WriteStream(st, pos, size, fmt) }

  function ReadTurn(size: nat, fmt: Format): Reader { (s: seq<byte>, pos: nat) => ReadStream(s, pos, size, fmt) }

  function BitRates(sts: seq<Stream>): int {
    if sts == [] then 0 else BitRates(sts[..|sts| - 1]) + At(sts[|sts| - 1].fields, BitRate)
  }

  function Head(sts: seq<Stream>): (h: seq<byte>)
    ensures |h| == 8
  {
    BigEndian(ToUint32(|sts|), 4) + BigEndian(ToUint32(BitRates(sts)), 4)
  }

  /** header_write. */
  function Write(sts: seq<Stream>, size: nat, fmt: Format): Written {
    WriteAll(sts, Head(sts), WriteTurn(size, fmt))
  }

  /** A stream count, a bit rate and the streams; a negative count reads none. */
  function ReadCounted(buf: seq<byte>, take: Reader): ReadResult {
    if |buf| < 8 then Overrun
    else
      var n := ToInt32(FromBigEndian(buf[..4]));
      ReadAll(buf[8..], 8, if n < 0 then 0 else n, take, [])
  }

  /** header_read. */
  function ReadHeader(buf: seq<byte>, size: nat, fmt: Format): ReadResult { ReadCounted(buf, ReadTurn(size, fmt)) }

  predicate AllPortable(sts: seq<Stream>, fmt: Format) { forall i :: 0 <= i < |sts| ==> Portable(sts[i], fmt) }

  function WriterOk(size: nat): (Stream, nat) -> bool { (st: Stream, pos: nat) => !TooLarge(st, pos + 33, size) }

  function ReaderOk(size: nat): (Stream, nat) -> bool { (st: Stream, pos: nat) => !ReaderRefuses(st, pos, size) }

  function Restore(fmt: Format): Stream -> Stream { st => Restored(st, fmt) }

  lemma TurnsWrite(sts: seq<Stream>, size: nat, fmt: Format)
    requires fmt.Valid() && AllPortable(sts, fmt)
    ensures var turn, bytes, ok := WriteTurn(size, fmt), BytesOf(fmt), WriterOk(size);
            forall i: nat, pos: nat | i < |sts| ::
              if ok(sts[i], pos) then turn(sts[i], pos) == Go(bytes(sts[i]))
              else turn(sts[i], pos).Stop? && turn(sts[i], pos).ret <= 0
  {
    var turn, bytes, ok := WriteTurn(size, fmt), BytesOf(fmt), WriterOk(size);
    forall i: nat, pos: nat | i < |sts|
      ensures if ok(sts[i], pos) then turn(sts[i], pos) == Go(bytes(sts[i]))
              else turn(sts[i], pos).Stop? && turn(sts[i], pos).ret <= 0
    {
      StreamWrites(sts[i], pos, size, fmt);
    }
  }

  lemma HeaderWrites(sts: seq<Stream>, size: nat, fmt: Format)
    requires fmt.Valid() && AllPortable(sts, fmt) && Write(sts, size, fmt).ret > 0
    ensures Accepted(sts, 8, BytesOf(fmt), WriterOk(size))
    ensures var out := Head(sts) + Concat(sts, BytesOf(fmt)); Write(sts, size, fmt) == Written(|out|, out)
  {
    TurnsWrite(sts, size, fmt);
    WriteAllConcats(sts, Head(sts), WriteTurn(size, fmt), BytesOf(fmt), WriterOk(size));
  }

  lemma TurnsRestore(sts: seq<Stream>, size: nat, fmt: Format)
    requires fmt.Valid() && AllPortable(sts, fmt)
    ensures TakesEach(sts, ReadTurn(size, fmt), BytesOf(fmt), ReaderOk(size), Restore(fmt))
  {
    var take, bytes, ok, f := ReadTurn(size, fmt), BytesOf(fmt), ReaderOk(size), Restore(fmt);
    forall i: nat, rest: seq<byte>, pos: nat | i < |sts|
      ensures take(bytes(sts[i]) + rest, pos)
              == if ok(sts[i], pos) then Took(f(sts[i]), rest, pos + |bytes(sts[i])|) else Refused
    {
      StreamRoundTrip(sts[i], rest, pos, size, fmt);
    }
  }

  lemma CountedReads(sts: seq<Stream>, pad: seq<byte>, take: Reader, bytes: Stream -> seq<byte>,
                     ok: (Stream, nat) -> bool, f: Stream -> Stream)
    requires |sts| < TWO31 && TakesEach(sts, take, bytes, ok, f)
    ensures ReadCounted(Head(sts) + (Concat(sts, bytes) + pad), take)
            == if Accepted(sts, 8, bytes, ok) then Read(8 + |Concat(sts, bytes)|, Each(sts, f)) else Failed
  {
    var s := Concat(sts, bytes) + pad;
    ReadAllRestores(sts, s, 8, pad, take, bytes, ok, f, []);
    HeadReads(sts, Head(sts) + s, s);
    assert [] + Each(sts, f) == Each(sts, f);
  }

  lemma HeaderReads(sts: seq<Stream>, body: seq<byte>, pad: seq<byte>, size: nat, fmt: Format)
    requires fmt.Valid() && AllPortable(sts, fmt) && |sts| < TWO31 && body == Concat(sts, BytesOf(fmt))
    ensures ReadHeader(Head(sts) + (body + pad), size, fmt)
            == if Accepted(sts, 8, BytesOf(fmt), ReaderOk(size)) then Read(8 + |body|, Each(sts,
                Restore(fmt))) else Failed
  {
    TurnsRestore(sts, size, fmt);
    CountedReads(sts, pad, ReadTurn(size, fmt), BytesOf(fmt), ReaderOk(size), Restore(fmt));
  }

  lemma HeadReads(sts: seq<Stream>, buf: seq<byte>, rest: seq<byte>)
    requires |sts| < TWO31 && buf == Head(sts) + rest
    ensures |buf| >= 8 && ToInt32(FromBigEndian(buf[..4])) == |sts| && buf[8..] == rest
  {
    Word32(|sts|);
    AfterFirst(buf, Head(sts), rest);
    assert buf[..4] == BigEndian(ToUint32(|sts|), 4);
  }

  /** What the writer produces for carriable streams the reader restores, consuming exactly
      the bytes written, if and only if every extradata block leaves the reader's guard its 4
      extra bytes; otherwise it fails. */
  lemma HeaderRoundTrip(sts: seq<Stream>, pad: seq<byte>, size: nat, fmt: Format)
    requires fmt.Valid() && AllPortable(sts, fmt) && |sts| < TWO31 && Write(sts, size, fmt).ret > 0
    ensures var w := Write(sts, size, fmt);
            && w.ret == |w.out|
            && ReadHeader(w.out + pad, size, fmt)
               == if Accepted(sts, 8, BytesOf(fmt), ReaderOk(size)) then Read(|w.out|, Each(sts,
                   Restore(fmt))) else Failed
  {
    HeaderWrites(sts, size, fmt);
    var body := Concat(sts, BytesOf(fmt));
    HeaderReads(sts, body, pad, size, fmt);
    Associative(Head(sts), body, pad);
  }

  /** A stream header_write can carry whole: a known codec, and numbers in range. */
  ghost predicate Carriable(st: Stream) {
    && At(st.fields, CodecId) != 0 && Known(At(st.fields, CodecType)) && InRange(st.fields)
    && |st.extradata| < TWO31
  }

  /** The round trip for the header of ff_header.c, whatever its floating-point conversions. */
  lemma StandardRoundTrip(sts: seq<Stream>, pad: seq<byte>, size: nat, toMilli: int -> int, fromMilli: nat -> int)
    requires |sts| < TWO31 && forall i :: 0 <= i < |sts| ==> Carriable(sts[i])
    requires Write(sts, size, Standard(toMilli, fromMilli)).ret > 0
    ensures var fmt := Standard(toMilli, fromMilli);
            var w := Write(sts, size, fmt);
            && w.ret == |w.out|
            && ReadHeader(w.out + pad, size, fmt)
               == if Accepted(sts, 8, BytesOf(fmt), ReaderOk(size)) then Read(|w.out|, Each(sts,
                   Restore(fmt))) else Failed
  {
    hide Prefix, Generic, Video, Audio;
    var fmt := Standard(toMilli, fromMilli);
    StandardIsValid(toMilli, fromMilli);
    StandardIsFinal(toMilli, fromMilli);
    forall i | 0 <= i < |sts|
      ensures Portable(sts[i], fmt)
    {
      InRangeIsPortable(sts[i], fmt);
    }
    HeaderRoundTrip(sts, pad, size, fmt);
  }

  /** One audio stream with this extradata, and every other field 0. */
  function AudioWith(extradata: seq<byte>): Stream { Stream(map[CodecId := 1, CodecType := AUDIO], extradata) }

  lemma AudioIsCarriable(x: seq<byte>)
    requires |x| < TWO31
    ensures Carriable(AudioWith(x)) && (x != [] ==> Global(AudioWith(x)))
  {
    var r := AudioWith(x).fields;
    forall f: Field
      ensures Fits(At(r, f), FinalForm(f))
    {
      Pow256Values();
      assert At(r, f) == if f.CodecId? || f.CodecType? then 1 else 0;
      assert Pow256(1) > 1 && Pow256(2) > 1 && Pow256(4) > 1 && Pow256(8) > 1;
    }
    SetGlobalSets(0);
  }

  lemma WritesIff(sts: seq<Stream>, size: nat, fmt: Format)
    requires fmt.Valid() && AllPortable(sts, fmt)
    ensures Write(sts, size, fmt).ret > 0 <==> Accepted(sts, 8, BytesOf(fmt), WriterOk(size))
  {
    TurnsWrite(sts, size, fmt);
    WriteAllConcats(sts, Head(sts), WriteTurn(size, fmt), BytesOf(fmt), WriterOk(size));
  }

  lemma GuardsDiffer(x: seq<byte>, bytes: Stream -> seq<byte>)
    requires 7920 <= |x| <= 7923
    ensures Accepted([AudioWith(x)], 8, bytes, WriterOk(HEADER_SIZE))
    ensures !Accepted([AudioWith(x)], 8, bytes, ReaderOk(HEADER_SIZE))
  {
    AudioIsCarriable(x);
    hide AudioWith;
    var st := AudioWith(x);
    assert !TooLarge(st, 41, HEADER_SIZE) && ReaderRefuses(st, 8, HEADER_SIZE);
  }

  /** For instance one audio stream with 7920 to 7923 bytes of extradata: the writer takes it,
      and the reader refuses what was written. */
  lemma WrittenButRefused(x: seq<byte>, toMilli: int -> int, fromMilli: nat -> int)
    requires 7920 <= |x| <= 7923
    ensures var fmt := Standard(toMilli, fromMilli);
            var w := Write([AudioWith(x)], HEADER_SIZE, fmt);
            Carriable(AudioWith(x)) && w.ret == |w.out| > 0 && ReadHeader(w.out, HEADER_SIZE, fmt) == Failed
  {
    hide Prefix, Generic, Video, Audio, Write, ReadHeader, Accepted, Portable;
    var fmt, st := Standard(toMilli, fromMilli), AudioWith(x);
    AudioIsCarriable(x);
    StandardIsValid(toMilli, fromMilli);
    StandardIsFinal(toMilli, fromMilli);
    InRangeIsPortable(st, fmt);
    GuardsDiffer(x, BytesOf(fmt));
    WritesIff([st], HEADER_SIZE, fmt);
    StandardRoundTrip([st], [], HEADER_SIZE, toMilli, fromMilli);
    var w := Write([st], HEADER_SIZE, fmt);
    assert w.out + [] == w.out;
  }

  // ------------------------------------------------------------- the margin

  lemma TurnIsShort(st: Stream, pos: nat, size: nat, fmt: Format)
    requires fmt.Valid() && Global(st)
    requires size >= MARGIN && (pos == 8 || pos <= size - MARGIN + 178)
    ensures var t := WriteStream(st, pos, size, fmt);
            pos + |t.bytes| <= size && (t.Go? ==> pos + |t.bytes| <= size - MARGIN + 178)
  {}

  lemma {:induction false} LoopStaysInside(sts: seq<Stream>, out: seq<byte>, size: nat, turn: Writer)
    requires size >= MARGIN && (|out| == 8 || |out| <= size - MARGIN + 178)
    requires forall i: nat, pos: nat | i < |sts| && (pos == 8 || pos <= size - MARGIN + 178) ::
               var t := turn(sts[i], pos);
               pos + |t.bytes| <= size && (t.Go? ==> pos + |t.bytes| <= size - MARGIN + 178)
    ensures |WriteAll(sts, out, turn).out| <= size
    decreases sts
  {
    if sts != [] {
      var t := turn(sts[0], |out|);
      if t.Go? {
        LoopStaysInside(sts[1..], out + t.bytes, size, turn);
      }
    }
  }

  /** With the global-header flag on every stream the 228-byte margin covers the 178 bytes that
      may follow a passed guard and the 33 bytes ahead of the next one: no number of streams
      makes the writer leave its buffer. */
  lemma MarginSuffices(sts: seq<Stream>, size: nat, fmt: Format)
    requires fmt.Valid() && size >= MARGIN && forall i :: 0 <= i < |sts| ==> Global(sts[i])
    ensures |Write(sts, size, fmt).out| <= size
  {
    var turn := WriteTurn(size, fmt);
    forall i: nat, pos: nat | i < |sts| && (pos == 8 || pos <= size - MARGIN + 178)
      ensures var t := turn(sts[i], pos);
              pos + |t.bytes| <= size && (t.Go? ==> pos + |t.bytes| <= size - MARGIN + 178)
    {
      TurnIsShort(sts[i], pos, size, fmt);
    }
    LoopStaysInside(sts, Head(sts), size, turn);
  }

  /** A stream of a known kind without extradata and without the flag. */
  predicate Bare(st: Stream) {
    && st.extradata == [] && !HasGlobal(At(st.fields, Flags))
    && At(st.fields, CodecId) != 0 && Known(At(st.fields, CodecType))
  }

  /** The streams of a kind. */
  function Count(sts: seq<Stream>, codecType: int): nat {
    if sts == [] then 0 else (if At(sts[0].fields, CodecType) == codecType then 1 else 0) + Count(sts[1..], codecType)
  }

  /** Each turn goes on and stores 207 bytes for a video stream, 41 for an audio stream. */
  lemma {:induction false} LoopTakes(sts: seq<Stream>, out: seq<byte>, turn: Writer)
    requires forall i :: 0 <= i < |sts| ==> Known(At(sts[i].fields, CodecType))
    requires forall i: nat, pos: nat | i < |sts| ::
               turn(sts[i], pos).Go?
               && |turn(sts[i], pos).bytes| == if At(sts[i].fields, CodecType) == VIDEO then 207 else 41
    ensures |WriteAll(sts, out, turn).out| == |out| + 207 * Count(sts, VIDEO) + 41 * Count(sts, AUDIO)
    decreases sts
  {
    if sts != [] {
      LoopTakes(sts[1..], out + turn(sts[0], |out|).bytes, turn);
    }
  }

  lemma BareTurn(st: Stream, pos: nat, size: nat, fmt: Format)
    requires fmt.Valid() && Bare(st)
    ensures var t := WriteStream(st, pos, size, fmt);
            t.Go? && |t.bytes| == if At(st.fields, CodecType) == VIDEO then 207 else 41
  {}

  /** Without the flag no guard runs: bare streams leave a buffer of any size exactly when the 8
      bytes of the head, 207 a video stream and 41 an audio stream are more than fit. */
  lemma BareStreamsOverrun(sts: seq<Stream>, size: nat, fmt: Format)
    requires fmt.Valid() && forall i :: 0 <= i < |sts| ==> Bare(sts[i])
    ensures |Write(sts, size, fmt).out| > size <==> 8 + 207 * Count(sts, VIDEO) + 41 * Count(sts, AUDIO) > size
  {
    hide Write, WriteStream;
    var turn := WriteTurn(size, fmt);
    forall i: nat, pos: nat | i < |sts|
      ensures turn(sts[i], pos).Go?
              && |turn(sts[i], pos).bytes| == if At(sts[i].fields, CodecType) == VIDEO then 207 else 41
    {
      BareTurn(sts[i], pos, size, fmt);
    }
    LoopTakes(sts, Head(sts), turn);
    WriteIsLoop(sts, size, fmt);
  }

  lemma WriteIsLoop(sts: seq<Stream>, size: nat, fmt: Format)
    ensures Write(sts, size, fmt) == WriteAll(sts, Head(sts), WriteTurn(size, fmt))
  {}

  // ------------------------------------------------------------------- the code

  /** The output cursor `pb` in its buffer. */
  class HeaderBuffer {
    const buf: array<byte>
    var pos: nat

    ghost predicate Valid()
      reads this
    {
      pos <= buf.Length
    }

    function Stored(): seq<byte>
      requires Valid()
      reads this, buf
    {
      buf[..pos]
    }

    constructor (size: nat)
      ensures Valid() && fresh(buf) && buf.Length == size && Stored() == []
    {
      buf := new byte[size](_ => 0);
      pos := 0;
    }

    method PutByte(b: byte)
      requires Valid() && pos < buf.Length
      modifies this`pos, buf
      ensures Valid() && Stored() == old(Stored()) + [b]
    {
      buf[pos] := b;
      pos := pos + 1;
    }

    /** The WB and W8 macros: `w` bytes, most significant first. */
    method PutNumber(x: nat, w: nat)
      requires Valid() && pos + w <= buf.Length
      modifies this`pos, buf
      ensures Valid() && Stored() == old(Stored()) + BigEndian(x, w)
      decreases w
    {
      if w > 0 {
        ghost var before := Stored();
        PutNumber(x / 256, w - 1);
        PutByte(x % 256);
        Associative(before, BigEndian(x / 256, w - 1), [x % 256]);
      }
    }

    /** memcpy of the extradata. */
    method PutBytes(data: seq<byte>)
      requires Valid() && pos + |data| <= buf.Length
      modifies this`pos, buf
      ensures Valid() && Stored() == old(Stored()) + data
    {
      var i := 0;
      while i < |data|
        invariant 0 <= i <= |data| && pos == old(pos)
        invariant buf[..pos + i] == old(buf[..pos]) + data[..i]
      {
        buf[pos + i] := data[i];
        i := i + 1;
      }
      pos := pos + |data|;
    }

    /** The writes of one block, field by field. */
    method PutBlock(layout: Layout, r: Record, fmt: Format)
      requires Valid() && pos + Size(layout) <= buf.Length
      modifies this`pos, buf
      ensures Valid() && Stored() == old(Stored()) + Encode(layout, r, fmt)
    {
      var l := layout;
      while l.Put?
        invariant Valid() && pos + Size(l) <= buf.Length
        invariant Stored() + Encode(l, r, fmt) == old(Stored()) + Encode(layout, r, fmt)
        decreases l
      {
        ghost var before := Stored();
        var x := Number(At(r, l.field), l.form, fmt);
        PutNumber(x, Octets(l.form));
        Associative(before, BigEndian(x, Octets(l.form)), Encode(l.next, r, fmt));
        l := l.next;
      }
    }

    /** One turn of the loop over the streams; a value stops it. */
    method PutStream(st: Stream, size: nat, fmt: Format) returns (go: bool, ret: int)
      requires Valid() && pos + |WriteStream(st, pos, size, fmt).bytes| <= buf.Length
      modifies this`pos, buf
      ensures Valid()
      ensures var t := WriteStream(st, old(pos), size, fmt);
              go == t.Go? && (t.Stop? ==> ret == t.ret) && Stored() == old(Stored()) + t.bytes
    {
      ghost var start := Stored();
      PutBlock(fmt.prefix, st.fields, fmt);
      if At(st.fields, CodecId) == 0 {
        return false, 0;
      }
      var r := Flagged(st);
      PutBlock(fmt.generic, r, fmt);
      ghost var front := Encode(fmt.prefix, st.fields, fmt) + Encode(fmt.generic, r, fmt);
      Associative(start, Encode(fmt.prefix, st.fields, fmt), Encode(fmt.generic, r, fmt));
      assert Stored() == start + front;
      if HasGlobal(At(r, Flags)) {
        if pos + |st.extradata| > size - MARGIN {
          return false, 0;
        }
        PutExtra(st);
      }
      assert Stored() == start + (front + Extra(st)) by {
        Associative(start, front, Extra(st));
      }
      go, ret := PutSpecific(st, r, fmt);
      if go {
        ghost var spec := Encode(fmt.Specific(At(st.fields, CodecType)), r, fmt);
        Associative(start, front + Extra(st), spec);
        Associative(front, Extra(st), spec);
      }
    }

    method PutExtra(st: Stream)
      requires Valid() && Global(st) && pos + |Extra(st)| <= buf.Length
      modifies this`pos, buf
      ensures Valid() && Stored() == old(Stored()) + Extra(st)
    {
      PutNumber(ToUint32(|st.extradata|), 4);
      PutBytes(st.extradata);
    }

    /** The switch on the codec type. */
    method PutSpecific(st: Stream, r: Record, fmt: Format) returns (go: bool, ret: int)
      requires Valid()
      requires Known(At(st.fields, CodecType)) ==> pos + Size(fmt.Specific(At(st.fields, CodecType))) <= buf.Length
      modifies this`pos, buf
      ensures Valid() && go == Known(At(st.fields, CodecType)) && (!go ==> ret == -1)
      ensures Stored() == if go then old(Stored()) + Encode(fmt.Specific(At(st.fields, CodecType)), r, fmt)
                          else old(Stored())
    {
      go, ret := true, 0;
      if At(st.fields, CodecType) == VIDEO {
        PutBlock(fmt.video, r, fmt);
      } else if At(st.fields, CodecType) == AUDIO {
        PutBlock(fmt.audio, r, fmt);
      } else {
        go, ret := false, -1;
      }
    }

    /** The stream count and the total bit rate. */
    method PutHead(sts: seq<Stream>)
      requires Valid() && pos == 0 && 8 <= buf.Length
      modifies this`pos, buf
      ensures Valid() && Stored() == Head(sts)
    {
      PutNumber(ToUint32(|sts|), 4);
      var rate, i := 0, 0;
      while i < |sts|
        invariant 0 <= i <= |sts| && rate == BitRates(sts[..i])
      {
        assert sts[..i + 1][..i] == sts[..i];
        rate := rate + At(sts[i].fields, BitRate);
        i := i + 1;
      }
      assert sts[..i] == sts;
      PutNumber(ToUint32(rate), 4);
    }

    /** The loop over the streams from the `i`-th on, whose turns are `turn`. */
    method PutStreams(sts: seq<Stream>, size: nat, fmt: Format, ghost turn: Writer) returns (ret: int)
      requires Valid() && forall st, pos :: turn(st, pos) == WriteStream(st, pos, size, fmt)
      requires |WriteAll(sts, Stored(), turn).out| <= buf.Length
      modifies this`pos, buf
      ensures Valid() && Written(ret, Stored()) == WriteAll(sts, old(Stored()), turn)
    {
      var i := 0;
      assert sts[0..] == sts;
      while i < |sts|
        invariant 0 <= i <= |sts| && Valid()
        invariant WriteAll(sts[i..], Stored(), turn) == WriteAll(sts, old(Stored()), turn)
      {
        TurnOfLoop(sts, i, Stored(), turn);
        var go;
        go, ret := PutStream(sts[i], size, fmt);
        if !go {
          return;
        }
        i := i + 1;
      }
      assert sts[i..] == [];
      ret := pos;
    }

    /** header_write into a buffer that holds what it stores. */
    method WriteHeader(sts: seq<Stream>, size: nat, fmt: Format) returns (ret: int)
      requires Valid() && pos == 0 && |Write(sts, size, fmt).out| <= buf.Length
      modifies this`pos, buf
      ensures Valid() && Written(ret, Stored()) == Write(sts, size, fmt)
    {
      OutGrows(sts, Head(sts), WriteTurn(size, fmt));
      PutHead(sts);
      ret := PutStreams(sts, size, fmt, WriteTurn(size, fmt));
    }
  }

  /** The loop is at stream `i` with `out` stored: what its turn stores fits what the loop does. */
  lemma TurnOfLoop(sts: seq<Stream>, i: nat, out: seq<byte>, turn: Writer)
    requires i < |sts|
    ensures var t, w := turn(sts[i], |out|), WriteAll(sts[i..], out, turn);
            && |out + t.bytes| <= |w.out|
            && w == if t.Stop? then Written(t.ret, out + t.bytes) else WriteAll(sts[i + 1..], out + t.bytes, turn)
  {
    assert sts[i..][0] == sts[i] && sts[i..][1..] == sts[i + 1..];
    OutGrows(sts[i + 1..], out + turn(sts[i], |out|).bytes, turn);
  }

  lemma {:induction false} OutGrows(sts: seq<Stream>, out: seq<byte>, turn: Writer)
    ensures |out| <= |WriteAll(sts, out, turn).out|
    decreases sts
  {
    if sts != [] {
      OutGrows(sts[1..], out + turn(sts[0], |out|).bytes, turn);
    }
  }

  /** The input cursor in the bytes of a header. */
  class HeaderReader {
    const buf: seq<byte>
    var pos: nat

    ghost predicate Valid()
      reads this
    {
      pos <= |buf|
    }

    function Rest(): seq<byte>
      requires Valid()
      reads this
    {
      buf[pos..]
    }

    constructor (buf: seq<byte>)
      ensures Valid() && this.buf == buf && pos == 0
    {
      this.buf := buf;
      pos := 0;
    }

    /** The RB and R8 macros. */
    method GetNumber(w: nat) returns (x: nat)
      requires Valid() && w <= |Rest()|
      modifies this`pos
      ensures Valid() && x == FromBigEndian(old(Rest())[..w]) && Rest() == old(Rest())[w..]
    {
      x := 0;
      var i := 0;
      while i < w
        invariant 0 <= i <= w && pos == old(pos) && x == FromBigEndian(Rest()[..i])
      {
        assert Rest()[..i + 1][..i] == Rest()[..i];
        x := 256 * x + buf[pos + i];
        i := i + 1;
      }
      pos := pos + w;
    }

    method GetBlock(layout: Layout, r0: Record, fmt: Format) returns (r: Record)
      requires Valid() && Size(layout) <= |Rest()|
      modifies this`pos
      ensures Valid() && r == Decode(layout, old(Rest()), r0, fmt) && Rest() == old(Rest())[Size(layout)..]
    {
      hide Back, FromBigEndian;
      var l := layout;
      r := r0;
      ghost var done: nat := 0;
      while l.Put?
        invariant Valid() && Size(l) <= |Rest()| && done + Size(l) == Size(layout)
        invariant done <= Size(layout) && Rest() == old(Rest())[done..]
        invariant Decode(l, Rest(), r, fmt) == Decode(layout, old(Rest()), r0, fmt)
        decreases l
      {
        var x := GetNumber(Octets(l.form));
        r := r[l.field := Back(x, l.form, fmt)];
        done := done + Octets(l.form);
        l := l.next;
      }
    }

    /** One turn of the loop over the streams. */
    method GetStream(size: nat, fmt: Format) returns (t: Taken)
      requires Valid()
      modifies this`pos
      ensures Valid() && t == ReadStream(old(Rest()), old(pos), size, fmt)
      ensures t.Took? ==> Rest() == t.rest && pos == t.pos
    {
      ghost var s, p := Rest(), pos;
      if fmt.Front() > |buf| - pos {
        return PastEnd;
      }
      var r := GetBlock(fmt.prefix, map[], fmt);
      r := GetBlock(fmt.generic, r, fmt);
      assert r == ReadFront(s, fmt) && Rest() == s[fmt.Front()..];
      if At(r, CodecId) == 0 {
        return Refused;
      }
      t := GetRest(size, fmt, r);
    }

    method GetRest(size: nat, fmt: Format, r: Record) returns (t: Taken)
      requires Valid()
      modifies this`pos
      ensures Valid() && t == ReadRest(old(Rest()), old(pos), size, fmt, r)
      ensures t.Took? ==> Rest() == t.rest && pos == t.pos
    {
      hide ReadSpecific;
      if !HasGlobal(At(r, Flags)) {
        t := GetSpecific(fmt, r, []);
        return;
      }
      if |buf| - pos < 4 {
        return PastEnd;
      }
      var u := GetNumber(4);
      var n := ToInt32(u);
      if pos + n > size - MARGIN {
        return Refused;
      }
      if n < 0 || n > |buf| - pos {
        return PastEnd;
      }
      SkipThenTake(old(Rest()), 4, n);
      var data := Rest()[..n];
      pos := pos + n;
      t := GetSpecific(fmt, r, data);
    }

    /** The switch on the codec type. */
    method GetSpecific(fmt: Format, r: Record, data: seq<byte>) returns (t: Taken)
      requires Valid()
      modifies this`pos
      ensures Valid() && t == ReadSpecific(old(Rest()), old(pos), fmt, r, data)
      ensures t.Took? ==> Rest() == t.rest && pos == t.pos
    {
      if !Known(At(r, CodecType)) {
        return Refused;
      }
      var l := fmt.Specific(At(r, CodecType));
      if Size(l) > |buf| - pos {
        return PastEnd;
      }
      var fields := GetBlock(l, r, fmt);
      t := Took(Stream(fields, data), Rest(), pos);
    }

    /** The loop over `nb` streams, whose turns are `take`. */
    method GetStreams(nb: int, size: nat, fmt: Format, ghost take: Reader) returns (res: ReadResult)
      requires Valid() && forall s, pos :: take(s, pos) == ReadStream(s, pos, size, fmt)
      modifies this`pos
      ensures Valid() && res == ReadAll(old(Rest()), old(pos), if nb < 0 then 0 else nb, take, [])
    {
      hide ReadStream;
      var done: seq<Stream>, i := [], 0;
      while i < nb
        invariant Valid() && 0 <= i && (i <= nb || nb < 0)
        invariant ReadAll(Rest(), pos, if nb < i then 0 else nb - i, take, done)
                  == ReadAll(old(Rest()), old(pos), if nb < 0 then 0 else nb, take, [])
        decreases nb - i
      {
        var t := GetStream(size, fmt);
        match t
        case Refused => return Failed;
        case PastEnd => return Overrun;
        case Took(st, _, _) => done := done + [st];
        i := i + 1;
      }
      res := Read(pos, done);
    }

    /** header_read. */
    method ReadStreams(size: nat, fmt: Format) returns (res: ReadResult)
      requires Valid() && pos == 0
      modifies this`pos
      ensures Valid() && res == ReadHeader(buf, size, fmt)
    {
      if |buf| < 8 {
        return Overrun;
      }
      var u := GetNumber(4);
      var _ := GetNumber(4);
      assert u == FromBigEndian(buf[..4]) && Rest() == buf[8..];
      res := GetStreams(ToInt32(u), size, fmt, ReadTurn(size, fmt));
    }
  }
}
