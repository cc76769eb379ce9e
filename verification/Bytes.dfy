/** Bytes, big-endian numbers and the fixed-width views of C integers. */
module Bytes {
  type byte = b: int | 0 <= b < 256

  function Pow256(w: nat): (p: nat)
    ensures p > 0
  {
    if w == 0 then 1 else 256 * Pow256(w - 1)
  }

  /** The AV_WB macros: the low `w` bytes of `x`, most significant first. */
  function BigEndian(x: nat, w: nat): (s: seq<byte>)
    ensures |s| == w
    decreases x, w
  {
    if w == 0 then [] else BigEndian(x / 256, w - 1) + [x % 256]
  }

  /** The AV_RB macros. */
  function FromBigEndian(s: seq<byte>): (x: nat)
    ensures x < Pow256(|s|)
  {
    if s == [] then 0 else 256 * FromBigEndian(s[..|s| - 1]) + s[|s| - 1]
  }

  lemma DivMod256(x: nat, p: nat)
    requires p > 0
    ensures (x / 256) % p * 256 + x % 256 == x % (256 * p)
  {
    var q, r := x / 256 / p, (x / 256) % p;
    assert x == 256 * (p * q + r) + x % 256;
    assert 256 * (p * q) == (256 * p) * q;
    var low := 256 * r + x % 256;
    assert 0 <= low < 256 * p;
    ModUnique(x, 256 * p, q, low);
  }

  lemma MulAtLeast(m: nat, k: int)
    requires k >= 1
    ensures m * k >= m
  {
    assert m * k == m * (k - 1) + m;
    assert m * (k - 1) >= 0;
  }

  /** Euclidean division has one answer. */
  lemma ModUnique(x: int, m: nat, q: int, r: nat)
    requires 0 <= r < m && x == m * q + r
    ensures x % m == r && x / m == q
  {
    QuotientUnique(m, q, r, x / m, x % m);
  }

  lemma QuotientUnique(m: nat, q: int, r: nat, q': int, r': nat)
    requires r < m && r' < m && m * q + r == m * q' + r'
    ensures q == q' && r == r'
    decreases q < q'
  {
    var d := q - q';
    assert m * d == r' - r by {
      assert m * d == m * q - m * q';
    }
    if d >= 1 {
      MulAtLeast(m, d);
    } else if d < 0 {
      QuotientUnique(m, q', r', q, r);
    }
  }

  /** Writing keeps exactly the low `w` bytes, whatever follows in the buffer. */
  lemma {:induction false} BigEndianRoundTrip(x: nat, w: nat)
    ensures FromBigEndian(BigEndian(x, w)) == x % Pow256(w)
  {
    if w > 0 {
      var s := BigEndian(x, w);
      assert s[..|s| - 1] == BigEndian(x / 256, w - 1);
      BigEndianRoundTrip(x / 256, w - 1);
      DivMod256(x, Pow256(w - 1));
    }
  }

  lemma BigEndianExact(x: nat, w: nat)
    requires x < Pow256(w)
    ensures FromBigEndian(BigEndian(x, w)) == x
  {
    BigEndianRoundTrip(x, w);
  }

  const TWO32: int := 0x1_0000_0000
  const TWO31: int := 0x8000_0000

  lemma Pow256Values()
    ensures Pow256(1) == 0x100 && Pow256(2) == 0x1_0000 && Pow256(4) == TWO32
    ensures Pow256(8) == 0x1_0000_0000_0000_0000
  {
    assert Pow256(2) == 256 * Pow256(1);
    assert Pow256(3) == 256 * Pow256(2);
    assert Pow256(4) == 256 * Pow256(3);
    assert Pow256(5) == 256 * Pow256(4);
    assert Pow256(6) == 256 * Pow256(5);
    assert Pow256(7) == 256 * Pow256(6);
    assert Pow256(8) == 256 * Pow256(7);
  }

  predicate IsInt32(x: int) { -TWO31 <= x < TWO31 }

  /** An `int` stored through a `uint32_t`. */
  function ToUint32(x: int): nat { x % TWO32 }

  /** A `uint32_t` read back into an `int`. */
  function ToInt32(u: nat): int { if u % TWO32 < TWO31 then u % TWO32 else u % TWO32 - TWO32 }

  lemma Int32RoundTrip(x: int)
    requires IsInt32(x)
    ensures ToUint32(x) < TWO32 && ToInt32(ToUint32(x)) == x
  {
    if x < 0 {
      ModUnique(x, TWO32, -1, x + TWO32);
    }
  }

  lemma SliceOfSlice<T>(s: seq<T>, p: nat, q: nat, i: nat, j: nat)
    requires p <= q <= |s| && i <= j <= q - p
    ensures s[p..q][i..j] == s[p + i..p + j]
  {
    var a, b := s[p..q][i..j], s[p + i..p + j];
    assert |a| == |b|;
    assert forall k :: 0 <= k < |a| ==> a[k] == s[p..q][i + k] == s[p + (i + k)] == b[k];
  }

  /** The memcmp/memcpy view: what a slice starts with, and what follows it. */
  lemma SplitSlice<T>(s: seq<T>, p: nat, q: nat, a: seq<T>, b: seq<T>)
    requires p <= q <= |s| && s[p..q] == a + b
    ensures p + |a| <= q && s[p..p + |a|] == a && s[p + |a|..q] == b
  {
    assert |s[p..q]| == |a| + |b|;
    SliceOfSlice(s, p, q, 0, |a|);
    SliceOfSlice(s, p, q, |a|, q - p);
    assert s[p..q][0..|a|] == a;
    assert s[p..q][|a|..q - p] == b;
  }

  /** What follows a known beginning. */
  lemma AfterFirst<T>(s: seq<T>, a: seq<T>, b: seq<T>)
    requires s == a + b
    ensures |s| == |a| + |b| && s[..|a|] == a && s[|a|..] == b
  {}

  /** An int stored in four bytes reads back. */
  lemma Word32(x: int)
    requires IsInt32(x)
    ensures ToInt32(FromBigEndian(BigEndian(ToUint32(x), 4))) == x
  {
    Pow256Values();
    Int32RoundTrip(x);
    BigEndianExact(ToUint32(x), 4);
  }

  lemma Associative<T>(a: seq<T>, b: seq<T>, c: seq<T>)
    ensures a + b + c == a + (b + c)
  {}

  /** Bit `k` of `u`. */
  predicate Bit(u: nat, k: nat)
    decreases u, k
  {
    if k == 0 then u % 2 == 1 else Bit(u / 2, k - 1)
  }

  function Pow2(k: nat): (p: nat)
    ensures p > 0
  {
    if k == 0 then 1 else 2 * Pow2(k - 1)
  }

  lemma HalfAdd(u: nat, p: nat)
    ensures (u + 2 * p) / 2 == u / 2 + p
  {}

  /** Adding a bit that is clear sets it. */
  lemma {:induction false} SetBit(u: nat, k: nat)
    requires !Bit(u, k)
    ensures Bit(u + Pow2(k), k)
    decreases k
  {
    if k > 0 {
      HalfAdd(u, Pow2(k - 1));
      SetBit(u / 2, k - 1);
    }
  }

  lemma Regroup<T>(a: seq<T>, b: seq<T>, c: seq<T>, d: seq<T>)
    ensures a + (b + c) + d == a + (b + (c + d))
  {}

  lemma SkipThenTake<T>(s: seq<T>, i: nat, n: nat)
    requires i + n <= |s|
    ensures s[i..][..n] == s[i..i + n] && s[i..][n..] == s[i + n..]
  {}

  function Least(a: int, b: int): int { if a < b then a else b }

  /** What a receive of up to `n` bytes is offered. */
  function Window(wire: seq<byte>, n: nat): seq<byte> { wire[..Least(n, |wire|)] }

  /** Fewer than a whole round apart, two numbers have different places in a ring. */
  lemma SlotsDiffer(a: nat, b: nat, m: nat)
    requires m > 0 && a < b < a + m
    ensures a % m != b % m
  {
    if a % m == b % m {
      var k := b / m - a / m;
      assert b - a == m * k;
      if k >= 1 {
        MulAtLeast(m, k);
      } else {
        MulAtLeast(m, 1 - k);
      }
    }
  }
}
