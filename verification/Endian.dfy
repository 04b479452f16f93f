/**
 Bytes and the integers written in them, big-endian and little-endian.
 */
module Endian {
  type byte = x: int | 0 <= x < 256
  type Buffer = seq<byte>

  const TWO32: int := 0x1_0000_0000
  const TWO63: int := 0x8000_0000_0000_0000
  const TWO64: int := 0x1_0000_0000_0000_0000

  function At(s: Buffer, p: int): int
    requires 0 <= p < |s|
  {
    s[p]
  }

  function U16(s: Buffer, p: int): (v: int)
    requires 0 <= p && p + 2 <= |s|
    ensures 0 <= v < 0x1_0000
  {
    At(s, p) * 0x100 + At(s, p + 1)
  }

  function U32(s: Buffer, p: int): (v: int)
    requires 0 <= p && p + 4 <= |s|
    ensures 0 <= v < TWO32
  {
    At(s, p) * 0x100_0000 + At(s, p + 1) * 0x1_0000 + At(s, p + 2) * 0x100 + At(s, p + 3)
  }

  function U64(s: Buffer, p: int): (v: int)
    requires 0 <= p && p + 8 <= |s|
    ensures 0 <= v < TWO64
  {
    U32(s, p) * TWO32 + U32(s, p + 4)
  }

  /** Go's int64(uint64) conversion. */
  function Signed64(v: int): int {
    if v < TWO63 then v else v - TWO64
  }

  /** The four bytes of uint32(v), most significant first. */
  function Be32(v: int): (r: Buffer)
    ensures |r| == 4
  {
    var w := v % TWO32;
    [w / 0x100_0000, w / 0x1_0000 % 0x100, w / 0x100 % 0x100, w % 0x100]
  }

  function Be64(v: int): (r: Buffer)
    ensures |r| == 8
  {
    Be32(v / TWO32) + Be32(v)
  }

  /** `b` written over the bytes of `s` from position `p`. */
  function Put(s: Buffer, p: int, b: Buffer): (r: Buffer)
    requires 0 <= p && p + |b| <= |s|
    ensures |r| == |s|
    ensures forall k :: 0 <= k < |s| ==> r[k] == if p <= k < p + |b| then b[k - p] else s[k]
  {
    s[..p] + b + s[p + |b|..]
  }

  lemma {:induction false} WordOfDigits(w: int)
    requires 0 <= w < TWO32
    ensures w / 0x100_0000 * 0x100_0000 + w / 0x1_0000 % 0x100 * 0x1_0000 + w / 0x100 % 0x100 * 0x100 + w % 0x100 == w
  {
    var a, b := w / 0x100, w / 0x1_0000;
    assert w == a * 0x100 + w % 0x100;
    assert a == b * 0x100 + a % 0x100;
    assert b == w / 0x100_0000 * 0x100 + b % 0x100;
  }

  lemma {:induction false} U32OfBe32(s: Buffer, p: int, v: int)
    requires 0 <= p && p + 4 <= |s| && s[p..p + 4] == Be32(v)
    ensures U32(s, p) == v % TWO32
  {
    WordOfDigits(v % TWO32);
    DigitsAt(s, p, v);
  }

  lemma {:induction false} DigitsAt(s: Buffer, p: int, v: int)
    requires 0 <= p && p + 4 <= |s| && s[p..p + 4] == Be32(v)
    ensures var w := v % TWO32;
      && s[p] == w / 0x100_0000 && s[p + 1] == w / 0x1_0000 % 0x100
      && s[p + 2] == w / 0x100 % 0x100 && s[p + 3] == w % 0x100
  {
    var b := s[p..p + 4];
    assert s[p] == b[0] && s[p + 1] == b[1] && s[p + 2] == b[2] && s[p + 3] == b[3];
  }

  lemma {:induction false} U64OfBe64(s: Buffer, p: int, v: int)
    requires 0 <= p && p + 8 <= |s|
    requires 0 <= v < TWO64
    requires s[p..p + 8] == Be64(v)
    ensures U64(s, p) == v
  {
    assert s[p..p + 4] == Be64(v)[..4] == Be32(v / TWO32);
    assert s[p + 4..p + 8] == Be64(v)[4..] == Be32(v);
    U32OfBe32(s, p, v / TWO32);
    U32OfBe32(s, p + 4, v);
  }

  lemma {:induction false} Be32OfU32(s: Buffer, p: int)
    requires 0 <= p && p + 4 <= |s|
    ensures Be32(U32(s, p)) == s[p..p + 4]
  {
    var a, b, c, d := At(s, p), At(s, p + 1), At(s, p + 2), At(s, p + 3);
    DigitsOfWord(a, b, c, d);
    assert s[p..p + 4] == [s[p], s[p + 1], s[p + 2], s[p + 3]];
  }

  lemma {:induction false} DigitsOfWord(a: int, b: int, c: int, d: int)
    requires 0 <= a < 0x100 && 0 <= b < 0x100 && 0 <= c < 0x100 && 0 <= d < 0x100
    ensures var w := a * 0x100_0000 + b * 0x1_0000 + c * 0x100 + d;
      && 0 <= w < TWO32
      && w / 0x100_0000 == a && w / 0x1_0000 % 0x100 == b && w / 0x100 % 0x100 == c && w % 0x100 == d
  {
    var w := a * 0x100_0000 + b * 0x1_0000 + c * 0x100 + d;
    assert w / 0x100 == a * 0x1_0000 + b * 0x100 + c;
    assert w / 0x1_0000 == a * 0x100 + b;
    assert w / 0x100_0000 == a;
  }

  lemma {:induction false} Be64OfU64(s: Buffer, p: int)
    requires 0 <= p && p + 8 <= |s|
    ensures Be64(U64(s, p)) == s[p..p + 8]
  {
    hide U32, Be32;
    var v, hi, lo := U64(s, p), U32(s, p), U32(s, p + 4);
    Halves(hi, lo);
    Be32OfU32(s, p);
    Be32OfU32(s, p + 4);
    Be32Low(v, lo);
    assert s[p..p + 8] == s[p..p + 4] + s[p + 4..p + 8];
  }

  lemma {:induction false} Halves(hi: int, lo: int)
    requires 0 <= lo < TWO32
    ensures (hi * TWO32 + lo) / TWO32 == hi && (hi * TWO32 + lo) % TWO32 == lo
  {
  }

  lemma {:induction false} Be32Low(v: int, lo: int)
    requires v % TWO32 == lo % TWO32
    ensures Be32(v) == Be32(lo)
  {
  }

  // ---------------------------------------------------------------- little-endian

  function Le32(v: int): (r: Buffer)
    ensures |r| == 4
  {
    var b := Be32(v);
    [b[3], b[2], b[1], b[0]]
  }

  function U32Le(s: Buffer, p: int): (v: int)
    requires 0 <= p && p + 4 <= |s|
    ensures 0 <= v < TWO32
  {
    U32([s[p + 3], s[p + 2], s[p + 1], s[p]], 0)
  }

  lemma {:induction false} U32OfLe32(s: Buffer, p: int, v: int)
    requires 0 <= p && p + 4 <= |s| && s[p..p + 4] == Le32(v) && 0 <= v < TWO32
    ensures U32Le(s, p) == v
  {
    hide U32;
    var b := s[p..p + 4];
    var r := [s[p + 3], s[p + 2], s[p + 1], s[p]];
    assert b[0] == s[p] && b[1] == s[p + 1] && b[2] == s[p + 2] && b[3] == s[p + 3];
    assert r == Be32(v) && r[0..4] == r;
    U32OfBe32(r, 0, v);
  }
}
