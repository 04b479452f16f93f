/**
 What EnsureAC4ConfigBox makes of the bytes of a sample entry: the fixed part by
 version (ISO/IEC 14496-12, section 12.2.3; QuickTime versions 1 and 2), then the
 child boxes.
 */
module Ac4Entries {
  import opened Options
  import opened Endian
  import opened Mp4Boxes
  import opened Mp4Edits
  import opened Mp4Splice
  import opened Mp4Tables
  import opened Mp4Moov
  import opened Mp4Entry
  import opened Mp4Pointers
  import opened Ac4Config
  import opened Ac4Ensure
  import opened Ac4Results

  /** The version field. */
  function VersionOf(body: Buffer): int
    requires |body| >= 10
  {
    var hi: int, lo: int := body[8], body[9];
    hi * 256 + lo
  }

  /** The fixed part of an entry: 28 bytes, 44 in version 1, 64 in version 2. */
  ghost predicate FixedPart(fixed: Buffer) {
    |fixed| >= 10 && |fixed| == if VersionOf(fixed) == 1 then 44 else if VersionOf(fixed) == 2 then 64 else 28
  }

  /** The fixed part afterwards: version 1 becomes version 0 and loses its last sixteen bytes. */
  function PlainPart(fixed: Buffer): Buffer
    requires FixedPart(fixed)
  {
    if VersionOf(fixed) == 1 then fixed[..8] + [0, 0] + fixed[10..28] else fixed
  }

  lemma {:induction false} PlainIs(fixed: Buffer, kids: Buffer)
    requires FixedPart(fixed)
    ensures Normalized(fixed + kids) == PlainPart(fixed) + kids
    ensures HeaderLen(PlainPart(fixed) + kids) == Some(|PlainPart(fixed)|)
  {
    var body := fixed + kids;
    assert body[8] == fixed[8] && body[9] == fixed[9];
    if VersionOf(fixed) == 1 {
      var z := Put(body, 8, [0, 0]);
      assert z[..28] == fixed[..8] + [0, 0] + fixed[10..28] && z[44..] == kids;
      assert Splice(z, 28, 44, []) == PlainPart(fixed) + kids;
      var plain := PlainPart(fixed) + kids;
      assert plain[8] == 0 && plain[9] == 0;
    }
  }

  /** The children as they stand in the buffer. */
  lemma {:induction false} KidsInPlace(s: Buffer, l: Box, head: Buffer, kids: Buffer)
    requires Sited(s, l) && 0 <= l.Body() <= l.End() <= |s| && s[l.Body()..l.End()] == head + kids
    requires Tiled(kids, 0, |kids|)
    ensures l.End() == l.Body() + |head| + |kids|
    ensures FindChild(s, l.Body() + |head|, l.End(), DAC4).Some? <==> FindChild(kids, 0, |kids|, DAC4).Some?
  {
    hide FindChild, Tiled, Sited;
    var p := l.Body() + |head|;
    forall k | 0 <= k < |kids| ensures SameByte(kids, s, k, p) {
      assert s[l.Body()..l.End()][|head| + k] == (head + kids)[|head| + k];
    }
    FindChildCarried(kids, s, 0, |kids|, p, DAC4);
  }

  /** What stands in the entry behind the normalization decides what the rest of the step does. */
  lemma {:induction false} Dac4Decides(
      dst: Buffer, mv: Box, ms: seq<Box>, j: nat, m: seq<Box>, head: Buffer, kids: Buffer)
    requires Ac4Moov(dst, mv, ms, j, m) && EntryBody(EntryOf(Digest(dst, ms), j)) == head + kids
    requires HeaderLen(head + kids) == Some(|head|) && Tiled(kids, 0, |kids|)
    ensures |m| == 7 && HeadersFit(dst, m)
    ensures HeaderLenAt(dst, m[6]) == Some(|head|)
    ensures HasDac4(dst, m) <==> FindChild(kids, 0, |kids|, DAC4).Some?
  {
    hide FindChild, Tiled, Digest, WellFormed, EntryChain, LocateAC4, IsAc4Trak, EntryBody, HeaderLen, HeaderLenAt;
    ChainOfAc4(dst, mv, ms, j, m);
    EntryInPlace(dst, mv, ms, j, m);
    HeaderLenRead(dst, m[6]);
    KidsInPlace(dst, m[6], head, kids);
  }

  /** The children stay side by side behind whatever was put in front of them. */
  lemma {:induction false} TiledBehind(head: Buffer, kids: Buffer)
    requires Tiled(kids, 0, |kids|)
    ensures Tiled(head + kids, |head|, |head + kids|)
  {
    hide Tiled;
    forall k | 0 <= k < |kids| ensures SameByte(kids, head + kids, k, |head|) {
    }
    FindChildCarried(kids, head + kids, 0, |kids|, |head|, DAC4);
  }

  /** What the entry holds afterwards. */
  function EnsuredBody(fixed: Buffer, kids: Buffer, src: Option<Buffer>): Buffer
    requires FixedPart(fixed) && (FindChild(kids, 0, |kids|, DAC4).None? ==> SourceDac4(src).Payload?)
  {
    PlainPart(fixed) + (if FindChild(kids, 0, |kids|, DAC4).Some? then [] else SourceDac4(src).bytes) + kids
  }

  /**
   An entry of a fixed part and child boxes side by side is never malformed. If one
   of the children is a dac4 box, no second one is put in; otherwise the source's goes
   between the fixed part and the children, and without one nothing is written.
   */
  lemma {:induction false} EnsuredEntry(
      s: Buffer, moov: Box, ks: seq<Box>, j: nat, base: nat, src: Option<Buffer>, fixed: Buffer, kids: Buffer)
      returns (moov': Box, js: seq<Box>, hs': seq<Box>)
    requires WellFormed(s, moov, ks) && AllInBuffer(s, ks) && IsAc4Trak(Digest(s, ks), j) && HasEntry(Digest(s, ks), j)
    requires |s| + PayloadSize(src) < TWO32 && AllRoomFor(Digest(s, ks), PayloadSize(src))
    requires EntryBody(EntryOf(Digest(s, ks), j)) == fixed + kids && FixedPart(fixed) && Tiled(kids, 0, |kids|)
    ensures Ensure(s, base, src).Written? <==> FindChild(kids, 0, |kids|, DAC4).Some? || SourceDac4(src).Payload?
    ensures !Ensure(s, base, src).Written? ==>
      SourceDac4(src).Missing? && Ensure(s, base, src) == Failed(SourceDac4(src).reason)
    ensures Ensure(s, base, src).Written? ==>
      var t := Ensure(s, base, src).moov;
      && WellFormed(t, moov', js) && AllInBuffer(t, js) && HasEntry(Digest(t, js), j)
      && EntryBody(EntryOf(Digest(t, js), j)) == EnsuredBody(fixed, kids, src)
  {
    hide FindChild, Tiled, Digest, WellFormed, EntryChain, LocateAC4, IsAc4Trak, EntryBody, HeaderLen, HeaderLenAt,
      FixedPart, NormalizeEntry, SourceDac4, Became, Ac4Moov, EntryOf, HasDac4, SameKind, WithChild, PlainPart,
      Normalized;
    Ac4MoovOf(s, moov, ks, j);
    var hs := LocateAC4(s).value;
    EntryThere(s, moov, ks, j, hs);
    var mv, ms, m := NormalizeBecomes(s, moov, ks, j, hs, base);
    var dst := NormalizeEntry(s, base);
    PlainIs(fixed, kids);
    var head := PlainPart(fixed);
    BecameAc4(s, ks, dst, mv, ms, j, m, base, head + kids);
    NormalizedIsPlain(fixed + kids);
    Dac4Decides(dst, mv, ms, j, m, head, kids);
    moov', js, hs' := Dac4Ensured(dst, mv, ms, j, m, base, src);
    WhichWay(dst, m, base, src, |head|);
    if Ensure(s, base, src).Written? {
      var t := Ensure(s, base, src).moov;
      if HasDac4(dst, m) {
        BecameAc4(dst, ms, t, moov', js, j, hs', base, head + kids);
        assert head + [] + kids == head + kids;
      } else {
        var ins := SourceDac4(src).bytes;
        InFrontOfKids(head, kids, ins);
        BecameAc4(dst, ms, t, moov', js, j, hs', base, head + ins + kids);
      }
      MoovOfAc4(t, moov', js, j, hs');
    }
  }

  lemma {:induction false} MoovOfAc4(s: Buffer, moov: Box, ks: seq<Box>, j: nat, hs: seq<Box>)
    requires Ac4Moov(s, moov, ks, j, hs)
    ensures WellFormed(s, moov, ks)
  {
    hide Digest, WellFormed, EntryChain, LocateAC4, IsAc4Trak;
  }

  lemma {:induction false} InFrontOfKids(head: Buffer, kids: Buffer, ins: Buffer)
    ensures WithChild(head + kids, |head|, ins) == head + ins + kids
  {
  }

  lemma {:induction false} WhichWay(dst: Buffer, m: seq<Box>, base: nat, src: Option<Buffer>, h: nat)
    requires |m| == 7 && HeadersFit(dst, m) && HeaderLenAt(dst, m[6]) == Some(h)
    ensures EnsureDac4(dst, m, base, src).Written? <==> HasDac4(dst, m) || SourceDac4(src).Payload?
    ensures !EnsureDac4(dst, m, base, src).Written? ==>
      SourceDac4(src).Missing? && EnsureDac4(dst, m, base, src) == Failed(SourceDac4(src).reason)
  {
    hide FindChild, SourceDac4, HeaderLenAt, InsertChild;
  }

  /** A new dac4 box that carries its size stands where the children start, and they follow side by side. */
  lemma {:induction false} EnsuredTiled(fixed: Buffer, kids: Buffer, src: Option<Buffer>)
    requires FixedPart(fixed) && Tiled(kids, 0, |kids|)
    requires FindChild(kids, 0, |kids|, DAC4).None? ==> SourceDac4(src).Payload?
    ensures var at, body := |PlainPart(fixed)|, EnsuredBody(fixed, kids, src);
      && (at == if VersionOf(fixed) == 2 then 64 else 28)
      && (FindChild(kids, 0, |kids|, DAC4).None? ==>
            FindChild(body, at, |body|, DAC4).Some? && FindChild(body, at, |body|, DAC4).value.offset == at)
      && (FindChild(kids, 0, |kids|, DAC4).Some? || U32(SourceDac4(src).bytes, 0) != 0 ==> Tiled(body, at, |body|))
  {
    hide FindChild, Tiled, SourceDac4, U32, IsDac4;
    var head := PlainPart(fixed);
    TiledBehind(head, kids);
    assert head + [] + kids == head + kids;
    if FindChild(kids, 0, |kids|, DAC4).None? {
      var ins := SourceDac4(src).bytes;
      SourceIsDac4(src);
      InFrontOfKids(head, kids, ins);
      Dac4Size(ins);
      var body := head + ins + kids;
      assert body[|head|..|head| + |ins|] == ins;
      Dac4Found(body, |head|, |body|, ins);
      ChildrenStayTiled(head + kids, |head|, ins);
    }
  }

  lemma {:induction false} Dac4Size(ins: Buffer)
    requires IsDac4(ins)
    ensures |ins| >= 8
  {
  }

  /** An entry is malformed exactly when its fixed part is not all there. */
  lemma {:induction false} MalformedExactly(
      s: Buffer, moov: Box, ks: seq<Box>, j: nat, base: nat, src: Option<Buffer>)
    requires WellFormed(s, moov, ks) && AllInBuffer(s, ks) && IsAc4Trak(Digest(s, ks), j) && HasEntry(Digest(s, ks), j)
    requires |s| < TWO32
    ensures var body := EntryBody(EntryOf(Digest(s, ks), j));
      Ensure(s, base, src) == Failed("malformed ac-4 sample entry")
      <==> |body| < 28 || (VersionOf(body) == 1 && |body| < 44) || (VersionOf(body) == 2 && |body| < 64)
  {
    hide FindChild, Digest, WellFormed, EntryChain, LocateAC4, IsAc4Trak, EntryBody, HeaderLenAt, NormalizeEntry,
      SourceDac4, Became, Ac4Moov, EntryOf, SameKind;
    Ac4MoovOf(s, moov, ks, j);
    var hs := LocateAC4(s).value;
    EntryThere(s, moov, ks, j, hs);
    var mv, ms, m := NormalizeBecomes(s, moov, ks, j, hs, base);
    var dst, body := NormalizeEntry(s, base), EntryBody(EntryOf(Digest(s, ks), j));
    BecameAc4(s, ks, dst, mv, ms, j, m, base, Normalized(body));
    ChainOfAc4(dst, mv, ms, j, m);
    EntryInPlace(dst, mv, ms, j, m);
    HeaderLenRead(dst, m[6]);
    OtherReasons(src);
    ShortBody(body);
  }

  lemma {:induction false} OtherReasons(src: Option<Buffer>)
    ensures SourceDac4(src).Missing? ==> SourceDac4(src).reason != "malformed ac-4 sample entry"
  {
    hide FindSignature;
    assert |"malformed ac-4 sample entry"| != |"source has no moov"|;
    assert |"malformed ac-4 sample entry"| != |"dac4 not found in source"|;
  }

  lemma {:induction false} ShortBody(body: Buffer)
    ensures HeaderLen(Normalized(body)).None?
      <==> |body| < 28 || (VersionOf(body) == 1 && |body| < 44) || (VersionOf(body) == 2 && |body| < 64)
  {
    if IsQuickTime(body) {
      var b := NormalBody(body);
      assert b[8] == 0 && b[9] == 0;
    }
  }
}
