/**
 Splicing bytes into (or out of) a nest of boxes: growBoxSize on every box
 around the splice, then the bytes themselves. The result is an edit inside the
 innermost box in the sense of Mp4Edits.
 */
module Mp4Splice {
  import opened Options
  import opened Endian
  import opened Mp4Boxes
  import opened Mp4Edits

  /** growBoxSize. */
  function Grow(s: Buffer, k: Box, d: int): (r: Buffer)
    requires 0 <= k.offset && k.Body() <= |s| && (k.hdr == 8 || k.hdr == 16)
    ensures |r| == |s|
  {
    if k.hdr == 16 then Put(s, k.offset + 8, Be64(k.size + d)) else Put(s, k.offset, Be32(k.size + d))
  }

  /** The boxes `hs[i..]` grown one after the other. */
  function GrowFrom(s: Buffer, hs: seq<Box>, i: nat, d: int): (r: Buffer)
    requires i <= |hs| && HeadersFit(s, hs)
    ensures |r| == |s|
    decreases |hs| - i
  {
    if i == |hs| then s else GrowFrom(Grow(s, hs[i], d), hs, i + 1, d)
  }

  function Splice(s: Buffer, lo: int, hi: int, ins: Buffer): Buffer
    requires 0 <= lo <= hi <= |s|
  {
    s[..lo] + ins + s[hi..]
  }

  /** The type and kind of header of `k` are in the buffer; its size may not be. */
  ghost predicate Shaped(s: Buffer, k: Box) {
    && 0 <= k.offset && k.Body() <= |s| && (k.hdr == 8 || k.hdr == 16)
    && U32(s, k.offset + 4) == k.typ
    && (k.hdr == 16 ==> U32(s, k.offset) == 1)
  }

  /** The header fields of `k` are in the buffer. */
  ghost predicate Headed(s: Buffer, k: Box) {
    && Shaped(s, k)
    && (k.hdr == 8 ==> U32(s, k.offset) == k.size)
    && (k.hdr == 16 ==> U64(s, k.offset + 8) == k.size)
  }

  /** `size` can be written in a header of that kind. */
  ghost predicate Writable(k: Box) {
    k.hdr <= k.size && (k.hdr == 8 ==> k.size < TWO32) && (k.hdr == 16 ==> k.size < TWO63)
  }

  lemma {:induction false} ShapedOfRead(s: Buffer, k: Box)
    requires ReadBox(s, k.offset) == Some(k)
    ensures Shaped(s, k)
  {
  }

  lemma {:induction false} SitedOfHeaded(s: Buffer, k: Box)
    requires Headed(s, k) && Writable(k) && k.End() <= |s|
    ensures Sited(s, k)
  {
  }

  lemma {:induction false} GrowReads(s: Buffer, k: Box, d: int)
    requires Shaped(s, k) && Writable(k.Grown(d))
    ensures Headed(Grow(s, k, d), k.Grown(d))
    ensures SameOutside(s, Grow(s, k, d), k.offset, k.Body())
  {
    if k.hdr == 16 { GrowLarge(s, k, d); } else { GrowSmall(s, k, d); }
  }

  lemma {:induction false} GrowLarge(s: Buffer, k: Box, d: int)
    requires Shaped(s, k) && Writable(k.Grown(d)) && k.hdr == 16
    ensures Headed(Grow(s, k, d), k.Grown(d))
    ensures SameOutside(s, Grow(s, k, d), k.offset, k.Body())
  {
    hide U32, U64, Be64;
    var t := Grow(s, k, d);
    assert t[k.offset + 8..k.offset + 16] == Be64(k.size + d);
    U64OfBe64(t, k.offset + 8, k.size + d);
    assert Carried(s, t, k.offset, k.offset + 8, 0);
    WordCarried(s, t, k.offset, 0, k.offset + 8);
    CarriedPart(s, t, k.offset, k.offset + 8, k.offset + 4, k.offset + 8, 0);
    WordCarried(s, t, k.offset + 4, 0, k.offset + 8);
  }

  lemma {:induction false} GrowSmall(s: Buffer, k: Box, d: int)
    requires Shaped(s, k) && Writable(k.Grown(d)) && k.hdr == 8
    ensures Headed(Grow(s, k, d), k.Grown(d))
    ensures SameOutside(s, Grow(s, k, d), k.offset, k.Body())
  {
    hide U32, Be32;
    var t := Grow(s, k, d);
    assert t[k.offset..k.offset + 4] == Be32(k.size + d);
    U32OfBe32(t, k.offset, k.size + d);
    assert Carried(s, t, k.offset + 4, k.offset + 8, 0);
    WordCarried(s, t, k.offset + 4, 0, k.offset + 8);
  }

  /** Each box starts after the header of the ones around it. */
  ghost predicate Nested(hs: seq<Box>) {
    forall i, j :: 0 <= i < j < |hs| ==> hs[i].Body() <= hs[j].offset
  }

  /** Position `k` is in no header of `hs[i..]`. */
  ghost predicate Clear(hs: seq<Box>, i: nat, k: int) {
    forall j :: i <= j < |hs| ==> !(hs[j].offset <= k < hs[j].Body())
  }

  ghost predicate AllShaped(s: Buffer, hs: seq<Box>, i: nat) {
    forall j :: i <= j < |hs| ==> Shaped(s, hs[j])
  }

  ghost predicate AllHeaded(s: Buffer, hs: seq<Box>, i: nat, d: int) {
    forall j :: i <= j < |hs| ==> Headed(s, hs[j].Grown(d))
  }

  ghost predicate AllWritable(hs: seq<Box>, d: int) {
    forall j :: 0 <= j < |hs| ==> Writable(hs[j].Grown(d))
  }

  ghost predicate SameWhereClear(s: Buffer, t: Buffer, hs: seq<Box>, i: nat) {
    |t| == |s| && forall k :: 0 <= k < |s| && Clear(hs, i, k) ==> SameByte(s, t, k, 0)
  }

  lemma {:induction false} GrowFromReads(s: Buffer, hs: seq<Box>, i: nat, d: int)
    requires i <= |hs| && HeadersFit(s, hs) && Nested(hs)
    requires AllShaped(s, hs, i) && AllWritable(hs, d)
    ensures AllHeaded(GrowFrom(s, hs, i, d), hs, i, d)
    ensures SameWhereClear(s, GrowFrom(s, hs, i, d), hs, i)
    decreases |hs| - i
  {
    hide U32, U64, Grow, Shaped, Headed;
    if i < |hs| {
      var s', t := Grow(s, hs[i], d), GrowFrom(s, hs, i, d);
      GrowReads(s, hs[i], d);
      forall j | i + 1 <= j < |hs| ensures Shaped(s', hs[j]) {
        ShapedCarried(s, s', hs[j]);
      }
      GrowFromReads(s', hs, i + 1, d);
      HeaderStays(s', t, hs, i, d);
      forall k | 0 <= k < |s| && Clear(hs, i, k) ensures SameByte(s, t, k, 0) {
        assert SameByte(s, s', k, 0);
        assert Clear(hs, i + 1, k);
        assert SameByte(s', t, k, 0);
      }
    }
  }

  lemma {:induction false} HeaderStays(s: Buffer, t: Buffer, hs: seq<Box>, i: nat, d: int)
    requires i < |hs| && Nested(hs) && SameWhereClear(s, t, hs, i + 1) && Headed(s, hs[i].Grown(d))
    ensures Headed(t, hs[i].Grown(d))
  {
    hide U32, U64;
    forall k | hs[i].offset <= k < hs[i].Body() ensures SameByte(s, t, k, 0) {
      assert Clear(hs, i + 1, k);
    }
    HeadedCarried(s, t, hs[i].Grown(d));
  }

  lemma {:induction false} ShapedCarried(s: Buffer, t: Buffer, k: Box)
    requires Shaped(s, k) && Carried(s, t, k.offset, k.Body(), 0)
    ensures Shaped(t, k)
  {
    hide U32;
    WordCarried(s, t, k.offset, 0, k.Body());
    CarriedPart(s, t, k.offset, k.Body(), k.offset + 4, k.Body(), 0);
    WordCarried(s, t, k.offset + 4, 0, k.Body());
  }

  lemma {:induction false} HeadedCarried(s: Buffer, t: Buffer, k: Box)
    requires Headed(s, k) && Carried(s, t, k.offset, k.Body(), 0)
    ensures Headed(t, k)
  {
    hide U32;
    ShapedCarried(s, t, k);
    WordCarried(s, t, k.offset, 0, k.Body());
    if k.hdr == 16 {
      CarriedPart(s, t, k.offset, k.Body(), k.offset + 8, k.Body(), 0);
      WordCarried(s, t, k.offset + 8, 0, k.Body());
      CarriedPart(s, t, k.offset, k.Body(), k.offset + 12, k.Body(), 0);
      WordCarried(s, t, k.offset + 12, 0, k.Body());
    }
  }

  /**
   Bytes [lo, hi) inside all the boxes `hs` became `hi + d - lo` other bytes:
   the boxes are sited grown, everything in front (but for their headers) stays,
   everything behind moves by `d`.
   */
  ghost predicate ZoneEdit(s: Buffer, t: Buffer, hs: seq<Box>, lo: int, hi: int, d: int) {
    && |t| == |s| + d && 0 <= lo <= hi <= |s| && lo <= hi + d
    && Nested(hs)
    && (forall i :: 0 <= i < |hs| ==> hs[i].Body() <= lo && hi <= hs[i].End() && Sited(t, hs[i].Grown(d)))
    && (forall k :: 0 <= k < lo && Clear(hs, 0, k) ==> SameByte(s, t, k, 0))
    && Carried(s, t, hi, |s|, d)
  }

  /** Growing the boxes and splicing the bytes is such an edit. */
  lemma {:induction false} GrownAndSpliced(s: Buffer, hs: seq<Box>, lo: int, hi: int, ins: Buffer)
    requires HeadersFit(s, hs) && Nested(hs) && AllShaped(s, hs, 0) && 0 <= lo <= hi <= |s|
    requires AllWritable(hs, |ins| - (hi - lo))
    requires forall i :: 0 <= i < |hs| ==> hs[i].Body() <= lo && hi <= hs[i].End() <= |s|
    ensures ZoneEdit(s, Splice(GrowFrom(s, hs, 0, |ins| - (hi - lo)), lo, hi, ins), hs, lo, hi, |ins| - (hi - lo))
  {
    hide Grow, Shaped, Headed, ReadBox;
    var d := |ins| - (hi - lo);
    var g := GrowFrom(s, hs, 0, d);
    var t := Splice(g, lo, hi, ins);
    GrowFromReads(s, hs, 0, d);
    SpliceReads(g, lo, hi, ins);
    forall i | 0 <= i < |hs| ensures Sited(t, hs[i].Grown(d)) {
      SplicedHeader(g, t, hs[i].Grown(d), lo, |s| + d);
    }
    forall k | 0 <= k < lo && Clear(hs, 0, k) ensures SameByte(s, t, k, 0) {
      assert SameByte(s, g, k, 0) && SameByte(g, t, k, 0);
    }
    forall k | hi <= k < |s| ensures SameByte(s, t, k, d) {
      ClearBehind(hs, lo, k);
      assert SameByte(s, g, k, 0) && SameByte(g, t, k, d);
    }
  }

  lemma {:induction false} ClearBehind(hs: seq<Box>, lo: int, k: int)
    requires lo <= k && forall i :: 0 <= i < |hs| ==> hs[i].Body() <= lo
    ensures Clear(hs, 0, k)
  {
  }

  lemma {:induction false} SpliceReads(g: Buffer, lo: int, hi: int, ins: Buffer)
    requires 0 <= lo <= hi <= |g|
    ensures var t := Splice(g, lo, hi, ins);
      && |t| == |g| + |ins| - (hi - lo)
      && Carried(g, t, 0, lo, 0) && Carried(g, t, hi, |g|, |ins| - (hi - lo))
      && t[lo..lo + |ins|] == ins
  {
    var t, d := Splice(g, lo, hi, ins), |ins| - (hi - lo);
    forall k | hi <= k < |g| ensures SameByte(g, t, k, d) {
      assert t[k + d] == g[hi..][k - hi];
    }
  }

  lemma {:induction false} SplicedHeader(g: Buffer, t: Buffer, k: Box, lo: int, len: int)
    requires Headed(g, k) && Writable(k) && k.Body() <= lo && Carried(g, t, 0, lo, 0)
    requires |t| == len && k.End() <= len
    ensures Sited(t, k)
  {
    hide U32, U64, ReadBox, Sited;
    HeadedFits(g, k);
    CarriedPart(g, t, 0, lo, k.offset, k.Body(), 0);
    HeadedCarried(g, t, k);
    SitedOfHeaded(t, k);
  }

  lemma {:induction false} HeadedFits(g: Buffer, k: Box)
    requires Headed(g, k)
    ensures 0 <= k.offset && 8 <= k.hdr
  {
  }

  // ---------------------------------------------------------------- paths

  /** `hs[i..]` are the boxes a path of first children meets. */
  ghost predicate OnPath(s: Buffer, a: int, b: int, path: seq<Hop>, hs: seq<Box>, i: nat)
    decreases |path|
  {
    && |hs| == i + |path|
    && (path == [] ||
        (&& FindChild(s, a, b, path[0].typ) == Some(hs[i])
         && OnPath(s, hs[i].Body() + path[0].skip, hs[i].End(), path[1..], hs, i + 1)))
  }

  lemma {:induction false} OnPathOfDescent(s: Buffer, a: int, b: int, path: seq<Hop>, hs: seq<Box>, i: nat)
    requires i <= |hs| && Descent(s, a, b, path) == Some(hs[i..])
    ensures OnPath(s, a, b, path, hs, i)
    decreases |path|
  {
    hide FindChild;
    if path != [] {
      var c := FindChild(s, a, b, path[0].typ).value;
      assert hs[i + 1..] == hs[i..][1..];
      OnPathOfDescent(s, c.Body() + path[0].skip, c.End(), path[1..], hs, i + 1);
    }
  }

  /** A splice inside the last box of a path is an edit inside that path. */
  lemma {:induction false} ZoneInside(
      s: Buffer, t: Buffer, a: int, b: int, path: seq<Hop>, hs: seq<Box>, i: nat, lo: int, hi: int, d: int)
    requires ZoneEdit(s, t, hs, lo, hi, d)
    requires TiledPath(s, a, b, path) && OnPath(s, a, b, path, hs, i)
    requires forall j :: 0 <= j < i ==> hs[j].Body() <= a
    requires path != [] ==> path[|path| - 1].skip == 0
    ensures EditedInside(s, t, a, b, path, d) && EditFits(s, a, b, path, d)
    decreases |path|
  {
    hide FindChild, ReadBox, U32, Sited, Tiled;
    if path != [] {
      var c := hs[i];
      FoundSited(s, a, b, path[0].typ);
      TiledRange(s, a, b);
      forall k | a <= k < c.offset ensures SameByte(s, t, k, 0) {
        assert Clear(hs, 0, k);
      }
      CarriedPart(s, t, hi, |s|, c.End(), b, d);
      if |path| == 1 {
        assert path[1..] == [];
      } else {
        assert path[1..][|path| - 2] == path[|path| - 1];
      }
      ZoneInside(s, t, c.Body() + path[0].skip, c.End(), path[1..], hs, i + 1, lo, hi, d);
      if |path| > 1 {
        TiledRange(s, c.Body() + path[0].skip, c.End());
        FoundSited(s, c.Body() + path[0].skip, c.End(), path[1].typ);
      }
    }
  }

  /** The boxes of a path start after the headers of the boxes around them. */
  lemma {:induction false} PathNested(s: Buffer, a: int, b: int, path: seq<Hop>, hs: seq<Box>, i: nat)
    requires TiledPath(s, a, b, path) && OnPath(s, a, b, path, hs, i)
    requires path != [] ==> path[|path| - 1].skip == 0
    ensures forall q :: i <= q < |hs| ==> a <= hs[q].offset && hs[q].End() <= b && Sited(s, hs[q])
    ensures forall p, q :: i <= p < q < |hs| ==> hs[p].Body() <= hs[q].offset
    decreases |path|
  {
    hide FindChild, ReadBox, U32, Sited, Tiled;
    if path != [] {
      FoundSited(s, a, b, path[0].typ);
      if |path| == 1 {
        assert path[1..] == [];
      } else {
        assert path[1..][|path| - 2] == path[|path| - 1];
      }
      PathNested(s, hs[i].Body() + path[0].skip, hs[i].End(), path[1..], hs, i + 1);
    }
  }

  /** The last box of the path is its leaf. */
  lemma {:induction false} PathEndsAtLeaf(s: Buffer, a: int, b: int, path: seq<Hop>, hs: seq<Box>, i: nat)
    requires path != [] && OnPath(s, a, b, path, hs, i)
    ensures Leaf(s, a, b, path) == Some(hs[|hs| - 1])
    decreases |path|
  {
    hide FindChild;
    if |path| > 1 {
      PathEndsAtLeaf(s, hs[i].Body() + path[0].skip, hs[i].End(), path[1..], hs, i + 1);
    }
  }
}
