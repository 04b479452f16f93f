/**
 The ac-4 sample entry as its own bytes, and what one grow-and-splice step of
 go_backend/ac4_config.go does to it, to the chunk pointers and to the rest of moov.
 */
module Mp4Entry {
  import opened Options
  import opened Endian
  import opened Mp4Boxes
  import opened Mp4Edits
  import opened Mp4Splice
  import opened Mp4Tables
  import opened Mp4Moov

  /** The body of a box given as its bytes. */
  function EntryBody(e: Buffer): Buffer {
    match ReadBox(e, 0)
    case None => []
    case Some(k) => e[k.hdr..]
  }

  /** `f` is a box of the same type and kind of header as `e`, each with its own length written in it. */
  ghost predicate SameKind(e: Buffer, f: Buffer) {
    && ReadBox(e, 0).Some? && ReadBox(f, 0).Some?
    && var k, l := ReadBox(e, 0).value, ReadBox(f, 0).value;
       k.typ == l.typ && k.hdr == l.hdr && k.size == |e| && l.size == |f|
  }

  lemma {:induction false} EntryBytes(s: Buffer, l: Box)
    requires Sited(s, l)
    ensures 0 <= l.offset <= l.Body() <= l.End() <= |s|
    ensures ReadBox(s[l.offset..l.End()], 0) == Some(Box(0, l.size, l.hdr, l.typ))
    ensures EntryBody(s[l.offset..l.End()]) == s[l.Body()..l.End()]
  {
    hide U32;
    var e := s[l.offset..l.End()];
    var d := -l.offset;
    forall k | l.offset <= k < l.End() ensures SameByte(s, e, k, d) {
    }
    CarriedPart(s, e, l.offset, l.End(), l.offset, l.Body(), -l.offset);
    BoxCarried(s, e, l.offset, -l.offset, l);
    assert e[l.hdr..] == s[l.Body()..l.End()];
  }

  /** The bytes of a box around a splice. */
  lemma {:induction false} SplicedBody(s: Buffer, t: Buffer, hs: seq<Box>, l: Box, lo: int, hi: int, d: int)
    requires ZoneEdit(s, t, hs, lo, hi, d) && 0 <= l.Body() <= lo && hi <= l.End() <= |s|
    requires forall i :: 0 <= i < |hs| ==> hs[i].Body() <= l.Body()
    ensures t[l.Body()..l.End() + d] == Splice(s[l.Body()..l.End()], lo - l.Body(), hi - l.Body(), t[lo..hi + d])
  {
    var b, e := l.Body(), l.End();
    forall k | b <= k < lo ensures SameByte(s, t, k, 0) {
      ClearBehind(hs, b, k);
    }
    BytesCarried(s, t, b, lo, 0);
    CarriedPart(s, t, hi, |s|, hi, e, d);
    BytesCarried(s, t, hi, e, d);
    Pieces(s, t, b, e, lo, hi, d);
  }

  lemma {:induction false} Pieces(s: Buffer, t: Buffer, b: int, e: int, lo: int, hi: int, d: int)
    requires 0 <= b <= lo <= hi <= e <= |s| && lo <= hi + d && e + d <= |t|
    requires t[b..lo] == s[b..lo] && t[hi + d..e + d] == s[hi..e]
    ensures t[b..e + d] == Splice(s[b..e], lo - b, hi - b, t[lo..hi + d])
  {
    assert s[b..e][..lo - b] == s[b..lo];
    assert s[b..e][hi - b..] == s[hi..e];
    assert t[b..e + d] == t[b..lo] + t[lo..hi + d] + t[hi + d..e + d];
  }

  /** The sample entry `f` is `e` with the bytes [lo, hi) of its body replaced. */
  ghost predicate EntrySpliced(e: Buffer, f: Buffer, lo: int, hi: int, ins: Buffer) {
    && SameKind(e, f) && 0 <= lo <= hi <= |EntryBody(e)|
    && EntryBody(f) == Splice(EntryBody(e), lo, hi, ins)
  }

  /** Position of the entry of trak `j` in the buffer. */
  lemma {:induction false} EntryAt(s: Buffer, moov: Box, ks: seq<Box>, j: nat, hs: seq<Box>)
    requires WellFormed(s, moov, ks) && EntryChain(s, moov, ks, j, hs)
    ensures AllInBuffer(s, ks) && |hs| == 7 && Sited(s, hs[6]) && j < |ks|
    ensures 0 <= hs[6].offset <= hs[6].Body() <= hs[6].End() <= |s|
    ensures Digest(s, ks)[j].Trak? && Digest(s, ks)[j].entry == Some(s[hs[6].offset..hs[6].End()])
  {
    hide FindChild, ReadBox, U32, TiledPath, Descent, OnPath, Leaf, Pointers;
    WalkInBuffer(s, moov.Body(), |s|, ks);
    ChainNested(s, moov, ks, j, hs);
  }

  /** The buffer after shiftChunkOffsets, growBoxSize on every box of the chain, and the splice. */
  function Rewritten(s: Buffer, hs: seq<Box>, from: int, lo: int, hi: int, ins: Buffer): Buffer
    requires |hs| > 0 && HeadersFit(s, hs) && 0 <= lo <= hi <= |s|
  {
    var d := |ins| - (hi - lo);
    Splice(GrowFrom(ShiftChunkOffsets(s, hs[0], from, d), hs, 0, d), lo, hi, ins)
  }

  /**
   What such a step leaves: a well-formed moov with the same chain of boxes, every
   chunk pointer moved, the entry of trak `j` spliced, and every other byte kept.
   */
  ghost predicate Stepped(
      s: Buffer, t: Buffer, moov: Box, ks: seq<Box>, j: nat, hs: seq<Box>, from: int, lo: int, hi: int, ins: Buffer)
  {
    var d := |ins| - (hi - lo);
    var js := EditedList(ks, j, d);
    && |hs| == 7 && j < |ks| && AllInBuffer(s, ks)
    && WellFormed(t, moov.Grown(d), js) && AllInBuffer(t, js)
    && EntryChain(t, moov.Grown(d), js, j, GrownList(hs, d))
    && 0 <= lo && lo + |ins| <= |t| && t[lo..lo + |ins|] == ins
    && 0 <= hs[6].offset <= hs[6].End() <= |s|
    && hs[6].offset <= hs[6].End() + d <= |t|
    && var f := t[hs[6].offset..hs[6].End() + d];
    && Digest(t, js) == EntryReplaced(DigestMoved(Digest(s, ks), from, d), j, f)
    && EntrySpliced(s[hs[6].offset..hs[6].End()], f, lo - hs[6].Body(), hi - hs[6].Body(), ins)
    && RestKept(s, t, ks, js, hs, hs[6].offset, hs[6].End(), d)
  }

  lemma {:induction false} RewrittenReads(
      s: Buffer, moov: Box, ks: seq<Box>, j: nat, hs: seq<Box>, from: int, lo: int, hi: int, ins: Buffer)
    requires WellFormed(s, moov, ks) && EntryChain(s, moov, ks, j, hs) && AllInBuffer(s, ks) && |hs| == 7
    requires HeadersFit(s, hs) && hs[6].Body() <= lo <= hi <= hs[6].End() && 0 <= lo <= hi <= |s|
    requires DigestFits(Digest(s, ks), from, |ins| - (hi - lo)) && AllWritable(hs, |ins| - (hi - lo))
    ensures Stepped(s, Rewritten(s, hs, from, lo, hi, ins), moov, ks, j, hs, from, lo, hi, ins)
  {
    hide ReadBox, U32, WellFormed, EntryChain, Sited, ShiftChunkOffsets, ShiftTraks, GrowFrom, ZoneEdit, Walk,
      EntrySpliced, AllShaped, AllWritable, Nested, HeadersFit, DigestFits, DigestMoved, Digest, EditedList, GrownList,
      Splice, Rewritten, RestKept, AllTablesStay, OnlyTables;
    var d := |ins| - (hi - lo);
    var g, t := ShiftChunkOffsets(s, moov, from, d), Rewritten(s, hs, from, lo, hi, ins);
    EntryAt(s, moov, ks, j, hs);
    RewrittenIs(s, moov, ks, j, hs, from, lo, hi, ins);
    ShiftedChain(s, moov, ks, j, hs, from, d);
    ChainNested(g, moov, ks, j, hs);
    GrownAndSpliced(g, hs, lo, hi, ins);
    EntryEditedReads(g, t, moov, ks, j, hs, lo, hi, d);
    RestBehindTables(s, g, t, ks, EditedList(ks, j, d), hs, hs[6].offset, hs[6].End(), d);
    InsertedAt(g, hs, lo, hi, ins);
    EntryAfter(s, g, t, hs, lo, hi, ins);
  }

  lemma {:induction false} RewrittenIs(
      s: Buffer, moov: Box, ks: seq<Box>, j: nat, hs: seq<Box>, from: int, lo: int, hi: int, ins: Buffer)
    requires EntryChain(s, moov, ks, j, hs) && |hs| > 0 && HeadersFit(s, hs) && 0 <= lo <= hi <= |s|
    ensures var g := ShiftChunkOffsets(s, moov, from, |ins| - (hi - lo));
      && HeadersFit(g, hs)
      && Rewritten(s, hs, from, lo, hi, ins) == Splice(GrowFrom(g, hs, 0, |ins| - (hi - lo)), lo, hi, ins)
  {
    hide ShiftTraks;
    ChainHead(s, moov, ks, j, hs);
  }

  /** Shifting the tables leaves the chain of boxes and the entry's bytes. */
  lemma {:induction false} ShiftedChain(s: Buffer, moov: Box, ks: seq<Box>, j: nat, hs: seq<Box>, from: int, d: int)
    requires WellFormed(s, moov, ks) && EntryChain(s, moov, ks, j, hs) && AllInBuffer(s, ks) && |hs| == 7
    requires DigestFits(Digest(s, ks), from, d)
    ensures var g := ShiftChunkOffsets(s, moov, from, d);
      && |g| == |s| && WellFormed(g, moov, ks) && AllInBuffer(g, ks) && EntryChain(g, moov, ks, j, hs)
      && Digest(g, ks) == DigestMoved(Digest(s, ks), from, d)
      && Sited(s, hs[6]) && Sited(g, hs[6]) && 0 <= hs[6].offset <= hs[6].End() <= |s|
      && g[hs[6].offset..hs[6].End()] == s[hs[6].offset..hs[6].End()]
      && AllTablesStay(s, g, ks) && OnlyTables(s, g, ks)
  {
    hide *;
    var g := ShiftChunkOffsets(s, moov, from, d);
    EntryAt(s, moov, ks, j, hs);
    ChunkOffsetsShifted(s, moov, ks, from, d);
    ChainStays(s, g, moov, ks, j, hs);
    EntryAt(g, moov, ks, j, hs);
    MovedEntry(Digest(s, ks), Digest(g, ks), j, from, d);
  }

  lemma {:induction false} MovedEntry(cs: seq<Child>, ds: seq<Child>, j: nat, from: int, d: int)
    requires ds == DigestMoved(cs, from, d) && j < |cs| && cs[j].Trak?
    ensures ds[j].Trak? && ds[j].entry == cs[j].entry
  {
  }

  lemma {:induction false} InsertedAt(g: Buffer, hs: seq<Box>, lo: int, hi: int, ins: Buffer)
    requires HeadersFit(g, hs) && 0 <= lo <= hi <= |g|
    ensures var t := Splice(GrowFrom(g, hs, 0, |ins| - (hi - lo)), lo, hi, ins);
      lo + |ins| <= |t| && t[lo..lo + |ins|] == ins
  {
    SpliceReads(GrowFrom(g, hs, 0, |ins| - (hi - lo)), lo, hi, ins);
  }

  lemma {:induction false} ChainHead(s: Buffer, moov: Box, ks: seq<Box>, j: nat, hs: seq<Box>)
    requires EntryChain(s, moov, ks, j, hs)
    ensures |hs| > 0 && hs[0] == moov
  {
  }

  lemma {:induction false} ChainStays(s: Buffer, t: Buffer, moov: Box, ks: seq<Box>, j: nat, hs: seq<Box>)
    requires EntryChain(s, moov, ks, j, hs) && PathsKept(s, t, ks)
    ensures EntryChain(t, moov, ks, j, hs)
  {
    hide EntryPath;
  }

  /** The entry itself: shifting did not touch it, the splice did what it says. */
  lemma {:induction false} EntryAfter(s: Buffer, g: Buffer, t: Buffer, hs: seq<Box>, lo: int, hi: int, ins: Buffer)
    requires |hs| == 7 && |g| == |s| && Sited(s, hs[6]) && Sited(g, hs[6])
    requires g[hs[6].offset..hs[6].End()] == s[hs[6].offset..hs[6].End()]
    requires ZoneEdit(g, t, hs, lo, hi, |ins| - (hi - lo)) && t[lo..lo + |ins|] == ins
    requires forall i :: 0 <= i < |hs| ==> hs[i].Body() <= hs[6].Body()
    ensures var d, l := |ins| - (hi - lo), hs[6];
      && 0 <= l.offset <= l.End() && l.End() + d <= |t| && l.offset <= l.End() + d
      && EntrySpliced(s[l.offset..l.End()], t[l.offset..l.End() + d], lo - l.Body(), hi - l.Body(), ins)
  {
    hide ReadBox, U32, Sited, EntryBody, Splice;
    var d, l := |ins| - (hi - lo), hs[6];
    EntryBytes(s, l);
    EntryBytes(g, l);
    SitedInZone(g, t, hs, lo, hi, d, 6);
    EntryBytes(t, l.Grown(d));
    SplicedBody(g, t, hs, l, lo, hi, d);
  }

  lemma {:induction false} SitedInZone(s: Buffer, t: Buffer, hs: seq<Box>, lo: int, hi: int, d: int, i: nat)
    requires ZoneEdit(s, t, hs, lo, hi, d) && i < |hs|
    ensures Sited(t, hs[i].Grown(d)) && hs[i].Body() <= lo && hi <= hs[i].End()
  {
  }
}
