/**
 EnsureAC4ConfigBox of go_backend/ac4_config.go between loading the moov and
 writing it back. The results: a reader finds the same moov with only the ac-4
 entry changed, every chunk pointer outside moov still reaches its byte, and
 running the step again changes nothing.
 */
module Ac4Ensure {
  import opened Options
  import opened Endian
  import opened Mp4Boxes
  import opened Mp4Edits
  import opened Mp4Splice
  import opened Mp4Tables
  import opened Mp4Moov
  import opened Mp4Entry
  import opened Ac4Config

  // ---------------------------------------------------------------- the insertion

  /** audioSampleEntryHeaderLen on the entry's body. */
  function HeaderLen(body: Buffer): (h: Option<nat>)
    ensures h.Some? ==> EXT_START <= h.value <= |body|
  {
    if |body| < VERSION + 2 then None
    else
      var v := U16(body, VERSION);
      var h := EXT_START + if v == 1 then 16 else if v == 2 then 36 else 0;
      if h > |body| then None else Some(h)
  }

  /** audioSampleEntryHeaderLen as the code reads it from the buffer. */
  function HeaderLenAt(s: Buffer, entry: Box): Option<nat>
    requires 0 <= entry.Body() && entry.End() <= |s|
  {
    if entry.Body() + VERSION + 2 > entry.End() then None
    else
      var v := U16(s, entry.Body() + VERSION);
      var h := EXT_START + if v == 1 then 16 else if v == 2 then 36 else 0;
      if entry.Body() + h > entry.End() then None else Some(h)
  }

  lemma {:induction false} HeaderLenRead(s: Buffer, l: Box)
    requires Sited(s, l)
    ensures 0 <= l.offset <= l.Body() <= l.End() <= |s|
    ensures HeaderLenAt(s, l) == HeaderLen(EntryBody(s[l.offset..l.End()]))
  {
    hide ReadBox, U32, EntryBody, U16;
    EntryBytes(s, l);
    if l.Body() + VERSION + 2 <= l.End() { BodyRead(s, l, VERSION); }
  }

  /** The body with `ins` put in front of its child boxes. */
  function WithChild(body: Buffer, h: nat, ins: Buffer): Buffer
    requires h <= |body|
  {
    body[..h] + ins + body[h..]
  }

  /** A whole dac4 box, or one whose size field says "to the end of the buffer". */
  ghost predicate IsDac4(ins: Buffer) {
    && |ins| >= 8 && U32(ins, 4) == DAC4
    && (U32(ins, 0) == 0 || ReadBox(ins, 0) == Some(Box(0, |ins|, if U32(ins, 0) == 1 then 16 else 8, DAC4)))
  }

  lemma {:induction false} Dac4Found(t: Buffer, p: int, end: int, ins: Buffer)
    requires IsDac4(ins) && 0 <= p && p + |ins| <= |t| && t[p..p + |ins|] == ins && p + 8 <= end
    ensures FindChild(t, p, end, DAC4).Some? && FindChild(t, p, end, DAC4).value.offset == p
    ensures U32(ins, 0) != 0 ==> FindChild(t, p, end, DAC4).value.size == |ins|
  {
    hide U32;
    forall k | 0 <= k < |ins| ensures SameByte(ins, t, k, p) {
      assert t[p..p + |ins|][k] == t[p + k];
    }
    WordCarried(ins, t, 0, p, |ins|);
    CarriedPart(ins, t, 0, |ins|, 4, 8, p);
    WordCarried(ins, t, 4, p, 8);
    if U32(ins, 0) != 0 {
      var k := ReadBox(ins, 0).value;
      CarriedPart(ins, t, 0, |ins|, 0, k.Body(), p);
      BoxCarried(ins, t, 0, p, k);
    }
  }

  /** growBoxSize, shiftChunkOffsets and the splice for a new child at the front of the entry's children. */
  function InsertChild(s: Buffer, hs: seq<Box>, base: int, h: nat, ins: Buffer): Buffer
    requires |hs| == 7 && HeadersFit(s, hs) && 0 <= hs[6].Body() && hs[6].Body() + h <= |s|
  {
    var p := hs[6].Body() + h;
    Rewritten(s, hs, base + p, p, p, ins)
  }

  lemma {:induction false} ChildInserted(
      s: Buffer, moov: Box, ks: seq<Box>, j: nat, hs: seq<Box>, base: int, h: nat, ins: Buffer)
    requires WellFormed(s, moov, ks) && EntryChain(s, moov, ks, j, hs) && AllInBuffer(s, ks) && HeadersFit(s, hs)
    requires |s| + |ins| < TWO32 && |hs| == 7 && HasEntry(Digest(s, ks), j)
    requires 0 <= hs[6].Body() && hs[6].Body() + h <= hs[6].End() <= |s|
    requires DigestFits(Digest(s, ks), base + hs[6].Body() + h, |ins|)
    requires h <= |EntryBody(EntryOf(Digest(s, ks), j))|
    ensures var t := InsertChild(s, hs, base, h, ins);
      && Reshaped(s, t, moov, ks, j, hs, base + hs[6].Body() + h, |ins|,
        WithChild(EntryBody(EntryOf(Digest(s, ks), j)), h, ins))
      && hs[6].Body() + h + |ins| <= |t| && t[hs[6].Body() + h..hs[6].Body() + h + |ins|] == ins
  {
    hide ReadBox, U32, WellFormed, EntryChain, Sited, EntryBody, Digest, Rewritten, Reshaped, HasEntry, EntryOf,
      SameKind, DigestFits, AllWritable, EntryReplaced;
    var p := hs[6].Body() + h;
    var t := InsertChild(s, hs, base, h, ins);
    EntryInPlace(s, moov, ks, j, hs);
    ChainWritable(s, moov, ks, j, hs, |ins|);
    RewrittenReads(s, moov, ks, j, hs, base + p, p, p, ins);
    SteppedParts(s, t, moov, ks, j, hs, base + p, p, p, ins);
    EntryKind(s, hs[6]);
    SameEntry(Digest(s, ks), j);
    NothingDifferent(s, ks);
    StepReshapes(s, s, t, moov, ks, j, hs, base + p, p, p, ins);
  }

  lemma {:induction false} SteppedParts(
      s: Buffer, t: Buffer, moov: Box, ks: seq<Box>, j: nat, hs: seq<Box>, from: int, lo: int, hi: int, ins: Buffer)
    requires Stepped(s, t, moov, ks, j, hs, from, lo, hi, ins)
    ensures 0 <= lo && lo + |ins| <= |t| && t[lo..lo + |ins|] == ins
  {
    hide WellFormed, EntryChain, Digest, EntrySpliced, AllInBuffer, EntryReplaced, RestKept;
  }

  lemma {:induction false} EntryKind(s: Buffer, l: Box)
    requires Sited(s, l)
    ensures 0 <= l.offset <= l.End() <= |s|
    ensures SameKind(s[l.offset..l.End()], s[l.offset..l.End()])
  {
    EntryBytes(s, l);
  }

  lemma {:induction false} SameEntry(cs: seq<Child>, j: nat)
    requires HasEntry(cs, j)
    ensures EntryReplaced(cs, j, EntryOf(cs, j)) == cs
  {
  }

  /**
   With the children of the entry side by side before, they are so afterwards
   with the new box in front -- exactly when that box carries its size: one that
   runs "to the end of the buffer" swallows the others.
   */
  lemma {:induction false} ChildrenStayTiled(body: Buffer, h: nat, ins: Buffer)
    requires IsDac4(ins) && Tiled(body, h, |body|)
    ensures h <= |body|
    ensures var b := WithChild(body, h, ins); Tiled(b, h, |b|) <==> U32(ins, 0) != 0
  {
    hide U32, Layout;
    TiledRange(body, h, |body|);
    var b := WithChild(body, h, ins);
    SpliceReads(body, h, h, ins);
    if U32(ins, 0) != 0 {
      ChildrenAround(body, h, ins);
    } else if Tiled(b, h, |b|) {
      var js :| Walk(b, h, |b|, js);
      FirstOfWalk(b, h, |b|, js);
      forall k | 0 <= k < |ins| ensures SameByte(ins, b, k, h) {
        assert b[h..h + |ins|][k] == b[h + k];
      }
      WordCarried(ins, b, 0, h, |ins|);
      assert false;
    }
  }

  lemma {:induction false} FirstOfWalk(b: Buffer, a: int, e: int, js: seq<Box>)
    requires Walk(b, a, e, js) && a + 8 <= e
    ensures js != [] && js[0].offset == a && Sited(b, js[0])
  {
    hide ReadBox, U32;
  }

  lemma {:induction false} ChildrenAround(body: Buffer, h: nat, ins: Buffer)
    requires IsDac4(ins) && U32(ins, 0) != 0 && Tiled(body, h, |body|) && h <= |body|
    ensures var b := WithChild(body, h, ins); Tiled(b, h, |b|)
  {
    hide U32, ReadBox, Swapped;
    var b := WithChild(body, h, ins);
    SpliceReads(body, h, h, ins);
    var ks :| Walk(body, h, |body|, ks);
    var n := Box(h, |ins|, if U32(ins, 0) == 1 then 16 else 8, DAC4);
    InsertedBox(ins, b, h, n);
    LayoutStart(h, |body|, ks);
    KidsReplaced(body, b, h, |body|, ks, 0, 0, n, |ins|);
    assert Walk(b, h, |b|, Swapped(ks, 0, 0, n, |ins|));
  }

  lemma {:induction false} LayoutStart(a: int, b: int, ks: seq<Box>)
    requires Layout(a, b, ks)
    ensures StartAt(a, ks, 0) == a && 0 <= a <= b
  {
  }

  lemma {:induction false} InsertedBox(ins: Buffer, b: Buffer, h: nat, n: Box)
    requires IsDac4(ins) && U32(ins, 0) != 0 && h + |ins| <= |b| && b[h..h + |ins|] == ins
    requires n == Box(h, |ins|, if U32(ins, 0) == 1 then 16 else 8, DAC4)
    ensures Sited(b, n)
  {
    hide U32;
    forall k | 0 <= k < |ins| ensures SameByte(ins, b, k, h) {
      assert b[h..h + |ins|][k] == b[h + k];
    }
    var k := ReadBox(ins, 0).value;
    CarriedPart(ins, b, 0, |ins|, 0, k.Body(), h);
    BoxCarried(ins, b, 0, h, k);
    assert k.Moved(h) == n;
  }

  // ---------------------------------------------------------------- the whole step

  /** findBoxBySignature: the first position that reads as a box of the type, nested or not. */
  function FindSignature(s: Buffer, i: int, end: int, typ: FourCC): (r: Option<Box>)
    requires 0 <= i && end <= |s|
    ensures r.Some? ==> ReadBox(s, r.value.offset) == r && r.value.typ == typ
    decreases end - i
  {
    if i + 8 > end then None
    else if U32(s, i + 4) == typ && ReadBox(s, i).Some? then ReadBox(s, i)
    else FindSignature(s, i + 1, end, typ)
  }

  ghost predicate Signed(s: Buffer, q: int, typ: FourCC) {
    0 <= q && q + 8 <= |s| && U32(s, q + 4) == typ && ReadBox(s, q).Some?
  }

  /** The match is the first one, and there is none exactly when nothing in the range is. */
  lemma {:induction false} SignatureIsFirst(s: Buffer, i: int, end: int, typ: FourCC)
    requires 0 <= i && end <= |s|
    ensures FindSignature(s, i, end, typ).None? <==> forall q :: i <= q <= end - 8 ==> !Signed(s, q, typ)
    ensures FindSignature(s, i, end, typ).Some? ==>
      var k := FindSignature(s, i, end, typ).value;
      && i <= k.offset <= end - 8 && Signed(s, k.offset, typ) && ReadBox(s, k.offset) == Some(k)
      && forall q :: i <= q < k.offset ==> !Signed(s, q, typ)
    decreases end - i
  {
    hide U32, ReadBox;
    if i + 8 <= end {
      if U32(s, i + 4) == typ && ReadBox(s, i).Some? {
        assert Signed(s, i, typ);
      } else {
        assert !Signed(s, i, typ);
        SignatureIsFirst(s, i + 1, end, typ);
      }
    }
  }

  datatype Payload = Payload(bytes: Buffer) | Missing(reason: string)

  /** The dac4 box of the source file, copied from its moov buffer. */
  function SourceDac4(src: Option<Buffer>): Payload {
    match src
    case None => Missing("source has no moov")
    case Some(s) =>
      match ReadBox(s, 0)
      case None => Missing("source has no moov")
      case Some(moov) =>
        match FindSignature(s, moov.Body(), moov.End(), DAC4)
        case None => Missing("dac4 not found in source")
        case Some(k) => Payload(s[k.offset..k.End()])
  }

  /** The bytes of a box that was read somewhere in a buffer. */
  lemma {:induction false} CutOutIsDac4(s: Buffer, k: Box)
    requires ReadBox(s, k.offset) == Some(k) && k.typ == DAC4
    ensures 0 <= k.offset <= k.End() <= |s| && IsDac4(s[k.offset..k.End()])
  {
    hide U32;
    var ins, d := s[k.offset..k.End()], -k.offset;
    forall q | k.offset <= q < k.End() ensures SameByte(s, ins, q, d) {
    }
    WordCarried(s, ins, k.offset, d, k.End());
    CarriedPart(s, ins, k.offset, k.End(), k.offset + 4, k.End(), d);
    WordCarried(s, ins, k.offset + 4, d, k.End());
    if U32(s, k.offset) != 0 {
      CarriedPart(s, ins, k.offset, k.End(), k.offset, k.Body(), d);
      BoxCarried(s, ins, k.offset, d, k);
    }
  }

  lemma {:induction false} SourceIsDac4(src: Option<Buffer>)
    requires SourceDac4(src).Payload?
    ensures IsDac4(SourceDac4(src).bytes)
  {
    hide U32, ReadBox, IsDac4, FindSignature;
    var moov := ReadBox(src.value, 0).value;
    CutOutIsDac4(src.value, FindSignature(src.value, moov.Body(), moov.End(), DAC4).value);
  }

  datatype Outcome =
    | Untouched                 // not an AC-4 file: nothing is written
    | Failed(reason: string)    // nothing is written
    | Written(moov: Buffer)     // the new moov, streamed into the file

  function Ensure(s: Buffer, base: int, src: Option<Buffer>): Outcome {
    if LocateAC4(s).None? then Untouched
    else
      var dst := NormalizeEntry(s, base);
      match LocateAC4(dst)
      case None => Untouched
      case Some(hs) => EnsureDac4(dst, hs, base, src)
  }

  /** The part behind the normalization. */
  function EnsureDac4(dst: Buffer, hs: seq<Box>, base: int, src: Option<Buffer>): Outcome
    requires |hs| == 7 && HeadersFit(dst, hs)
  {
    match HeaderLenAt(dst, hs[6])
    case None => Failed("malformed ac-4 sample entry")
    case Some(h) =>
      if FindChild(dst, hs[6].Body() + h, hs[6].End(), DAC4).Some? then Written(dst)
      else
        match SourceDac4(src)
        case Missing(why) => Failed(why)
        case Payload(ins) => Written(InsertChild(dst, hs, base, h, ins))
  }
}
