/**
 The buffer code of go_backend/ac4_config.go and go_backend/ac4_metadata.go as it
 runs: loops over a byte array, fields overwritten in place. Every method does
 exactly what its function on buffers says.
 */
module Mp4InPlace {
  import opened Options
  import opened Endian
  import opened Mp4Boxes
  import opened Mp4Edits
  import opened Mp4Splice
  import opened Mp4Tables
  import opened Mp4Moov
  import opened Mp4Entry
  import opened Ac4Config
  import opened Ac4Ensure
  import opened ItunesUdta

  // ---------------------------------------------------------------- fields

  method GetUint32(data: array<byte>, p: int) returns (v: int)
    requires 0 <= p && p + 4 <= data.Length
    ensures v == U32(data[..], p)
  {
    var a: int, b: int, c: int, d: int := data[p], data[p + 1], data[p + 2], data[p + 3];
    v := a * 0x100_0000 + b * 0x1_0000 + c * 0x100 + d;
  }

  method GetUint64(data: array<byte>, p: int) returns (v: int)
    requires 0 <= p && p + 8 <= data.Length
    ensures v == U64(data[..], p)
  {
    var hi := GetUint32(data, p);
    var lo := GetUint32(data, p + 4);
    v := hi * TWO32 + lo;
  }

  method GetUint16(data: array<byte>, p: int) returns (v: int)
    requires 0 <= p && p + 2 <= data.Length
    ensures v == U16(data[..], p)
  {
    var a: int, b: int := data[p], data[p + 1];
    v := a * 0x100 + b;
  }

  method PutUint32(data: array<byte>, p: int, v: int)
    requires 0 <= p && p + 4 <= data.Length
    modifies data
    ensures data[..] == Put(old(data[..]), p, Be32(v))
  {
    ghost var s := data[..];
    var w := v % TWO32;
    data[p], data[p + 1] := w / 0x100_0000, w / 0x1_0000 % 0x100;
    data[p + 2], data[p + 3] := w / 0x100 % 0x100, w % 0x100;
    assert data[..] == Put(s, p, Be32(v));
  }

  method PutUint64(data: array<byte>, p: int, v: int)
    requires 0 <= p && p + 8 <= data.Length
    modifies data
    ensures data[..] == Put(old(data[..]), p, Be64(v))
  {
    hide Be32;
    ghost var s := data[..];
    PutUint32(data, p, v / TWO32);
    PutUint32(data, p + 4, v);
    PutTwice(s, p, Be32(v / TWO32), Be32(v));
  }

  lemma {:induction false} PutTwice(s: Buffer, p: int, a: Buffer, b: Buffer)
    requires 0 <= p && p + |a| + |b| <= |s|
    ensures Put(Put(s, p, a), p + |a|, b) == Put(s, p, a + b)
  {
    assert forall k :: 0 <= k < |s| ==> Put(Put(s, p, a), p + |a|, b)[k] == Put(s, p, a + b)[k];
  }

  // ---------------------------------------------------------------- boxes

  method ReadMP4Box(data: array<byte>, pos: int) returns (r: Option<Box>)
    ensures r == ReadBox(data[..], pos)
  {
    var n := data.Length;
    if pos < 0 || pos + 8 > n { return None; }
    var field := GetUint32(data, pos);
    var typ := GetUint32(data, pos + 4);
    var size, hdr := field, 8;
    if field == 1 {
      if pos + 16 > n { return None; }
      var large := GetUint64(data, pos + 8);
      size, hdr := Signed64(large), 16;
    } else if field == 0 {
      size := n - pos;
    }
    if size < hdr || pos + size > n { return None; }
    return Some(Box(pos, size, hdr, typ));
  }

  method FindChildMP4(data: array<byte>, start: int, end: int, typ: FourCC) returns (r: Option<Box>)
    ensures r == FindChild(data[..], start, end, typ)
  {
    var pos := start;
    while pos + 8 <= end
      invariant FindChild(data[..], start, end, typ) == SearchFrom(data[..], pos, end, typ)
      decreases end - pos
    {
      var b := ReadMP4Box(data, pos);
      if b.None? { return None; }
      if b.value.typ == typ { return b; }
      pos := b.value.End();
    }
    return None;
  }

  method FindBoxBySignature(data: array<byte>, start: int, end: int, typ: FourCC) returns (r: Option<Box>)
    requires 0 <= start && end <= data.Length
    ensures r == FindSignature(data[..], start, end, typ)
  {
    var i := start;
    while i + 8 <= end
      invariant 0 <= i && FindSignature(data[..], start, end, typ) == FindSignature(data[..], i, end, typ)
      decreases end - i
    {
      var tag := GetUint32(data, i + 4);
      if tag == typ {
        var b := ReadMP4Box(data, i);
        if b.Some? { return b; }
      }
      i := i + 1;
    }
    return None;
  }

  method GrowBoxSize(data: array<byte>, b: Box, delta: int)
    requires HeadersFit(data[..], [b])
    modifies data
    ensures 0 <= b.offset && b.Body() <= data.Length && (b.hdr == 8 || b.hdr == 16)
    ensures data[..] == Grow(old(data[..]), b, delta)
  {
    assert [b][0] == b;
    if b.hdr == 16 {
      PutUint64(data, b.offset + 8, b.size + delta);
    } else {
      PutUint32(data, b.offset, b.size + delta);
    }
  }

  /** The loop over the boxes of a chain. */
  method GrowChain(data: array<byte>, hs: seq<Box>, delta: int)
    requires HeadersFit(data[..], hs)
    modifies data
    ensures data[..] == GrowFrom(old(data[..]), hs, 0, delta)
  {
    hide Grow;
    var i := 0;
    while i < |hs|
      invariant i <= |hs| && HeadersFit(data[..], hs)
      invariant GrowFrom(old(data[..]), hs, 0, delta) == GrowFrom(data[..], hs, i, delta)
    {
      GrowBoxSize(data, hs[i], delta);
      i := i + 1;
    }
  }

  // ---------------------------------------------------------------- chunk tables

  method GetPointer(data: array<byte>, p: int, w: Width) returns (v: int)
    requires 0 <= p && p + w <= data.Length
    ensures v == Pointer(data[..], p, w)
  {
    if w == 4 {
      v := GetUint32(data, p);
    } else {
      var u := GetUint64(data, p);
      v := Signed64(u);
    }
  }

  method ShiftEntryInPlace(data: array<byte>, p: int, w: Width, from: int, delta: int)
    requires 0 <= p && p + w <= data.Length
    modifies data
    ensures data[..] == ShiftEntry(old(data[..]), p, w, from, delta)
  {
    var v := GetPointer(data, p, w);
    if v >= from {
      if w == 4 { PutUint32(data, p, v + delta); } else { PutUint64(data, p, v + delta); }
    }
  }

  /** The loop of shiftChunkOffsets over one stco (`w == 4`) or co64 (`w == 8`) box. */
  method ShiftTableInPlace(data: array<byte>, box: Box, w: Width, from: int, delta: int)
    requires HeadersFit(data[..], [box])
    modifies data
    ensures 0 <= box.offset && 8 <= box.hdr && box.End() <= data.Length
    ensures data[..] == ShiftTable(old(data[..]), box, w, from, delta)
  {
    hide U32, Pointer, ShiftEntry;
    assert [box][0] == box;
    var base := box.Body() + 4;
    if base + 4 > box.End() { return; }
    ghost var s, n := data[..], Count(data[..], box, w);
    hide Count;
    var count := GetUint32(data, base);
    var p, i := base + 4, 0;
    while i < count && p + w <= box.End()
      invariant 0 <= i <= n && p == base + 4 + Span(w, i)
      invariant ShiftEntries(s, base + 4, n, w, from, delta) == ShiftEntries(data[..], p, n - i, w, from, delta)
      decreases count - i
    {
      EntryInRoom(s, box, w, count, i);
      ShiftEntryInPlace(data, p, w, from, delta);
      p := p + w;
      i := i + 1;
    }
    TableDone(s, box, w, count, i);
  }

  lemma {:induction false} EntryInRoom(s: Buffer, box: Box, w: Width, count: int, i: nat)
    requires 0 <= box.offset && 8 <= box.hdr && box.End() <= |s| && box.Body() + 8 <= box.End()
    requires count == U32(s, box.Body() + 4) && i < count && box.Body() + 8 + Span(w, i) + w <= box.End()
    ensures i < Count(s, box, w)
  {
  }

  lemma {:induction false} TableDone(s: Buffer, box: Box, w: Width, count: int, i: nat)
    requires 0 <= box.offset && 8 <= box.hdr && box.End() <= |s| && box.Body() + 8 <= box.End()
    requires count == U32(s, box.Body() + 4) && !(i < count && box.Body() + 8 + Span(w, i) + w <= box.End())
    requires i <= Count(s, box, w)
    ensures i == Count(s, box, w)
  {
  }

  // ---------------------------------------------------------------- traks

  /** The findChildMP4 calls nested in each other, one per hop. */
  method Follow(data: array<byte>, a: int, b: int, path: seq<Hop>) returns (r: Option<seq<Box>>)
    ensures r == Descent(data[..], a, b, path)
    decreases |path|
  {
    hide FindChild;
    if path == [] { return Some([]); }
    var c := FindChildMP4(data, a, b, path[0].typ);
    if c.None? { return None; }
    var rest := Follow(data, c.value.Body() + path[0].skip, c.value.End(), path[1..]);
    if rest.None? { return None; }
    return Some([c.value] + rest.value);
  }

  method ShiftTrakInPlace(data: array<byte>, trak: Box, from: int, delta: int)
    modifies data
    ensures data[..] == ShiftTrak(old(data[..]), trak, from, delta)
  {
    hide FindChild, Descent, Leaf, ShiftTable;
    var down := Follow(data, trak.Body(), trak.End(), TO_STBL);
    DescentEndsAtLeaf(data[..], trak.Body(), trak.End(), TO_STBL);
    if down.None? { return; }
    var stbl := down.value[2];
    var stco := FindChildMP4(data, stbl.Body(), stbl.End(), STCO);
    if stco.Some? { ShiftTableInPlace(data, stco.value, 4, from, delta); }
    var co64 := FindChildMP4(data, stbl.Body(), stbl.End(), CO64);
    if co64.Some? { ShiftTableInPlace(data, co64.value, 8, from, delta); }
  }

  /** shiftChunkOffsets: eachChildMP4 over the traks of moov. */
  method ShiftChunkOffsetsInPlace(data: array<byte>, moov: Box, from: int, delta: int)
    modifies data
    ensures data[..] == ShiftChunkOffsets(old(data[..]), moov, from, delta)
  {
    hide ShiftTrak;
    var pos := moov.Body();
    while pos + 8 <= moov.End()
      invariant ShiftChunkOffsets(old(data[..]), moov, from, delta)
        == ShiftTraks(data[..], pos, moov.End(), from, delta)
      decreases moov.End() - pos
    {
      var b := ReadMP4Box(data, pos);
      if b.None? { return; }
      if b.value.typ == TRAK { ShiftTrakInPlace(data, b.value, from, delta); }
      pos := b.value.End();
    }
  }

  // ---------------------------------------------------------------- the sample entry

  method LocateAC4Entry(data: array<byte>) returns (r: Option<seq<Box>>)
    ensures r == LocateAC4(data[..])
  {
    hide FindChild, EntryPath;
    var moov := FindChildMP4(data, 0, data.Length, MOOV);
    if moov.None? { return None; }
    var pos := moov.value.Body();
    while pos + 8 <= moov.value.End()
      invariant LocateFrom(data[..], moov.value.Body(), moov.value.End()) == LocateFrom(data[..], pos, moov.value.End())
      decreases moov.value.End() - pos
    {
      var b := ReadMP4Box(data, pos);
      if b.None? { return None; }
      if b.value.typ == TRAK {
        var down := FollowToEntry(data, b.value);
        if down.Some? { return Some([moov.value] + ([b.value] + down.value)); }
      }
      pos := b.value.End();
    }
    return None;
  }

  method FollowToEntry(data: array<byte>, trak: Box) returns (r: Option<seq<Box>>)
    ensures r == EntryPath(data[..], trak)
  {
    r := Follow(data, trak.Body(), trak.End(), TO_ENTRY);
  }

  /** A new buffer: the old one with [lo, hi) replaced by `ins`. */
  method SpliceCopy(data: array<byte>, lo: int, hi: int, ins: Buffer) returns (out: array<byte>)
    requires 0 <= lo <= hi <= data.Length
    ensures fresh(out) && out[..] == Splice(data[..], lo, hi, ins)
  {
    var n := data.Length - (hi - lo) + |ins|;
    out := new byte[n](_ => 0);
    forall i | 0 <= i < lo { out[i] := data[i]; }
    forall i | 0 <= i < |ins| { out[lo + i] := ins[i]; }
    forall i | hi <= i < data.Length { out[i - hi + lo + |ins|] := data[i]; }
    assert out[..lo] == data[..lo];
    assert out[lo..lo + |ins|] == ins;
    assert out[lo + |ins|..] == data[hi..];
  }

  /** shiftChunkOffsets, growBoxSize on the chain, then the copy around the splice. */
  method RewriteInPlace(data: array<byte>, hs: seq<Box>, from: int, lo: int, hi: int, ins: Buffer)
    returns (out: array<byte>)
    requires |hs| > 0 && HeadersFit(data[..], hs) && 0 <= lo <= hi <= data.Length
    modifies data
    ensures fresh(out) && out[..] == Rewritten(old(data[..]), hs, from, lo, hi, ins)
  {
    hide ShiftTraks, GrowFrom;
    var d := |ins| - (hi - lo);
    ShiftChunkOffsetsInPlace(data, hs[0], from, d);
    GrowChain(data, hs, d);
    out := SpliceCopy(data, lo, hi, ins);
  }

  method NormalizeQuickTimeAudioEntry(data: array<byte>, base: int) returns (out: array<byte>)
    modifies data
    ensures out == data || fresh(out)
    ensures out[..] == NormalizeEntry(old(data[..]), base)
  {
    hide LocateAC4, Rewritten;
    var loc := LocateAC4Entry(data);
    if loc.None? { return data; }
    var hs := loc.value;
    var p := hs[6].Body();
    if p + VERSION + 2 > hs[6].End() { return data; }
    var version := GetUint16(data, p + VERSION);
    if version != 1 { return data; }
    if p + EXT_END > hs[6].End() { return data; }
    ghost var s := data[..];
    data[p + VERSION], data[p + VERSION + 1] := 0, 0;
    assert data[..] == Put(s, p + VERSION, [0, 0]);
    out := RewriteInPlace(data, hs, base + p + EXT_START, p + EXT_START, p + EXT_END, []);
  }

  method AudioSampleEntryHeaderLen(data: array<byte>, entry: Box) returns (h: Option<nat>)
    requires HeadersFit(data[..], [entry])
    ensures 0 <= entry.Body() && entry.End() <= data.Length
    ensures h == HeaderLenAt(data[..], entry)
  {
    assert [entry][0] == entry;
    var base := entry.Body();
    if base + VERSION + 2 > entry.End() { return None; }
    var version := GetUint16(data, base + VERSION);
    var len := EXT_START;
    if version == 1 { len := len + 16; } else if version == 2 { len := len + 36; }
    if base + len > entry.End() { return None; }
    return Some(len);
  }

  method Dac4FromSource(src: array?<byte>) returns (p: Payload)
    ensures p == SourceDac4(if src == null then None else Some(src[..]))
  {
    hide FindSignature;
    if src == null { return Missing("source has no moov"); }
    var moov := ReadMP4Box(src, 0);
    if moov.None? { return Missing("source has no moov"); }
    var k := FindBoxBySignature(src, moov.value.Body(), moov.value.End(), DAC4);
    if k.None? { return Missing("dac4 not found in source"); }
    return Payload(src[k.value.offset..k.value.End()]);
  }

  /** EnsureAC4ConfigBox between loading the moov and writing it back. */
  method EnsureAC4ConfigBox(moovBuf: array<byte>, moovOffset: int, src: array?<byte>) returns (r: Outcome)
    requires src != moovBuf
    modifies moovBuf
    ensures r == Ensure(old(moovBuf[..]), moovOffset, if src == null then None else Some(old(src[..])))
  {
    hide LocateAC4, NormalizeEntry, FindChild, Rewritten, SourceDac4;
    var first := LocateAC4Entry(moovBuf);
    if first.None? { return Untouched; }
    var dst := NormalizeQuickTimeAudioEntry(moovBuf, moovOffset);
    var loc := LocateAC4Entry(dst);
    if loc.None? { return Untouched; }
    var hs := loc.value;
    assert HeadersFit(dst[..], [hs[6]]);
    var h := AudioSampleEntryHeaderLen(dst, hs[6]);
    if h.None? { return Failed("malformed ac-4 sample entry"); }
    var childStart := hs[6].Body() + h.value;
    var has := FindChildMP4(dst, childStart, hs[6].End(), DAC4);
    if has.Some? { return Written(dst[..]); }
    var dac4 := Dac4FromSource(src);
    if dac4.Missing? { return Failed(dac4.reason); }
    var out := RewriteInPlace(dst, hs, moovOffset + childStart, childStart, childStart, dac4.bytes);
    return Written(out[..]);
  }

  /** writeMP4iTunesMetadata with the finished udta box. */
  method WriteMP4ITunesMetadata(data: array<byte>, base: int, tag: Buffer) returns (out: array<byte>)
    modifies data
    ensures out == data || fresh(out)
    ensures out[..] == WriteUdta(old(data[..]), base, tag)
  {
    hide FindChild, ShiftTraks, GrowFrom;
    var moov := FindChildMP4(data, 0, data.Length, MOOV);
    if moov.None? { return data; }
    var udta := FindChildMP4(data, moov.value.Body(), moov.value.End(), UDTA);
    var lo, hi := moov.value.End(), moov.value.End();
    if udta.Some? { lo, hi := udta.value.offset, udta.value.End(); }
    var delta := |tag| - (hi - lo);
    ShiftChunkOffsetsInPlace(data, moov.value, base + lo, delta);
    GrowChain(data, [moov.value], delta);
    out := SpliceCopy(data, lo, hi, tag);
  }
}
