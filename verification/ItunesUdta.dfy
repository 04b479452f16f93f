/**
 writeMP4iTunesMetadata of go_backend/ac4_metadata.go on a moov buffer: the udta
 box replaced, or put behind the last child. `tag` is the finished udta box.
 */
module ItunesUdta {
  import opened Options
  import opened Endian
  import opened Mp4Boxes
  import opened Mp4Edits
  import opened Mp4Splice
  import opened Mp4Tables
  import opened Mp4Moov
  import opened Mp4Tree
  import opened Mp4Pointers

  /** What buildM4AAtom makes: an 8-byte header with the size of the whole. */
  ghost predicate IsUdta(tag: Buffer) {
    && ReadBox(tag, 0) == Some(Box(0, |tag|, 8, UDTA)) && U32(tag, 0) != 0
  }

  /** shiftChunkOffsets, growBoxSize on moov, and the splice. */
  function Respliced(s: Buffer, moov: Box, base: int, lo: int, hi: int, tag: Buffer): Buffer
    requires HeadersFit(s, [moov]) && 0 <= lo <= hi <= |s|
  {
    var d := |tag| - (hi - lo);
    Splice(GrowFrom(ShiftChunkOffsets(s, moov, base + lo, d), [moov], 0, d), lo, hi, tag)
  }

  function WriteUdta(s: Buffer, base: int, tag: Buffer): Buffer {
    match FindChild(s, 0, |s|, MOOV)
    case None => s
    case Some(moov) =>
      match FindChild(s, moov.Body(), moov.End(), UDTA)
      case Some(u) => Respliced(s, moov, base, u.offset, u.End(), tag)
      case None => Respliced(s, moov, base, moov.End(), moov.End(), tag)
  }

  // ---------------------------------------------------------------- one splice of children

  /** The box list after child `i` (or nothing, at the end) gave way to the new box. */
  function NewKids(ks: seq<Box>, i: nat, gone: nat, at: int, tag: Buffer, d: int): seq<Box>
    requires i + gone <= |ks|
  {
    Swapped(ks, i, gone, Box(at, |tag|, 8, UDTA), d)
  }

  /** Where a replacement starts and ends. */
  ghost predicate Slot(moov: Box, ks: seq<Box>, i: nat, gone: nat, lo: int, hi: int) {
    && gone <= 1 && i + gone <= |ks| && lo == StartAt(moov.Body(), ks, i)
    && hi == (if gone == 1 then ks[i].End() else lo)
    && (gone == 1 ==> ks[i].typ == UDTA)
  }

  /**
   Every child around the slot is read as before, its pointers moved; the new box stands
   in the slot, and every byte outside it, moov's header and the chunk tables is kept.
   */
  ghost predicate Resited(s: Buffer, t: Buffer, moov: Box, ks: seq<Box>, i: nat, gone: nat, base: int, lo: int, hi: int,
    tag: Buffer)
    requires i + gone <= |ks|
  {
    var d := |tag| - (hi - lo);
    var js := NewKids(ks, i, gone, lo, tag, d);
    && AllInBuffer(s, ks) && WellFormed(t, moov.Grown(d), js) && AllInBuffer(t, js)
    && Sited(t, moov.Grown(d)) && Digest(t, js)[i] == Other(tag)
    && (forall m :: 0 <= m < i ==> Digest(t, js)[m] == ChildMoved(Digest(s, ks)[m], base + lo, d))
    && (forall m :: i < m < |js| ==> Digest(t, js)[m] == ChildMoved(Digest(s, ks)[m - 1 + gone], base + lo, d))
    && BytesKept(s, t, ks, [moov], lo, hi, d)
  }

  lemma {:induction false} ResplicedReads(
      s: Buffer, moov: Box, ks: seq<Box>, i: nat, gone: nat, base: int, lo: int, hi: int, tag: Buffer)
    requires WellFormed(s, moov, ks) && AllInBuffer(s, ks) && HeadersFit(s, [moov]) && 0 <= lo <= hi <= |s|
    requires Slot(moov, ks, i, gone, lo, hi) && IsUdta(tag)
    requires DigestFits(Digest(s, ks), base + lo, |tag| - (hi - lo)) && Writable(moov.Grown(|tag| - (hi - lo)))
    ensures Resited(s, Respliced(s, moov, base, lo, hi, tag), moov, ks, i, gone, base, lo, hi, tag)
  {
    hide ReadBox, U32, WellFormed, Sited, ShiftTraks, GrowFrom, Digest, ChildMoved, DigestMoved, IsUdta, Layout,
      WellFormedChild, ZoneEdit, AllTablesStay, OnlyTables, BytesKept;
    var d := |tag| - (hi - lo);
    var g := ShiftChunkOffsets(s, moov, base + lo, d);
    ChunkOffsetsShifted(s, moov, ks, base + lo, d);
    var t := Respliced(s, moov, base, lo, hi, tag);
    MoovSpliced(g, moov, ks, i, gone, lo, hi, tag);
    ZoneKeepsBytes(g, t, ks, [moov], lo, hi, lo, hi, d);
    BytesBehindTables(s, g, t, ks, [moov], lo, hi, d);
    SlotRefilled(g, t, moov, ks, i, gone, lo, hi, tag);
    var js := NewKids(ks, i, gone, lo, tag, d);
    forall m | 0 <= m < |js| && m != i
      ensures Digest(t, js)[m] == ChildMoved(Digest(s, ks)[if m < i then m else m - 1 + gone], base + lo, d)
    {
      assert Digest(t, js)[m] == Digest(g, ks)[if m < i then m else m - 1 + gone];
    }
  }

  /** The splice as an edit inside moov. */
  lemma {:induction false} MoovSpliced(g: Buffer, moov: Box, ks: seq<Box>, i: nat, gone: nat, lo: int, hi: int,
    tag: Buffer)
    requires WellFormed(g, moov, ks) && HeadersFit(g, [moov]) && 0 <= lo <= hi <= |g| && Slot(moov, ks, i, gone, lo, hi)
    requires Writable(moov.Grown(|tag| - (hi - lo)))
    ensures var d := |tag| - (hi - lo);
      var t := Splice(GrowFrom(g, [moov], 0, d), lo, hi, tag);
      && ZoneEdit(g, t, [moov], lo, hi, d) && t[lo..lo + |tag|] == tag
  {
    hide ReadBox, U32, Walk, GrowFrom, ZoneEdit;
    SlotInside(g, moov, ks, i, gone, lo, hi);
    ShapedOfRead(g, moov);
    GrownAndSpliced(g, [moov], lo, hi, tag);
    SpliceReads(GrowFrom(g, [moov], 0, |tag| - (hi - lo)), lo, hi, tag);
  }

  lemma {:induction false} SlotInside(g: Buffer, moov: Box, ks: seq<Box>, i: nat, gone: nat, lo: int, hi: int)
    requires Walk(g, moov.Body(), |g|, ks) && Slot(moov, ks, i, gone, lo, hi)
    ensures moov.Body() <= lo <= hi <= |g|
  {
    hide Sited;
  }

  ghost predicate Refilled(g: Buffer, t: Buffer, moov: Box, ks: seq<Box>, i: nat, gone: nat, lo: int, hi: int,
    tag: Buffer)
    requires i + gone <= |ks|
  {
    var d := |tag| - (hi - lo);
    var js := NewKids(ks, i, gone, lo, tag, d);
    && AllInBuffer(g, ks) && WellFormed(t, moov.Grown(d), js) && AllInBuffer(t, js)
    && Sited(t, moov.Grown(d)) && Digest(t, js)[i] == Other(tag)
    && forall m :: 0 <= m < |js| && m != i ==> Digest(t, js)[m] == Digest(g, ks)[if m < i then m else m - 1 + gone]
  }

  /** After the splice the children are walked with the new box in the slot, the others carried. */
  lemma {:induction false} SlotRefilled(
      g: Buffer, t: Buffer, moov: Box, ks: seq<Box>, i: nat, gone: nat, lo: int, hi: int, tag: Buffer)
    requires WellFormed(g, moov, ks) && AllInBuffer(g, ks) && Slot(moov, ks, i, gone, lo, hi) && IsUdta(tag)
    requires ZoneEdit(g, t, [moov], lo, hi, |tag| - (hi - lo)) && t[lo..lo + |tag|] == tag
    ensures Refilled(g, t, moov, ks, i, gone, lo, hi, tag)
  {
    hide ReadBox, U32, Sited, TrakChild, WellFormedTrak, IsUdta;
    var d := |tag| - (hi - lo);
    var n, js := Box(lo, |tag|, 8, UDTA), NewKids(ks, i, gone, lo, tag, d);
    SlotInside(g, moov, ks, i, gone, lo, hi);
    ZoneOfMoov(g, t, moov, lo, hi, d);
    UdtaSited(tag, t, lo);
    KidsReplaced(g, t, moov.Body(), |g|, ks, i, gone, n, d);
    WalkInBuffer(t, moov.Body(), |t|, js);
    forall m | 0 <= m < |js| && m != i ensures Kept(g, t, ks, js, i, gone, m) {
      NeighbourKept(g, t, moov, ks, i, gone, n, lo, hi, d, m);
    }
    RefilledOf(g, t, moov, ks, i, gone, lo, hi, tag);
  }

  /** Child `m` of the new list is read like its counterpart in the old one. */
  ghost predicate Kept(g: Buffer, t: Buffer, ks: seq<Box>, js: seq<Box>, i: nat, gone: nat, m: nat) {
    m < |js| &&
    var o := if m < i then m else m - 1 + gone;
    0 <= o < |ks| && InBuffer(t, Some(js[m])) && InBuffer(g, Some(ks[o]))
    && WellFormedChild(t, js[m]) && ChildOf(t, js[m]) == ChildOf(g, ks[o])
  }

  lemma {:induction false} RefilledOf(
      g: Buffer, t: Buffer, moov: Box, ks: seq<Box>, i: nat, gone: nat, lo: int, hi: int, tag: Buffer)
    requires i + gone <= |ks| && AllInBuffer(g, ks) && moov.typ == MOOV && 0 <= lo && lo + |tag| <= |t|
    requires var d, js := |tag| - (hi - lo), NewKids(ks, i, gone, lo, tag, |tag| - (hi - lo));
      && ReadBox(t, 0) == Some(moov.Grown(d)) && moov.Grown(d).End() == |t| && Sited(t, moov.Grown(d))
      && Walk(t, moov.Body(), |t|, js) && AllInBuffer(t, js)
      && forall m :: 0 <= m < |js| && m != i ==> Kept(g, t, ks, js, i, gone, m)
    requires t[lo..lo + |tag|] == tag
    ensures Refilled(g, t, moov, ks, i, gone, lo, hi, tag)
  {
    hide ReadBox, U32, Sited, TrakChild, WellFormedTrak, Walk;
    var d := |tag| - (hi - lo);
    var js := NewKids(ks, i, gone, lo, tag, d);
    forall m | 0 <= m < |js|
      ensures WellFormedChild(t, js[m])
      ensures m != i ==> Digest(t, js)[m] == Digest(g, ks)[if m < i then m else m - 1 + gone]
    {
      if m != i { assert Kept(g, t, ks, js, i, gone, m); }
    }
  }

  lemma {:induction false} NeighbourKept(
      g: Buffer, t: Buffer, moov: Box, ks: seq<Box>, i: nat, gone: nat, n: Box, lo: int, hi: int, d: int, m: nat)
    requires WellFormed(g, moov, ks) && AllInBuffer(g, ks) && Slot(moov, ks, i, gone, lo, hi)
    requires n.offset == lo && n.End() - d == hi && 8 <= n.hdr <= n.size
    requires Carried(g, t, moov.Body(), lo, 0) && Carried(g, t, hi, |g|, d)
    requires m != i && m < |Swapped(ks, i, gone, n, d)|
    ensures Kept(g, t, ks, Swapped(ks, i, gone, n, d), i, gone, m)
  {
    hide ReadBox, U32, Sited, ChildOf, WellFormedTrak;
    SwappedPlace(moov.Body(), |g|, ks, i, gone, n, d, m);
    if m < i {
      assert WellFormedChild(g, ks[m]);
      CarriedPart(g, t, moov.Body(), lo, ks[m].offset, ks[m].End(), 0);
      ChildCarried(g, t, ks[m], 0);
      assert ks[m].Moved(0) == ks[m];
    } else {
      var o := m - 1 + gone;
      assert WellFormedChild(g, ks[o]);
      CarriedPart(g, t, hi, |g|, ks[o].offset, ks[o].End(), d);
      ChildCarried(g, t, ks[o], d);
    }
  }

  lemma {:induction false} ZoneOfMoov(g: Buffer, t: Buffer, moov: Box, lo: int, hi: int, d: int)
    requires ReadBox(g, 0) == Some(moov) && moov.End() == |g| && ZoneEdit(g, t, [moov], lo, hi, d)
    ensures ReadBox(t, 0) == Some(moov.Grown(d)) && moov.Grown(d).End() == |t| && Sited(t, moov.Grown(d))
    ensures Carried(g, t, moov.Body(), lo, 0) && Carried(g, t, hi, |g|, d)
  {
    hide U32;
    SitedInOne(t, moov, d, [moov]);
    assert [moov][0] == moov && moov.Body() <= lo;
    forall k | moov.Body() <= k < lo ensures SameByte(g, t, k, 0) {
      assert Clear([moov], 0, k);
    }
  }

  lemma {:induction false} SitedInOne(t: Buffer, moov: Box, d: int, hs: seq<Box>)
    requires hs == [moov] && forall i :: 0 <= i < |hs| ==> Sited(t, hs[i].Grown(d))
    ensures Sited(t, moov.Grown(d))
  {
    assert hs[0] == moov;
  }

  lemma {:induction false} UdtaSited(tag: Buffer, t: Buffer, lo: int)
    requires IsUdta(tag) && 0 <= lo && lo + |tag| <= |t| && t[lo..lo + |tag|] == tag
    ensures Sited(t, Box(lo, |tag|, 8, UDTA))
  {
    var k := Box(0, |tag|, 8, UDTA);
    InsertedCarried(tag, t, lo);
    hide U32, ReadBox;
    CarriedPart(tag, t, 0, |tag|, 0, 8, lo);
    assert k.Moved(lo) == Box(lo, |tag|, 8, UDTA) && k.Body() == 8;
    BoxCarried(tag, t, 0, lo, k);
  }

  /** Bytes standing in a longer buffer. */
  lemma {:induction false} InsertedCarried(tag: Buffer, t: Buffer, lo: int)
    requires 0 <= lo && lo + |tag| <= |t| && t[lo..lo + |tag|] == tag
    requires ReadBox(tag, 0) == Some(Box(0, |tag|, 8, UDTA))
    ensures Carried(tag, t, 0, |tag|, lo) && 8 <= |tag|
  {
    hide U32;
    forall k | 0 <= k < |tag| ensures SameByte(tag, t, k, lo) {
      assert t[lo..lo + |tag|][k] == t[lo + k];
    }
  }

  // ---------------------------------------------------------------- results

  /** Which slot writeMP4iTunesMetadata fills: the first udta, or the end of moov. */
  lemma {:induction false} SlotChosen(s: Buffer, moov: Box, ks: seq<Box>, i: nat, base: int, tag: Buffer)
    requires WellFormed(s, moov, ks) && IsFirst(ks, UDTA, i)
    ensures HeadersFit(s, [moov]) && moov.End() == |s|
    ensures i < |ks| ==>
      && 0 <= ks[i].offset <= ks[i].End() <= |s|
      && WriteUdta(s, base, tag) == Respliced(s, moov, base, ks[i].offset, ks[i].End(), tag)
    ensures i == |ks| ==> WriteUdta(s, base, tag) == Respliced(s, moov, base, |s|, |s|, tag)
  {
    hide U32, WellFormedChild, Respliced;
    FindChildIsFirst(s, moov.Body(), |s|, ks, UDTA, i);
    assert FindChild(s, 0, |s|, MOOV) == Some(moov);
    if i < |ks| { assert Sited(s, ks[i]); }
  }

  /** Replacing: the new udta stands where the old one was, pointers moved, all else as before. */
  lemma {:induction false} UdtaReplaced(s: Buffer, moov: Box, ks: seq<Box>, i: nat, base: nat, tag: Buffer)
    requires WellFormed(s, moov, ks) && AllInBuffer(s, ks) && IsFirst(ks, UDTA, i) && i < |ks| && IsUdta(tag)
    requires DigestFits(Digest(s, ks), base + ks[i].offset, |tag| - ks[i].size)
    requires Writable(moov.Grown(|tag| - ks[i].size))
    ensures Resited(s, WriteUdta(s, base, tag), moov, ks, i, 1, base, ks[i].offset, ks[i].End(), tag)
  {
    hide ReadBox, U32, WellFormed, Digest, IsUdta, Resited, Respliced, WriteUdta, Writable;
    SlotChosen(s, moov, ks, i, base, tag);
    ResplicedReads(s, moov, ks, i, 1, base, ks[i].offset, ks[i].End(), tag);
  }

  /** Inserting at the end of a moov whose children fill it. */
  lemma {:induction false} UdtaInserted(s: Buffer, moov: Box, ks: seq<Box>, base: nat, tag: Buffer)
    requires WellFormed(s, moov, ks) && AllInBuffer(s, ks) && IsFirst(ks, UDTA, |ks|) && IsUdta(tag)
    requires DigestFits(Digest(s, ks), base + |s|, |tag|) && Writable(moov.Grown(|tag|))
    requires EndOf(moov.Body(), ks) == |s|
    ensures Resited(s, WriteUdta(s, base, tag), moov, ks, |ks|, 0, base, |s|, |s|, tag)
  {
    hide ReadBox, U32, WellFormed, Digest, IsUdta, Resited, Respliced, WriteUdta, Writable;
    SlotChosen(s, moov, ks, |ks|, base, tag);
    ResplicedReads(s, moov, ks, |ks|, 0, base, |s|, |s|, tag);
  }

  /** Any tree of boxes read beside the slot is read again, in place or moved as a whole. */
  lemma {:induction false} ResitedKeepsTree(
      s: Buffer, t: Buffer, moov: Box, ks: seq<Box>, i: nat, gone: nat, base: int, lo: int, hi: int, tag: Buffer,
      n: Node)
    requires i + gone <= |ks| && 0 <= lo <= hi <= |s| && Resited(s, t, moov, ks, i, gone, base, lo, hi, tag)
    requires Reads(s, n) && Apart(s, ks, [moov], lo, hi, n)
    ensures Reads(t, Follow(n, lo, hi, |tag| - (hi - lo)))
  {
    hide WellFormed, Sited, Digest, ChildMoved, AllInBuffer, Reads, Apart, Follow, BytesKept;
    TreeKept(s, t, ks, [moov], lo, hi, |tag| - (hi - lo), n);
  }

  ghost predicate ReadAs(t: Buffer, js: seq<Box>, m: int, c: Child) {
    0 <= m < |js| && AllInBuffer(t, js) && Digest(t, js)[m] == c
  }

  /** Where child `o` went, and what is read there. */
  lemma {:induction false} ResitedChild(
      s: Buffer, t: Buffer, moov: Box, ks: seq<Box>, i: nat, gone: nat, base: int, lo: int, hi: int, tag: Buffer,
        o: nat)
    requires i + gone <= |ks| && gone <= 1 && o < |ks| && (gone == 1 ==> o != i) && AllInBuffer(s, ks)
    requires Resited(s, t, moov, ks, i, gone, base, lo, hi, tag)
    ensures ReadAs(t, NewKids(ks, i, gone, lo, tag, |tag| - (hi - lo)), if o < i then o else o + 1 - gone,
                   ChildMoved(Digest(s, ks)[o], base + lo, |tag| - (hi - lo)))
  {
    hide WellFormed, Sited, Digest, ChildMoved, AllInBuffer;
  }

  /** The pointers of child `c` and those read in child `m` afterwards reach the same chunks. */
  ghost predicate ChunksKeptAt(pre: Buffer, s: Buffer, t: Buffer, post: Buffer, c: Child, js: seq<Box>, m: int) {
    && 0 <= m < |js| && AllInBuffer(t, js)
    && ChunksKept(pre + s + post, pre + t + post, |pre|, |pre| + |s|, c, Digest(t, js)[m])
  }

  /** Chunk pointers follow their bytes in the file around the moov. */
  lemma {:induction false} ResitedKeepsChunks(
      pre: Buffer, s: Buffer, t: Buffer, post: Buffer, moov: Box, ks: seq<Box>, i: nat, gone: nat, lo: int, hi: int,
      tag: Buffer, o: nat)
    requires i + gone <= |ks| && gone <= 1 && 0 <= lo <= hi <= |s| && |t| == |s| + |tag| - (hi - lo)
    requires Resited(s, t, moov, ks, i, gone, |pre|, lo, hi, tag) && o < |ks| && (gone == 1 ==> o != i)
    requires AllInBuffer(s, ks)
    ensures ChunksKeptAt(pre, s, t, post, Digest(s, ks)[o], NewKids(ks, i, gone, lo, tag, |tag| - (hi - lo)),
                         if o < i then o else o + 1 - gone)
  {
    hide Resited, Digest, ChildMoved, ChunksKept, ChildFollows, AllInBuffer, NewKids;
    var d := |tag| - (hi - lo);
    var m := if o < i then o else o + 1 - gone;
    ResitedChild(s, t, moov, ks, i, gone, |pre|, lo, hi, tag, o);
    MovedFollows(Digest(s, ks)[o], |pre| + lo, d, |pre|, |pre| + |s|);
    FollowingKeepsChunks(pre, s, t, post, Digest(s, ks)[o], ChildMoved(Digest(s, ks)[o], |pre| + lo, d), true);
  }

  /** A reader walking the children of moov meets box `n`. */
  ghost predicate Reachable(t: Buffer, a: int, b: int, n: Box) {
    exists js :: Walk(t, a, b, js) && n in js
  }

  /** Two walks from the same place meet the same boxes. */
  lemma {:induction false} WalkPrefix(g: Buffer, t: Buffer, a: int, b: int, ks: seq<Box>, e: int, js: seq<Box>, q: nat)
    requires Walk(g, a, b, ks) && Carried(g, t, a, b, 0) && Walk(t, a, e, js) && b + 8 <= e && q <= |ks|
    ensures q <= |js| && forall p :: 0 <= p < q ==> js[p] == ks[p]
  {
    hide ReadBox, U32;
    if q > 0 {
      WalkPrefix(g, t, a, b, ks, e, js, q - 1);
      StartOfPrefix(a, b, ks, e, js, q - 1);
      assert Sited(g, ks[q - 1]);
      SitedCarried(g, t, a, b, 0, ks[q - 1]);
      assert ks[q - 1].Moved(0) == ks[q - 1] && Sited(t, js[q - 1]);
    }
  }

  lemma {:induction false} StartOfPrefix(a: int, b: int, ks: seq<Box>, e: int, js: seq<Box>, q: nat)
    requires Layout(a, b, ks) && Layout(a, e, js) && b + 8 <= e && q <= |ks|
    requires q <= |js| && forall p :: 0 <= p < q ==> js[p] == ks[p]
    ensures q < |js| && js[q].offset == StartAt(a, ks, q)
  {
    if q > 0 {
      StartOfNext(a, b, ks, q - 1);
      if q < |js| { assert Adjacent(js, q); }
    }
  }

  /** A box put behind spare bytes is out of reach. */
  lemma {:induction false} BehindSlack(g: Buffer, t: Buffer, a: int, b: int, ks: seq<Box>, e: int, n: Box)
    requires Walk(g, a, b, ks) && Carried(g, t, a, b, 0) && EndOf(a, ks) < b && b + 8 <= e && n.offset == b
    ensures !Reachable(t, a, e, n)
  {
    hide ReadBox, U32, Sited;
    if Reachable(t, a, e, n) {
      var js: seq<Box> :| Walk(t, a, e, js) && n in js;
      var m: nat :| m < |js| && js[m] == n;
      WalkPrefix(g, t, a, b, ks, e, js, |ks|);
      StartOfPrefix(a, b, ks, e, js, |ks|);
      assert js[|ks|].offset == EndOf(a, ks);
      if m > |ks| { LayoutBefore(a, e, js, |ks|, m); }
    }
  }

  /**
   Inserting is right exactly when the children fill moov: the code puts the new
   box at moov's end, so spare bytes before it hide it from every reader.
   */
  lemma {:induction false} InsertedIffFlush(s: Buffer, moov: Box, ks: seq<Box>, base: nat, tag: Buffer)
    requires WellFormed(s, moov, ks) && AllInBuffer(s, ks) && IsFirst(ks, UDTA, |ks|) && IsUdta(tag)
    requires DigestFits(Digest(s, ks), base + |s|, |tag|) && Writable(moov.Grown(|tag|))
    ensures Reachable(WriteUdta(s, base, tag), moov.Body(), |s| + |tag|, Box(|s|, |tag|, 8, UDTA))
      <==> EndOf(moov.Body(), ks) == |s|
  {
    hide ReadBox, U32, Digest, Sited, WellFormedChild, Respliced, WriteUdta, Writable, DigestFits, Layout;
    var t, d := WriteUdta(s, base, tag), |tag|;
    if EndOf(moov.Body(), ks) == |s| {
      UdtaInserted(s, moov, ks, base, tag);
      var js := NewKids(ks, |ks|, 0, |s|, tag, d);
      assert js[|ks|] == Box(|s|, |tag|, 8, UDTA);
      assert Walk(t, moov.Body(), |t|, js);
    } else {
      AppendedHidden(s, moov, ks, base, tag);
    }
  }

  lemma {:induction false} AppendedHidden(s: Buffer, moov: Box, ks: seq<Box>, base: nat, tag: Buffer)
    requires WellFormed(s, moov, ks) && AllInBuffer(s, ks) && IsFirst(ks, UDTA, |ks|) && IsUdta(tag)
    requires DigestFits(Digest(s, ks), base + |s|, |tag|) && Writable(moov.Grown(|tag|))
    requires EndOf(moov.Body(), ks) != |s|
    ensures !Reachable(WriteUdta(s, base, tag), moov.Body(), |s| + |tag|, Box(|s|, |tag|, 8, UDTA))
  {
    hide U32, Digest, Sited, WellFormedChild, WriteUdta, DigestFits, ShiftTraks, GrowFrom;
    var g := ShiftChunkOffsets(s, moov, base + |s|, |tag|);
    SlotChosen(s, moov, ks, |ks|, base, tag);
    ChunkOffsetsShifted(s, moov, ks, base + |s|, |tag|);
    AppendedZone(g, moov, tag);
    var t := Splice(GrowFrom(g, [moov], 0, |tag|), |s|, |s|, tag);
    ZoneOfMoov(g, t, moov, |s|, |s|, |tag|);
    BehindSlack(g, t, moov.Body(), |s|, ks, |s| + |tag|, Box(|s|, |tag|, 8, UDTA));
  }

  lemma {:induction false} AppendedZone(g: Buffer, moov: Box, tag: Buffer)
    requires ReadBox(g, 0) == Some(moov) && moov.End() == |g| && HeadersFit(g, [moov])
    requires Writable(moov.Grown(|tag|))
    ensures ZoneEdit(g, Splice(GrowFrom(g, [moov], 0, |tag|), |g|, |g|, tag), [moov], |g|, |g|, |tag|)
  {
    hide U32, GrowFrom, ZoneEdit;
    ShapedOfRead(g, moov);
    GrownAndSpliced(g, [moov], |g|, |g|, tag);
  }

  // ---------------------------------------------------------------- writing the same metadata again

  lemma {:induction false} PutSame(s: Buffer, p: int, b: Buffer)
    requires 0 <= p && p + |b| <= |s| && s[p..p + |b|] == b
    ensures Put(s, p, b) == s
  {
    assert s == s[..p] + s[p..p + |b|] + s[p + |b|..];
  }

  lemma {:induction false} EntryByZero(s: Buffer, p: int, w: Width, from: nat)
    requires 0 <= p && p + w <= |s|
    ensures ShiftEntry(s, p, w, from, 0) == s
  {
    hide U32, U64;
    if Pointer(s, p, w) >= from {
      if w == 4 { Be32OfU32(s, p); } else { Be64OfU64(s, p); }
      PutSame(s, p, s[p..p + w]);
    }
  }

  lemma {:induction false} EntriesByZero(s: Buffer, p: int, n: nat, w: Width, from: nat)
    requires 0 <= p && (n > 0 ==> p + Span(w, n) <= |s|)
    ensures ShiftEntries(s, p, n, w, from, 0) == s
    decreases n
  {
    hide ShiftEntry;
    if n > 0 {
      EntryByZero(s, p, w, from);
      EntriesByZero(s, p + w, n - 1, w, from);
    }
  }

  lemma {:induction false} TrakByZero(s: Buffer, trak: Box, from: nat)
    ensures ShiftTrak(s, trak, from, 0) == s
  {
    hide FindChild, Leaf, ShiftEntries, Count;
    if Leaf(s, trak.Body(), trak.End(), TO_STBL).Some? {
      var stbl := Leaf(s, trak.Body(), trak.End(), TO_STBL).value;
      var stco, co64 := FindChild(s, stbl.Body(), stbl.End(), STCO), FindChild(s, stbl.Body(), stbl.End(), CO64);
      if stco.Some? { EntriesByZero(s, stco.value.Body() + 8, Count(s, stco.value, 4), 4, from); }
      if co64.Some? { EntriesByZero(s, co64.value.Body() + 8, Count(s, co64.value, 8), 8, from); }
    }
  }

  lemma {:induction false} TraksByZero(s: Buffer, pos: int, end: int, from: nat)
    ensures ShiftTraks(s, pos, end, from, 0) == s
    decreases end - pos
  {
    hide ShiftTrak;
    if pos + 8 <= end && ReadBox(s, pos).Some? {
      var b := ReadBox(s, pos).value;
      if b.typ == TRAK { TrakByZero(s, b, from); }
      TraksByZero(s, b.End(), end, from);
    }
  }

  lemma {:induction false} GrowByZero(s: Buffer, k: Box)
    requires Sited(s, k) && (k.hdr == 8 || k.hdr == 16)
    ensures HeadersFit(s, [k]) && GrowFrom(s, [k], 0, 0) == s
  {
    hide U32, U64;
    if k.hdr == 16 {
      Be64OfU64(s, k.offset + 8);
      PutSame(s, k.offset + 8, s[k.offset + 8..k.offset + 16]);
    } else {
      Be32OfU32(s, k.offset);
      PutSame(s, k.offset, s[k.offset..k.offset + 4]);
    }
    assert GrowFrom(s, [k], 1, 0) == s;
  }

  lemma {:induction false} ResplicedSame(t: Buffer, moov: Box, base: nat, lo: nat, hi: nat, tag: Buffer)
    requires HeadersFit(t, [moov]) && lo <= hi <= |t| && t[lo..hi] == tag && Sited(t, moov)
    ensures Respliced(t, moov, base, lo, hi, tag) == t
  {
    hide ShiftTraks, GrowFrom, Sited;
    TraksByZero(t, moov.Body(), moov.End(), base + lo);
    assert HeadersFit(t, [moov]) && [moov][0] == moov;
    GrowByZero(t, moov);
    assert t == t[..lo] + t[lo..hi] + t[hi..];
  }

  /** Where the metadata box stands already, writing it again changes no byte. */
  lemma {:induction false} RewriteSame(
      s: Buffer, t: Buffer, moov: Box, ks: seq<Box>, i: nat, gone: nat, base: nat, lo: int, hi: int, tag: Buffer)
    requires gone <= 1 && i + gone <= |ks| && IsFirst(ks, UDTA, i) && (gone == 0 ==> i == |ks|) && 0 <= lo
    requires Resited(s, t, moov, ks, i, gone, base, lo, hi, tag)
    ensures WriteUdta(t, base, tag) == t
  {
    hide ReadBox, U32, Sited, Digest, Respliced, WriteUdta, Walk, WellFormedChild, TrakChild;
    var d := |tag| - (hi - lo);
    var js := NewKids(ks, i, gone, lo, tag, d);
    var n := Box(lo, |tag|, 8, UDTA);
    assert js[i] == n && IsFirst(js, UDTA, i);
    SlotChosen(t, moov.Grown(d), js, i, base, tag);
    assert Digest(t, js)[i] == ChildOf(t, n);
    ResplicedSame(t, moov.Grown(d), base, lo, lo + |tag|, tag);
  }

  lemma {:induction false} WriteUdtaTwice(s: Buffer, moov: Box, ks: seq<Box>, i: nat, base: nat, tag: Buffer)
    requires WellFormed(s, moov, ks) && AllInBuffer(s, ks) && IsFirst(ks, UDTA, i) && IsUdta(tag)
    requires i == |ks| ==> EndOf(moov.Body(), ks) == |s|
    requires var at, d := (if i < |ks| then ks[i].offset else |s|), |tag| - (if i < |ks| then ks[i].size else 0);
      DigestFits(Digest(s, ks), base + at, d) && Writable(moov.Grown(d))
    ensures WriteUdta(WriteUdta(s, base, tag), base, tag) == WriteUdta(s, base, tag)
  {
    hide ReadBox, U32, WellFormed, Digest, IsUdta, Resited, Respliced, WriteUdta, Writable, DigestFits;
    if i < |ks| {
      UdtaReplaced(s, moov, ks, i, base, tag);
      SlotChosen(s, moov, ks, i, base, tag);
      RewriteSame(s, WriteUdta(s, base, tag), moov, ks, i, 1, base, ks[i].offset, ks[i].End(), tag);
    } else {
      UdtaInserted(s, moov, ks, base, tag);
      RewriteSame(s, WriteUdta(s, base, tag), moov, ks, i, 0, base, |s|, |s|, tag);
    }
  }
}
