/**
 A whole moov box as its buffer. `Digest` lists what a reader finds in its
 children; rewriting the chunk tables moves exactly the pointers, and an edit
 inside the ac-4 sample entry of one trak changes exactly that entry.
 */
module Mp4Moov {
  import opened Options
  import opened Endian
  import opened Mp4Boxes
  import opened Mp4Edits
  import opened Mp4Splice
  import opened Mp4Tables

  /** The buffer is one moov box whose children are `ks`, every trak readable down to its tables. */
  ghost predicate WellFormed(s: Buffer, moov: Box, ks: seq<Box>) {
    && ReadBox(s, 0) == Some(moov) && moov.typ == MOOV && moov.End() == |s|
    && Walk(s, moov.Body(), |s|, ks)
    && forall i :: 0 <= i < |ks| ==> WellFormedChild(s, ks[i])
  }

  ghost predicate WellFormedChild(s: Buffer, k: Box) {
    k.typ == TRAK ==> WellFormedTrak(s, k)
  }

  function ChildOf(s: Buffer, k: Box): Child
    requires InBuffer(s, Some(k))
  {
    if k.typ == TRAK then TrakChild(s, k) else Other(s[k.offset..k.End()])
  }

  ghost predicate AllInBuffer(s: Buffer, ks: seq<Box>) {
    forall i :: 0 <= i < |ks| ==> InBuffer(s, Some(ks[i]))
  }

  /** What a reader finds in the children of moov. */
  function Digest(s: Buffer, ks: seq<Box>): (r: seq<Child>)
    requires AllInBuffer(s, ks)
    ensures |r| == |ks| && forall i :: 0 <= i < |ks| ==> r[i] == ChildOf(s, ks[i])
  {
    seq(|ks|, i requires 0 <= i < |ks| => ChildOf(s, ks[i]))
  }

  lemma {:induction false} WalkInBuffer(s: Buffer, a: int, b: int, ks: seq<Box>)
    requires Walk(s, a, b, ks)
    ensures AllInBuffer(s, ks)
  {
  }

  // ---------------------------------------------------------------- all traks

  /** shiftChunkOffsets from position `pos` of moov's body on. */
  function ShiftTraks(s: Buffer, pos: int, end: int, from: int, delta: int): (r: Buffer)
    ensures |r| == |s|
    decreases end - pos
  {
    if pos + 8 > end then s
    else
      match ReadBox(s, pos)
      case None => s
      case Some(b) =>
        ShiftTraks(if b.typ == TRAK then ShiftTrak(s, b, from, delta) else s, b.End(), end, from, delta)
  }

  function ShiftChunkOffsets(s: Buffer, moov: Box, from: int, delta: int): (r: Buffer)
    ensures |r| == |s|
  {
    ShiftTraks(s, moov.Body(), moov.End(), from, delta)
  }

  function DigestMoved(cs: seq<Child>, from: int, delta: int): (r: seq<Child>)
    ensures |r| == |cs| && forall i :: 0 <= i < |cs| ==> r[i] == ChildMoved(cs[i], from, delta)
  {
    seq(|cs|, i requires 0 <= i < |cs| => ChildMoved(cs[i], from, delta))
  }

  /** Every pointer that has to move still fits its field afterwards. */
  ghost predicate DigestFits(cs: seq<Child>, from: int, delta: int) {
    FitsFrom(cs, 0, from, delta)
  }

  ghost predicate FitsFrom(cs: seq<Child>, j: nat, from: int, delta: int) {
    forall i :: j <= i < |cs| ==> ChildFits(cs[i], from, delta)
  }

  /** Every trak still leads to its ac-4 entry through the same boxes. */
  ghost predicate PathsKept(s: Buffer, t: Buffer, ks: seq<Box>) {
    forall i :: 0 <= i < |ks| && ks[i].typ == TRAK ==> EntryPath(t, ks[i]) == EntryPath(s, ks[i])
  }

  /** A child moved as a whole is read the same way. */
  lemma {:induction false} ChildCarried(s: Buffer, t: Buffer, k: Box, d: int)
    requires InBuffer(s, Some(k)) && WellFormedChild(s, k) && Carried(s, t, k.offset, k.End(), d)
    ensures InBuffer(t, Some(k.Moved(d))) && WellFormedChild(t, k.Moved(d))
    ensures ChildOf(t, k.Moved(d)) == ChildOf(s, k)
  {
    hide TiledPath, Leaf, SameLeaf, Pointers, Bytes, Carried;
    assert Carried(s, t, k.Body(), k.End(), d) by { CarriedPart(s, t, k.offset, k.End(), k.Body(), k.End(), d); }
    if k.typ == TRAK {
      LeafCarried(s, t, k, d, TO_STCO, 4);
      LeafCarried(s, t, k, d, TO_CO64, 8);
      LeafCarried(s, t, k, d, TO_ENTRY, 4);
    } else {
      BytesCarried(s, t, k.offset, k.End(), d);
    }
    assert InBuffer(t, Some(k.Moved(d))) by { CarriedFits(s, t, k, d); }
  }

  lemma {:induction false} CarriedFits(s: Buffer, t: Buffer, k: Box, d: int)
    requires InBuffer(s, Some(k)) && Carried(s, t, k.offset, k.End(), d)
    ensures InBuffer(t, Some(k.Moved(d)))
  {
  }

  lemma {:induction false} LeafCarried(s: Buffer, t: Buffer, k: Box, d: int, path: seq<Hop>, w: Width)
    requires path != [] && TiledPath(s, k.Body(), k.End(), path) && Carried(s, t, k.Body(), k.End(), d)
    ensures TiledPath(t, k.Moved(d).Body(), k.Moved(d).End(), path)
    ensures Pointers(t, Find(t, k.Moved(d), path), w) == Pointers(s, Find(s, k, path), w)
    ensures Bytes(t, Find(t, k.Moved(d), path)) == Bytes(s, Find(s, k, path))
  {
    hide TiledPath, Leaf, SameLeaf, Pointers, Bytes, Carried;
    DescentCarried(s, t, k.Body(), k.End(), d, path);
    SameLeafReads(s, t, Find(s, k, path), Find(t, k.Moved(d), path), w);
  }

  /** Changing the inside of child `j` leaves the walk and every other child alone. */
  lemma {:induction false} OtherChildrenKept(s: Buffer, t: Buffer, moov: Box, ks: seq<Box>, j: nat)
    requires WellFormed(s, moov, ks) && j < |ks|
    requires SameOutside(s, t, ks[j].Body(), ks[j].End()) && WellFormedChild(t, ks[j])
    requires EntryPath(t, ks[j]) == EntryPath(s, ks[j])
    ensures WellFormed(t, moov, ks) && AllInBuffer(s, ks) && AllInBuffer(t, ks)
    ensures forall i :: 0 <= i < |ks| && i != j ==> ChildOf(t, ks[i]) == ChildOf(s, ks[i])
    ensures PathsKept(s, t, ks)
  {
    hide TiledPath, ReadBox, U32, WellFormedTrak, Find, TrakChild, EntryPath;
    WalkInBuffer(s, moov.Body(), |s|, ks);
    forall i | 0 <= i < |ks|
      ensures Sited(t, ks[i]) && WellFormedChild(t, ks[i]) && InBuffer(t, Some(ks[i]))
      ensures i != j ==> ChildOf(t, ks[i]) == ChildOf(s, ks[i])
      ensures ks[i].typ == TRAK ==> EntryPath(t, ks[i]) == EntryPath(s, ks[i])
    {
      ChildAt(s, t, moov, ks, i, j);
    }
    MoovHeaderKept(s, t, moov, ks[j].Body(), ks[j].End());
  }

  lemma {:induction false} ChildAt(s: Buffer, t: Buffer, moov: Box, ks: seq<Box>, i: nat, j: nat)
    requires WellFormed(s, moov, ks) && i < |ks| && j < |ks| && AllInBuffer(s, ks)
    requires SameOutside(s, t, ks[j].Body(), ks[j].End()) && WellFormedChild(t, ks[j])
    ensures Sited(t, ks[i]) && WellFormedChild(t, ks[i]) && InBuffer(t, Some(ks[i]))
    ensures i != j ==> ChildOf(t, ks[i]) == ChildOf(s, ks[i])
    ensures i != j && ks[i].typ == TRAK ==> EntryPath(t, ks[i]) == EntryPath(s, ks[i])
  {
    hide TiledPath, ReadBox, U32, Find, TrakChild, ChildOf, Descent;
    assert Sited(s, ks[i]) && InBuffer(s, Some(ks[i])) && WellFormedChild(s, ks[i]);
    if i == j {
      HeaderKept(s, t, ks[j], ks[j]);
      assert ks[j].Grown(0) == ks[j];
    } else {
      if i < j { LayoutBefore(moov.Body(), |s|, ks, i, j); } else { LayoutBefore(moov.Body(), |s|, ks, j, i); }
      assert Carried(s, t, ks[i].offset, ks[i].End(), 0);
      ChildCarried(s, t, ks[i], 0);
      SitedCarried(s, t, ks[i].offset, ks[i].End(), 0, ks[i]);
      assert ks[i].Moved(0) == ks[i];
      if ks[i].typ == TRAK {
        CarriedPart(s, t, ks[i].offset, ks[i].End(), ks[i].Body(), ks[i].End(), 0);
        DescentStays(s, t, ks[i].Body(), ks[i].End(), TO_ENTRY);
      }
    }
  }

  lemma {:induction false} MoovHeaderKept(s: Buffer, t: Buffer, moov: Box, lo: int, hi: int)
    requires ReadBox(s, 0) == Some(moov) && moov.End() == |s| && moov.Body() <= lo && SameOutside(s, t, lo, hi)
    ensures ReadBox(t, 0) == Some(moov)
  {
    hide U32;
    assert Carried(s, t, 0, moov.Body(), 0);
    if U32(s, 0) != 0 {
      BoxCarried(s, t, 0, 0, moov);
      assert moov.Moved(0) == moov;
    } else {
      WordCarried(s, t, 0, 0, moov.Body());
      CarriedPart(s, t, 0, moov.Body(), 4, moov.Body(), 0);
      WordCarried(s, t, 4, 0, moov.Body());
    }
  }

  // ---------------------------------------------------------------- every other byte

  /** Byte `k` is an entry of a chunk table of some trak. */
  ghost predicate InTables(s: Buffer, ks: seq<Box>, k: int) {
    exists m :: 0 <= m < |ks| && TrakTable(s, ks[m], k)
  }

  ghost predicate TrakTable(s: Buffer, b: Box, k: int) {
    b.typ == TRAK && InTable(s, b, k)
  }

  /** The tables of every trak are the same boxes. */
  ghost predicate AllTablesStay(s: Buffer, t: Buffer, ks: seq<Box>) {
    forall m :: 0 <= m < |ks| && ks[m].typ == TRAK ==> SameTables(s, t, ks[m])
  }

  /** Nothing but entries of chunk tables is different. */
  ghost predicate OnlyTables(s: Buffer, t: Buffer, ks: seq<Box>) {
    |t| == |s| && forall k :: 0 <= k < |s| && !InTables(s, ks, k) ==> SameByte(s, t, k, 0)
  }

  lemma {:induction false} TablesStaySame(s: Buffer, t: Buffer, ks: seq<Box>, k: int)
    requires AllTablesStay(s, t, ks)
    ensures InTables(t, ks, k) <==> InTables(s, ks, k)
  {
    hide Find;
    if InTables(t, ks, k) {
      var m :| 0 <= m < |ks| && TrakTable(t, ks[m], k);
      assert TrakTable(s, ks[m], k);
    }
    if InTables(s, ks, k) {
      var m :| 0 <= m < |ks| && TrakTable(s, ks[m], k);
      assert TrakTable(t, ks[m], k);
    }
  }

  lemma {:induction false} OnlyTablesTwice(s: Buffer, t: Buffer, r: Buffer, ks: seq<Box>)
    requires AllTablesStay(s, t, ks) && OnlyTables(s, t, ks)
    requires AllTablesStay(t, r, ks) && OnlyTables(t, r, ks)
    ensures AllTablesStay(s, r, ks) && OnlyTables(s, r, ks)
  {
    hide Find, InTables;
    forall k | 0 <= k < |s| && !InTables(s, ks, k) ensures SameByte(s, r, k, 0) {
      TablesStaySame(s, t, ks, k);
      assert SameByte(s, t, k, 0) && SameByte(t, r, k, 0);
    }
  }

  /** A trak moved as a whole has its tables in it. */
  lemma {:induction false} TablesCarried(s: Buffer, t: Buffer, k: Box, d: int)
    requires WellFormedTrak(s, k) && Carried(s, t, k.Body(), k.End(), d)
    ensures Find(t, k.Moved(d), TO_STCO) == MovedFind(Find(s, k, TO_STCO), d)
    ensures Find(t, k.Moved(d), TO_CO64) == MovedFind(Find(s, k, TO_CO64), d)
    ensures Within(k.Body(), k.End(), Find(s, k, TO_STCO)) && Within(k.Body(), k.End(), Find(s, k, TO_CO64))
  {
    hide TiledPath, Leaf, Carried, SameLeaf;
    DescentCarried(s, t, k.Body(), k.End(), d, TO_STCO);
    DescentCarried(s, t, k.Body(), k.End(), d, TO_CO64);
    LeafWithin(s, k.Body(), k.End(), TO_STCO);
    LeafWithin(s, k.Body(), k.End(), TO_CO64);
  }

  lemma {:induction false} StayMoved(c: Option<Box>)
    ensures MovedFind(c, 0) == c
  {
  }

  /** Changing the inside of child `j` leaves the tables of the other traks where they are. */
  lemma {:induction false} OtherTablesStay(s: Buffer, t: Buffer, moov: Box, ks: seq<Box>, j: nat)
    requires WellFormed(s, moov, ks) && j < |ks| && SameOutside(s, t, ks[j].Body(), ks[j].End())
    requires ks[j].typ == TRAK ==> SameTables(s, t, ks[j])
    ensures AllTablesStay(s, t, ks)
  {
    hide ReadBox, U32, WellFormedTrak, Find, SameTables;
    forall i | 0 <= i < |ks| && ks[i].typ == TRAK ensures SameTables(s, t, ks[i]) {
      if i != j {
        assert Sited(s, ks[i]) && WellFormedChild(s, ks[i]);
        SitedSize(s, ks[i]);
        LayoutOrder(moov.Body(), |s|, ks);
        assert Carried(s, t, ks[i].Body(), ks[i].End(), 0);
        OneTrakStays(s, t, ks[i]);
      }
    }
  }

  lemma {:induction false} OneTrakStays(s: Buffer, t: Buffer, k: Box)
    requires WellFormedTrak(s, k) && Carried(s, t, k.Body(), k.End(), 0)
    ensures SameTables(s, t, k)
  {
    hide WellFormedTrak, Find, Carried;
    TablesCarried(s, t, k, 0);
    assert k.Moved(0) == k;
    StayMoved(Find(s, k, TO_STCO));
    StayMoved(Find(s, k, TO_CO64));
  }

  /** One step of the walk over the traks. */
  lemma {:induction false} OneTrakBytes(s: Buffer, moov: Box, ks: seq<Box>, j: nat, from: int, delta: int)
    requires WellFormed(s, moov, ks) && j < |ks| && AllInBuffer(s, ks)
    requires ChildFits(Digest(s, ks)[j], from, delta)
    ensures var s' := if ks[j].typ == TRAK then ShiftTrak(s, ks[j], from, delta) else s;
      AllTablesStay(s, s', ks) && OnlyTables(s, s', ks)
  {
    hide ReadBox, U32, WellFormedTrak, ShiftTrak, TrakChild, Find, InTable, Walk, EntryPath;
    var k := ks[j];
    var s' := if k.typ == TRAK then ShiftTrak(s, k, from, delta) else s;
    if k.typ == TRAK {
      assert WellFormedChild(s, k);
      TrakShifted(s, k, from, delta);
      OtherTablesStay(s, s', moov, ks, j);
      forall q | 0 <= q < |s| && !InTables(s, ks, q) ensures SameByte(s, s', q, 0) {
        assert !TrakTable(s, k, q);
      }
    } else {
      assert forall q :: 0 <= q < |s| ==> SameByte(s, s, q, 0);
    }
  }

  lemma {:induction false} ShiftTraksBytes(s: Buffer, moov: Box, ks: seq<Box>, j: nat, from: int, delta: int)
    requires WellFormed(s, moov, ks) && j <= |ks| && AllInBuffer(s, ks)
    requires FitsFrom(Digest(s, ks), j, from, delta)
    ensures var t := ShiftTraks(s, StartAt(moov.Body(), ks, j), |s|, from, delta);
      AllTablesStay(s, t, ks) && OnlyTables(s, t, ks)
    decreases |ks| - j
  {
    hide TiledPath, ReadBox, U32, EntryPath, WellFormedTrak, WellFormedChild, TrakChild, ChildOf, ShiftTrak, ChildMoved,
      ChildFits, AllTablesStay, OnlyTables;
    if j < |ks| {
      var k := ks[j];
      assert Sited(s, k);
      StartOfNext(moov.Body(), |s|, ks, j);
      var s' := if k.typ == TRAK then ShiftTrak(s, k, from, delta) else s;
      OneTrak(s, moov, ks, j, from, delta);
      OneTrakBytes(s, moov, ks, j, from, delta);
      ShiftTraksBytes(s', moov, ks, j + 1, from, delta);
      OnlyTablesTwice(s, s', ShiftTraks(s, StartAt(moov.Body(), ks, j), |s|, from, delta), ks);
    } else {
      NothingDifferent(s, ks);
    }
  }

  lemma {:induction false} NothingDifferent(s: Buffer, ks: seq<Box>)
    ensures AllTablesStay(s, s, ks) && OnlyTables(s, s, ks)
  {
    hide Find;
  }

  /** The first `j` children as they were, the others with their pointers moved. */
  ghost predicate MovedFrom(before: seq<Child>, after: seq<Child>, j: nat, from: int, delta: int) {
    && |after| == |before|
    && forall i :: 0 <= i < |before| ==>
         after[i] == if i < j then before[i] else ChildMoved(before[i], from, delta)
  }

  lemma {:induction false} ShiftTraksReads(s: Buffer, moov: Box, ks: seq<Box>, j: nat, from: int, delta: int)
    requires WellFormed(s, moov, ks) && j <= |ks| && AllInBuffer(s, ks)
    requires FitsFrom(Digest(s, ks), j, from, delta)
    ensures var t := ShiftTraks(s, StartAt(moov.Body(), ks, j), |s|, from, delta);
      && WellFormed(t, moov, ks) && AllInBuffer(t, ks)
      && MovedFrom(Digest(s, ks), Digest(t, ks), j, from, delta)
      && PathsKept(s, t, ks)
    decreases |ks| - j
  {
    hide TiledPath, ReadBox, U32, EntryPath, WellFormedTrak, WellFormedChild, TrakChild, ChildOf, ShiftTrak, ChildMoved,
      ChildFits;
    if j < |ks| {
      var k := ks[j];
      assert Sited(s, k);
      StartOfNext(moov.Body(), |s|, ks, j);
      var s' := if k.typ == TRAK then ShiftTrak(s, k, from, delta) else s;
      OneTrak(s, moov, ks, j, from, delta);
      ShiftTraksReads(s', moov, ks, j + 1, from, delta);
    }
  }

  /** One step of the walk over the traks. */
  lemma {:induction false} OneTrak(s: Buffer, moov: Box, ks: seq<Box>, j: nat, from: int, delta: int)
    requires WellFormed(s, moov, ks) && j < |ks| && AllInBuffer(s, ks)
    requires ChildFits(Digest(s, ks)[j], from, delta)
    ensures var s' := if ks[j].typ == TRAK then ShiftTrak(s, ks[j], from, delta) else s;
      && WellFormed(s', moov, ks) && AllInBuffer(s', ks)
      && Digest(s', ks) == Digest(s, ks)[j := ChildMoved(Digest(s, ks)[j], from, delta)]
      && ReadBox(s, ks[j].offset) == Some(ks[j])
      && PathsKept(s, s', ks)
  {
    hide TiledPath, U32, EntryPath, WellFormedTrak, ShiftTrak, TrakChild;
    var k := ks[j];
    assert Sited(s, k);
    if k.typ == TRAK {
      assert WellFormedChild(s, k);
      TrakShifted(s, k, from, delta);
      OtherChildrenKept(s, ShiftTrak(s, k, from, delta), moov, ks, j);
    }
  }

  /** shiftChunkOffsets moves every chunk pointer of every trak; no other byte is different. */
  lemma {:induction false} ChunkOffsetsShifted(s: Buffer, moov: Box, ks: seq<Box>, from: int, delta: int)
    requires WellFormed(s, moov, ks) && AllInBuffer(s, ks) && DigestFits(Digest(s, ks), from, delta)
    ensures var t := ShiftChunkOffsets(s, moov, from, delta);
      && WellFormed(t, moov, ks) && AllInBuffer(t, ks)
      && Digest(t, ks) == DigestMoved(Digest(s, ks), from, delta)
      && PathsKept(s, t, ks) && AllTablesStay(s, t, ks) && OnlyTables(s, t, ks)
  {
    hide TiledPath, ReadBox, U32, EntryPath, WellFormedTrak, WellFormedChild, TrakChild, ChildOf, ShiftTraks,
      AllTablesStay, OnlyTables;
    ShiftTraksReads(s, moov, ks, 0, from, delta);
    ShiftTraksBytes(s, moov, ks, 0, from, delta);
    FirstStart(moov.Body(), |s|, ks);
  }

  lemma {:induction false} FirstStart(a: int, b: int, ks: seq<Box>)
    requires Layout(a, b, ks)
    ensures StartAt(a, ks, 0) == a
  {
  }

  // ---------------------------------------------------------------- the ac-4 entry

  /** `hs` are moov, trak `j` and the boxes down to its ac-4 entry. */
  ghost predicate EntryChain(s: Buffer, moov: Box, ks: seq<Box>, j: nat, hs: seq<Box>) {
    && j < |ks| && ks[j].typ == TRAK && EntryPath(s, ks[j]).Some?
    && hs == [moov, ks[j]] + EntryPath(s, ks[j]).value
  }

  lemma {:induction false} ChainOnPath(s: Buffer, moov: Box, ks: seq<Box>, j: nat, hs: seq<Box>)
    requires EntryChain(s, moov, ks, j, hs)
    ensures |hs| == 7 && hs[0] == moov && hs[1] == ks[j]
    ensures OnPath(s, ks[j].Body(), ks[j].End(), TO_ENTRY, hs, 2)
  {
    hide FindChild, Descent, OnPath;
    PathsFork();
    assert hs[2..] == EntryPath(s, ks[j]).value;
    OnPathOfDescent(s, ks[j].Body(), ks[j].End(), TO_ENTRY, hs, 2);
  }

  lemma {:induction false} ChainNested(s: Buffer, moov: Box, ks: seq<Box>, j: nat, hs: seq<Box>)
    requires WellFormed(s, moov, ks) && EntryChain(s, moov, ks, j, hs)
    ensures |hs| == 7 && hs[0] == moov && hs[1] == ks[j]
    ensures Nested(hs) && HeadersFit(s, hs) && AllShaped(s, hs, 0)
    ensures forall i :: 0 <= i < |hs| ==> hs[i].Body() <= hs[6].Body() && hs[6].End() <= hs[i].End() <= |s|
    ensures Find(s, ks[j], TO_ENTRY) == Some(hs[6])
    ensures hs[6].offset >= ks[j].Body() && hs[6].End() <= ks[j].End() && Sited(s, hs[6])
  {
    hide FindChild, ReadBox, U32, TiledPath, Descent, OnPath, Sited, Shaped;
    PathsFork();
    assert Sited(s, ks[j]) && WellFormedChild(s, ks[j]);
    ChainOnPath(s, moov, ks, j, hs);
    PathNested(s, ks[j].Body(), ks[j].End(), TO_ENTRY, hs, 2);
    PathEndsAtLeaf(s, ks[j].Body(), ks[j].End(), TO_ENTRY, hs, 2);
    ChainEnds(s, ks[j].Body(), ks[j].End(), TO_ENTRY, hs, 2);
    forall i | 0 <= i < |hs|
      ensures Shaped(s, hs[i]) && 0 <= hs[i].offset && hs[i].Body() <= |s| && (hs[i].hdr == 8 || hs[i].hdr == 16)
    {
      if i == 0 { ShapedOfRead(s, moov); ShapedSize(s, moov); } else { SitedShaped(s, hs[i]); }
    }
    forall i | 0 <= i < |hs|
      ensures hs[i].Body() <= hs[6].Body() && hs[6].End() <= hs[i].End() <= |s|
    {
      if i < 2 { assert hs[i].Body() <= hs[6].offset && hs[6].End() <= hs[1].End() <= hs[i].End(); }
    }
  }

  lemma {:induction false} ShapedSize(s: Buffer, k: Box)
    requires Shaped(s, k)
    ensures 0 <= k.offset && k.Body() <= |s| && 8 <= k.hdr && (k.hdr == 8 || k.hdr == 16)
  {
  }

  lemma {:induction false} SitedShaped(s: Buffer, k: Box)
    requires Sited(s, k)
    ensures Shaped(s, k) && 0 <= k.offset && 8 <= k.hdr <= k.size && k.Body() <= |s| && (k.hdr == 8 || k.hdr == 16)
  {
    ShapedOfRead(s, k);
  }

  lemma {:induction false} ChainEnds(s: Buffer, a: int, b: int, path: seq<Hop>, hs: seq<Box>, i: nat)
    requires TiledPath(s, a, b, path) && OnPath(s, a, b, path, hs, i) && path != []
    ensures forall q :: i <= q < |hs| ==> hs[|hs| - 1].End() <= hs[q].End()
    decreases |path|
  {
    hide FindChild, ReadBox, U32, Sited, Tiled;
    if |path| > 1 {
      var c := hs[i];
      ChainEnds(s, c.Body() + path[0].skip, c.End(), path[1..], hs, i + 1);
      assert TiledPath(s, c.Body() + path[0].skip, c.End(), path[1..]);
      FoundSited(s, c.Body() + path[0].skip, c.End(), path[1].typ);
    }
  }

  /** The entry of trak `j` replaced. */
  function EntryReplaced(cs: seq<Child>, j: nat, entry: Buffer): seq<Child>
    requires j < |cs|
  {
    cs[j := match cs[j]
            case Trak(stco, co64, _) => Trak(stco, co64, Some(entry))
            case Other(b) => Other(b)]
  }

  /** An edit inside the ac-4 entry of one trak changes nothing else a reader finds in it. */
  lemma {:induction false} TrakEdited(s: Buffer, t: Buffer, k: Box, l: Box, d: int)
    requires WellFormedTrak(s, k) && Find(s, k, TO_ENTRY) == Some(l)
    requires EditedInside(s, t, k.Body(), k.End(), TO_ENTRY, d) && EditFits(s, k.Body(), k.End(), TO_ENTRY, d)
    ensures WellFormedTrak(t, k.Grown(d)) && Find(t, k.Grown(d), TO_ENTRY) == Some(l.Grown(d))
    ensures TrakChild(s, k).Trak?
    ensures TrakChild(t, k.Grown(d)) == TrakChild(s, k).(entry := Bytes(t, Some(l.Grown(d))))
    ensures EntryPath(s, k).Some? && EntryPath(t, k.Grown(d)) == Some(GrownList(EntryPath(s, k).value, d))
  {
    hide FindChild, ReadBox, U32, TiledPath, Leaf, Descent, EditedInside, EditFits, Pointers, SameLeaf;
    PathsFork();
    LeavesDiffer();
    DescentOfEdited(s, t, k.Body(), k.End(), TO_ENTRY, d);
    DescentGrown(s, t, k.Body(), k.End(), TO_ENTRY, d);
    OtherLeavesKept(s, t, k, TO_ENTRY, TO_STCO, d);
    OtherLeavesKept(s, t, k, TO_ENTRY, TO_CO64, d);
    SameLeafReads(s, t, Find(s, k, TO_STCO), Find(t, k.Grown(d), TO_STCO), 4);
    SameLeafReads(s, t, Find(s, k, TO_CO64), Find(t, k.Grown(d), TO_CO64), 8);
  }

  /** Bytes of the entry changed in place. */
  lemma {:induction false} EntryChangedInPlace(s: Buffer, t: Buffer, moov: Box, ks: seq<Box>, j: nat, hs: seq<Box>)
    requires WellFormed(s, moov, ks) && EntryChain(s, moov, ks, j, hs) && |hs| == 7
    requires SameOutside(s, t, hs[6].Body(), hs[6].End())
    ensures WellFormed(t, moov, ks) && AllInBuffer(s, ks) && AllInBuffer(t, ks) && PathsKept(s, t, ks)
    ensures 0 <= hs[6].offset <= hs[6].End() <= |t|
    ensures Digest(t, ks) == EntryReplaced(Digest(s, ks), j, t[hs[6].offset..hs[6].End()])
    ensures AllTablesStay(s, t, ks)
  {
    hide FindChild, ReadBox, U32, TiledPath, Descent, Leaf, EditedInside, EditFits, Pointers, Sited, SameTables;
    PathsFork();
    var k := ks[j];
    assert WellFormedChild(s, k);
    WalkInBuffer(s, moov.Body(), |s|, ks);
    ChainNested(s, moov, ks, j, hs);
    SitedSize(s, hs[6]);
    ChangedInLeaf(s, t, k.Body(), k.End(), TO_ENTRY);
    TrakEdited(s, t, k, hs[6], 0);
    assert k.Grown(0) == k && hs[6].Grown(0) == hs[6];
    GrownByNothing(EntryPath(s, k).value);
    OtherChildrenKept(s, t, moov, ks, j);
    LeavesDiffer();
    LeavesStay(s, t, k, TO_ENTRY, hs[6]);
    SitedSize(s, k);
    assert SameOutside(s, t, k.Body(), k.End());
    OtherTablesStay(s, t, moov, ks, j);
  }

  lemma {:induction false} GrownByNothing(cs: seq<Box>)
    ensures GrownList(cs, 0) == cs
  {
    assert forall i :: 0 <= i < |cs| ==> cs[i].Grown(0) == cs[i];
  }

  /** The chunk tables stand in front of [lo, hi) and stay, or behind it and move by `d`. */
  ghost predicate TablesAside(s: Buffer, t: Buffer, ks: seq<Box>, js: seq<Box>, lo: int, hi: int, d: int) {
    && |js| == |ks|
    && forall m :: 0 <= m < |ks| ==>
      js[m].typ == ks[m].typ && (ks[m].typ == TRAK ==> TrakAside(s, t, ks[m], js[m], lo, hi, d))
  }

  ghost predicate TrakAside(s: Buffer, t: Buffer, k: Box, l: Box, lo: int, hi: int, d: int) {
    && Aside(Find(s, k, TO_STCO), Find(t, l, TO_STCO), lo, hi, d)
    && Aside(Find(s, k, TO_CO64), Find(t, l, TO_CO64), lo, hi, d)
  }

  /**
   Every byte outside [lo, hi), the headers of `hs` and the entries of the chunk
   tables is there: in front at its place, behind `d` bytes further on.
   */
  ghost predicate BytesKept(s: Buffer, t: Buffer, ks: seq<Box>, hs: seq<Box>, lo: int, hi: int, d: int) {
    && |t| == |s| + d
    && forall k :: 0 <= k < |s| && !(lo <= k < hi) && Clear(hs, 0, k) && !InTables(s, ks, k) ==>
         SameByte(s, t, k, if k < lo then 0 else d)
  }

  /** The rest of moov: every other byte, and the tables at their places. */
  ghost predicate RestKept(
      s: Buffer, t: Buffer, ks: seq<Box>, js: seq<Box>, hs: seq<Box>, lo: int, hi: int, d: int)
  {
    BytesKept(s, t, ks, hs, lo, hi, d) && TablesAside(s, t, ks, js, lo, hi, d)
  }

  lemma {:induction false} ZoneKeepsBytes(
      s: Buffer, t: Buffer, ks: seq<Box>, hs: seq<Box>, lo: int, hi: int, a: int, b: int, d: int)
    requires ZoneEdit(s, t, hs, lo, hi, d) && a <= lo && hi <= b
    ensures BytesKept(s, t, ks, hs, a, b, d)
  {
    hide Sited, InTables;
    forall k | 0 <= k < |s| && !(a <= k < b) && Clear(hs, 0, k) ensures SameByte(s, t, k, if k < a then 0 else d) {
    }
  }

  /** The tables around an edit inside the ac-4 entry of trak `j`. */
  lemma {:induction false} EntryEditedTables(
      s: Buffer, t: Buffer, moov: Box, ks: seq<Box>, j: nat, hs: seq<Box>, lo: int, hi: int, d: int)
    requires WellFormed(s, moov, ks) && EntryChain(s, moov, ks, j, hs) && ZoneEdit(s, t, hs, lo, hi, d) && |hs| == 7
    ensures TablesAside(s, t, ks, EditedList(ks, j, d), hs[6].offset, hs[6].End(), d)
  {
    hide FindChild, ReadBox, U32, Find, Sited, WellFormedTrak, TrakAside, ZoneEdit;
    ChainNested(s, moov, ks, j, hs);
    MoovGrown(s, t, moov, ks, j, hs, lo, hi, d);
    var js := EditedList(ks, j, d);
    forall m | 0 <= m < |ks| && ks[m].typ == TRAK ensures TrakAside(s, t, ks[m], js[m], hs[6].offset, hs[6].End(), d) {
      assert js[m] == AfterEdit(ks[m], m, j, d);
      if m == j {
        OwnTablesAside(s, t, moov, ks, j, hs, lo, hi, d);
      } else {
        assert WellFormedChild(s, ks[m]);
        KidKept(s, t, moov.Body(), |s|, ks, j, m, d);
        TrakBesideEdit(s, t, moov.Body(), ks, j, m, d, hs[6]);
      }
    }
  }

  lemma {:induction false} TrakBesideEdit(s: Buffer, t: Buffer, a: int, ks: seq<Box>, j: nat, m: nat, d: int, l: Box)
    requires Walk(s, a, |s|, ks) && j < |ks| && m < |ks| && m != j && WellFormedTrak(s, ks[m])
    requires Carried(s, t, ks[m].offset, ks[m].End(), if m < j then 0 else d)
    requires ks[j].Body() <= l.offset && l.End() <= ks[j].End()
    ensures TrakAside(s, t, ks[m], AfterEdit(ks[m], m, j, d), l.offset, l.End(), d)
  {
    hide ReadBox, U32, Find, WellFormedTrak;
    var e := if m < j then 0 else d;
    assert Sited(s, ks[m]) && Sited(s, ks[j]);
    SitedSize(s, ks[m]);
    SitedSize(s, ks[j]);
    CarriedPart(s, t, ks[m].offset, ks[m].End(), ks[m].Body(), ks[m].End(), e);
    TablesCarried(s, t, ks[m], e);
    if m < j { LayoutBefore(a, |s|, ks, m, j); } else { LayoutBefore(a, |s|, ks, j, m); }
    assert AfterEdit(ks[m], m, j, d) == ks[m].Moved(e);
    StayMoved(Find(s, ks[m], TO_STCO));
    StayMoved(Find(s, ks[m], TO_CO64));
  }

  /** In the edited trak the tables stand beside stsd. */
  lemma {:induction false} OwnTablesAside(
      s: Buffer, t: Buffer, moov: Box, ks: seq<Box>, j: nat, hs: seq<Box>, lo: int, hi: int, d: int)
    requires WellFormed(s, moov, ks) && EntryChain(s, moov, ks, j, hs) && ZoneEdit(s, t, hs, lo, hi, d) && |hs| == 7
    ensures TrakAside(s, t, ks[j], ks[j].Grown(d), hs[6].offset, hs[6].End(), d)
  {
    hide FindChild, ReadBox, U32, TiledPath, Descent, OnPath, Leaf, EditedInside, EditFits, Sited, Aside, TrakAside;
    var k := ks[j];
    ChainNested(s, moov, ks, j, hs);
    ChainOnPath(s, moov, ks, j, hs);
    assert WellFormedChild(s, k);
    PathsFork();
    ZoneInside(s, t, k.Body(), k.End(), TO_ENTRY, hs, 2, lo, hi, d);
    TablesBesideEntry(s, t, k, hs[6], d);
  }

  lemma {:induction false} TablesBesideEntry(s: Buffer, t: Buffer, k: Box, l: Box, d: int)
    requires WellFormedTrak(s, k) && Find(s, k, TO_ENTRY) == Some(l)
    requires EditedInside(s, t, k.Body(), k.End(), TO_ENTRY, d)
    ensures TrakAside(s, t, k, k.Grown(d), l.offset, l.End(), d)
  {
    hide FindChild, ReadBox, U32, TiledPath, Descent, Leaf, EditedInside, Sited, Aside;
    PathsFork();
    LeavesDiffer();
    LeafBeside(s, t, k.Body(), k.End(), TO_ENTRY, d, TO_STCO, 3);
    LeafBeside(s, t, k.Body(), k.End(), TO_ENTRY, d, TO_CO64, 3);
    StsdAround(s, k, l);
    var c := Leaf(s, k.Body(), k.End(), TO_ENTRY[..4]).value;
    StillAside(Find(s, k, TO_STCO), Find(t, k.Grown(d), TO_STCO), c, l, d);
    StillAside(Find(s, k, TO_CO64), Find(t, k.Grown(d), TO_CO64), c, l, d);
  }

  /** Where nothing changed everything is kept. */
  lemma {:induction false} RestOfItself(s: Buffer, moov: Box, ks: seq<Box>, j: nat, hs: seq<Box>)
    requires WellFormed(s, moov, ks) && EntryChain(s, moov, ks, j, hs) && |hs| == 7
    ensures RestKept(s, s, ks, ks, hs, hs[6].offset, hs[6].End(), 0)
  {
    hide FindChild, ReadBox, U32, Find, Sited, WellFormedTrak, TrakAside, EditedInside, EditFits, InTables;
    ChainNested(s, moov, ks, j, hs);
    forall m | 0 <= m < |ks| && ks[m].typ == TRAK ensures TrakAside(s, s, ks[m], ks[m], hs[6].offset, hs[6].End(), 0) {
      assert WellFormedChild(s, ks[m]) && Sited(s, ks[m]);
      SitedSize(s, ks[m]);
      if m == j {
        EntryUnchanged(s, ks[j], hs[6]);
        TablesBesideEntry(s, s, ks[j], hs[6], 0);
        assert ks[j].Grown(0) == ks[j];
      } else {
        assert Carried(s, s, ks[m].offset, ks[m].End(), 0);
        TrakBesideEdit(s, s, moov.Body(), ks, j, m, 0, hs[6]);
        assert AfterEdit(ks[m], m, j, 0) == ks[m];
      }
    }
  }

  lemma {:induction false} EntryUnchanged(s: Buffer, k: Box, l: Box)
    requires WellFormedTrak(s, k) && Find(s, k, TO_ENTRY) == Some(l)
    ensures EditedInside(s, s, k.Body(), k.End(), TO_ENTRY, 0)
  {
    hide TiledPath, Leaf, EditedInside, EditFits;
    PathsFork();
    ChangedInLeaf(s, s, k.Body(), k.End(), TO_ENTRY);
  }

  lemma {:induction false} GrownClear(hs: seq<Box>, d: int, k: int)
    ensures Clear(GrownList(hs, d), 0, k) <==> Clear(hs, 0, k)
  {
    var gs := GrownList(hs, d);
    if Clear(gs, 0, k) {
      forall j | 0 <= j < |hs| ensures !(hs[j].offset <= k < hs[j].Body()) {
        assert gs[j] == hs[j].Grown(d);
      }
    }
  }

  /** The headers of grown boxes are where they were. */
  lemma {:induction false} RestGrown(
      s: Buffer, t: Buffer, ks: seq<Box>, js: seq<Box>, hs: seq<Box>, e: int, lo: int, hi: int, d: int)
    requires RestKept(s, t, ks, js, hs, lo, hi, d)
    ensures RestKept(s, t, ks, js, GrownList(hs, e), lo, hi, d)
  {
    hide InTables, TablesAside, Clear;
    forall k | 0 <= k < |s| && !(lo <= k < hi) && Clear(GrownList(hs, e), 0, k) && !InTables(s, ks, k)
      ensures SameByte(s, t, k, if k < lo then 0 else d)
    {
      GrownClear(hs, e, k);
    }
  }

  /** Only table bytes become table bytes. */
  lemma {:induction false} TableFollows(
      s: Buffer, m: Buffer, ks: seq<Box>, ms: seq<Box>, lo: int, hi: int, d: int, k: int)
    requires TablesAside(s, m, ks, ms, lo, hi, d) && lo <= hi + d && (k < lo || hi <= k)
    ensures InTables(m, ms, if k < lo then k else k + d) ==> InTables(s, ks, k)
  {
    hide Find;
    var q := if k < lo then k else k + d;
    if InTables(m, ms, q) {
      var i :| 0 <= i < |ms| && TrakTable(m, ms[i], q);
      assert TrakAside(s, m, ks[i], ms[i], lo, hi, d);
      TableBack(Find(s, ks[i], TO_STCO), Find(m, ms[i], TO_STCO), lo, hi, d, k);
      TableBack(Find(s, ks[i], TO_CO64), Find(m, ms[i], TO_CO64), lo, hi, d, k);
      assert TrakTable(s, ks[i], k);
    }
  }

  lemma {:induction false} TableBack(x: Option<Box>, y: Option<Box>, lo: int, hi: int, d: int, k: int)
    requires Aside(x, y, lo, hi, d) && lo <= hi + d && (k < lo || hi <= k)
    requires y.Some? ==> 8 <= y.value.hdr
    ensures TableAt(y, if k < lo then k else k + d) ==> TableAt(x, k)
  {
  }

  lemma {:induction false} AsideTwice(x: Option<Box>, y: Option<Box>, z: Option<Box>, lo: int, hi: int, d: int, e: int)
    requires Aside(x, y, lo, hi, d) && Aside(y, z, lo, hi + d, e) && lo <= hi + d
    requires y.Some? ==> 8 <= y.value.size
    ensures Aside(x, z, lo, hi, d + e)
  {
  }

  /** Two steps at the same entry. */
  lemma {:induction false} RestTwice(
      s: Buffer, m: Buffer, t: Buffer, ks: seq<Box>, ms: seq<Box>, js: seq<Box>, hs: seq<Box>, lo: int, hi: int, d: int,
      e: int)
    requires RestKept(s, m, ks, ms, hs, lo, hi, d) && RestKept(m, t, ms, js, hs, lo, hi + d, e) && lo <= hi + d
    requires forall i :: 0 <= i < |hs| ==> hs[i].Body() <= hi + d
    ensures RestKept(s, t, ks, js, hs, lo, hi, d + e)
  {
    hide InTables, Find, Aside, Clear;
    forall k | 0 <= k < |s| && !(lo <= k < hi) && Clear(hs, 0, k) && !InTables(s, ks, k)
      ensures SameByte(s, t, k, if k < lo then 0 else d + e)
    {
      var q := if k < lo then k else k + d;
      TableFollows(s, m, ks, ms, lo, hi, d, k);
      assert SameByte(s, m, k, if k < lo then 0 else d);
      if k >= lo { ClearBehind(hs, hi + d, q); }
      assert SameByte(m, t, q, if q < lo then 0 else e);
    }
    forall i | 0 <= i < |ks| && ks[i].typ == TRAK ensures TrakAside(s, t, ks[i], js[i], lo, hi, d + e) {
      assert TrakAside(s, m, ks[i], ms[i], lo, hi, d) && TrakAside(m, t, ms[i], js[i], lo, hi + d, e);
      AsideTwice(Find(s, ks[i], TO_STCO), Find(m, ms[i], TO_STCO), Find(t, js[i], TO_STCO), lo, hi, d, e);
      AsideTwice(Find(s, ks[i], TO_CO64), Find(m, ms[i], TO_CO64), Find(t, js[i], TO_CO64), lo, hi, d, e);
    }
  }

  lemma {:induction false} StillAside(x: Option<Box>, y: Option<Box>, c: Box, l: Box, d: int)
    requires Aside(x, y, c.offset, c.End(), d) && c.offset <= l.offset && l.End() <= c.End()
    ensures Aside(x, y, l.offset, l.End(), d)
  {
  }

  /** The entry lies in stsd. */
  lemma {:induction false} StsdAround(s: Buffer, k: Box, l: Box)
    requires WellFormedTrak(s, k) && Find(s, k, TO_ENTRY) == Some(l)
    ensures Leaf(s, k.Body(), k.End(), TO_ENTRY[..4]).Some?
    ensures var c := Leaf(s, k.Body(), k.End(), TO_ENTRY[..4]).value; c.offset <= l.offset && l.End() <= c.End()
  {
    hide FindChild, ReadBox, U32, TiledPath, Leaf, Sited, Tiled;
    PathsFork();
    assert TO_ENTRY[..4] == TO_STSD && TO_STSD + [Hop(AC_4, 0)] == TO_ENTRY;
    LeafThen(s, k.Body(), k.End(), TO_STSD, Hop(AC_4, 0));
    TiledPathCut(s, k.Body(), k.End(), TO_STSD, Hop(AC_4, 0));
    var c := Leaf(s, k.Body(), k.End(), TO_STSD).value;
    FoundSited(s, c.Body() + 8, c.End(), AC_4);
    InBufferSize(s, k, c);
  }

  lemma {:induction false} InBufferSize(s: Buffer, k: Box, c: Box)
    requires Leaf(s, k.Body(), k.End(), TO_STSD) == Some(c)
    ensures 8 <= c.hdr && 0 <= c.offset
  {
    PathsFork();
  }

  /** Only table entries differ before, so the rest is kept from there on too. */
  lemma {:induction false} RestBehindTables(
      s: Buffer, g: Buffer, t: Buffer, ks: seq<Box>, js: seq<Box>, hs: seq<Box>, lo: int, hi: int, d: int)
    requires AllTablesStay(s, g, ks) && OnlyTables(s, g, ks) && RestKept(g, t, ks, js, hs, lo, hi, d)
    ensures RestKept(s, t, ks, js, hs, lo, hi, d)
  {
    hide BytesKept, TablesAside, AllTablesStay, OnlyTables;
    BytesBehindTables(s, g, t, ks, hs, lo, hi, d);
    TablesFrom(s, g, t, ks, js, lo, hi, d);
  }

  lemma {:induction false} BytesBehindTables(
      s: Buffer, g: Buffer, t: Buffer, ks: seq<Box>, hs: seq<Box>, lo: int, hi: int, d: int)
    requires AllTablesStay(s, g, ks) && OnlyTables(s, g, ks) && BytesKept(g, t, ks, hs, lo, hi, d)
    ensures BytesKept(s, t, ks, hs, lo, hi, d)
  {
    hide Find, InTables;
    forall k | 0 <= k < |s| && !(lo <= k < hi) && Clear(hs, 0, k) && !InTables(s, ks, k)
      ensures SameByte(s, t, k, if k < lo then 0 else d)
    {
      TablesStaySame(s, g, ks, k);
      assert SameByte(s, g, k, 0) && SameByte(g, t, k, if k < lo then 0 else d);
    }
  }

  lemma {:induction false} TablesFrom(
      s: Buffer, g: Buffer, t: Buffer, ks: seq<Box>, js: seq<Box>, lo: int, hi: int, d: int)
    requires AllTablesStay(s, g, ks) && TablesAside(g, t, ks, js, lo, hi, d)
    ensures TablesAside(s, t, ks, js, lo, hi, d)
  {
    hide Find, Aside;
    forall m | 0 <= m < |ks| && ks[m].typ == TRAK ensures TrakAside(s, t, ks[m], js[m], lo, hi, d) {
      assert SameTables(s, g, ks[m]) && TrakAside(g, t, ks[m], js[m], lo, hi, d);
    }
  }

  /** The same behind a change inside [lo, hi) alone. */
  lemma {:induction false} RestBehindChange(
      s: Buffer, v: Buffer, t: Buffer, ks: seq<Box>, js: seq<Box>, hs: seq<Box>, lo: int, hi: int, d: int)
    requires AllTablesStay(s, v, ks) && SameOutside(s, v, lo, hi) && RestKept(v, t, ks, js, hs, lo, hi, d)
    ensures RestKept(s, t, ks, js, hs, lo, hi, d)
  {
    hide Find, InTables, Aside;
    forall k | 0 <= k < |s| && !(lo <= k < hi) && Clear(hs, 0, k) && !InTables(s, ks, k)
      ensures SameByte(s, t, k, if k < lo then 0 else d)
    {
      TablesStaySame(s, v, ks, k);
      assert SameByte(s, v, k, 0) && SameByte(v, t, k, if k < lo then 0 else d);
    }
    TablesFrom(s, v, t, ks, js, lo, hi, d);
  }

  /**
   Every child but the edited one is read as before; the edited trak keeps its
   tables, and every byte outside the entry and the headers around it is kept.
   */
  lemma {:induction false} EntryEditedReads(
      s: Buffer, t: Buffer, moov: Box, ks: seq<Box>, j: nat, hs: seq<Box>, lo: int, hi: int, d: int)
    requires WellFormed(s, moov, ks) && EntryChain(s, moov, ks, j, hs) && ZoneEdit(s, t, hs, lo, hi, d)
    ensures |hs| == 7
    ensures var js := EditedList(ks, j, d);
      && WellFormed(t, moov.Grown(d), js) && AllInBuffer(s, ks) && AllInBuffer(t, js)
      && hs[6].End() + d <= |t| && 0 <= hs[6].offset <= hs[6].End() + d
      && Digest(t, js) == EntryReplaced(Digest(s, ks), j, t[hs[6].offset..hs[6].End() + d])
    ensures EntryChain(t, moov.Grown(d), EditedList(ks, j, d), j, GrownList(hs, d))
    ensures hs[6].Body() <= lo && hi <= hs[6].End() ==>
      RestKept(s, t, ks, EditedList(ks, j, d), hs, hs[6].offset, hs[6].End(), d)
  {
    hide FindChild, ReadBox, U32, TiledPath, Descent, OnPath, Sited, WellFormedTrak, TrakChild, ChildOf, Leaf,
      EditedInside, EditFits, RestKept, EntryPath;
    ChainNested(s, moov, ks, j, hs);
    RestOfEdit(s, t, moov, ks, j, hs, lo, hi, d);
    SitedShaped(s, hs[6]);
    WalkInBuffer(s, moov.Body(), |s|, ks);
    EditedTrak(s, t, moov, ks, j, hs, lo, hi, d);
    MoovGrown(s, t, moov, ks, j, hs, lo, hi, d);
    var js := EditedList(ks, j, d);
    KidsAroundGrown(s, t, moov.Body(), |s|, ks, j, d);
    forall i | 0 <= i < |js|
      ensures WellFormedChild(t, js[i]) && InBuffer(t, Some(js[i]))
      ensures i != j ==> ChildOf(t, js[i]) == ChildOf(s, ks[i])
    {
      if i != j {
        assert WellFormedChild(s, ks[i]);
        KidKept(s, t, moov.Body(), |s|, ks, j, i, d);
        ChildCarried(s, t, ks[i], if i < j then 0 else d);
        assert js[i] == ks[i].Moved(if i < j then 0 else d);
      }
    }
    assert GrownList(hs, d) == [moov.Grown(d), js[j]] + EntryPath(t, js[j]).value;
  }

  lemma {:induction false} RestOfEdit(
      s: Buffer, t: Buffer, moov: Box, ks: seq<Box>, j: nat, hs: seq<Box>, lo: int, hi: int, d: int)
    requires WellFormed(s, moov, ks) && EntryChain(s, moov, ks, j, hs) && ZoneEdit(s, t, hs, lo, hi, d) && |hs| == 7
    ensures hs[6].Body() <= lo && hi <= hs[6].End() ==>
      RestKept(s, t, ks, EditedList(ks, j, d), hs, hs[6].offset, hs[6].End(), d)
  {
    hide ReadBox, U32, WellFormed, EntryChain, ZoneEdit, BytesKept, TablesAside;
    ChainNested(s, moov, ks, j, hs);
    SitedSize(s, hs[6]);
    EntryEditedTables(s, t, moov, ks, j, hs, lo, hi, d);
    if hs[6].Body() <= lo && hi <= hs[6].End() {
      ZoneKeepsBytes(s, t, ks, hs, lo, hi, hs[6].offset, hs[6].End(), d);
    }
  }

  lemma {:induction false} MoovGrown(
      s: Buffer, t: Buffer, moov: Box, ks: seq<Box>, j: nat, hs: seq<Box>, lo: int, hi: int, d: int)
    requires WellFormed(s, moov, ks) && EntryChain(s, moov, ks, j, hs) && ZoneEdit(s, t, hs, lo, hi, d) && |hs| == 7
    requires Nested(hs) && forall i :: 0 <= i < |hs| ==>
      hs[i].Body() <= hs[6].Body() && hs[6].End() <= hs[i].End() <= |s|
    ensures ReadBox(t, 0) == Some(moov.Grown(d)) && moov.Grown(d).End() == |t|
    ensures Carried(s, t, moov.Body(), ks[j].offset, 0) && Sited(t, ks[j].Grown(d))
    ensures Carried(s, t, ks[j].End(), |s|, d)
  {
    hide FindChild, U32, TiledPath, Descent, OnPath, WellFormedTrak;
    assert hs[0] == moov && hs[1] == ks[j];
    assert Sited(t, hs[0].Grown(d)) && Sited(t, hs[1].Grown(d));
    SitedSize(s, ks[j]);
    forall k | moov.Body() <= k < ks[j].offset ensures SameByte(s, t, k, 0) {
      assert Clear(hs, 0, k);
    }
    CarriedPart(s, t, hi, |s|, ks[j].End(), |s|, d);
  }

  lemma {:induction false} EditedTrak(
      s: Buffer, t: Buffer, moov: Box, ks: seq<Box>, j: nat, hs: seq<Box>, lo: int, hi: int, d: int)
    requires WellFormed(s, moov, ks) && EntryChain(s, moov, ks, j, hs) && ZoneEdit(s, t, hs, lo, hi, d) && |hs| == 7
    requires InBuffer(s, Some(ks[j]))
    ensures var k := ks[j].Grown(d);
      && WellFormedChild(t, k) && InBuffer(t, Some(k))
      && InBuffer(t, Some(hs[6].Grown(d)))
      && ChildOf(s, ks[j]).Trak?
      && ChildOf(t, k) == ChildOf(s, ks[j]).(entry := Bytes(t, Some(hs[6].Grown(d))))
      && EntryPath(t, k) == Some(GrownList(EntryPath(s, ks[j]).value, d))
  {
    hide FindChild, ReadBox, U32, TiledPath, Descent, OnPath, Leaf, EditedInside, EditFits, TrakChild, SameLeaf,
      WellFormedTrak;
    PathsFork();
    var k := ks[j];
    ChainNested(s, moov, ks, j, hs);
    ChainOnPath(s, moov, ks, j, hs);
    assert WellFormedChild(s, k) && Sited(t, hs[1].Grown(d));
    SitedSize(t, hs[1].Grown(d));
    EntryPathTiled(s, k);
    ZoneInside(s, t, k.Body(), k.End(), TO_ENTRY, hs, 2, lo, hi, d);
    TrakEdited(s, t, k, hs[6], d);
  }

  lemma {:induction false} EntryPathTiled(s: Buffer, trak: Box)
    requires WellFormedTrak(s, trak)
    ensures TiledPath(s, trak.Body(), trak.End(), TO_ENTRY)
  {
    hide TiledPath;
  }
}
