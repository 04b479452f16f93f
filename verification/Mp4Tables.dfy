/**
 Chunk offset tables (ISO/IEC 14496-12, section 8.7.5) and their rewriting by
 shiftChunkOffsets in go_backend/ac4_config.go. The functions give the buffer
 the loops produce; `Digest` is what a reader of the moov finds: the chunk
 pointers and ac-4 entry of every trak, and the bytes of every other child.
 */
module Mp4Tables {
  import opened Options
  import opened Endian
  import opened Mp4Boxes
  import opened Mp4Edits

  const TO_STBL: seq<Hop> := [Hop(MDIA, 0), Hop(MINF, 0), Hop(STBL, 0)]
  const TO_STCO: seq<Hop> := TO_STBL + [Hop(STCO, 0)]
  const TO_CO64: seq<Hop> := TO_STBL + [Hop(CO64, 0)]
  const TO_STSD: seq<Hop> := TO_STBL + [Hop(STSD, 8)]
  const TO_ENTRY: seq<Hop> := TO_STSD + [Hop(AC_4, 0)]

  /** Entry widths: 4 bytes in stco, 8 in co64. */
  type Width = w: int | w == 4 || w == 8 witness 4

  /** The bytes of `n` entries. */
  function Span(w: Width, n: nat): nat {
    if w == 4 then 4 * n else 8 * n
  }

  // ---------------------------------------------------------------- one table

  /** The pointer stored at `p`; co64 values are read as int64. */
  function Pointer(s: Buffer, p: int, w: Width): int
    requires 0 <= p && p + w <= |s|
  {
    if w == 4 then U32(s, p) else Signed64(U64(s, p))
  }

  function Encoded(v: int, w: Width): (r: Buffer)
    ensures |r| == w
  {
    if w == 4 then Be32(v) else Be64(v)
  }

  /** The number of entries the loop visits: the declared count, cut off at the end of the box. */
  function Count(s: Buffer, box: Box, w: Width): (n: nat)
    requires 0 <= box.offset && 8 <= box.hdr && box.End() <= |s|
    ensures n > 0 ==> box.Body() + 8 + Span(w, n) <= box.End()
  {
    var base := box.Body() + 4;
    if base + 4 > box.End() then 0
    else
      var room := (box.End() - base - 4) / w;
      if U32(s, base) < room then U32(s, base) else room
  }

  /** What an entry becomes when `delta` bytes appear at file position `from`. */
  function Moved(v: int, from: int, delta: int): int {
    if v >= from then v + delta else v
  }

  function ShiftEntry(s: Buffer, p: int, w: Width, from: int, delta: int): (r: Buffer)
    requires 0 <= p && p + w <= |s|
    ensures |r| == |s|
  {
    var v := Pointer(s, p, w);
    if v >= from then Put(s, p, Encoded(v + delta, w)) else s
  }

  function ShiftEntries(s: Buffer, p: int, n: nat, w: Width, from: int, delta: int): (r: Buffer)
    requires 0 <= p && (n > 0 ==> p + Span(w, n) <= |s|)
    ensures |r| == |s|
    decreases n
  {
    if n == 0 then s
    else
      ShiftEntries(ShiftEntry(s, p, w, from, delta), p + w, n - 1, w, from, delta)
  }

  function ShiftTable(s: Buffer, box: Box, w: Width, from: int, delta: int): (r: Buffer)
    requires 0 <= box.offset && 8 <= box.hdr && box.End() <= |s|
    ensures |r| == |s|
  {
    ShiftEntries(s, box.Body() + 8, Count(s, box, w), w, from, delta)
  }

  /** The pointers a reader takes from a table. */
  function Entries(s: Buffer, box: Box, w: Width): (r: seq<int>)
    requires 0 <= box.offset && 8 <= box.hdr && box.End() <= |s|
    ensures |r| == Count(s, box, w)
  {
    seq(Count(s, box, w), i requires 0 <= i < Count(s, box, w) =>
      Pointer(s, box.Body() + 8 + Span(w, i), w))
  }

  /** No pointer leaves the range of its field. */
  ghost predicate Fits(ps: seq<int>, w: Width, from: int, delta: int) {
    forall i :: 0 <= i < |ps| ==>
      ps[i] >= from ==> 0 <= ps[i] + delta < (if w == 4 then TWO32 else TWO63)
  }

  function MovedAll(ps: seq<int>, from: int, delta: int): (r: seq<int>)
    ensures |r| == |ps| && forall i :: 0 <= i < |ps| ==> r[i] == Moved(ps[i], from, delta)
  {
    seq(|ps|, i requires 0 <= i < |ps| => Moved(ps[i], from, delta))
  }

  lemma {:induction false} PointerSame(s: Buffer, t: Buffer, p: int, d: int, w: Width)
    requires 0 <= p && p + w <= |s| && 0 <= p + d && p + d + w <= |t|
    requires Carried(s, t, p, p + w, d)
    ensures Pointer(t, p + d, w) == Pointer(s, p, w)
  {
    WordCarried(s, t, p, d, p + w);
    if w == 8 {
      CarriedPart(s, t, p, p + 8, p + 4, p + 8, d);
      WordCarried(s, t, p + 4, d, p + 8);
    }
  }

  lemma {:induction false} ShiftEntryReads(s: Buffer, p: int, w: Width, from: int, delta: int)
    requires 0 <= p && p + w <= |s|
    requires var v := Pointer(s, p, w); v >= from ==> 0 <= v + delta < (if w == 4 then TWO32 else TWO63)
    ensures Pointer(ShiftEntry(s, p, w, from, delta), p, w) == Moved(Pointer(s, p, w), from, delta)
    ensures SameOutside(s, ShiftEntry(s, p, w, from, delta), p, p + w)
  {
    var v := Pointer(s, p, w);
    if v >= from {
      var b := Encoded(v + delta, w);
      var t := Put(s, p, b);
      assert t[p..p + w] == b;
      if w == 4 {
        U32OfBe32(t, p, v + delta);
      } else {
        U64OfBe64(t, p, v + delta);
      }
    }
  }

  lemma {:induction false} ShiftEntriesReads(s: Buffer, p: int, n: nat, w: Width, from: int, delta: int)
    requires 0 <= p && (n > 0 ==> p + Span(w, n) <= |s|)
    requires forall i :: 0 <= i < n ==> EntryFits(s, p, i, w, from, delta)
    ensures SameOutside(s, ShiftEntries(s, p, n, w, from, delta), p, p + Span(w, n))
    ensures forall i :: 0 <= i < n ==> EntryMoved(s, ShiftEntries(s, p, n, w, from, delta), p, i, w, from, delta)
    decreases n
  {
    hide U32, U64, Pointer, ShiftEntry;
    if n > 0 {
      var t := ShiftEntry(s, p, w, from, delta);
      var r := ShiftEntries(t, p + w, n - 1, w, from, delta);
      assert EntryFits(s, p, 0, w, from, delta);
      ShiftEntryReads(s, p, w, from, delta);
      var q := p + w;
      forall i | 0 <= i < n - 1 ensures EntryFits(t, q, i, w, from, delta) {
        LaterEntry(s, t, p, i, n, w, from, delta);
      }
      ShiftEntriesReads(t, p + w, n - 1, w, from, delta);
      OutsideTwice(s, t, r, p, p + w, p + Span(w, n));
      PointerSame(t, r, p, 0, w);
      forall i | 0 <= i < n ensures EntryMoved(s, r, p, i, w, from, delta) {
        if i > 0 { LaterMoved(s, t, r, p, i - 1, n, w, from, delta); }
      }
    }
  }

  lemma {:induction false} LaterMoved(
      s: Buffer, t: Buffer, r: Buffer, p: int, i: nat, n: nat, w: Width, from: int, delta: int)
    requires 0 <= p && p + Span(w, n) <= |s| && i + 1 < n
    requires SameOutside(s, t, p, p + w) && EntryFits(s, p, i + 1, w, from, delta)
    requires EntryMoved(t, r, p + w, i, w, from, delta)
    ensures EntryMoved(s, r, p, i + 1, w, from, delta)
  {
    hide U32, U64, Pointer;
    LaterEntry(s, t, p, i, n, w, from, delta);
  }

  /** Rewriting the first entry leaves the others as they were. */
  lemma {:induction false} LaterEntry(s: Buffer, t: Buffer, p: int, i: nat, n: nat, w: Width, from: int, delta: int)
    requires 0 <= p && p + Span(w, n) <= |s| && i + 1 < n
    requires SameOutside(s, t, p, p + w) && EntryFits(s, p, i + 1, w, from, delta)
    ensures EntryFits(t, p + w, i, w, from, delta)
    ensures Pointer(t, p + w + Span(w, i), w) == Pointer(s, p + Span(w, i + 1), w)
  {
    hide U32, U64, Pointer;
    PointerSame(s, t, p + Span(w, i + 1), 0, w);
  }

  ghost predicate EntryFits(s: Buffer, p: int, i: nat, w: Width, from: int, delta: int) {
    && 0 <= p && p + Span(w, i) + w <= |s|
    && var v := Pointer(s, p + Span(w, i), w);
       v >= from ==> 0 <= v + delta < (if w == 4 then TWO32 else TWO63)
  }

  ghost predicate EntryMoved(s: Buffer, r: Buffer, p: int, i: nat, w: Width, from: int, delta: int) {
    && 0 <= p && p + Span(w, i) + w <= |s| && |r| == |s|
    && Pointer(r, p + Span(w, i), w) == Moved(Pointer(s, p + Span(w, i), w), from, delta)
  }

  lemma {:induction false} OutsideTwice(s: Buffer, t: Buffer, r: Buffer, lo: int, mid: int, hi: int)
    requires lo <= mid <= hi && SameOutside(s, t, lo, mid) && SameOutside(t, r, mid, hi)
    ensures SameOutside(s, r, lo, hi)
    ensures forall k :: 0 <= k < |s| && lo <= k < mid ==> SameByte(t, r, k, 0)
  {
    forall k | 0 <= k < |s| && !(lo <= k < hi) ensures SameByte(s, r, k, 0) {
      assert SameByte(s, t, k, 0) && SameByte(t, r, k, 0);
    }
  }

  /** A rewritten table: every pointer moved, nothing else touched. */
  lemma {:induction false} ShiftTableReads(s: Buffer, box: Box, w: Width, from: int, delta: int)
    requires 0 <= box.offset && 8 <= box.hdr && box.End() <= |s|
    requires Fits(Entries(s, box, w), w, from, delta)
    ensures SameOutside(s, ShiftTable(s, box, w, from, delta), box.Body() + 8, box.End())
    ensures Entries(ShiftTable(s, box, w, from, delta), box, w) == MovedAll(Entries(s, box, w), from, delta)
  {
    hide Pointer, ShiftEntries;
    var p, n, t := box.Body() + 8, Count(s, box, w), ShiftTable(s, box, w, from, delta);
    forall i | 0 <= i < n ensures EntryFits(s, p, i, w, from, delta) {
      assert Entries(s, box, w)[i] == Pointer(s, p + Span(w, i), w);
    }
    ShiftEntriesReads(s, p, n, w, from, delta);
    CountKept(s, t, box, w, n);
    forall i | 0 <= i < n
      ensures Entries(t, box, w)[i] == MovedAll(Entries(s, box, w), from, delta)[i]
    {
      assert EntryMoved(s, t, p, i, w, from, delta);
    }
  }

  lemma {:induction false} CountKept(s: Buffer, t: Buffer, box: Box, w: Width, n: nat)
    requires 0 <= box.offset && 8 <= box.hdr && box.End() <= |s|
    requires n == Count(s, box, w) && SameOutside(s, t, box.Body() + 8, box.Body() + 8 + Span(w, n))
    ensures Count(t, box, w) == n
    ensures SameOutside(s, t, box.Body() + 8, box.End()) 
  {
    if box.Body() + 8 <= box.End() {
      assert Carried(s, t, box.Body() + 4, box.Body() + 8, 0);
      WordCarried(s, t, box.Body() + 4, 0, box.Body() + 8);
    }
  }

  // ---------------------------------------------------------------- one trak

  function ShiftFound(s: Buffer, box: Option<Box>, w: Width, from: int, delta: int): (r: Buffer)
    requires InBuffer(s, box)
    ensures |r| == |s|
  {
    match box
    case None => s
    case Some(b) => ShiftTable(s, b, w, from, delta)
  }

  /** The callback of shiftChunkOffsets for one trak. */
  function ShiftTrak(s: Buffer, trak: Box, from: int, delta: int): (r: Buffer)
    ensures |r| == |s|
  {
    match Leaf(s, trak.Body(), trak.End(), TO_STBL)
    case None => s
    case Some(stbl) =>
      var s' := ShiftFound(s, FindChild(s, stbl.Body(), stbl.End(), STCO), 4, from, delta);
      ShiftFound(s', FindChild(s', stbl.Body(), stbl.End(), CO64), 8, from, delta)
  }

  /** The boxes a reader passes on its way to the tables and the ac-4 entry lie side by side. */
  ghost predicate WellFormedTrak(s: Buffer, trak: Box) {
    && TiledPath(s, trak.Body(), trak.End(), TO_STCO)
    && TiledPath(s, trak.Body(), trak.End(), TO_CO64)
    && TiledPath(s, trak.Body(), trak.End(), TO_ENTRY)
  }

  function Find(s: Buffer, trak: Box, path: seq<Hop>): (r: Option<Box>)
    requires path != []
    ensures InBuffer(s, r)
  {
    Leaf(s, trak.Body(), trak.End(), path)
  }

  function Pointers(s: Buffer, box: Option<Box>, w: Width): seq<int>
    requires InBuffer(s, box)
  {
    match box
    case None => []
    case Some(b) => Entries(s, b, w)
  }

  /** The bytes of a box. */
  function Bytes(s: Buffer, box: Option<Box>): Option<Buffer>
    requires InBuffer(s, box)
  {
    match box
    case None => None
    case Some(b) => Some(s[b.offset..b.End()])
  }

  lemma {:induction false} SameLeafReads(s: Buffer, t: Buffer, x: Option<Box>, y: Option<Box>, w: Width)
    requires InBuffer(s, x) && InBuffer(t, y) && SameLeaf(s, t, x, y)
    ensures Pointers(t, y, w) == Pointers(s, x, w)
    ensures Bytes(t, y) == Bytes(s, x)
  {
    if x.Some? {
      EntriesCarried(s, t, x.value, y.value.offset - x.value.offset, w);
      BytesCarried(s, t, x.value.offset, x.value.End(), y.value.offset - x.value.offset);
    }
  }

  lemma {:induction false} BytesCarried(s: Buffer, t: Buffer, lo: int, hi: int, d: int)
    requires Carried(s, t, lo, hi, d)
    ensures t[lo + d..hi + d] == s[lo..hi]
  {
    forall i | 0 <= i < hi - lo ensures t[lo + d..hi + d][i] == s[lo..hi][i] {
      assert SameByte(s, t, lo + i, d);
    }
  }

  lemma {:induction false} EntriesCarried(s: Buffer, t: Buffer, box: Box, d: int, w: Width)
    requires 0 <= box.offset && 8 <= box.hdr && box.End() <= |s|
    requires Carried(s, t, box.offset, box.End(), d)
    ensures Entries(t, box.Moved(d), w) == Entries(s, box, w)
  {
    hide Pointer, U32;
    var n := Count(s, box, w);
    CountCarried(s, t, box, d, w);
    forall i | 0 <= i < n
      ensures Entries(t, box.Moved(d), w)[i] == Entries(s, box, w)[i]
    {
      var q := box.Body() + 8 + Span(w, i);
      CarriedPart(s, t, box.offset, box.End(), q, q + w, d);
      PointerSame(s, t, q, d, w);
    }
  }

  lemma {:induction false} CountCarried(s: Buffer, t: Buffer, box: Box, d: int, w: Width)
    requires 0 <= box.offset && 8 <= box.hdr && box.End() <= |s|
    requires Carried(s, t, box.offset, box.End(), d)
    ensures Count(t, box.Moved(d), w) == Count(s, box, w)
  {
    if box.Body() + 8 <= box.End() {
      CarriedPart(s, t, box.offset, box.End(), box.Body() + 4, box.Body() + 8, d);
      WordCarried(s, t, box.Body() + 4, d, box.Body() + 8);
    }
  }

  /** Two paths through stbl part ways behind it. */
  lemma {:induction false} PathsFork()
    ensures TO_STCO == [Hop(MDIA, 0), Hop(MINF, 0), Hop(STBL, 0), Hop(STCO, 0)]
    ensures TO_CO64 == [Hop(MDIA, 0), Hop(MINF, 0), Hop(STBL, 0), Hop(CO64, 0)]
    ensures TO_ENTRY == [Hop(MDIA, 0), Hop(MINF, 0), Hop(STBL, 0), Hop(STSD, 8), Hop(AC_4, 0)]
    ensures TO_STCO[..3] == TO_CO64[..3] == TO_ENTRY[..3] == TO_STBL
  {
  }

  ghost predicate LeafPath(path: seq<Hop>) {
    path == TO_STCO || path == TO_CO64 || path == TO_ENTRY
  }

  /** What an edit inside one of the three leaves of a trak leaves as it was. */
  lemma {:induction false} OtherLeavesKept(s: Buffer, t: Buffer, trak: Box, path: seq<Hop>, other: seq<Hop>, d: int)
    requires LeafPath(path) && LeafPath(other) && path != other
    requires WellFormedTrak(s, trak)
    requires EditedInside(s, t, trak.Body(), trak.End(), path, d) && EditFits(s, trak.Body(), trak.End(), path, d)
    ensures TiledPath(t, trak.Body(), trak.End() + d, other)
    ensures SameLeaf(s, t, Find(s, trak, other), Find(t, trak.Grown(d), other))
  {
    hide TiledPath, EditedInside, EditFits, Leaf, SameLeaf;
    PathsFork();
    DescentBesideEdited(s, t, trak.Body(), trak.End(), path, d, other, 3);
  }

  /** The boxes from a trak down to its ac-4 entry. */
  function EntryPath(s: Buffer, trak: Box): Option<seq<Box>> {
    Descent(s, trak.Body(), trak.End(), TO_ENTRY)
  }

  /** The same trak, except for the leaf at the end of `path`. */
  ghost predicate OnlyLeafChanged(s: Buffer, t: Buffer, trak: Box, path: seq<Hop>) {
    && WellFormedTrak(t, trak)
    && EntryPath(t, trak) == EntryPath(s, trak)
    && SameOutside(s, t, trak.Body(), trak.End())
    && forall other :: LeafPath(other) && other != path ==>
         SameLeaf(s, t, Find(s, trak, other), Find(t, trak, other))
  }

  lemma {:induction false} LeafChanged(s: Buffer, t: Buffer, trak: Box, path: seq<Hop>, l: Box)
    requires (path == TO_STCO || path == TO_CO64) && WellFormedTrak(s, trak)
    requires Find(s, trak, path) == Some(l) && SameOutside(s, t, l.Body(), l.End())
    ensures OnlyLeafChanged(s, t, trak, path) && Find(t, trak, path) == Some(l)
  {
    hide TiledPath, EditedInside, EditFits, Leaf, Descent, SameLeaf;
    PathsFork();
    LeafWithin(s, trak.Body(), trak.End(), path);
    ChangedInLeaf(s, t, trak.Body(), trak.End(), path);
    DescentOfEdited(s, t, trak.Body(), trak.End(), path, 0);
    DescentBeside(s, t, trak.Body(), trak.End(), path, TO_ENTRY, 3);
    assert trak.Grown(0) == trak && l.Grown(0) == l;
    forall other | LeafPath(other) && other != path
      ensures SameLeaf(s, t, Find(s, trak, other), Find(t, trak, other))
      ensures TiledPath(t, trak.Body(), trak.End(), other)
    {
      OtherLeavesKept(s, t, trak, path, other, 0);
    }
    assert LeafPath(TO_STCO) && LeafPath(TO_CO64) && LeafPath(TO_ENTRY);
  }

  /** The same change leaves all three leaves where they are. */
  lemma {:induction false} LeavesStay(s: Buffer, t: Buffer, trak: Box, path: seq<Hop>, l: Box)
    requires LeafPath(path) && WellFormedTrak(s, trak)
    requires Find(s, trak, path) == Some(l) && SameOutside(s, t, l.Body(), l.End())
    ensures SameTables(s, t, trak)
  {
    hide TiledPath, EditedInside, EditFits, Leaf, Descent, SameLeaf;
    LeavesDiffer();
    ChangedInLeaf(s, t, trak.Body(), trak.End(), path);
    LeafStays(s, t, trak, path, l, TO_STCO);
    LeafStays(s, t, trak, path, l, TO_CO64);
  }

  lemma {:induction false} LeafStays(s: Buffer, t: Buffer, trak: Box, path: seq<Hop>, l: Box, other: seq<Hop>)
    requires LeafPath(path) && LeafPath(other) && WellFormedTrak(s, trak) && Find(s, trak, path) == Some(l)
    requires EditedInside(s, t, trak.Body(), trak.End(), path, 0) && EditFits(s, trak.Body(), trak.End(), path, 0)
    ensures Find(t, trak, other) == Find(s, trak, other)
  {
    hide TiledPath, EditedInside, EditFits, Leaf, Descent, SameLeaf;
    PathsFork();
    if other == path {
      DescentOfEdited(s, t, trak.Body(), trak.End(), path, 0);
      assert trak.Grown(0) == trak && l.Grown(0) == l;
    } else {
      DescentBeside(s, t, trak.Body(), trak.End(), path, other, 3);
      DescentEndsAtLeaf(s, trak.Body(), trak.End(), other);
      DescentEndsAtLeaf(t, trak.Body(), trak.End(), other);
    }
  }

  // ---------------------------------------------------------------- where the tables are

  /** Byte `k` is among the entries of the table. */
  ghost predicate TableAt(c: Option<Box>, k: int) {
    c.Some? && c.value.Body() + 8 <= k < c.value.End()
  }

  ghost predicate InTable(s: Buffer, trak: Box, k: int) {
    TableAt(Find(s, trak, TO_STCO), k) || TableAt(Find(s, trak, TO_CO64), k)
  }

  /** The tables of the trak are the same boxes. */
  ghost predicate SameTables(s: Buffer, t: Buffer, trak: Box) {
    Find(t, trak, TO_STCO) == Find(s, trak, TO_STCO) && Find(t, trak, TO_CO64) == Find(s, trak, TO_CO64)
  }

  /** Nothing but table entries of the trak is different. */
  ghost predicate OnlyTable(s: Buffer, t: Buffer, trak: Box) {
    |t| == |s| && forall k :: 0 <= k < |s| && !InTable(s, trak, k) ==> SameByte(s, t, k, 0)
  }

  /** One table rewritten. */
  lemma {:induction false} TableBytes(s: Buffer, trak: Box, path: seq<Hop>, w: Width, from: int, delta: int)
    requires (path == TO_STCO || path == TO_CO64) && WellFormedTrak(s, trak)
    requires Fits(Pointers(s, Find(s, trak, path), w), w, from, delta)
    ensures var t := ShiftFound(s, Find(s, trak, path), w, from, delta);
      SameTables(s, t, trak) && OnlyTable(s, t, trak)
  {
    hide TiledPath, Leaf, ShiftTable, Entries, Find;
    var t := ShiftFound(s, Find(s, trak, path), w, from, delta);
    if Find(s, trak, path).Some? {
      var l := Find(s, trak, path).value;
      ShiftTableReads(s, l, w, from, delta);
      OutsideTable(s, t, l);
      LeavesStay(s, t, trak, path, l);
    } else {
      assert forall k :: 0 <= k < |s| ==> SameByte(s, s, k, 0);
    }
  }

  lemma {:induction false} OutsideTable(s: Buffer, t: Buffer, l: Box)
    requires SameOutside(s, t, l.Body() + 8, l.End())
    ensures SameOutside(s, t, l.Body(), l.End())
    ensures |t| == |s| && forall k :: 0 <= k < |s| && !TableAt(Some(l), k) ==> SameByte(s, t, k, 0)
  {
  }

  /** Both tables: only their entries are different, and they stay where they are. */
  lemma {:induction false} TrakBytes(s: Buffer, trak: Box, from: int, delta: int)
    requires WellFormedTrak(s, trak) && ChildFits(TrakChild(s, trak), from, delta)
    ensures var t := ShiftTrak(s, trak, from, delta);
      SameTables(s, t, trak) && OnlyTable(s, t, trak)
  {
    hide TiledPath, Leaf, EntryPath, SameLeaf, ShiftTable, Entries, Find, Fits, Pointers, Bytes, MovedAll;
    var s' := ShiftFound(s, Find(s, trak, TO_STCO), 4, from, delta);
    TableRewritten(s, trak, TO_STCO, 4, from, delta);
    TableBytes(s, trak, TO_STCO, 4, from, delta);
    LeavesDiffer();
    SameLeafReads(s, s', Find(s, trak, TO_CO64), Find(s', trak, TO_CO64), 8);
    var t := ShiftFound(s', Find(s', trak, TO_CO64), 8, from, delta);
    TableBytes(s', trak, TO_CO64, 8, from, delta);
    forall k | 0 <= k < |s| && !InTable(s, trak, k) ensures SameByte(s, t, k, 0) {
      assert SameByte(s, s', k, 0) && SameByte(s', t, k, 0);
    }
    ShiftTrakByLeaves(s, trak, from, delta);
  }

  lemma {:induction false} SameLeafRefl(s: Buffer, x: Option<Box>)
    requires InBuffer(s, x)
    ensures SameLeaf(s, s, x, x)
  {
  }

  lemma {:induction false} TableRewritten(s: Buffer, trak: Box, path: seq<Hop>, w: Width, from: int, delta: int)
    requires (path == TO_STCO || path == TO_CO64) && WellFormedTrak(s, trak)
    requires Fits(Pointers(s, Find(s, trak, path), w), w, from, delta)
    ensures var t := ShiftFound(s, Find(s, trak, path), w, from, delta);
      && OnlyLeafChanged(s, t, trak, path)
      && Pointers(t, Find(t, trak, path), w) == MovedAll(Pointers(s, Find(s, trak, path), w), from, delta)
  {
    hide TiledPath, Leaf, EntryPath, SameLeaf, ShiftTable, Entries, Find;
    var t := ShiftFound(s, Find(s, trak, path), w, from, delta);
    if Find(s, trak, path).Some? {
      var l := Find(s, trak, path).value;
      ShiftTableReads(s, l, w, from, delta);
      LeafChanged(s, t, trak, path, l);
    } else {
      forall other | LeafPath(other) ensures SameLeaf(s, s, Find(s, trak, other), Find(s, trak, other)) {
        SameLeafRefl(s, Find(s, trak, other));
      }
    }
  }

  // ---------------------------------------------------------------- readers

  /** What a reader finds in a child of moov. */
  datatype Child =
    | Trak(stco: seq<int>, co64: seq<int>, entry: Option<Buffer>)
    | Other(bytes: Buffer)

  function TrakChild(s: Buffer, trak: Box): (c: Child)
    ensures c.Trak?
  {
    Trak(Pointers(s, Find(s, trak, TO_STCO), 4), Pointers(s, Find(s, trak, TO_CO64), 8),
         Bytes(s, Find(s, trak, TO_ENTRY)))
  }

  function ChildMoved(c: Child, from: int, delta: int): Child {
    match c
    case Trak(stco, co64, entry) => Trak(MovedAll(stco, from, delta), MovedAll(co64, from, delta), entry)
    case Other(_) => c
  }

  ghost predicate ChildFits(c: Child, from: int, delta: int) {
    c.Trak? ==> Fits(c.stco, 4, from, delta) && Fits(c.co64, 8, from, delta)
  }

  /** After ShiftTrak a reader finds the same trak with every pointer moved, and no other byte is different. */
  lemma {:induction false} TrakShifted(s: Buffer, trak: Box, from: int, delta: int)
    requires WellFormedTrak(s, trak) && ChildFits(TrakChild(s, trak), from, delta)
    ensures var t := ShiftTrak(s, trak, from, delta);
      && WellFormedTrak(t, trak) && SameOutside(s, t, trak.Body(), trak.End())
      && TrakChild(t, trak) == ChildMoved(TrakChild(s, trak), from, delta)
      && EntryPath(t, trak) == EntryPath(s, trak)
      && SameTables(s, t, trak) && OnlyTable(s, t, trak)
  {
    hide TiledPath, Leaf, EntryPath, SameLeaf, ShiftTable, Entries, Find, Fits, Pointers, Bytes, MovedAll, OnlyTable,
      SameTables;
    TrakBytes(s, trak, from, delta);
    var s' := ShiftFound(s, Find(s, trak, TO_STCO), 4, from, delta);
    TableRewritten(s, trak, TO_STCO, 4, from, delta);
    LeavesDiffer();
    SameLeafReads(s, s', Find(s, trak, TO_CO64), Find(s', trak, TO_CO64), 8);
    SameLeafReads(s, s', Find(s, trak, TO_ENTRY), Find(s', trak, TO_ENTRY), 8);
    var t := ShiftFound(s', Find(s', trak, TO_CO64), 8, from, delta);
    TableRewritten(s', trak, TO_CO64, 8, from, delta);
    SameLeafReads(s', t, Find(s', trak, TO_STCO), Find(t, trak, TO_STCO), 4);
    SameLeafReads(s', t, Find(s', trak, TO_ENTRY), Find(t, trak, TO_ENTRY), 8);
    OutsideBoth(s, s', t, trak.Body(), trak.End());
    ShiftTrakByLeaves(s, trak, from, delta);
  }

  lemma {:induction false} LeavesDiffer()
    ensures TO_STCO != TO_CO64 && TO_STCO != TO_ENTRY && TO_CO64 != TO_ENTRY
    ensures LeafPath(TO_STCO) && LeafPath(TO_CO64) && LeafPath(TO_ENTRY)
  {
    PathsFork();
    assert TO_STCO[3] != TO_CO64[3];
  }

  lemma {:induction false} OutsideBoth(s: Buffer, t: Buffer, r: Buffer, lo: int, hi: int)
    requires SameOutside(s, t, lo, hi) && SameOutside(t, r, lo, hi)
    ensures SameOutside(s, r, lo, hi)
  {
    forall k | 0 <= k < |s| && !(lo <= k < hi) ensures SameByte(s, r, k, 0) {
      assert SameByte(s, t, k, 0) && SameByte(t, r, k, 0);
    }
  }

  /** The code looks for stbl once and for both tables in it. */
  lemma {:induction false} ShiftTrakByLeaves(s: Buffer, trak: Box, from: int, delta: int)
    requires WellFormedTrak(s, trak)
    requires Fits(Pointers(s, Find(s, trak, TO_STCO), 4), 4, from, delta)
    ensures var s' := ShiftFound(s, Find(s, trak, TO_STCO), 4, from, delta);
      ShiftTrak(s, trak, from, delta) == ShiftFound(s', Find(s', trak, TO_CO64), 8, from, delta)
  {
    hide TiledPath, ShiftTable, Entries, Fits, Pointers, FindChild, Leaf;
    var s' := ShiftFound(s, Find(s, trak, TO_STCO), 4, from, delta);
    LeafThen(s, trak.Body(), trak.End(), TO_STBL, Hop(STCO, 0));
    LeafThen(s', trak.Body(), trak.End(), TO_STBL, Hop(CO64, 0));
    StblKept(s, trak, from, delta);
  }

  lemma {:induction false} StblKept(s: Buffer, trak: Box, from: int, delta: int)
    requires WellFormedTrak(s, trak)
    requires Fits(Pointers(s, Find(s, trak, TO_STCO), 4), 4, from, delta)
    ensures var s' := ShiftFound(s, Find(s, trak, TO_STCO), 4, from, delta);
      Find(s', trak, TO_STBL) == Find(s, trak, TO_STBL)
  {
    hide TiledPath, ShiftTable, Entries, Fits, FindChild, Leaf, EditedInside, EditFits, Sited;
    var s' := ShiftFound(s, Find(s, trak, TO_STCO), 4, from, delta);
    if Find(s, trak, TO_STCO).Some? {
      var l := Find(s, trak, TO_STCO).value;
      LeafThen(s, trak.Body(), trak.End(), TO_STBL, Hop(STCO, 0));
      var c := Find(s, trak, TO_STBL).value;
      ShiftTableReads(s, l, 4, from, delta);
      TiledPathCut(s, trak.Body(), trak.End(), TO_STBL, Hop(STCO, 0));
      FoundSited(s, c.Body(), c.End(), STCO);
      ChangedInLeaf(s, s', trak.Body(), trak.End(), TO_STBL);
      DescentOfEdited(s, s', trak.Body(), trak.End(), TO_STBL, 0);
      assert trak.Grown(0) == trak && c.Grown(0) == c;
    }
  }
}
