/**
 go_backend/ac4_config.go on a moov buffer: locating the ac-4 sample entry,
 dropping the QuickTime version-1 extension and inserting the dac4 box.
 `base` is the position of the buffer in the file, which the chunk pointers count from.
 */
module Ac4Config {
  import opened Options
  import opened Endian
  import opened Mp4Boxes
  import opened Mp4Edits
  import opened Mp4Splice
  import opened Mp4Tables
  import opened Mp4Moov
  import opened Mp4Entry

  // ---------------------------------------------------------------- locating

  /** The callback loop of locateAC4Entry: the first trak that leads to an ac-4 entry, with the boxes on the way. */
  function LocateFrom(s: Buffer, pos: int, end: int): (r: Option<seq<Box>>)
    ensures r.Some? ==> |r.value| == 6 && HeadersFit(s, r.value)
    decreases end - pos
  {
    if pos + 8 > end then None
    else
      match ReadBox(s, pos)
      case None => None
      case Some(b) =>
        PathsFork();
        if b.typ == TRAK && EntryPath(s, b).Some? then Some([b] + EntryPath(s, b).value)
        else LocateFrom(s, b.End(), end)
  }

  /** locateAC4Entry: moov, trak, mdia, minf, stbl, stsd and the entry itself. */
  function LocateAC4(s: Buffer): (r: Option<seq<Box>>)
    ensures r.Some? ==> |r.value| == 7 && HeadersFit(s, r.value)
  {
    match FindChild(s, 0, |s|, MOOV)
    case None => None
    case Some(moov) =>
      match LocateFrom(s, moov.Body(), moov.End())
      case None => None
      case Some(cs) => Some([moov] + cs)
  }

  /** `j` is the first trak a reader finds an ac-4 entry in, or the number of children when there is none. */
  ghost predicate IsAc4Trak(cs: seq<Child>, j: nat) {
    && j <= |cs|
    && (j < |cs| ==> cs[j].Trak? && cs[j].entry.Some?)
    && forall i :: 0 <= i < j ==> !(cs[i].Trak? && cs[i].entry.Some?)
  }

  lemma {:induction false} ChildHasEntry(s: Buffer, k: Box)
    requires InBuffer(s, Some(k))
    ensures ChildOf(s, k).Trak? && ChildOf(s, k).entry.Some? <==> k.typ == TRAK && EntryPath(s, k).Some?
  {
    hide FindChild, Leaf, Descent, Pointers;
    PathsFork();
    DescentEndsAtLeaf(s, k.Body(), k.End(), TO_ENTRY);
  }

  lemma {:induction false} LocatedFrom(s: Buffer, moov: Box, ks: seq<Box>, j: nat, i: nat)
    requires WellFormed(s, moov, ks) && AllInBuffer(s, ks) && IsAc4Trak(Digest(s, ks), j) && i <= j
    ensures LocateFrom(s, StartAt(moov.Body(), ks, i), |s|) ==
      if j < |ks| then (if EntryPath(s, ks[j]).Some? then Some([ks[j]] + EntryPath(s, ks[j]).value) else None) else None
    decreases j - i
  {
    hide FindChild, EntryPath, ChildOf, U32, WellFormedChild;
    if i < |ks| {
      assert Sited(s, ks[i]);
      ChildHasEntry(s, ks[i]);
      StartOfNext(moov.Body(), |s|, ks, i);
      if i < j { LocatedFrom(s, moov, ks, j, i + 1); }
    }
  }

  /** locateAC4Entry finds the first trak with an ac-4 entry, and None exactly when there is none. */
  lemma {:induction false} Located(s: Buffer, moov: Box, ks: seq<Box>, j: nat)
    requires WellFormed(s, moov, ks) && AllInBuffer(s, ks) && IsAc4Trak(Digest(s, ks), j)
    ensures j == |ks| ==> LocateAC4(s) == None
    ensures j < |ks| ==> LocateAC4(s).Some? && EntryChain(s, moov, ks, j, LocateAC4(s).value)
  {
    hide FindChild, EntryPath, ChildOf, U32, WellFormedChild, LocateFrom;
    LocatedFrom(s, moov, ks, j, 0);
    MoovFound(s, moov);
    FirstStart(moov.Body(), |s|, ks);
    if j < |ks| {
      ChildHasEntry(s, ks[j]);
      assert [moov] + ([ks[j]] + EntryPath(s, ks[j]).value) == [moov, ks[j]] + EntryPath(s, ks[j]).value;
    }
  }

  lemma {:induction false} MoovFound(s: Buffer, moov: Box)
    requires ReadBox(s, 0) == Some(moov) && moov.typ == MOOV
    ensures FindChild(s, 0, |s|, MOOV) == Some(moov)
  {
  }

  // ---------------------------------------------------------------- version 1 to version 0

  /** Offsets into the body of the sample entry (ISO/IEC 14496-12, section 12.2.3; QuickTime version 1). */
  const VERSION: nat := 8
  const EXT_START: nat := 28
  const EXT_END: nat := 44

  /** A version-1 entry that is long enough to hold the extension. */
  predicate IsQuickTime(body: Buffer) {
    |body| >= EXT_END && U16(body, VERSION) == 1
  }

  /** Version zeroed, tables shifted, boxes shrunk, the extension cut out. */
  function DropExtension(s: Buffer, hs: seq<Box>, base: int): Buffer
    requires |hs| == 7 && HeadersFit(s, hs) && hs[6].Body() + EXT_END <= hs[6].End()
  {
    var p := hs[6].Body();
    Rewritten(Put(s, p + VERSION, [0, 0]), hs, base + p + EXT_START, p + EXT_START, p + EXT_END, [])
  }

  /** normalizeQuickTimeAudioEntry. */
  function NormalizeEntry(s: Buffer, base: int): Buffer {
    match LocateAC4(s)
    case None => s
    case Some(hs) =>
      var p := hs[6].Body();
      if p + VERSION + 2 > hs[6].End() then s
      else if U16(s, p + VERSION) != 1 then s
      else if p + EXT_END > hs[6].End() then s
      else DropExtension(s, hs, base)
  }

  /** The body of the entry without its version-1 extension. */
  function NormalBody(body: Buffer): Buffer
    requires IsQuickTime(body)
  {
    Splice(Put(body, VERSION, [0, 0]), EXT_START, EXT_END, [])
  }

  lemma {:induction false} BodyRead(s: Buffer, l: Box, q: int)
    requires Sited(s, l) && 0 <= q && l.Body() + q + 2 <= l.End()
    ensures 0 <= l.offset <= l.End() <= |s| && l.Body() + q + 2 <= |s|
    ensures var b := EntryBody(s[l.offset..l.End()]); |b| == l.size - l.hdr && U16(b, q) == U16(s, l.Body() + q)
  {
    EntryBytes(s, l);
    var b := s[l.Body()..l.End()];
    assert b[q] == s[l.Body() + q] && b[q + 1] == s[l.Body() + q + 1];
  }

  /** Zeroing the version: still well-formed, only this one entry differs. */
  lemma {:induction false} VersionZeroed(s: Buffer, moov: Box, ks: seq<Box>, j: nat, hs: seq<Box>)
    requires WellFormed(s, moov, ks) && EntryChain(s, moov, ks, j, hs) && |hs| == 7
    requires hs[6].Body() + VERSION + 2 <= hs[6].End() && Sited(s, hs[6])
    ensures hs[6].End() <= |s|
    ensures var v, l := Put(s, hs[6].Body() + VERSION, [0, 0]), hs[6];
      && WellFormed(v, moov, ks) && AllInBuffer(s, ks) && AllInBuffer(v, ks) && EntryChain(v, moov, ks, j, hs) &&
        j < |ks|
      && Sited(v, l) && 0 <= l.offset <= l.End() <= |v|
      && Digest(v, ks) == EntryReplaced(Digest(s, ks), j, v[l.offset..l.End()])
      && AllTablesStay(s, v, ks) && SameOutside(s, v, l.offset, l.End())
  {
    hide ReadBox, U32, WellFormed, EntryChain, Sited, AllTablesStay;
    SitedSize(s, hs[6]);
    var v := Put(s, hs[6].Body() + VERSION, [0, 0]);
    EntryAt(s, moov, ks, j, hs);
    EntryChangedInPlace(s, v, moov, ks, j, hs);
    ChainStays(s, v, moov, ks, j, hs);
    EntryAt(v, moov, ks, j, hs);
  }

  lemma {:induction false} ZeroedBody(s: Buffer, l: Box)
    requires Sited(s, l) && 0 <= l.Body() && l.Body() + VERSION + 2 <= l.End() <= |s|
    requires Sited(Put(s, l.Body() + VERSION, [0, 0]), l)
    ensures 0 <= l.offset <= l.End()
    ensures var v := Put(s, l.Body() + VERSION, [0, 0]);
      && |EntryBody(s[l.offset..l.End()])| == l.size - l.hdr >= VERSION + 2
      && EntryBody(v[l.offset..l.End()]) == Put(EntryBody(s[l.offset..l.End()]), VERSION, [0, 0])
      && SameKind(s[l.offset..l.End()], v[l.offset..l.End()])
  {
    hide ReadBox, U32, Sited;
    var v := Put(s, l.Body() + VERSION, [0, 0]);
    EntryBytes(s, l);
    EntryBytes(v, l);
    assert v[l.Body()..l.End()] == Put(s[l.Body()..l.End()], VERSION, [0, 0]);
  }

  /** Pointers at or behind `from` are not negative, so 16 less still fits. */
  lemma {:induction false} ShrinkFits(cs: seq<Child>, from: int, d: int)
    requires 0 <= -d <= from && forall i :: 0 <= i < |cs| ==> InRange(cs[i])
    ensures DigestFits(cs, from, d)
  {
  }

  /** The pointers of a child are values of their fields. */
  ghost predicate InRange(c: Child) {
    c.Trak? ==>
      && (forall i :: 0 <= i < |c.stco| ==> c.stco[i] < TWO32)
      && (forall i :: 0 <= i < |c.co64| ==> c.co64[i] < TWO63)
  }

  lemma {:induction false} DigestInRange(s: Buffer, ks: seq<Box>)
    requires AllInBuffer(s, ks)
    ensures forall i :: 0 <= i < |ks| ==> InRange(Digest(s, ks)[i])
  {
    hide U32, U64, FindChild, Leaf;
    forall i | 0 <= i < |ks| ensures InRange(Digest(s, ks)[i]) {
      assert InBuffer(s, Some(ks[i]));
      if ks[i].typ == TRAK { TrakInRange(s, ks[i]); }
    }
  }

  lemma {:induction false} TrakInRange(s: Buffer, k: Box)
    ensures InRange(TrakChild(s, k))
  {
    hide U32, U64, FindChild, Leaf;
  }

  ghost predicate HasEntry(cs: seq<Child>, j: nat) {
    j < |cs| && cs[j].Trak? && cs[j].entry.Some?
  }

  /** The ac-4 entry of trak `j`. */
  function EntryOf(cs: seq<Child>, j: nat): Buffer
    requires HasEntry(cs, j)
  {
    cs[j].entry.value
  }

  /**
   `t` is a well-formed moov in which every chunk pointer was moved by `d` from
   `from` on, the ac-4 entry of trak `j` has the new `body`, and every other byte is
   kept; the entry is reached through the same boxes, grown.
   */
  ghost predicate Reshaped(
      s: Buffer, t: Buffer, moov: Box, ks: seq<Box>, j: nat, hs: seq<Box>, from: int, d: int, body: Buffer)
  {
    var js := EditedList(ks, j, d);
    && AllInBuffer(s, ks) && WellFormed(t, moov.Grown(d), js) && AllInBuffer(t, js)
    && EntryChain(t, moov.Grown(d), js, j, GrownList(hs, d))
    && HasEntry(Digest(s, ks), j) && HasEntry(Digest(t, js), j)
    && SameKind(EntryOf(Digest(s, ks), j), EntryOf(Digest(t, js), j)) && EntryBody(EntryOf(Digest(t, js), j)) == body
    && Digest(t, js) == EntryReplaced(DigestMoved(Digest(s, ks), from, d), j, EntryOf(Digest(t, js), j))
    && |hs| == 7 && RestKept(s, t, ks, js, hs, hs[6].offset, hs[6].End(), d)
  }

  /** No box of the chain gets too small or too large for its header. */
  lemma {:induction false} ChainWritable(s: Buffer, moov: Box, ks: seq<Box>, j: nat, hs: seq<Box>, d: int)
    requires WellFormed(s, moov, ks) && EntryChain(s, moov, ks, j, hs) && |hs| == 7
    requires |s| + d < TWO32 && |s| < TWO32 && 0 <= hs[6].size - hs[6].hdr + d
    ensures AllWritable(hs, d)
  {
    hide ReadBox, U32, WellFormed, EntryChain, Sited, Nested, AllShaped;
    ChainNested(s, moov, ks, j, hs);
    forall i | 0 <= i < |hs| ensures Writable(hs[i].Grown(d)) {
      assert hs[i].Body() <= hs[6].Body() && hs[6].End() <= hs[i].End() <= |s| && 0 <= hs[i].offset;
    }
  }

  lemma {:induction false} EntryInPlace(s: Buffer, moov: Box, ks: seq<Box>, j: nat, hs: seq<Box>)
    requires WellFormed(s, moov, ks) && EntryChain(s, moov, ks, j, hs)
    ensures AllInBuffer(s, ks) && |hs| == 7 && Sited(s, hs[6]) && HasEntry(Digest(s, ks), j)
    ensures 0 <= hs[6].offset <= hs[6].Body() <= hs[6].End() <= |s|
    ensures EntryOf(Digest(s, ks), j) == s[hs[6].offset..hs[6].End()]
    ensures EntryBody(EntryOf(Digest(s, ks), j)) == s[hs[6].Body()..hs[6].End()]
  {
    hide ReadBox, U32, WellFormed, EntryChain, Sited;
    EntryAt(s, moov, ks, j, hs);
    EntryBytes(s, hs[6]);
  }

  /** Which branch normalizeQuickTimeAudioEntry takes, read off the entry. */
  lemma {:induction false} NormalizeBranch(s: Buffer, moov: Box, ks: seq<Box>, j: nat, hs: seq<Box>, base: int)
    requires WellFormed(s, moov, ks) && EntryChain(s, moov, ks, j, hs) && LocateAC4(s) == Some(hs)
    ensures HasEntry(Digest(s, ks), j) && |hs| == 7 && 0 <= hs[6].Body() <= hs[6].End() <= |s|
    ensures AllInBuffer(s, ks) && HeadersFit(s, hs)
    ensures var body := EntryBody(EntryOf(Digest(s, ks), j));
      var p := hs[6].Body();
      && (!IsQuickTime(body) ==> NormalizeEntry(s, base) == s)
      && (IsQuickTime(body) ==> p + EXT_END <= hs[6].End() && NormalizeEntry(s, base) == DropExtension(s, hs, base))
  {
    hide ReadBox, U32, WellFormed, EntryChain, Sited, LocateAC4, EntryBody, Rewritten, Digest;
    EntryInPlace(s, moov, ks, j, hs);
    var l := hs[6];
    if l.Body() + VERSION + 2 <= l.End() { BodyRead(s, l, VERSION); }
  }

  lemma {:induction false} ReplacedTwice(cs: seq<Child>, j: nat, e: Buffer, f: Buffer, from: int, d: int)
    requires HasEntry(cs, j)
    ensures EntryReplaced(DigestMoved(EntryReplaced(cs, j, e), from, d), j, f)
      == EntryReplaced(DigestMoved(cs, from, d), j, f)
    ensures HasEntry(EntryReplaced(DigestMoved(cs, from, d), j, f), j)
    ensures EntryOf(EntryReplaced(DigestMoved(cs, from, d), j, f), j) == f
    ensures HasEntry(EntryReplaced(cs, j, e), j) && EntryOf(EntryReplaced(cs, j, e), j) == e
  {
    hide Moved;
  }

  /** A splice of the entry as Mp4Entry describes it, after the entry alone was changed in place. */
  lemma {:induction false} StepReshapes(
      s: Buffer, v: Buffer, t: Buffer, moov: Box, ks: seq<Box>, j: nat, hs: seq<Box>, from: int, lo: int, hi: int,
        ins: Buffer)
    requires AllInBuffer(s, ks) && AllInBuffer(v, ks) && HasEntry(Digest(s, ks), j)
    requires Stepped(v, t, moov, ks, j, hs, from, lo, hi, ins)
    requires Digest(v, ks) == EntryReplaced(Digest(s, ks), j, v[hs[6].offset..hs[6].End()])
    requires SameKind(EntryOf(Digest(s, ks), j), v[hs[6].offset..hs[6].End()])
    requires AllTablesStay(s, v, ks) && SameOutside(s, v, hs[6].offset, hs[6].End())
    ensures var e := EntryBody(v[hs[6].offset..hs[6].End()]);
      && 0 <= lo - hs[6].Body() <= hi - hs[6].Body() <= |e|
      && Reshaped(s, t, moov, ks, j, hs, from, |ins| - (hi - lo), Splice(e, lo - hs[6].Body(), hi - hs[6].Body(), ins))
  {
    hide ReadBox, U32, WellFormed, EntryChain, EntryBody, EditedList, GrownList, DigestMoved, Digest, EntryReplaced,
      Splice, HasEntry, EntryOf, RestKept, AllTablesStay;
    var d := |ins| - (hi - lo);
    RestBehindChange(s, v, t, ks, EditedList(ks, j, d), hs, hs[6].offset, hs[6].End(), d);
    var e, f := v[hs[6].offset..hs[6].End()], t[hs[6].offset..hs[6].End() + d];
    ReplacedTwice(Digest(s, ks), j, e, f, from, d);
  }

  /** Dropping the version-1 extension. */
  lemma {:induction false} ExtensionDropped(s: Buffer, moov: Box, ks: seq<Box>, j: nat, hs: seq<Box>, base: int)
    requires WellFormed(s, moov, ks) && EntryChain(s, moov, ks, j, hs) && AllInBuffer(s, ks) && HeadersFit(s, hs)
    requires |s| < TWO32 && 0 <= base && |hs| == 7 && HasEntry(Digest(s, ks), j)
    requires 0 <= hs[6].Body() && hs[6].Body() + EXT_END <= hs[6].End() <= |s|
    requires IsQuickTime(EntryBody(EntryOf(Digest(s, ks), j)))
    ensures Reshaped(s, DropExtension(s, hs, base), moov, ks, j, hs, base + hs[6].Body() + EXT_START, -16,
                     NormalBody(EntryBody(EntryOf(Digest(s, ks), j))))
  {
    hide ReadBox, U32, WellFormed, EntryChain, Sited, EntryBody, Digest, Rewritten, Reshaped, Stepped, HasEntry,
      EntryOf, SameKind, Splice, DigestFits, AllWritable, EntryReplaced, InRange, AllTablesStay;
    var p, l := hs[6].Body(), hs[6];
    var from := base + p + EXT_START;
    EntryInPlace(s, moov, ks, j, hs);
    VersionZeroed(s, moov, ks, j, hs);
    var v := Put(s, p + VERSION, [0, 0]);
    ZeroedBody(s, l);
    ChainWritable(v, moov, ks, j, hs, -16);
    DigestInRange(v, ks);
    ShrinkFits(Digest(v, ks), from, -16);
    RewrittenReads(v, moov, ks, j, hs, from, p + EXT_START, p + EXT_END, []);
    StepReshapes(s, v, Rewritten(v, hs, from, p + EXT_START, p + EXT_END, []), moov, ks, j, hs, from, p + EXT_START,
      p + EXT_END, []);
  }
}
