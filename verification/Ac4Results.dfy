/**
 The results about EnsureAC4ConfigBox as a whole, for every well-formed moov.
 */
module Ac4Results {
  import opened Options
  import opened Endian
  import opened Mp4Boxes
  import opened Mp4Edits
  import opened Mp4Splice
  import opened Mp4Tables
  import opened Mp4Moov
  import opened Mp4Entry
  import opened Mp4Tree
  import opened Mp4Pointers
  import opened Ac4Config
  import opened Ac4Ensure

  /** A well-formed moov whose ac-4 entry is that of trak `j`, reached through `hs`. */
  ghost predicate Ac4Moov(s: Buffer, moov: Box, ks: seq<Box>, j: nat, hs: seq<Box>) {
    && WellFormed(s, moov, ks) && AllInBuffer(s, ks) && EntryChain(s, moov, ks, j, hs)
    && LocateAC4(s) == Some(hs) && |hs| == 7 && HeadersFit(s, hs)
    && IsAc4Trak(Digest(s, ks), j) && HasEntry(Digest(s, ks), j)
  }

  lemma {:induction false} Ac4MoovOf(s: Buffer, moov: Box, ks: seq<Box>, j: nat)
    requires WellFormed(s, moov, ks) && AllInBuffer(s, ks) && IsAc4Trak(Digest(s, ks), j) && j < |ks|
    ensures LocateAC4(s).Some? && Ac4Moov(s, moov, ks, j, LocateAC4(s).value)
  {
    hide WellFormed, EntryChain, LocateAC4, Digest;
    Located(s, moov, ks, j);
  }

  lemma {:induction false} ReshapedIsAc4(
      s: Buffer, t: Buffer, moov: Box, ks: seq<Box>, j: nat, hs: seq<Box>, from: int, d: int, body: Buffer)
    requires IsAc4TrakOf(s, ks, j) && Reshaped(s, t, moov, ks, j, hs, from, d, body)
    ensures Ac4Moov(t, moov.Grown(d), EditedList(ks, j, d), j, GrownList(hs, d))
  {
    hide RestKept, WellFormed, LocateAC4, Digest, EntryPath, SameKind, EntryBody, EditedList, GrownList;
    var js := EditedList(ks, j, d);
    StillFirst(Digest(s, ks), Digest(t, js), j, from, d);
    Located(t, moov.Grown(d), js, j);
    OneChain(t, moov.Grown(d), js, j, GrownList(hs, d), LocateAC4(t).value);
  }

  ghost predicate IsAc4TrakOf(s: Buffer, ks: seq<Box>, j: nat) {
    AllInBuffer(s, ks) && IsAc4Trak(Digest(s, ks), j)
  }

  lemma {:induction false} OneChain(t: Buffer, moov: Box, ks: seq<Box>, j: nat, hs: seq<Box>, hs': seq<Box>)
    requires EntryChain(t, moov, ks, j, hs) && EntryChain(t, moov, ks, j, hs')
    ensures hs == hs' && j < |ks|
  {
    hide EntryPath;
  }

  lemma {:induction false} StillFirst(cs: seq<Child>, es: seq<Child>, j: nat, from: int, d: int)
    requires IsAc4Trak(cs, j) && HasEntry(cs, j) && HasEntry(es, j)
    requires es == EntryReplaced(DigestMoved(cs, from, d), j, EntryOf(es, j))
    ensures IsAc4Trak(es, j)
  {
    hide Moved, MovedAll;
    forall i | 0 <= i < j ensures !(es[i].Trak? && es[i].entry.Some?) {
      assert es[i] == ChildMoved(cs[i], from, d);
    }
  }

  /** Lengths and pointers of a reshaped moov. */
  lemma {:induction false} ReshapedFollows(
      s: Buffer, t: Buffer, moov: Box, ks: seq<Box>, j: nat, hs: seq<Box>, from: int, d: int, body: Buffer, base: nat)
    requires WellFormed(s, moov, ks) && Reshaped(s, t, moov, ks, j, hs, from, d, body) && base <= from <= base + |s|
    ensures |t| == |s| + d
    ensures DigestFollows(Digest(s, ks), Digest(t, EditedList(ks, j, d)), j, base, base + |s|, d)
  {
    hide RestKept, Digest, EntryPath, SameKind, EntryBody, EditedList, GrownList, ChildFollows, EntryReplaced,
      DigestMoved, Walk,
      WellFormedChild;
    var js := EditedList(ks, j, d);
    DigestMovedFollows(Digest(s, ks), j, EntryOf(Digest(t, js), j), from, d, base, base + |s|);
  }

  // ---------------------------------------------------------------- after the normalization

  /** The entry's body once the version-1 extension is gone. */
  function Normalized(body: Buffer): Buffer {
    if IsQuickTime(body) then NormalBody(body) else body
  }

  lemma {:induction false} NormalizedIsPlain(body: Buffer)
    ensures !IsQuickTime(Normalized(body))
    ensures |Normalized(body)| == |body| - (if IsQuickTime(body) then 16 else 0)
  {
    if IsQuickTime(body) {
      var b := NormalBody(body);
      SpliceReads(Put(body, VERSION, [0, 0]), EXT_START, EXT_END, []);
      assert b[VERSION] == 0 && b[VERSION + 1] == 0;
    }
  }

  /**
   Every byte of moov outside the ac-4 entry, the headers around it and the chunk
   tables is kept; `hs` leads to the entry of `t`.
   */
  ghost predicate RestAround(s: Buffer, ks: seq<Box>, t: Buffer, js: seq<Box>, hs: seq<Box>) {
    && |hs| == 7
    && RestKept(s, t, ks, js, hs, hs[6].offset, hs[6].End() - (|t| - |s|), |t| - |s|)
  }

  lemma {:induction false} RestAroundGrown(
      s: Buffer, t: Buffer, ks: seq<Box>, js: seq<Box>, hs: seq<Box>, d: int)
    requires |hs| == 7 && |t| == |s| + d && RestKept(s, t, ks, js, hs, hs[6].offset, hs[6].End(), d)
    ensures RestAround(s, ks, t, js, GrownList(hs, d))
  {
    hide RestKept;
    RestGrown(s, t, ks, js, hs, d, hs[6].offset, hs[6].End(), d);
    assert GrownList(hs, d)[6] == hs[6].Grown(d);
  }

  lemma {:induction false} RestAroundTwice(
      s: Buffer, ks: seq<Box>, m: Buffer, mv: Box, ms: seq<Box>, j: nat, hs: seq<Box>, t: Buffer, js: seq<Box>)
    requires RestAround(s, ks, m, ms, hs) && RestAround(m, ms, t, js, GrownList(hs, |t| - |m|))
    requires WellFormed(m, mv, ms) && EntryChain(m, mv, ms, j, hs)
    ensures RestAround(s, ks, t, js, GrownList(hs, |t| - |m|))
  {
    hide RestKept, WellFormed, EntryChain, Sited;
    var d, e, l, gs := |m| - |s|, |t| - |m|, hs[6], GrownList(hs, |t| - |m|);
    assert gs[6] == l.Grown(e);
    ChainNested(m, mv, ms, j, hs);
    SitedSize(m, l);
    RestGrown(s, m, ks, ms, hs, e, l.offset, l.End() - d, d);
    forall i | 0 <= i < |gs| ensures gs[i].Body() <= l.End() { assert gs[i] == hs[i].Grown(e); }
    RestTwice(s, m, t, ks, ms, js, gs, l.offset, l.End() - d, d, e);
  }

  /** `t` is what `s` becomes: well-formed, pointers followed, only the ac-4 entry different. */
  ghost predicate Became(s: Buffer, ks: seq<Box>, t: Buffer, moov: Box, js: seq<Box>, j: nat, hs: seq<Box>, base: nat,
    body: Buffer) {
    && AllInBuffer(s, ks) && HasEntry(Digest(s, ks), j) && Ac4Moov(t, moov, js, j, hs)
    && SameKind(EntryOf(Digest(s, ks), j), EntryOf(Digest(t, js), j))
    && EntryBody(EntryOf(Digest(t, js), j)) == body
    && DigestFollows(Digest(s, ks), Digest(t, js), j, base, base + |s|, |t| - |s|)
    && RestAround(s, ks, t, js, hs)
  }

  lemma {:induction false} ReshapedBecomes(
      s: Buffer, t: Buffer, moov: Box, ks: seq<Box>, j: nat, hs: seq<Box>, from: int, d: int, body: Buffer, base: nat)
    requires Ac4Moov(s, moov, ks, j, hs) && Reshaped(s, t, moov, ks, j, hs, from, d, body) && base <= from <= base + |s|
    ensures |t| == |s| + d
    ensures Became(s, ks, t, moov.Grown(d), EditedList(ks, j, d), j, GrownList(hs, d), base, body)
  {
    hide Digest, WellFormed, EntryChain, LocateAC4, SameKind, EntryBody, EditedList, GrownList, DigestFollows,
      IsAc4Trak, EntryReplaced, RestKept;
    assert IsAc4TrakOf(s, ks, j);
    ReshapedIsAc4(s, t, moov, ks, j, hs, from, d, body);
    ReshapedFollows(s, t, moov, ks, j, hs, from, d, body, base);
    RestAroundGrown(s, t, ks, EditedList(ks, j, d), hs, d);
  }

  lemma {:induction false} SelfBecomes(s: Buffer, moov: Box, ks: seq<Box>, j: nat, hs: seq<Box>, base: nat)
    requires Ac4Moov(s, moov, ks, j, hs)
    ensures Became(s, ks, s, moov, ks, j, hs, base, EntryBody(EntryOf(Digest(s, ks), j)))
  {
    hide Digest, WellFormed, LocateAC4, EntryBody, DigestFollows, IsAc4Trak, HasEntry, EntryOf, RestKept;
    ChainOfAc4(s, moov, ks, j, hs);
    RestOfItself(s, moov, ks, j, hs);
    EntryInPlace(s, moov, ks, j, hs);
    EntryKind(s, hs[6]);
    DigestFollowsSelf(Digest(s, ks), j, base, base + |s|);
  }

  lemma {:induction false} ChainOfAc4(s: Buffer, moov: Box, ks: seq<Box>, j: nat, hs: seq<Box>)
    requires Ac4Moov(s, moov, ks, j, hs)
    ensures WellFormed(s, moov, ks) && EntryChain(s, moov, ks, j, hs) && |hs| == 7
  {
    hide WellFormed, EntryChain, Digest, LocateAC4;
  }

  /** Normalizing: the moov becomes one whose entry has no version-1 extension. */
  lemma {:induction false} NormalizeBecomes(s: Buffer, moov: Box, ks: seq<Box>, j: nat, hs: seq<Box>, base: nat)
      returns (moov': Box, js: seq<Box>, hs': seq<Box>)
    requires Ac4Moov(s, moov, ks, j, hs) && |s| < TWO32
    ensures var t := NormalizeEntry(s, base);
      && Became(s, ks, t, moov', js, j, hs', base, Normalized(EntryBody(EntryOf(Digest(s, ks), j))))
      && |t| <= |s| && hs' == GrownList(hs, |t| - |s|)
    ensures forall n: nat :: AllRoomFor(Digest(s, ks), n) ==> AllRoomFor(Digest(NormalizeEntry(s, base), js), n)
  {
    hide Digest, WellFormed, EntryChain, LocateAC4, SameKind, EntryBody, NormalizeEntry, Became, HasEntry, EntryOf,
      NormalBody,
      IsQuickTime, IsAc4Trak, Reshaped, Rewritten;
    var body := EntryBody(EntryOf(Digest(s, ks), j));
    NormalizeBranch(s, moov, ks, j, hs, base);
    GrownByNothing(hs);
    if IsQuickTime(body) {
      var t := NormalizeEntry(s, base);
      var from := base + hs[6].Body() + EXT_START;
      ExtensionDropped(s, moov, ks, j, hs, base);
      ReshapedBecomes(s, t, moov, ks, j, hs, from, -16, NormalBody(body), base);
      RoomReshaped(s, t, moov, ks, j, hs, from, -16, NormalBody(body));
      moov', js, hs' := moov.Grown(-16), EditedList(ks, j, -16), GrownList(hs, -16);
    } else {
      SelfBecomes(s, moov, ks, j, hs, base);
      moov', js, hs' := moov, ks, hs;
    }
  }

  lemma {:induction false} RoomReshaped(
      s: Buffer, t: Buffer, moov: Box, ks: seq<Box>, j: nat, hs: seq<Box>, from: int, d: int, body: Buffer)
    requires AllInBuffer(s, ks) && Reshaped(s, t, moov, ks, j, hs, from, d, body) && d <= 0
    ensures AllInBuffer(t, EditedList(ks, j, d))
    ensures forall n: nat :: AllRoomFor(Digest(s, ks), n) ==> AllRoomFor(Digest(t, EditedList(ks, j, d)), n)
  {
    hide Digest, WellFormed, EntryChain, SameKind, EntryBody, DigestMoved, EntryReplaced, EditedList, GrownList,
      RestKept;
    forall n: nat | AllRoomFor(Digest(s, ks), n) ensures AllRoomFor(Digest(t, EditedList(ks, j, d)), n) {
      RoomAfterShrinking(Digest(s, ks), n, j, EntryOf(Digest(t, EditedList(ks, j, d)), j), from, d);
    }
  }

  // ---------------------------------------------------------------- the whole step

  /** How many bytes the source's dac4 box has. */
  function PayloadSize(src: Option<Buffer>): nat {
    match SourceDac4(src) case Missing(_) => 0 case Payload(ins) => |ins|
  }

  /** A dac4 box is found among the children of the entry. */
  ghost predicate HasDac4(t: Buffer, hs: seq<Box>) {
    && |hs| == 7 && HeadersFit(t, hs) && HeaderLenAt(t, hs[6]).Some?
    && FindChild(t, hs[6].Body() + HeaderLenAt(t, hs[6]).value, hs[6].End(), DAC4).Some?
  }

  lemma {:induction false} Dac4Put(s: Buffer, moov: Box, ks: seq<Box>, j: nat, hs: seq<Box>, base: nat,
    src: Option<Buffer>)
      returns (moov': Box, js: seq<Box>, hs': seq<Box>)
    requires Ac4Moov(s, moov, ks, j, hs) && !IsQuickTime(EntryBody(EntryOf(Digest(s, ks), j)))
    requires HeaderLen(EntryBody(EntryOf(Digest(s, ks), j))).Some? && SourceDac4(src).Payload?
    requires |s| + PayloadSize(src) < TWO32 && AllRoomFor(Digest(s, ks), PayloadSize(src))
    ensures |hs| == 7 && 0 <= hs[6].Body() <= |s|
    ensures var h, ins := HeaderLen(EntryBody(EntryOf(Digest(s, ks), j))).value, SourceDac4(src).bytes;
      && hs[6].Body() + h <= |s|
      && var t := InsertChild(s, hs, base, h, ins);
      && Became(s, ks, t, moov', js, j, hs', base, WithChild(EntryBody(EntryOf(Digest(s, ks), j)), h, ins))
      && HasDac4(t, hs') && hs' == GrownList(hs, |t| - |s|)
  {
    hide Digest, WellFormed, EntryChain, LocateAC4, SameKind, EntryBody, Became, HasEntry, EntryOf, IsAc4Trak, Reshaped,
      InsertChild, WithChild, IsQuickTime, FindChild, SourceDac4, HeaderLen, IsDac4, HasDac4;
    var body := EntryBody(EntryOf(Digest(s, ks), j));
    var h, ins := HeaderLen(body).value, SourceDac4(src).bytes;
    ChainOfAc4(s, moov, ks, j, hs);
    EntryInPlace(s, moov, ks, j, hs);
    var p := hs[6].Body() + h;
    SourceIsDac4(src);
    RoomFits(Digest(s, ks), |ins|, base + p);
    ChildInserted(s, moov, ks, j, hs, base, h, ins);
    var t := InsertChild(s, hs, base, h, ins);
    moov', js, hs' := moov.Grown(|ins|), EditedList(ks, j, |ins|), GrownList(hs, |ins|);
    ReshapedBecomes(s, t, moov, ks, j, hs, base + p, |ins|, WithChild(body, h, ins), base);
    PutIsFound(s, ks, t, moov', js, j, hs, h, ins, base);
  }

  lemma {:induction false} PutIsFound(
      s: Buffer, ks: seq<Box>, t: Buffer, moov: Box, js: seq<Box>, j: nat, hs: seq<Box>, h: nat, ins: Buffer, base: nat)
    requires AllInBuffer(s, ks) && HasEntry(Digest(s, ks), j) && |hs| == 7
    requires HeaderLen(EntryBody(EntryOf(Digest(s, ks), j))) == Some(h)
    requires Became(s, ks, t, moov, js, j, GrownList(hs, |ins|), base,
      WithChild(EntryBody(EntryOf(Digest(s, ks), j)), h, ins))
    requires IsDac4(ins) && 0 <= hs[6].Body() + h && hs[6].Body() + h + |ins| <= |t|
    requires t[hs[6].Body() + h..hs[6].Body() + h + |ins|] == ins
    ensures HasDac4(t, GrownList(hs, |ins|))
  {
    hide Digest, WellFormed, EntryChain, LocateAC4, SameKind, EntryBody, HasEntry, EntryOf, IsAc4Trak, DigestFollows,
      RestAround, FindChild, HeaderLen, HeaderLenAt;
    var body, hs' := EntryBody(EntryOf(Digest(s, ks), j)), GrownList(hs, |ins|);
    EntryInPlace(t, moov, js, j, hs');
    HeaderLenRead(t, hs'[6]);
    HeaderLenKept(body, h, ins);
    Dac4Found(t, hs[6].Body() + h, hs'[6].End(), ins);
  }

  lemma {:induction false} HeaderLenKept(body: Buffer, h: nat, ins: Buffer)
    requires HeaderLen(body) == Some(h)
    ensures HeaderLen(WithChild(body, h, ins)) == Some(h)
    ensures U16(WithChild(body, h, ins), VERSION) == U16(body, VERSION)
    ensures |WithChild(body, h, ins)| == |body| + |ins|
  {
    var b := WithChild(body, h, ins);
    assert b[VERSION] == body[VERSION] && b[VERSION + 1] == body[VERSION + 1];
  }

  /** What the part behind the normalization comes to; `hs` leads to the entry of `s`, `hs'` to that of the result. */
  ghost predicate Dac4Outcome(
      s: Buffer, ks: seq<Box>, j: nat, hs: seq<Box>, base: nat, src: Option<Buffer>, out: Outcome,
      moov': Box, js: seq<Box>, hs': seq<Box>)
    requires AllInBuffer(s, ks) && HasEntry(Digest(s, ks), j)
  {
    var body := EntryBody(EntryOf(Digest(s, ks), j));
    match out
    case Untouched => false
    case Failed(why) => HeaderLen(body).None? || (!HasDac4(s, hs) && SourceDac4(src) == Missing(why))
    case Written(t) =>
      && HeaderLen(body).Some? && HasDac4(t, hs') && hs' == GrownList(hs, |t| - |s|)
      && (HasDac4(s, hs) ==> t == s && Became(s, ks, t, moov', js, j, hs', base, body))
      && (!HasDac4(s, hs) ==>
            && SourceDac4(src).Payload?
            && Became(s, ks, t, moov', js, j, hs', base, WithChild(body, HeaderLen(body).value, SourceDac4(src).bytes)))
  }

  /** The part behind the normalization: the entry gets a dac4 box unless it has one. */
  lemma {:induction false} Dac4Ensured(s: Buffer, moov: Box, ks: seq<Box>, j: nat, hs: seq<Box>, base: nat,
    src: Option<Buffer>)
      returns (moov': Box, js: seq<Box>, hs': seq<Box>)
    requires Ac4Moov(s, moov, ks, j, hs) && !IsQuickTime(EntryBody(EntryOf(Digest(s, ks), j)))
    requires |s| + PayloadSize(src) < TWO32 && AllRoomFor(Digest(s, ks), PayloadSize(src))
    ensures Dac4Outcome(s, ks, j, hs, base, src, EnsureDac4(s, hs, base, src), moov', js, hs')
  {
    hide Digest, WellFormed, EntryChain, LocateAC4, SameKind, EntryBody, Became, HasEntry, EntryOf, IsAc4Trak, Reshaped,
      InsertChild, WithChild, IsQuickTime, FindChild, SourceDac4, HeaderLen, HeaderLenAt;
    moov', js, hs' := moov, ks, hs;
    ChainOfAc4(s, moov, ks, j, hs);
    EntryInPlace(s, moov, ks, j, hs);
    HeaderLenRead(s, hs[6]);
    GrownByNothing(hs);
    if HasDac4(s, hs) {
      SelfBecomes(s, moov, ks, j, hs, base);
    } else if HeaderLenAt(s, hs[6]).Some? && SourceDac4(src).Payload? {
      moov', js, hs' := Dac4Put(s, moov, ks, j, hs, base, src);
    }
  }

  lemma {:induction false} BecomesTwice(
      s: Buffer, ks: seq<Box>, m: Buffer, mv: Box, ms: seq<Box>, hs: seq<Box>, j: nat,
      t: Buffer, moov: Box, js: seq<Box>, hs': seq<Box>, base: nat, b: Buffer, c: Buffer)
    requires Became(s, ks, m, mv, ms, j, hs, base, b) && Became(m, ms, t, moov, js, j, hs', base, c)
    requires hs' == GrownList(hs, |t| - |m|)
    ensures Became(s, ks, t, moov, js, j, hs', base, c)
  {
    hide Digest, WellFormed, EntryChain, LocateAC4, IsAc4Trak, EntryBody, HasEntry, EntryOf, DigestFollows,
      RestAround;
    ChainOfAc4(m, mv, ms, j, hs);
    RestAroundTwice(s, ks, m, mv, ms, j, hs, t, js);
    SameKindTrans(EntryOf(Digest(s, ks), j), EntryOf(Digest(m, ms), j), EntryOf(Digest(t, js), j));
    DigestFollowsTwice(Digest(s, ks), Digest(m, ms), Digest(t, js), j, base, base + |s|, |m| - |s|, |t| - |m|);
  }

  lemma {:induction false} SameKindTrans(e: Buffer, f: Buffer, g: Buffer)
    requires SameKind(e, f) && SameKind(f, g)
    ensures SameKind(e, g)
  {
    hide ReadBox;
  }

  /** What EnsureAC4ConfigBox writes, in terms of what a reader found before. */
  ghost predicate EnsuredFrom(
      s: Buffer, ks: seq<Box>, j: nat, base: nat, src: Option<Buffer>, t: Buffer, moov': Box, js: seq<Box>,
        hs': seq<Box>)
    requires AllInBuffer(s, ks) && HasEntry(Digest(s, ks), j)
  {
    var plain := Normalized(EntryBody(EntryOf(Digest(s, ks), j)));
    && HeaderLen(plain).Some? && HasDac4(t, hs')
    && (Became(s, ks, t, moov', js, j, hs', base, plain) ||
        (&& SourceDac4(src).Payload?
         && Became(s, ks, t, moov', js, j, hs', base, WithChild(plain, HeaderLen(plain).value, SourceDac4(src).bytes))))
  }

  /**
   For every well-formed moov: nothing is written exactly when no trak leads to
   an ac-4 entry or an error is reported, and an error is reported only for an
   entry too short for its fields or for a source without a dac4 box. Otherwise
   the moov becomes one whose ac-4 entry is version 0 and holds a dac4 box, with
   every chunk pointer moved along and every other byte kept.
   */
  lemma {:induction false} EnsureResult(s: Buffer, moov: Box, ks: seq<Box>, j: nat, base: nat, src: Option<Buffer>)
      returns (moov': Box, js: seq<Box>, hs': seq<Box>)
    requires WellFormed(s, moov, ks) && AllInBuffer(s, ks) && IsAc4Trak(Digest(s, ks), j)
    requires |s| + PayloadSize(src) < TWO32 && AllRoomFor(Digest(s, ks), PayloadSize(src))
    ensures Ensure(s, base, src).Untouched? <==> j == |ks|
    ensures j < |ks| ==> HasEntry(Digest(s, ks), j)
    ensures Ensure(s, base, src).Written? ==>
      EnsuredFrom(s, ks, j, base, src, Ensure(s, base, src).moov, moov', js, hs')
    ensures Ensure(s, base, src).Failed? ==>
      || HeaderLen(Normalized(EntryBody(EntryOf(Digest(s, ks), j)))).None?
      || SourceDac4(src) == Missing(Ensure(s, base, src).reason)
    ensures
      j < |ks| && HeaderLen(Normalized(EntryBody(EntryOf(Digest(s, ks), j)))).Some? && SourceDac4(src).Payload?
      ==> Ensure(s, base, src).Written?
  {
    hide Digest, WellFormed, EntryBody, Became, IsQuickTime, Normalized, WithChild, HeaderLen, SourceDac4, FindChild,
      NormalizeEntry, EnsureDac4, LocateAC4, HasDac4, EntryOf, HasEntry;
    if j == |ks| {
      Located(s, moov, ks, j);
      moov', js, hs' := moov, ks, [];
    } else {
      Ac4MoovOf(s, moov, ks, j);
      moov', js, hs' := EnsureAc4(s, moov, ks, j, LocateAC4(s).value, base, src);
    }
  }

  lemma {:induction false} EntryThere(s: Buffer, moov: Box, ks: seq<Box>, j: nat, hs: seq<Box>)
    requires Ac4Moov(s, moov, ks, j, hs)
    ensures AllInBuffer(s, ks) && HasEntry(Digest(s, ks), j) && LocateAC4(s) == Some(hs) && |hs| == 7
  {
    hide Digest, WellFormed, EntryChain, LocateAC4, IsAc4Trak;
  }

  lemma {:induction false} BecameAc4(
      s: Buffer, ks: seq<Box>, t: Buffer, moov: Box, js: seq<Box>, j: nat, hs: seq<Box>, base: nat, body: Buffer)
    requires Became(s, ks, t, moov, js, j, hs, base, body)
    ensures Ac4Moov(t, moov, js, j, hs) && AllInBuffer(t, js) && HasEntry(Digest(t, js), j)
    ensures EntryBody(EntryOf(Digest(t, js), j)) == body && LocateAC4(t) == Some(hs) && |hs| == 7 && HeadersFit(t, hs)
  {
    hide Digest, WellFormed, EntryChain, LocateAC4, IsAc4Trak, SameKind, EntryBody, DigestFollows, RestAround;
  }

  lemma {:induction false} GrownTwice(hs: seq<Box>, d: int, e: int)
    ensures GrownList(GrownList(hs, d), e) == GrownList(hs, d + e)
  {
    assert forall i :: 0 <= i < |hs| ==> GrownList(GrownList(hs, d), e)[i] == GrownList(hs, d + e)[i];
  }

  lemma {:induction false} EnsureAc4(s: Buffer, moov: Box, ks: seq<Box>, j: nat, hs: seq<Box>, base: nat,
    src: Option<Buffer>)
      returns (moov': Box, js: seq<Box>, hs': seq<Box>)
    requires Ac4Moov(s, moov, ks, j, hs)
    requires |s| + PayloadSize(src) < TWO32 && AllRoomFor(Digest(s, ks), PayloadSize(src))
    ensures !Ensure(s, base, src).Untouched? && HasEntry(Digest(s, ks), j)
    ensures Ensure(s, base, src).Written? ==>
      && EnsuredFrom(s, ks, j, base, src, Ensure(s, base, src).moov, moov', js, hs')
      && hs' == GrownList(hs, |Ensure(s, base, src).moov| - |s|)
    ensures Ensure(s, base, src).Failed? ==>
      || HeaderLen(Normalized(EntryBody(EntryOf(Digest(s, ks), j)))).None?
      || SourceDac4(src) == Missing(Ensure(s, base, src).reason)
    ensures HeaderLen(Normalized(EntryBody(EntryOf(Digest(s, ks), j)))).Some? && SourceDac4(src).Payload? ==>
      Ensure(s, base, src).Written?
  {
    hide Digest, WellFormed, EntryBody, EntryChain, IsQuickTime, NormalBody, Normalized, WithChild, HeaderLen,
      SourceDac4, FindChild, NormalizeEntry, EnsureDac4, LocateAC4, HasDac4, EntryOf, DigestFollows, SameKind,
      IsAc4Trak, Became, GrownList, Ac4Moov;
    EntryThere(s, moov, ks, j, hs);
    var body := EntryBody(EntryOf(Digest(s, ks), j));
    var mv, ms, m := NormalizeBecomes(s, moov, ks, j, hs, base);
    var dst := NormalizeEntry(s, base);
    BecameAc4(s, ks, dst, mv, ms, j, m, base, Normalized(body));
    NormalizedIsPlain(body);
    moov', js, hs' := Dac4Ensured(dst, mv, ms, j, m, base, src);
    if Ensure(s, base, src).Written? {
      var t := Ensure(s, base, src).moov;
      GrownTwice(hs, |dst| - |s|, |t| - |dst|);
      if HasDac4(dst, m) {
        BecomesTwice(s, ks, dst, mv, ms, m, j, t, moov', js, hs', base, Normalized(body), Normalized(body));
      } else {
        var c := WithChild(Normalized(body), HeaderLen(Normalized(body)).value, SourceDac4(src).bytes);
        BecomesTwice(s, ks, dst, mv, ms, m, j, t, moov', js, hs', base, Normalized(body), c);
      }
    }
  }

  /**
   Any tree of boxes read in moov is read again in the rewritten moov: the boxes
   around the ac-4 entry grown, those behind it moved, the others in place, all with
   their children nested in them as before.
   */
  lemma {:induction false} EnsureKeepsTree(
      s: Buffer, moov: Box, ks: seq<Box>, j: nat, base: nat, src: Option<Buffer>, n: Node)
    requires WellFormed(s, moov, ks) && AllInBuffer(s, ks) && IsAc4Trak(Digest(s, ks), j) && j < |ks|
    requires |s| + PayloadSize(src) < TWO32 && AllRoomFor(Digest(s, ks), PayloadSize(src))
    requires LocateAC4(s).Some? ==>
      var hs := LocateAC4(s).value; Reads(s, n) && Apart(s, ks, hs, hs[6].offset, hs[6].End(), n)
    ensures LocateAC4(s).Some?
    ensures var e := LocateAC4(s).value[6];
      Ensure(s, base, src).Written? ==>
        var t := Ensure(s, base, src).moov;
        Reads(t, Follow(n, e.offset, e.End(), |t| - |s|))
  {
    hide Digest, WellFormed, EntryBody, EntryChain, Normalized, WithChild, HeaderLen, SourceDac4, Sited, LocateAC4,
      Ensure, HasDac4, EntryOf, IsAc4Trak, Reads, Apart, Follow, Became, Ac4Moov, HasEntry;
    Ac4MoovOf(s, moov, ks, j);
    var hs := LocateAC4(s).value;
    EntryThere(s, moov, ks, j, hs);
    var moov', js, hs' := EnsureAc4(s, moov, ks, j, hs, base, src);
    if Ensure(s, base, src).Written? {
      var t, plain := Ensure(s, base, src).moov, Normalized(EntryBody(EntryOf(Digest(s, ks), j)));
      if Became(s, ks, t, moov', js, j, hs', base, plain) {
        BecameTree(s, moov, ks, j, hs, t, moov', js, base, plain, n);
      } else {
        BecameTree(s, moov, ks, j, hs, t, moov', js, base,
          WithChild(plain, HeaderLen(plain).value, SourceDac4(src).bytes), n);
      }
    }
  }

  lemma {:induction false} BecameTree(
      s: Buffer, moov: Box, ks: seq<Box>, j: nat, hs: seq<Box>, t: Buffer, moov': Box, js: seq<Box>, base: nat,
      body: Buffer, n: Node)
    requires Ac4Moov(s, moov, ks, j, hs) && Became(s, ks, t, moov', js, j, GrownList(hs, |t| - |s|), base, body)
    requires |hs| == 7 && Reads(s, n) && Apart(s, ks, hs, hs[6].offset, hs[6].End(), n)
    ensures Reads(t, Follow(n, hs[6].offset, hs[6].End(), |t| - |s|))
  {
    hide Digest, WellFormed, EntryBody, EntryChain, Sited, LocateAC4, EntryOf, SameKind, IsAc4Trak, DigestFollows,
      Reads,
      Apart, Follow, BytesKept, TablesAside, GrownList;
    var d := |t| - |s|;
    var gs := GrownList(hs, d);
    ChainOfAc4(s, moov, ks, j, hs);
    ChainNested(s, moov, ks, j, hs);
    SitedSize(s, hs[6]);
    ChainOfAc4(t, moov', js, j, gs);
    GrownChain(t, moov', js, j, hs, d);
    assert gs[6] == hs[6].Grown(d);
    RestGrown(s, t, ks, js, gs, -d, hs[6].offset, hs[6].End(), d);
    GrownTwice(hs, d, -d);
    GrownByNothing(hs);
    TreeKept(s, t, ks, hs, hs[6].offset, hs[6].End(), d, n);
  }

  lemma {:induction false} GrownChain(t: Buffer, moov: Box, js: seq<Box>, j: nat, hs: seq<Box>, d: int)
    requires WellFormed(t, moov, js) && EntryChain(t, moov, js, j, GrownList(hs, d)) && |hs| == 7
    ensures ChainGrown(t, hs, d) && hs[6].offset <= hs[6].End() + d
  {
    hide WellFormed, EntryChain, Sited;
    var gs := GrownList(hs, d);
    ChainSited(t, moov, js, j, gs);
    forall i | 0 < i < |hs| ensures Sited(t, hs[i].Grown(d)) { assert gs[i] == hs[i].Grown(d); }
    SitedSize(t, gs[6]);
  }

  /** Every chunk outside moov is found by its pointer in the rewritten file, for media data before or after moov. */
  lemma {:induction false} EnsureKeepsChunks(
      pre: Buffer, s: Buffer, post: Buffer, moov: Box, ks: seq<Box>, j: nat, src: Option<Buffer>)
      returns (moov': Box, js: seq<Box>)
    requires WellFormed(s, moov, ks) && AllInBuffer(s, ks) && IsAc4Trak(Digest(s, ks), j)
    requires |s| + PayloadSize(src) < TWO32 && AllRoomFor(Digest(s, ks), PayloadSize(src))
    ensures Ensure(s, |pre|, src).Written? ==>
      var t := Ensure(s, |pre|, src).moov;
      && WellFormed(t, moov', js) && AllInBuffer(t, js) && |js| == |ks|
      && forall i :: 0 <= i < |ks| ==>
           ChunksKept(pre + s + post, pre + t + post, |pre|, |pre| + |s|, Digest(s, ks)[i], Digest(t, js)[i])
  {
    hide Digest, WellFormed, EntryBody, EntryChain, Normalized, WithChild, HeaderLen, SourceDac4,
      Ensure, LocateAC4, HasDac4, EntryOf, SameKind, IsAc4Trak, ChildFollows, ChunksKept;
    var hs';
    moov', js, hs' := EnsureResult(s, moov, ks, j, |pre|, src);
    if Ensure(s, |pre|, src).Written? {
      var t := Ensure(s, |pre|, src).moov;
      forall i | 0 <= i < |ks|
        ensures ChunksKept(pre + s + post, pre + t + post, |pre|, |pre| + |s|, Digest(s, ks)[i], Digest(t, js)[i])
      {
        FollowingKeepsChunks(pre, s, t, post, Digest(s, ks)[i], Digest(t, js)[i], i != j);
      }
    }
  }

  /** Running the step on its own result writes the same bytes again, whatever the source offers then. */
  lemma {:induction false} EnsureTwice(
      s: Buffer, moov: Box, ks: seq<Box>, j: nat, base: nat, src: Option<Buffer>, again: Option<Buffer>)
    requires WellFormed(s, moov, ks) && AllInBuffer(s, ks) && IsAc4Trak(Digest(s, ks), j)
    requires |s| + PayloadSize(src) < TWO32 && AllRoomFor(Digest(s, ks), PayloadSize(src))
    ensures Ensure(s, base, src).Written? ==> Ensure(Ensure(s, base, src).moov, base, again) == Ensure(s, base, src)
  {
    hide Digest, WellFormed, EntryBody, EntryChain, Normalized, WithChild, HeaderLen, SourceDac4, FindChild,
      LocateAC4, EntryOf, SameKind, DigestFollows, IsQuickTime, NormalizeEntry, IsAc4Trak, Ensure;
    var moov', js, hs' := EnsureResult(s, moov, ks, j, base, src);
    if Ensure(s, base, src).Written? {
      var t := Ensure(s, base, src).moov;
      var body := EntryBody(EntryOf(Digest(s, ks), j));
      NormalizedIsPlain(body);
      NothingLeftToDo(t, moov', js, j, hs', base, again, Normalized(body), src);
    }
  }

  lemma {:induction false} NothingLeftToDo(
      t: Buffer, moov: Box, js: seq<Box>, j: nat, hs: seq<Box>, base: nat, again: Option<Buffer>, plain: Buffer,
        src: Option<Buffer>)
    requires Ac4Moov(t, moov, js, j, hs) && HasDac4(t, hs)
    requires !IsQuickTime(plain) && HeaderLen(plain).Some?
    requires var body := EntryBody(EntryOf(Digest(t, js), j));
      || body == plain
      || (SourceDac4(src).Payload? && body == WithChild(plain, HeaderLen(plain).value, SourceDac4(src).bytes))
    ensures Ensure(t, base, again) == Written(t)
  {
    hide Digest, WellFormed, EntryBody, EntryChain, WithChild, HeaderLen, SourceDac4, FindChild, LocateAC4, EntryOf,
      IsAc4Trak, HeaderLenAt, NormalizeEntry;
    NormalizeBranch(t, moov, js, j, hs, base);
    var body := EntryBody(EntryOf(Digest(t, js), j));
    if body != plain {
      HeaderLenKept(plain, HeaderLen(plain).value, SourceDac4(src).bytes);
      LongEnough(plain, HeaderLen(plain).value);
    }
  }

  /** A version-1 entry that holds its header holds the extension. */
  lemma {:induction false} LongEnough(body: Buffer, h: nat)
    requires HeaderLen(body) == Some(h) && !IsQuickTime(body)
    ensures U16(body, VERSION) != 1
  {
  }
}
