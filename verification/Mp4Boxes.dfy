/**
 The box view of go_backend/ac4_config.go over a byte
 buffer (ISO/IEC 14496-12, section 4.2), as functions on `seq<byte>`.
 `ReadBox` and `FindChild` follow the code; `Walk` says that a list of boxes
 lies side by side in a byte range, `Tiled` that some list does.
 */
module Mp4Boxes {
  import opened Options
  import opened Endian

  // ---------------------------------------------------------------- boxes

  /** A four-character code as its big-endian number. */
  type FourCC = int

  const MOOV: FourCC := 0x6d6f_6f76
  const TRAK: FourCC := 0x7472_616b
  const MDIA: FourCC := 0x6d64_6961
  const MINF: FourCC := 0x6d69_6e66
  const STBL: FourCC := 0x7374_626c
  const STSD: FourCC := 0x7374_7364
  const STCO: FourCC := 0x7374_636f
  const CO64: FourCC := 0x636f_3634
  const AC_4: FourCC := 0x6163_2d34
  const DAC4: FourCC := 0x6461_6334
  const UDTA: FourCC := 0x7564_7461

  datatype Box = Box(offset: int, size: int, hdr: int, typ: FourCC) {
    function Body(): int { offset + hdr }

    function End(): int { offset + size }

    /** The same box `d` bytes further on. */
    function Moved(d: int): Box { this.(offset := offset + d) }

    /** The same box with `d` more bytes in it. */
    function Grown(d: int): Box { this.(size := size + d) }
  }

  /** readMP4Box: size 1 means a 64-bit size follows, size 0 "to the end of the buffer". */
  function ReadBox(s: Buffer, pos: int): (r: Option<Box>)
    ensures r.Some? ==>
      && r.value.offset == pos && 0 <= pos
      && (r.value.hdr == 8 || r.value.hdr == 16)
      && r.value.hdr <= r.value.size && r.value.End() <= |s|
  {
    if pos < 0 || pos + 8 > |s| then None
    else
      var field := U32(s, pos);
      if field == 1 && pos + 16 > |s| then None
      else
        var hdr := if field == 1 then 16 else 8;
        var size := if field == 1 then Signed64(U64(s, pos + 8))
                    else if field == 0 then |s| - pos
                    else field;
        if size < hdr || pos + size > |s| then None
        else Some(Box(pos, size, hdr, U32(s, pos + 4)))
  }

  /** The same test in the 64-bit arithmetic of the source, where `pos + size` wraps around. */
  predicate Accepts64(s: Buffer, pos: int) {
    && 0 <= pos && pos + 8 <= |s|
    && var field := U32(s, pos);
      && (field == 1 ==> pos + 16 <= |s|)
      && var size := if field == 1 then Signed64(U64(s, pos + 8)) else if field == 0 then |s| - pos else field;
        && size >= (if field == 1 then 16 else 8)
        && (if pos + size >= 0x8000_0000_0000_0000 then pos + size - 0x1_0000_0000_0000_0000 else pos + size) <= |s|
  }

  /** They differ only on a 64-bit size so large that the end of the box is beyond 2^63. */
  lemma {:induction false} AcceptedAlike(s: Buffer, pos: int)
    requires |s| < 0x4000_0000_0000_0000
    ensures Accepts64(s, pos) <==>
      || ReadBox(s, pos).Some?
      || (0 <= pos && pos + 16 <= |s| && U32(s, pos) == 1 && pos + Signed64(U64(s, pos + 8)) >= 0x8000_0000_0000_0000)
  {
    hide U32, U64;
  }

  /** Every header can be written in place. */
  predicate HeadersFit(s: Buffer, hs: seq<Box>) {
    forall i :: 0 <= i < |hs| ==>
      && 0 <= hs[i].offset && (hs[i].hdr == 8 || hs[i].hdr == 16)
      && hs[i].hdr <= hs[i].size && hs[i].End() <= |s|
  }

  ghost predicate InBuffer(s: Buffer, c: Option<Box>) {
    c.Some? ==> 0 <= c.value.offset && 8 <= c.value.hdr <= c.value.size && c.value.End() <= |s|
  }

  /** The loop of findChildMP4 from position `pos` on. */
  function SearchFrom(s: Buffer, pos: int, end: int, typ: FourCC): (r: Option<Box>)
    ensures InBuffer(s, r) && (r.Some? ==> HeadersFit(s, [r.value]))
    decreases end - pos
  {
    if pos + 8 > end then None
    else
      match ReadBox(s, pos)
      case None => None
      case Some(b) => if b.typ == typ then Some(b) else SearchFrom(s, b.End(), end, typ)
  }

  /** findChildMP4: the first box of type `typ` in [start, end). */
  function FindChild(s: Buffer, start: int, end: int, typ: FourCC): (r: Option<Box>)
    ensures InBuffer(s, r) && (r.Some? ==> HeadersFit(s, [r.value]))
  {
    SearchFrom(s, start, end, typ)
  }

  /** `k` is the box at its offset, with its size written out. */
  ghost predicate Sited(s: Buffer, k: Box) {
    ReadBox(s, k.offset) == Some(k) && U32(s, k.offset) != 0
  }

  function EndOf(a: int, ks: seq<Box>): int {
    if ks == [] then a else ks[|ks| - 1].End()
  }

  ghost predicate Adjacent(ks: seq<Box>, i: int) {
    0 < i < |ks| && ks[i].offset == ks[i - 1].End()
  }

  /** Boxes side by side from `a` up to fewer than 8 bytes before `b`. */
  ghost predicate Layout(a: int, b: int, ks: seq<Box>) {
    && 0 <= a <= b
    && (forall i :: 0 <= i < |ks| ==> 8 <= ks[i].hdr <= ks[i].size && a <= ks[i].offset && ks[i].End() <= b)
    && (ks != [] ==> ks[0].offset == a)
    && (forall i :: 0 < i < |ks| ==> Adjacent(ks, i))
    && EndOf(a, ks) <= b < EndOf(a, ks) + 8
  }

  ghost predicate AllSited(s: Buffer, ks: seq<Box>) {
    forall i :: 0 <= i < |ks| ==> Sited(s, ks[i])
  }

  ghost predicate Walk(s: Buffer, a: int, b: int, ks: seq<Box>) {
    Layout(a, b, ks) && AllSited(s, ks) && b <= |s|
  }

  /** The range holds whole boxes with explicit sizes, up to fewer than 8 spare bytes. */
  ghost predicate Tiled(s: Buffer, a: int, b: int) {
    exists ks :: Walk(s, a, b, ks)
  }

  lemma {:induction false} LayoutOrder(a: int, b: int, ks: seq<Box>)
    requires Layout(a, b, ks)
    ensures forall i, j :: 0 <= i < j < |ks| ==> ks[i].End() <= ks[j].offset
  {
    forall i, j | 0 <= i < j < |ks| ensures ks[i].End() <= ks[j].offset {
      LayoutBefore(a, b, ks, i, j);
    }
  }

  lemma {:induction false} LayoutBefore(a: int, b: int, ks: seq<Box>, i: nat, j: nat)
    requires Layout(a, b, ks) && i < j < |ks|
    ensures ks[i].End() <= ks[j].offset
  {
    assert Adjacent(ks, j);
    if i + 1 < j { LayoutBefore(a, b, ks, i, j - 1); }
  }

  /** Where box `i` of a walk starts, or the walk stops. */
  function StartAt(a: int, ks: seq<Box>, i: nat): int
    requires i <= |ks|
  {
    if i < |ks| then ks[i].offset else EndOf(a, ks)
  }

  /** `i` is the index of the first box of type `typ`, or the length when there is none. */
  ghost predicate IsFirst(ks: seq<Box>, typ: FourCC, i: nat) {
    && i <= |ks|
    && (i < |ks| ==> ks[i].typ == typ)
    && forall j :: 0 <= j < i ==> ks[j].typ != typ
  }

  function BoxAt(ks: seq<Box>, i: nat): Option<Box> {
    if i < |ks| then Some(ks[i]) else None
  }

  lemma {:induction false} FirstExists(ks: seq<Box>, typ: FourCC) returns (i: nat)
    ensures IsFirst(ks, typ, i)
  {
    i := 0;
    while i < |ks| && ks[i].typ != typ
      invariant i <= |ks|
      invariant forall j :: 0 <= j < i ==> ks[j].typ != typ
    {
      i := i + 1;
    }
  }

  /** findChildMP4 finds the first box of the type in the list that walks the range. */
  lemma {:induction false} FindChildIsFirst(s: Buffer, a: int, b: int, ks: seq<Box>, typ: FourCC, i: nat)
    requires Walk(s, a, b, ks) && IsFirst(ks, typ, i)
    ensures FindChild(s, a, b, typ) == BoxAt(ks, i)
  {
    FindChildFrom(s, a, b, ks, typ, i, 0);
  }

  lemma {:induction false} FindChildFrom(s: Buffer, a: int, b: int, ks: seq<Box>, typ: FourCC, i: nat, j: nat)
    requires Walk(s, a, b, ks) && IsFirst(ks, typ, i) && j <= i
    ensures SearchFrom(s, StartAt(a, ks, j), b, typ) == BoxAt(ks, i)
    decreases i - j
  {
    if j < |ks| {
      assert Sited(s, ks[j]);
      if j < i {
        StartOfNext(a, b, ks, j);
        FindChildFrom(s, a, b, ks, typ, i, j + 1);
      }
    }
  }

  lemma {:induction false} StartOfNext(a: int, b: int, ks: seq<Box>, j: nat)
    requires Layout(a, b, ks) && j < |ks|
    ensures StartAt(a, ks, j + 1) == ks[j].End() && StartAt(a, ks, 0) == a
  {
    if j + 1 < |ks| { assert Adjacent(ks, j + 1); }
  }
}
