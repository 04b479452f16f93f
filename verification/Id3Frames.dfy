/**
 walkID3Frames of go_backend/id3_reader.go over the decoded bytes of a tag. A
 caller that wants the cover and one that skips it see the same text frames and
 end the same way, whatever the bytes are.
 */
module Id3Frames {
  import opened Options
  import opened Endian
  import opened Unsynchronization

  const MAX_FRAME: nat := 32 * 1024 * 1024

  datatype Visit = Visit(id: Bytes, data: Bytes)

  datatype Outcome = Outcome(visits: seq<Visit>, failed: bool)

  const APIC: Bytes := [0x41, 0x50, 0x49, 0x43]
  const PIC: Bytes := [0x50, 0x49, 0x43]
  const COMM: Bytes := [0x43, 0x4f, 0x4d, 0x4d]
  const USLT: Bytes := [0x55, 0x53, 0x4c, 0x54]
  const ULT: Bytes := [0x55, 0x4c, 0x54]
  const THREE_DI: Bytes := [0x33, 0x44, 0x49]

  predicate Picture(id: Bytes) {
    id == APIC || id == PIC
  }

  predicate Text(id: Bytes)
    requires id != []
  {
    !Picture(id) && (id[0] == 0x54 || id == COMM || id == USLT || id == ULT)
  }

  function HeaderLength(version: byte): nat {
    if version == 2 then 6 else 10
  }

  function IdLength(version: byte): nat {
    if version == 2 then 3 else 4
  }

  /** The frame size, or None for a syncsafe size with a high bit set. */
  function FrameSize(version: byte, h: Bytes): Option<int>
    requires |h| == HeaderLength(version)
  {
    if version == 2 then Some(At(h, 3) * 0x1_0000 + At(h, 4) * 0x100 + At(h, 5))
    else if version == 4 then
      if h[4] >= 128 || h[5] >= 128 || h[6] >= 128 || h[7] >= 128 then None
      else Some(At(h, 4) * 0x20_0000 + At(h, 5) * 0x4000 + At(h, 6) * 0x80 + At(h, 7))
    else Some(At(h, 4) * 0x100_0000 + At(h, 5) * 0x1_0000 + At(h, 6) * 0x100 + At(h, 7))
  }

  function Bit(flags: byte, weight: nat): bool
    requires weight > 0
  {
    flags / weight % 2 == 1
  }

  /** The payload a visitor gets: format prefixes cut off, unsynchronization removed. */
  function Payload(version: byte, tagUnsync: bool, flags: byte, data: Bytes): Option<Bytes> {
    var grouped := (version == 3 && Bit(flags, 0x20)) || (version == 4 && Bit(flags, 0x40));
    if grouped && |data| < 1 then None
    else
      var a := if grouped then data[1..] else data;
      var prefixed := version == 4 && Bit(flags, 0x01);
      if prefixed && |a| < 4 then None
      else
        var b := if prefixed then a[4..] else a;
        Some(if tagUnsync || (version == 4 && Bit(flags, 0x02)) then RemoveFrom(b, 0) else b)
  }

  /** How much of the stream a tag walk may look at, and how it treats frames. */
  datatype Tag = Tag(stream: Bytes, version: byte, tagUnsync: bool)

  /** What the head of the next frame leads to. */
  datatype Step =
    | Stop(failed: bool)
    | Frame(id: Bytes, flags: byte, start: nat, size: nat)

  predicate AllZero(b: Bytes) {
    forall i :: 0 <= i < |b| ==> b[i] == 0
  }

  function Head(t: Tag, pos: nat, remaining: int): (s: Step)
    requires remaining >= HeaderLength(t.version)
    ensures s.Frame? ==>
      && s.id != [] && s.start == pos + HeaderLength(t.version)
      && 0 < s.size <= remaining - HeaderLength(t.version)
  {
    var n := HeaderLength(t.version);
    if pos + n > |t.stream| then Stop(pos < |t.stream| && !AllZero(t.stream[pos..]))
    else
      var h := t.stream[pos..pos + n];
      if h[0] == 0 || h[..3] == THREE_DI then Stop(false)
      else
        match FrameSize(t.version, h)
        case None => Stop(true)
        case Some(size) =>
          if size <= 0 || size > remaining - n then Stop(true)
          else Frame(h[..IdLength(t.version)], if t.version == 2 then 0 else h[9], pos + n, size)
  }

  predicate Unsupported(version: byte, flags: byte) {
    (version == 3 && (Bit(flags, 0x80) || Bit(flags, 0x40))) || (version == 4 && (Bit(flags, 0x08) || Bit(flags, 0x04)))
  }

  /** Whether a frame's payload is read; `wantsCover` decides from the visits so far. */
  predicate Reads(t: Tag, f: Step, wantsCover: seq<Visit> -> bool, visits: seq<Visit>)
    requires f.Frame? && f.id != []
  {
    && ((Picture(f.id) && wantsCover(visits)) || Text(f.id))
    && !Unsupported(t.version, f.flags) && f.size <= MAX_FRAME
  }

  function Visited(t: Tag, f: Step, visits: seq<Visit>): seq<Visit>
    requires f.Frame? && f.start + f.size <= |t.stream|
  {
    match Payload(t.version, t.tagUnsync, f.flags, t.stream[f.start..f.start + f.size])
    case None => visits
    case Some(data) => visits + [Visit(f.id, data)]
  }

  /** The walk from `pos` with `remaining` bytes of the tag left. */
  function Walk(t: Tag, pos: nat, remaining: int, wantsCover: seq<Visit> -> bool, visits: seq<Visit>): Outcome
    decreases remaining
  {
    if remaining < HeaderLength(t.version) then Outcome(visits, false)
    else
      match Head(t, pos, remaining)
      case Stop(failed) => Outcome(visits, failed)
      case Frame(id, flags, start, size) =>
        // A seekable reader would skip beyond its end without an error; the tag fits the file.
        if start + size > |t.stream| then Outcome(visits, true)
        else
          var f := Frame(id, flags, start, size);
          var seen := if Reads(t, f, wantsCover, visits) then Visited(t, f, visits) else visits;
          Walk(t, start + size, remaining - HeaderLength(t.version) - size, wantsCover, seen)
  }

  // ---------------------------------------------------------------- text frames

  /** The visits that set metadata. */
  function TextOnly(visits: seq<Visit>): seq<Visit> {
    if visits == [] then []
    else
      var front, v := TextOnly(visits[..|visits| - 1]), visits[|visits| - 1];
      if Picture(v.id) then front else front + [v]
  }

  lemma {:induction false} TextOnlyAppend(visits: seq<Visit>, v: Visit)
    ensures TextOnly(visits + [v]) == if Picture(v.id) then TextOnly(visits) else TextOnly(visits) + [v]
  {
    assert (visits + [v])[..|visits|] == visits;
  }

  /** Whatever the callers want of pictures, their text frames and their errors are the same. */
  lemma {:induction false} SameText(
      t: Tag, pos: nat, remaining: int, w1: seq<Visit> -> bool, v1: seq<Visit>, w2: seq<Visit> -> bool, v2: seq<Visit>)
    requires TextOnly(v1) == TextOnly(v2)
    ensures TextOnly(Walk(t, pos, remaining, w1, v1).visits) == TextOnly(Walk(t, pos, remaining, w2, v2).visits)
    ensures Walk(t, pos, remaining, w1, v1).failed == Walk(t, pos, remaining, w2, v2).failed
    decreases remaining
  {
    hide Head, Payload, Unsupported, TextOnly;
    if remaining >= HeaderLength(t.version) {
      var f := Head(t, pos, remaining);
      if f.Frame? && f.start + f.size <= |t.stream| {
        var s1 := if Reads(t, f, w1, v1) then Visited(t, f, v1) else v1;
        var s2 := if Reads(t, f, w2, v2) then Visited(t, f, v2) else v2;
        SeenText(t, f, w1, v1, w2, v2);
        SameText(t, f.start + f.size, remaining - HeaderLength(t.version) - f.size, w1, s1, w2, s2);
      }
    }
  }

  lemma {:induction false} SeenText(
      t: Tag, f: Step, w1: seq<Visit> -> bool, v1: seq<Visit>, w2: seq<Visit> -> bool, v2: seq<Visit>)
    requires f.Frame? && f.id != [] && f.start + f.size <= |t.stream| && TextOnly(v1) == TextOnly(v2)
    ensures TextOnly(if Reads(t, f, w1, v1) then Visited(t, f, v1) else v1)
      == TextOnly(if Reads(t, f, w2, v2) then Visited(t, f, v2) else v2)
  {
    hide Payload, Unsupported, TextOnly;
    var p := Payload(t.version, t.tagUnsync, f.flags, t.stream[f.start..f.start + f.size]);
    if p.Some? {
      TextOnlyAppend(v1, Visit(f.id, p.value));
      TextOnlyAppend(v2, Visit(f.id, p.value));
    }
  }

  ghost predicate PictureFree(visits: seq<Visit>) {
    forall i :: 0 <= i < |visits| ==> !Picture(visits[i].id)
  }

  /** A scan with cover and a scan without apply the same text frames to any tag. */
  lemma {:induction false} CoverDoesNotMatter(t: Tag, size: int, wantsCover: seq<Visit> -> bool)
    ensures TextOnly(Walk(t, 0, size, wantsCover, []).visits) == TextOnly(Walk(t, 0, size, _ => false, []).visits)
    ensures Walk(t, 0, size, wantsCover, []).failed == Walk(t, 0, size, _ => false, []).failed
    ensures PictureFree(Walk(t, 0, size, _ => false, []).visits)
  {
    SameText(t, 0, size, wantsCover, [], _ => false, []);
    NoPictures(t, 0, size, []);
  }

  lemma {:induction false} NoPictures(t: Tag, pos: nat, remaining: int, visits: seq<Visit>)
    requires PictureFree(visits)
    ensures PictureFree(Walk(t, pos, remaining, _ => false, visits).visits)
    decreases remaining
  {
    hide Payload, Unsupported, Head;
    if remaining >= HeaderLength(t.version) {
      var f := Head(t, pos, remaining);
      if f.Frame? && f.start + f.size <= |t.stream| {
        var seen := if Reads(t, f, _ => false, visits) then Visited(t, f, visits) else visits;
        NoPictures(t, f.start + f.size, remaining - HeaderLength(t.version) - f.size, seen);
      }
    }
  }

  // ---------------------------------------------------------------- the loop

  method WalkID3Frames(t: Tag, size: int, wantsCover: seq<Visit> -> bool) returns (visits: seq<Visit>, failed: bool)
    ensures Outcome(visits, failed) == Walk(t, 0, size, wantsCover, [])
  {
    hide Head, Payload;
    var remaining: int, pos: nat := size, 0;
    visits := [];
    while remaining >= HeaderLength(t.version)
      invariant Walk(t, 0, size, wantsCover, []) == Walk(t, pos, remaining, wantsCover, visits)
    {
      var f := Head(t, pos, remaining);
      if f.Stop? { return visits, f.failed; }
      if f.start + f.size > |t.stream| { return visits, true; }
      if Reads(t, f, wantsCover, visits) {
        var data := Payload(t.version, t.tagUnsync, f.flags, t.stream[f.start..f.start + f.size]);
        if data.Some? { visits := visits + [Visit(f.id, data.value)]; }
      }
      pos, remaining := f.start + f.size, remaining - HeaderLength(t.version) - f.size;
    }
    return visits, false;
  }
}
