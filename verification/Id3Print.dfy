/**
 Frames printed as sections 3.2 to 3.4 of ID3v2.2.0, 3.3 of ID3v2.3.0 and 4 of
 ID3v2.4.0 lay them out, and what walkID3Frames of go_backend/id3_reader.go
 gets back from them: the text frames and the pictures it wants, as they were.
 */
module Id3Print {
  import opened Options
  import opened Endian
  import opened Unsynchronization
  import opened Id3Frames

  /** A frame: `status` and `flags` are not printed in version 2, `group` and `length` only where flagged. */
  datatype Content = Content(id: Bytes, status: byte, flags: byte, group: byte, length: Bytes, data: Bytes)

  predicate Flag(flags: byte, weight: nat)
    requires weight > 0
  {
    (flags / weight) % 2 == 1
  }

  predicate Grouped(version: byte, f: Content) {
    (version == 3 && Flag(f.flags, 0x20)) || (version == 4 && Flag(f.flags, 0x40))
  }

  predicate Measured(version: byte, f: Content) {
    version == 4 && Flag(f.flags, 0x01)
  }

  /** Compressed or encrypted. */
  predicate Coded(version: byte, f: Content) {
    || (version == 3 && (Flag(f.flags, 0x80) || Flag(f.flags, 0x40)))
    || (version == 4 && (Flag(f.flags, 0x08) || Flag(f.flags, 0x04)))
  }

  /** What stands behind the header of the frame. */
  function Body(version: byte, tagUnsync: bool, f: Content): Bytes {
    if Coded(version, f) then f.data
    else
      (if Grouped(version, f) then [f.group] else [])
      + (if Measured(version, f) then f.length else [])
      + if tagUnsync || (version == 4 && Flag(f.flags, 0x02)) then Unsynchronized(f.data) else f.data
  }

  /** A size in three or four digits of base 256, or in four of base 128. */
  function SizeBytes(version: byte, n: nat): Bytes
    requires n < Limit(version)
  {
    if version == 2 then [n / 0x1_0000, n / 0x100 % 0x100, n % 0x100]
    else if version == 4 then [n / 0x20_0000, n / 0x4000 % 0x80, n / 0x80 % 0x80, n % 0x80]
    else [n / 0x100_0000, n / 0x1_0000 % 0x100, n / 0x100 % 0x100, n % 0x100]
  }

  function Limit(version: byte): nat {
    if version == 2 then 0x100_0000 else if version == 4 then 0x1000_0000 else 0x1_0000_0000
  }

  predicate Printable(version: byte, tagUnsync: bool, f: Content) {
    && |f.id| == (if version == 2 then 3 else 4) && f.id[0] != 0 && f.id[..3] != [0x33, 0x44, 0x49]
    && |f.length| == 4 && 0 < |Body(version, tagUnsync, f)| < Limit(version)
  }

  function Print(version: byte, tagUnsync: bool, f: Content): Bytes
    requires Printable(version, tagUnsync, f)
  {
    f.id + SizeBytes(version, |Body(version, tagUnsync, f)|)
    + (if version == 2 then [] else [f.status, f.flags]) + Body(version, tagUnsync, f)
  }

  ghost predicate AllPrintable(version: byte, tagUnsync: bool, fs: seq<Content>) {
    forall i :: 0 <= i < |fs| ==> Printable(version, tagUnsync, fs[i])
  }

  ghost function PrintAll(version: byte, tagUnsync: bool, fs: seq<Content>): Bytes
    requires AllPrintable(version, tagUnsync, fs)
  {
    if fs == [] then [] else Print(version, tagUnsync, fs[0]) + PrintAll(version, tagUnsync, fs[1..])
  }

  // ---------------------------------------------------------------- what should be seen

  predicate IsPicture(id: Bytes) {
    id == [0x41, 0x50, 0x49, 0x43] || id == [0x50, 0x49, 0x43]
  }

  /** T***, COMM, USLT and ULT. */
  predicate IsText(id: Bytes) {
    || (id != [] && id[0] == 0x54)
    || id == [0x43, 0x4f, 0x4d, 0x4d] || id == [0x55, 0x53, 0x4c, 0x54] || id == [0x55, 0x4c, 0x54]
  }

  predicate Shown(version: byte, tagUnsync: bool, f: Content, coverWanted: bool) {
    && (IsText(f.id) || (IsPicture(f.id) && coverWanted))
    && !Coded(version, f) && |Body(version, tagUnsync, f)| <= 0x200_0000
  }

  /** The visits to the frames that are shown, in order, behind earlier visits. */
  function Seen(version: byte, tagUnsync: bool, fs: seq<Content>, wantsCover: seq<Visit> -> bool,
                visits: seq<Visit>): seq<Visit>
  {
    if fs == [] then visits
    else
      Seen(version, tagUnsync, fs[1..], wantsCover,
           if Shown(version, tagUnsync, fs[0], wantsCover(visits)) then visits + [Visit(fs[0].id, fs[0].data)]
           else visits)
  }

  // ---------------------------------------------------------------- one frame

  lemma {:induction false} Digits3(n: nat)
    requires n < 0x100_0000
    ensures n / 0x1_0000 * 0x1_0000 + n / 0x100 % 0x100 * 0x100 + n % 0x100 == n
  {
  }

  lemma {:induction false} Digits7(n: nat)
    requires n < 0x1000_0000
    ensures n / 0x20_0000 * 0x20_0000 + n / 0x4000 % 0x80 * 0x4000 + n / 0x80 % 0x80 * 0x80 + n % 0x80 == n
  {
    var a, b := n / 0x80, n / 0x4000;
    assert n == a * 0x80 + n % 0x80;
    assert a == b * 0x80 + a % 0x80;
    assert b == n / 0x20_0000 * 0x80 + b % 0x80;
  }

  /** The printed size is the size read. */
  lemma {:induction false} SizeRead(version: byte, h: Bytes, n: nat)
    requires 2 <= version <= 4 && |h| == HeaderLength(version) && n < Limit(version)
    requires h[if version == 2 then 3 else 4..if version == 2 then 6 else 8] == SizeBytes(version, n)
    ensures FrameSize(version, h) == Some(n)
  {
    var b := SizeBytes(version, n);
    if version == 2 {
      assert h[3] == b[0] && h[4] == b[1] && h[5] == b[2];
      Digits3(n);
    } else {
      assert h[4] == b[0] && h[5] == b[1] && h[6] == b[2] && h[7] == b[3];
      if version == 4 { Digits7(n); } else { WordOfDigits(n); }
    }
  }

  /** What is printed in front of a frame's body. */
  function HeadOf(version: byte, f: Content, n: nat): Bytes
    requires n < Limit(version)
  {
    f.id + SizeBytes(version, n) + if version == 2 then [] else [f.status, f.flags]
  }

  lemma {:induction false} HeadRead(t: Tag, pos: nat, remaining: int, f: Content, n: nat)
    requires 2 <= t.version <= 4 && |f.id| == (if t.version == 2 then 3 else 4) && f.id[0] != 0
    requires f.id[..3] != [0x33, 0x44, 0x49] && 0 < n < Limit(t.version)
    requires n + HeaderLength(t.version) <= remaining && pos + HeaderLength(t.version) <= |t.stream|
    requires t.stream[pos..pos + HeaderLength(t.version)] == HeadOf(t.version, f, n)
    ensures Head(t, pos, remaining)
      == Frame(f.id, if t.version == 2 then 0 else f.flags, pos + HeaderLength(t.version), n)
  {
    var h := t.stream[pos..pos + HeaderLength(t.version)];
    var b := SizeBytes(t.version, n);
    assert h[0] == f.id[0] && h[..3] == f.id[..3] && h[..IdLength(t.version)] == f.id;
    assert h[|f.id|..|f.id| + |b|] == b;
    SizeRead(t.version, h, n);
  }

  /** The payload is what was printed. */
  lemma {:induction false} PayloadRead(version: byte, tagUnsync: bool, f: Content)
    requires 2 <= version <= 4 && |f.length| == 4 && !Coded(version, f)
    ensures Payload(version, tagUnsync, if version == 2 then 0 else f.flags, Body(version, tagUnsync, f))
      == Some(f.data)
  {
    hide RemoveFrom, Unsynchronized;
    RemoveUndoes(f.data);
    var packed := if tagUnsync || (version == 4 && Flag(f.flags, 0x02)) then Unsynchronized(f.data) else f.data;
    var a := if Grouped(version, f) then [f.group] else [];
    var b := if Measured(version, f) then f.length else [];
    assert (a + b + packed)[|a|..] == b + packed;
    assert (b + packed)[|b|..] == packed;
  }

  // ---------------------------------------------------------------- the walk over printed frames

  lemma {:induction false} ShownIsRead(t: Tag, f: Content, at: Step, w: seq<Visit> -> bool, visits: seq<Visit>)
    requires 2 <= t.version <= 4 && Printable(t.version, t.tagUnsync, f)
    requires at.Frame? && at.id == f.id && at.flags == (if t.version == 2 then 0 else f.flags)
    requires at.size == |Body(t.version, t.tagUnsync, f)|
    ensures Reads(t, at, w, visits) <==> Shown(t.version, t.tagUnsync, f, w(visits))
  {
    hide Body;
  }

  lemma {:induction false} OneFrame(
      t: Tag, pos: nat, remaining: int, f: Content, more: Bytes, w: seq<Visit> -> bool, visits: seq<Visit>)
    requires 2 <= t.version <= 4 && pos <= |t.stream| && Printable(t.version, t.tagUnsync, f)
    requires t.stream[pos..] == Print(t.version, t.tagUnsync, f) + more
    requires remaining >= |Print(t.version, t.tagUnsync, f)|
    ensures var n := |Print(t.version, t.tagUnsync, f)|;
      && pos + n <= |t.stream| && t.stream[pos + n..] == more
      && Walk(t, pos, remaining, w, visits) == Walk(t, pos + n, remaining - n, w,
        if Shown(t.version, t.tagUnsync, f, w(visits)) then visits + [Visit(f.id, f.data)] else visits)
  {
    hide Body, SizeBytes, Head, Payload, Reads, Shown, Coded;
    var version, body := t.version, Body(t.version, t.tagUnsync, f);
    var head := HeadOf(version, f, |body|);
    var n := |head|;
    assert n == HeaderLength(version) by { SizeLength(version, |body|); }
    assert t.stream[pos..] == head + (body + more);
    Parts(t.stream, pos, head, body, more);
    HeadRead(t, pos, remaining, f, |body|);
    var at := Head(t, pos, remaining);
    ShownIsRead(t, f, at, w, visits);
    if Shown(version, t.tagUnsync, f, w(visits)) {
      assert !Coded(version, f) by { ShownNotCoded(version, t.tagUnsync, f, w(visits)); }
      PayloadRead(version, t.tagUnsync, f);
    }
  }

  lemma {:induction false} ShownNotCoded(version: byte, tagUnsync: bool, f: Content, wanted: bool)
    requires Shown(version, tagUnsync, f, wanted)
    ensures !Coded(version, f)
  {
  }

  lemma {:induction false} SizeLength(version: byte, n: nat)
    requires n < Limit(version)
    ensures |SizeBytes(version, n)| == if version == 2 then 3 else 4
  {
  }

  lemma {:induction false} Parts(s: Bytes, pos: nat, head: Bytes, body: Bytes, more: Bytes)
    requires pos <= |s| && s[pos..] == head + (body + more)
    ensures pos + |head| + |body| + |more| == |s|
    ensures s[pos..pos + |head|] == head
    ensures s[pos + |head|..pos + |head| + |body|] == body
    ensures s[pos + |head| + |body|..] == more
  {
    var t := s[pos..];
    assert t[..|head|] == head && t[|head|..] == body + more;
    assert t[|head|..][..|body|] == body && t[|head|..][|body|..] == more;
    assert s[pos..pos + |head|] == t[..|head|];
    assert s[pos + |head|..] == t[|head|..];
    assert s[pos + |head|..pos + |head| + |body|] == s[pos + |head|..][..|body|];
    assert s[pos + |head| + |body|..] == s[pos + |head|..][|body|..];
  }

  /** The walk arrives behind the printed frames with the visits it should have made. */
  lemma {:induction false} PrintedFramesWalked(
      t: Tag, pos: nat, room: int, fs: seq<Content>, rest: Bytes, w: seq<Visit> -> bool, visits: seq<Visit>)
    requires 2 <= t.version <= 4 && pos <= |t.stream| && room >= 0 && AllPrintable(t.version, t.tagUnsync, fs)
    requires t.stream[pos..] == PrintAll(t.version, t.tagUnsync, fs) + rest
    ensures var n := |PrintAll(t.version, t.tagUnsync, fs)|;
      && pos + n <= |t.stream| && t.stream[pos + n..] == rest
      && Walk(t, pos, n + room, w, visits) == Walk(t, pos + n, room, w, Seen(t.version, t.tagUnsync, fs, w, visits))
    decreases |fs|
  {
    hide Walk, Print, Printable, Shown;
    if fs == [] {
      assert PrintAll(t.version, t.tagUnsync, fs) + rest == rest;
    } else {
      var f, more := fs[0], PrintAll(t.version, t.tagUnsync, fs[1..]);
      var one := Print(t.version, t.tagUnsync, f);
      assert (one + more) + rest == one + (more + rest);
      OneFrame(t, pos, |one| + |more| + room, f, more + rest, w, visits);
      var seen := if Shown(t.version, t.tagUnsync, f, w(visits)) then visits + [Visit(f.id, f.data)] else visits;
      PrintedFramesWalked(t, pos + |one|, room, fs[1..], rest, w, seen);
    }
  }

  // ---------------------------------------------------------------- what may stand behind the frames

  ghost predicate Zeros(b: Bytes) {
    forall i :: 0 <= i < |b| ==> b[i] == 0
  }

  /** The tag ends here: no room for a header, the end of the bytes, padding, or a footer. */
  ghost predicate CleanEnd(version: byte, rest: Bytes, room: nat) {
    var n := if version == 2 then 6 else 10;
    || room < n
    || (|rest| < n && Zeros(rest))
    || (|rest| >= n && (rest[0] == 0 || rest[..3] == [0x33, 0x44, 0x49]))
  }

  function SizeField(version: byte, rest: Bytes): int
    requires |rest| >= if version == 2 then 6 else 10
  {
    if version == 2 then rest[3] as int * 0x1_0000 + rest[4] as int * 0x100 + rest[5] as int
    else if version == 4 then
      rest[4] as int * 0x20_0000 + rest[5] as int * 0x4000 + rest[6] as int * 0x80 + rest[7] as int
    else rest[4] as int * 0x100_0000 + rest[5] as int * 0x1_0000 + rest[6] as int * 0x100 + rest[7] as int
  }

  /** A header with a size of zero, beyond the tag, beyond the bytes, or, in version 4, with a high bit set. */
  ghost predicate BadFrame(version: byte, rest: Bytes, room: nat) {
    var n := if version == 2 then 6 else 10;
    && room >= n && |rest| >= n && rest[0] != 0 && rest[..3] != [0x33, 0x44, 0x49]
    && (|| (version == 4 && (rest[4] >= 128 || rest[5] >= 128 || rest[6] >= 128 || rest[7] >= 128))
        || SizeField(version, rest) == 0 || SizeField(version, rest) > room - n
        || SizeField(version, rest) > |rest| - n)
  }

  /** A header that is cut off. */
  ghost predicate CutHeader(version: byte, rest: Bytes, room: nat) {
    var n := if version == 2 then 6 else 10;
    room >= n && |rest| < n && !Zeros(rest)
  }

  lemma {:induction false} EndReached(
      t: Tag, pos: nat, room: nat, rest: Bytes, w: seq<Visit> -> bool, visits: seq<Visit>)
    requires 2 <= t.version <= 4 && pos <= |t.stream| && t.stream[pos..] == rest
    ensures CleanEnd(t.version, rest, room) ==> Walk(t, pos, room, w, visits) == Outcome(visits, false)
    ensures BadFrame(t.version, rest, room) || CutHeader(t.version, rest, room) ==>
      Walk(t, pos, room, w, visits) == Outcome(visits, true)
  {
    hide Reads, Visited;
    var n := HeaderLength(t.version);
    if |rest| >= n {
      var h := t.stream[pos..pos + n];
      assert h == rest[..n] && h[0] == rest[0] && h[..3] == rest[..3];
      if t.version == 2 { assert h[3] == rest[3] && h[4] == rest[4] && h[5] == rest[5]; }
      else { assert h[4] == rest[4] && h[5] == rest[5] && h[6] == rest[6] && h[7] == rest[7]; }
    }
  }

  /** Printing and walking: the walk visits exactly the frames to be shown, in order, and does not fail. */
  lemma {:induction false} PrintedFramesSeen(t: Tag, fs: seq<Content>, rest: Bytes, room: nat, w: seq<Visit> -> bool)
    requires 2 <= t.version <= 4 && AllPrintable(t.version, t.tagUnsync, fs)
    requires t.stream == PrintAll(t.version, t.tagUnsync, fs) + rest && CleanEnd(t.version, rest, room)
    ensures Walk(t, 0, |PrintAll(t.version, t.tagUnsync, fs)| + room, w, [])
      == Outcome(Seen(t.version, t.tagUnsync, fs, w, []), false)
  {
    hide Walk, Seen, PrintAll, CleanEnd;
    var n := |PrintAll(t.version, t.tagUnsync, fs)|;
    assert t.stream[0..] == t.stream;
    PrintedFramesWalked(t, 0, room, fs, rest, w, []);
    EndReached(t, n, room, rest, w, Seen(t.version, t.tagUnsync, fs, w, []));
  }

  /** Behind printed frames the walk fails at a bad or cut-off header, and has visited the frames before it. */
  lemma {:induction false} BadFrameFails(t: Tag, fs: seq<Content>, rest: Bytes, room: nat, w: seq<Visit> -> bool)
    requires 2 <= t.version <= 4 && AllPrintable(t.version, t.tagUnsync, fs)
    requires t.stream == PrintAll(t.version, t.tagUnsync, fs) + rest
    requires BadFrame(t.version, rest, room) || CutHeader(t.version, rest, room)
    ensures Walk(t, 0, |PrintAll(t.version, t.tagUnsync, fs)| + room, w, [])
      == Outcome(Seen(t.version, t.tagUnsync, fs, w, []), true)
  {
    hide Walk, Seen, PrintAll, BadFrame, CutHeader;
    var n := |PrintAll(t.version, t.tagUnsync, fs)|;
    assert t.stream[0..] == t.stream;
    PrintedFramesWalked(t, 0, room, fs, rest, w, []);
    EndReached(t, n, room, rest, w, Seen(t.version, t.tagUnsync, fs, w, []));
  }

  /** Anything else is a frame whose header and payload are there. */
  lemma {:induction false} EndsOrGoesOn(version: byte, rest: Bytes, room: nat)
    ensures CleanEnd(version, rest, room) || BadFrame(version, rest, room) || CutHeader(version, rest, room) ||
      var n := if version == 2 then 6 else 10;
      |rest| >= n && 0 < SizeField(version, rest) <= |rest| - n && SizeField(version, rest) <= room - n
  {
  }
}
