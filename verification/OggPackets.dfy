/**
 Packet collection of go_backend/audio_metadata_ogg.go (sections 5 and 6 of RFC
 3533): pages are read from bytes, segments of 255 bytes continue a packet, and
 the packets come out whatever way the stream was cut into pages.
 */
module OggPackets {
  import opened Options
  import opened Endian

  type Bytes = seq<byte>

  const MAX_PACKET: nat := 10 * 1024 * 1024
  const HEADER: nat := 27
  const MAGIC: Bytes := [0x4f, 0x67, 0x67, 0x53]

  /** A page: its header type and the segments its table cuts the data into. */
  datatype Page = Page(flags: byte, segments: seq<Bytes>)

  predicate Continued(p: Page) {
    p.flags % 2 == 1
  }

  // ---------------------------------------------------------------- reading a page

  function Total(table: Bytes, n: nat): nat
    requires n <= |table|
  {
    if n == 0 then 0 else Total(table, n - 1) + table[n - 1]
  }

  /** The first `n` segments of the data. */
  function Cut(table: Bytes, data: Bytes, n: nat): (r: seq<Bytes>)
    requires n <= |table| && Total(table, n) <= |data|
    ensures |r| == n
  {
    if n == 0 then []
    else
      assert Total(table, n - 1) <= Total(table, n);
      Cut(table, data, n - 1) + [data[Total(table, n - 1)..Total(table, n)]]
  }

  /** readOggPageWithHeader at position `pos`: the page, and where the next one starts. */
  function ReadPage(file: Bytes, pos: nat): (r: Option<(Page, nat)>)
    ensures r.Some? ==> pos + HEADER <= r.value.1 <= |file|
  {
    if pos + HEADER > |file| || file[pos..pos + 4] != MAGIC then None
    else
      var n := file[pos + 26];
      if pos + HEADER + n > |file| then None
      else
        var table := file[pos + HEADER..pos + HEADER + n];
        var size := Total(table, n);
        var start := pos + HEADER + n;
        if start + size > |file| then None
        else Some((Page(file[pos + 5], Cut(table, file[start..start + size], n)), start + size))
  }

  // ---------------------------------------------------------------- packets from segments

  /** Packets completed so far and the beginning of the next. */
  datatype Progress = Progress(done: seq<Bytes>, open: Bytes)

  /** One more segment: shorter than 255 bytes it ends the packet; empty packets are dropped. */
  function Fed(p: Progress, segment: Bytes): Progress {
    var open := p.open + segment;
    if |segment| >= 255 then Progress(p.done, open)
    else Progress(if open == [] then p.done else p.done + [open], [])
  }

  function Joined(segments: seq<Bytes>, n: nat): Progress
    requires n <= |segments|
  {
    if n == 0 then Progress([], []) else Fed(Joined(segments, n - 1), segments[n - 1])
  }

  /** All segments of the first `n` pages. */
  function SegmentsOf(pages: seq<Page>, n: nat): seq<Bytes>
    requires n <= |pages|
  {
    if n == 0 then [] else SegmentsOf(pages, n - 1) + pages[n - 1].segments
  }

  /** Page `i` says so if it starts in the middle of a packet. */
  ghost predicate FlagTrue(pages: seq<Page>, i: nat)
    requires i < |pages|
  {
    var s := SegmentsOf(pages, i);
    Continued(pages[i]) || Joined(s, |s|).open == []
  }

  /** No packet outgrows the cap. */
  ghost predicate Bounded(segments: seq<Bytes>) {
    forall n: nat :: n < |segments| ==> FitsCap(segments, n)
  }

  ghost predicate FitsCap(segments: seq<Bytes>, n: nat)
    requires n < |segments|
  {
    |Joined(segments, n).open| + |segments[n]| <= MAX_PACKET
  }

  lemma {:induction false} JoinedPrefix(a: seq<Bytes>, b: seq<Bytes>, n: nat)
    requires n <= |a|
    ensures Joined(a + b, n) == Joined(a, n)
    decreases n
  {
    if n > 0 { JoinedPrefix(a, b, n - 1); }
  }

  lemma {:induction false} DoneGrows(segments: seq<Bytes>, m: nat, n: nat)
    requires m <= n <= |segments|
    ensures Joined(segments, m).done <= Joined(segments, n).done
    decreases n
  {
    if m < n { DoneGrows(segments, m, n - 1); }
  }

  // ---------------------------------------------------------------- lacing

  /** How a packet is cut into segments: full ones, then one shorter than 255 bytes, possibly empty. */
  function Lace(p: Bytes): (r: seq<Bytes>)
    ensures |r| > 0
  {
    if |p| < 255 then [p] else [p[..255]] + Lace(p[255..])
  }

  function LaceAll(ps: seq<Bytes>, k: nat): seq<Bytes>
    requires k <= |ps|
  {
    if k == 0 then [] else LaceAll(ps, k - 1) + Lace(ps[k - 1])
  }

  function NonEmpty(ps: seq<Bytes>, k: nat): seq<Bytes>
    requires k <= |ps|
  {
    if k == 0 then [] else NonEmpty(ps, k - 1) + if ps[k - 1] == [] then [] else [ps[k - 1]]
  }

  /** The first full segment of a long packet. */
  lemma {:induction false} LaceFirst(before: seq<Bytes>, p: Bytes, q: Progress)
    requires Joined(before, |before|) == q && |p| >= 255
    ensures var more := before + [p[..255]];
      && more + Lace(p[255..]) == before + Lace(p) && |Lace(p)| == 1 + |Lace(p[255..])|
      && Joined(more, |more|) == Progress(q.done, q.open + p[..255])
      && q.open + p[..255] + p[255..] == q.open + p
  {
    var more := before + [p[..255]];
    assert more[..|before|] == before;
    JoinedPrefix(before, [p[..255]], |before|);
  }

  /** A short packet, or the end of a long one. */
  lemma {:induction false} LaceLast(before: seq<Bytes>, p: Bytes, q: Progress)
    requires Joined(before, |before|) == q && |p| < 255
    ensures Lace(p) == [p]
    ensures Joined(before + [p], |before| + 1)
      == Progress(if q.open + p == [] then q.done else q.done + [q.open + p], [])
  {
    JoinedPrefix(before, [p], |before|);
    assert (before + [p])[|before|] == p;
  }

  /** The segments of one packet behind others: nothing until the last, then the packet. */
  lemma {:induction false} LaceJoined(before: seq<Bytes>, p: Bytes, j: nat, q: Progress)
    requires Joined(before, |before|) == q && j <= |Lace(p)|
    ensures var n := |before| + j;
      var s := before + Lace(p);
      && (j < |Lace(p)| ==> Joined(s, n).done == q.done)
      && (j == |Lace(p)| ==> Joined(s, n) == Progress(if q.open + p == [] then q.done else q.done + [q.open + p], []))
    decreases |p|
  {
    hide Joined, Lace;
    JoinedPrefix(before, Lace(p), |before|);
    if |p| < 255 {
      LaceLast(before, p, q);
    } else {
      LaceFirst(before, p, q);
      if j > 0 { LaceJoined(before + [p[..255]], p[255..], j - 1, Progress(q.done, q.open + p[..255])); }
    }
  }

  /** However far a laced stream was read, the packets found are the non-empty ones that ended by then. */
  lemma {:induction false} LacedPrefix(ps: seq<Bytes>, k: nat, j: nat)
    requires k < |ps| && j < |Lace(ps[k])|
    ensures |LaceAll(ps, k)| + j <= |LaceAll(ps, k + 1)|
    ensures Joined(LaceAll(ps, k + 1), |LaceAll(ps, k)| + j).done == NonEmpty(ps, k)
  {
    LacedWhole(ps, k);
    LaceJoined(LaceAll(ps, k), ps[k], j, Progress(NonEmpty(ps, k), []));
  }

  lemma {:induction false} LacedWhole(ps: seq<Bytes>, k: nat)
    requires k <= |ps|
    ensures Joined(LaceAll(ps, k), |LaceAll(ps, k)|) == Progress(NonEmpty(ps, k), [])
    decreases k
  {
    if k > 0 {
      hide Lace, Joined;
      LacedWhole(ps, k - 1);
      LaceJoined(LaceAll(ps, k - 1), ps[k - 1], |Lace(ps[k - 1])|, Progress(NonEmpty(ps, k - 1), []));
      assert [] + ps[k - 1] == ps[k - 1];
    }
  }

  // ---------------------------------------------------------------- the collector

  datatype Collector = Collector(packets: seq<Bytes>, cur: Bytes, skip: bool)

  /** A page that does not continue a packet drops what was begun. */
  function StartPage(c: Collector, p: Page): Collector {
    if !Continued(p) && |c.cur| > 0 then c.(cur := [], skip := false) else c
  }

  function Accept(c: Collector, segment: Bytes): Collector {
    if c.skip then c.(skip := |segment| >= 255)
    else if |c.cur| + |segment| > MAX_PACKET then Collector(c.packets, [], |segment| >= 255)
    else
      var cur := c.cur + segment;
      if |segment| >= 255 then c.(cur := cur)
      else Collector(if |cur| > 0 then c.packets + [cur] else c.packets, [], false)
  }

  /** The segments of one page from `i` on, until there are `max` packets. */
  function Feed(c: Collector, segments: seq<Bytes>, i: nat, max: nat): Collector
    requires i <= |segments|
    decreases |segments| - i
  {
    if i == |segments| || |c.packets| >= max then c
    else Feed(Accept(c, segments[i]), segments, i + 1, max)
  }

  /** The pages from `k` on. */
  function Collect(c: Collector, pages: seq<Page>, k: nat, max: nat): Collector
    requires k <= |pages|
    decreases |pages| - k
  {
    if k == |pages| || |c.packets| >= max then c
    else Collect(Feed(StartPage(c, pages[k]), pages[k].segments, 0, max), pages, k + 1, max)
  }

  /** The readable pages from `pos` on, at most `max`. */
  function PagesAt(file: Bytes, pos: nat, max: nat): (r: seq<Page>)
    ensures |r| <= max
    decreases max
  {
    if max == 0 then []
    else
      match ReadPage(file, pos)
      case None => []
      case Some((page, next)) => [page] + PagesAt(file, next, max - 1)
  }

  /** While there are too few packets, the collector is the progress on the segments so far. */
  ghost predicate Agrees(c: Collector, segments: seq<Bytes>, n: nat, max: nat) {
    && n <= |segments|
    && (if |c.packets| < max then c == Collector(Joined(segments, n).done, Joined(segments, n).open, false)
        else |c.packets| == max && c.packets <= Joined(segments, n).done)
  }

  lemma {:induction false} AcceptAgrees(c: Collector, segments: seq<Bytes>, n: nat, max: nat)
    requires n < |segments| && Agrees(c, segments, n, max) && |c.packets| < max && FitsCap(segments, n)
    ensures Agrees(Accept(c, segments[n]), segments, n + 1, max)
  {
  }

  lemma {:induction false} FeedAgrees(c: Collector, before: seq<Bytes>, segments: seq<Bytes>, all: seq<Bytes>, i: nat,
    max: nat)
    requires i <= |segments| && before + segments <= all && Bounded(all)
    requires Agrees(c, all, |before| + i, max)
    ensures Agrees(Feed(c, segments, i, max), all, |before| + |segments|, max)
    decreases |segments| - i
  {
    hide Accept, Joined, FitsCap;
    if i < |segments| && |c.packets| < max {
      assert all[|before| + i] == (before + segments)[|before| + i] == segments[i];
      assert FitsCap(all, |before| + i);
      AcceptAgrees(c, all, |before| + i, max);
      FeedAgrees(Accept(c, segments[i]), before, segments, all, i + 1, max);
    } else if |c.packets| >= max {
      DoneGrows(all, |before| + i, |before| + |segments|);
    }
  }

  lemma {:induction false} SegmentsGrow(pages: seq<Page>, m: nat, n: nat)
    requires m <= n <= |pages|
    ensures SegmentsOf(pages, m) <= SegmentsOf(pages, n)
    decreases n
  {
    if m < n { SegmentsGrow(pages, m, n - 1); }
  }

  lemma {:induction false} CollectAgrees(c: Collector, pages: seq<Page>, k: nat, max: nat)
    requires k <= |pages| && Bounded(SegmentsOf(pages, |pages|))
    requires forall i :: 0 <= i < |pages| ==> FlagTrue(pages, i)
    requires Agrees(c, SegmentsOf(pages, |pages|), |SegmentsOf(pages, k)|, max)
    ensures Agrees(Collect(c, pages, k, max), SegmentsOf(pages, |pages|), |SegmentsOf(pages, |pages|)|, max)
    decreases |pages| - k
  {
    hide Feed, Joined, FitsCap;
    var all, before := SegmentsOf(pages, |pages|), SegmentsOf(pages, k);
    SegmentsGrow(pages, k, |pages|);
    if k < |pages| && |c.packets| < max {
      SegmentsGrow(pages, k + 1, |pages|);
      assert FlagTrue(pages, k);
      PrefixJoined(before, all);
      assert StartPage(c, pages[k]) == c;
      FeedAgrees(c, before, pages[k].segments, all, 0, max);
      CollectAgrees(Feed(c, pages[k].segments, 0, max), pages, k + 1, max);
    } else if |c.packets| >= max {
      DoneGrows(all, |before|, |all|);
    }
  }

  lemma {:induction false} PrefixJoined(a: seq<Bytes>, all: seq<Bytes>)
    requires a <= all
    ensures Joined(all, |a|) == Joined(a, |a|)
  {
    assert all == a + all[|a|..];
    JoinedPrefix(a, all[|a|..], |a|);
  }

  /**
   On pages with true continuation flags and packets under the cap, the collector
   finds the first `max` packets completed in these pages. Only the segments
   matter, not how they were cut into pages.
   */
  lemma {:induction false} CollectsFirstPackets(pages: seq<Page>, max: nat)
    requires Bounded(SegmentsOf(pages, |pages|)) && forall i :: 0 <= i < |pages| ==> FlagTrue(pages, i)
    ensures var s := SegmentsOf(pages, |pages|);
      Collect(Collector([], [], false), pages, 0, max).packets == Take(Joined(s, |s|).done, max)
  {
    hide Collect, FitsCap;
    CollectAgrees(Collector([], [], false), pages, 0, max);
  }

  // ---------------------------------------------------------------- the code

  method CollectOggPackets(file: Bytes, maxPackets: nat, maxPages: nat) returns (packets: seq<Bytes>, failed: bool)
    ensures packets == Collect(Collector([], [], false), PagesAt(file, 0, maxPages), 0, maxPackets).packets
    ensures failed <==> maxPackets > 0 && |PagesAt(file, 0, maxPages)| < maxPages && packets == []
  {
    hide Accept, Feed, ReadPage;
    var c := Collector([], [], false);
    var pos, pageNum := 0, 0;
    ghost var pages := PagesAt(file, 0, maxPages);
    while pageNum < maxPages && |c.packets| < maxPackets
      invariant pageNum <= maxPages && pageNum <= |pages| && pages[pageNum..] == PagesAt(file, pos, maxPages - pageNum)
      invariant Collect(Collector([], [], false), pages, 0, maxPackets) == Collect(c, pages, pageNum, maxPackets)
    {
      var read := ReadPage(file, pos);
      if read.None? { return c.packets, |c.packets| == 0; }
      assert pages[pageNum..][0] == read.value.0 && pages[pageNum..][1..] == pages[pageNum + 1..];
      c := CollectPage(c, read.value.0, maxPackets);
      pos, pageNum := read.value.1, pageNum + 1;
    }
    return c.packets, false;
  }

  /** The inner loop over the segments of one page. */
  method CollectPage(start: Collector, page: Page, maxPackets: nat) returns (c: Collector)
    requires |start.packets| < maxPackets
    ensures c == Feed(StartPage(start, page), page.segments, 0, maxPackets)
  {
    var packets, cur, skipPacket := start.packets, start.cur, start.skip;
    if !Continued(page) && |cur| > 0 { cur, skipPacket := [], false; }
    var i := 0;
    while i < |page.segments|
      invariant i <= |page.segments| && |packets| < maxPackets
      invariant Feed(StartPage(start, page), page.segments, 0, maxPackets)
        == Feed(Collector(packets, cur, skipPacket), page.segments, i, maxPackets)
    {
      var segment := page.segments[i];
      i := i + 1;
      if skipPacket {
        skipPacket := |segment| >= 255;
      } else if |cur| + |segment| > MAX_PACKET {
        cur, skipPacket := [], |segment| >= 255;
      } else {
        cur := cur + segment;
        if |segment| < 255 {
          if |cur| > 0 { packets := packets + [cur]; }
          cur := [];
          if |packets| >= maxPackets { return Collector(packets, cur, skipPacket); }
        }
      }
    }
    return Collector(packets, cur, skipPacket);
  }

  // ---------------------------------------------------------------- pages written out

  ghost predicate Writable(segments: seq<Bytes>) {
    |segments| < 256 && forall i :: 0 <= i < |segments| ==> |segments[i]| < 256
  }

  function TableOf(segments: seq<Bytes>, n: nat): (r: Bytes)
    requires n <= |segments| && forall i :: 0 <= i < |segments| ==> |segments[i]| < 256
    ensures |r| == n && forall i :: 0 <= i < n ==> r[i] == |segments[i]|
  {
    if n == 0 then [] else TableOf(segments, n - 1) + [|segments[n - 1]|]
  }

  function Flat(segments: seq<Bytes>, n: nat): Bytes
    requires n <= |segments|
  {
    if n == 0 then [] else Flat(segments, n - 1) + segments[n - 1]
  }

  /** Section 6 of RFC 3533; `serial` is the granule position, serial, sequence number and checksum. */
  function PageBytes(p: Page, serial: Bytes): Bytes
    requires Writable(p.segments)
  {
    MAGIC + [0, p.flags] + serial + [|p.segments|] + TableOf(p.segments, |p.segments|) + Flat(p.segments, |p.segments|)
  }

  lemma {:induction false} TotalOfTable(segments: seq<Bytes>, table: Bytes, n: nat)
    requires Writable(segments) && table == TableOf(segments, |segments|) && n <= |segments|
    ensures Total(table, n) == |Flat(segments, n)|
    decreases n
  {
    if n > 0 { TotalOfTable(segments, table, n - 1); }
  }

  lemma {:induction false} FlatPrefix(segments: seq<Bytes>, m: nat, n: nat)
    requires m <= n <= |segments|
    ensures Flat(segments, m) <= Flat(segments, n)
    decreases n
  {
    if m < n { FlatPrefix(segments, m, n - 1); }
  }

  lemma {:induction false} CutFlat(segments: seq<Bytes>, table: Bytes, data: Bytes, n: nat)
    requires Writable(segments) && table == TableOf(segments, |segments|) && data == Flat(segments, |segments|) &&
      n <= |segments|
    requires Total(table, n) <= |data|
    ensures Cut(table, data, n) == segments[..n]
    decreases n
  {
    hide TableOf, Flat, Writable, Total;
    if n > 0 {
      TotalOfTable(segments, table, n - 1);
      TotalOfTable(segments, table, n);
      SegmentAt(segments, data, n);
      CutFlat(segments, table, data, n - 1);
      assert segments[..n] == segments[..n - 1] + [segments[n - 1]];
    }
  }

  lemma {:induction false} SegmentAt(segments: seq<Bytes>, data: Bytes, n: nat)
    requires data == Flat(segments, |segments|) && 0 < n <= |segments|
    ensures |Flat(segments, n - 1)| <= |Flat(segments, n)| <= |data|
    ensures data[|Flat(segments, n - 1)|..|Flat(segments, n)|] == segments[n - 1]
  {
    FlatPrefix(segments, n, |segments|);
    var a, b := Flat(segments, n - 1), Flat(segments, n);
    assert b == a + segments[n - 1];
    assert data[|a|..|b|] == data[..|b|][|a|..];
  }

  /** A page is read back wherever it stands in the file. */
  lemma {:induction false} ReadWritten(front: Bytes, p: Page, serial: Bytes, rest: Bytes)
    requires Writable(p.segments) && |serial| == 20
    ensures ReadPage(front + PageBytes(p, serial) + rest, |front|) == Some((p, |front| + |PageBytes(p, serial)|))
  {
    hide Cut, Total, Flat;
    var n := |p.segments|;
    var table, data := TableOf(p.segments, n), Flat(p.segments, n);
    TotalOfTable(p.segments, table, n);
    CutFlat(p.segments, table, data, n);
    assert p.segments[..n] == p.segments;
    PageFields(front, p, serial, rest, table, data);
  }

  lemma {:induction false} PageFields(front: Bytes, p: Page, serial: Bytes, rest: Bytes, table: Bytes, data: Bytes)
    requires Writable(p.segments) && |serial| == 20
    requires table == TableOf(p.segments, |p.segments|) && data == Flat(p.segments, |p.segments|)
    ensures var f, o, n := front + PageBytes(p, serial) + rest, |front|, |p.segments|;
      && |PageBytes(p, serial)| == HEADER + n + |data|
      && f[o..o + 4] == MAGIC && f[o + 5] == p.flags && f[o + 26] == n
      && f[o + HEADER..o + HEADER + n] == table
      && f[o + HEADER + n..o + HEADER + n + |data|] == data
  {
    hide TableOf, Flat;
    var head := MAGIC + [0, p.flags] + serial + [|p.segments|];
    var f, o, n := front + PageBytes(p, serial) + rest, |front|, |p.segments|;
    assert f == front + (head + table + data) + rest;
    assert f[o..o + HEADER] == head;
    assert head[..4] == MAGIC && head[5] == p.flags && head[26] == n;
    assert f[o..o + 4] == f[o..o + HEADER][..4];
  }

  // ---------------------------------------------------------------- from packets to a file and back

  /** Pages written one after another. */
  function Stream(pages: seq<Page>, serials: seq<Bytes>): Bytes
    requires |serials| == |pages| && forall i :: 0 <= i < |pages| ==> Writable(pages[i].segments)
  {
    if pages == [] then [] else PageBytes(pages[0], serials[0]) + Stream(pages[1..], serials[1..])
  }

  ghost predicate AllWritable(pages: seq<Page>, serials: seq<Bytes>) {
    && |serials| == |pages|
    && forall i :: 0 <= i < |pages| ==> Writable(pages[i].segments) && |serials[i]| == 20
  }

  /** Written pages are read back one after another, up to `max`. */
  lemma {:induction false} PagesBehind(front: Bytes, pages: seq<Page>, serials: seq<Bytes>, rest: Bytes, max: nat)
    requires AllWritable(pages, serials) && (max <= |pages| || |rest| < HEADER)
    ensures PagesAt(front + Stream(pages, serials) + rest, |front|, max) == Take(pages, max)
    decreases |pages|
  {
    hide ReadPage, PageBytes, Writable;
    var file := front + Stream(pages, serials) + rest;
    if pages == [] {
      if max > 0 { NothingLeft(file, |front|); }
    } else if max > 0 {
      var page := PageBytes(pages[0], serials[0]);
      var more := Stream(pages[1..], serials[1..]);
      assert file == front + page + (more + rest) == (front + page) + more + rest;
      ReadWritten(front, pages[0], serials[0], more + rest);
      PagesBehind(front + page, pages[1..], serials[1..], rest, max - 1);
      assert Take(pages, max) == [pages[0]] + Take(pages[1..], max - 1);
    }
  }

  lemma {:induction false} NothingLeft(file: Bytes, pos: nat)
    requires pos + HEADER > |file|
    ensures ReadPage(file, pos) == None
  {
  }

  /** A segment of a packet stays inside the packet. */
  lemma {:induction false} LaceFits(before: seq<Bytes>, p: Bytes, j: nat, q: Progress)
    requires Joined(before, |before|) == q && j < |Lace(p)|
    ensures |Joined(before + Lace(p), |before| + j).open| + |Lace(p)[j]| <= |q.open| + |p|
    decreases |p|
  {
    JoinedPrefix(before, Lace(p), |before|);
    if j > 0 {
      LaceFirst(before, p, q);
      hide Joined;
      LaceFits(before + [p[..255]], p[255..], j - 1, Progress(q.done, q.open + p[..255]));
    }
  }

  /** Laced packets under the cap never outgrow it. */
  lemma {:induction false} LacedBounded(ps: seq<Bytes>, k: nat)
    requires k <= |ps| && forall i :: 0 <= i < |ps| ==> |ps[i]| <= MAX_PACKET
    ensures Bounded(LaceAll(ps, k))
    decreases k
  {
    hide Lace, Joined;
    if k > 0 {
      LacedBounded(ps, k - 1);
      LacedWhole(ps, k - 1);
      var before, all := LaceAll(ps, k - 1), LaceAll(ps, k);
      forall n: nat | n < |all| ensures FitsCap(all, n) {
        if n < |before| {
          assert FitsCap(before, n);
          JoinedPrefix(before, Lace(ps[k - 1]), n);
        } else {
          LaceFits(before, ps[k - 1], n - |before|, Progress(NonEmpty(ps, k - 1), []));
        }
      }
    }
  }

  /** How many packets end within the first `m` segments, from packet `k` on. */
  function Ended(ps: seq<Bytes>, m: nat, k: nat): (r: nat)
    requires k <= |ps|
    ensures k <= r <= |ps|
    decreases |ps| - k
  {
    if k == |ps| || |LaceAll(ps, k + 1)| > m then k else Ended(ps, m, k + 1)
  }

  lemma {:induction false} EndedThere(ps: seq<Bytes>, m: nat, k: nat)
    requires k <= |ps| && |LaceAll(ps, k)| <= m
    ensures var r := Ended(ps, m, k); |LaceAll(ps, r)| <= m && (r < |ps| ==> m < |LaceAll(ps, r + 1)|)
    decreases |ps| - k
  {
    hide LaceAll;
    if k < |ps| && |LaceAll(ps, k + 1)| <= m { EndedThere(ps, m, k + 1); }
  }

  lemma {:induction false} LacedGrows(ps: seq<Bytes>, k: nat, n: nat)
    requires k <= n <= |ps|
    ensures LaceAll(ps, k) <= LaceAll(ps, n)
    decreases n
  {
    hide Lace;
    if k < n { LacedGrows(ps, k, n - 1); }
  }

  /** The packets found in the first `m` segments of a laced stream. */
  lemma {:induction false} LacedDone(ps: seq<Bytes>, m: nat)
    requires m <= |LaceAll(ps, |ps|)|
    ensures Joined(LaceAll(ps, |ps|), m).done == NonEmpty(ps, Ended(ps, m, 0))
  {
    hide Lace, Joined;
    EndedThere(ps, m, 0);
    var k, all := Ended(ps, m, 0), LaceAll(ps, |ps|);
    LacedGrows(ps, k, |ps|);
    if k == |ps| {
      LacedWhole(ps, k);
    } else {
      LacedGrows(ps, k + 1, |ps|);
      LacedPrefix(ps, k, m - |LaceAll(ps, k)|);
      var part := LaceAll(ps, k + 1);
      assert all == part + all[|part|..];
      JoinedPrefix(part, all[|part|..], m);
    }
  }

  lemma {:induction false} FirstPages(pages: seq<Page>, n: nat, i: nat)
    requires i <= n <= |pages|
    ensures SegmentsOf(pages[..n], i) == SegmentsOf(pages, i)
    decreases i
  {
    if i > 0 { FirstPages(pages, n, i - 1); }
  }

  lemma {:induction false} BoundedPrefix(part: seq<Bytes>, all: seq<Bytes>)
    requires Bounded(all) && part <= all
    ensures Bounded(part)
  {
    hide Joined;
    assert all == part + all[|part|..];
    forall m: nat | m < |part| ensures FitsCap(part, m) {
      assert FitsCap(all, m);
      JoinedPrefix(part, all[|part|..], m);
    }
  }

  /** The first pages of a stream are as good as the stream. */
  lemma {:induction false} FirstPagesFit(pages: seq<Page>, n: nat)
    requires n <= |pages| && Bounded(SegmentsOf(pages, |pages|))
    requires forall i :: 0 <= i < |pages| ==> FlagTrue(pages, i)
    ensures Bounded(SegmentsOf(pages[..n], n)) && forall i :: 0 <= i < n ==> FlagTrue(pages[..n], i)
    ensures SegmentsOf(pages[..n], n) <= SegmentsOf(pages, |pages|)
  {
    hide Joined, SegmentsOf;
    FirstPages(pages, n, n);
    SegmentsGrow(pages, n, |pages|);
    BoundedPrefix(SegmentsOf(pages[..n], n), SegmentsOf(pages, |pages|));
    forall i | 0 <= i < n ensures FlagTrue(pages[..n], i) {
      assert FlagTrue(pages, i);
      FirstPages(pages, n, i);
    }
  }

  /**
   From end to end: packets under the cap, laced, cut into pages anywhere (the last
   packets may be missing) and written to a file. The collector gives the first `maxPackets` of the non-empty
   packets that end within the first `maxPages` pages.
   */
  lemma {:induction false} CollectsFile(
      ps: seq<Bytes>, pages: seq<Page>, serials: seq<Bytes>, rest: Bytes, maxPackets: nat, maxPages: nat)
    requires AllWritable(pages, serials) && (maxPages <= |pages| || |rest| < HEADER)
    requires SegmentsOf(pages, |pages|) <= LaceAll(ps, |ps|) && forall i :: 0 <= i < |ps| ==> |ps[i]| <= MAX_PACKET
    requires forall i :: 0 <= i < |pages| ==> FlagTrue(pages, i)
    ensures var file := Stream(pages, serials) + rest;
      var n := if maxPages < |pages| then maxPages else |pages|;
      Collect(Collector([], [], false), PagesAt(file, 0, maxPages), 0, maxPackets).packets
      == Take(NonEmpty(ps, Ended(ps, |SegmentsOf(pages, n)|, 0)), maxPackets)
  {
    hide Collect, FlagTrue, Joined, Lace, LaceAll, Stream, SegmentsOf, Bounded, PagesAt, Writable;
    var n := if maxPages < |pages| then maxPages else |pages|;
    PagesBehind([], pages, serials, rest, maxPages);
    assert [] + Stream(pages, serials) + rest == Stream(pages, serials) + rest;
    assert Take(pages, maxPages) == pages[..n];
    LacedBounded(ps, |ps|);
    BoundedPrefix(SegmentsOf(pages, |pages|), LaceAll(ps, |ps|));
    FirstPagesFit(pages, n);
    FirstPages(pages, n, n);
    CollectsFirstPackets(pages[..n], maxPackets);
    var part, all := SegmentsOf(pages[..n], n), LaceAll(ps, |ps|);
    PrefixJoined(part, all);
    LacedDone(ps, |part|);
  }
}
