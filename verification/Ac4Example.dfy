/**
 What the results assume is met by real files: for every sample entry body and
 every chunk pointer there is a well-formed moov that holds them.
 */
module Ac4Example {
  import opened Options
  import opened Endian
  import opened Mp4Boxes
  import opened Mp4Edits
  import opened Mp4Tables
  import opened Mp4Moov
  import opened Mp4Entry
  import opened Ac4Config
  import opened Mp4Tree
  import opened Mp4Splice

  /** A box with an 8-byte header. */
  function Wrap(typ: FourCC, body: Buffer): (r: Buffer)
    ensures |r| == |body| + 8
  {
    Be32(|body| + 8) + Be32(typ) + body
  }

  lemma {:induction false} SubSlice(s: Buffer, a: int, b: int, i: int, j: int)
    requires 0 <= a <= b <= |s| && 0 <= i <= j <= b - a
    ensures s[a + i..a + j] == s[a..b][i..j]
  {
    var w, x, y := s[a..b], s[a + i..a + j], s[a..b][i..j];
    assert |x| == |y| && forall k :: 0 <= k < |x| ==> x[k] == s[a + i + k] == w[i + k] == y[k];
  }

  /** The box at [a, b) and its body. */
  lemma {:induction false} WrapSited(s: Buffer, a: int, b: int, typ: FourCC, body: Buffer)
    requires 0 <= a <= b <= |s| && s[a..b] == Wrap(typ, body) && 0 <= typ < TWO32 && |body| + 8 < TWO32
    ensures Sited(s, Box(a, b - a, 8, typ)) && b - a == |body| + 8 && s[a + 8..b] == body
  {
    hide U32, Be32;
    var w := Wrap(typ, body);
    SubSlice(s, a, b, 0, 4);
    SubSlice(s, a, b, 4, 8);
    SubSlice(s, a, b, 8, |w|);
    assert w[0..4] == Be32(|body| + 8) && w[4..8] == Be32(typ) && w[8..|w|] == body;
    U32OfBe32(s, a, |body| + 8);
    U32OfBe32(s, a + 4, typ);
  }

  /** A range that is one box. */
  lemma {:induction false} OneKid(s: Buffer, a: int, b: int, typ: FourCC, body: Buffer, u: FourCC)
    requires 0 <= a <= b <= |s| && s[a..b] == Wrap(typ, body) && 0 <= typ < TWO32 && |body| + 8 < TWO32
    ensures Walk(s, a, b, [Box(a, b - a, 8, typ)]) && s[a + 8..b] == body && b - a == |body| + 8
    ensures FindChild(s, a, b, u) == if u == typ then Some(Box(a, b - a, 8, typ)) else None
  {
    hide ReadBox, U32, FindChild;
    WrapSited(s, a, b, typ, body);
    var ks := [Box(a, b - a, 8, typ)];
    assert Walk(s, a, b, ks);
    FindChildIsFirst(s, a, b, ks, u, if u == typ then 0 else 1);
  }

  /** A range that is two boxes of different types. */
  lemma {:induction false} TwoKids(
      s: Buffer, a: int, m: int, b: int, typ: FourCC, body: Buffer, typ': FourCC, body': Buffer, u: FourCC)
    requires 0 <= a <= m <= b <= |s| && typ != typ'
    requires s[a..m] == Wrap(typ, body) && 0 <= typ < TWO32 && |body| + 8 < TWO32
    requires s[m..b] == Wrap(typ', body') && 0 <= typ' < TWO32 && |body'| + 8 < TWO32
    ensures m - a == |body| + 8 && b - m == |body'| + 8
    ensures Walk(s, a, b, [Box(a, m - a, 8, typ), Box(m, b - m, 8, typ')])
    ensures FindChild(s, a, b, u) ==
      if u == typ then Some(Box(a, m - a, 8, typ)) else if u == typ' then Some(Box(m, b - m, 8, typ')) else None
  {
    hide ReadBox, U32, FindChild;
    WrapSited(s, a, m, typ, body);
    WrapSited(s, m, b, typ', body');
    var ks := [Box(a, m - a, 8, typ), Box(m, b - m, 8, typ')];
    assert Adjacent(ks, 1);
    assert Walk(s, a, b, ks);
    FindChildIsFirst(s, a, b, ks, u, if u == typ then 0 else if u == typ' then 1 else 2);
  }

  /** One hop of a path, through a box that is found. */
  lemma {:induction false} HopFound(s: Buffer, a: int, b: int, path: seq<Hop>, k: Box)
    requires path != [] && Tiled(s, a, b) && FindChild(s, a, b, path[0].typ) == Some(k)
    requires k.Body() + path[0].skip <= k.End() <= b && TiledPath(s, k.Body() + path[0].skip, k.End(), path[1..])
    ensures TiledPath(s, a, b, path)
    ensures Leaf(s, a, b, path) == if |path| == 1 then Some(k) else Leaf(s, k.Body() + path[0].skip, k.End(), path[1..])
  {
    hide FindChild, Tiled;
  }

  lemma {:induction false} HopMissing(s: Buffer, a: int, b: int, path: seq<Hop>)
    requires path != [] && Tiled(s, a, b) && FindChild(s, a, b, path[0].typ) == None
    ensures TiledPath(s, a, b, path) && Leaf(s, a, b, path) == None
  {
    hide FindChild, Tiled;
  }

  // ---------------------------------------------------------------- one moov

  function Stco(v: int): Buffer {
    Wrap(STCO, [0, 0, 0, 0] + Be32(1) + Be32(v))
  }

  function Stsd(e: Buffer): Buffer {
    Wrap(STSD, [0, 0, 0, 0, 0, 0, 0, 1] + Wrap(AC_4, e))
  }

  function Stbl(v: int, e: Buffer): Buffer {
    Wrap(STBL, Stsd(e) + Stco(v))
  }

  /** A moov of one trak whose entry has body `e` and whose chunk table holds `v`. */
  function MoovWith(v: int, e: Buffer): Buffer {
    Wrap(MOOV, Wrap(TRAK, Wrap(MDIA, Wrap(MINF, Stbl(v, e)))))
  }

  /** Where everything stands. */
  ghost predicate Placed(s: Buffer, m: int, v: int, e: Buffer) {
    && |s| == |e| + 84 && m == |e| + 64
    && s[0..|s|] == MoovWith(v, e) && s[8..|s|] == Wrap(TRAK, Wrap(MDIA, Wrap(MINF, Stbl(v, e))))
    && s[16..|s|] == Wrap(MDIA, Wrap(MINF, Stbl(v, e))) && s[24..|s|] == Wrap(MINF, Stbl(v, e))
    && s[32..|s|] == Stbl(v, e) && s[40..m] == Stsd(e) && s[m..|s|] == Stco(v) && s[56..m] == Wrap(AC_4, e)
  }

  lemma {:induction false} Inner(s: Buffer, a: int, b: int, typ: FourCC, body: Buffer)
    requires 0 <= a <= b <= |s| && s[a..b] == Wrap(typ, body)
    ensures b - a == |body| + 8 && s[a + 8..b] == body
  {
    hide Be32;
    assert s[a + 8..b] == s[a..b][8..];
  }

  lemma {:induction false} MoovPlaced(v: int, e: Buffer)
    ensures Placed(MoovWith(v, e), |e| + 64, v, e)
  {
    hide Be32, Wrap;
    var s, m := MoovWith(v, e), |e| + 64;
    var n := |s|;
    assert s[0..n] == s;
    Inner(s, 0, n, MOOV, Wrap(TRAK, Wrap(MDIA, Wrap(MINF, Stbl(v, e)))));
    Inner(s, 8, n, TRAK, Wrap(MDIA, Wrap(MINF, Stbl(v, e))));
    Inner(s, 16, n, MDIA, Wrap(MINF, Stbl(v, e)));
    Inner(s, 24, n, MINF, Stbl(v, e));
    Inner(s, 32, n, STBL, Stsd(e) + Stco(v));
    var body := s[40..n];
    assert s[40..m] == body[..|Stsd(e)|] && s[m..n] == body[|Stsd(e)|..];
    Inner(s, 40, m, STSD, [0, 0, 0, 0, 0, 0, 0, 1] + Wrap(AC_4, e));
    assert s[56..m] == s[48..m][8..];
  }

  /** The three ways down from stbl. */
  lemma {:induction false} BelowStbl(s: Buffer, m: int, v: int, e: Buffer)
    requires Placed(s, m, v, e) && |e| < 0x1000_0000
    ensures TiledPath(s, 40, |s|, [Hop(STCO, 0)]) && Leaf(s, 40, |s|, [Hop(STCO, 0)]) == Some(Box(m, |s| - m, 8, STCO))
    ensures TiledPath(s, 40, |s|, [Hop(CO64, 0)]) && Leaf(s, 40, |s|, [Hop(CO64, 0)]) == None
    ensures TiledPath(s, 40, |s|, [Hop(STSD, 8), Hop(AC_4, 0)])
    ensures Leaf(s, 40, |s|, [Hop(STSD, 8), Hop(AC_4, 0)]) == Some(Box(56, m - 56, 8, AC_4))
  {
    hide FindChild, Leaf, Be32, Wrap, Walk;
    var n := |s|;
    var x, y := [0, 0, 0, 0, 0, 0, 0, 1] + Wrap(AC_4, e), [0, 0, 0, 0] + Be32(1) + Be32(v);
    TwoKids(s, 40, m, n, STSD, x, STCO, y, STCO);
    TwoKids(s, 40, m, n, STSD, x, STCO, y, CO64);
    TwoKids(s, 40, m, n, STSD, x, STCO, y, STSD);
    OneKid(s, 56, m, AC_4, e, AC_4);
    assert Tiled(s, 40, n) && Tiled(s, 56, m);
    hide TiledPath;
    NoHop(s, m + 8, n);
    NoHop(s, 64, m);
    assert [Hop(STCO, 0)][1..] == [] && [Hop(AC_4, 0)][1..] == [];
    HopFound(s, 40, n, [Hop(STCO, 0)], Box(m, n - m, 8, STCO));
    HopMissing(s, 40, n, [Hop(CO64, 0)]);
    HopFound(s, 56, m, [Hop(AC_4, 0)], Box(56, m - 56, 8, AC_4));
    assert [Hop(STSD, 8), Hop(AC_4, 0)][1..] == [Hop(AC_4, 0)];
    HopFound(s, 40, n, [Hop(STSD, 8), Hop(AC_4, 0)], Box(40, m - 40, 8, STSD));
  }

  lemma {:induction false} NoHop(s: Buffer, a: int, b: int)
    ensures TiledPath(s, a, b, [])
  {
  }

  /** The same ways from the trak. */
  lemma {:induction false} FromTrak(s: Buffer, m: int, v: int, e: Buffer, rest: seq<Hop>)
    requires Placed(s, m, v, e) && |e| < 0x1000_0000 && rest != [] && TiledPath(s, 40, |s|, rest)
    ensures TiledPath(s, 16, |s|, TO_STBL + rest) && Leaf(s, 16, |s|, TO_STBL + rest) == Leaf(s, 40, |s|, rest)
  {
    hide FindChild, Leaf, TiledPath, Be32, Wrap, Walk;
    var n := |s|;
    OneKid(s, 32, n, STBL, Stsd(e) + Stco(v), STBL);
    OneKid(s, 24, n, MINF, Stbl(v, e), MINF);
    OneKid(s, 16, n, MDIA, Wrap(MINF, Stbl(v, e)), MDIA);
    assert Tiled(s, 32, n) && Tiled(s, 24, n) && Tiled(s, 16, n);
    var p1, p2, p3 := [Hop(STBL, 0)] + rest, [Hop(MINF, 0), Hop(STBL, 0)] + rest, TO_STBL + rest;
    assert p1[1..] == rest && p2[1..] == p1 && p3[1..] == p2;
    HopFound(s, 32, n, p1, Box(32, n - 32, 8, STBL));
    HopFound(s, 24, n, p2, Box(24, n - 24, 8, MINF));
    HopFound(s, 16, n, p3, Box(16, n - 16, 8, MDIA));
  }

  /** Every entry body and every chunk pointer occur in a well-formed moov. */
  lemma {:induction false} WellFormedExists(v: int, e: Buffer) returns (moov: Box, ks: seq<Box>)
    requires 0 <= v < TWO32 && |e| < 0x1000_0000
    ensures var s := MoovWith(v, e);
      && WellFormed(s, moov, ks) && AllInBuffer(s, ks) && IsAc4Trak(Digest(s, ks), 0) && HasEntry(Digest(s, ks), 0)
      && Digest(s, ks)[0].stco == [v] && Digest(s, ks)[0].co64 == []
      && EntryBody(EntryOf(Digest(s, ks), 0)) == e
      && moov == Box(0, |s|, 8, MOOV) && ks == [Box(8, |s| - 8, 8, TRAK)]
  {
    hide FindChild, Leaf, TiledPath, Be32, Wrap, ReadBox, U32, EntryBody, Placed;
    var s, m := MoovWith(v, e), |e| + 64;
    var n := |s|;
    MoovPlaced(v, e);
    MoovAndTrak(s, m, v, e);
    moov, ks := Box(0, n, 8, MOOV), [Box(8, n - 8, 8, TRAK)];
    TrakRead(s, m, v, e);
    WalkInBuffer(s, 8, n, ks);
  }

  lemma {:induction false} MoovAndTrak(s: Buffer, m: int, v: int, e: Buffer)
    requires Placed(s, m, v, e) && |e| < 0x1000_0000
    ensures ReadBox(s, 0) == Some(Box(0, |s|, 8, MOOV))
    ensures Walk(s, 8, |s|, [Box(8, |s| - 8, 8, TRAK)])
  {
    hide FindChild, Be32, Wrap, ReadBox, U32, Walk;
    WrapSited(s, 0, |s|, MOOV, Wrap(TRAK, Wrap(MDIA, Wrap(MINF, Stbl(v, e)))));
    OneKid(s, 8, |s|, TRAK, Wrap(MDIA, Wrap(MINF, Stbl(v, e))), TRAK);
  }

  lemma {:induction false} TrakRead(s: Buffer, m: int, v: int, e: Buffer)
    requires Placed(s, m, v, e) && 0 <= v < TWO32 && |e| < 0x1000_0000
    ensures var trak := Box(8, |s| - 8, 8, TRAK);
      && WellFormedTrak(s, trak) && TrakChild(s, trak).entry.Some?
      && TrakChild(s, trak).stco == [v] && TrakChild(s, trak).co64 == []
      && EntryBody(TrakChild(s, trak).entry.value) == e
  {
    hide FindChild, Leaf, TiledPath, Be32, Wrap, ReadBox, U32, EntryBody, Entries;
    BelowStbl(s, m, v, e);
    FromTrak(s, m, v, e, [Hop(STCO, 0)]);
    FromTrak(s, m, v, e, [Hop(CO64, 0)]);
    FromTrak(s, m, v, e, [Hop(STSD, 8), Hop(AC_4, 0)]);
    PathsFork();
    assert TO_STBL + [Hop(STCO, 0)] == TO_STCO && TO_STBL + [Hop(CO64, 0)] == TO_CO64;
    assert TO_STBL + [Hop(STSD, 8), Hop(AC_4, 0)] == TO_ENTRY;
    WrapSited(s, 56, m, AC_4, e);
    EntryBytes(s, Box(56, m - 56, 8, AC_4));
    OnePointer(s, m, v);
  }

  lemma {:induction false} OnePointer(s: Buffer, m: int, v: int)
    requires 0 <= m <= |s| && s[m..|s|] == Stco(v) && 0 <= v < TWO32
    ensures |s| == m + 20 && Entries(s, Box(m, |s| - m, 8, STCO), 4) == [v]
  {
    hide Be32, U32;
    var n := |s|;
    var w := Stco(v);
    SubSlice(s, m, n, 12, 16);
    SubSlice(s, m, n, 16, 20);
    assert w[12..16] == Be32(1) && w[16..20] == Be32(v);
    U32OfBe32(s, m + 12, 1);
    U32OfBe32(s, m + 16, v);
  }

  // ---------------------------------------------------------------- its tree

  /** The boxes from moov down to the entry. */
  function ChainBoxes(n: int, m: int): seq<Box> {
    [Box(0, n, 8, MOOV), Box(8, n - 8, 8, TRAK), Box(16, n - 16, 8, MDIA), Box(24, n - 24, 8, MINF),
     Box(32, n - 32, 8, STBL), Box(40, m - 40, 8, STSD), Box(56, m - 56, 8, AC_4)]
  }

  /** Every box of the moov, from trak down to the sample entry and the chunk table. */
  function TreeOf(n: int, m: int): Node {
    var entry, table := Node(Box(56, m - 56, 8, AC_4), 0, []), Node(Box(m, n - m, 8, STCO), 0, []);
    var stbl := Node(Box(32, n - 32, 8, STBL), 0, [Node(Box(40, m - 40, 8, STSD), 8, [entry]), table]);
    var minf := Node(Box(24, n - 24, 8, MINF), 0, [stbl]);
    Node(Box(8, n - 8, 8, TRAK), 0, [Node(Box(16, n - 16, 8, MDIA), 0, [minf])])
  }

  lemma {:induction false} HopDescent(s: Buffer, a: int, b: int, path: seq<Hop>, k: Box, more: seq<Box>)
    requires path != [] && FindChild(s, a, b, path[0].typ) == Some(k)
    requires Descent(s, k.Body() + path[0].skip, k.End(), path[1..]) == Some(more)
    ensures Descent(s, a, b, path) == Some([k] + more)
  {
    hide FindChild;
  }

  lemma {:induction false} EntryDescent(s: Buffer, m: int, v: int, e: Buffer)
    requires Placed(s, m, v, e) && |e| < 0x1000_0000
    ensures EntryPath(s, Box(8, |s| - 8, 8, TRAK)) == Some(ChainBoxes(|s|, m)[2..])
  {
    hide FindChild, Be32, Wrap, Walk, Descent;
    var n := |s|;
    PathsFork();
    OneKid(s, 16, n, MDIA, Wrap(MINF, Stbl(v, e)), MDIA);
    OneKid(s, 24, n, MINF, Stbl(v, e), MINF);
    OneKid(s, 32, n, STBL, Stsd(e) + Stco(v), STBL);
    TwoKids(s, 40, m, n, STSD, [0, 0, 0, 0, 0, 0, 0, 1] + Wrap(AC_4, e), STCO, [0, 0, 0, 0] + Be32(1) + Be32(v), STSD);
    OneKid(s, 56, m, AC_4, e, AC_4);
    var c := ChainBoxes(n, m);
    var p6, p5 := [Hop(AC_4, 0)], [Hop(STSD, 8), Hop(AC_4, 0)];
    var p4, p3 := [Hop(STBL, 0)] + p5, [Hop(MINF, 0), Hop(STBL, 0)] + p5;
    assert p6[1..] == [] && p5[1..] == p6 && p4[1..] == p5 && p3[1..] == p4 && TO_ENTRY[1..] == p3;
    assert [c[6]] + [] == [c[6]] && [c[5]] + [c[6]] == [c[5], c[6]] && [c[4]] + [c[5], c[6]] == [c[4], c[5], c[6]];
    assert [c[3]] + [c[4], c[5], c[6]] == [c[3], c[4], c[5], c[6]] && p4[0] == Hop(STBL, 0) && p3[0] == Hop(MINF, 0);
    NoMore(s, 64, m);
    HopDescent(s, 56, m, p6, c[6], []);
    HopDescent(s, 40, n, p5, c[5], [c[6]]);
    HopDescent(s, 32, n, p4, c[4], [c[5], c[6]]);
    HopDescent(s, 24, n, p3, c[3], [c[4], c[5], c[6]]);
    HopDescent(s, 16, n, TO_ENTRY, c[2], [c[3], c[4], c[5], c[6]]);
    assert c[2..] == [c[2]] + [c[3], c[4], c[5], c[6]];
  }

  lemma {:induction false} NoMore(s: Buffer, a: int, b: int)
    ensures Descent(s, a, b, []) == Some([])
  {
  }

  /** The tree is read in the moov. */
  lemma {:induction false} TreeRead(s: Buffer, m: int, v: int, e: Buffer)
    requires Placed(s, m, v, e) && |e| < 0x1000_0000
    ensures Reads(s, TreeOf(|s|, m))
  {
    hide FindChild, Be32, Wrap, ReadBox, U32, Layout;
    var n := |s|;
    OneKid(s, 8, n, TRAK, Wrap(MDIA, Wrap(MINF, Stbl(v, e))), TRAK);
    OneKid(s, 16, n, MDIA, Wrap(MINF, Stbl(v, e)), MDIA);
    OneKid(s, 24, n, MINF, Stbl(v, e), MINF);
    OneKid(s, 32, n, STBL, Stsd(e) + Stco(v), STBL);
    TwoKids(s, 40, m, n, STSD, [0, 0, 0, 0, 0, 0, 0, 1] + Wrap(AC_4, e), STCO, [0, 0, 0, 0] + Be32(1) + Be32(v), STSD);
    OneKid(s, 56, m, AC_4, e, AC_4);
    var c := ChainBoxes(n, m);
    SitedHead(s, 8, n, c[1]);
    var entry, table := Node(c[6], 0, []), Node(Box(m, n - m, 8, STCO), 0, []);
    SitedPair(s, 40, n, c[5], table.box);
    SitedHead(s, 56, m, c[6]);
    SitedHead(s, 32, n, c[4]);
    SitedHead(s, 24, n, c[3]);
    SitedHead(s, 16, n, c[2]);
    var stsd := Node(c[5], 8, [entry]);
    var stbl := Node(c[4], 0, [stsd, table]);
    SameBoxes([entry], [c[6]]);
    SameBoxes([stsd, table], [c[5], table.box]);
    assert Reads(s, entry) && Reads(s, table) && Reads(s, stsd) && Reads(s, stbl);
    SameBoxes([stbl], [c[4]]);
    var minf := Node(c[3], 0, [stbl]);
    assert Reads(s, minf);
    SameBoxes([minf], [c[3]]);
    var mdia := Node(c[2], 0, [minf]);
    assert Reads(s, mdia);
    SameBoxes([mdia], [c[2]]);
  }

  lemma {:induction false} SitedHead(s: Buffer, a: int, b: int, k: Box)
    requires Walk(s, a, b, [k])
    ensures Sited(s, k)
  {
    assert [k][0] == k;
  }

  lemma {:induction false} SitedPair(s: Buffer, a: int, b: int, k: Box, l: Box)
    requires Walk(s, a, b, [k, l])
    ensures Sited(s, k) && Sited(s, l)
  {
    assert [k, l][0] == k && [k, l][1] == l;
  }

  /** The only table bytes are those behind the count. */
  lemma {:induction false} TablesThere(s: Buffer, m: int, v: int, e: Buffer, k: int)
    requires Placed(s, m, v, e) && 0 <= v < TWO32 && |e| < 0x1000_0000
    ensures InTables(s, [Box(8, |s| - 8, 8, TRAK)], k) ==> m + 16 <= k
  {
    hide FindChild, Leaf, TiledPath, Be32, Wrap, ReadBox, U32;
    BelowStbl(s, m, v, e);
    FromTrak(s, m, v, e, [Hop(STCO, 0)]);
    FromTrak(s, m, v, e, [Hop(CO64, 0)]);
    PathsFork();
    assert TO_STBL + [Hop(STCO, 0)] == TO_STCO && TO_STBL + [Hop(CO64, 0)] == TO_CO64;
  }

  /** No box of the chain has its header at the table. */
  lemma {:induction false} ChainClear(n: int, m: int, k: int)
    requires 64 <= k
    ensures Clear(ChainBoxes(n, m), 0, k)
  {
  }

  /** The whole tree is one the results speak of: everything in it is around the entry or beside it. */
  lemma {:induction false} TreeApart(v: int, e: Buffer)
    requires 0 <= v < TWO32 && |e| < 0x1000_0000
    ensures var s, m := MoovWith(v, e), |e| + 64;
      && LocateAC4(s) == Some(ChainBoxes(|s|, m)) && Reads(s, TreeOf(|s|, m))
      && Apart(s, [Box(8, |s| - 8, 8, TRAK)], ChainBoxes(|s|, m), 56, m, TreeOf(|s|, m))
  {
    hide FindChild, Leaf, TiledPath, Be32, Wrap, ReadBox, U32, EntryBody, Placed, Descent, Reads, InTables, Clear,
      LocateAC4,
      WellFormed, Digest;
    var s, m := MoovWith(v, e), |e| + 64;
    var n := |s|;
    MoovPlaced(v, e);
    var moov, ks := WellFormedExists(v, e);
    EntryDescent(s, m, v, e);
    TreeRead(s, m, v, e);
    ChainLocated(s, m, moov, ks);
    EverythingApart(s, m, v, e);
  }

  lemma {:induction false} ChainLocated(s: Buffer, m: int, moov: Box, ks: seq<Box>)
    requires WellFormed(s, moov, ks) && AllInBuffer(s, ks) && IsAc4Trak(Digest(s, ks), 0)
    requires moov == Box(0, |s|, 8, MOOV) && ks == [Box(8, |s| - 8, 8, TRAK)]
    requires EntryPath(s, ks[0]) == Some(ChainBoxes(|s|, m)[2..])
    ensures LocateAC4(s) == Some(ChainBoxes(|s|, m))
  {
    hide WellFormed, Digest, LocateAC4, EntryPath;
    Located(s, moov, ks, 0);
    var c := ChainBoxes(|s|, m);
    assert [moov, ks[0]] + c[2..] == c;
  }

  lemma {:induction false} EverythingApart(s: Buffer, m: int, v: int, e: Buffer)
    requires Placed(s, m, v, e) && 0 <= v < TWO32 && |e| < 0x1000_0000
    ensures Apart(s, [Box(8, |s| - 8, 8, TRAK)], ChainBoxes(|s|, m), 56, m, TreeOf(|s|, m))
  {
    hide InTables, Clear;
    var n, ks := |s|, [Box(8, |s| - 8, 8, TRAK)];
    var c := ChainBoxes(n, m);
    forall k | m <= k < m + 8 ensures Clear(c, 0, k) && !InTables(s, ks, k) {
      ChainClear(n, m, k);
      TablesThere(s, m, v, e, k);
    }
    hide Apart, Placed;
    var entry, table := Node(c[6], 0, []), Node(Box(m, n - m, 8, STCO), 0, []);
    ApartBeside(s, ks, c, 56, m, table);
    ApartAround(s, ks, c, 56, m, entry, 6);
    ApartAround(s, ks, c, 56, m, Node(c[5], 8, [entry]), 5);
    var stbl := Node(c[4], 0, [Node(c[5], 8, [entry]), table]);
    ApartAround(s, ks, c, 56, m, stbl, 4);
    ApartAround(s, ks, c, 56, m, Node(c[3], 0, [stbl]), 3);
    ApartAround(s, ks, c, 56, m, Node(c[2], 0, [Node(c[3], 0, [stbl])]), 2);
    ApartAround(s, ks, c, 56, m, TreeOf(n, m), 1);
  }

  lemma {:induction false} ApartBeside(s: Buffer, ks: seq<Box>, hs: seq<Box>, lo: int, hi: int, n: Node)
    requires Beside(n.box, lo, hi) && HeaderApart(s, ks, hs, n.box) && n.kids == []
    ensures Apart(s, ks, hs, lo, hi, n)
  {
  }

  lemma {:induction false} ApartAround(s: Buffer, ks: seq<Box>, hs: seq<Box>, lo: int, hi: int, n: Node, i: nat)
    requires Around(n.box, lo, hi) && 0 < i < |hs| && hs[i] == n.box
    requires n.kids != [] ==> Around(n.kids[0].box, lo, hi)
    requires forall q :: 0 <= q < |n.kids| ==> Apart(s, ks, hs, lo, hi, n.kids[q])
    ensures Apart(s, ks, hs, lo, hi, n)
  {
    assert n.kids != [] ==> Around(n.kids[0].box, lo, hi);
  }
}
