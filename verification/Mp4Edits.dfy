/**
 What a reader finds after a moov was edited. An edit keeps every byte up to
 some box except the sizes of the boxes around it, changes the inside of that
 box, and moves everything behind it by `d` bytes. Each lemma says how the walk
 of one range, or the descent along a path of box types, comes out afterwards.
 Both the in-place rewriting of chunk tables (`d == 0`) and the splices use them.
 */
module Mp4Edits {
  import opened Options
  import opened Endian
  import opened Mp4Boxes

  /** Byte `k` of `s` sits `d` positions further on in `t`. */
  ghost predicate SameByte(s: Buffer, t: Buffer, k: int, d: int) {
    0 <= k < |s| && 0 <= k + d < |t| && t[k + d] == s[k]
  }

  /** Bytes [lo, hi) of `s` appear in `t`, `d` positions further on. */
  ghost predicate Carried(s: Buffer, t: Buffer, lo: int, hi: int, d: int) {
    && 0 <= lo <= hi <= |s|
    && 0 <= lo + d && hi + d <= |t|
    && forall k :: lo <= k < hi ==> SameByte(s, t, k, d)
  }

  lemma {:induction false} WordCarried(s: Buffer, t: Buffer, p: int, d: int, hi: int)
    requires Carried(s, t, p, hi, d) && p + 4 <= hi
    ensures U32(t, p + d) == U32(s, p)
  {
    assert SameByte(s, t, p, d) && SameByte(s, t, p + 1, d) && SameByte(s, t, p + 2, d) && SameByte(s, t, p + 3, d);
  }

  lemma {:induction false} BoxCarried(s: Buffer, t: Buffer, p: int, d: int, k: Box)
    requires ReadBox(s, p) == Some(k) && U32(s, p) != 0
    requires Carried(s, t, p, k.Body(), d) && k.End() + d <= |t|
    ensures ReadBox(t, p + d) == Some(k.Moved(d))
    ensures U32(t, p + d) != 0
  {
    WordCarried(s, t, p, d, k.Body());
    CarriedPart(s, t, p, k.Body(), p + 4, k.Body(), d);
    WordCarried(s, t, p + 4, d, k.Body());
    if U32(s, p) == 1 {
      CarriedPart(s, t, p, k.Body(), p + 8, k.Body(), d);
      WordCarried(s, t, p + 8, d, k.Body());
      CarriedPart(s, t, p, k.Body(), p + 12, k.Body(), d);
      WordCarried(s, t, p + 12, d, k.Body());
    }
  }

  lemma {:induction false} CarriedPart(s: Buffer, t: Buffer, lo: int, hi: int, lo': int, hi': int, d: int)
    requires lo <= lo' <= hi' <= hi && Carried(s, t, lo, hi, d)
    ensures Carried(s, t, lo', hi', d)
  {
  }

  /** What an edit inside kid `i` makes of kid `m`; with no such kid, a move of the whole range. */
  function AfterEdit(k: Box, m: int, i: int, d: int): Box {
    if m < i then k else if m == i then k.Grown(d) else k.Moved(d)
  }

  function EditedList(ks: seq<Box>, i: int, d: int): (js: seq<Box>)
    ensures |js| == |ks| && forall m :: 0 <= m < |ks| ==> js[m] == AfterEdit(ks[m], m, i, d)
  {
    seq(|ks|, m requires 0 <= m < |ks| => AfterEdit(ks[m], m, i, d))
  }

  /** Editing does not change where a type comes first. */
  lemma {:induction false} FirstOfEdited(ks: seq<Box>, typ: FourCC, j: nat, i: int, d: int)
    requires IsFirst(ks, typ, j)
    ensures IsFirst(EditedList(ks, i, d), typ, j)
    ensures BoxAt(EditedList(ks, i, d), j) == if j < |ks| then Some(AfterEdit(ks[j], j, i, d)) else None
  {
  }

  lemma {:induction false} MovedLayout(a: int, b: int, ks: seq<Box>, d: int)
    requires Layout(a, b, ks) && 0 <= a + d
    ensures Layout(a + d, b + d, EditedList(ks, -1, d))
    ensures EndOf(a + d, EditedList(ks, -1, d)) == EndOf(a, ks) + d
  {
    var js := EditedList(ks, -1, d);
    forall m | 0 < m < |js| ensures Adjacent(js, m) {
      assert Adjacent(ks, m);
    }
  }

  lemma {:induction false} GrownLayout(a: int, b: int, ks: seq<Box>, i: nat, d: int)
    requires Layout(a, b, ks) && i < |ks| && ks[i].hdr <= ks[i].size + d
    ensures Layout(a, b + d, EditedList(ks, i, d))
    ensures EndOf(a, EditedList(ks, i, d)) == EndOf(a, ks) + d
  {
    var js := EditedList(ks, i, d);
    LayoutOrder(a, b, ks);
    forall m | 0 <= m < |js| ensures 8 <= js[m].hdr <= js[m].size && a <= js[m].offset && js[m].End() <= b + d {
      if m < i { assert ks[m].End() <= ks[i].offset; }
      if m > i { assert ks[i].End() <= ks[m].offset; }
    }
    forall m | 0 < m < |js| ensures Adjacent(js, m) {
      assert Adjacent(ks, m);
    }
  }

  lemma {:induction false} SitedCarried(s: Buffer, t: Buffer, lo: int, hi: int, d: int, k: Box)
    requires Sited(s, k) && lo <= k.offset && k.End() <= hi && Carried(s, t, lo, hi, d)
    ensures Sited(t, k.Moved(d))
  {
    CarriedPart(s, t, lo, hi, k.offset, k.Body(), d);
    BoxCarried(s, t, k.offset, d, k);
  }

  /** A range moved as a whole is walked the same way. */
  lemma {:induction false} KidsCarried(s: Buffer, t: Buffer, a: int, b: int, d: int, ks: seq<Box>)
    requires Walk(s, a, b, ks) && Carried(s, t, a, b, d)
    ensures Walk(t, a + d, b + d, EditedList(ks, -1, d))
  {
    var js := EditedList(ks, -1, d);
    MovedLayout(a, b, ks, d);
    forall m | 0 <= m < |js| ensures Sited(t, js[m]) {
      assert js[m] == AfterEdit(ks[m], m, -1, d);
      SitedCarried(s, t, a, b, d, ks[m]);
    }
  }

  /** A kid whose inside changed by `d` bytes: the kids before stay, it grows, the rest moves. */
  lemma {:induction false} KidsAroundGrown(s: Buffer, t: Buffer, a: int, b: int, ks: seq<Box>, i: nat, d: int)
    requires Walk(s, a, b, ks) && i < |ks|
    requires Carried(s, t, a, ks[i].offset, 0)
    requires Sited(t, ks[i].Grown(d))
    requires Carried(s, t, ks[i].End(), b, d)
    ensures Walk(t, a, b + d, EditedList(ks, i, d))
  {
    GrownLayout(a, b, ks, i, d);
    forall m | 0 <= m < |ks| ensures Sited(t, AfterEdit(ks[m], m, i, d)) {
      if m != i { KidKept(s, t, a, b, ks, i, m, d); }
    }
  }

  /** A kid other than the edited one keeps its bytes. */
  lemma {:induction false} KidKept(s: Buffer, t: Buffer, a: int, b: int, ks: seq<Box>, i: nat, m: nat, d: int)
    requires Walk(s, a, b, ks) && i < |ks| && m < |ks| && i != m
    requires Carried(s, t, a, ks[i].offset, 0) && Carried(s, t, ks[i].End(), b, d)
    ensures Carried(s, t, ks[m].offset, ks[m].End(), if m < i then 0 else d)
    ensures Sited(t, AfterEdit(ks[m], m, i, d))
  {
    var lo, hi, e := if m < i then a else ks[i].End(), if m < i then ks[i].offset else b, if m < i then 0 else d;
    if m < i { LayoutBefore(a, b, ks, m, i); } else { LayoutBefore(a, b, ks, i, m); }
    assert Sited(s, ks[m]);
    CarriedPart(s, t, lo, hi, ks[m].offset, ks[m].End(), e);
    SitedCarried(s, t, lo, hi, e, ks[m]);
  }

  /** The list `ks` with `gone` boxes (none or one) from index `i` on replaced by `n`. */
  function Swapped(ks: seq<Box>, i: nat, gone: nat, n: Box, d: int): (js: seq<Box>)
    requires i + gone <= |ks|
    ensures |js| == |ks| - gone + 1 && js[i] == n
    ensures forall m :: 0 <= m < i ==> js[m] == ks[m]
    ensures forall m :: i < m < |js| ==> js[m] == ks[m - 1 + gone].Moved(d)
  {
    seq(|ks| - gone + 1, m requires 0 <= m < |ks| - gone + 1 =>
      if m < i then ks[m] else if m == i then n else ks[m - 1 + gone].Moved(d))
  }

  lemma {:induction false} SwappedLayout(a: int, b: int, ks: seq<Box>, i: nat, gone: nat, n: Box, d: int)
    requires Layout(a, b, ks) && i + gone <= |ks| && gone <= 1
    requires n.offset == StartAt(a, ks, i) && 8 <= n.hdr <= n.size
    requires n.End() - d == if gone == 0 then n.offset else ks[i].End()
    ensures Layout(a, b + d, Swapped(ks, i, gone, n, d))
    ensures EndOf(a, Swapped(ks, i, gone, n, d)) == EndOf(a, ks) + d
  {
    var js := Swapped(ks, i, gone, n, d);
    forall m | 0 <= m < |js| ensures 8 <= js[m].hdr <= js[m].size && a <= js[m].offset && js[m].End() <= b + d {
      SwappedPlace(a, b, ks, i, gone, n, d, m);
    }
    forall m | 0 < m < |js| ensures Adjacent(js, m) {
      SwappedAdjacent(a, b, ks, i, gone, n, d, m);
    }
  }

  lemma {:induction false} SwappedPlace(a: int, b: int, ks: seq<Box>, i: nat, gone: nat, n: Box, d: int, m: nat)
    requires Layout(a, b, ks) && i + gone <= |ks| && gone <= 1
    requires n.offset == StartAt(a, ks, i) && 8 <= n.hdr <= n.size
    requires n.End() - d == if gone == 0 then n.offset else ks[i].End()
    requires m < |Swapped(ks, i, gone, n, d)|
    ensures var k := Swapped(ks, i, gone, n, d)[m];
      8 <= k.hdr <= k.size && a <= k.offset && k.End() <= b + d
    ensures m < i ==> ks[m].End() <= n.offset
    ensures m > i ==> n.End() - d <= ks[m - 1 + gone].offset
  {
    if m < i {
      if i < |ks| { LayoutBefore(a, b, ks, m, i); }
      else if m < |ks| - 1 { LayoutBefore(a, b, ks, m, |ks| - 1); }
    } else if m > i && i < m - 1 + gone {
      LayoutBefore(a, b, ks, i, m - 1 + gone);
    }
  }

  lemma {:induction false} SwappedAdjacent(a: int, b: int, ks: seq<Box>, i: nat, gone: nat, n: Box, d: int, m: nat)
    requires Layout(a, b, ks) && i + gone <= |ks| && gone <= 1
    requires n.offset == StartAt(a, ks, i)
    requires n.End() - d == if gone == 0 then n.offset else ks[i].End()
    requires 0 < m < |Swapped(ks, i, gone, n, d)|
    ensures Adjacent(Swapped(ks, i, gone, n, d), m)
  {
    if m < i { assert Adjacent(ks, m); }
    else if m == i { if i < |ks| { assert Adjacent(ks, i); } }
    else if m == i + 1 { if gone == 1 && i + 1 < |ks| { assert Adjacent(ks, i + 1); } }
    else { assert Adjacent(ks, m - 1 + gone); }
  }

  lemma {:induction false} KidsReplaced(s: Buffer, t: Buffer, a: int, b: int, ks: seq<Box>, i: nat, gone: nat, n: Box,
    d: int)
    requires Walk(s, a, b, ks) && i + gone <= |ks| && gone <= 1
    requires n.offset == StartAt(a, ks, i)
    requires n.End() - d == if gone == 0 then n.offset else ks[i].End()
    requires Sited(t, n) && Carried(s, t, a, n.offset, 0) && Carried(s, t, n.End() - d, b, d)
    ensures Walk(t, a, b + d, Swapped(ks, i, gone, n, d))
  {
    hide ReadBox, U32;
    var js := Swapped(ks, i, gone, n, d);
    SitedSize(t, n);
    SwappedLayout(a, b, ks, i, gone, n, d);
    forall m | 0 <= m < |js| ensures Sited(t, js[m]) {
      SwappedSited(s, t, a, b, ks, i, gone, n, d, m);
    }
  }

  lemma {:induction false} SwappedSited(
      s: Buffer, t: Buffer, a: int, b: int, ks: seq<Box>, i: nat, gone: nat, n: Box, d: int, m: nat)
    requires Walk(s, a, b, ks) && i + gone <= |ks| && gone <= 1
    requires n.offset == StartAt(a, ks, i)
    requires n.End() - d == if gone == 0 then n.offset else ks[i].End()
    requires Sited(t, n) && Carried(s, t, a, n.offset, 0) && Carried(s, t, n.End() - d, b, d)
    requires m < |Swapped(ks, i, gone, n, d)|
    ensures Sited(t, Swapped(ks, i, gone, n, d)[m])
  {
    hide ReadBox, U32;
    SitedSize(t, n);
    SwappedPlace(a, b, ks, i, gone, n, d, m);
    if m < i {
      assert Sited(s, ks[m]);
      SitedCarried(s, t, a, n.offset, 0, ks[m]);
    } else if m > i {
      assert Sited(s, ks[m - 1 + gone]);
      SitedCarried(s, t, n.End() - d, b, d, ks[m - 1 + gone]);
    }
  }

  lemma {:induction false} SitedSize(s: Buffer, k: Box)
    requires Sited(s, k)
    ensures 8 <= k.hdr <= k.size && 0 <= k.offset && k.End() <= |s|
  {
  }

  // ---------------------------------------------------------------- paths

  /** Look for `typ`; its own children start `skip` bytes into its body. */
  datatype Hop = Hop(typ: FourCC, skip: nat)

  /** Every range the descent walks is tiled and every box met is long enough for its skip. */
  ghost predicate TiledPath(s: Buffer, a: int, b: int, path: seq<Hop>)
    decreases |path|
  {
    path == [] ||
    (&& Tiled(s, a, b)
     && var c := FindChild(s, a, b, path[0].typ);
        c.Some? ==>
          && c.value.Body() + path[0].skip <= c.value.End() <= b
          && TiledPath(s, c.value.Body() + path[0].skip, c.value.End(), path[1..]))
  }

  function MovedFind(c: Option<Box>, d: int): Option<Box> {
    match c case None => None case Some(k) => Some(k.Moved(d))
  }

  /** A box found in [a, b) lies in it. */
  ghost predicate Within(a: int, b: int, c: Option<Box>) {
    c.Some? ==> a <= c.value.offset && 8 <= c.value.hdr <= c.value.size && c.value.End() <= b
  }

  lemma {:induction false} FindChildCarried(s: Buffer, t: Buffer, a: int, b: int, d: int, typ: FourCC)
    requires Tiled(s, a, b) && Carried(s, t, a, b, d)
    ensures Tiled(t, a + d, b + d)
    ensures FindChild(t, a + d, b + d, typ) == MovedFind(FindChild(s, a, b, typ), d)
    ensures Within(a, b, FindChild(s, a, b, typ))
  {
    hide FindChild, ReadBox, U32, AllSited, AfterEdit, EditedList, Carried;
    var ks :| Walk(s, a, b, ks);
    var i := FirstExists(ks, typ);
    FindChildIsFirst(s, a, b, ks, typ, i);
    KidsCarried(s, t, a, b, d, ks);
    FirstOfEdited(ks, typ, i, -1, d);
    FindChildIsFirst(t, a + d, b + d, EditedList(ks, -1, d), typ, i);
    FoundMoved(FindChild(s, a, b, typ), FindChild(t, a + d, b + d, typ), ks, EditedList(ks, -1, d), i, d);
  }

  lemma {:induction false} FoundMoved(x: Option<Box>, y: Option<Box>, ks: seq<Box>, js: seq<Box>, i: nat, d: int)
    requires x == BoxAt(ks, i) && y == BoxAt(js, i)
    requires BoxAt(js, i) == if i < |ks| then Some(AfterEdit(ks[i], i, -1, d)) else None
    ensures y == MovedFind(x, d)
  {
  }

  /** Following a path of first children, the box it ends at. */
  function Leaf(s: Buffer, a: int, b: int, path: seq<Hop>): (r: Option<Box>)
    requires path != []
    ensures InBuffer(s, r)
    decreases |path|
  {
    match FindChild(s, a, b, path[0].typ)
    case None => None
    case Some(c) => if |path| == 1 then Some(c) else Leaf(s, c.Body() + path[0].skip, c.End(), path[1..])
  }

  /** A descent can be cut in front of its last hop. */
  lemma {:induction false} LeafThen(s: Buffer, a: int, b: int, path: seq<Hop>, h: Hop)
    requires path != []
    ensures Leaf(s, a, b, path + [h]) ==
      match Leaf(s, a, b, path)
      case None => None
      case Some(c) => FindChild(s, c.Body() + path[|path| - 1].skip, c.End(), h.typ)
    decreases |path|
  {
    hide FindChild;
    assert (path + [h])[0] == path[0];
    assert (path + [h])[1..] == path[1..] + [h];
    if |path| > 1 {
      var found := FindChild(s, a, b, path[0].typ);
      if found.Some? {
        LeafThen(s, found.value.Body() + path[0].skip, found.value.End(), path[1..], h);
      }
    }
  }

  lemma {:induction false} TiledPathCut(s: Buffer, a: int, b: int, path: seq<Hop>, h: Hop)
    requires path != [] && TiledPath(s, a, b, path + [h])
    ensures TiledPath(s, a, b, path)
    ensures Leaf(s, a, b, path).Some? ==>
      var c := Leaf(s, a, b, path).value; Tiled(s, c.Body() + path[|path| - 1].skip, c.End())
    decreases |path|
  {
    hide FindChild, Tiled;
    assert (path + [h])[0] == path[0];
    assert (path + [h])[1..] == path[1..] + [h];
    var found := FindChild(s, a, b, path[0].typ);
    if found.Some? {
      if |path| > 1 {
        TiledPathCut(s, found.value.Body() + path[0].skip, found.value.End(), path[1..], h);
      } else {
        assert path[1..] == [];
        assert path[1..] + [h] == [h];
      }
    }
  }

  /** Found in a tiled range, a box is sited and lies in it. */
  lemma {:induction false} FoundSited(s: Buffer, a: int, b: int, typ: FourCC)
    requires Tiled(s, a, b) && FindChild(s, a, b, typ).Some?
    ensures Sited(s, FindChild(s, a, b, typ).value) && Within(a, b, FindChild(s, a, b, typ))
  {
    hide FindChild, ReadBox, U32;
    var ks :| Walk(s, a, b, ks);
    var i := FirstExists(ks, typ);
    FindChildIsFirst(s, a, b, ks, typ, i);
  }

  lemma {:induction false} LeafWithin(s: Buffer, a: int, b: int, path: seq<Hop>)
    requires path != [] && TiledPath(s, a, b, path)
    ensures Within(a, b, Leaf(s, a, b, path))
    decreases |path|
  {
    hide FindChild, ReadBox, U32, Tiled, Sited;
    var found := FindChild(s, a, b, path[0].typ);
    if found.Some? {
      FoundSited(s, a, b, path[0].typ);
      if |path| > 1 {
        LeafWithin(s, found.value.Body() + path[0].skip, found.value.End(), path[1..]);
      }
    }
  }

  /** The leaf is the same box, bytes and all, or missing on both sides. */
  ghost predicate SameLeaf(s: Buffer, t: Buffer, l: Option<Box>, m: Option<Box>) {
    match (l, m)
    case (None, None) => true
    case (Some(x), Some(y)) =>
      && y == x.Moved(y.offset - x.offset)
      && Carried(s, t, x.offset, x.End(), y.offset - x.offset)
    case _ => false
  }

  /** A descent inside a range moved as a whole. */
  lemma {:induction false} DescentCarried(s: Buffer, t: Buffer, a: int, b: int, d: int, path: seq<Hop>)
    requires path != [] && TiledPath(s, a, b, path) && Carried(s, t, a, b, d)
    ensures TiledPath(t, a + d, b + d, path)
    ensures SameLeaf(s, t, Leaf(s, a, b, path), Leaf(t, a + d, b + d, path))
    ensures Leaf(t, a + d, b + d, path) == MovedFind(Leaf(s, a, b, path), d)
    decreases |path|
  {
    hide FindChild, ReadBox, U32, Tiled, Carried;
    FindChildCarried(s, t, a, b, d, path[0].typ);
    var found := FindChild(s, a, b, path[0].typ);
    if found.Some? {
      var c := found.value;
      CarriedPart(s, t, a, b, c.offset, c.End(), d);
      if |path| > 1 {
        CarriedPart(s, t, a, b, c.Body() + path[0].skip, c.End(), d);
        DescentCarried(s, t, c.Body() + path[0].skip, c.End(), d, path[1..]);
      }
    }
  }

  /**
   The edit lies inside the last box of `path`: up to there only the boxes of
   the path change, each growing by `d`, and what follows them moves by `d`.
   */
  ghost predicate EditedInside(s: Buffer, t: Buffer, a: int, b: int, path: seq<Hop>, d: int)
    decreases |path|
  {
    path == [] ||
    (var found := FindChild(s, a, b, path[0].typ);
     && found.Some?
     && 0 <= a && b <= |s|
     && var c := found.value;
        && c.End() <= b && b + d <= |t|
        && Carried(s, t, a, c.offset, 0)
        && Sited(t, c.Grown(d))
        && Carried(s, t, c.End(), b, d)
        && EditedInside(s, t, c.Body() + path[0].skip, c.End(), path[1..], d))
  }

  /** One level of such an edit: the box on the path is still found, grown. */
  lemma {:induction false} EditedChildFound(s: Buffer, t: Buffer, a: int, b: int, path: seq<Hop>, d: int)
    requires path != [] && Tiled(s, a, b) && EditedInside(s, t, a, b, path, d)
    ensures Tiled(t, a, b + d)
    ensures FindChild(t, a, b + d, path[0].typ) == Some(FindChild(s, a, b, path[0].typ).value.Grown(d))
  {
    hide FindChild, ReadBox, U32, Layout, AllSited, EditedList, Carried;
    var ks :| Walk(s, a, b, ks);
    var i := FirstExists(ks, path[0].typ);
    FindChildIsFirst(s, a, b, ks, path[0].typ, i);
    KidsAroundGrown(s, t, a, b, ks, i, d);
    FirstOfEdited(ks, path[0].typ, i, i, d);
    FindChildIsFirst(t, a, b + d, EditedList(ks, i, d), path[0].typ, i);
  }

  /** First boxes of other types stay whole. */
  lemma {:induction false} OtherChildKept(s: Buffer, t: Buffer, a: int, b: int, path: seq<Hop>, d: int, typ: FourCC)
    requires path != [] && Tiled(s, a, b) && EditedInside(s, t, a, b, path, d)
    requires typ != path[0].typ
    ensures Tiled(t, a, b + d)
    ensures SameLeaf(s, t, FindChild(s, a, b, typ), FindChild(t, a, b + d, typ))
    ensures Within(a, b + d, FindChild(t, a, b + d, typ))
    ensures Within(a, b, FindChild(s, a, b, typ))
    ensures d == 0 ==> FindChild(t, a, b, typ) == FindChild(s, a, b, typ)
  {
    hide FindChild, ReadBox, U32, AllSited, EditedList;
    var ks :| Walk(s, a, b, ks);
    var i := FirstExists(ks, path[0].typ);
    FindChildIsFirst(s, a, b, ks, path[0].typ, i);
    KidsAroundGrown(s, t, a, b, ks, i, d);
    var m := FirstExists(ks, typ);
    FindChildIsFirst(s, a, b, ks, typ, m);
    FirstOfEdited(ks, typ, m, i, d);
    FindChildIsFirst(t, a, b + d, EditedList(ks, i, d), typ, m);
    if m < |ks| { KidKept(s, t, a, b, ks, i, m, d); }
  }

  /** Every box on the path still covers its skip after the edit. */
  ghost predicate EditFits(s: Buffer, a: int, b: int, path: seq<Hop>, d: int)
    decreases |path|
  {
    path == [] ||
    match FindChild(s, a, b, path[0].typ)
    case None => true
    case Some(c) =>
      && c.Body() + path[0].skip <= c.End() + d
      && EditFits(s, c.Body() + path[0].skip, c.End(), path[1..], d)
  }

  /** Following the edited path finds the same box, `d` bytes longer. */
  lemma {:induction false} DescentOfEdited(s: Buffer, t: Buffer, a: int, b: int, path: seq<Hop>, d: int)
    requires path != [] && TiledPath(s, a, b, path)
    requires EditedInside(s, t, a, b, path, d) && EditFits(s, a, b, path, d)
    ensures TiledPath(t, a, b + d, path)
    ensures Leaf(s, a, b, path).Some?
    ensures Leaf(t, a, b + d, path) == Some(Leaf(s, a, b, path).value.Grown(d))
    decreases |path|
  {
    hide FindChild, ReadBox, U32, Tiled, Carried, Sited;
    EditedChildFound(s, t, a, b, path, d);
    var c := FindChild(s, a, b, path[0].typ).value;
    if |path| > 1 {
      DescentOfEdited(s, t, c.Body() + path[0].skip, c.End(), path[1..], d);
    }
  }

  /** A path that leaves the edited one finds its leaf untouched, moved or not. */
  lemma {:induction false} DescentBesideEdited(
      s: Buffer, t: Buffer, a: int, b: int, path: seq<Hop>, d: int, other: seq<Hop>, fork: nat)
    requires TiledPath(s, a, b, path) && EditedInside(s, t, a, b, path, d) && EditFits(s, a, b, path, d)
    requires TiledPath(s, a, b, other)
    requires fork < |path| && fork < |other|
    requires path[..fork] == other[..fork] && path[fork].typ != other[fork].typ
    ensures TiledPath(t, a, b + d, other)
    ensures SameLeaf(s, t, Leaf(s, a, b, other), Leaf(t, a, b + d, other))
    decreases |other|
  {
    hide FindChild, ReadBox, U32, Tiled, Carried, Sited;
    if fork == 0 {
      ForkBesideEdited(s, t, a, b, path, d, other);
    } else {
      EditedChildFound(s, t, a, b, path, d);
      SamePrefix(path, other, fork);
      var c := FindChild(s, a, b, path[0].typ).value;
      DescentBesideEdited(s, t, c.Body() + path[0].skip, c.End(), path[1..], d, other[1..], fork - 1);
    }
  }

  lemma {:induction false} SamePrefix(path: seq<Hop>, other: seq<Hop>, fork: nat)
    requires 0 < fork < |path| && fork < |other| && path[..fork] == other[..fork]
    ensures path[0] == other[0] && path[1..][..fork - 1] == other[1..][..fork - 1]
  {
    assert path[0] == path[..fork][0];
    assert path[1..][..fork - 1] == path[..fork][1..];
    assert other[1..][..fork - 1] == other[..fork][1..];
  }

  lemma {:induction false} ForkBesideEdited(s: Buffer, t: Buffer, a: int, b: int, path: seq<Hop>, d: int,
    other: seq<Hop>)
    requires path != [] && Tiled(s, a, b) && EditedInside(s, t, a, b, path, d)
    requires other != [] && path[0].typ != other[0].typ && TiledPath(s, a, b, other)
    ensures TiledPath(t, a, b + d, other)
    ensures SameLeaf(s, t, Leaf(s, a, b, other), Leaf(t, a, b + d, other))
  {
    hide FindChild, ReadBox, U32, Tiled, Carried, Sited;
    var typ := other[0].typ;
    OtherChildKept(s, t, a, b, path, d, typ);
    var x, y := FindChild(s, a, b, typ), FindChild(t, a, b + d, typ);
    if |other| > 1 && x.Some? {
      var e := y.value.offset - x.value.offset;
      CarriedPart(s, t, x.value.offset, x.value.End(), x.value.Body() + other[0].skip, x.value.End(), e);
      DescentCarried(s, t, x.value.Body() + other[0].skip, x.value.End(), e, other[1..]);
    }
  }

  /** A box in front of [lo, hi) stays, one behind it moves by `d`. */
  ghost predicate Aside(x: Option<Box>, y: Option<Box>, lo: int, hi: int, d: int) {
    match (x, y)
    case (None, None) => true
    case (Some(k), Some(l)) => (k.End() <= lo && l == k) || (hi <= k.offset && l == k.Moved(d))
    case _ => false
  }

  /** First boxes of other types stand beside the edited one. */
  lemma {:induction false} OtherChildAside(s: Buffer, t: Buffer, a: int, b: int, path: seq<Hop>, d: int, typ: FourCC)
    requires path != [] && Tiled(s, a, b) && EditedInside(s, t, a, b, path, d)
    requires typ != path[0].typ
    ensures var c := FindChild(s, a, b, path[0].typ).value;
      Aside(FindChild(s, a, b, typ), FindChild(t, a, b + d, typ), c.offset, c.End(), d)
  {
    hide FindChild, ReadBox, U32, AllSited, EditedList;
    var ks :| Walk(s, a, b, ks);
    var i := FirstExists(ks, path[0].typ);
    FindChildIsFirst(s, a, b, ks, path[0].typ, i);
    KidsAroundGrown(s, t, a, b, ks, i, d);
    var m := FirstExists(ks, typ);
    FindChildIsFirst(s, a, b, ks, typ, m);
    FirstOfEdited(ks, typ, m, i, d);
    FindChildIsFirst(t, a, b + d, EditedList(ks, i, d), typ, m);
    if m < |ks| { LayoutOrder(a, b, ks); }
  }

  /** The leaf of a path that parts from the edited one at its last hop stands beside the box there. */
  lemma {:induction false} LeafBeside(
      s: Buffer, t: Buffer, a: int, b: int, path: seq<Hop>, d: int, other: seq<Hop>, fork: nat)
    requires TiledPath(s, a, b, path) && EditedInside(s, t, a, b, path, d) && TiledPath(s, a, b, other)
    requires fork < |path| && |other| == fork + 1
    requires path[..fork] == other[..fork] && path[fork].typ != other[fork].typ
    ensures Leaf(s, a, b, path[..fork + 1]).Some?
    ensures var c := Leaf(s, a, b, path[..fork + 1]).value;
      Aside(Leaf(s, a, b, other), Leaf(t, a, b + d, other), c.offset, c.End(), d)
    decreases |other|
  {
    hide FindChild, ReadBox, U32, Tiled, Carried, Sited, Aside;
    if fork == 0 {
      OtherChildAside(s, t, a, b, path, d, other[0].typ);
    } else {
      EditedChildFound(s, t, a, b, path, d);
      SamePrefix(path, other, fork);
      var c := FindChild(s, a, b, path[0].typ).value;
      LeafBeside(s, t, c.Body() + path[0].skip, c.End(), path[1..], d, other[1..], fork - 1);
      assert path[..fork + 1][1..] == path[1..][..fork];
    }
  }

  /** `t` is `s` outside [lo, hi). */
  ghost predicate SameOutside(s: Buffer, t: Buffer, lo: int, hi: int) {
    |t| == |s| && forall k :: 0 <= k < |s| && !(lo <= k < hi) ==> SameByte(s, t, k, 0)
  }

  /** Bytes changed only inside the leaf of a path: an edit inside that path, with `d == 0`. */
  lemma {:induction false} ChangedInLeaf(s: Buffer, t: Buffer, a: int, b: int, path: seq<Hop>)
    requires path != [] && TiledPath(s, a, b, path) && Leaf(s, a, b, path).Some?
    requires SameOutside(s, t, Leaf(s, a, b, path).value.Body(), Leaf(s, a, b, path).value.End())
    ensures EditedInside(s, t, a, b, path, 0) && EditFits(s, a, b, path, 0)
    decreases |path|
  {
    hide FindChild, ReadBox, U32, Tiled, Sited;
    var c := FindChild(s, a, b, path[0].typ).value;
    FoundSited(s, a, b, path[0].typ);
    LeafWithin(s, a, b, path);
    if |path| > 1 {
      LeafWithin(s, c.Body() + path[0].skip, c.End(), path[1..]);
      ChangedInLeaf(s, t, c.Body() + path[0].skip, c.End(), path[1..]);
    }
    SitedSize(s, c);
    TiledRange(s, a, b);
    HeaderKept(s, t, c, Leaf(s, a, b, path).value);
  }

  lemma {:induction false} TiledRange(s: Buffer, a: int, b: int)
    requires Tiled(s, a, b)
    ensures 0 <= a <= b <= |s|
  {
  }

  lemma {:induction false} HeaderKept(s: Buffer, t: Buffer, c: Box, l: Box)
    requires Sited(s, c) && c.Body() <= l.Body() && SameOutside(s, t, l.Body(), l.End())
    ensures Sited(t, c.Grown(0))
  {
    hide ReadBox, U32;
    SitedSize(s, c);
    assert Carried(s, t, c.offset, c.Body(), 0);
    BoxCarried(s, t, c.offset, 0, c);
    assert c.Moved(0) == c.Grown(0);
  }

  // ---------------------------------------------------------------- descents

  /** All the boxes on a path of first children. */
  function Descent(s: Buffer, a: int, b: int, path: seq<Hop>): (r: Option<seq<Box>>)
    ensures r.Some? ==> |r.value| == |path| && HeadersFit(s, r.value)
    decreases |path|
  {
    if path == [] then Some([])
    else
      match FindChild(s, a, b, path[0].typ)
      case None => None
      case Some(c) =>
        match Descent(s, c.Body() + path[0].skip, c.End(), path[1..])
        case None => None
        case Some(cs) => Some([c] + cs)
  }

  lemma {:induction false} DescentEndsAtLeaf(s: Buffer, a: int, b: int, path: seq<Hop>)
    requires path != []
    ensures Leaf(s, a, b, path) ==
      match Descent(s, a, b, path) case None => None case Some(cs) => Some(cs[|path| - 1])
    decreases |path|
  {
    hide FindChild;
    if |path| > 1 {
      var found := FindChild(s, a, b, path[0].typ);
      if found.Some? { DescentEndsAtLeaf(s, found.value.Body() + path[0].skip, found.value.End(), path[1..]); }
    }
  }

  lemma {:induction false} DescentStays(s: Buffer, t: Buffer, a: int, b: int, path: seq<Hop>)
    requires TiledPath(s, a, b, path) && Carried(s, t, a, b, 0)
    ensures Descent(t, a, b, path) == Descent(s, a, b, path)
    decreases |path|
  {
    hide FindChild, ReadBox, U32, Tiled, Carried;
    if path != [] {
      FindChildCarried(s, t, a, b, 0, path[0].typ);
      var found := FindChild(s, a, b, path[0].typ);
      if found.Some? {
        var c := found.value;
        assert c.Moved(0) == c;
        CarriedPart(s, t, a, b, c.Body() + path[0].skip, c.End(), 0);
        DescentStays(s, t, c.Body() + path[0].skip, c.End(), path[1..]);
      }
    }
  }

  /** An edit in place inside one path leaves the boxes of a path that forks off where they are. */
  lemma {:induction false} DescentBeside(
      s: Buffer, t: Buffer, a: int, b: int, path: seq<Hop>, other: seq<Hop>, fork: nat)
    requires TiledPath(s, a, b, path) && EditedInside(s, t, a, b, path, 0)
    requires TiledPath(s, a, b, other)
    requires fork < |path| && fork < |other|
    requires path[..fork] == other[..fork] && path[fork].typ != other[fork].typ
    ensures Descent(t, a, b, other) == Descent(s, a, b, other)
    decreases |other|
  {
    hide FindChild, ReadBox, U32, Tiled, Carried, Sited;
    if fork == 0 {
      ForkStays(s, t, a, b, path, other);
    } else {
      EditedChildFound(s, t, a, b, path, 0);
      SamePrefix(path, other, fork);
      var c := FindChild(s, a, b, path[0].typ).value;
      assert c.Grown(0) == c;
      DescentBeside(s, t, c.Body() + path[0].skip, c.End(), path[1..], other[1..], fork - 1);
    }
  }

  lemma {:induction false} ForkStays(s: Buffer, t: Buffer, a: int, b: int, path: seq<Hop>, other: seq<Hop>)
    requires path != [] && Tiled(s, a, b) && EditedInside(s, t, a, b, path, 0)
    requires other != [] && path[0].typ != other[0].typ && TiledPath(s, a, b, other)
    ensures Descent(t, a, b, other) == Descent(s, a, b, other)
  {
    hide FindChild, ReadBox, U32, Tiled, Carried, Sited;
    OtherChildKept(s, t, a, b, path, 0, other[0].typ);
    var x := FindChild(s, a, b, other[0].typ);
    if x.Some? {
      CarriedPart(s, t, x.value.offset, x.value.End(), x.value.Body() + other[0].skip, x.value.End(), 0);
      DescentStays(s, t, x.value.Body() + other[0].skip, x.value.End(), other[1..]);
    }
  }

  function GrownList(cs: seq<Box>, d: int): (r: seq<Box>)
    ensures |r| == |cs| && forall i :: 0 <= i < |cs| ==> r[i] == cs[i].Grown(d)
  {
    seq(|cs|, i requires 0 <= i < |cs| => cs[i].Grown(d))
  }

  /** The boxes of the edited path itself are met again, grown. */
  lemma {:induction false} DescentGrown(s: Buffer, t: Buffer, a: int, b: int, path: seq<Hop>, d: int)
    requires TiledPath(s, a, b, path) && EditedInside(s, t, a, b, path, d)
    ensures Descent(s, a, b, path).Some?
    ensures Descent(t, a, b + d, path) == Some(GrownList(Descent(s, a, b, path).value, d))
    decreases |path|
  {
    hide FindChild, ReadBox, U32, Tiled, Carried, Sited, HeadersFit;
    if path != [] {
      EditedChildFound(s, t, a, b, path, d);
      var c := FindChild(s, a, b, path[0].typ).value;
      DescentGrown(s, t, c.Body() + path[0].skip, c.End(), path[1..], d);
      var cs := Descent(s, c.Body() + path[0].skip, c.End(), path[1..]).value;
      assert GrownList([c] + cs, d) == [c.Grown(d)] + GrownList(cs, d);
    }
  }
}
