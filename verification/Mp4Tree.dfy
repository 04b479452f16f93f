/**
 Trees of boxes. Any tree a reader makes out of moov, down to any depth, is read
 again after a rewrite: the boxes around the rewritten one grown, those behind it
 moved, the others where they were, and children nested in their parents as before.
 */
module Mp4Tree {
  import opened Options
  import opened Endian
  import opened Mp4Boxes
  import opened Mp4Edits
  import opened Mp4Splice
  import opened Mp4Tables
  import opened Mp4Moov

  /** A box and, if it is looked into, the boxes that start `skip` bytes into its body. */
  datatype Node = Node(box: Box, skip: nat, kids: seq<Node>)

  function Boxes(kids: seq<Node>): (r: seq<Box>)
    ensures |r| == |kids| && forall i :: 0 <= i < |kids| ==> r[i] == kids[i].box
  {
    seq(|kids|, i requires 0 <= i < |kids| => kids[i].box)
  }

  /** The buffer holds this tree. */
  ghost predicate Reads(s: Buffer, n: Node) {
    && Sited(s, n.box)
    && (n.kids != [] ==> Walk(s, n.box.Body() + n.skip, n.box.End(), Boxes(n.kids)))
    && forall i :: 0 <= i < |n.kids| ==> Reads(s, n.kids[i])
  }

  /** What becomes of a box when [lo, hi) becomes `d` bytes longer. */
  function Place(b: Box, lo: int, hi: int, d: int): Box {
    if b.End() <= lo then b else if hi <= b.offset then b.Moved(d) else b.Grown(d)
  }

  function Follow(n: Node, lo: int, hi: int, d: int): Node {
    Node(Place(n.box, lo, hi, d), n.skip, seq(|n.kids|, i requires 0 <= i < |n.kids| => Follow(n.kids[i], lo, hi, d)))
  }

  ghost predicate Beside(b: Box, lo: int, hi: int) {
    b.End() <= lo || hi <= b.offset
  }

  ghost predicate Around(b: Box, lo: int, hi: int) {
    !Beside(b, lo, hi) && b.offset <= lo && hi <= b.End()
  }

  /** The header of `b` is neither in a chunk table nor a header of `hs`. */
  ghost predicate HeaderApart(s: Buffer, ks: seq<Box>, hs: seq<Box>, b: Box) {
    forall k :: b.offset <= k < b.Body() ==> Clear(hs, 0, k) && !InTables(s, ks, k)
  }

  /**
   Every box of the tree stands beside [lo, hi), or is one of the chain around it;
   of the children of one around it, one is around it too.
   */
  ghost predicate Apart(s: Buffer, ks: seq<Box>, hs: seq<Box>, lo: int, hi: int, n: Node) {
    && (if Beside(n.box, lo, hi) then HeaderApart(s, ks, hs, n.box)
        else
          && Around(n.box, lo, hi) && InChain(hs, n.box)
          && (n.kids != [] ==> exists i :: 0 <= i < |n.kids| && Around(n.kids[i].box, lo, hi)))
    && forall i :: 0 <= i < |n.kids| ==> Apart(s, ks, hs, lo, hi, n.kids[i])
  }

  ghost predicate InChain(hs: seq<Box>, b: Box) {
    exists i :: 0 < i < |hs| && hs[i] == b
  }

  /** The boxes inside moov that lead to the change are there, grown. */
  ghost predicate ChainGrown(t: Buffer, hs: seq<Box>, d: int) {
    forall i :: 0 < i < |hs| ==> Sited(t, hs[i].Grown(d))
  }

  lemma {:induction false} BesideKept(
      s: Buffer, t: Buffer, ks: seq<Box>, hs: seq<Box>, lo: int, hi: int, d: int, b: Box)
    requires BytesKept(s, t, ks, hs, lo, hi, d) && 0 <= lo <= hi <= |s| && lo <= hi + d
    requires Sited(s, b) && Beside(b, lo, hi) && HeaderApart(s, ks, hs, b)
    ensures Sited(t, Place(b, lo, hi, d))
  {
    hide U32, ReadBox, InTables, Clear;
    SitedSize(s, b);
    var e := if b.End() <= lo then 0 else d;
    forall k | b.offset <= k < b.Body() ensures SameByte(s, t, k, e) {
      assert Clear(hs, 0, k) && !InTables(s, ks, k);
    }
    SitedMoved(s, t, b, e);
  }

  lemma {:induction false} SitedMoved(s: Buffer, t: Buffer, b: Box, e: int)
    requires Sited(s, b) && Carried(s, t, b.offset, b.Body(), e) && b.End() + e <= |t|
    ensures Sited(t, b.Moved(e))
  {
    BoxCarried(s, t, b.offset, e, b);
  }

  lemma {:induction false} KidsOfFollow(n: Node, lo: int, hi: int, d: int)
    ensures var m := Follow(n, lo, hi, d);
      && m.box == Place(n.box, lo, hi, d) && m.skip == n.skip
      && |m.kids| == |n.kids| && forall i :: 0 <= i < |n.kids| ==> m.kids[i] == Follow(n.kids[i], lo, hi, d)
  {
  }

  /** The boxes in a box beside the change are all on its side. */
  lemma {:induction false} KidsBeside(a: int, b: int, bs: seq<Box>, lo: int, hi: int, d: int)
    requires Layout(a, b, bs) && (b <= lo || hi <= a) && lo <= hi
    ensures var e := if b <= lo then 0 else d;
      forall i :: 0 <= i < |bs| ==> Place(bs[i], lo, hi, d) == AfterEdit(bs[i], i, -1, e)
  {
  }

  /** Of the boxes in one around it, the one around it grows and those behind it move. */
  lemma {:induction false} KidsAround(a: int, b: int, bs: seq<Box>, i: nat, lo: int, hi: int, d: int)
    requires Layout(a, b, bs) && i < |bs| && Around(bs[i], lo, hi) && lo <= hi
    ensures forall m :: 0 <= m < |bs| ==> Place(bs[m], lo, hi, d) == AfterEdit(bs[m], m, i, d)
  {
    LayoutOrder(a, b, bs);
    forall m | 0 <= m < |bs| ensures Place(bs[m], lo, hi, d) == AfterEdit(bs[m], m, i, d) {
      if m < i { assert bs[m].End() <= bs[i].offset; }
      if m > i { assert bs[i].End() <= bs[m].offset; }
    }
  }

  lemma {:induction false} SameBoxes(kids: seq<Node>, bs: seq<Box>)
    requires |kids| == |bs| && forall i :: 0 <= i < |bs| ==> kids[i].box == bs[i]
    ensures Boxes(kids) == bs
  {
  }

  /** The range of children is walked again, in a box beside the change. */
  lemma {:induction false} BesideWalked(s: Buffer, t: Buffer, a: int, b: int, bs: seq<Box>, lo: int, hi: int, d: int)
    requires Walk(s, a, b, bs) && (b <= lo || hi <= a) && lo <= hi && 0 <= lo <= hi + d && |t| == |s| + d && hi <= |s|
    requires forall i :: 0 <= i < |bs| ==> Sited(t, Place(bs[i], lo, hi, d))
    ensures var e := if b <= lo then 0 else d;
      && Walk(t, a + e, b + e, EditedList(bs, -1, e))
      && forall i :: 0 <= i < |bs| ==> EditedList(bs, -1, e)[i] == Place(bs[i], lo, hi, d)
  {
    hide ReadBox, U32, Layout, Place, Sited;
    var e := if b <= lo then 0 else d;
    LayoutBounds(a, b, bs);
    KidsBeside(a, b, bs, lo, hi, d);
    MovedLayout(a, b, bs, e);
  }

  /** The same in a box around it. */
  lemma {:induction false} AroundWalked(
      s: Buffer, t: Buffer, a: int, b: int, bs: seq<Box>, i: nat, lo: int, hi: int, d: int)
    requires Walk(s, a, b, bs) && i < |bs| && Around(bs[i], lo, hi) && lo <= hi && |t| == |s| + d
    requires forall m :: 0 <= m < |bs| ==> Sited(t, Place(bs[m], lo, hi, d))
    ensures Walk(t, a, b + d, EditedList(bs, i, d))
    ensures forall m :: 0 <= m < |bs| ==> EditedList(bs, i, d)[m] == Place(bs[m], lo, hi, d)
  {
    hide ReadBox, U32, Layout, Place, Sited;
    KidsAround(a, b, bs, i, lo, hi, d);
    SitedSize(t, Place(bs[i], lo, hi, d));
    GrownLayout(a, b, bs, i, d);
  }

  lemma {:induction false} KidsWalked(s: Buffer, t: Buffer, n: Node, lo: int, hi: int, d: int)
    requires Walk(s, n.box.Body() + n.skip, n.box.End(), Boxes(n.kids)) && 8 <= n.box.hdr <= n.box.size
    requires lo <= hi && 0 <= lo && lo <= hi + d && hi <= |s| && |t| == |s| + d
    requires Beside(n.box, lo, hi) ||
      (Around(n.box, lo, hi) && exists i :: 0 <= i < |n.kids| && Around(n.kids[i].box, lo, hi))
    requires forall i :: 0 <= i < |n.kids| ==> Sited(t, Place(n.kids[i].box, lo, hi, d))
    ensures var m := Follow(n, lo, hi, d);
      Walk(t, m.box.Body() + m.skip, m.box.End(), Boxes(m.kids))
  {
    hide Walk, Sited, EditedList, Boxes;
    var a, b, bs := n.box.Body() + n.skip, n.box.End(), Boxes(n.kids);
    var m := Follow(n, lo, hi, d);
    KidsOfFollow(n, lo, hi, d);
    if Beside(n.box, lo, hi) {
      BesideWalked(s, t, a, b, bs, lo, hi, d);
      SameBoxes(m.kids, EditedList(bs, -1, if b <= lo then 0 else d));
    } else {
      var i :| 0 <= i < |n.kids| && Around(n.kids[i].box, lo, hi);
      AroundWalked(s, t, a, b, bs, i, lo, hi, d);
      SameBoxes(m.kids, EditedList(bs, i, d));
    }
  }

  lemma {:induction false} LayoutBounds(a: int, b: int, bs: seq<Box>)
    requires Layout(a, b, bs)
    ensures 0 <= a <= b
  {
  }

  /** The tree is read again, every box at its new place. */
  lemma {:induction false} TreeKept(
      s: Buffer, t: Buffer, ks: seq<Box>, hs: seq<Box>, lo: int, hi: int, d: int, n: Node)
    requires BytesKept(s, t, ks, hs, lo, hi, d) && ChainGrown(t, hs, d)
    requires 0 <= lo <= hi <= |s| && lo <= hi + d
    requires Reads(s, n) && Apart(s, ks, hs, lo, hi, n)
    ensures Reads(t, Follow(n, lo, hi, d))
    decreases n
  {
    assert |t| == |s| + d;
    hide ReadBox, U32, BytesKept, HeaderApart, Walk, Sited, Follow, Place, Boxes, InChain, ChainGrown;
    BoxPlaced(s, t, ks, hs, lo, hi, d, n);
    forall i | 0 <= i < |n.kids| ensures Reads(t, Follow(n.kids[i], lo, hi, d)) {
      TreeKept(s, t, ks, hs, lo, hi, d, n.kids[i]);
    }
    KidsRead(s, t, lo, hi, d, n);
  }

  lemma {:induction false} BoxPlaced(
      s: Buffer, t: Buffer, ks: seq<Box>, hs: seq<Box>, lo: int, hi: int, d: int, n: Node)
    requires BytesKept(s, t, ks, hs, lo, hi, d) && ChainGrown(t, hs, d)
    requires 0 <= lo <= hi <= |s| && lo <= hi + d
    requires Reads(s, n) && Apart(s, ks, hs, lo, hi, n)
    ensures Sited(t, Place(n.box, lo, hi, d))
    ensures Beside(n.box, lo, hi) || n.kids == []
      || (Around(n.box, lo, hi) && exists i :: 0 <= i < |n.kids| && Around(n.kids[i].box, lo, hi))
  {
    hide ReadBox, U32, BytesKept, HeaderApart, Walk, Sited, Place, Boxes, InChain, ChainGrown;
    if Beside(n.box, lo, hi) {
      BesideKept(s, t, ks, hs, lo, hi, d, n.box);
    } else {
      ChainPlaced(t, hs, lo, hi, d, n.box);
    }
  }

  /** From the children to the parent. */
  lemma {:induction false} KidsRead(s: Buffer, t: Buffer, lo: int, hi: int, d: int, n: Node)
    requires Reads(s, n) && Sited(t, Place(n.box, lo, hi, d))
    requires 0 <= lo <= hi <= |s| && lo <= hi + d && |t| == |s| + d
    requires Beside(n.box, lo, hi) || n.kids == []
      || (Around(n.box, lo, hi) && exists i :: 0 <= i < |n.kids| && Around(n.kids[i].box, lo, hi))
    requires forall i :: 0 <= i < |n.kids| ==> Reads(t, Follow(n.kids[i], lo, hi, d))
    ensures Reads(t, Follow(n, lo, hi, d))
  {
    hide ReadBox, U32, Walk, Sited, Follow, Place, Boxes;
    KidsOfFollow(n, lo, hi, d);
    if n.kids != [] {
      SitedSize(s, n.box);
      forall i | 0 <= i < |n.kids| ensures Sited(t, Place(n.kids[i].box, lo, hi, d)) {
        KidsOfFollow(n.kids[i], lo, hi, d);
      }
      KidsWalked(s, t, n, lo, hi, d);
    }
  }

  lemma {:induction false} ChainPlaced(t: Buffer, hs: seq<Box>, lo: int, hi: int, d: int, b: Box)
    requires ChainGrown(t, hs, d) && InChain(hs, b) && !Beside(b, lo, hi)
    ensures Sited(t, Place(b, lo, hi, d))
  {
    hide Sited;
  }

  /** Every box of the chain but moov itself is sited. */
  lemma {:induction false} ChainSited(t: Buffer, moov: Box, ks: seq<Box>, j: nat, hs: seq<Box>)
    requires WellFormed(t, moov, ks) && EntryChain(t, moov, ks, j, hs)
    ensures forall i :: 0 < i < |hs| ==> Sited(t, hs[i])
  {
    hide FindChild, ReadBox, U32, TiledPath, Descent, OnPath, Sited;
    PathsFork();
    assert Sited(t, ks[j]) && WellFormedChild(t, ks[j]);
    ChainOnPath(t, moov, ks, j, hs);
    PathNested(t, ks[j].Body(), ks[j].End(), TO_ENTRY, hs, 2);
  }
}
