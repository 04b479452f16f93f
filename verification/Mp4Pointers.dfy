/**
 Chunk pointers against the whole file: what it means that they still reach
 their bytes after the moov in the middle of the file got a different length.
 */
module Mp4Pointers {
  import opened Options
  import opened Endian
  import opened Mp4Boxes
  import opened Mp4Tables
  import opened Mp4Moov

  /** Outside [lo, hi) the pointer follows its byte when that range gets `d` longer. */
  ghost predicate Follows(v: int, w: int, lo: int, hi: int, d: int) {
    (v < lo ==> w == v) && (v >= hi ==> w == v + d)
  }

  ghost predicate AllFollow(ps: seq<int>, qs: seq<int>, lo: int, hi: int, d: int) {
    |qs| == |ps| && forall i :: 0 <= i < |ps| ==> Follows(ps[i], qs[i], lo, hi, d)
  }

  /** The tables follow, and everything else (the ac-4 entry only if `whole`) is the same. */
  ghost predicate ChildFollows(c: Child, e: Child, lo: int, hi: int, d: int, whole: bool) {
    match (c, e)
    case (Trak(ps, qs, x), Trak(ps', qs', y)) =>
      AllFollow(ps, ps', lo, hi, d) && AllFollow(qs, qs', lo, hi, d) && (whole ==> x == y)
    case (Other(x), Other(y)) => x == y
    case _ => false
  }

  /** All children of moov follow; only the entry of trak `j` may differ. */
  ghost predicate DigestFollows(cs: seq<Child>, es: seq<Child>, j: nat, lo: int, hi: int, d: int) {
    |es| == |cs| && forall i :: 0 <= i < |cs| ==> ChildFollows(cs[i], es[i], lo, hi, d, i != j)
  }

  lemma {:induction false} MovedFollows(c: Child, from: int, d: int, lo: int, hi: int)
    requires lo <= from <= hi
    ensures ChildFollows(c, ChildMoved(c, from, d), lo, hi, d, true)
  {
  }

  lemma {:induction false} DigestMovedFollows(cs: seq<Child>, j: nat, f: Buffer, from: int, d: int, lo: int, hi: int)
    requires lo <= from <= hi && j < |cs|
    ensures DigestFollows(cs, EntryReplaced(DigestMoved(cs, from, d), j, f), j, lo, hi, d)
  {
    hide ChildMoved, AllFollow;
    var es := EntryReplaced(DigestMoved(cs, from, d), j, f);
    forall i | 0 <= i < |cs| ensures ChildFollows(cs[i], es[i], lo, hi, d, i != j) {
      MovedFollows(cs[i], from, d, lo, hi);
    }
  }

  lemma {:induction false} FollowTwice(c: Child, e: Child, f: Child, lo: int, hi: int, d: int, d': int, whole: bool)
    requires ChildFollows(c, e, lo, hi, d, whole) && ChildFollows(e, f, lo, hi + d, d', whole) && lo <= hi + d
    ensures ChildFollows(c, f, lo, hi, d + d', whole)
  {
  }

  lemma {:induction false} DigestFollowsTwice(
      cs: seq<Child>, es: seq<Child>, fs: seq<Child>, j: nat, lo: int, hi: int, d: int, d': int)
    requires DigestFollows(cs, es, j, lo, hi, d) && DigestFollows(es, fs, j, lo, hi + d, d') && lo <= hi + d
    ensures DigestFollows(cs, fs, j, lo, hi, d + d')
  {
    hide ChildFollows;
    forall i | 0 <= i < |cs| ensures ChildFollows(cs[i], fs[i], lo, hi, d + d', i != j) {
      FollowTwice(cs[i], es[i], fs[i], lo, hi, d, d', i != j);
    }
  }

  lemma {:induction false} DigestFollowsSelf(cs: seq<Child>, j: nat, lo: int, hi: int)
    ensures DigestFollows(cs, cs, j, lo, hi, 0)
  {
  }

  /** Every chunk at `v` in file `f` that does not touch [lo, hi) is the chunk at `w` in file `g`. */
  ghost predicate Lands(f: Buffer, g: Buffer, lo: int, hi: int, v: int, w: int) {
    forall n: nat :: ChunkOutside(f, lo, hi, v, n) ==> SameChunk(f, g, v, w, n)
  }

  ghost predicate SameChunk(f: Buffer, g: Buffer, v: int, w: int, n: nat) {
    0 <= v && v + n <= |f| && 0 <= w && w + n <= |g| && g[w..w + n] == f[v..v + n]
  }

  ghost predicate ChunkOutside(f: Buffer, lo: int, hi: int, v: int, n: nat) {
    0 <= v && 0 < n && v + n <= |f| && (v + n <= lo || hi <= v)
  }

  lemma {:induction false} SliceInFront(a: Buffer, b: Buffer, c: Buffer, v: int, n: nat)
    requires 0 <= v && v + n <= |a|
    ensures (a + b + c)[v..v + n] == a[v..v + n]
  {
  }

  lemma {:induction false} SliceBehind(a: Buffer, b: Buffer, c: Buffer, p: int, n: nat)
    requires 0 <= p && p + n <= |c|
    ensures var q := |a| + |b| + p; (a + b + c)[q..q + n] == c[p..p + n]
  {
  }

  lemma {:induction false} FollowsLands(pre: Buffer, s: Buffer, t: Buffer, post: Buffer, v: int, w: int)
    requires Follows(v, w, |pre|, |pre| + |s|, |t| - |s|)
    ensures Lands(pre + s + post, pre + t + post, |pre|, |pre| + |s|, v, w)
  {
    var f, g := pre + s + post, pre + t + post;
    forall n: nat | ChunkOutside(f, |pre|, |pre| + |s|, v, n) ensures SameChunk(f, g, v, w, n) {
      if v < |pre| {
        SliceInFront(pre, s, post, v, n);
        SliceInFront(pre, t, post, v, n);
      } else {
        var p := v - |pre| - |s|;
        SliceBehind(pre, s, post, p, n);
        SliceBehind(pre, t, post, p, n);
      }
    }
  }

  /** The chunks of one child of moov are the same before and after. */
  ghost predicate ChunksKept(f: Buffer, g: Buffer, lo: int, hi: int, c: Child, e: Child) {
    c.Trak? ==>
      && e.Trak? && |e.stco| == |c.stco| && |e.co64| == |c.co64|
      && (forall i :: 0 <= i < |c.stco| ==> Lands(f, g, lo, hi, c.stco[i], e.stco[i]))
      && (forall i :: 0 <= i < |c.co64| ==> Lands(f, g, lo, hi, c.co64[i], e.co64[i]))
  }

  /** Pointers that follow reach the same chunks, wherever the media data lies in the file. */
  lemma {:induction false} FollowingKeepsChunks(pre: Buffer, s: Buffer, t: Buffer, post: Buffer, c: Child, e: Child,
    whole: bool)
    requires ChildFollows(c, e, |pre|, |pre| + |s|, |t| - |s|, whole)
    ensures ChunksKept(pre + s + post, pre + t + post, |pre|, |pre| + |s|, c, e)
  {
    hide Lands, Follows;
    if c.Trak? {
      forall i | 0 <= i < |c.stco|
        ensures Lands(pre + s + post, pre + t + post, |pre|, |pre| + |s|, c.stco[i], e.stco[i])
      {
        FollowsLands(pre, s, t, post, c.stco[i], e.stco[i]);
      }
      forall i | 0 <= i < |c.co64|
        ensures Lands(pre + s + post, pre + t + post, |pre|, |pre| + |s|, c.co64[i], e.co64[i])
      {
        FollowsLands(pre, s, t, post, c.co64[i], e.co64[i]);
      }
    }
  }

  /** There is room for `n` more in every pointer field. */
  ghost predicate RoomFor(c: Child, n: nat) {
    c.Trak? ==>
      && (forall i :: 0 <= i < |c.stco| ==> c.stco[i] + n < TWO32)
      && (forall i :: 0 <= i < |c.co64| ==> c.co64[i] + n < TWO63)
  }

  ghost predicate AllRoomFor(cs: seq<Child>, n: nat) {
    forall i :: 0 <= i < |cs| ==> RoomFor(cs[i], n)
  }

  lemma {:induction false} RoomFits(cs: seq<Child>, n: nat, from: int)
    requires AllRoomFor(cs, n) && 0 <= from
    ensures DigestFits(cs, from, n)
  {
  }

  lemma {:induction false} RoomAfterShrinking(cs: seq<Child>, n: nat, j: nat, f: Buffer, from: int, d: int)
    requires AllRoomFor(cs, n) && j < |cs| && d <= 0
    ensures AllRoomFor(EntryReplaced(DigestMoved(cs, from, d), j, f), n)
  {
    var es := EntryReplaced(DigestMoved(cs, from, d), j, f);
    forall i | 0 <= i < |cs| ensures RoomFor(es[i], n) {
      assert RoomFor(cs[i], n);
    }
  }
}
