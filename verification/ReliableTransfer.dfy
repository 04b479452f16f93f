/**
 reliableFileDownload of go_backend/extension_runtime_transfer.go for a call
 without a Range header of its own, as functions: what one answer does to the
 partial file and to its checkpoint, and what the answers of a run add up to.
 */
module ReliableTransfer {
  import opened Options
  import opened ObjectOrigin

  // ---------------------------------------------------------------- one answer, as a function

  /** What one attempt leaves to the next. */
  datatype Partial = Partial(data: Bytes, validator: string)

  datatype Step = Broken | GiveUp | Complete | Again

  function AskFrom(s: Partial, resume: bool): nat {
    if resume && |s.data| > 0 && s.validator != "" then |s.data| else 0
  }

  /** The treatment of a 2xx answer while the disk works. */
  function After(s: Partial, resume: bool, r: Reply): (Partial, Step) {
    var asked := AskFrom(s, resume);
    if asked > 0 && r.code == PARTIAL &&
      (r.start != asked || (r.validator != "" && r.validator != s.validator)) then (s, GiveUp)
    else
      var full := asked > 0 && r.code == OK;
      var data := (if full then [] else s.data) + Data(r);
      var validator := if r.validator != "" then r.validator else s.validator;
      var total := TotalLength(r, if full then 0 else asked);
      if r.eof && (total <= 0 || |data| == total) then
        (Partial(data, validator), if data == [] then GiveUp else Complete)
      else if !resume || validator == "" then (Partial([], ""), Again)
      else (Partial(data, validator), Again)
  }

  /** Where the bytes of an answer stand in the object. */
  function Front(r: Reply, asked: nat): nat {
    if r.code == PARTIAL then asked else 0
  }

  /** An answer that says how long the object is. */
  predicate StatesSize(r: Reply) {
    if r.code == PARTIAL then r.total >= 0 else r.length > 0
  }

  /** An answer that ends without saying so ends where the object ends. */
  ghost predicate EndsObject(r: Reply, v: Version, asked: nat) {
    r.eof && !StatesSize(r) && (r.code == PARTIAL ==> r.start == asked) ==> Front(r, asked) + |Data(r)| == |v.body|
  }

  /** An answer to a range request is 200 or 206. */
  predicate TwoCodes(a: Answer, from: nat) {
    a.Got? && from > 0 ==> a.reply.code == OK || a.reply.code == PARTIAL
  }

  /** The size that is inferred from the answer is right. */
  ghost predicate SizeRight(r: Reply, v: Version, asked: nat) {
    var total := TotalLength(r, Front(r, asked));
    (r.code == PARTIAL ==> r.start == asked) && total > 0 ==> total == |v.body|
  }

  /**
   A completed file is right exactly when the last answer reaches the end of the
   object, which it does when it stated the size.
   */
  lemma {:induction false} CompletedExactly(s: Partial, resume: bool, r: Reply, v: Version)
    requires var asked := AskFrom(s, resume);
      && Honest(Got(r), v, asked, s.validator) && TwoCodes(Got(r), asked)
      && (asked == 0 ==> s.data == []) && (asked > 0 && r.code == PARTIAL ==> s.data <= v.body)
    requires After(s, resume, r).1 == Complete
    ensures After(s, resume, r).0.data <= v.body
    ensures After(s, resume, r).0.data == v.body <==> Front(r, AskFrom(s, resume)) + |Data(r)| == |v.body|
    ensures StatesSize(r) ==> After(s, resume, r).0.data == v.body
  {
    Appended(if r.code == PARTIAL then s.data else [], r, v.body);
    assert [] + Data(r) == Data(r);
  }

  /**
   A partial answer need not say how long the object is, and may end early: the code
   takes its end for the end of the object. Every such answer is published.
   */
  lemma {:induction false} ShortRangeCompletes(s: Partial, v: Version, n: nat)
    requires s.data != [] && s.validator == v.validator != "" && s.data <= v.body && 0 < n <= |v.body| - |s.data|
    ensures var m := |s.data|;
      var r := Reply(PARTIAL, v.validator, m, -1, n, [v.body[m..m + n]], true);
      && Honest(Got(r), v, AskFrom(s, true), s.validator)
      && After(s, true, r) == (Partial(v.body[..m + n], v.validator), Complete)
      && (v.body[..m + n] == v.body <==> m + n == |v.body|)
  {
    var m := |s.data|;
    var part := v.body[m..m + n];
    assert Concat([part], 0) + part == part;
    PartBehind(s.data, v.body, n);
    assert Data(Reply(PARTIAL, v.validator, m, -1, n, [part], true)) == part;
    hide Data;
  }

  /**
   The code restarts only on 200. Any other 2xx answer to a range request is
   appended: a completed file comes out right exactly for a full 200 answer, and
   for a 206 that reaches the end.
   */
  lemma {:induction false} RightExactlyForTwoCodes(s: Partial, r: Reply, v: Version)
    requires s.data != [] && s.validator != "" && s.data <= v.body && Honest(Got(r), v, |s.data|, s.validator)
    requires r.code != PARTIAL ==> Data(r) == v.body
    requires After(s, true, r).1 == Complete
    ensures After(s, true, r).0.data == v.body
      <==> r.code == OK || (r.code == PARTIAL && |s.data| + |Data(r)| == |v.body|)
  {
    if r.code == PARTIAL { Appended(s.data, r, v.body); }
    assert [] + Data(r) == Data(r);
  }

  /**
   The guard of line 534: a full answer of another version that is cut off leaves
   its own name to the next attempt exactly when it carries one.
   */
  lemma {:induction false} NamedExactly(s: Partial, r: Reply, v: Version)
    requires r.code == OK && Honest(Got(r), v, AskFrom(s, true), s.validator)
    requires s.validator != "" && s.validator != v.validator && After(s, true, r).1 == Again
    ensures After(s, true, r).0.validator == v.validator <==> r.validator != ""
  {
  }

  /**
   What the next attempt makes of it: bytes of a nameless version under the old
   name, and the rest of the version of that name. The file comes out right
   exactly when those bytes begin the old version anyway.
   */
  lemma {:induction false} StaleValidatorCompletes(s: Partial, v: Version, r: Reply, rest: Reply)
    requires s.validator == v.validator != ""
    requires r.code == OK && r.validator == "" && (s.data == [] || AskFrom(s, true) > 0)
    requires After(s, true, r).1 == Again && 0 < |Data(r)| < |v.body|
    requires rest.code == PARTIAL && rest.validator == v.validator && rest.start == |Data(r)| && rest.total == |v.body|
    requires rest.eof && Data(rest) == v.body[|Data(r)|..] && (rest.length > 0 ==> rest.length == |Data(rest)|)
    ensures var kept := After(s, true, r).0;
      && kept == Partial(Data(r), v.validator)
      && Honest(Got(rest), v, AskFrom(kept, true), kept.validator)
      && After(kept, true, rest) == (Partial(Data(r) + v.body[|Data(r)|..], v.validator), Complete)
      && (After(kept, true, rest).0.data == v.body <==> Data(r) <= v.body)
  {
    var d := Data(r);
    assert [] + d == d;
    assert v.body == v.body[..|d|] + v.body[|d|..];
    assert (d + v.body[|d|..])[..|d|] == d;
  }

  /** Such answers exist: two bytes of e1, one of a nameless version, and e1 again make a mix. */
  lemma {:induction false} StaleValidatorMixes()
    ensures
      var e1, other := Version("e1", [1, 2, 3]), Version("", [7, 8, 9]);
      var a0 := Reply(OK, "e1", -1, -1, 3, [[1, 2]], false);
      var a1 := Reply(OK, "", -1, -1, 3, [[7]], false);
      var a2 := Reply(PARTIAL, "e1", 1, 3, 2, [[2, 3]], true);
      var s1 := After(Partial([], ""), true, a0).0;
      var s2 := After(s1, true, a1).0;
      && Honest(Got(a0), e1, 0, "")
      && Honest(Got(a1), other, AskFrom(s1, true), s1.validator)
      && Honest(Got(a2), e1, AskFrom(s2, true), s2.validator)
      && After(s2, true, a2) == (Partial([7, 2, 3], "e1"), Complete)
  {
    assert Concat([[1, 2]], 1) == [1, 2] && Concat([[7]], 1) == [7] && Concat([[2, 3]], 1) == [2, 3];
    assert Data(Reply(OK, "e1", -1, -1, 3, [[1, 2]], false)) == [1, 2];
    assert Data(Reply(OK, "", -1, -1, 3, [[7]], false)) == [7];
    assert Data(Reply(PARTIAL, "e1", 1, 3, 2, [[2, 3]], true)) == [2, 3];
    assert [] + [1, 2] == [1, 2] && [] + [7] == [7] && [7] + [2, 3] == [7, 2, 3];
    assert [1, 2, 3][1..] == [2, 3];
  }

  // ---------------------------------------------------------------- runs over a named and a nameless version

  datatype Progress = Held(s: Partial) | Whole(file: Bytes) | Ended

  /** One answer of a run that may resume. */
  function Next(g: Progress, r: Reply): Progress {
    match g
    case Held(s) =>
      var (s', step) := After(s, true, r);
      if step.Complete? then Whole(s'.data) else if step.Again? then Held(s') else Ended
    case _ => g
  }

  type Answers = seq<(Reply, Version)>

  function Answered(run: Answers): Progress {
    if run == [] then Held(Partial([], "")) else Next(Answered(run[..|run| - 1]), run[|run| - 1].0)
  }

  /** An honest answer of one of the two versions; one that states no size ends with its object. */
  ghost predicate AnswerOfTwo(g: Progress, r: Reply, now: Version, v: Version, w: Version) {
    && (now == v || now == w)
    && (g.Held? ==>
          var asked := AskFrom(g.s, true);
          Honest(Got(r), now, asked, g.s.validator) && TwoCodes(Got(r), asked) && EndsObject(r, now, asked))
  }

  ghost predicate RunOfTwo(run: Answers, v: Version, w: Version) {
    run != [] ==>
      && RunOfTwo(run[..|run| - 1], v, w)
      && AnswerOfTwo(Answered(run[..|run| - 1]), run[|run| - 1].0, run[|run| - 1].1, v, w)
  }

  /** Every run publishes one of the two. */
  ghost predicate OnlyWhole(v: Version, w: Version) {
    forall run :: RunOfTwo(run, v, w) && Answered(run).Whole? ==>
      Answered(run).file == v.body || Answered(run).file == w.body
  }

  /** The first `n` bytes of one, the rest of the other. */
  function Mix(v: Bytes, w: Bytes, n: nat): Bytes
    requires n <= |v| && n <= |w|
  {
    w[..n] + v[n..]
  }

  ghost predicate Harmless(v: Bytes, w: Bytes, n: nat) {
    n <= |v| && n <= |w| ==> Mix(v, w, n) == v || Mix(v, w, n) == w
  }

  /** The bytes begin a mix, or the nameless version. */
  ghost predicate Mixed(d: Bytes, v: Bytes, w: Bytes) {
    d <= w || exists n: nat :: BeginsMix(d, v, w, n)
  }

  ghost predicate BeginsMix(d: Bytes, v: Bytes, w: Bytes, n: nat) {
    n <= |v| && n <= |w| && d <= Mix(v, w, n)
  }

  /** What a run holds; a published file is one of the two or a mix. */
  ghost predicate Tracked(g: Progress, v: Version, w: Version) {
    match g
    case Held(s) => (s.data == [] || s.validator == v.validator) && Mixed(s.data, v.body, w.body)
      && (s.validator == "" || s.validator == v.validator)
    case Whole(file) => file == w.body || exists n: nat :: IsMix(file, v.body, w.body, n)
    case Ended => true
  }

  ghost predicate IsMix(file: Bytes, v: Bytes, w: Bytes, n: nat) {
    n <= |v| && n <= |w| && file == Mix(v, w, n)
  }

  /** A range of `v` behind a mix makes a mix. */
  lemma {:induction false} MixGoesOn(d: Bytes, v: Bytes, w: Bytes, more: Bytes) returns (n: nat)
    requires Mixed(d, v, w) && |d| <= |v| && more <= v[|d|..]
    ensures BeginsMix(d + more, v, w, n)
    ensures |d| + |more| == |v| ==> d + more == Mix(v, w, n)
  {
    if d <= w {
      n := |d|;
      assert d == w[..n];
    } else {
      n :| BeginsMix(d, v, w, n);
      MixShort(d, v, w, n);
    }
    var m := Mix(v, w, n);
    assert |m| == |v| && d == m[..|d|] && m[|d|..] == v[|d|..];
    assert m == d + m[|d|..];
  }

  lemma {:induction false} MixShort(d: Bytes, v: Bytes, w: Bytes, n: nat)
    requires BeginsMix(d, v, w, n)
    ensures |d| < n ==> d <= w
  {
    assert |d| < n ==> Mix(v, w, n)[..|d|] == w[..|d|];
  }

  lemma {:induction false} FrontMixed(d: Bytes, v: Bytes, w: Bytes)
    requires d <= v || d <= w
    ensures Mixed(d, v, w)
  {
    if d <= v { assert Mix(v, w, 0) == v && BeginsMix(d, v, w, 0); }
  }

  lemma {:induction false} TrackedNext(g: Progress, r: Reply, now: Version, v: Version, w: Version)
    requires v.validator != "" && w.validator == "" && Tracked(g, v, w) && AnswerOfTwo(g, r, now, v, w)
    ensures Tracked(Next(g, r), v, w)
  {
    if g.Held? {
      var s, asked := g.s, AskFrom(g.s, true);
      if !Refuses(s, r) {
        assert [] + Data(r) == Data(r);
        if r.code == PARTIAL {
          var n := MixGoesOn(s.data, v.body, w.body, Data(r));
          assert IsMix(s.data + Data(r), v.body, w.body, n) <==> s.data + Data(r) == Mix(v.body, w.body, n);
        } else {
          FullTracked(s, r, now, v, w);
        }
      }
    }
  }

  lemma {:induction false} FullTracked(s: Partial, r: Reply, now: Version, v: Version, w: Version)
    requires v.validator != "" && w.validator == "" && Tracked(Held(s), v, w) && AnswerOfTwo(Held(s), r, now, v, w)
    requires r.code != PARTIAL
    ensures Tracked(Next(Held(s), r), v, w)
  {
    var d := Data(r);
    assert [] + d == d;
    FrontMixed(d, v.body, w.body);
    FrontMixed([], v.body, w.body);
    assert Mix(v.body, w.body, 0) == v.body;
    assert IsMix(v.body, v.body, w.body, 0);
    assert d <= now.body;
    if r.eof && (TotalLength(r, 0) <= 0 || |d| == TotalLength(r, 0)) { assert |d| == |now.body| && d == now.body; }
  }

  lemma {:induction false} TrackedRun(run: Answers, v: Version, w: Version)
    requires v.validator != "" && w.validator == "" && RunOfTwo(run, v, w)
    ensures Tracked(Answered(run), v, w)
  {
    hide Tracked, Next, AnswerOfTwo;
    if run == [] {
      NothingHeld(v, w);
    } else {
      TrackedRun(run[..|run| - 1], v, w);
      TrackedNext(Answered(run[..|run| - 1]), run[|run| - 1].0, run[|run| - 1].1, v, w);
    }
  }

  lemma {:induction false} NothingHeld(v: Version, w: Version)
    ensures Tracked(Held(Partial([], "")), v, w)
  {
    FrontMixed([], v.body, w.body);
  }

  /** Three answers that publish the mix at `n`. */
  lemma {:induction false} MixPublished(v: Version, w: Version, n: nat) returns (run: Answers)
    requires v.validator != "" && w.validator == "" && 0 < n <= |v.body| && n <= |w.body|
    ensures RunOfTwo(run, v, w) && Answered(run) == Whole(Mix(v.body, w.body, n))
  {
    var a := Reply(OK, v.validator, -1, -1, |v.body|, [], false);
    var b := Reply(OK, "", -1, -1, |w.body|, [w.body[..n]], false);
    var c := Reply(PARTIAL, v.validator, n, |v.body|, 0, [v.body[n..]], true);
    assert Concat(b.pieces, 0) + w.body[..n] == w.body[..n] && Concat(c.pieces, 0) + v.body[n..] == v.body[n..];
    assert [] + w.body[..n] == w.body[..n];
    run := [(a, v), (b, w), (c, v)];
    assert run[..2] == [(a, v), (b, w)] && run[..2][..1] == [(a, v)] && run[..2][..1][..0] == [];
    assert Answered(run[..2][..1][..0]) == Held(Partial([], "")) && RunOfTwo(run[..2][..1][..0], v, w);
    assert Answered(run[..2][..1]) == Held(Partial([], v.validator)) && RunOfTwo(run[..2][..1], v, w);
    assert Answered(run[..2]) == Held(Partial(w.body[..n], v.validator)) && RunOfTwo(run[..2], v, w);
  }

  /**
   With a named version and a nameless one at the origin, every honest run publishes
   one of the two exactly when no beginning of the nameless one goes on as the named
   one into something else.
   */
  lemma {:induction false} OnlyWholeExactly(v: Version, w: Version)
    requires v.validator != "" && w.validator == ""
    ensures OnlyWhole(v, w) <==> forall n: nat :: n > 0 ==> Harmless(v.body, w.body, n)
  {
    if OnlyWhole(v, w) {
      forall n: nat | n > 0 ensures Harmless(v.body, w.body, n) {
        if n <= |v.body| && n <= |w.body| { var run := MixPublished(v, w, n); }
      }
    }
    if forall n: nat :: n > 0 ==> Harmless(v.body, w.body, n) {
      forall run | RunOfTwo(run, v, w) && Answered(run).Whole?
        ensures Answered(run).file == v.body || Answered(run).file == w.body
      {
        TrackedRun(run, v, w);
        if Answered(run).file != w.body {
          var n: nat :| IsMix(Answered(run).file, v.body, w.body, n);
          if n > 0 { assert Harmless(v.body, w.body, n); } else { assert Mix(v.body, w.body, 0) == v.body; }
        }
      }
    }
  }

  // ---------------------------------------------------------------- checkpoints, as functions

  /** The first `n` pieces of a body go into the file, with an opportunity to store a checkpoint after each. */
  function ReadIn(d: Disk, r: Reply, n: nat, name: string, total: int, io: nat -> Save): Disk
    requires n <= |r.pieces|
  {
    if n == 0 then d
    else
      var e := ReadIn(d, r, n - 1, name, total, io);
      Saved(e.(data := e.data + r.pieces[n - 1]), name, total, io(n - 1), false)
  }

  /** A full answer to a range request. */
  predicate Restarts(d: Disk, name: string, r: Reply) {
    AskFrom(Partial(d.data, name), true) > 0 && r.code == OK
  }

  function Emptied(d: Disk, name: string, r: Reply): Disk {
    if Restarts(d, name, r) then d.(data := [], durable := []) else d
  }

  /** What one answer does to the disk of a call that keeps its partial file. */
  function DiskAfter(d: Disk, name: string, r: Reply, io: nat -> Save): Disk {
    var s := Partial(d.data, name);
    var (after, step) := After(s, true, r);
    if Refuses(s, r) then d
    else
      var name' := if r.validator != "" then r.validator else name;
      var total := TotalLength(r, Front(r, AskFrom(s, true)));
      var e := ReadIn(Emptied(d, name, r), r, |r.pieces|, name', total, io);
      if !step.Again? then e
      else if name' == "" then Disk([], [], None)
      else Saved(e, name', total, Last(io(|r.pieces|)), false)
  }

  /** The range is not the one asked for, or of another version. */
  predicate Refuses(s: Partial, r: Reply) {
    var asked := AskFrom(s, true);
    asked > 0 && r.code == PARTIAL && (r.start != asked || (r.validator != "" && r.validator != s.validator))
  }

  predicate MendsPiece(d: Disk, name: string, r: Reply, io: nat -> Save, i: nat)
    requires i < |r.pieces|
  {
    Mends(d.(data := d.data + Concat(r.pieces, i + 1)), name, io(i))
  }

  /** Attempt `i` of one answer makes the checkpoint true; the last comes only if the body did not complete. */
  predicate MendsAt(d: Disk, name: string, r: Reply, io: nat -> Save, i: nat)
    requires i <= |r.pieces|
  {
    var e := Emptied(d, name, r);
    if i < |r.pieces| then MendsPiece(e, r.validator, r, io, i)
    else
      After(Partial(d.data, name), true, r).1.Again? && Mends(e.(data := e.data + Data(r)), r.validator, Last(io(i)))
  }

  lemma {:induction false} StillPrefix(before: Bytes, ps: seq<Bytes>, i: nat, body: Bytes)
    requires i <= |ps| && before + Concat(ps, |ps|) <= body
    ensures before + Concat(ps, i) <= body
  {
    ConcatPrefix(ps, i, |ps|);
  }

  lemma {:induction false} ReadInExactly(d: Disk, r: Reply, n: nat, total: int, io: nat -> Save, v: Version)
    requires Of(d, v) && n <= |r.pieces| && d.data + Data(r) <= v.body && (total > 0 ==> total == |v.body|)
    ensures var e := ReadIn(d, r, n, v.validator, total, io);
      && Of(e, v) && e.data == d.data + Concat(r.pieces, n) && (True(e, v) || e.checkpoint == d.checkpoint)
      && (True(e, v) <==> True(d, v) || exists i :: 0 <= i < n && MendsPiece(d, v.validator, r, io, i))
    decreases n
  {
    hide Of, True, Mends, Saved;
    if n == 0 {
      assert d.data + [] == d.data;
    } else {
      ReadInExactly(d, r, n - 1, total, io, v);
      var e := ReadIn(d, r, n - 1, v.validator, total, io);
      StillPrefix(d.data, r.pieces, n, v.body);
      var f := e.(data := e.data + r.pieces[n - 1]);
      assert f.data == d.data + Concat(r.pieces, n);
      Longer(e, f, v);
      SavedExactly(f, v, total, io(n - 1));
      SameMends(d, f, v.validator, io(n - 1));
      assert MendsPiece(d, v.validator, r, io, n - 1) == Mends(d.(data := f.data), v.validator, io(n - 1));
    }
  }

  lemma {:induction false} Longer(e: Disk, f: Disk, v: Version)
    requires Of(e, v) && e.data <= f.data <= v.body && f == e.(data := f.data)
    ensures Of(f, v) && (True(f, v) <==> True(e, v))
  {
  }

  lemma {:induction false} SameMends(d: Disk, f: Disk, name: string, o: Save)
    ensures f.checkpoint == d.checkpoint ==> (Mends(f, name, o) <==> Mends(d.(data := f.data), name, o))
  {
  }

  /**
   One honest answer of the version a checkpoint was written for: the checkpoint on
   disk is true afterwards exactly if it was and the file was not restarted, or if one
   of the attempts to store one synced enough.
   */
  lemma {:induction false} CheckpointExactly(d: Disk, name: string, r: Reply, io: nat -> Save, v: Version)
    requires Of(d, v) && v.validator != "" && (d.data != [] ==> name == v.validator)
    requires var asked := AskFrom(Partial(d.data, name), true);
      Honest(Got(r), v, asked, name) && TwoCodes(Got(r), asked) && SizeRight(r, v, asked)
    ensures var e := DiskAfter(d, name, r, io);
      && Of(e, v) && e.data == After(Partial(d.data, name), true, r).0.data
      && (True(e, v) <==>
            || (True(d, v) && (Restarts(d, name, r) ==> d.checkpoint.None?))
            || (!Refuses(Partial(d.data, name), r) && exists i :: 0 <= i <= |r.pieces| && MendsAt(d, name, r, io, i)))
  {
    var s, f, n := Partial(d.data, name), Emptied(d, name, r), |r.pieces|;
    var asked := AskFrom(s, true);
    if !Refuses(s, r) {
      var total := TotalLength(r, Front(r, asked));
      Appended(f.data, r, v.body);
      ReadInExactly(f, r, n, total, io, v);
      var e := ReadIn(f, r, n, v.validator, total, io);
      SavedExactly(e, v, total, Last(io(n)));
      assert (exists i :: 0 <= i <= n && MendsAt(d, name, r, io, i))
        <==> (exists i :: 0 <= i < n && MendsPiece(f, v.validator, r, io, i)) || MendsAt(d, name, r, io, n) by {
        SplitLast(d, name, r, io, f, v);
      }
    }
  }

  lemma {:induction false} SplitLast(d: Disk, name: string, r: Reply, io: nat -> Save, f: Disk, v: Version)
    requires f == Emptied(d, name, r) && r.validator == v.validator
    ensures var n := |r.pieces|;
      (exists i :: 0 <= i <= n && MendsAt(d, name, r, io, i))
      <==> (exists i :: 0 <= i < n && MendsPiece(f, v.validator, r, io, i)) || MendsAt(d, name, r, io, n)
  {
    var n := |r.pieces|;
    forall i: nat | i < n
      ensures MendsAt(d, name, r, io, i) <==> MendsPiece(f, v.validator, r, io, i)
    {
    }
  }

  lemma {:induction false} ReadInData(d: Disk, r: Reply, n: nat, name: string, total: int, io: nat -> Save)
    requires n <= |r.pieces|
    ensures ReadIn(d, r, n, name, total, io).data == d.data + Concat(r.pieces, n)
    decreases n
  {
    if n == 0 { assert d.data + [] == d.data; } else { ReadInData(d, r, n - 1, name, total, io); }
  }

  /**
   The size inferred from a part of a range goes into the checkpoint, which is then
   true exactly if the part reaches the end of the object; otherwise a next call finds
   as many bytes as it says and publishes them without a request.
   */
  lemma {:induction false} InferredSizeStored(d: Disk, r: Reply, io: nat -> Save, v: Version)
    requires d.data != [] && d.data <= v.body && v.validator != "" && Honest(Got(r), v, |d.data|, v.validator)
    requires r.code == PARTIAL && r.start == |d.data| && r.total < 0 && r.length == |Data(r)| > 0 && !r.eof
    requires io(|r.pieces|).synced && io(|r.pieces|).renamed
    ensures var e, n := DiskAfter(d, v.validator, r, io), |d.data| + |Data(r)|;
      && e.checkpoint == Some(Checkpoint(v.validator, n, n)) && |e.data| == n
      && (True(e, v) <==> n == |v.body|)
  {
    hide ReadIn;
    ReadInData(d, r, |r.pieces|, v.validator, |d.data| + |Data(r)|, io);
    Appended(d.data, r, v.body);
    var e := DiskAfter(d, v.validator, r, io);
    assert e.durable == e.data == d.data + Data(r);
    assert e.data[..|e.data|] == e.data;
  }

  /** An answer that was taken, its opportunities to store a checkpoint, and the version the origin held. */
  datatype Taken = Taken(reply: Reply, io: nat -> Save, held: Version)

  /** The disk and the validator after the answers of a run. */
  function Disks(d: Disk, name: string, run: seq<Taken>): (Disk, string) {
    if run == [] then (d, name)
    else
      var (e, held) := Disks(d, name, run[..|run| - 1]);
      var a := run[|run| - 1];
      (DiskAfter(e, held, a.reply, a.io), After(Partial(e.data, held), true, a.reply).0.validator)
  }

  /** All answers are honest ones of `v` from which its size is inferred rightly. */
  ghost predicate RunOf(d: Disk, name: string, run: seq<Taken>, v: Version) {
    run != [] ==>
      var (e, held) := Disks(d, name, run[..|run| - 1]);
      var a := run[|run| - 1];
      RunOf(d, name, run[..|run| - 1], v) && AnswerOf(Partial(e.data, held), a.reply, v)
  }

  ghost predicate AnswerOf(s: Partial, r: Reply, v: Version) {
    var asked := AskFrom(s, true);
    Honest(Got(r), v, asked, s.validator) && TwoCodes(Got(r), asked) && SizeRight(r, v, asked)
  }

  /** What became of the stored checkpoint, from the answers and the outcomes of the attempts alone. */
  ghost predicate StaysTrue(d: Disk, name: string, run: seq<Taken>, v: Version) {
    if run == [] then True(d, v)
    else
      var (e, held) := Disks(d, name, run[..|run| - 1]);
      var a := run[|run| - 1];
      || (StaysTrue(d, name, run[..|run| - 1], v) && (Restarts(e, held, a.reply) ==> e.checkpoint.None?))
      || (!Refuses(Partial(e.data, held), a.reply)
          && exists i :: 0 <= i <= |a.reply.pieces| && MendsAt(e, held, a.reply, a.io, i))
  }

  /** Over every run: the checkpoint is true exactly as the answers and the outcomes say. */
  lemma {:induction false} RunExactly(d: Disk, name: string, run: seq<Taken>, v: Version)
    requires Of(d, v) && v.validator != "" && (d.data != [] ==> name == v.validator) && RunOf(d, name, run, v)
    ensures var (e, held) := Disks(d, name, run);
      Of(e, v) && (e.data != [] ==> held == v.validator) && (True(e, v) <==> StaysTrue(d, name, run, v))
  {
    hide Of, DiskAfter, MendsAt, Honest, SizeRight;
    if run != [] {
      var (e, held) := Disks(d, name, run[..|run| - 1]);
      var a := run[|run| - 1];
      RunExactly(d, name, run[..|run| - 1], v);
      CheckpointExactly(e, held, a.reply, a.io, v);
      NamedAfter(e, held, a.reply, a.io, v);
    }
  }

  lemma {:induction false} NamedAfter(d: Disk, name: string, r: Reply, io: nat -> Save, v: Version)
    requires d.data != [] ==> name == v.validator
    requires Honest(Got(r), v, AskFrom(Partial(d.data, name), true), name) && v.validator != ""
    ensures DiskAfter(d, name, r, io).data != [] ==> After(Partial(d.data, name), true, r).0.validator == v.validator
  {
  }

  /**
   A full answer restarts the file and no sync works: the old checkpoint counts bytes
   that a crash need not leave, and the next call would continue from others.
   */
  lemma {:induction false} RestartLeavesCheckpoint(d: Disk, r: Reply, io: nat -> Save, v: Version) returns (left: Bytes)
    requires Of(d, v) && v.validator != "" && d.data != [] && d.checkpoint.Some? && d.checkpoint.value.bytes > 0
    requires r.code == OK && Honest(Got(r), v, |d.data|, v.validator) && forall i :: !io(i).synced
    ensures var e := DiskAfter(d, v.validator, r, io);
      !True(e, v) && e.durable <= left && !(Resumed(left, e.checkpoint) <= v.body)
  {
    var e := DiskAfter(d, v.validator, r, io);
    CheckpointExactly(d, v.validator, r, io, v);
    left := Overcounted(e.checkpoint.value.bytes, v, e.durable);
  }
}
