/**
 The range loop of fileDownloadChunked in go_backend/extension_runtime_chunked.go
 after its probe: chunk by chunk, each tried several times, a broken chunk rolled
 back, an ignored range restarted from zero. At every chunk boundary the staged
 file is exactly the beginning of the probed version.
 */
module ChunkedTransfer {
  import opened Options
  import opened ObjectOrigin

  /** An answer to a request from `from` on, under If-Range if there is a validator, from an origin that holds `v`. */
  ghost predicate HonestRange(a: Answer, v: Version, from: nat, validator: string) {
    a.Got? ==>
      var r := a.reply;
      && r.validator == v.validator
      && (r.code == PARTIAL ==>
            && (validator != "" ==> validator == v.validator)
            && (r.start == from ==> Sends(r, v.body, from)))
      && (r.code == OK ==> SendsAll(r, v.body))
  }

  // ---------------------------------------------------------------- the loop, as functions

  /** The staged file and the size of the object as far as known. */
  datatype Held = Held(data: Bytes, totalSize: int)

  /** What one answer leads to: an error, another try for the chunk, or a chunk behind `start`. */
  datatype ChunkStep = Refused | Retry | Done(start: nat, full: bool)

  /** Where the loop is: a chunk up to `end` is being fetched, it gave up, or the file is complete. */
  datatype Phase = Fetching(held: Held, end: int) | Stopped | Over(file: Bytes)

  /** The treatment of one 200 or 206 answer while the disk works. */
  function AfterChunk(h: Held, validator: string, end: int, r: Reply): (Held, ChunkStep) {
    var start := |h.data|;
    if r.code == PARTIAL && r.start != start then (h, Refused)
    else if r.validator != "" && validator != "" && r.validator != validator then (h, Refused)
    else
      var again := r.code == OK && start > 0;
      var front := if again then [] else h.data;
      var total := if again && r.length > 0 then r.length else h.totalSize;
      var expected := if r.code == PARTIAL && r.length <= 0 then end - |front| + 1 else r.length;
      if r.eof && (expected <= 0 || |Data(r)| == expected) && Data(r) != [] then
        (Held(front + Data(r), total), Done(|front|, r.code == OK))
      else (Held(front, total), Retry)
  }

  function EndOf(h: Held, chunkSize: nat): int {
    var end := |h.data| + chunkSize - 1;
    if h.totalSize > 0 && end >= h.totalSize then h.totalSize - 1 else end
  }

  /** Behind the loop. */
  function Settled(h: Held): Phase {
    if h.data == [] || (h.totalSize > 0 && |h.data| != h.totalSize) then Stopped else Over(h.data)
  }

  /** The head of the loop. */
  function Begin(h: Held, chunkSize: nat): Phase {
    if h.totalSize <= 0 || |h.data| < h.totalSize then Fetching(h, EndOf(h, chunkSize)) else Settled(h)
  }

  /** The tests behind a finished chunk. */
  function AfterDone(h: Held, start: nat, full: bool, chunkSize: nat): Phase {
    if full || (h.totalSize <= 0 && |h.data| - start < chunkSize) then Settled(h) else Begin(h, chunkSize)
  }

  function Next(p: Phase, validator: string, chunkSize: nat, r: Reply): Phase {
    match p
    case Fetching(h, end) =>
      var (h', step) := AfterChunk(h, validator, end, r);
      (match step
       case Refused => Stopped
       case Retry => Fetching(h', end)
       case Done(start, full) => AfterDone(h', start, full, chunkSize))
    case _ => p
  }

  /**
   A 200 or 206 answer, the version the origin held then, and what came of the
   opportunity to store a checkpoint if it completed a chunk.
   */
  datatype Receipt = Receipt(reply: Reply, now: Version, save: Save)

  type Received = seq<Receipt>

  function Steps(p: Phase, validator: string, chunkSize: nat, run: Received): Phase {
    if run == [] then p
    else Next(Steps(p, validator, chunkSize, run[..|run| - 1]), validator, chunkSize, run[|run| - 1].reply)
  }

  ghost predicate HonestAnswer(p: Phase, v: Version, r: Reply, now: Version) {
    && (r.code == OK || r.code == PARTIAL) && SameObject(now, v)
    && (p.Fetching? ==> HonestRange(Got(r), now, |p.held.data|, v.validator))
  }

  /** All answers are honest; versions of the probe's name are the probed one. */
  ghost predicate HonestRun(p: Phase, v: Version, chunkSize: nat, run: Received) {
    run != [] ==>
      var n := |run| - 1;
      && HonestRun(p, v, chunkSize, run[..n])
      && HonestAnswer(Steps(p, v.validator, chunkSize, run[..n]), v, run[n].reply, run[n].now)
  }

  /** A full answer to a request with a validator carries one too. */
  predicate SaysWhich(r: Reply, validator: string) {
    r.code == OK && validator != "" ==> r.validator != ""
  }

  ghost predicate AllSayWhich(run: Received, validator: string) {
    forall i :: 0 <= i < |run| ==> SaysWhich(run[i].reply, validator)
  }

  /**
   While the size of the object is not known: a part that is shorter than a chunk,
   and a full answer without a length, end where the object ends.
   */
  ghost predicate ChunkEnds(r: Reply, v: Version, from: nat, chunkSize: nat) {
    r.eof ==>
      if r.code == PARTIAL then r.length > 0 && |Data(r)| < chunkSize ==> from + |Data(r)| == |v.body|
      else r.length <= 0 ==> |Data(r)| == |v.body|
  }

  // ---------------------------------------------------------------- when the probed version comes out

  /** The file is the beginning of `v`, and `v` when over. */
  ghost predicate Right(p: Phase, v: Version, chunkSize: nat) {
    match p
    case Fetching(h, end) =>
      Begins(h, v) && (h.totalSize <= 0 ==> end + 1 - |h.data| >= chunkSize)
    case Stopped => true
    case Over(file) => file == v.body != []
  }

  ghost predicate Begins(h: Held, v: Version) {
    h.data <= v.body && (h.totalSize > 0 ==> h.totalSize == |v.body|)
  }

  lemma {:induction false} BeginRight(h: Held, v: Version, chunkSize: nat)
    requires Begins(h, v)
    ensures Right(Begin(h, chunkSize), v, chunkSize)
  {
  }

  /**
   One honest answer of the probed version, or one that cannot be mistaken for it:
   taken or not, the file is the beginning of the version.
   */
  lemma {:induction false} AnswerRight(h: Held, end: int, v: Version, r: Reply, now: Version)
    requires Begins(h, v) && HonestAnswer(Fetching(h, end), v, r, now)
    requires now.body == v.body || (v.validator != "" && SaysWhich(r, v.validator))
    ensures var (h', step) := AfterChunk(h, v.validator, end, r);
      !step.Refused? ==>
        && Begins(h', v) && (h.totalSize > 0 ==> h'.totalSize > 0)
        && (step.Retry? ==> |h'.data| <= |h.data|)
        && (step.Done? ==> step.start < |h'.data| && h'.data == (if step.full then [] else h.data) + Data(r))
        && (step.Done? ==> r.eof && r.code == (if step.full then OK else PARTIAL))
        && (step.Done? && step.full && r.length > 0 ==> h'.data == v.body)
        && (step.Done? && !step.full ==>
          step.start == |h.data| && (r.length > 0 || end < |h.data| || |Data(r)| == end - |h.data| + 1))
  {
    var (h', step) := AfterChunk(h, v.validator, end, r);
    if !step.Refused? {
      assert now.body == v.body;
      Appended(if r.code == OK then [] else h.data, r, v.body);
    }
  }

  /**
   The loop around it: a file of the known size is complete; while the size is not
   known, an answer that ends the loop has to end with the object.
   */
  lemma {:induction false} NextRight(p: Phase, v: Version, chunkSize: nat, r: Reply, now: Version)
    requires Right(p, v, chunkSize) && HonestAnswer(p, v, r, now)
    requires now.body == v.body || (v.validator != "" && SaysWhich(r, v.validator))
    requires p.Fetching? ==> p.held.totalSize > 0 || ChunkEnds(r, v, |p.held.data|, chunkSize)
    ensures Right(Next(p, v.validator, chunkSize, r), v, chunkSize)
    ensures Next(p, v.validator, chunkSize, r).Fetching? && p.held.totalSize > 0 ==>
      Next(p, v.validator, chunkSize, r).held.totalSize > 0
  {
    hide AfterChunk, HonestAnswer, SaysWhich;
    if p.Fetching? {
      AnswerRight(p.held, p.end, v, r, now);
      var (h', step) := AfterChunk(p.held, v.validator, p.end, r);
      if step.Done? { DoneRight(h', v, chunkSize, step.start, step.full); }
    }
  }

  lemma {:induction false} DoneRight(h: Held, v: Version, chunkSize: nat, start: nat, full: bool)
    requires Begins(h, v) && start < |h.data|
    requires h.totalSize <= 0 && (full || |h.data| - start < chunkSize) ==> h.data == v.body
    ensures Right(AfterDone(h, start, full, chunkSize), v, chunkSize)
    ensures AfterDone(h, start, full, chunkSize).Fetching? ==> AfterDone(h, start, full, chunkSize).held == h
  {
  }

  /**
   While the size is not known a part shorter than a chunk is taken for the end of
   the object: what is published then is the version exactly if the part reaches its end.
   */
  lemma {:induction false} ShortChunkEnds(h: Held, v: Version, chunkSize: nat, end: int, r: Reply)
    requires h.totalSize <= 0 && Begins(h, v) && HonestAnswer(Fetching(h, end), v, r, v)
    requires r.code == PARTIAL && r.start == |h.data| && r.eof && r.length > 0 && 0 < |Data(r)| < chunkSize
    ensures Next(Fetching(h, end), v.validator, chunkSize, r) == Over(h.data + Data(r))
    ensures h.data + Data(r) == v.body <==> ChunkEnds(r, v, |h.data|, chunkSize)
  {
    Appended(h.data, r, v.body);
  }

  /** There is such an answer for every length: an origin may send less of a range than was asked for. */
  lemma {:induction false} ShortChunkHonest(h: Held, v: Version, chunkSize: nat, n: nat)
    requires h.totalSize <= 0 && Begins(h, v) && 0 < n < chunkSize && |h.data| + n <= |v.body|
    ensures var m := |h.data|;
      var r := Reply(PARTIAL, v.validator, m, -1, n, [v.body[m..m + n]], true);
      && HonestAnswer(Begin(h, chunkSize), v, r, v)
      && Next(Begin(h, chunkSize), v.validator, chunkSize, r) == Over(v.body[..m + n])
  {
    var m := |h.data|;
    var part := v.body[m..m + n];
    var r := Reply(PARTIAL, v.validator, m, -1, n, [part], true);
    OnePiece(r, part);
    PartBehind(h.data, v.body, n);
    hide Data;
  }

  /** In a run of named answers nothing but `v` comes out, if its size is known or it is a single byte. */
  lemma {:induction false} StepsRight(p: Phase, v: Version, chunkSize: nat, run: Received)
    requires Right(p, v, chunkSize) && HonestRun(p, v, chunkSize, run)
    requires v.validator != "" && AllSayWhich(run, v.validator)
    requires |v.body| == 1 || (p.Fetching? ==> p.held.totalSize > 0)
    ensures var q := Steps(p, v.validator, chunkSize, run);
      && Right(q, v, chunkSize) && (|v.body| == 1 || (q.Fetching? ==> q.held.totalSize > 0))
  {
    hide Right, HonestAnswer, Next, SaysWhich;
    if run != [] {
      var n := |run| - 1;
      assert AllSayWhich(run[..n], v.validator);
      assert SaysWhich(run[n].reply, v.validator);
      StepsRight(p, v, chunkSize, run[..n]);
      var q := Steps(p, v.validator, chunkSize, run[..n]);
      if q.Fetching? {
        if q.held.totalSize <= 0 {
          OneByte(q, v, chunkSize, run[n].reply, run[n].now);
        } else {
          NextRight(q, v, chunkSize, run[n].reply, run[n].now);
        }
      } else {
        Ended(q, v, chunkSize, run[n].reply);
      }
    }
  }

  lemma {:induction false} Ended(p: Phase, v: Version, chunkSize: nat, r: Reply)
    requires !p.Fetching?
    ensures Next(p, v.validator, chunkSize, r) == p
  {
  }

  /** Of one byte there is no shorter beginning to publish. */
  lemma {:induction false} OneByte(p: Phase, v: Version, chunkSize: nat, r: Reply, now: Version)
    requires Right(p, v, chunkSize) && p.Fetching? && HonestAnswer(p, v, r, now)
    requires v.validator != "" && SaysWhich(r, v.validator) && |v.body| == 1
    ensures Right(Next(p, v.validator, chunkSize, r), v, chunkSize)
  {
    hide AfterChunk, HonestAnswer, SaysWhich;
    AnswerRight(p.held, p.end, v, r, now);
    var (h', step) := AfterChunk(p.held, v.validator, p.end, r);
    if step.Done? {
      assert h'.data == v.body;
      DoneRight(h', v, chunkSize, step.start, step.full);
    }
  }

  /** Only the probed version is ever published, for all runs whose full answers say which version they are. */
  ghost predicate OnlyProbed(v: Version, totalSize: int, chunkSize: nat) {
    var p := Begin(Held([], totalSize), chunkSize);
    forall run :: HonestRun(p, v, chunkSize, run) && AllSayWhich(run, v.validator) ==>
      var q := Steps(p, v.validator, chunkSize, run);
      q.Over? ==> q.file == v.body
  }

  /**
   What is published is the probed version in every such run exactly when the probe
   returned a validator and the size, or the object is a single byte.
   */
  lemma {:induction false} OnlyProbedExactly(v: Version, totalSize: int, chunkSize: nat)
    requires v.body != [] && chunkSize > 0 && (totalSize > 0 ==> totalSize == |v.body|)
    ensures OnlyProbed(v, totalSize, chunkSize) <==> v.validator != "" && (totalSize > 0 || |v.body| == 1)
  {
    var h := Held([], totalSize);
    var p := Begin(h, chunkSize);
    BeginRight(h, v, chunkSize);
    if v.validator == "" {
      var w := Version("", [v.body[0] + 1] + v.body[1..]);
      FullAnswerTaken(h, v, chunkSize, w, |w.body|, w.body);
    } else if totalSize <= 0 && |v.body| > 1 {
      FullAnswerTaken(h, v, chunkSize, v, 0, v.body[..1]);
    } else {
      forall run | HonestRun(p, v, chunkSize, run) && AllSayWhich(run, v.validator)
        ensures Steps(p, v.validator, chunkSize, run).Over? ==> Steps(p, v.validator, chunkSize, run).file == v.body
      {
        StepsRight(p, v, chunkSize, run);
      }
    }
  }

  /** A run of one full answer, of all of `w` with its length, or without one of a part. */
  lemma {:induction false} FullAnswerTaken(h: Held, v: Version, chunkSize: nat, w: Version, length: nat, part: Bytes)
    requires h.data == [] && (h.totalSize > 0 ==> h.totalSize == |part|)
    requires part != [] && part <= w.body && SameObject(w, v)
    requires w.validator == v.validator || w.validator == ""
    requires length == 0 || (length == |w.body| && part == w.body)
    ensures var p, run := Begin(h, chunkSize),
      [Receipt(Reply(OK, w.validator, -1, -1, length, [part], true), w, Save(false, false, false))];
      && HonestRun(p, v, chunkSize, run) && (w.validator == v.validator ==> AllSayWhich(run, v.validator))
      && Steps(p, v.validator, chunkSize, run) == Over(part)
  {
    var r := Reply(OK, w.validator, -1, -1, length, [part], true);
    OnePiece(r, part);
    var p, run := Begin(h, chunkSize), [Receipt(r, w, Save(false, false, false))];
    assert run[..0] == [];
    assert HonestRun(p, v, chunkSize, run[..0]) && Steps(p, v.validator, chunkSize, run[..0]) == p;
    assert [] + part == part;
  }

  /** Without that restriction there is always a run that publishes another body: one full answer without a name. */
  lemma {:induction false} NamelessRun(v: Version, totalSize: int, chunkSize: nat) returns (run: Received)
    requires v.body != [] && chunkSize > 0 && (totalSize > 0 ==> totalSize == |v.body|)
    ensures var p := Begin(Held([], totalSize), chunkSize);
      && HonestRun(p, v, chunkSize, run)
      && Steps(p, v.validator, chunkSize, run).Over? && Steps(p, v.validator, chunkSize, run).file != v.body
  {
    var w := Version("", [v.body[0] + 1] + v.body[1..]);
    run := [Receipt(Reply(OK, "", -1, -1, |w.body|, [w.body], true), w, Save(false, false, false))];
    FullAnswerTaken(Held([], totalSize), v, chunkSize, w, |w.body|, w.body);
  }

  lemma {:induction false} OnePiece(r: Reply, b: Bytes)
    requires r.pieces == [b]
    ensures Data(r) == b
  {
    assert Concat(r.pieces, 0) + b == b;
  }

  /**
   Under a named probe too: a full answer without a name passes the checks and is
   published, so the file is right exactly when that is the probed version.
   */
  lemma {:induction false} NamelessAnswerTaken(h: Held, v: Version, chunkSize: nat, end: int, r: Reply, now: Version)
    requires h.data != [] && r.code == OK && r.validator == "" && HonestAnswer(Fetching(h, end), v, r, now)
    requires r.eof && r.length == |Data(r)| > 0
    ensures Next(Fetching(h, end), v.validator, chunkSize, r) == Over(now.body)
  {
    assert [] + Data(r) == Data(r);
  }

  /**
   Without a validator nothing tells versions apart: a first chunk of one and a
   second of another are honest answers, and what is published is neither.
   */
  lemma {:induction false} UnnamedVersionsMix(v: Version, w: Version, m: nat)
    requires v.validator == w.validator == "" && |v.body| == |w.body| && 0 < m < |v.body| <= 2 * m
    ensures var n := |v.body|;
      var a := Reply(PARTIAL, "", 0, n, m, [v.body[..m]], true);
      var b := Reply(PARTIAL, "", m, n, n - m, [w.body[m..]], true);
      var p := Begin(Held([], n), m);
      var run := [Receipt(a, v, Save(false, false, false)), Receipt(b, w, Save(false, false, false))];
      && HonestRun(p, v, m, run)
      && Steps(p, "", m, run) == Over(v.body[..m] + w.body[m..])
  {
    var n := |v.body|;
    var a := Reply(PARTIAL, "", 0, n, m, [v.body[..m]], true);
    var b := Reply(PARTIAL, "", m, n, n - m, [w.body[m..]], true);
    OnePiece(a, v.body[..m]);
    OnePiece(b, w.body[m..]);
    var p := Begin(Held([], n), m);
    var run := [Receipt(a, v, Save(false, false, false)), Receipt(b, w, Save(false, false, false))];
    assert [] + v.body[..m] == v.body[..m];
    assert v.body[0..][..m] == v.body[..m];
    assert run[..1] == [Receipt(a, v, Save(false, false, false))] && run[..1][..0] == [];
    assert Steps(p, "", m, run[..1][..0]) == p && HonestRun(p, v, m, run[..1][..0]);
    assert Steps(p, "", m, run[..1]) == Fetching(Held(v.body[..m], n), n - 1);
    assert HonestRun(p, v, m, run[..1]);
  }

  /** The smallest case. */
  lemma {:induction false} UnnamedVersionsMixed()
    ensures exists run ::
      && HonestRun(Begin(Held([], 3), 2), Version("", [1, 2, 3]), 2, run)
      && Steps(Begin(Held([], 3), 2), "", 2, run) == Over([1, 2, 9])
  {
    UnnamedVersionsMix(Version("", [1, 2, 3]), Version("", [7, 8, 9]), 2);
    assert [1, 2, 3][..2] == [1, 2] && [7, 8, 9][2..] == [9] && [1, 2] + [9] == [1, 2, 9];
  }

  // ---------------------------------------------------------------- checkpoints, as functions

  /** What one answer does to the disk, and to the stored checkpoint of a call that keeps its partial file. */
  function DiskNext(d: Disk, totalSize: int, end: int, keep: bool, validator: string, a: Receipt): Disk {
    var (h, step) := AfterChunk(Held(d.data, totalSize), validator, end, a.reply);
    var e := Answered(d, totalSize, end, validator, a.reply);
    if step.Done? && keep then Saved(e, validator, h.totalSize, a.save, false) else e
  }

  /** Before a checkpoint is stored: an ignored range empties the file and removes the checkpoint. */
  function Answered(d: Disk, totalSize: int, end: int, validator: string, r: Reply): Disk {
    var (h, step) := AfterChunk(Held(d.data, totalSize), validator, end, r);
    if step.Refused? then d
    else if r.code == OK && d.data != [] then Disk(h.data, [], None)
    else d.(data := h.data)
  }

  /** The disk after the answers of a run. */
  function Disks(p: Phase, d: Disk, keep: bool, validator: string, chunkSize: nat, run: Received): Disk {
    if run == [] then d
    else
      var n := |run| - 1;
      var q, e := Steps(p, validator, chunkSize, run[..n]), Disks(p, d, keep, validator, chunkSize, run[..n]);
      if q.Fetching? then DiskNext(e, q.held.totalSize, q.end, keep, validator, run[n]) else e
  }

  /** All attempts for a chunk failed: a checkpoint is stored whatever comes of the sync. */
  function Exhausted(d: Disk, totalSize: int, keep: bool, validator: string, o: Save): Disk {
    if keep then Saved(d, validator, totalSize, Last(o), true) else d
  }

  /** From the answers and the outcomes alone: no byte in the file is unsynced. */
  predicate SyncedUp(p: Phase, d: Disk, keep: bool, validator: string, chunkSize: nat, run: Received) {
    if run == [] then d.durable == d.data
    else
      var n := |run| - 1;
      var q := Steps(p, validator, chunkSize, run[..n]);
      var before := SyncedUp(p, d, keep, validator, chunkSize, run[..n]);
      if q.Fetching? then SyncedNext(q.held, q.end, keep, validator, run[n], before) else before
  }

  predicate SyncedNext(h: Held, end: int, keep: bool, validator: string, a: Receipt, before: bool) {
    match AfterChunk(h, validator, end, a.reply).1
    case Refused => before
    case Retry => before || (a.reply.code == OK && h.data != [])
    case Done(_, _) => keep && a.save.due && a.save.synced
  }

  /** Every answer is of the probed body, and ends with it if the size is not known. */
  ghost predicate Trusted(p: Phase, v: Version, chunkSize: nat, a: Receipt) {
    && (a.now.body == v.body || (v.validator != "" && SaysWhich(a.reply, v.validator)))
    && (p.Fetching? ==> p.held.totalSize > 0 || ChunkEnds(a.reply, v, |p.held.data|, chunkSize))
  }

  ghost predicate TrustedRun(p: Phase, v: Version, chunkSize: nat, run: Received) {
    run != [] ==>
      var n := |run| - 1;
      var q := Steps(p, v.validator, chunkSize, run[..n]);
      && TrustedRun(p, v, chunkSize, run[..n])
      && HonestAnswer(q, v, run[n].reply, run[n].now) && Trusted(q, v, chunkSize, run[n])
  }

  /** The disk goes with the phase, and its checkpoint is true. */
  ghost predicate TrueIn(q: Phase, e: Disk, v: Version) {
    Of(e, v) && True(e, v) && (q.Fetching? ==> e.data == q.held.data)
  }

  /** One answer keeps the checkpoint true: a failed sync at the end of a chunk is honoured. */
  lemma {:induction false} AnswerKeepsTruth(q: Phase, d: Disk, keep: bool, v: Version, chunkSize: nat, a: Receipt)
    requires q.Fetching? && Right(q, v, chunkSize) && TrueIn(q, d, v)
    requires HonestAnswer(q, v, a.reply, a.now) && Trusted(q, v, chunkSize, a)
    ensures var e := DiskNext(d, q.held.totalSize, q.end, keep, v.validator, a);
      && TrueIn(Next(q, v.validator, chunkSize, a.reply), e, v)
      && ((keep ==> v.validator != "") ==>
            (e.durable == e.data <==> SyncedNext(q.held, q.end, keep, v.validator, a, d.durable == d.data)))
  {
    hide ChunkEnds, HonestAnswer;
    AnswerRight(q.held, q.end, v, a.reply, a.now);
    var (h, step) := AfterChunk(q.held, v.validator, q.end, a.reply);
    var e := Answered(d, q.held.totalSize, q.end, v.validator, a.reply);
    if !step.Refused? && h.data == e.data { SavedExactly(e, v, h.totalSize, a.save); }
  }

  /** Over a run: the checkpoint stays true, and what is unsynced is what the outcomes say. */
  lemma {:induction false} RunKeepsTruth(p: Phase, d: Disk, keep: bool, v: Version, chunkSize: nat, run: Received)
    requires Right(p, v, chunkSize) && TrueIn(p, d, v) && TrustedRun(p, v, chunkSize, run)
    requires keep ==> v.validator != ""
    ensures var q, e := Steps(p, v.validator, chunkSize, run), Disks(p, d, keep, v.validator, chunkSize, run);
      && Right(q, v, chunkSize) && TrueIn(q, e, v)
      && (e.durable == e.data <==> SyncedUp(p, d, keep, v.validator, chunkSize, run))
  {
    hide Right, TrueIn, HonestAnswer, Trusted, DiskNext, Next, SyncedNext;
    if run != [] {
      var n := |run| - 1;
      RunKeepsTruth(p, d, keep, v, chunkSize, run[..n]);
      var q, e := Steps(p, v.validator, chunkSize, run[..n]), Disks(p, d, keep, v.validator, chunkSize, run[..n]);
      if q.Fetching? {
        TrustedNext(q, v, chunkSize, run[n]);
        AnswerKeepsTruth(q, e, keep, v, chunkSize, run[n]);
      } else {
        Ended(q, v, chunkSize, run[n].reply);
      }
    }
  }

  lemma {:induction false} TrustedNext(q: Phase, v: Version, chunkSize: nat, a: Receipt)
    requires Right(q, v, chunkSize) && HonestAnswer(q, v, a.reply, a.now) && Trusted(q, v, chunkSize, a)
    ensures Right(Next(q, v.validator, chunkSize, a.reply), v, chunkSize)
  {
    hide Right, HonestAnswer, Next, SaysWhich, ChunkEnds;
    if q.Fetching? { NextRight(q, v, chunkSize, a.reply, a.now); } else { Ended(q, v, chunkSize, a.reply); }
  }

  /**
   A run that ends because all attempts for a chunk failed: the checkpoint it leaves
   is true exactly if the last sync worked, or it was not stored, or every chunk had
   been synced before.
   */
  lemma {:induction false} ExhaustedExactly(
      p: Phase, d: Disk, keep: bool, v: Version, chunkSize: nat, run: Received, o: Save)
    requires Right(p, v, chunkSize) && TrueIn(p, d, v) && TrustedRun(p, v, chunkSize, run)
    requires Steps(p, v.validator, chunkSize, run).Fetching? && (keep ==> v.validator != "")
    ensures var q, e := Steps(p, v.validator, chunkSize, run), Disks(p, d, keep, v.validator, chunkSize, run);
      True(Exhausted(e, q.held.totalSize, keep, v.validator, o), v)
      <==> !keep || o.synced || !o.renamed || SyncedUp(p, d, keep, v.validator, chunkSize, run)
  {
    RunKeepsTruth(p, d, keep, v, chunkSize, run);
    var q, e := Steps(p, v.validator, chunkSize, run), Disks(p, d, keep, v.validator, chunkSize, run);
    if keep { ForcedExactly(e, v, q.held.totalSize, Last(o)); }
  }

  /** Otherwise a crash can leave bytes from which the next call continues wrongly. */
  lemma {:induction false} UnsyncedCheckpointLies(
      p: Phase, d: Disk, v: Version, chunkSize: nat, run: Received, o: Save) returns (left: Bytes)
    requires Right(p, v, chunkSize) && TrueIn(p, d, v) && v.validator != "" && TrustedRun(p, v, chunkSize, run)
    requires Steps(p, v.validator, chunkSize, run).Fetching? && !SyncedUp(p, d, true, v.validator, chunkSize, run)
    requires !o.synced && o.renamed
    ensures var q := Steps(p, v.validator, chunkSize, run);
      var e := Exhausted(Disks(p, d, true, v.validator, chunkSize, run), q.held.totalSize, true, v.validator, o);
      e.durable <= left && !(Resumed(left, e.checkpoint) <= v.body)
  {
    RunKeepsTruth(p, d, true, v, chunkSize, run);
    var q, e := Steps(p, v.validator, chunkSize, run), Disks(p, d, true, v.validator, chunkSize, run);
    assert e.durable != e.data && |e.durable| < |e.data|;
    left := Overcounted(|e.data|, v, e.durable);
  }

  /** Such runs exist: one chunk arrives, no checkpoint is due, the next chunk fails, and so does the sync. */
  lemma {:induction false} UnsyncedRun(v: Version, io: Save) returns (run: Received)
    requires v.validator != "" && |v.body| > 1 && !io.due
    ensures var p, d := Begin(Held([], |v.body|), 1), Disk([], [], None);
      && Right(p, v, 1) && TrueIn(p, d, v) && TrustedRun(p, v, 1, run)
      && Steps(p, v.validator, 1, run).Fetching? && !SyncedUp(p, d, true, v.validator, 1, run)
  {
    var n, part := |v.body|, v.body[..1];
    var a := Receipt(Reply(PARTIAL, v.validator, 0, n, 1, [part], true), v, io);
    OnePiece(a.reply, part);
    var p := Begin(Held([], n), 1);
    BeginRight(Held([], n), v, 1);
    run := [a];
    assert run[..0] == [] && v.body[0..][..1] == part && [] + part == part;
    assert Steps(p, v.validator, 1, run[..0]) == p && TrustedRun(p, v, 1, run[..0]);
  }
}
