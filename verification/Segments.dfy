/**
 The segmented download of go_backend/extension_runtime_segments.go as a state
 machine over its disk and its one assembling task: results of parallel workers
 arrive in any order, are appended in index order, checkpoints follow an fsync,
 and the process may crash between any two steps.
 */
module Segments {
  import opened Options

  type Bytes = seq<int>
  type Url = string

  /** The body of segment `i` of a list; entries of one URL may differ by their headers. */
  type Content = (seq<Url>, nat) -> Bytes

  // ---------------------------------------------------------------- state

  /** `urls` stands for the fingerprint, a hash of the list; see SegmentFingerprint. */
  datatype Checkpoint = Checkpoint(urls: seq<Url>, next: nat, bytes: nat)

  /**
   `staged` is the file as the process sees it, `durable` what a crash keeps of
   it. `stored` is the checkpoint file, `saved` every checkpoint a crash may bring
   back (the directory entry is not synced after the rename).
   */
  datatype Disk = Disk(
    staged: Bytes, durable: Bytes, stored: Option<Checkpoint>, saved: set<Checkpoint>,
      published: Option<(seq<Url>, Bytes)>)

  datatype Task =
    | Idle
    | Busy(urls: seq<Url>, persistent: bool, pending: map<nat, Bytes>, next: nat, total: nat, failed: bool)

  datatype State = State(disk: Disk, task: Task)

  /** How copying one finished segment into the staged file goes. */
  datatype Fate = OpenFailed | Partial(written: nat) | Copied

  datatype Event =
    | Open(urls: seq<Url>, persistent: bool)
    | Arrive(index: nat)                     // a worker delivers its segment
    | Fail                                   // a worker gives up
    | Append(fate: Fate)                     // the assembler takes the next segment
    | Save(synced: bool, renamed: bool)      // a periodic checkpoint
    | Finish(synced: bool, renamed: bool)    // the result channel is closed
    | Crash(left: Bytes, kept: Option<Checkpoint>)

  /** The first `n` segments one after the other. */
  function Assembled(content: Content, urls: seq<Url>, n: nat): Bytes
    requires n <= |urls|
  {
    if n == 0 then [] else Assembled(content, urls, n - 1) + content(urls, n - 1)
  }

  // ---------------------------------------------------------------- steps

  /** loadSegmentCheckpoint and the acceptance test behind it. */
  predicate Usable(stored: Option<Checkpoint>, urls: seq<Url>, persistent: bool) {
    && persistent && stored.Some? && stored.value.urls == urls
    && (stored.value.next == 0 <==> stored.value.bytes == 0)
    && stored.value.next <= |urls|
  }

  function Opened(d: Disk, urls: seq<Url>, persistent: bool): State {
    if Usable(d.stored, urls, persistent) && |d.staged| >= d.stored.value.bytes then
      var c := d.stored.value;
      var d' := d.(staged := Take(d.staged, c.bytes), durable := Take(d.durable, c.bytes));
      if c.next == |urls| && c.bytes > 0 then
        State(Disk([], [], None, {}, Some((urls, d'.staged))), Idle)
      else
        State(d', Busy(urls, persistent, map[], c.next, c.bytes, false))
    else
      State(Disk([], [], None, {}, d.published), Busy(urls, persistent, map[], 0, 0, false))
  }

  function Appended(s: State, fate: Fate): State
    requires s.task.Busy? && s.task.next in s.task.pending
  {
    var t := s.task;
    var body := t.pending[t.next];
    match fate
    case OpenFailed => s.(task := t.(failed := true))
    case Partial(k) => State(s.disk.(staged := s.disk.staged + Take(body, k)), t.(failed := true))
    case Copied =>
      State(s.disk.(staged := s.disk.staged + body),
            t.(pending := t.pending - {t.next}, next := t.next + 1, total := t.total + |body|))
  }

  function Checkpointed(s: State, synced: bool, renamed: bool): Disk
    requires s.task.Busy?
  {
    if !synced then s.disk
    else
      var d := s.disk.(durable := s.disk.staged);
      if !renamed then d
      else
        var c := Checkpoint(s.task.urls, s.task.next, s.task.total);
        d.(stored := Some(c), saved := d.saved + {c})
  }

  /** What the deferred cleanup leaves when nothing was promoted. */
  function GivenUp(d: Disk, persistent: bool): State {
    State(if persistent then d else Disk([], [], None, {}, d.published), Idle)
  }

  function Finished(s: State, synced: bool, renamed: bool): State
    requires s.task.Busy?
  {
    var t := s.task;
    if t.failed then
      GivenUp(if t.persistent && t.next > 0 &&
        t.total > 0 then Checkpointed(s, synced, renamed) else s.disk, t.persistent)
    else if t.next != |t.urls| || t.total == 0 then GivenUp(s.disk, t.persistent)
    else if !synced then GivenUp(s.disk, t.persistent)
    else if !renamed then GivenUp(s.disk.(durable := s.disk.staged), t.persistent)
    else State(Disk([], [], None, {}, Some((t.urls, s.disk.staged))), Idle)
  }

  /** Which events can happen; a worker delivers the whole, non-empty body of its entry (see SegmentFetch). */
  ghost predicate Enabled(content: Content, s: State, e: Event) {
    match e
    case Open(urls, _) => s.task.Idle? && urls != []
    case Arrive(i) => s.task.Busy? && i < |s.task.urls| && content(s.task.urls, i) != []
    case Fail => s.task.Busy?
    case Append(f) => s.task.Busy? && s.task.next in s.task.pending
    case Save(_, _) => s.task.Busy? && s.task.persistent
    case Finish(_, _) => s.task.Busy?
    case Crash(left, kept) => s.disk.durable <= left && (kept.Some? ==> kept.value in s.disk.saved)
  }

  function Apply(content: Content, s: State, e: Event): State
    requires Enabled(content, s, e)
  {
    match e
    case Open(urls, persistent) => Opened(s.disk, urls, persistent)
    case Arrive(i) => s.(task := s.task.(pending := s.task.pending[i := content(s.task.urls, i)]))
    case Fail => s.(task := s.task.(failed := true))
    case Append(fate) => Appended(s, fate)
    case Save(synced, renamed) => s.(disk := Checkpointed(s, synced, renamed))
    case Finish(synced, renamed) => Finished(s, synced, renamed)
    case Crash(left, kept) =>
      State(Disk(left, left, kept, if kept.Some? then {kept.value} else {}, s.disk.published), Idle)
  }

  /** `trace` is a run from `s` to `t`. */
  ghost predicate Run(content: Content, s: State, trace: seq<Event>, t: State)
    decreases |trace|
  {
    if trace == [] then s == t
    else Enabled(content, s, trace[0]) && Run(content, Apply(content, s, trace[0]), trace[1..], t)
  }

  // ---------------------------------------------------------------- invariant

  /** The checkpoint tells the truth about the bytes that survive. */
  ghost predicate Aligned(content: Content, c: Checkpoint, durable: Bytes) {
    && c.next <= |c.urls|
    && Assembled(content, c.urls, c.next) <= durable
    && c.bytes == |Assembled(content, c.urls, c.next)|
  }

  ghost predicate DiskSound(content: Content, d: Disk) {
    && d.durable <= d.staged
    && (d.stored.Some? ==> d.stored.value in d.saved)
    && (forall c :: c in d.saved ==>
      Aligned(content, c, d.durable) && d.stored.Some? && c.bytes <= d.stored.value.bytes)
    && (d.published.Some? ==>
          d.published.value.1 == Assembled(content, d.published.value.0, |d.published.value.0|))
  }

  /** The staged file begins with exactly the segments before `next`; stray bytes behind them mean a failure. */
  ghost predicate TaskSound(content: Content, d: Disk, t: Task) {
    t.Busy? ==>
      && t.next <= |t.urls|
      && Assembled(content, t.urls, t.next) <= d.staged
      && t.total == |Assembled(content, t.urls, t.next)|
      && (!t.failed ==> |d.staged| == t.total)
      && Genuine(content, t)
  }

  ghost predicate Genuine(content: Content, t: Task)
    requires t.Busy?
  {
    forall i :: i in t.pending ==> i < |t.urls| && t.pending[i] == content(t.urls, i)
  }

  ghost predicate Sound(content: Content, s: State) {
    && DiskSound(content, s.disk) && TaskSound(content, s.disk, s.task)
    && (s.task.Busy? ==> forall c :: c in s.disk.saved ==> c.bytes <= s.task.total)
  }

  /** A segment is copied only while the file ends with the segments before it. */
  predicate Careful(s: State, e: Event) {
    e == Append(Copied) && s.task.Busy? ==> |s.disk.staged| == s.task.total
  }

  ghost predicate CarefulRun(content: Content, s: State, trace: seq<Event>)
    decreases |trace|
  {
    trace != [] ==>
      && Enabled(content, s, trace[0]) && Careful(s, trace[0])
      && CarefulRun(content, Apply(content, s, trace[0]), trace[1..])
  }

  lemma {:induction false} OpenSound(content: Content, d: Disk, urls: seq<Url>, persistent: bool)
    requires DiskSound(content, d)
    ensures Sound(content, Opened(d, urls, persistent))
  {
    if Usable(d.stored, urls, persistent) && |d.staged| >= d.stored.value.bytes {
      var c := d.stored.value;
      var all := Assembled(content, urls, c.next);
      assert Aligned(content, c, d.durable);
      assert Take(d.staged, c.bytes) == all == Take(d.durable, c.bytes);
      forall o | o in d.saved ensures Aligned(content, o, all) {
      }
    }
  }

  lemma {:induction false} CheckpointSound(content: Content, s: State, synced: bool, renamed: bool)
    requires Sound(content, s) && s.task.Busy?
    ensures DiskSound(content, Checkpointed(s, synced, renamed))
    ensures TaskSound(content, Checkpointed(s, synced, renamed), s.task)
  {
    if synced {
      var c := Checkpoint(s.task.urls, s.task.next, s.task.total);
      assert Aligned(content, c, s.disk.staged);
      forall o | o in s.disk.saved ensures Aligned(content, o, s.disk.staged) && o.bytes <= c.bytes {
        assert Aligned(content, o, s.disk.durable);
      }
    }
  }

  lemma {:induction false} FinishSound(content: Content, s: State, synced: bool, renamed: bool)
    requires Sound(content, s) && s.task.Busy?
    ensures Sound(content, Finished(s, synced, renamed))
  {
    CheckpointSound(content, s, synced, renamed);
    CheckpointSound(content, s, true, false);
  }

  lemma {:induction false} CrashSound(content: Content, s: State, e: Event)
    requires Sound(content, s) && e.Crash? && Enabled(content, s, e)
    ensures Sound(content, Apply(content, s, e))
  {
    if e.kept.Some? { assert Aligned(content, e.kept.value, s.disk.durable); }
  }

  /** What every step keeps. */
  lemma {:induction false} StepSound(content: Content, s: State, e: Event)
    requires Sound(content, s) && Enabled(content, s, e) && Careful(s, e)
    ensures Sound(content, Apply(content, s, e))
  {
    match e
    case Open(urls, persistent) => OpenSound(content, s.disk, urls, persistent);
    case Save(synced, renamed) => CheckpointSound(content, s, synced, renamed);
    case Finish(synced, renamed) => FinishSound(content, s, synced, renamed);
    case Crash(_, _) => CrashSound(content, s, e);
    case Append(fate) => AppendSound(content, s, fate);
    case Arrive(_) =>
    case Fail =>
  }

  lemma {:induction false} AppendSound(content: Content, s: State, fate: Fate)
    requires Sound(content, s) && s.task.Busy? && s.task.next in s.task.pending && Careful(s, Append(fate))
    ensures Sound(content, Appended(s, fate))
  {
    var t := s.task;
    var body := t.pending[t.next];
    if fate.Copied? {
      assert s.disk.staged == Assembled(content, t.urls, t.next);
      assert s.disk.staged + body == Assembled(content, t.urls, t.next + 1);
    }
  }

  // ---------------------------------------------------------------- results

  /**
   Every run over any number of tasks, workers, retries, checkpoints and crashes
   in which nothing is copied behind stray bytes: all checkpoints a crash can leave
   describe the surviving bytes, and whatever is published is the whole list in
   order, so a resumed task publishes what an uninterrupted one would.
   */
  lemma {:induction false} RunSound(content: Content, s: State, trace: seq<Event>, t: State)
    requires Sound(content, s) && Run(content, s, trace, t) && CarefulRun(content, s, trace)
    ensures Sound(content, t)
    decreases |trace|
  {
    hide Sound, Enabled, Apply, Careful;
    if trace != [] {
      StepSound(content, s, trace[0]);
      RunSound(content, Apply(content, s, trace[0]), trace[1..], t);
    }
  }

  /** The task goes on behind the first `n` segments, which are in the file, or has published the whole list. */
  ghost predicate GoesOnBehind(content: Content, u: State, urls: seq<Url>, n: nat)
    requires n <= |urls|
  {
    if n == |urls| then u.disk.published == Some((urls, Assembled(content, urls, n)))
    else
      && u.task == Busy(urls, true, map[], n, |Assembled(content, urls, n)|, false)
      && u.disk.staged == Assembled(content, urls, n)
  }

  /** A stored checkpoint of the list is resumed where it stands, in the middle of the list or at its end. */
  lemma {:induction false} OpenResumes(content: Content, d: Disk, urls: seq<Url>)
    requires DiskSound(content, d) && d.stored.Some? && d.stored.value.urls == urls
    requires d.stored.value.next > 0 && d.stored.value.bytes > 0
    ensures d.stored.value.next <= |urls| && GoesOnBehind(content, Opened(d, urls, true), urls, d.stored.value.next)
  {
    var c := d.stored.value;
    assert Aligned(content, c, d.durable);
    assert Take(d.staged, c.bytes) == Assembled(content, urls, c.next);
  }

  /** What was stored before a crash is not fetched again. */
  lemma {:induction false} SavedIsResumed(content: Content, s: State, left: Bytes, u: State)
    requires Sound(content, s) && s.task.Busy? && s.task.next > 0 && s.task.total > 0
    requires var c := Checkpoint(s.task.urls, s.task.next, s.task.total);
      Run(content, s, [Save(true, true), Crash(left, Some(c)), Open(s.task.urls, true)], u)
    ensures s.task.next <= |s.task.urls| && GoesOnBehind(content, u, s.task.urls, s.task.next)
  {
    hide Sound, DiskSound, TaskSound, GoesOnBehind, Opened;
    var c := Checkpoint(s.task.urls, s.task.next, s.task.total);
    var trace := [Save(true, true), Crash(left, Some(c)), Open(s.task.urls, true)];
    var a := Apply(content, s, trace[0]);
    assert trace[1..] == [Crash(left, Some(c)), Open(s.task.urls, true)];
    assert trace[1..][1..] == [Open(s.task.urls, true)] && trace[1..][1..][1..] == [];
    StepSound(content, s, trace[0]);
    var b := Apply(content, a, trace[1]);
    StepSound(content, a, trace[1]);
    assert Run(content, a, trace[1..], u) && Run(content, b, trace[1..][1..], u);
    assert Run(content, Opened(b.disk, s.task.urls, true), trace[1..][1..][1..], u);
    assert DiskSound(content, b.disk) by { DiskOf(content, b); }
    OpenResumes(content, b.disk, s.task.urls);
  }

  lemma {:induction false} DiskOf(content: Content, s: State)
    requires Sound(content, s)
    ensures DiskSound(content, s.disk)
  {
  }

  predicate Strays(e: Event) {
    e.Append? && e.fate.Partial? && e.fate.written > 0
  }

  /** Within one task no copy follows one that stopped part-way; `stray` says whether one did so before. */
  predicate NoRetry(stray: bool, trace: seq<Event>)
    decreases |trace|
  {
    trace != [] ==>
      && (stray ==> trace[0] != Append(Copied))
      && NoRetry(if trace[0].Open? || trace[0].Crash? then false else stray || Strays(trace[0]), trace[1..])
  }

  /** Such runs are careful, whatever the contents. */
  lemma {:induction false} WithoutRetryCareful(content: Content, s: State, trace: seq<Event>, t: State, stray: bool)
    requires Sound(content, s) && Run(content, s, trace, t) && NoRetry(stray, trace)
    requires s.task.Busy? && !stray ==> |s.disk.staged| == s.task.total
    ensures CarefulRun(content, s, trace)
    decreases |trace|
  {
    if trace != [] {
      var e := trace[0];
      StepSound(content, s, e);
      var m := Apply(content, s, e);
      Strayed(content, s, e, stray);
      WithoutRetryCareful(content, m, trace[1..], t, if e.Open? || e.Crash? then false else stray || Strays(e));
    }
  }

  lemma {:induction false} Strayed(content: Content, s: State, e: Event, stray: bool)
    requires Sound(content, s) && Enabled(content, s, e) && Careful(s, e)
    requires s.task.Busy? && !stray ==> |s.disk.staged| == s.task.total
    ensures var m := Apply(content, s, e);
      m.task.Busy? && !(if e.Open? || e.Crash? then false else stray || Strays(e)) ==> |m.disk.staged| == m.task.total
  {
    if e.Append? && e.fate.Partial? && e.fate.written == 0 {
      assert s.disk.staged + Take(s.task.pending[s.task.next], 0) == s.disk.staged;
    }
  }

  /** A task that has seen no failure holds exactly the segments before `next`. */
  ghost predicate CleanOrFailed(content: Content, s: State, before: Option<(seq<Url>, Bytes)>) {
    match s.task
    case Busy(_, _, _, _, _, failed) => s.disk.published == before && (failed || TaskSound(content, s.disk, s.task))
    case Idle =>
      s.disk.published == before ||
      (s.disk.published.Some? &&
       s.disk.published.value.1 == Assembled(content, s.disk.published.value.0, |s.disk.published.value.0|))
  }

  predicate WithinTask(e: Event) {
    !e.Open? && !e.Crash?
  }

  lemma {:induction false} StepCleanOrFailed(content: Content, s: State, e: Event, before: Option<(seq<Url>, Bytes)>)
    requires CleanOrFailed(content, s, before) && Enabled(content, s, e) && WithinTask(e)
    ensures CleanOrFailed(content, Apply(content, s, e), before)
  {
    if e.Append? && e.fate.Copied? && !s.task.failed {
      var t := s.task;
      assert s.disk.staged + t.pending[t.next] == Assembled(content, t.urls, t.next + 1);
    }
  }

  /** Within one task every interleaving is safe, local append failures included: success publishes the whole list. */
  lemma {:induction false} TaskPublishesWhole(
      content: Content, s: State, trace: seq<Event>, t: State, before: Option<(seq<Url>, Bytes)>)
    requires CleanOrFailed(content, s, before) && Run(content, s, trace, t)
    requires forall i :: 0 <= i < |trace| ==> WithinTask(trace[i])
    ensures CleanOrFailed(content, t, before)
    decreases |trace|
  {
    hide CleanOrFailed, Enabled, Apply;
    if trace != [] {
      assert WithinTask(trace[0]);
      StepCleanOrFailed(content, s, trace[0], before);
      TaskPublishesWhole(content, Apply(content, s, trace[0]), trace[1..], t, before);
    }
  }

  // ---------------------------------------------------------------- the append that stops part-way

  /** Bytes of segments `m` to `n`. */
  function Between(content: Content, urls: seq<Url>, m: nat, n: nat): Bytes
    requires m <= n <= |urls|
  {
    if n == m then [] else Between(content, urls, m, n - 1) + content(urls, n - 1)
  }

  lemma {:induction false} AssembledParts(content: Content, urls: seq<Url>, m: nat, n: nat)
    requires m <= n <= |urls|
    ensures Assembled(content, urls, n) == Assembled(content, urls, m) + Between(content, urls, m, n)
    decreases n
  {
    if m < n { AssembledParts(content, urls, m, n - 1); }
  }

  lemma {:induction false} BetweenFirst(content: Content, urls: seq<Url>, m: nat, n: nat)
    requires m < n <= |urls|
    ensures content(urls, m) <= Between(content, urls, m, n)
    decreases n
  {
    if m + 1 < n { BetweenFirst(content, urls, m, n - 1); } else { assert Between(content, urls, m, m) == []; }
  }

  /** The file holds the segments before `from`, the bytes `w`, and the segments from there on. */
  ghost predicate Shifted(content: Content, s: State, urls: seq<Url>, from: nat, w: Bytes) {
    && s.task.Busy? && s.task.urls == urls && from <= s.task.next <= |urls| && Genuine(content, s.task)
    && s.disk.staged == Assembled(content, urls, from) + w + Between(content, urls, from, s.task.next)
    && s.task.total == |Assembled(content, urls, s.task.next)|
  }

  /** A step of the task that leaves no new stray bytes. */
  predicate NoMoreStrays(e: Event) {
    !e.Open? && !e.Crash? && !e.Finish? && !Strays(e)
  }

  lemma {:induction false} ShiftedStep(content: Content, s: State, e: Event, urls: seq<Url>, from: nat, w: Bytes)
    requires Shifted(content, s, urls, from, w) && Enabled(content, s, e) && NoMoreStrays(e)
    ensures Shifted(content, Apply(content, s, e), urls, from, w)
    ensures s.task.next <= Apply(content, s, e).task.next
  {
    if e.Append? {
      assert s.disk.staged + Take(s.task.pending[s.task.next], 0) == s.disk.staged;
    }
  }

  lemma {:induction false} ShiftedRun(
      content: Content, s: State, trace: seq<Event>, t: State, urls: seq<Url>, from: nat, w: Bytes)
    requires Shifted(content, s, urls, from, w) && Run(content, s, trace, t)
    requires forall i :: 0 <= i < |trace| ==> NoMoreStrays(trace[i])
    ensures Shifted(content, t, urls, from, w)
    decreases |trace|
  {
    hide Shifted, Enabled, Apply, NoMoreStrays;
    if trace != [] {
      assert NoMoreStrays(trace[0]);
      ShiftedStep(content, s, trace[0], urls, from, w);
      ShiftedRun(content, Apply(content, s, trace[0]), trace[1..], t, urls, from, w);
    }
  }

  /** The bytes repeat every `k`. */
  predicate Period(b: Bytes, k: nat) {
    forall i :: k <= i < |b| ==> b[i] == At(b, i - k)
  }

  function At(b: Bytes, i: int): int
    requires 0 <= i < |b|
  {
    b[i]
  }

  /** The checkpoint the code would store now. */
  function Now(s: State): Checkpoint
    requires s.task.Busy?
  {
    Checkpoint(s.task.urls, s.task.next, s.task.total)
  }

  /**
   A copy stops after `k` bytes and the task goes on, for as many segments as it
   likes: the checkpoint stored then is right exactly when the segments copied from
   there on, taken together, repeat with the length of what was left behind.
   */
  lemma {:induction false} RetriedCopiesAligned(content: Content, s: State, k: nat, trace: seq<Event>, t: State)
    requires TaskSound(content, s.disk, s.task) && s.task.Busy? && |s.disk.staged| == s.task.total
    requires s.task.next in s.task.pending
    requires Run(content, Appended(s, Partial(k)), trace, t)
    requires forall i :: 0 <= i < |trace| ==> NoMoreStrays(trace[i])
    ensures t.task.Busy? && t.task.urls == s.task.urls && s.task.next <= t.task.next <= |t.task.urls|
    ensures var w := Take(s.task.pending[s.task.next], k);
      Aligned(content, Now(t), t.disk.staged)
      <==> t.task.next == s.task.next || Period(Between(content, t.task.urls, s.task.next, t.task.next), |w|)
  {
    var urls, m, w := s.task.urls, s.task.next, Take(s.task.pending[s.task.next], k);
    var done := Assembled(content, urls, m);
    assert s.disk.staged == done;
    var s1 := Appended(s, Partial(k));
    assert Between(content, urls, m, m) == [];
    assert s1.disk.staged == done + w + [];
    ShiftedRun(content, s1, trace, t, urls, m, w);
    var n := t.task.next;
    var more := Between(content, urls, m, n);
    AssembledParts(content, urls, m, n);
    assert t.disk.staged == done + (w + more);
    PrefixBehind(done, more, w + more);
    if n > m {
      BetweenFirst(content, urls, m, n);
      assert w <= more;
      Periodic(more, |w|);
      assert w == more[..|w|];
    }
  }

  /** A step of the task before its end. */
  predicate Underway(e: Event) {
    !e.Open? && !e.Crash? && !e.Finish?
  }

  /** What one step copies into the file, when segment `m` is the next. */
  function Added(content: Content, urls: seq<Url>, m: nat, e: Event): Bytes {
    match e
    case Append(Copied) => content(urls, m)
    case Append(Partial(k)) => Take(content(urls, m), k)
    case _ => []
  }

  function Written(content: Content, urls: seq<Url>, m: nat, trace: seq<Event>): Bytes
    decreases |trace|
  {
    if trace == [] then []
    else
      Added(content, urls, m, trace[0])
      + Written(content, urls, if trace[0] == Append(Copied) then m + 1 else m, trace[1..])
  }

  /** The task counts and holds the segments before `next`. */
  ghost predicate Counted(content: Content, t: Task) {
    && t.Busy? && t.next <= |t.urls| && Genuine(content, t) && t.total == |Assembled(content, t.urls, t.next)|
  }

  lemma {:induction false} WrittenStep(content: Content, s: State, e: Event)
    requires Counted(content, s.task) && Enabled(content, s, e) && Underway(e)
    ensures var m := Apply(content, s, e);
      && Counted(content, m.task) && m.task.urls == s.task.urls
      && m.task.next == (if e == Append(Copied) then s.task.next + 1 else s.task.next)
      && m.disk.staged == s.disk.staged + Added(content, s.task.urls, s.task.next, e)
  {
  }

  lemma {:induction false} WrittenRun(content: Content, s: State, trace: seq<Event>, t: State)
    requires Counted(content, s.task) && Run(content, s, trace, t)
    requires forall i :: 0 <= i < |trace| ==> Underway(trace[i])
    ensures Counted(content, t.task) && t.task.urls == s.task.urls && s.task.next <= t.task.next
    ensures t.disk.staged == s.disk.staged + Written(content, s.task.urls, s.task.next, trace)
    decreases |trace|
  {
    hide Counted, Enabled, Apply, Added;
    if trace != [] {
      assert Underway(trace[0]);
      WrittenStep(content, s, trace[0]);
      WrittenRun(content, Apply(content, s, trace[0]), trace[1..], t);
    }
  }

  /**
   Any number of copies that stop part-way, anywhere: the checkpoint stored then is
   right exactly when what was written since begins with the segments counted since.
   */
  lemma {:induction false} CopiesAligned(content: Content, s: State, trace: seq<Event>, t: State)
    requires TaskSound(content, s.disk, s.task) && s.task.Busy? && |s.disk.staged| == s.task.total
    requires Run(content, s, trace, t) && forall i :: 0 <= i < |trace| ==> Underway(trace[i])
    ensures t.task.Busy? && t.task.urls == s.task.urls && s.task.next <= t.task.next <= |t.task.urls|
    ensures Aligned(content, Now(t), t.disk.staged) <==>
      Between(content, t.task.urls, s.task.next, t.task.next) <= Written(content, s.task.urls, s.task.next, trace)
  {
    WrittenRun(content, s, trace, t);
    var m, n := s.task.next, t.task.next;
    assert s.disk.staged == Assembled(content, s.task.urls, m);
    AssembledParts(content, s.task.urls, m, n);
    PrefixBehind(s.disk.staged, Between(content, s.task.urls, m, n), Written(content, s.task.urls, m, trace));
  }

  lemma {:induction false} PrefixBehind(a: Bytes, b: Bytes, c: Bytes)
    ensures a + b <= a + c <==> b <= c
  {
    if b <= c {
      assert c == b + c[|b|..];
      assert a + c == (a + b) + c[|b|..];
    }
    if a + b <= a + c {
      assert forall i :: 0 <= i < |b| ==> b[i] == (a + b)[|a| + i] == (a + c)[|a| + i] == c[i];
    }
  }

  lemma {:induction false} Periodic(b: Bytes, k: nat)
    requires k <= |b|
    ensures b <= b[..k] + b <==> Period(b, k)
  {
    var c := b[..k] + b;
    assert forall i :: k <= i < |b| ==> c[i] == At(b, i - k);
    if Period(b, k) {
      assert b == c[..|b|];
    }
  }

  /**
   What a complete but failed task leaves is published by the next one unseen: the
   list exactly when the checkpoint is right.
   */
  lemma {:induction false} NextTaskPublishes(content: Content, t: State)
    requires t.task.Busy? && t.task.failed && t.task.persistent && t.task.next == |t.task.urls| > 0 && t.task.total > 0
    requires t.task.total == |Assembled(content, t.task.urls, t.task.next)| <= |t.disk.staged|
    ensures var u := Opened(Finished(t, true, true).disk, t.task.urls, true);
      && u.disk.published == Some((t.task.urls, t.disk.staged[..t.task.total]))
      && (t.disk.staged[..t.task.total] == Assembled(content, t.task.urls, t.task.next)
          <==> Aligned(content, Now(t), t.disk.staged))
  {
  }

  /** `n` different bytes. */
  function Counting(n: nat): (r: Bytes)
    ensures |r| == n && forall i :: 0 <= i < n ==> r[i] == i
  {
    if n == 0 then [] else Counting(n - 1) + [n - 1]
  }

  function TwoSegments(k: nat): Content {
    (urls, i) => if i == 0 then Counting(k + 1) else [9]
  }

  /**
   However far the failed copy came, there are contents on which trying it again
   publishes a wrong file: the code does not rewind the staged file, a late result
   makes the loop try again, the failure checkpoint counts the list's bytes, and the
   next task publishes as many.
   */
  lemma {:induction false} PartialAppendMixes(k: nat) returns (t: State)
    requires k > 0
    ensures Run(TwoSegments(k), State(Disk([], [], None, {}, None), Idle),
      [Open(["a", "b"], true), Arrive(0), Append(Partial(k)), Arrive(1), Append(Copied), Append(Copied),
        Finish(true, true),
       Open(["a", "b"], true)], t)
    ensures t.disk.published.Some? && t.disk.published.value.0 == ["a", "b"]
    ensures t.disk.published.value.1 != Assembled(TwoSegments(k), ["a", "b"], 2)
  {
    hide Run, Counting;
    var urls, b := ["a", "b"], Counting(k + 1);
    var s0 := State(Disk([], [], None, {}, None), Idle);
    var s1 := State(s0.disk, Busy(urls, true, map[], 0, 0, false));
    var s2 := s1.(task := s1.task.(pending := map[0 := b]));
    var s3 := State(s2.disk.(staged := b[..k]), s2.task.(failed := true));
    assert [] + b[..k] == b[..k];
    t := AfterStray(k, s3);
    var rest := [Arrive(1), Append(Copied), Append(Copied), Finish(true, true), Open(urls, true)];
    Before(TwoSegments(k), s2, Append(Partial(k)), s3, rest, t);
    Before(TwoSegments(k), s1, Arrive(0), s2, [Append(Partial(k))] + rest, t);
    Before(TwoSegments(k), s0, Open(urls, true), s1, [Arrive(0)] + ([Append(Partial(k))] + rest), t);
    assert [Open(urls, true)] + ([Arrive(0)] + ([Append(Partial(k))] + rest))
        == [Open(urls, true), Arrive(0), Append(Partial(k)), Arrive(1), Append(Copied), Append(Copied),
          Finish(true, true),
            Open(urls, true)];
  }

  /** The second half: from the failed copy on. */
  lemma {:induction false} AfterStray(k: nat, s3: State) returns (t: State)
    requires k > 0
    requires s3 == State(Disk(Counting(k + 1)[..k], [], None, {}, None),
                         Busy(["a", "b"], true, map[0 := Counting(k + 1)], 0, 0, true))
    ensures Run(TwoSegments(k), s3,
      [Arrive(1), Append(Copied), Append(Copied), Finish(true, true), Open(["a", "b"], true)], t)
    ensures t.disk.published.Some? && t.disk.published.value.0 == ["a", "b"]
    ensures t.disk.published.value.1 != Assembled(TwoSegments(k), ["a", "b"], 2)
  {
    hide Run, Counting;
    var b := Counting(k + 1);
    var s4 := s3.(task := s3.task.(pending := map[0 := b, 1 := [9]]));
    var s5 := State(s4.disk.(staged := b[..k] + b), Busy(["a", "b"], true, map[1 := [9]], 1, k + 1, true));
    var s6 := State(s4.disk.(staged := b[..k] + b + [9]), Busy(["a", "b"], true, map[], 2, k + 2, true));
    t := AfterAppends(k, s6);
    var rest := [Finish(true, true), Open(["a", "b"], true)];
    Before(TwoSegments(k), s5, Append(Copied), s6, rest, t);
    Before(TwoSegments(k), s4, Append(Copied), s5, [Append(Copied)] + rest, t);
    Before(TwoSegments(k), s3, Arrive(1), s4, [Append(Copied)] + ([Append(Copied)] + rest), t);
    assert [Arrive(1)] + ([Append(Copied)] + ([Append(Copied)] + rest))
        == [Arrive(1), Append(Copied), Append(Copied), Finish(true, true), Open(["a", "b"], true)];
  }

  lemma {:induction false} AfterAppends(k: nat, s6: State) returns (t: State)
    requires k > 0
    requires s6 == State(Disk(Counting(k + 1)[..k] + Counting(k + 1) + [9], [], None, {}, None),
                         Busy(["a", "b"], true, map[], 2, k + 2, true))
    ensures Run(TwoSegments(k), s6, [Finish(true, true), Open(["a", "b"], true)], t)
    ensures t.disk.published.Some? && t.disk.published.value.0 == ["a", "b"]
    ensures t.disk.published.value.1 != Assembled(TwoSegments(k), ["a", "b"], 2)
  {
    hide Run, Counting;
    var urls, b := ["a", "b"], Counting(k + 1);
    var all := Assembled(TwoSegments(k), urls, 2);
    assert Assembled(TwoSegments(k), urls, 1) == [] + b == b;
    assert all == b + [9];
    NextTaskPublishes(TwoSegments(k), s6);
    var s7 := State(Finished(s6, true, true).disk, Idle);
    t := Opened(s7.disk, urls, true);
    var file := s6.disk.staged[..k + 2];
    assert file[k] == b[0] && all[k] == b[k];
    NoRun(TwoSegments(k), t);
    Before(TwoSegments(k), s7, Open(urls, true), t, [], t);
    assert [Open(urls, true)] + [] == [Open(urls, true)];
    Before(TwoSegments(k), s6, Finish(true, true), s7, [Open(urls, true)], t);
    assert [Finish(true, true)] + [Open(urls, true)] == [Finish(true, true), Open(urls, true)];
  }

  lemma {:induction false} NoRun(content: Content, s: State)
    ensures Run(content, s, [], s)
  {
  }

  /** One step in front of a run. */
  lemma {:induction false} Before(content: Content, s: State, e: Event, m: State, rest: seq<Event>, t: State)
    requires Enabled(content, s, e) && Apply(content, s, e) == m && Run(content, m, rest, t)
    ensures Run(content, s, [e] + rest, t)
  {
    assert ([e] + rest)[1..] == rest;
  }

  /** One step behind a run. */
  lemma {:induction false} Then(content: Content, s: State, trace: seq<Event>, m: State, e: Event)
    requires Run(content, s, trace, m) && Enabled(content, m, e)
    ensures Run(content, s, trace + [e], Apply(content, m, e))
    decreases |trace|
  {
    hide Apply, Enabled;
    if trace == [] {
      NoRun(content, Apply(content, m, e));
      Before(content, s, e, Apply(content, m, e), [], Apply(content, m, e));
    } else {
      Then(content, Apply(content, s, trace[0]), trace[1..], m, e);
      Before(content, s, trace[0], Apply(content, s, trace[0]), trace[1..] + [e], Apply(content, m, e));
      assert [trace[0]] + (trace[1..] + [e]) == trace + [e];
    }
  }

  // ---------------------------------------------------------------- the assembling loop

  /** One result off the channel; a worker that gave up delivers nothing. */
  datatype Arrival = Delivered(index: nat, body: Bytes) | GaveUp

  /** What the file system does around one copied segment: `due` if the code wants a checkpoint then. */
  datatype Io = Io(fate: Fate, due: bool, synced: bool, renamed: bool)

  ghost predicate FromOrigin(content: Content, urls: seq<Url>, a: Arrival) {
    a.Delivered? ==> a.index < |urls| && a.body == content(urls, a.index) && a.body != []
  }

  /** The variables of fileDownloadSegments while results come in. */
  class Assembler {
    const urls: seq<Url>
    const persistent: bool
    var disk: Disk
    var busy: bool
    var pending: map<nat, Bytes>
    var next: nat
    var total: nat
    var failed: bool

    /** The start of a task: the checkpoint read, the staged file cut back to it. */
    constructor (d: Disk, urls: seq<Url>, persistent: bool)
      ensures this.urls == urls && this.persistent == persistent
      ensures View() == Opened(d, urls, persistent)
      ensures busy ==> pending == map[] && !failed && disk.published == d.published
    {
      this.urls, this.persistent := urls, persistent;
      pending, failed := map[], false;
      if Usable(d.stored, urls, persistent) && |d.staged| >= d.stored.value.bytes {
        var c := d.stored.value;
        next, total := c.next, c.bytes;
        var cut := d.(staged := Take(d.staged, c.bytes), durable := Take(d.durable, c.bytes));
        if c.next == |urls| && c.bytes > 0 {
          disk, busy := Disk([], [], None, {}, Some((urls, cut.staged))), false;
        } else {
          disk, busy := cut, true;
        }
      } else {
        next, total := 0, 0;
        disk, busy := Disk([], [], None, {}, d.published), true;
      }
    }

    ghost function View(): State
      reads this
    {
      State(disk, if busy then Busy(urls, persistent, pending, next, total, failed) else Idle)
    }

    /** The inner loop body up to the test for a checkpoint: copy the next segment, or note the failure. */
    method CopyNext(fate: Fate) returns (stop: bool)
      requires busy && next in pending
      modifies this
      ensures busy && View() == Appended(old(View()), fate)
      ensures stop <==> !fate.Copied?
      ensures !stop ==> |pending| < |old(pending)|
    {
      var body := pending[next];
      match fate {
        case OpenFailed =>
          failed, stop := true, true;
        case Partial(k) =>
          disk := disk.(staged := disk.staged + Take(body, k));
          failed, stop := true, true;
        case Copied =>
          disk := disk.(staged := disk.staged + body);
          FewerKeys(pending, next);
          pending := pending - {next};
          next, total, stop := next + 1, total + |body|, false;
      }
    }

    method SaveCheckpoint(synced: bool, renamed: bool)
      requires busy
      modifies this`disk
      ensures disk == Checkpointed(old(View()), synced, renamed)
    {
      if synced {
        disk := disk.(durable := disk.staged);
        if renamed {
          var c := Checkpoint(urls, next, total);
          disk := disk.(stored := Some(c), saved := disk.saved + {c});
        }
      }
    }

    /** One pass of the inner loop: the next segment is copied, and a checkpoint saved when one is due. */
    method TakeNext(ghost content: Content, io: Io, ghost start: State, ghost before: seq<Event>)
        returns (stop: bool, ghost trace: seq<Event>)
      requires busy && next in pending && Run(content, start, before, View())
      modifies this
      ensures busy && Run(content, start, trace, View())
      ensures (forall i :: 0 <= i < |before| ==> WithinTask(before[i])) ==> forall i :: 0 <= i < |trace| ==>
        WithinTask(trace[i])
      ensures stop <==> io.fate != Copied
      ensures failed == (old(failed) || stop)
      ensures !stop ==> |pending| < |old(pending)|
      ensures forall i: nat :: Held(next, pending, i) <==> Held(old(next), old(pending), i)
    {
      hide Run;
      ghost var s, e := View(), Append(io.fate);
      Then(content, start, before, s, e);
      stop := CopyNext(io.fate);
      assert View() == Apply(content, s, e);
      trace := before + [e];
      if !stop && persistent && io.due {
        s, e := View(), Save(io.synced, io.renamed);
        Then(content, start, trace, s, e);
        SaveCheckpoint(io.synced, io.renamed);
        assert View() == Apply(content, s, e);
        trace := trace + [e];
      }
    }

    /** One result, and then every segment that has become next. */
    method OnResult(ghost content: Content, a: Arrival, io: nat -> Io) returns (ghost trace: seq<Event>)
      requires busy && FromOrigin(content, urls, a)
      modifies this
      ensures busy && Run(content, old(View()), trace, View())
      ensures forall i :: 0 <= i < |trace| ==> WithinTask(trace[i])
      ensures a.Delivered? ==> failed || next !in pending
      ensures a.Delivered? && (forall k :: io(k).fate == Copied) ==> failed == old(failed) && next !in pending
      ensures forall i: nat :: Held(next, pending, i) <==>
        Held(old(next), old(pending), i) || (a.Delivered? && i == a.index)
    {
      hide Run;
      ghost var start := View();
      NoRun(content, start);
      if a.GaveUp? {
        Then(content, start, [], start, Fail);
        failed := true;
        return [] + [Fail];
      }
      Then(content, start, [], start, Arrive(a.index));
      pending := pending[a.index := a.body];
      trace := [] + [Arrive(a.index)];
      var stop, k := false, 0;
      while !stop && next in pending
        invariant busy && Run(content, start, trace, View())
        invariant forall i :: 0 <= i < |trace| ==> WithinTask(trace[i])
        invariant stop ==> failed
        invariant (forall k :: io(k).fate == Copied) ==> failed == old(failed) && !stop
        invariant forall i: nat :: Held(next, pending, i) <==> Held(old(next), old(pending), i) || i == a.index
        decreases !stop, |pending|
      {
        stop, trace := TakeNext(content, io(k), start, trace);
        k := k + 1;
      }
    }

    /** The channel is closed: publish, or keep what can be resumed. */
    method Close(ghost content: Content, synced: bool, renamed: bool)
      requires busy
      modifies this
      ensures !busy && View() == Apply(content, old(View()), Finish(synced, renamed))
    {
      if failed {
        if persistent && next > 0 && total > 0 { SaveCheckpoint(synced, renamed); }
      } else if next == |urls| && total != 0 && synced {
        if renamed {
          disk := Disk([], [], None, {}, Some((urls, disk.staged)));
          busy := false;
          return;
        }
        disk := disk.(durable := disk.staged);
      }
      if !persistent { disk := Disk([], [], None, {}, disk.published); }
      busy := false;
    }

    /**
     The whole result loop. Whatever arrives in whatever order and however the
     file system behaves, nothing but the whole list is published; when every
     segment arrives and the disk works, it is.
     */
    method Assemble(ghost content: Content, results: seq<Arrival>, io: (nat, nat) -> Io, synced: bool, renamed: bool)
        returns (ghost trace: seq<Event>)
      requires busy && CleanOrFailed(content, View(), disk.published) && pending == map[] && !failed
      requires forall i :: 0 <= i < |results| ==> FromOrigin(content, urls, results[i])
      modifies this
      ensures !busy && Run(content, old(View()), trace, View())
      ensures disk.published == old(disk.published) || disk.published == Some((urls, Assembled(content, urls, |urls|)))
      ensures (forall i :: 0 <= i < |results| ==> results[i].Delivered?) && (forall i, k :: io(i, k).fate == Copied)
        && (forall n :: old(next) <= n < |urls| ==> Arrived(results, n)) && Assembled(content, urls, |urls|) != []
        && synced && renamed
        ==> disk.published == Some((urls, Assembled(content, urls, |urls|)))
    {
      hide Run, Assembled;
      ghost var start, before := View(), disk.published;
      NoRun(content, start);
      trace := [];
      var i: nat := 0;
      while i < |results|
        invariant i <= |results| && busy && Run(content, start, trace, View())
        invariant forall j :: 0 <= j < |trace| ==> WithinTask(trace[j])
        invariant (forall j :: 0 <= j < |results| ==> results[j].Delivered?) && (forall j, k :: io(j, k).fate == Copied)
          ==> !failed && next !in pending
        invariant Tracked(results, i, start.task.next, next, pending)
      {
        assert FromOrigin(content, urls, results[i]);
        var row: nat := i;
        var step: nat -> Io := (k: nat) => io(row, k);
        ghost var mid := View();
        ghost var more := OnResult(content, results[i], step);
        RunOn(content, start, trace, mid, more, View());
        trace := trace + more;
        TrackedNext(results, i, start.task.next, mid.task.next, mid.task.pending, next, pending);
        i := i + 1;
      }
      assert old(next) == start.task.next;
      TaskPublishesWhole(content, start, trace, View(), before);
      Complete(results, content, start.task.next, View());
      assert !failed ==> disk.staged == Assembled(content, urls, next);
      Then(content, start, trace, View(), Finish(synced, renamed));
      trace := trace + [Finish(synced, renamed)];
      Close(content, synced, renamed);
    }
  }

  lemma {:induction false} RunOn(content: Content, s: State, trace: seq<Event>, m: State, more: seq<Event>, t: State)
    requires Run(content, s, trace, m) && Run(content, m, more, t)
    ensures Run(content, s, trace + more, t)
    decreases |trace|
  {
    hide Apply, Enabled;
    if trace == [] {
      assert trace + more == more;
    } else {
      RunOn(content, Apply(content, s, trace[0]), trace[1..], m, more, t);
      assert (trace + more)[1..] == trace[1..] + more;
    }
  }

  /** Segment `n` is among the results. */
  ghost predicate Arrived(results: seq<Arrival>, n: nat) {
    ArrivedBefore(results, |results|, n)
  }

  ghost predicate ArrivedBefore(results: seq<Arrival>, i: nat, n: nat) {
    exists j :: 0 <= j < i && j < |results| && results[j].Delivered? && results[j].index == n
  }

  /** What was assembled or waits is what was there before and what arrived. */
  ghost predicate Tracked(results: seq<Arrival>, i: nat, from: nat, next: nat, pending: map<nat, Bytes>) {
    forall n: nat :: Held(next, pending, n) <==> n < from || ArrivedBefore(results, i, n)
  }

  ghost predicate Held(next: nat, pending: map<nat, Bytes>, n: nat) {
    n < next || n in pending
  }

  lemma {:induction false} TrackedNext(
      results: seq<Arrival>, i: nat, from: nat, next: nat, pending: map<nat, Bytes>, next': nat, pending': map<nat,
        Bytes>)
    requires i < |results| && Tracked(results, i, from, next, pending)
    requires forall n: nat :: Held(next', pending', n) <==>
      Held(next, pending, n) || (results[i].Delivered? && n == results[i].index)
    ensures Tracked(results, i + 1, from, next', pending')
  {
    forall n: nat ensures Held(next', pending', n) <==> n < from || ArrivedBefore(results, i + 1, n) {
      assert Held(next, pending, n) <==> n < from || ArrivedBefore(results, i, n);
    }
  }

  /** When everything arrived and nothing waits, everything is assembled. */
  lemma {:induction false} Complete(results: seq<Arrival>, content: Content, from: nat, s: State)
    requires s.task.Busy? && Tracked(results, |results|, from, s.task.next, s.task.pending)
    ensures (TaskSound(content, s.disk, s.task) && s.task.next !in s.task.pending
             && (forall n :: from <= n < |s.task.urls| ==> Arrived(results, n))) ==> s.task.next == |s.task.urls|
  {
    var n := s.task.next;
    assert Held(n, s.task.pending, n) <==> n < from || ArrivedBefore(results, |results|, n);
    if n < |s.task.urls| && from <= n && Arrived(results, n) { assert Held(n, s.task.pending, n); }
  }

  lemma {:induction false} FewerKeys(m: map<nat, Bytes>, k: nat)
    requires k in m
    ensures |m - {k}| < |m|
  {
    assert (m - {k}).Keys == m.Keys - {k};
  }
}
