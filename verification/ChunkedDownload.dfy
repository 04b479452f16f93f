/**
 fileDownloadChunked of go_backend/extension_runtime_chunked.go behind its probe,
 as it runs: the staged file, the loop over the chunks and the attempts for each,
 with every fault of the disk and every interruption a parameter.
 */
module ChunkedDownload {
  import opened Options
  import opened ObjectOrigin
  import opened ChunkedTransfer
  import opened ChunkedOutcome

  /**
   The answer is honest, of the probed body unless its name gives it away, and ends
   where the object ends if the size is not known.
   */
  ghost predicate Fair(a: Answer, now: Version, v: Version, from: nat, ifRange: string, known: bool, chunkSize: nat) {
    && HonestRange(a, now, from, ifRange)
    && (a.Got? ==>
          && (now.body == v.body || (v.validator != "" && SaysWhich(a.reply, v.validator)))
          && (known || ChunkEnds(a.reply, v, from, chunkSize)))
  }

  ghost predicate AllFair(
      versions: nat -> Version, answers: (nat, nat, int, string) -> Answer, v: Version, known: bool, chunkSize: nat,
      quiet: nat)
  {
    && (forall k, from, to, ifRange :: Fair(answers(k, from, to, ifRange), versions(k), v, from, ifRange, known,
      chunkSize))
    && (forall k, from, to, ifRange :: k >= quiet ==> answers(k, from, to, ifRange) == Unreachable)
  }

  /** A fair answer of which only a part was read is fair. */
  lemma {:induction false} SeenFair(h: Held, end: int, v: Version, chunkSize: nat, r: Reply, a: Receipt, known: bool)
    requires Fair(Got(r), a.now, v, |h.data|, v.validator, known, chunkSize) && (r.code == OK || r.code == PARTIAL)
    requires SameObject(a.now, v) && (a.reply == r || a.reply == r.(eof := false)) && (known ==> h.totalSize > 0)
    ensures HonestAnswer(Fetching(h, end), v, a.reply, a.now) && Trusted(Fetching(h, end), v, chunkSize, a)
  {
    assert Data(a.reply) == Data(r);
  }

  /**
   What may go wrong in one attempt: the restart before the body, the download cancelled or a write cut
   short at a piece, the rollback behind it, a cancellation or interruption behind that, and the final sync.
   */
  datatype Faults = Faults(
    restart: bool, cancelled: nat -> bool, short: nat -> bool, rollback: bool, stopped: bool, interrupted: bool,
    synced: bool)

  ghost predicate Calm(f: Faults) {
    && !f.restart && (forall i :: !f.cancelled(i) && !f.short(i)) && !f.rollback && !f.stopped && !f.interrupted
    && f.synced
  }

  ghost predicate CalmUpTo(faults: nat -> Faults, n: nat) {
    forall k: nat :: k <= n ==> Calm(faults(k))
  }

  /** The stage the calm requests up to number `used` have led to. */
  ghost predicate Reached(
      p: Plan, faults: nat -> Faults, h: Held, n: nat, answers: ChunkOrigin, used: nat, stage: Stage)
  {
    used >= n &&
    (CalmUpTo(faults, used) ==>
       && StageAt(p, h, n, answers, used - n) == stage
       && (used > n ==> StageAt(p, h, n, answers, used - n - 1).Asking?))
  }

  lemma {:induction false} ReachedNext(
      p: Plan, faults: nat -> Faults, h: Held, n: nat, answers: ChunkOrigin, used: nat, stage: Stage)
    requires Reached(p, faults, h, n, answers, used, stage) && stage.Asking?
    ensures Reached(p, faults, h, n, answers, used + 1, Behind(p, stage, AnswerTo(p, stage, answers, used + 1)))
  {
    hide Behind, Calm;
  }

  /** While nothing has gone wrong the two stages are one. */
  lemma {:induction false} SameStage(
      p: Plan, faults: nat -> Faults, h: Held, n: nat, answers: ChunkOrigin, used: nat, stage: Stage, same: Stage)
    requires Reached(p, faults, h, n, answers, used, stage) && (CalmUpTo(faults, used) ==> stage == same)
    ensures Reached(p, faults, h, n, answers, used, same)
  {
  }

  lemma {:induction false} NoDelivery(p: Plan, h: Held, end: int, tries: nat, a: Answer)
    requires !Delivery(a)
    ensures Behind(p, Asking(h, end, tries), a)
      == if (a.Unreachable? || (a.Status? && Retryable(a.code)) || (a.Got? && Retryable(a.reply.code)))
           && tries + 1 < p.maxAttempts
         then Asking(h, end, tries + 1) else OutOfTries
  {
  }

  /** The stage a step leads to when `tries` attempts for the chunk have been made. */
  function StageOf(p: Plan, step: ChunkStep, h: Held, end: int, tries: nat): Stage {
    match step
    case Refused => Integrity
    case Retry => if tries >= p.maxAttempts then OutOfTries else Asking(h, end, tries)
    case Done(start, full) =>
      if full || (h.totalSize <= 0 && |h.data| - start < p.chunkSize) then Checked(h) else NextChunk(p, h)
  }

  lemma {:induction false} Delivered(p: Plan, h: Held, end: int, tries: nat, r: Reply)
    requires r.code == 200 || r.code == 206
    ensures var (h', step) := AfterChunk(h, p.validator, end, r);
      Behind(p, Asking(h, end, tries), Got(r)) == StageOf(p, step, h', end, tries + 1)
  {
    hide AfterChunk, Mismatch, Arrived, Grown, Rewound, LastChunk, Checked, NextChunk, TriesAgain;
    SameAsAfter(p, h, end, r);
    var (h', step) := AfterChunk(h, p.validator, end, r);
    assert Delivery(Got(r));
    if step.Done? { assert Grown(h, Got(r)) == h'; }
  }

  /** A delivery as it was received. */
  lemma {:induction false} ReceivedStage(
      p: Plan, faults: nat -> Faults, h: Held, n: nat, answers: ChunkOrigin, used: nat, held: Held, end: int,
        tries: nat,
      r: Reply, step: ChunkStep, now: Held)
    requires r.code == 200 || r.code == 206
    requires Reached(p, faults, h, n, answers, used, Behind(p, Asking(held, end, tries), Got(r)))
    requires Calm(faults(used)) ==>
      var after := AfterChunk(held, p.validator, end, r);
      if step.Refused? then after.1.Refused? else after == (now, step)
    ensures Reached(p, faults, h, n, answers, used, StageOf(p, step, now, end, tries + 1))
  {
    hide AfterChunk, Behind, Calm;
    Delivered(p, held, end, tries, r);
    SameStage(p, faults, h, n, answers, used, Behind(p, Asking(held, end, tries), Got(r)),
              StageOf(p, step, now, end, tries + 1));
  }

  lemma {:induction false} Interrupted(
      p: Plan, faults: nat -> Faults, h: Held, n: nat, answers: ChunkOrigin, used: nat, stage: Stage, any: Stage)
    requires Reached(p, faults, h, n, answers, used, stage) && (faults(used).stopped || faults(used).interrupted)
    ensures Reached(p, faults, h, n, answers, used, any) && !CalmUpTo(faults, used)
  {
    hide StageAt;
    NotCalm(faults(used));
  }

  lemma {:induction false} NotCalm(f: Faults)
    requires f.stopped || f.interrupted || !f.synced
    ensures !Calm(f)
  {
  }

  lemma {:induction false} NothingReached(p: Plan, faults: nat -> Faults, h: Held, n: nat, answers: ChunkOrigin)
    ensures Reached(p, faults, h, n, answers, n, NextChunk(p, h))
  {
  }

  /** An ended stage decides the call. */
  lemma {:induction false} ReachedEnd(
      p: Plan, faults: nat -> Faults, h: Held, n: nat, answers: ChunkOrigin, used: nat, stage: Stage, r: Result)
    requires Reached(p, faults, h, n, answers, used, stage) && CalmUpTo(faults, used) && !stage.Asking?
    requires r == if stage.Finished? then Published(stage.file, used) else Failed(used, false)
    ensures DecidedByAnswers(p, h, n, answers, r)
  {
    hide StageAt;
    assert Decided(p, h, n, answers, used - n, r);
  }

  class Chunked {
    const file: StagedFile
    const validator: string
    const chunkSize: nat
    const keepPartial: bool
    var totalWritten: nat
    var totalSize: int
    var attemptsUsed: nat
    var checkpoint: Option<Checkpoint>

    /** The staged file continued behind a checkpoint of the probed version, or started anew. */
    constructor (file: StagedFile, validator: string, totalSize: int, chunkSize: nat, persistent: bool,
                 stored: Option<Checkpoint>, probes: nat)
      modifies file
      ensures this.file == file && this.validator == validator && this.chunkSize == chunkSize &&
        this.totalSize == totalSize
      ensures keepPartial == (persistent && validator != "") && attemptsUsed == probes
      ensures file.pos == totalWritten == |file.data| && file.durable == Take(old(file.durable), |file.data|)
      ensures var usable := keepPartial && Loadable(stored) && stored.value.validator == validator
          && (stored.value.total > 0 && totalSize > 0 ==> stored.value.total == totalSize);
        && file.data == (if usable then Take(old(file.data), stored.value.bytes) else [])
        && checkpoint == (if usable then stored else None)
    {
      this.file, this.validator, this.totalSize, this.chunkSize := file, validator, totalSize, chunkSize;
      keepPartial := persistent && validator != "";
      if persistent && validator != "" && Loadable(stored) && stored.value.validator == validator
         && (stored.value.total > 0 && totalSize > 0 ==> stored.value.total == totalSize) {
        totalWritten := if stored.value.bytes <= |file.data| then stored.value.bytes else |file.data|;
        checkpoint := stored;
      } else {
        totalWritten, checkpoint := 0, None;
      }
      attemptsUsed := probes;
      new;
      file.Truncate(totalWritten);
      file.Seek(totalWritten);
    }

    ghost function View(): Held
      reads this, file
    {
      Held(file.data, totalSize)
    }

    ghost function OnDisk(): Disk
      reads this, file
    {
      Disk(file.data, file.durable, checkpoint)
    }

    ghost predicate InPlace()
      reads this, file
    {
      file.pos == totalWritten == |file.data| && file.durable <= file.data && (keepPartial ==> validator != "")
    }

    /** The staged file is the first `totalWritten` bytes of the probed version. */
    ghost predicate Boundary(v: Version)
      reads this, file
    {
      validator == v.validator && InPlace() && Begins(View(), v)
    }

    /** Truncate and seek to `n`. */
    method RollBack(n: nat, broken: bool) returns (ok: bool)
      requires n <= |file.data|
      modifies file`data, file`pos, file`durable
      ensures ok <==> !broken
      ensures ok ==> file.data == old(file.data)[..n] && file.pos == n && file.durable == Take(old(file.durable), n)
      ensures !ok ==> file.durable == old(file.durable)
    {
      if broken { return false; }
      file.Truncate(n);
      file.Seek(n);
      return true;
    }

    /** The read loop: everything that comes goes behind what is there, unless the download is cancelled. */
    method ReadChunk(r: Reply, f: Faults) returns (stored: bool, clean: bool, chunkWritten: nat)
      requires file.pos == totalWritten == |file.data|
      modifies this`totalWritten, file`data, file`pos
      ensures Calm(f) ==> stored && clean == r.eof
      ensures stored ==> file.pos == totalWritten == |file.data| == old(totalWritten) + chunkWritten
      ensures stored ==> old(file.data) <= file.data <= old(file.data) + Data(r)
      ensures stored && clean ==> r.eof && file.data == old(file.data) + Data(r)
    {
      var i := 0;
      chunkWritten := 0;
      ghost var before := file.data;
      while i < |r.pieces|
        invariant i <= |r.pieces| && file.data == before + Concat(r.pieces, i)
        invariant file.pos == totalWritten == |file.data| == old(totalWritten) + chunkWritten
      {
        ConcatPrefix(r.pieces, i, |r.pieces|);
        if f.cancelled(i) { return true, false, chunkWritten; }
        if f.short(i) { return false, false, chunkWritten; }
        WriteAppends(file.data, r.pieces[i]);
        file.Write(r.pieces[i]);
        totalWritten, chunkWritten := totalWritten + |r.pieces[i]|, chunkWritten + |r.pieces[i]|;
        i := i + 1;
      }
      return true, r.eof, chunkWritten;
    }

    /**
     One answer for the chunk at the end of the file: with the chunk when it is
     done, rolled back (to zero after an ignored range) when not. `seen` is the answer
     as far as it was read; a cancelled one has no clean end. `broken` is set when the file failed.
     */
    method Receive(r: Reply, end: int, f: Faults) returns (step: ChunkStep, broken: bool, ghost seen: Reply)
      requires InPlace() && (r.code == OK || r.code == PARTIAL)
      modifies this`totalWritten, this`totalSize, this`checkpoint, file`data, file`pos, file`durable
      ensures seen == r || seen == r.(eof := false)
      ensures broken ==> step.Refused?
      ensures Calm(f) ==>
        seen == r && !broken && (step.Refused? <==> AfterChunk(old(View()), validator, end, r).1.Refused?)
      ensures !step.Refused? ==> InPlace() && (View(), step) == AfterChunk(old(View()), validator, end, seen)
      ensures !step.Refused? ==> OnDisk() == Answered(old(OnDisk()), old(totalSize), end, validator, seen)
      ensures (checkpoint == old(checkpoint) && file.durable == old(file.durable)) || checkpoint == None
    {
      seen, broken := r, false;
      var start := totalWritten;
      if r.code == PARTIAL && r.start != start { return Refused, false, seen; }
      if r.validator != "" && validator != "" && r.validator != validator { return Refused, false, seen; }
      if r.code == OK && start > 0 {
        var ok := RollBack(0, f.restart);
        if !ok { return Refused, true, seen; }
        start, totalWritten, checkpoint := 0, 0, None;
        if r.length > 0 { totalSize := r.length; }
      }
      ghost var front := file.data;
      var stored, clean, chunkWritten := ReadChunk(r, f);
      if !stored { return Refused, true, seen; }
      if !clean { seen := r.(eof := false); }
      assert Data(seen) == Data(r);
      var expected := if r.code == PARTIAL && r.length <= 0 then end - start + 1 else r.length;
      if clean && (expected <= 0 || chunkWritten == expected) && chunkWritten > 0 {
        return Done(start, r.code == OK), false, seen;
      }
      assert file.data[..start] == front;
      var ok := RollBack(start, f.rollback);
      if !ok { return Refused, true, seen; }
      totalWritten := start;
      return Retry, false, seen;
    }

    /** A 200 or 206 answer from the version `now`, as one more of the run. */
    method Deliver(
        r: Reply, end: int, f: Faults, save: Save, ghost now: Version, ghost v: Version, ghost known: bool,
        ghost p: Phase, ghost d: Disk, ghost before: Received)
        returns (step: ChunkStep, broken: bool, ghost run: Received)
      requires Boundary(v) && (known ==> totalSize > 0) && SameObject(now, v) && (r.code == OK || r.code == PARTIAL)
      requires Fair(Got(r), now, v, totalWritten, validator, known, chunkSize)
      requires RunTo(p, d, v, before, Fetching(View(), end), OnDisk()) && Right(Fetching(View(), end), v, chunkSize)
      modifies this`totalWritten, this`totalSize, this`checkpoint, file`data, file`pos, file`durable
      ensures broken ==> step.Refused? && !Calm(f)
      ensures Calm(f) ==>
        var after := AfterChunk(old(View()), validator, end, r);
        if step.Refused? then after.1.Refused? else after == (View(), step)
      ensures !step.Refused? ==> Boundary(v) && (known ==> totalSize > 0)
      ensures step.Done? ==>
        var q := AfterDone(View(), step.start, step.full, chunkSize);
        && step.start < totalWritten && Right(q, v, chunkSize)
        && RunTo(p, d, v, run, q, if keepPartial then Saved(OnDisk(), validator, totalSize, save, false) else OnDisk())
      ensures step.Retry? ==>
        RunTo(p, d, v, run, Fetching(View(), end), OnDisk()) && Right(Fetching(View(), end), v, chunkSize)
      ensures (checkpoint == old(checkpoint) && file.durable == old(file.durable)) || checkpoint == None
    {
      hide AfterChunk, HonestRange, Right, RunTo, Fair, DiskNext, Saved, Answered, Next, Calm;
      ghost var held, disk := View(), OnDisk();
      ghost var seen;
      run := before;
      step, broken, seen := Receive(r, end, f);
      if !step.Refused? {
        run := OneMore(p, d, v, before, held, end, disk, r, Receipt(seen, now, save), known);
      }
    }

    /**
     Up to `maxAttempts` tries for the chunk at the end of the file; `run` are the answers of the whole download,
     which began at `p` with the disk `d`.
     */
    method FetchChunk(
        ghost versions: nat -> Version, answers: (nat, nat, int, string) -> Answer, saves: nat -> Save,
        faults: nat -> Faults, ghost v: Version, maxAttempts: nat, ghost quiet: nat, ghost known: bool, ghost p: Phase,
        ghost d: Disk, ghost before: Received, ghost h: Held, ghost n: nat)
        returns (step: ChunkStep, broken: bool, ghost run: Received, end: int)
      requires Boundary(v) && Known(versions, v) && (totalSize > 0 ==> totalWritten < totalSize)
      requires known ==> totalSize > 0
      requires RunTo(p, d, v, before, Begin(View(), chunkSize), OnDisk())
      requires AllFair(versions, answers, v, known, chunkSize, quiet)
      requires var plan := Plan(validator, chunkSize, maxAttempts);
        Reached(plan, faults, h, n, answers, attemptsUsed, NextChunk(plan, View()))
      modifies this`totalWritten, this`totalSize, this`attemptsUsed, this`checkpoint, file`data, file`pos, file`durable
      ensures broken ==> step.Refused? && !CalmUpTo(faults, attemptsUsed)
      ensures var plan := Plan(validator, chunkSize, maxAttempts);
        Reached(plan, faults, h, n, answers, attemptsUsed, StageOf(plan, step, View(), end, maxAttempts))
      ensures !step.Refused? ==> Boundary(v) && (known ==> totalSize > 0)
      ensures step.Done? ==>
        && old(attemptsUsed) < attemptsUsed < quiet && step.start < totalWritten
        && Right(AfterDone(View(), step.start, step.full, chunkSize), v, chunkSize)
        && RunTo(p, d, v, run, AfterDone(View(), step.start, step.full, chunkSize),
                 if keepPartial then Saved(OnDisk(), validator, totalSize, saves(attemptsUsed), false) else OnDisk())
      ensures step.Retry? ==> RunTo(p, d, v, run, Fetching(View(), end), OnDisk())
      ensures (checkpoint == old(checkpoint) && file.durable == old(file.durable)) || checkpoint == None
    {
      hide AfterChunk, HonestRange, Right, RunTo, Fair, DiskNext, Saved, Answered, Next;
      hide Reached, Behind, Checked, Calm, Begins, AfterDone, SameObject, Settled, Concat;
      ghost var plan := Plan(validator, chunkSize, maxAttempts);
      broken := false;
      end := totalWritten + chunkSize - 1;
      if totalSize > 0 && end >= totalSize { end := totalSize - 1; }
      BeginRight(View(), v, chunkSize);
      run := before;
      var attempt := 1;
      while attempt <= maxAttempts
        invariant 1 <= attempt <= maxAttempts + 1 && attemptsUsed == old(attemptsUsed) + attempt - 1
        invariant Boundary(v) && (known ==> totalSize > 0)
        invariant maxAttempts > 0 ==> attempt <= maxAttempts
        invariant Reached(plan, faults, h, n, answers, attemptsUsed,
                          if maxAttempts == 0 then OutOfTries else Asking(View(), end, attempt - 1))
        invariant RunTo(p, d, v, run, Fetching(View(), end), OnDisk()) && Right(Fetching(View(), end), v, chunkSize)
        invariant (checkpoint == old(checkpoint) && file.durable == old(file.durable)) || checkpoint == None
        decreases maxAttempts + 1 - attempt
      {
        ghost var stage := Asking(View(), end, attempt - 1);
        ReachedNext(plan, faults, h, n, answers, attemptsUsed, stage);
        attemptsUsed := attemptsUsed + 1;
        var f := faults(attemptsUsed);
        var answer := answers(attemptsUsed, totalWritten, end, validator);
        ghost var now := versions(attemptsUsed);
        assert Fair(answer, now, v, totalWritten, validator, known, chunkSize);
        if !Delivery(answer) { NoDelivery(plan, View(), end, attempt - 1, answer); }
        match answer {
          case Unreachable =>
            if attempt == maxAttempts { return Retry, false, run, end; }
          case Status(code) =>
            if !Retryable(code) || attempt == maxAttempts { return Retry, false, run, end; }
          case Got(r) =>
            if r.code != OK && r.code != PARTIAL {
              if !Retryable(r.code) || attempt == maxAttempts { return Retry, false, run, end; }
            } else {
              ghost var held := View();
              step, broken, run := Deliver(r, end, f, saves(attemptsUsed), now, v, known, p, d, run);
              ReceivedStage(plan, faults, h, n, answers, attemptsUsed, held, end, attempt - 1, r, step, View());
              if step.Refused? { return step, broken, run, end; }
              if step.Done? { return step, false, run, end; }
              if f.stopped {
                Interrupted(plan, faults, h, n, answers, attemptsUsed, StageOf(plan, step, View(), end, attempt),
                  OutOfTries);
              }
              if attempt == maxAttempts || f.stopped { return Retry, false, run, end; }
            }
        }
        if f.interrupted {
          Interrupted(plan, faults, h, n, answers, attemptsUsed, Asking(View(), end, attempt), Integrity);
          return Refused, false, run, end;
        }
        attempt := attempt + 1;
      }
      return Retry, false, run, end;
    }

    /** The answers `run` lead from phase `p` and disk `d` to the phase `q` and the disk `e`. */
    ghost predicate RunTo(p: Phase, d: Disk, v: Version, run: Received, q: Phase, e: Disk) {
      && validator == v.validator && TrustedRun(p, v, chunkSize, run)
      && Steps(p, validator, chunkSize, run) == q && Disks(p, d, keepPartial, validator, chunkSize, run) == e
    }

    /** One more answer in the run: the next phase and disk, still right. */
    lemma {:induction false} OneMore(
        p: Phase, d: Disk, v: Version, before: Received, h: Held, end: int, e: Disk, r: Reply, a: Receipt, known: bool)
        returns (run: Received)
      requires RunTo(p, d, v, before, Fetching(h, end), e) && e.data == h.data
      requires Begins(h, v) && Right(Fetching(h, end), v, chunkSize) && (known ==> h.totalSize > 0)
      requires Fair(Got(r), a.now, v, |h.data|, v.validator, known, chunkSize) && (r.code == OK || r.code == PARTIAL)
      requires SameObject(a.now, v) && (a.reply == r || a.reply == r.(eof := false))
      ensures RunTo(p, d, v, run, Next(Fetching(h, end), validator, chunkSize, a.reply),
        DiskNext(e, h.totalSize, end, keepPartial, validator, a))
      ensures Right(Next(Fetching(h, end), v.validator, chunkSize, a.reply), v, chunkSize)
      ensures var (h', step) := AfterChunk(h, v.validator, end, a.reply);
        var f := Answered(e, h.totalSize, end, validator, a.reply);
        !step.Refused? ==>
          && Begins(h', v) && (known ==> h'.totalSize > 0) && (step.Done? ==> step.start < |h'.data|)
          && Next(Fetching(h, end), validator, chunkSize, a.reply)
             == (if step.Done? then AfterDone(h', step.start, step.full, chunkSize) else Fetching(h', end))
          && DiskNext(e, h.totalSize, end, keepPartial, validator, a)
             == if step.Done? && keepPartial then Saved(f, validator, h'.totalSize, a.save, false) else f
    {
      SeenFair(h, end, v, chunkSize, r, a, known);
      hide Right, AfterChunk, Answered, Saved, HonestAnswer;
      run := before + [a];
      assert run[..|run| - 1] == before;
      NextRight(Fetching(h, end), v, chunkSize, a.reply, a.now);
      AnswerRight(h, end, v, a.reply, a.now);
    }

    lemma {:induction false} NoAnswers(p: Phase, d: Disk, v: Version)
      requires validator == v.validator
      ensures RunTo(p, d, v, [], p, d)
    {
    }

    lemma {:induction false} LedTo(p: Phase, d: Disk, v: Version, run: Received, q: Phase, e: Disk)
      requires RunTo(p, d, v, run, q, e)
      ensures TrustedRun(p, v, chunkSize, run) && Steps(p, validator, chunkSize, run) == q
    {
    }

    /** The checkpoint of a run is true. */
    lemma {:induction false} RunTrue(p: Phase, d: Disk, v: Version, run: Received, q: Phase, e: Disk)
      requires RunTo(p, d, v, run, q, e) && Right(p, v, chunkSize) && TrueIn(p, d, v)
      requires keepPartial ==> validator != ""
      ensures True(e, v)
    {
      RunKeepsTruth(p, d, keepPartial, v, chunkSize, run);
    }

    /** What the failure path leaves. */
    lemma {:induction false} GivenUp(p: Phase, d: Disk, v: Version, run: Received, h: Held, end: int, e: Disk, o: Save)
      requires RunTo(p, d, v, run, Fetching(h, end), e) && Right(p, v, chunkSize) && TrueIn(p, d, v)
      requires keepPartial ==> validator != ""
      ensures True(Exhausted(e, h.totalSize, keepPartial, validator, o), v)
        <==> !keepPartial || o.synced || !o.renamed || SyncedUp(p, d, keepPartial, validator, chunkSize, run)
    {
      ExhaustedExactly(p, d, keepPartial, v, chunkSize, run, o);
    }

    /** The checkpoint at a chunk boundary; `force` as on the failure path, where a failed sync is ignored. */
    method SaveCheckpoint(force: bool, o: Save)
      requires InPlace() && totalWritten > 0 && validator != ""
      modifies this`checkpoint, file`durable
      ensures OnDisk() == Saved(old(OnDisk()), validator, totalSize, Last(o), force) && InPlace()
    {
      if o.synced { file.Sync(); }
      if !o.synced && !force { return; }
      if o.renamed { checkpoint := Some(Checkpoint(validator, totalWritten, totalSize)); }
    }

    /** Behind a finished chunk. */
    method AtBoundary(o: Save)
      requires InPlace() && totalWritten > 0
      modifies this`checkpoint, file`durable
      ensures OnDisk() == (if keepPartial then Saved(old(OnDisk()), validator, totalSize, o, false) else old(OnDisk()))
      ensures InPlace()
    {
      if keepPartial && o.due { SaveCheckpoint(false, o); }
    }

    /** When all attempts for a chunk failed. */
    method OnFailure(o: Save)
      requires InPlace()
      modifies this`checkpoint, file`durable
      ensures OnDisk() == Exhausted(old(OnDisk()), totalSize, keepPartial, validator, o)
    {
      if keepPartial && totalWritten > 0 { SaveCheckpoint(true, o); }
    }

    /**
     The whole loop. `v` is the version the probe saw; whatever the origin holds
     later and whatever the network and the disk do, success publishes all of `v`.
     A run is finite: from request `quiet` on nobody answers. `saves(k)` is what comes
     of storing a checkpoint behind attempt `k`, `last` on the failure path, which
     `gaveUp` says was taken. If nothing goes wrong the answers decide whether the call succeeds.
     */
    method Download(
        ghost versions: nat -> Version, answers: (nat, nat, int, string) -> Answer, saves: nat -> Save, last: Save,
        faults: nat -> Faults, ghost v: Version, maxAttempts: nat, ghost quiet: nat)
        returns (r: Result, gaveUp: bool, ghost run: Received)
      requires Boundary(v) && Known(versions, v) && chunkSize > 0
      requires AllFair(versions, answers, v, totalSize > 0, chunkSize, quiet)
      modifies this, file
      ensures r.Published? ==>
        && r.file == file.data == v.body != []
        && TrustedRun(old(Begin(View(), chunkSize)), v, chunkSize, run)
        && Steps(old(Begin(View(), chunkSize)), validator, chunkSize, run) == Over(r.file)
      ensures CalmUpTo(faults, r.attempts) ==>
        DecidedByAnswers(Plan(validator, chunkSize, maxAttempts), old(View()), old(attemptsUsed), answers, r)
      ensures r.Failed? && old(Of(OnDisk(), v) && True(OnDisk(), v)) ==>
        && (True(OnDisk(), v) <==>
              !gaveUp || !keepPartial || last.synced || !last.renamed
              || SyncedUp(old(Begin(View(), chunkSize)), old(OnDisk()), keepPartial, validator, chunkSize, run))
    {
      hide Right, AllFair, RunTo, Of, True, SyncedUp, Saved, Exhausted;
      hide Reached, DecidedByAnswers, NextChunk, Checked;
      ghost var plan, h, n := Plan(validator, chunkSize, maxAttempts), View(), attemptsUsed;
      NothingReached(plan, faults, h, n, answers);
      ghost var known, p, d := totalSize > 0, Begin(View(), chunkSize), OnDisk();
      ghost var sound := Of(d, v) && True(d, v);
      run := [];
      NoAnswers(p, d, v);
      BeginRight(View(), v, chunkSize);
      while totalSize <= 0 || totalWritten < totalSize
        invariant Boundary(v) && (known ==> totalSize > 0)
        invariant RunTo(p, d, v, run, Begin(View(), chunkSize), OnDisk()) &&
          Right(Begin(View(), chunkSize), v, chunkSize)
        invariant sound ==> True(OnDisk(), v)
        invariant Reached(plan, faults, h, n, answers, attemptsUsed, NextChunk(plan, View()))
        decreases quiet - attemptsUsed
      {
        var step;
        ghost var before := OnDisk();
        var broken, end;
        step, broken, run, end :=
          FetchChunk(versions, answers, saves, faults, v, maxAttempts, quiet, known, p, d, run, h, n);
        if sound { StillTrue(before, OnDisk(), v); }
        if step.Refused? {
          if CalmUpTo(faults, attemptsUsed) {
            ReachedEnd(plan, faults, h, n, answers, attemptsUsed, Integrity, Failed(attemptsUsed, false));
          }
          return Failed(attemptsUsed, broken), false, run;
        }
        if step.Retry? {
          ghost var e := OnDisk();
          OnFailure(last);
          if sound { GivenUp(p, d, v, run, View(), end, e, last); }
          if CalmUpTo(faults, attemptsUsed) {
            ReachedEnd(plan, faults, h, n, answers, attemptsUsed, OutOfTries, Failed(attemptsUsed, false));
          }
          return Failed(attemptsUsed, false), true, run;
        }
        AtBoundary(saves(attemptsUsed));
        if sound { RunTrue(p, d, v, run, AfterDone(View(), step.start, step.full, chunkSize), OnDisk()); }
        if step.full || (totalSize <= 0 && totalWritten - step.start < chunkSize) { break; }
      }
      assert RunTo(p, d, v, run, Settled(View()), OnDisk()) && Right(Settled(View()), v, chunkSize);
      NoneLeft(plan, View());
      if CalmUpTo(faults, attemptsUsed) {
        ReachedEnd(plan, faults, h, n, answers, attemptsUsed, Checked(View()),
                   if Checked(View()).Finished? then Published(file.data, attemptsUsed)
                     else Failed(attemptsUsed, false));
      }
      if totalWritten == 0 || (totalSize > 0 && totalWritten != totalSize) {
        return Failed(attemptsUsed, false), false, run;
      }
      SettledRight(View(), v, chunkSize);
      LedTo(p, d, v, run, Settled(View()), OnDisk());
      if !faults(attemptsUsed).synced { return Failed(attemptsUsed, true), false, run; }
      file.Sync();
      return Published(file.data, attemptsUsed), false, run;
    }
  }

  lemma {:induction false} StillTrue(d: Disk, e: Disk, v: Version)
    requires True(d, v) && ((e.durable == d.durable && e.checkpoint == d.checkpoint) || e.checkpoint == None)
    ensures True(e, v)
  {
  }

  /** Behind the loop. */
  lemma {:induction false} NoneLeft(p: Plan, h: Held)
    ensures h.totalSize > 0 && |h.data| >= h.totalSize ==> NextChunk(p, h) == Checked(h)
    ensures Checked(h) == if h.data == [] ||
      (h.totalSize > 0 && |h.data| != h.totalSize) then TooShort else Finished(h.data)
  {
  }

  lemma {:induction false} SettledRight(h: Held, v: Version, chunkSize: nat)
    requires Right(Settled(h), v, chunkSize) && h.data != [] && (h.totalSize > 0 ==> |h.data| == h.totalSize)
    ensures Settled(h) == Over(h.data) && h.data == v.body
  {
  }

  /**
   One call from start to end, behind a crash that left `left` in the staged file;
   a checkpoint of the probed version was true. Success publishes that version.
   */
  method FileDownloadChunked(
      left: Bytes, stored: Option<Checkpoint>, ghost durable: Bytes, ghost v: Version, validator: string,
      totalSize: int, chunkSize: nat, persistent: bool, probes: nat, ghost versions: nat -> Version,
      answers: (nat, nat, int, string) -> Answer, saves: nat -> Save, last: Save, faults: nat -> Faults,
      maxAttempts: nat, ghost quiet: nat)
      returns (r: Result)
    requires validator == v.validator && (totalSize > 0 ==> totalSize == |v.body|) && chunkSize > 0
    requires stored.Some? && stored.value.validator == v.validator ==> Truthful(stored, v, durable)
    requires durable <= left && Known(versions, v)
    requires AllFair(versions, answers, v, totalSize > 0, chunkSize, quiet)
    ensures r.Published? ==> r.file == v.body != []
    ensures CalmUpTo(faults, r.attempts) ==>
      var usable := persistent && validator != "" && stored.Some? && stored.value.bytes > 0
        && stored.value.validator == validator
        && (stored.value.total > 0 && totalSize > 0 ==> stored.value.total == totalSize);
      DecidedByAnswers(Plan(validator, chunkSize, maxAttempts),
        Held(if usable then Take(left, stored.value.bytes) else [], totalSize), probes, answers, r)
  {
    hide DecidedByAnswers;
    var file := new StagedFile(left);
    if stored.Some? && stored.value.validator == v.validator {
      assert Take(left, stored.value.bytes) == durable[..stored.value.bytes];
    }
    var chunked := new Chunked(file, validator, totalSize, chunkSize, persistent, stored, probes);
    ghost var run;
    var gaveUp;
    r, gaveUp, run := chunked.Download(versions, answers, saves, last, faults, v, maxAttempts, quiet);
  }
}
