/**
 reliableFileDownload of go_backend/extension_runtime_transfer.go as it runs: the
 staged file, the retry loop and its checkpoints, with every fault of the disk and
 every interruption a parameter.
 */
module ReliableDownload {
  import opened Options
  import opened ObjectOrigin
  import opened ReliableTransfer
  import opened TransferOutcome

  /**
   What may go wrong in one attempt: the restarts before and behind the body, a short write of a piece, the
   interruption behind it, and the final sync.
   */
  datatype Faults = Faults(before: Rewind, short: nat -> bool, behind: Rewind, interrupted: bool, synced: bool)

  ghost predicate Calm(f: Faults) {
    f.before.Fine? && f.behind.Fine? && (forall i :: !f.short(i)) && !f.interrupted && f.synced
  }

  class Transfer {
    const file: StagedFile
    const resume: bool
    const keepPartial: bool
    var written: nat
    var validator: string
    var contentLength: int
    var checkpoint: Option<Checkpoint>

    /**
     Opening the staged file: a stored checkpoint that passes
     loadTransferCheckpoint is continued.
     */
    constructor (file: StagedFile, resume: bool, persistent: bool, stored: Option<Checkpoint>)
      modifies file
      ensures this.file == file && this.resume == resume && keepPartial == (resume && persistent)
      ensures var usable := resume && persistent && Loadable(stored);
        && file.data == (if usable then Take(old(file.data), stored.value.bytes) else [])
        && file.durable == Take(old(file.durable), |file.data|)
        && validator == (if usable then stored.value.validator else "")
        && contentLength == (if usable then stored.value.total else 0)
        && checkpoint == (if usable then stored else None)
      ensures file.pos == written == |file.data|
    {
      this.file, this.resume, this.keepPartial := file, resume, resume && persistent;
      if resume && persistent && Loadable(stored) {
        written := if stored.value.bytes <= |file.data| then stored.value.bytes else |file.data|;
        validator, contentLength, checkpoint := stored.value.validator, stored.value.total, stored;
      } else {
        written, validator, contentLength, checkpoint := 0, "", 0, None;
      }
      new;
      file.Truncate(written);
      file.Seek(written);
    }

    ghost function View(): Disk
      reads this, file
    {
      Disk(file.data, file.durable, checkpoint)
    }

    ghost predicate InPlace()
      reads this, file
    {
      file.pos == written == |file.data| && file.durable <= file.data
    }

    /** The file holds the first `written` bytes of `held`, and anything there can be resumed. */
    ghost predicate Holds(held: Version)
      reads this, file
    {
      && InPlace() && (keepPartial ==> resume) && (checkpoint.Some? ==> keepPartial)
      && (written > 0 ==> resume && validator != "" && validator == held.validator && file.data <= held.body)
    }

    /** saveCheckpoint: data first, then the pointer to it. */
    method SaveCheckpoint(o: Save)
      requires InPlace()
      modifies this`checkpoint, file`durable
      ensures View() == if keepPartial then Saved(old(View()), validator, contentLength, Last(o), false)
        else old(View())
      ensures file.durable <= file.data
    {
      if !keepPartial || validator == "" || written == 0 { return; }
      if !o.synced { return; }
      file.Sync();
      if o.renamed { checkpoint := Some(Checkpoint(validator, written, contentLength)); }
    }

    /** Truncate and seek back to the start; either may fail. */
    method Restart(f: Rewind) returns (ok: bool)
      modifies this`written, file`data, file`pos, file`durable
      ensures ok <==> f.Fine?
      ensures ok ==> written == 0 && file.data == [] && file.pos == 0 && file.durable == []
      ensures !ok ==> View() == old(View()) || View() == Disk([], [], old(checkpoint))
    {
      if f.Stuck? { return false; }
      file.Truncate(0);
      if f.Lost? { return false; }
      file.Seek(0);
      written := 0;
      return true;
    }

    /** The read loop of one answer: everything it sends goes behind what is there, unless the file fails. */
    method ReadBody(r: Reply, io: nat -> Save, short: nat -> bool) returns (stored: bool, ghost read: nat)
      requires InPlace()
      modifies this`written, this`checkpoint, file
      ensures stored <==> forall i: nat :: i < |r.pieces| ==> !short(i)
      ensures InPlace() && read <= |r.pieces| && (stored ==> read == |r.pieces|)
      ensures file.data == old(file.data) + Concat(r.pieces, read)
      ensures keepPartial ==> View() == ReadIn(old(View()), r, read, validator, contentLength, io)
      ensures !keepPartial ==> checkpoint == old(checkpoint)
    {
      hide Saved, WrittenAt, ReadIn, Concat;
      ghost var before := View();
      ReadNone(before, r, validator, contentLength, io);
      var i := 0;
      while i < |r.pieces|
        invariant i <= |r.pieces| && InPlace() && file.data == before.data + Concat(r.pieces, i)
        invariant forall j: nat :: j < i ==> !short(j)
        invariant keepPartial ==> View() == ReadIn(before, r, i, validator, contentLength, io)
        invariant !keepPartial ==> checkpoint == before.checkpoint
      {
        if short(i) { return false, i; }
        WriteAppends(file.data, r.pieces[i]);
        file.Write(r.pieces[i]);
        written := written + |r.pieces[i]|;
        ReadNext(before, r, i, validator, contentLength, io, View());
        if keepPartial && validator != "" && io(i).due { SaveCheckpoint(io(i)); }
        i := i + 1;
      }
      return true, i;
    }

    /**
     What one 2xx answer leads to; `v` is the version the origin holds. Whatever
     it is, the file then begins `v`, and it is all of `v` when complete.
     */
    method Receive(reply: Reply, asked: nat, io: nat -> Save, f: Faults, ghost held: Version, ghost v: Version)
      returns (step: Step)
      requires Holds(held) && SameObject(held, v)
      requires asked == Range() && Polite(Got(reply), v, asked, validator)
      modifies this, file
      ensures Calm(f) ==> !step.Broken?
      ensures step.Again? ==> Holds(v)
      ensures step.Complete? ==> file.data == v.body && file.data != []
      ensures !step.Broken? ==>
        (Partial(file.data, validator), step) == After(old(Partial(file.data, validator)), resume, reply)
      ensures !step.Broken? && keepPartial ==> View() == DiskAfter(old(View()), old(validator), reply, io)
      ensures !keepPartial ==> checkpoint.None?
      ensures step.Broken? && keepPartial && old(Of(View(), v) && True(View(), v)) && v.validator != ""
        && SizeRight(reply, v, asked) && !old(Restarts(View(), validator, reply))
        ==> True(View(), v)
    {
      ghost var s, d := Partial(file.data, validator), View();
      Takes(s, resume, reply, held, v);
      if Refuses(s, reply) { WhenRefused(s, d, resume, reply, io); }
      hide ReadIn, Saved, Polite, SizeRight, Of, True, SameObject, After, DiskAfter;
      var rangeFrom := asked;
      if rangeFrom > 0 && reply.code == PARTIAL && reply.start != rangeFrom { return GiveUp; }
      if rangeFrom > 0 && reply.code == PARTIAL && reply.validator != "" && validator != ""
        && reply.validator != validator
      {
        return GiveUp;
      }
      assert !Refuses(s, reply);
      if rangeFrom > 0 && reply.code == OK {
        var ok := Restart(f.before);
        if !ok { return Broken; }
        rangeFrom := 0;
      }
      if reply.validator != "" { validator := reply.validator; }
      contentLength := TotalLength(reply, rangeFrom);
      ghost var e := View();
      assert keepPartial ==> e == Emptied(d, s.validator, reply);
      AfterBody(s, d, resume, reply, io, e.data + Data(reply));
      step := TakeBody(reply, io, f);
      if step.Broken? && keepPartial && v.validator != "" { ReadBroken(d, s.validator, reply, io, v, View()); }
    }

    /** The body of an answer that is taken, and what follows it. */
    method TakeBody(reply: Reply, io: nat -> Save, f: Faults) returns (step: Step)
      requires InPlace() && (keepPartial ==> resume)
      modifies this, file
      ensures Calm(f) ==> !step.Broken?
      ensures !step.Broken? ==> InPlace()
      ensures !keepPartial ==> checkpoint == old(checkpoint) || checkpoint.None?
      ensures var data, total := old(file.data) + Data(reply), old(contentLength);
        var e := ReadIn(old(View()), reply, |reply.pieces|, old(validator), total, io);
        if step.Broken? then
          keepPartial && old(validator) != "" ==> KeptSoFar(old(View()), reply, old(validator), total, io, View())
        else if reply.eof && (total <= 0 || |data| == total) then
          && step == (if data == [] then GiveUp else Complete) && file.data == data && validator == old(validator)
          && (keepPartial ==> View() == e)
        else if !resume || old(validator) == "" then
          && step == Again && validator == "" && View() == Disk([], [], None)
        else
          && step == Again && validator == old(validator) && file.data == data
          && (keepPartial ==> View() == Saved(e, validator, total, Last(io(|reply.pieces|)), false))
    {
      hide ReadIn, Saved;
      ghost var d, name, total := View(), validator, contentLength;
      var stored, read := ReadBody(reply, io, f.short);
      assert keepPartial ==> KeptSoFar(d, reply, name, total, io, View());
      if !stored { return Broken; }
      Nameless(total, io(|reply.pieces|), View());
      if reply.eof && (contentLength <= 0 || written == contentLength) {
        return if written == 0 then GiveUp else Complete;
      }
      SaveCheckpoint(io(|reply.pieces|));
      if !resume || validator == "" {
        var ok := Restart(f.behind);
        if !ok { return Broken; }
        validator, checkpoint := "", None;
      }
      return Again;
    }

    /** Where the next request starts. */
    function Range(): nat
      reads this
    {
      if resume && written > 0 && validator != "" then written else 0
    }

    /** One attempt: no answer, an error status, or a 2xx answer; `more` is the answer that was taken. */
    method Attempt(answer: Answer, io: nat -> Save, f: Faults, ghost held: Version, ghost v: Version)
        returns (step: Step, ghost now: Version, ghost more: seq<Taken>)
      requires Holds(held) && SameObject(held, v) && Polite(answer, v, Range(), validator)
      modifies this, file
      ensures Calm(f) ==> !step.Broken?
      ensures !step.Broken? ==>
        Attempted(old(Partial(file.data, validator)), resume, answer, Partial(file.data, validator), step)
      ensures now == if answer.Got? then v else held
      ensures step.Again? ==> Holds(now)
      ensures step.Complete? ==> file.data == now.body && file.data != [] && answer.Got?
      ensures step.Broken? ==> answer.Got?
      ensures keepPartial ==> Accounts(old(View()), old(validator), answer, io, v, step, View(), validator, more)
    {
      hide Polite, DiskAfter, Of, True, Attempted, After;
      now, more := held, [];
      if !answer.Got? { AttemptedWithout(Partial(file.data, validator), resume, answer); }
      else { AttemptedWith(Partial(file.data, validator), resume, answer.reply); }
      match answer {
        case Unreachable =>
          // Here the code would restart a partial that cannot be resumed; there never is one.
          assert written > 0 ==> resume && validator != "";
          return Again, now, more;
        case Status(code) =>
          return if Retryable(code) then Again else GiveUp, now, more;
        case Got(reply) =>
          now := v;
          step := Receive(reply, Range(), io, f, held, v);
          if !step.Broken? { more := [Taken(reply, io, v)]; }
      }
    }

    /**
     One call. `versions(k)` is what the origin holds when attempt `k` asks,
     `answers(k, from, ifRange)` what it or the network makes of the request,
     `io(k, i)` what comes of its opportunities to store a checkpoint, `faults(k)` what goes wrong
     in it; `prior` is the version an accepted checkpoint was written for. `run` are the answers
     taken. If nothing goes wrong the answers decide: the call publishes exactly if one completes
     the file and all before it let it go on.
     */
    method Download(
        ghost versions: nat -> Version, answers: (nat, nat, string) -> Answer, io: (nat, nat) -> Save,
        faults: nat -> Faults, ghost prior: Version, maxAttempts: nat)
        returns (r: Result, ghost run: seq<Taken>)
      requires maxAttempts >= 1 && Faithful(versions) && Known(versions, prior)
      requires forall k, from, ifRange :: Polite(answers(k, from, ifRange), versions(k), from, ifRange)
      requires Holds(prior) && (written > 0 ==> contentLength <= 0 || contentLength == |prior.body|)
      modifies this, file
      ensures r.Published? ==>
        && r.file == file.data && r.file != []
        && ((old(written) > 0 && r.file == prior.body)
            || exists k :: 1 <= k <= maxAttempts && versions(k).body == r.file)
      ensures (forall k: nat :: k <= r.attempts ==> Calm(faults(k))) ==>
        if old(written) > 0 && old(written) == old(contentLength) then r == Published(old(file.data), 0)
        else DecidedByAnswers(old(Partial(file.data, validator)), resume, answers, maxAttempts, r)
      ensures r.Published? && r.attempts > 0 ==> r.attempts <= maxAttempts && versions(r.attempts).body == r.file
      ensures r.Failed? ==> r.attempts <= maxAttempts
      ensures r.Failed? && keepPartial ==>
        Accounted(old(View()), old(validator), run, View(), r.storage, versions, answers, prior)
    {
      hide Polite, Accounts, Accounted, Going, Steady, Of, True;
      run := [];
      hide Attempted, GoesOnBefore, DecidedByAnswers, Left;
      if written > 0 && contentLength > 0 && written == contentLength {
        assert file.data == prior.body;
        Untouched(View(), validator, versions, answers, prior);
        if !faults(0).synced { return Failed(0, true), run; }
        file.Sync();
        return Published(file.data, 0), run;
      }
      ghost var held, d, name, s := prior, View(), validator, Partial(file.data, validator);
      Start(d, name, versions, answers, prior);
      NothingAsked(s, resume, answers);
      var attempt := 1;
      while attempt <= maxAttempts
        invariant 1 <= attempt <= maxAttempts + 1
        invariant Holds(held) && Known(versions, held)
        invariant keepPartial ==> Going(d, name, run, View(), validator, versions, answers, prior)
        invariant GoesOnBefore(s, resume, answers, attempt)
        invariant Partial(file.data, validator) == Left(s, resume, answers, attempt - 1)
        decreases maxAttempts + 1 - attempt
      {
        var k: nat, from := attempt, Range();
        var row: nat -> Save := (i: nat) => io(k, i);
        var answer := answers(k, from, validator);
        assert Polite(answer, versions(k), from, validator);
        ghost var before, under, more := View(), validator, [];
        ghost var t := Partial(file.data, validator);
        var step;
        step, held, more := Attempt(answer, row, faults(k), held, versions(k));
        if keepPartial {
          Goes(d, name, run, before, under, versions, answers, prior, k, answer, row, step, View(), validator, more);
        }
        run := run + more;
        if !step.Broken? {
          OneAttempt(s, resume, answers, maxAttempts, k, t, answer, Partial(file.data, validator), step);
        }
        if step.Broken? { return Failed(k, true), run; }
        if step.Complete? {
          if !faults(k).synced { return Failed(k, true), run; }
          file.Sync();
          return Published(file.data, k), run;
        }
        if step.GiveUp? || k == maxAttempts || faults(k).interrupted { return Failed(k, false), run; }
        attempt := attempt + 1;
      }
      if keepPartial { Settled(d, name, run, View(), validator, versions, answers, prior); }
      NoneCompletes(s, resume, answers, maxAttempts);
      return Failed(maxAttempts, false), run;
    }
  }

  /** What one attempt did to the disk. */
  ghost predicate Accounts(
      d: Disk, name: string, a: Answer, io: nat -> Save, v: Version, step: Step, e: Disk, name': string,
        more: seq<Taken>)
  {
    && more == (if a.Got? && !step.Broken? then [Taken(a.reply, io, v)] else [])
    && (!step.Broken? ==>
          (e, name') == if a.Got? then
              (DiskAfter(d, name, a.reply, io), After(Partial(d.data, name), true, a.reply).0.validator)
            else (d, name))
    && (step.Broken? && Of(d, v) && True(d, v) && v.validator != "" ==>
          a.Got? &&
          (SizeRight(a.reply, v, AskFrom(Partial(d.data, name), true)) && !Restarts(d, name, a.reply) ==> True(e, v)))
  }

  /** A call that goes on: the disk is that of the run so far. */
  ghost predicate Going(
      d: Disk, name: string, run: seq<Taken>, e: Disk, held: string,
      versions: nat -> Version, answers: (nat, nat, string) -> Answer, prior: Version)
  {
    && (e, held) == Disks(d, name, run)
    && (Of(d, prior) && Steady(versions, answers, prior) ==>
          && (d.data != [] ==> name == prior.validator) && RunOf(d, name, run, prior)
          && (True(d, prior) && NeverRestarts(answers) ==> True(e, prior)))
  }

  /**
   A call that failed: the disk is that of the run, and if one version was there all
   the time the checkpoint on it is true exactly as the answers and outcomes say; if no
   range was ignored it is true even if the file failed.
   */
  ghost predicate Accounted(
      d: Disk, name: string, run: seq<Taken>, e: Disk, storage: bool,
      versions: nat -> Version, answers: (nat, nat, string) -> Answer, prior: Version)
  {
    && (!storage ==> e == Disks(d, name, run).0)
    && (Of(d, prior) && Steady(versions, answers, prior) ==>
          && (!storage ==> (True(e, prior) <==> StaysTrue(d, name, run, prior)))
          && (True(d, prior) && NeverRestarts(answers) ==> True(e, prior)))
  }

  lemma {:induction false} Start(
      d: Disk, name: string, versions: nat -> Version, answers: (nat, nat, string) -> Answer, prior: Version)
    requires d.data != [] ==> name == prior.validator
    ensures Going(d, name, [], d, name, versions, answers, prior)
  {
  }

  lemma {:induction false} Untouched(
      d: Disk, name: string, versions: nat -> Version, answers: (nat, nat, string) -> Answer, prior: Version)
    ensures Accounted(d, name, [], d, true, versions, answers, prior)
  {
  }

  lemma {:induction false} Settled(
      d: Disk, name: string, run: seq<Taken>, e: Disk, held: string,
      versions: nat -> Version, answers: (nat, nat, string) -> Answer, prior: Version)
    requires Going(d, name, run, e, held, versions, answers, prior)
    ensures Accounted(d, name, run, e, false, versions, answers, prior)
  {
    hide Of, True;
    if Of(d, prior) && Steady(versions, answers, prior) { RunExactly(d, name, run, prior); }
  }

  /** One attempt more. */
  lemma {:induction false} Goes(
      d: Disk, name: string, run: seq<Taken>, e: Disk, held: string,
      versions: nat -> Version, answers: (nat, nat, string) -> Answer, prior: Version,
      k: nat, a: Answer, io: nat -> Save, step: Step, f: Disk, held': string, more: seq<Taken>)
    requires Going(d, name, run, e, held, versions, answers, prior)
    requires a == answers(k, AskFrom(Partial(e.data, held), true), held)
    requires Polite(a, versions(k), AskFrom(Partial(e.data, held), true), held)
    requires Accounts(e, held, a, io, versions(k), step, f, held', more)
    ensures !step.Broken? ==> Going(d, name, run + more, f, held', versions, answers, prior)
    ensures Accounted(d, name, run + more, f, step.Broken?, versions, answers, prior)
    ensures Accounted(d, name, run + more, f, true, versions, answers, prior)
  {
    hide Of, True, SizeRight, Honest, DiskAfter, After, StaysTrue, AskFrom;
    var steady := Of(d, prior) && Steady(versions, answers, prior);
    if steady { RunExactly(d, name, run, prior); }
    assert run + [] == run;
    if a.Got? {
      if steady { Sure(versions, answers, prior, k, a, e, held); }
      if !step.Broken? {
        var t := Taken(a.reply, io, versions(k));
        assert (run + [t])[..|run + [t]| - 1] == run;
        if steady {
          CheckpointExactly(e, held, a.reply, io, prior);
          RunExactly(d, name, run + [t], prior);
        }
      }
    }
  }

  /** An answer of a steady origin is one of the version, and does not restart unless one may. */
  lemma {:induction false} Sure(
      versions: nat -> Version, answers: (nat, nat, string) -> Answer, prior: Version, k: nat, a: Answer, e: Disk,
      held: string)
    requires Steady(versions, answers, prior) && a.Got?
    requires a == answers(k, AskFrom(Partial(e.data, held), true), held)
    requires Polite(a, versions(k), AskFrom(Partial(e.data, held), true), held)
    ensures versions(k) == prior && AnswerOf(Partial(e.data, held), a.reply, prior)
    ensures NeverRestarts(answers) ==> !Restarts(e, held, a.reply)
  {
    hide SizeRight, Honest;
    var asked := AskFrom(Partial(e.data, held), true);
    assert Sized(answers(k, asked, held), prior, asked);
    assert NeverRestarts(answers) ==> NoRestart(answers(k, asked, held), asked);
  }

  /** What an answer brings: bytes of the origin's version behind the front of it, under its name. */
  lemma {:induction false} Takes(s: Partial, resume: bool, r: Reply, held: Version, v: Version)
    requires Polite(Got(r), v, AskFrom(s, resume), s.validator) && SameObject(held, v)
    requires s.data != [] ==>
      resume && s.validator != "" && s.validator == held.validator && s.data <= held.body
    ensures (if r.validator != "" then r.validator else s.validator) == v.validator
    ensures !Refuses(s, r) ==>
      && Emptied(Disk(s.data, [], None), s.validator, r).data + Data(r) <= v.body
      && (r.code == PARTIAL ==> s.data <= v.body && AskFrom(s, resume) > 0)
      && (After(s, resume, r).1 == Complete ==> After(s, resume, r).0.data == v.body)
  {
    hide SizeRight;
    if !Refuses(s, r) {
      Appended(if r.code == PARTIAL then s.data else [], r, v.body);
      assert [] + Data(r) == Data(r);
      if After(s, resume, r).1 == Complete { CompletedExactly(s, resume, r, v); }
    }
  }

  lemma {:induction false} WhenRefused(s: Partial, d: Disk, resume: bool, r: Reply, io: nat -> Save)
    requires Refuses(s, r) && s.data == d.data && (s.data != [] ==> resume)
    ensures After(s, resume, r) == (s, GiveUp) && DiskAfter(d, s.validator, r, io) == d
  {
  }

  /** The functions once the body is read. */
  lemma {:induction false} AfterBody(s: Partial, d: Disk, resume: bool, r: Reply, io: nat -> Save, data: Bytes)
    requires !Refuses(s, r) && s.data == d.data && (s.data != [] ==> resume)
    requires var f := Emptied(d, s.validator, r); data == f.data + Data(r)
    ensures var name := if r.validator != "" then r.validator else s.validator;
      var total := TotalLength(r, Front(r, AskFrom(s, resume)));
      var e := ReadIn(Emptied(d, s.validator, r), r, |r.pieces|, name, total, io);
      if r.eof && (total <= 0 || |data| == total) then
        && After(s, resume, r) == (Partial(data, name), if data == [] then GiveUp else Complete)
        && (resume ==> DiskAfter(d, s.validator, r, io) == e)
      else if !resume || name == "" then
        && After(s, resume, r) == (Partial([], ""), Again)
        && (resume ==> DiskAfter(d, s.validator, r, io) == Disk([], [], None))
      else
        && After(s, resume, r) == (Partial(data, name), Again)
        && DiskAfter(d, s.validator, r, io) == Saved(e, name, total, Last(io(|r.pieces|)), false)
  {
  }

  lemma {:induction false} ReadNone(d: Disk, r: Reply, name: string, total: int, io: nat -> Save)
    ensures ReadIn(d, r, 0, name, total, io) == d && d.data + Concat(r.pieces, 0) == d.data
  {
  }

  /** One more piece was written: what is left to do is to store a checkpoint, if one is due. */
  lemma {:induction false} ReadNext(d: Disk, r: Reply, i: nat, name: string, total: int, io: nat -> Save, e: Disk)
    requires i < |r.pieces|
    ensures d.data + Concat(r.pieces, i) + r.pieces[i] == d.data + Concat(r.pieces, i + 1)
    ensures e == (var f := ReadIn(d, r, i, name, total, io); f.(data := f.data + r.pieces[i])) ==>
      ReadIn(d, r, i + 1, name, total, io) == if name != "" &&
        io(i).due then Saved(e, name, total, Last(io(i)), false) else e
  {
  }

  lemma {:induction false} Nameless(total: int, o: Save, e: Disk)
    ensures Saved(e, "", total, Last(o), false) == e
  {
  }

  /** Some of the pieces were read. */
  ghost predicate KeptSoFar(d: Disk, r: Reply, name: string, total: int, io: nat -> Save, e: Disk) {
    exists read :: 0 <= read <= |r.pieces| && e == ReadIn(d, r, read, name, total, io)
  }

  /** The file failed while an answer was read: what the disk keeps is still true. */
  lemma {:induction false} ReadBroken(d: Disk, name: string, r: Reply, io: nat -> Save, v: Version, e: Disk)
    requires Emptied(d, name, r).data + Data(r) <= v.body
    requires !Refuses(Partial(d.data, name), r) && (r.code == PARTIAL ==> AskFrom(Partial(d.data, name), true) > 0)
    requires var total := TotalLength(r, Front(r, AskFrom(Partial(d.data, name), true)));
      KeptSoFar(Emptied(d, name, r), r, v.validator, total, io, e)
    ensures Of(d, v) && True(d, v) && !Restarts(d, name, r) && SizeRight(r, v, AskFrom(Partial(d.data, name), true))
      ==> True(e, v)
  {
    hide Of, True;
    var asked := AskFrom(Partial(d.data, name), true);
    var total := TotalLength(r, Front(r, asked));
    if Of(d, v) && !Restarts(d, name, r) && SizeRight(r, v, asked) {
      var read :| 0 <= read <= |r.pieces| && e == ReadIn(Emptied(d, name, r), r, read, v.validator, total, io);
      ReadInExactly(d, r, read, total, io, v);
    }
  }

  /** One version all the time, and sizes inferred rightly. */
  ghost predicate Steady(versions: nat -> Version, answers: (nat, nat, string) -> Answer, prior: Version) {
    && prior.validator != "" && (forall k :: versions(k) == prior)
    && forall k, from, ifRange :: Sized(answers(k, from, ifRange), prior, from)
  }

  ghost predicate Sized(a: Answer, v: Version, from: nat) {
    a.Got? ==> SizeRight(a.reply, v, from)
  }

  /** No range that was asked for is ignored. */
  ghost predicate NeverRestarts(answers: (nat, nat, string) -> Answer) {
    forall k, from, ifRange :: NoRestart(answers(k, from, ifRange), from)
  }

  predicate NoRestart(a: Answer, from: nat) {
    a.Got? && from > 0 ==> a.reply.code == PARTIAL
  }

  /**
   An origin as assumed; while a name is held, no answer comes without one, and an
   answer that does not say how long the object is ends only where the object ends.
   An origin that never sends names is never asked under one.
   */
  ghost predicate Polite(a: Answer, v: Version, from: nat, ifRange: string) {
    && Honest(a, v, from, ifRange) && TwoCodes(a, from)
    && (a.Got? ==> (ifRange != "" ==> a.reply.validator != "") && EndsObject(a.reply, v, from))
  }

  /**
   One call from start to end, behind a crash that left `left` in the staged file:
   a checkpoint that was true is resumed, whatever is published is one version, and if
   nothing goes wrong the answers decide whether something is.
   */
  method ReliableFileDownload(
      left: Bytes, resume: bool, persistent: bool, stored: Option<Checkpoint>, ghost durable: Bytes,
      ghost prior: Version, ghost versions: nat -> Version, answers: (nat, nat, string) -> Answer,
      io: (nat, nat) -> Save, faults: nat -> Faults, maxAttempts: nat)
      returns (r: Result)
    requires Truthful(stored, prior, durable) && durable <= left
    requires maxAttempts >= 1 && Faithful(versions) && Known(versions, prior)
    requires forall k, from, ifRange :: Polite(answers(k, from, ifRange), versions(k), from, ifRange)
    ensures r.Published? ==>
      && r.file != []
      && ((stored.Some? && r.file == prior.body) || exists k :: 1 <= k <= maxAttempts && versions(k).body == r.file)
    ensures r.Failed? ==> r.attempts <= maxAttempts
    ensures (forall k: nat :: k <= r.attempts ==> Calm(faults(k))) ==>
      if resume && persistent && stored.Some? && stored.value.validator != "" && stored.value.bytes > 0 then
        var s := Partial(Take(left, stored.value.bytes), stored.value.validator);
        if s.data != [] && |s.data| == stored.value.total then r == Published(s.data, 0)
        else DecidedByAnswers(s, resume, answers, maxAttempts, r)
      else DecidedByAnswers(Partial([], ""), resume, answers, maxAttempts, r)
  {
    hide DecidedByAnswers, Polite;
    var file := new StagedFile(left);
    if stored.Some? { assert Take(left, stored.value.bytes) == durable[..stored.value.bytes]; }
    var transfer := new Transfer(file, resume, persistent, stored);
    ghost var run;
    r, run := transfer.Download(versions, answers, io, faults, prior, maxAttempts);
  }
}
