/**
 When the reliable download of go_backend/extension_runtime_transfer.go succeeds,
 told by the answers alone: which of them let it go on, which complete the file,
 and what each leaves to the next request.
 */
module TransferOutcome {
  import opened Options
  import opened ObjectOrigin
  import opened ReliableTransfer

  type Origin = (nat, nat, string) -> Answer

  // ---------------------------------------------------------------- one answer

  /** The first byte a request asks for. */
  function FirstByte(s: Partial, resume: bool): nat {
    if resume && s.validator != "" then |s.data| else 0
  }

  /** A range that is not the one asked for, or of another version. */
  predicate Mismatch(s: Partial, resume: bool, r: Reply) {
    && r.code == 206 && FirstByte(s, resume) > 0
    && (r.start != FirstByte(s, resume) || (r.validator != "" && r.validator != s.validator))
  }

  /** The file when all pieces of the answer are written; a full answer to a range request starts it anew. */
  function Filled(s: Partial, resume: bool, r: Reply): Bytes {
    if r.code == 200 && FirstByte(s, resume) > 0 then Data(r) else s.data + Data(r)
  }

  function NameNow(s: Partial, r: Reply): string {
    if r.validator != "" then r.validator else s.validator
  }

  /** The length the file should have, as far as the answer tells. */
  function Expected(s: Partial, resume: bool, r: Reply): Option<int> {
    if r.code == 206 then
      if r.total > 0 then Some(r.total)
      else if r.total < 0 && r.length > 0 then Some(FirstByte(s, resume) + r.length)
      else None
    else if r.length > 0 then Some(r.length)
    else None
  }

  /** The body ended cleanly, and with as many bytes as announced. */
  predicate Arrived(s: Partial, resume: bool, r: Reply) {
    r.eof && (Expected(s, resume, r).Some? ==> |Filled(s, resume, r)| == Expected(s, resume, r).value)
  }

  predicate Completes(s: Partial, resume: bool, a: Answer) {
    a.Got? && !Mismatch(s, resume, a.reply) && Arrived(s, resume, a.reply) && Filled(s, resume, a.reply) != []
  }

  predicate CutOff(s: Partial, resume: bool, a: Answer) {
    a.Got? && !Mismatch(s, resume, a.reply) && !Arrived(s, resume, a.reply)
  }

  /** Nobody answered, or with a status worth another attempt, or the body was cut off. */
  predicate GoesOn(s: Partial, resume: bool, a: Answer) {
    || a.Unreachable?
    || (a.Status? && (a.code == 408 || a.code == 425 || a.code == 429 || a.code >= 500))
    || CutOff(s, resume, a)
  }

  /** What an answer that lets the download go on leaves: a cut-off body stays if it can be resumed. */
  function Kept(s: Partial, resume: bool, a: Answer): Partial {
    if !CutOff(s, resume, a) then s
    else if resume && NameNow(s, a.reply) != "" then Partial(Filled(s, resume, a.reply), NameNow(s, a.reply))
    else Partial([], "")
  }

  /** What an attempt came to, in these words. */
  ghost predicate Attempted(s: Partial, resume: bool, a: Answer, t: Partial, step: Step) {
    && (step.Again? <==> GoesOn(s, resume, a)) && (step.Complete? <==> Completes(s, resume, a))
    && (step.Again? ==> t == Kept(s, resume, a))
    && (step.Complete? ==> t.data == Filled(s, resume, a.reply))
    && !step.Broken?
  }

  lemma {:induction false} AttemptedWithout(s: Partial, resume: bool, a: Answer)
    requires !a.Got?
    ensures Attempted(s, resume, a, s, if a.Status? && !Retryable(a.code) then GiveUp else Again)
  {
  }

  lemma {:induction false} AttemptedWith(s: Partial, resume: bool, r: Reply)
    ensures Attempted(s, resume, Got(r), After(s, resume, r).0, After(s, resume, r).1)
  {
    hide Data;
    assert [] + Data(r) == Data(r);
  }

  // ---------------------------------------------------------------- all answers

  /** What the first `k` answers leave, if they let the download go on. */
  function Left(s: Partial, resume: bool, answers: Origin, k: nat): Partial {
    if k == 0 then s
    else
      var t := Left(s, resume, answers, k - 1);
      Kept(t, resume, AnswerTo(t, resume, answers, k))
  }

  /** The answer to request `k` when `t` is held. */
  function AnswerTo(t: Partial, resume: bool, answers: Origin, k: nat): Answer {
    answers(k, FirstByte(t, resume), t.validator)
  }

  predicate GoesOnAt(s: Partial, resume: bool, answers: Origin, k: nat)
    requires k > 0
  {
    var t := Left(s, resume, answers, k - 1);
    GoesOn(t, resume, AnswerTo(t, resume, answers, k))
  }

  predicate CompletesAt(s: Partial, resume: bool, answers: Origin, k: nat)
    requires k > 0
  {
    var t := Left(s, resume, answers, k - 1);
    Completes(t, resume, AnswerTo(t, resume, answers, k))
  }

  ghost predicate GoesOnBefore(s: Partial, resume: bool, answers: Origin, k: nat) {
    forall j :: 1 <= j < k ==> GoesOnAt(s, resume, answers, j)
  }

  /** Answer `k` is the first that does not let the download go on, or the last one allowed. */
  ghost predicate EndsAt(s: Partial, resume: bool, answers: Origin, maxAttempts: nat, k: nat) {
    && 1 <= k <= maxAttempts && GoesOnBefore(s, resume, answers, k)
    && (k < maxAttempts ==> !GoesOnAt(s, resume, answers, k))
  }

  /** The outcome: answer `k` ends the call, which succeeds exactly if it completes the file. */
  ghost predicate Decided(s: Partial, resume: bool, answers: Origin, maxAttempts: nat, k: nat, r: Result) {
    && EndsAt(s, resume, answers, maxAttempts, k)
    && (if CompletesAt(s, resume, answers, k) then
          var t := Left(s, resume, answers, k - 1);
          r == Published(Filled(t, resume, AnswerTo(t, resume, answers, k).reply), k)
        else r == Failed(k, false))
  }

  ghost predicate DecidedByAnswers(s: Partial, resume: bool, answers: Origin, maxAttempts: nat, r: Result) {
    exists k: nat :: Decided(s, resume, answers, maxAttempts, k, r)
  }

  lemma {:induction false} NotBoth(s: Partial, resume: bool, answers: Origin, k: nat)
    requires k > 0
    ensures !(CompletesAt(s, resume, answers, k) && GoesOnAt(s, resume, answers, k))
  {
  }

  lemma {:induction false} NothingAsked(s: Partial, resume: bool, answers: Origin)
    ensures GoesOnBefore(s, resume, answers, 1) && Left(s, resume, answers, 0) == s
  {
  }

  lemma {:induction false} NoneCompletes(s: Partial, resume: bool, answers: Origin, maxAttempts: nat)
    requires maxAttempts >= 1 && GoesOnBefore(s, resume, answers, maxAttempts + 1)
    ensures DecidedByAnswers(s, resume, answers, maxAttempts, Failed(maxAttempts, false))
  {
    hide GoesOnAt, CompletesAt;
    assert GoesOnAt(s, resume, answers, maxAttempts);
    NotBoth(s, resume, answers, maxAttempts);
    assert Decided(s, resume, answers, maxAttempts, maxAttempts, Failed(maxAttempts, false));
  }

  /** One attempt more, and what it decides. */
  lemma {:induction false} OneAttempt(
      s: Partial, resume: bool, answers: Origin, maxAttempts: nat, k: nat, t: Partial, a: Answer, t': Partial,
        step: Step)
    requires 1 <= k <= maxAttempts && GoesOnBefore(s, resume, answers, k) && t == Left(s, resume, answers, k - 1)
    requires a == AnswerTo(t, resume, answers, k) && Attempted(t, resume, a, t', step)
    ensures step.Again? ==> GoesOnBefore(s, resume, answers, k + 1) && t' == Left(s, resume, answers, k)
    ensures step.Complete? ==> DecidedByAnswers(s, resume, answers, maxAttempts, Published(t'.data, k))
    ensures step.GiveUp? || (step.Again? && k == maxAttempts) ==>
      DecidedByAnswers(s, resume, answers, maxAttempts, Failed(k, false))
  {
    hide GoesOn, Completes, Kept, Filled;
    NotBoth(s, resume, answers, k);
    if step.Complete? {
      assert Decided(s, resume, answers, maxAttempts, k, Published(t'.data, k));
    } else if step.GiveUp? || k == maxAttempts {
      assert Decided(s, resume, answers, maxAttempts, k, Failed(k, false));
    }
  }

  /**
   So the call publishes exactly if some answer within the allowed attempts completes the
   file and every earlier one lets it go on; and it has then asked that many times.
   */
  lemma {:induction false} PublishedExactly(s: Partial, resume: bool, answers: Origin, maxAttempts: nat, r: Result)
    requires DecidedByAnswers(s, resume, answers, maxAttempts, r)
    ensures r.Published? <==>
      exists k :: 1 <= k <= maxAttempts && CompletesAt(s, resume, answers, k) && GoesOnBefore(s, resume, answers, k)
    ensures r.Published? ==>
      && 1 <= r.attempts <= maxAttempts && CompletesAt(s, resume, answers, r.attempts)
      && GoesOnBefore(s, resume, answers, r.attempts)
  {
    hide Left, AnswerTo, Filled;
    var k: nat :| Decided(s, resume, answers, maxAttempts, k, r);
    forall j | 1 <= j <= maxAttempts && CompletesAt(s, resume, answers, j) && GoesOnBefore(s, resume, answers, j)
      ensures j == k
    {
      NotBoth(s, resume, answers, j);
    }
  }
}
