/**
 When the chunked download of go_backend/extension_runtime_chunked.go succeeds, told
 by the answers alone: which of them bring a chunk, which leave it to another
 attempt, and which end the call.
 */
module ChunkedOutcome {
  import opened Options
  import opened ObjectOrigin
  import opened ChunkedTransfer

  type ChunkOrigin = (nat, nat, int, string) -> Answer

  /** What stays fixed during one call. */
  datatype Plan = Plan(validator: string, chunkSize: nat, maxAttempts: nat)

  /** The chunk up to `end` is asked for again, after `tries` attempts; or the loop has ended. */
  datatype Stage = Asking(held: Held, end: int, tries: nat) | Finished(file: Bytes) | TooShort | OutOfTries | Integrity

  // ---------------------------------------------------------------- one answer

  predicate Delivery(a: Answer) {
    a.Got? && (a.reply.code == 200 || a.reply.code == 206)
  }

  /** A range that is not the one asked for, or another version. */
  predicate Mismatch(p: Plan, h: Held, r: Reply) {
    || (r.code == 206 && r.start != |h.data|)
    || (r.validator != "" && p.validator != "" && r.validator != p.validator)
  }

  function Announced(h: Held, end: int, r: Reply): int {
    if r.length > 0 then r.length else if r.code == 206 then end - |h.data| + 1 else 0
  }

  /** The body ended cleanly, is not empty, and as long as announced. */
  predicate Arrived(h: Held, end: int, r: Reply) {
    r.eof && Data(r) != [] && (Announced(h, end, r) > 0 ==> |Data(r)| == Announced(h, end, r))
  }

  predicate Worthwhile(code: nat) {
    code == 408 || code == 425 || code == 429 || code >= 500
  }

  /** Nobody answered, or with a status worth another attempt, or the body was cut off. */
  predicate TriesAgain(p: Plan, h: Held, end: int, a: Answer) {
    match a
    case Unreachable => true
    case Status(code) => Worthwhile(code)
    case Got(r) => if Delivery(a) then !Mismatch(p, h, r) && !Arrived(h, end, r) else Worthwhile(r.code)
  }

  /** What stands before the body: a full answer starts the file anew and says how long it will be. */
  function Rewound(h: Held, a: Answer): Held {
    if a.Got? && a.reply.code == 200 && h.data != [] then
      Held([], if a.reply.length > 0 then a.reply.length else h.totalSize)
    else h
  }

  function Grown(h: Held, a: Answer): Held
    requires a.Got?
  {
    var front := Rewound(h, a);
    Held(front.data + Data(a.reply), front.totalSize)
  }

  /** No chunk is left to be asked for. */
  function Checked(h: Held): Stage {
    if h.data != [] && (h.totalSize > 0 ==> |h.data| == h.totalSize) then Finished(h.data) else TooShort
  }

  /** The next chunk, if one is left: up to `chunkSize` bytes, and none behind a known end. */
  function NextChunk(p: Plan, h: Held): Stage {
    if h.totalSize > 0 && |h.data| >= h.totalSize then Checked(h)
    else if p.maxAttempts == 0 then OutOfTries
    else
      var end := |h.data| + p.chunkSize;
      Asking(h, (if 0 < h.totalSize < end then h.totalSize else end) - 1, 0)
  }

  /** The object has ended: it came whole, or while its length is not known a part was short. */
  predicate LastChunk(p: Plan, h: Held, r: Reply) {
    r.code == 200 || (h.totalSize <= 0 && |Data(r)| < p.chunkSize)
  }

  function Behind(p: Plan, s: Stage, a: Answer): Stage {
    match s
    case Asking(h, end, tries) =>
      if Delivery(a) && Mismatch(p, h, a.reply) then Integrity
      else if TriesAgain(p, h, end, a) then
        if tries + 1 >= p.maxAttempts then OutOfTries
        else Asking(if Delivery(a) then Rewound(h, a) else h, end, tries + 1)
      else if !Delivery(a) then OutOfTries
      else if LastChunk(p, h, a.reply) then Checked(Grown(h, a))
      else NextChunk(p, Grown(h, a))
    case _ => s
  }

  lemma {:induction false} SameAsAfter(p: Plan, h: Held, end: int, r: Reply)
    requires r.code == 200 || r.code == 206
    ensures var (h', step) := AfterChunk(h, p.validator, end, r);
      && (step.Refused? <==> Mismatch(p, h, r))
      && (step.Retry? <==> TriesAgain(p, h, end, Got(r)))
      && (step.Retry? ==> h' == Rewound(h, Got(r)))
      && (step.Done? ==>
        && h' == Grown(h, Got(r)) && step.full == (r.code == 200)
        && (LastChunk(p, h, r) <==> step.full || (h'.totalSize <= 0 && |h'.data| - step.start < p.chunkSize)))
  {
    hide Data;
  }

  // ---------------------------------------------------------------- all answers

  function AnswerTo(p: Plan, s: Stage, answers: ChunkOrigin, k: nat): Answer
    requires s.Asking?
  {
    answers(k, |s.held.data|, s.end, p.validator)
  }

  /** Where `k` requests behind the first `n` have led. */
  function StageAt(p: Plan, h: Held, n: nat, answers: ChunkOrigin, k: nat): Stage {
    if k == 0 then NextChunk(p, h)
    else
      var s := StageAt(p, h, n, answers, k - 1);
      if s.Asking? then Behind(p, s, AnswerTo(p, s, answers, n + k)) else s
  }

  /** The call ends with request `k`, and as the stage reached says. */
  ghost predicate Decided(p: Plan, h: Held, n: nat, answers: ChunkOrigin, k: nat, r: Result) {
    && (k > 0 ==> StageAt(p, h, n, answers, k - 1).Asking?)
    && match StageAt(p, h, n, answers, k)
       case Asking(_, _, _) => false
       case Finished(file) => r == Published(file, n + k)
       case _ => r == Failed(n + k, false)
  }

  ghost predicate DecidedByAnswers(p: Plan, h: Held, n: nat, answers: ChunkOrigin, r: Result) {
    exists k: nat :: Decided(p, h, n, answers, k, r)
  }

  lemma {:induction false} StaysEnded(p: Plan, h: Held, n: nat, answers: ChunkOrigin, j: nat, k: nat)
    requires j <= k && !StageAt(p, h, n, answers, j).Asking?
    ensures StageAt(p, h, n, answers, k) == StageAt(p, h, n, answers, j)
    decreases k
  {
    if j < k { StaysEnded(p, h, n, answers, j, k - 1); }
  }

  /** So the call publishes exactly if the requests lead to a finished file, and it is that file. */
  lemma {:induction false} PublishedExactly(p: Plan, h: Held, n: nat, answers: ChunkOrigin, r: Result)
    requires DecidedByAnswers(p, h, n, answers, r)
    ensures r.Published? <==> exists k: nat :: StageAt(p, h, n, answers, k).Finished?
    ensures r.Published? ==>
      r.attempts >= n && StageAt(p, h, n, answers, r.attempts - n) == Finished(r.file)
  {
    hide StageAt;
    var k: nat :| Decided(p, h, n, answers, k, r);
    assert r.Published? <==> StageAt(p, h, n, answers, k).Finished?;
    forall j: nat | StageAt(p, h, n, answers, j).Finished? ensures StageAt(p, h, n, answers, k).Finished? {
      if j <= k { StaysEnded(p, h, n, answers, j, k); } else { StaysEnded(p, h, n, answers, k, j); }
    }
  }

  /** Request `k` is for a chunk, and its answer leaves it to another attempt. */
  predicate TriesAgainAt(p: Plan, h: Held, n: nat, answers: ChunkOrigin, k: nat)
    requires k > 0
  {
    var s := StageAt(p, h, n, answers, k - 1);
    s.Asking? && TriesAgain(p, s.held, s.end, AnswerTo(p, s, answers, n + k))
  }

  /** A chunk gets through if one of the attempts for it brings it and the ones before leave it to another. */
  lemma {:induction false} ChunkGetsThrough(p: Plan, h: Held, n: nat, answers: ChunkOrigin, k: nat, j: nat)
    requires StageAt(p, h, n, answers, k).Asking? && StageAt(p, h, n, answers, k).tries == 0 && j < p.maxAttempts
    requires forall i :: k < i <= k + j ==> TriesAgainAt(p, h, n, answers, i)
    ensures var s := StageAt(p, h, n, answers, k + j);
      && s.Asking? && s.tries == j && s.end == StageAt(p, h, n, answers, k).end
      && var a := AnswerTo(p, s, answers, n + (k + j + 1));
         Delivery(a) && !Mismatch(p, s.held, a.reply) && Arrived(s.held, s.end, a.reply) ==>
           StageAt(p, h, n, answers, k + j + 1)
           == if LastChunk(p, s.held, a.reply) then Checked(Grown(s.held, a)) else NextChunk(p, Grown(s.held, a))
    decreases j
  {
    if j > 0 {
      hide NextChunk, Checked, Mismatch, Arrived, LastChunk;
      ChunkGetsThrough(p, h, n, answers, k, j - 1);
      assert TriesAgainAt(p, h, n, answers, k + j);
    }
  }
}
