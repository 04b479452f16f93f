/**
 fetchSegmentToTemp and segmentListFingerprint of
 go_backend/extension_runtime_segments.go: a segment counts as fetched only when
 its temporary file holds all that was sent, the shared byte counter stays exact
 through retries, and the list of URLs can be told from what the hash is fed.
 */
module SegmentFetch {
  import opened Options
  import ObjectOrigin

  type Bytes = seq<int>

  /** One piece read from the response body and how much of it reached the temporary file. */
  datatype Piece = Piece(data: Bytes, stored: nat)

  /** How reading the body ended: cleanly, or with an error. */
  datatype Answer =
    | Unreachable                                                      // no response
    | Status(code: nat)                                                // not 2xx
    | Body(pieces: seq<Piece>, eof: bool, length: int, closed: bool)   // 2xx; `length` <= 0 when not declared

  datatype Outcome = Fetched(size: nat, attempts: nat) | Failed(attempts: nat)

  /** What the first `n` pieces hold. */
  function Sent(ps: seq<Piece>, n: nat): Bytes
    requires n <= |ps|
  {
    ObjectOrigin.Concat(seq(|ps|, i requires 0 <= i < |ps| => ps[i].data), n)
  }

  /** The origin sends `body`: a prefix; a declared length is that of the body. */
  ghost predicate Honest(a: Answer, body: Bytes) {
    a.Body? ==>
      && Sent(a.pieces, |a.pieces|) <= body
      && (forall i :: 0 <= i < |a.pieces| ==> a.pieces[i].stored <= |a.pieces[i].data|)
      && (a.length > 0 ==> a.length == |body|)
  }

  class Fetcher {
    /** The temporary file and the counter shared by all workers. */
    var temp: Bytes
    var received: int

    constructor ()
    {
      temp, received := [], 0;
    }

    /** The read loop of one attempt. */
    method ReadBody(a: Answer) returns (size: nat, ok: bool)
      requires a.Body? && forall i :: 0 <= i < |a.pieces| ==> a.pieces[i].stored <= |a.pieces[i].data|
      requires temp == []
      modifies this
      ensures received == old(received) + size && size == |temp|
      ensures ok ==> a.eof && a.closed && temp == Sent(a.pieces, |a.pieces|) && (a.length > 0 ==> size == a.length)
      ensures ok && size > 0 <==> Arrives(a)
    {
      size, ok := 0, true;
      var i := 0;
      while i < |a.pieces| && ok
        invariant i <= |a.pieces| && received == old(received) + size && size == |temp|
        invariant ok ==> temp == Sent(a.pieces, i)
        invariant ok <==> forall j :: 0 <= j < i ==> a.pieces[j].stored == |a.pieces[j].data|
      {
        var p := a.pieces[i];
        temp := temp + p.data[..p.stored];
        size := size + p.stored;
        received := received + p.stored;
        ok := p.stored == |p.data|;
        if ok { assert p.data[..p.stored] == p.data; }
        i := i + 1;
      }
      assert ok ==> |temp| == |Sent(a.pieces, |a.pieces|)|;
      ok := ok && a.eof && a.closed && (a.length <= 0 || size == a.length);
    }

    /**
     The retry loop. `answers(k)` is what attempt `k` meets, `cancelled(k)` whether
     the task is cancelled before it, `interrupted(k)` whether it is while waiting after it.
     */
    method Fetch(
        ghost body: Bytes, answers: nat -> Answer, cancelled: nat -> bool, interrupted: nat -> bool, maxAttempts: nat)
        returns (r: Outcome)
      requires forall k :: Honest(answers(k), body)
      modifies this
      ensures r.Fetched? ==> r.size == |temp| > 0 && 1 <= r.attempts <= maxAttempts
      ensures r.Fetched? ==> Taken(answers(r.attempts), body, temp)
      ensures received == old(received) + (if r.Fetched? then r.size else 0)
      ensures r.attempts <= maxAttempts
      ensures (forall k :: 1 <= k <= r.attempts ==> !cancelled(k) && !interrupted(k)) ==>
        && (forall k :: 1 <= k < r.attempts ==> GoesOn(answers(k)))
        && (r.Fetched? <==> r.attempts > 0 && Arrives(answers(r.attempts)))
        && (r.Failed? && 0 < r.attempts < maxAttempts ==> !GoesOn(answers(r.attempts)))
        && (r.attempts == 0 <==> maxAttempts == 0)
      ensures r.Failed? && maxAttempts > 0 ==>
        || cancelled(r.attempts) || interrupted(r.attempts)
        || r.attempts == maxAttempts
        || (answers(r.attempts).Status? && !ObjectOrigin.Retryable(answers(r.attempts).code))
    {
      var attempt := 1;
      while attempt <= maxAttempts
        invariant 1 <= attempt <= maxAttempts + 1 && received == old(received)
        invariant maxAttempts > 0 ==> attempt <= maxAttempts
        invariant forall k :: 1 <= k < attempt ==> GoesOn(answers(k))
      {
        if cancelled(attempt) { return Failed(attempt); }
        temp := [];
        var answer := answers(attempt);
        assert Honest(answer, body);
        match answer {
          case Unreachable =>
          case Status(code) =>
            if !ObjectOrigin.Retryable(code) || attempt == maxAttempts { return Failed(attempt); }
          case Body(_, _, _, _) =>
            var size, ok := ReadBody(answer);
            if ok && size > 0 {
              return Fetched(size, attempt);
            }
            received := received - size;
        }
        if attempt == maxAttempts || interrupted(attempt) { return Failed(attempt); }
        attempt := attempt + 1;
      }
      return Failed(maxAttempts);
    }
  }

  /** All of a body arrived, and as much as was announced. */
  ghost predicate Arrives(a: Answer) {
    && a.Body? && a.eof && a.closed && (forall i :: 0 <= i < |a.pieces| ==> a.pieces[i].stored == |a.pieces[i].data|)
    && Sent(a.pieces, |a.pieces|) != [] && (a.length > 0 ==> |Sent(a.pieces, |a.pieces|)| == a.length)
  }

  /** Nobody answered, or with a status worth another attempt, or the body did not arrive. */
  ghost predicate GoesOn(a: Answer) {
    || a.Unreachable?
    || (a.Status? && (a.code == 408 || a.code == 425 || a.code == 429 || a.code >= 500))
    || (a.Body? && !Arrives(a))
  }

  /** A segment that was taken is what the answer sent; it is the whole body exactly when that reaches its end. */
  ghost predicate Taken(a: Answer, body: Bytes, got: Bytes) {
    && a.Body? && a.eof && got == Sent(a.pieces, |a.pieces|) <= body
    && (got == body <==> |Sent(a.pieces, |a.pieces|)| == |body|)
    && (a.length > 0 ==> got == body)
  }

  // ---------------------------------------------------------------- fingerprint

  /** What segmentListFingerprint feeds the hash: every URL and a NUL. */
  function Preimage(urls: seq<string>): string {
    if urls == [] then [] else urls[0] + ['\0'] + Preimage(urls[1..])
  }

  predicate NulFree(urls: seq<string>) {
    forall i :: 0 <= i < |urls| ==> '\0' !in urls[i]
  }

  /** Different lists of URLs without NUL are fed differently, so a checkpoint is never taken for another list. */
  lemma {:induction false} PreimageInjective(a: seq<string>, b: seq<string>)
    requires NulFree(a) && NulFree(b) && Preimage(a) == Preimage(b)
    ensures a == b
    decreases |a|
  {
    if a != [] && b != [] {
      FirstNul(a[0], Preimage(a[1..]), b[0], Preimage(b[1..]));
      PreimageInjective(a[1..], b[1..]);
      assert a == [a[0]] + a[1..] && b == [b[0]] + b[1..];
    }
  }

  lemma {:induction false} FirstNul(x: string, xs: string, y: string, ys: string)
    requires '\0' !in x && '\0' !in y && x + ['\0'] + xs == y + ['\0'] + ys
    ensures x == y && xs == ys
  {
    FirstNulAt(x, xs, y, ys);
    FirstNulAt(y, ys, x, xs);
    var s := x + ['\0'] + xs;
    assert x == s[..|x|] == y;
    assert xs == s[|x| + 1..] == ys;
  }

  lemma {:induction false} FirstNulAt(x: string, xs: string, y: string, ys: string)
    requires '\0' !in y && x + ['\0'] + xs == y + ['\0'] + ys
    ensures |y| <= |x|
  {
    assert (x + ['\0'] + xs)[|x|] == '\0';
  }
}
