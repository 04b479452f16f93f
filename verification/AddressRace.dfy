/**
 raceResolvedIPs and drainDialResults of go_backend/dns_doh.go: overlapping dial
 attempts reporting into one channel, a fallback timer, a first success that
 wins, and a drain that closes what comes late.
 */
module AddressRace {
  import opened Options

  /** What a dial returns: a connection, an error, or neither. */
  datatype Result = Conn | Error(code: nat) | Neither

  /** Where an attempt is; each attempt is at exactly one place. */
  datatype Where = Dialing | Reported(result: Result) | Received(result: Result) | Drained(result: Result)

  datatype Verdict = Won(attempt: nat) | Failed(code: Option<nat>) | Cancelled

  /** The loop's variables, its verdict once it returned, and how many results the drain still waits for. */
  datatype Race = Race(
    total: nat, started: nat, finished: nat, lastErr: Option<nat>, armed: bool, verdict: Option<Verdict>, toDrain: nat,
    attempts: map<nat, Where>)

  datatype Event =
    | End(attempt: nat, result: Result)   // a dial goroutine sends its result
    | Receive(attempt: nat)               // the loop takes a result from the channel
    | Timer
    | Done                                // the caller's context ends
    | Drain(attempt: nat)                 // the drain takes a result and closes its connection

  // ---------------------------------------------------------------- steps

  function Launched(r: Race): Race
    requires r.started < r.total
  {
    r.(started := r.started + 1, attempts := r.attempts[r.started := Dialing])
  }

  function Begin(total: nat, initialErr: Option<nat>): Race
    requires total > 0
  {
    Launched(Race(total, 0, 0, initialErr, true, None, 0, map[]))
  }

  function Ended(r: Race, v: Verdict): Race {
    r.(verdict := Some(v), toDrain := if r.finished <= r.started then r.started - r.finished else 0)
  }

  function OnResult(r: Race, i: nat, result: Result): Race {
    var s := r.(finished := r.finished + 1, attempts := r.attempts[i := Received(result)],
                lastErr := if result.Error? then Some(result.code) else r.lastErr);
    if result.Conn? then Ended(s, Won(i))
    else if s.finished == s.total then Ended(s, Failed(s.lastErr))
    else if s.finished == s.started && s.started < s.total then Launched(s).(armed := true)
    else s
  }

  function OnTimer(r: Race): Race {
    if r.started >= r.total then r.(armed := false)
    else
      var s := Launched(r);
      s.(armed := s.started < s.total)
  }

  predicate Enabled(r: Race, e: Event) {
    match e
    case End(i, _) => i in r.attempts && r.attempts[i].Dialing?
    case Receive(i) => r.verdict.None? && i in r.attempts && r.attempts[i].Reported?
    case Timer => r.verdict.None? && r.armed
    case Done => r.verdict.None?
    case Drain(i) => r.verdict.Some? && r.toDrain > 0 && i in r.attempts && r.attempts[i].Reported?
  }

  function Apply(r: Race, e: Event): Race
    requires Enabled(r, e)
  {
    match e
    case End(i, result) => r.(attempts := r.attempts[i := Reported(result)])
    case Receive(i) => OnResult(r, i, r.attempts[i].result)
    case Timer => OnTimer(r)
    case Done => Ended(r, Cancelled)
    case Drain(i) => r.(toDrain := r.toDrain - 1, attempts := r.attempts[i := Drained(r.attempts[i].result)])
  }

  ghost predicate Run(r: Race, trace: seq<Event>, s: Race)
    decreases |trace|
  {
    if trace == [] then r == s else Enabled(r, trace[0]) && Run(Apply(r, trace[0]), trace[1..], s)
  }

  // ---------------------------------------------------------------- invariant

  /** Attempts whose result nobody has taken yet. */
  function Pending(r: Race): set<nat> {
    set i | i in r.attempts && (r.attempts[i].Dialing? || r.attempts[i].Reported?)
  }

  /** Results the loop has taken. */
  function Taken(r: Race): set<nat> {
    set i | i in r.attempts && r.attempts[i].Received?
  }

  ghost predicate Counted(r: Race) {
    && r.started <= r.total
    && (forall i: nat :: i in r.attempts <==> i < r.started)
    && |Taken(r)| == r.finished
    && |Pending(r)| == (if r.verdict.None? then r.started - r.finished else r.toDrain)
    && (r.verdict.None? ==> forall i :: i in r.attempts ==> !r.attempts[i].Drained?)
  }

  /** Only a winner's connection was taken by the loop. */
  ghost predicate Judged(r: Race) {
    && (forall i :: i in r.attempts && r.attempts[i] == Received(Conn) ==> r.verdict == Some(Won(i)))
    && (r.verdict.Some? && r.verdict.value.Won? ==>
          r.verdict.value.attempt in r.attempts && r.attempts[r.verdict.value.attempt] == Received(Conn))
    && (r.verdict.Some? && r.verdict.value.Failed? ==> r.finished == r.total)
  }

  /** The race goes on only while something is in flight, and a further address has its timer. */
  ghost predicate Moving(r: Race) {
    r.verdict.None? ==> r.finished < r.started && (r.started < r.total ==> r.armed)
  }

  ghost predicate Inv(r: Race) {
    Counted(r) && Judged(r) && Moving(r)
  }

  lemma {:induction false} LaunchedSets(r: Race)
    requires r.started < r.total && r.started !in r.attempts
    ensures Pending(Launched(r)) == Pending(r) + {r.started} && Taken(Launched(r)) == Taken(r)
    ensures |Pending(Launched(r))| == |Pending(r)| + 1
  {
    var s := Launched(r);
    assert r.started !in Pending(r);
    assert Pending(s) == Pending(r) + {r.started};
    assert Taken(s) == Taken(r);
  }

  lemma {:induction false} LaunchKeeps(r: Race)
    requires Counted(r) && r.started < r.total && r.verdict.None?
    ensures Counted(Launched(r)) && Pending(Launched(r)) == Pending(r) + {r.started} && Taken(Launched(r)) == Taken(r)
  {
    LaunchedSets(r);
    hide Pending, Taken;
  }

  /** A pending result is taken by the loop or the drain. */
  lemma {:induction false} TakeOne(r: Race, i: nat, w: Where)
    requires i in r.attempts && r.attempts[i].Reported? && (w.Received? || w.Drained?)
    ensures var s := r.(attempts := r.attempts[i := w]);
      && Pending(s) == Pending(r) - {i} && |Pending(s)| == |Pending(r)| - 1
      && Taken(s) == (if w.Received? then Taken(r) + {i} else Taken(r))
      && |Taken(s)| == |Taken(r)| + (if w.Received? then 1 else 0)
  {
    var s := r.(attempts := r.attempts[i := w]);
    assert i in Pending(r) && i !in Taken(r);
    assert Pending(s) == Pending(r) - {i};
    assert Taken(s) == if w.Received? then Taken(r) + {i} else Taken(r);
  }

  /** The race after a result was taken and before the loop decides. */
  function Tallied(r: Race, i: nat, result: Result): Race {
    r.(finished := r.finished + 1, attempts := r.attempts[i := Received(result)],
       lastErr := if result.Error? then Some(result.code) else r.lastErr)
  }

  lemma {:induction false} ReceiveKeeps(r: Race, i: nat)
    requires Inv(r) && Enabled(r, Receive(i))
    ensures Inv(Apply(r, Receive(i)))
  {
    var result := r.attempts[i].result;
    var s := Tallied(r, i, result);
    TallyCounted(r, i, result);
    assert OnResult(r, i, result) ==
      if result.Conn? then Ended(s, Won(i))
      else if s.finished == s.total then Ended(s, Failed(s.lastErr))
      else if s.finished == s.started && s.started < s.total then Launched(s).(armed := true)
      else s;
    if result.Conn? {
      SamePending(s, Ended(s, Won(i)));
    } else if s.finished == s.total {
      SamePending(s, Ended(s, Failed(s.lastErr)));
    } else if s.finished == s.started && s.started < s.total {
      LaunchKeeps(s);
      SamePending(Launched(s), Launched(s).(armed := true));
    }
  }

  lemma {:induction false} TallyCounted(r: Race, i: nat, result: Result)
    requires Inv(r) && r.verdict.None? && i in r.attempts && r.attempts[i].Reported?
    ensures Counted(Tallied(r, i, result))
  {
    var s := Tallied(r, i, result);
    TakeOne(r, i, Received(result));
    SamePending(r.(attempts := s.attempts), s);
  }

  lemma {:induction false} SamePending(r: Race, s: Race)
    requires s.attempts == r.attempts
    ensures Pending(s) == Pending(r) && Taken(s) == Taken(r)
  {
  }

  lemma {:induction false} StepKeeps(r: Race, e: Event)
    requires Inv(r) && Enabled(r, e)
    ensures Inv(Apply(r, e))
  {
    match e
    case End(i, result) =>
      assert Pending(Apply(r, e)) == Pending(r) && Taken(Apply(r, e)) == Taken(r);
    case Receive(i) => ReceiveKeeps(r, i);
    case Timer =>
      if r.started < r.total {
        LaunchKeeps(r);
        SamePending(Launched(r), OnTimer(r));
      } else {
        SamePending(r, OnTimer(r));
      }
    case Done => SamePending(r, Ended(r, Cancelled));
    case Drain(i) =>
      TakeOne(r, i, Drained(r.attempts[i].result));
      SamePending(r.(attempts := Apply(r, e).attempts), Apply(r, e));
  }

  lemma {:induction false} RunKeeps(r: Race, trace: seq<Event>, s: Race)
    requires Inv(r) && Run(r, trace, s)
    ensures Inv(s)
    decreases |trace|
  {
    hide Inv, Apply, Enabled;
    if trace != [] {
      StepKeeps(r, trace[0]);
      RunKeeps(Apply(r, trace[0]), trace[1..], s);
    }
  }

  lemma {:induction false} BeginKeeps(total: nat, initialErr: Option<nat>)
    requires total > 0
    ensures Inv(Begin(total, initialErr))
  {
    var r := Begin(total, initialErr);
    assert r.attempts == map[0 := Dialing];
    var one: set<nat> := {0};
    assert Pending(r) == one && |one| == 1;
    assert Taken(r) == {} && |Taken(r)| == 0;
  }

  // ---------------------------------------------------------------- results

  /** A connection some dial opened. */
  predicate Opened(r: Race, i: nat) {
    i in r.attempts && !r.attempts[i].Dialing? && r.attempts[i].result.Conn?
  }

  /**
   Over every interleaving: an opened connection is the one returned, or closed by
   the drain, or still on its way to it; and the drain waits for exactly the
   results that are missing, so when it is done none is.
   */
  lemma {:induction false} NoConnectionLost(total: nat, initialErr: Option<nat>, trace: seq<Event>, r: Race, i: nat)
    requires total > 0 && Run(Begin(total, initialErr), trace, r) && r.verdict.Some? && Opened(r, i)
    ensures r.verdict == Some(Won(i)) || r.attempts[i] == Drained(Conn) ||
      (r.attempts[i] == Reported(Conn) && r.toDrain > 0)
    ensures r.toDrain == |Pending(r)|
    ensures r.toDrain == 0 ==> (r.verdict == Some(Won(i)) <==> r.attempts[i] != Drained(Conn))
  {
    hide Run;
    BeginKeeps(total, initialErr);
    RunKeeps(Begin(total, initialErr), trace, r);
    if r.attempts[i].Reported? { assert i in Pending(r); }
  }

  /** A dial error is returned only after every address failed. */
  lemma {:induction false} FailsOnlyAfterAll(total: nat, initialErr: Option<nat>, trace: seq<Event>, r: Race, i: nat)
    requires total > 0 && Run(Begin(total, initialErr), trace, r)
    requires r.verdict.Some? && r.verdict.value.Failed? && i < total
    ensures i in r.attempts && r.attempts[i].Received? && !r.attempts[i].result.Conn?
  {
    hide Run;
    BeginKeeps(total, initialErr);
    RunKeeps(Begin(total, initialErr), trace, r);
    SameTotal(Begin(total, initialErr), trace, r);
    AllTaken(r, i);
  }

  lemma {:induction false} SameTotal(r: Race, trace: seq<Event>, s: Race)
    requires Run(r, trace, s)
    ensures s.total == r.total
    decreases |trace|
  {
    hide Enabled;
    if trace != [] { SameTotal(Apply(r, trace[0]), trace[1..], s); }
  }

  lemma {:induction false} AllTaken(r: Race, i: nat)
    requires Counted(r) && r.finished == r.total && i < r.total
    ensures i in r.attempts && r.attempts[i].Received?
  {
    assert Taken(r) <= Below(r.total);
    SubsetAll(Taken(r), Below(r.total));
    assert i in Taken(r);
  }

  function Below(n: nat): (s: set<nat>)
    ensures |s| == n && forall k: nat :: k in s <==> k < n
  {
    if n == 0 then {}
    else
      var s := Below(n - 1);
      assert n - 1 !in s;
      s + {n - 1}
  }

  lemma {:induction false} SubsetAll(a: set<nat>, b: set<nat>)
    requires a <= b && |a| == |b|
    ensures a == b
    decreases |a|
  {
    if a != {} {
      var x :| x in a;
      SubsetAll(a - {x}, b - {x});
      assert a == (a - {x}) + {x} && b == (b - {x}) + {x};
    }
  }

  /** While the race is on, some attempt is in flight, and untried addresses have an armed timer. */
  lemma {:induction false} NeverStuck(total: nat, initialErr: Option<nat>, trace: seq<Event>, r: Race)
    requires total > 0 && Run(Begin(total, initialErr), trace, r) && r.verdict.None?
    ensures Pending(r) != {}
    ensures r.started < r.total ==> Enabled(r, Timer)
  {
    hide Run;
    BeginKeeps(total, initialErr);
    RunKeeps(Begin(total, initialErr), trace, r);
    assert |Pending(r)| > 0;
  }

  // ---------------------------------------------------------------- the loop

  /** The variables of raceResolvedIPs; what `select` picks are the calls of its methods. */
  class Racer {
    const total: nat
    var started: nat
    var finished: nat
    var lastErr: Option<nat>
    var armed: bool
    var verdict: Option<Verdict>
    var toDrain: nat
    var attempts: map<nat, Where>

    constructor (total: nat, initialErr: Option<nat>)
      requires total > 0
      ensures this.total == total && View() == Begin(total, initialErr)
    {
      this.total := total;
      started, finished, lastErr, armed, verdict, toDrain, attempts := 1, 0, initialErr, true, None, 0,
        map[0 := Dialing];
    }

    ghost function View(): Race
      reads this
    {
      Race(total, started, finished, lastErr, armed, verdict, toDrain, attempts)
    }

    method StartNext() returns (ok: bool)
      modifies this`started, this`attempts
      ensures ok <==> old(started) < total
      ensures ok ==> View() == Launched(old(View()))
      ensures !ok ==> View() == old(View())
    {
      if started >= total { return false; }
      attempts := attempts[started := Dialing];
      started := started + 1;
      return true;
    }

    method ReturnWith(v: Verdict)
      modifies this`verdict, this`toDrain
      ensures View() == Ended(old(View()), v)
    {
      verdict := Some(v);
      toDrain := if finished <= started then started - finished else 0;
    }

    method TakeResult(i: nat, result: Result)
      modifies this
      ensures View() == OnResult(old(View()), i, result)
    {
      finished, attempts := finished + 1, attempts[i := Received(result)];
      if result.Conn? {
        ReturnWith(Won(i));
        return;
      }
      if result.Error? { lastErr := Some(result.code); }
      if finished == total {
        ReturnWith(Failed(lastErr));
        return;
      }
      if finished == started {
        var ok := StartNext();
        if ok { armed := true; }
      }
    }

    method TimerFired()
      modifies this
      ensures View() == OnTimer(old(View()))
    {
      armed := false;
      var ok := StartNext();
      if ok && started < total { armed := true; }
    }

    method ContextDone()
      modifies this
      ensures View() == Ended(old(View()), Cancelled)
    {
      ReturnWith(Cancelled);
    }
  }
}
