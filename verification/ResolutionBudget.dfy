/**
 The resolution budget of go_backend/extension_resolution_budget.go: an allowance
 of resolver time, paused by native transfers and charged in spite of pauses by
 resolver work, with a timer per running stretch told apart by a generation
 number. `spent` is an independent record of the time that should count.
 */
module ResolutionBudget {
  import opened Options

  datatype Cause = DeadlineExceeded | Canceled

  /**
   `timers` are the callbacks that may still run, by generation, with the time
   they are due: stopping a timer does not recall a callback already waiting for
   the lock. `pausing` and `charging` are the release tokens not used yet.
   */
  datatype Budget = Budget(
    remaining: int, started: int, generation: nat, pauses: int, charges: int, stopped: bool, cause: Option<Cause>,
    timers: map<nat, int>, pausing: set<nat>, charging: set<nat>)

  /** Time counts. */
  predicate Running(b: Budget) {
    b.pauses == 0 || b.charges > 0
  }

  predicate Live(b: Budget) {
    !b.stopped && b.cause.None?
  }

  // ---------------------------------------------------------------- the methods as functions

  function Armed(b: Budget, now: int): Budget {
    b.(started := now, generation := b.generation + 1, timers := b.timers[b.generation + 1 := now + b.remaining])
  }

  function New(allowance: int, now: int): Budget {
    Armed(Budget(allowance, now, 0, 0, 0, false, None, map[], {}, {}), now)
  }

  /** Stop counting: the elapsed time is taken off, and at zero the deadline is reached. */
  function Settled(b: Budget, now: int): Budget {
    var left := b.remaining - (now - b.started);
    var c := b.(generation := b.generation + 1, remaining := if left <= 0 then 0 else left);
    if left <= 0 then c.(cause := if b.cause.Some? then b.cause else Some(DeadlineExceeded)) else c
  }

  function Paused(b: Budget, now: int, token: nat): Budget {
    if !Live(b) then b
    else
      var c := if b.pauses == 0 && b.charges == 0 then Settled(b, now) else b;
      if c.cause.Some? then c else c.(pauses := c.pauses + 1, pausing := c.pausing + {token})
  }

  function PauseReleased(b: Budget, now: int, token: nat): Budget {
    if token !in b.pausing then b
    else
      var c := b.(pauses := b.pauses - 1, pausing := b.pausing - {token});
      if c.pauses == 0 && c.charges == 0 && Live(c) then Armed(c, now) else c
  }

  function Charged(b: Budget, now: int, token: nat): Budget {
    if !Live(b) then b
    else
      var c := if b.charges == 0 && b.pauses > 0 then Armed(b, now) else b;
      c.(charges := c.charges + 1, charging := c.charging + {token})
  }

  function ChargeReleased(b: Budget, now: int, token: nat): Budget {
    if token !in b.charging then b
    else
      var c := b.(charges := b.charges - 1, charging := b.charging - {token});
      if c.charges == 0 && c.pauses > 0 && Live(c) then Settled(c, now) else c
  }

  /** The callback of the timer armed with `generation`. */
  function Fired(b: Budget, generation: nat): Budget {
    var c := b.(timers := b.timers - {generation});
    if b.stopped || (b.pauses > 0 && b.charges == 0) || b.generation != generation then c
    else c.(remaining := 0, cause := if b.cause.Some? then b.cause else Some(DeadlineExceeded))
  }

  function Stopped(b: Budget): Budget {
    b.(stopped := true, generation := b.generation + 1, cause := if b.cause.Some? then b.cause else Some(Canceled))
  }

  function RemainingTime(b: Budget, now: int): int {
    var r := if Running(b) && !b.stopped then b.remaining - (now - b.started) else b.remaining;
    if r < 0 || b.cause.Some? then 0 else r
  }

  // ---------------------------------------------------------------- runs

  /** The budget in time: the clock, the next token, and the record of what should have been spent. */
  datatype World = World(b: Budget, now: int, token: nat, spent: nat)

  datatype Event =
    | Tick(dt: nat)
    | Pause
    | Charge
    | ReleasePause(token: nat)     // any token, used up or never handed out: releasing is idempotent
    | ReleaseCharge(token: nat)
    | Fire(generation: nat)
    | Stop
    | ParentCancel

  /** A callback runs when it is due. */
  predicate Enabled(w: World, e: Event) {
    e.Fire? ==> e.generation in w.b.timers && w.b.timers[e.generation] <= w.now
  }

  function Apply(w: World, e: Event): World {
    match e
    case Tick(dt) => w.(now := w.now + dt, spent := w.spent + if Running(w.b) then dt else 0)
    case Pause => w.(b := Paused(w.b, w.now, w.token), token := w.token + 1)
    case Charge => w.(b := Charged(w.b, w.now, w.token), token := w.token + 1)
    case ReleasePause(t) => w.(b := PauseReleased(w.b, w.now, t))
    case ReleaseCharge(t) => w.(b := ChargeReleased(w.b, w.now, t))
    case Fire(g) => w.(b := Fired(w.b, g))
    case Stop => w.(b := Stopped(w.b))
    case ParentCancel => w.(b := w.b.(cause := if w.b.cause.Some? then w.b.cause else Some(Canceled)))
  }

  function Start(allowance: int, now: int): World {
    World(New(allowance, now), now, 0, 0)
  }

  ghost predicate Run(w: World, trace: seq<Event>, z: World)
    decreases |trace|
  {
    if trace == [] then w == z
    else Enabled(w, trace[0]) && Run(Apply(w, trace[0]), trace[1..], z)
  }

  // ---------------------------------------------------------------- invariant

  ghost predicate Tokens(w: World) {
    && w.b.pauses == |w.b.pausing| && w.b.charges == |w.b.charging|
    && (forall t :: t in w.b.pausing || t in w.b.charging ==> t < w.token)
  }

  /** While nothing ended it, the budget agrees with the record, and the timer for exactly that moment is armed. */
  ghost predicate Accounted(w: World, allowance: int) {
    Live(w.b) ==>
      if Running(w.b) then
        && w.b.remaining - (w.now - w.b.started) == allowance - w.spent
        && w.b.generation in w.b.timers && w.b.timers[w.b.generation] == w.b.started + w.b.remaining
      else w.b.remaining == allowance - w.spent
  }

  ghost predicate Inv(w: World, allowance: int) {
    && Tokens(w) && Accounted(w, allowance)
    && (forall g :: g in w.b.timers ==> g <= w.b.generation)
    && (w.b.stopped ==> w.b.cause.Some?)
    && (w.b.cause == Some(DeadlineExceeded) ==> w.spent >= allowance)
  }

  lemma {:induction false} OneMore(s: set<nat>, t: nat)
    requires t !in s
    ensures |s + {t}| == |s| + 1
  {
  }

  lemma {:induction false} OneLess(s: set<nat>, t: nat)
    requires t in s
    ensures |s - {t}| == |s| - 1
  {
  }

  lemma {:induction false} PauseKeeps(w: World, allowance: int)
    requires Inv(w, allowance)
    ensures Inv(Apply(w, Pause), allowance)
  {
    assert w.token !in w.b.pausing;
    OneMore(w.b.pausing, w.token);
  }

  lemma {:induction false} ChargeKeeps(w: World, allowance: int)
    requires Inv(w, allowance)
    ensures Inv(Apply(w, Charge), allowance)
  {
    assert w.token !in w.b.charging;
    OneMore(w.b.charging, w.token);
  }

  lemma {:induction false} ReleasePauseKeeps(w: World, t: nat, allowance: int)
    requires Inv(w, allowance)
    ensures Inv(Apply(w, ReleasePause(t)), allowance)
  {
    if t in w.b.pausing { OneLess(w.b.pausing, t); }
  }

  lemma {:induction false} ReleaseChargeKeeps(w: World, t: nat, allowance: int)
    requires Inv(w, allowance)
    ensures Inv(Apply(w, ReleaseCharge(t)), allowance)
  {
    if t in w.b.charging { OneLess(w.b.charging, t); }
  }

  lemma {:induction false} FireKeeps(w: World, g: nat, allowance: int)
    requires Inv(w, allowance) && Enabled(w, Fire(g))
    ensures Inv(Apply(w, Fire(g)), allowance)
  {
  }

  lemma {:induction false} OtherKeeps(w: World, e: Event, allowance: int)
    requires Inv(w, allowance) && (e.Tick? || e.Stop? || e.ParentCancel?)
    ensures Inv(Apply(w, e), allowance)
  {
  }

  lemma {:induction false} StepKeeps(w: World, e: Event, allowance: int)
    requires Inv(w, allowance) && Enabled(w, e)
    ensures Inv(Apply(w, e), allowance)
  {
    hide Inv, Apply, Enabled;
    match e
    case Pause => PauseKeeps(w, allowance);
    case Charge => ChargeKeeps(w, allowance);
    case ReleasePause(t) => ReleasePauseKeeps(w, t, allowance);
    case ReleaseCharge(t) => ReleaseChargeKeeps(w, t, allowance);
    case Fire(g) => FireKeeps(w, g, allowance);
    case _ => OtherKeeps(w, e, allowance);
  }

  /** What every run of pauses, charges, releases, timers and clock steps keeps. */
  lemma {:induction false} RunKeeps(w: World, trace: seq<Event>, z: World, allowance: int)
    requires Inv(w, allowance) && Run(w, trace, z)
    ensures Inv(z, allowance)
    decreases |trace|
  {
    hide Inv, Apply, Enabled;
    if trace != [] {
      StepKeeps(w, trace[0], allowance);
      RunKeeps(Apply(w, trace[0]), trace[1..], z, allowance);
    }
  }

  // ---------------------------------------------------------------- results

  function Max0(v: int): int {
    if v < 0 then 0 else v
  }

  /**
   Over every run: the remaining time is the allowance less the time in which no
   pause was held or some charge was held (nothing once the budget ended), and the
   deadline is only ever reached when the allowance is spent.
   */
  lemma {:induction false} AllowanceConserved(allowance: int, start: int, trace: seq<Event>, z: World)
    requires Run(Start(allowance, start), trace, z)
    ensures RemainingTime(z.b, z.now) == if z.b.cause.Some? then 0 else Max0(allowance - z.spent)
    ensures z.b.cause == Some(DeadlineExceeded) ==> z.spent >= allowance
    ensures z.b.pauses == |z.b.pausing| && z.b.charges == |z.b.charging|
    ensures z.spent <= z.now - start
  {
    hide Run, Apply, Enabled;
    RunKeeps(Start(allowance, start), trace, z, allowance);
    SpentOnce(Start(allowance, start), trace, z, start);
  }

  lemma {:induction false} SpentOnce(w: World, trace: seq<Event>, z: World, start: int)
    requires Run(w, trace, z) && w.spent <= w.now - start
    ensures z.spent <= z.now - start
    decreases |trace|
  {
    hide Enabled;
    if trace != [] { SpentOnce(Apply(w, trace[0]), trace[1..], z, start); }
  }

  /**
   In every reachable state a callback ends the budget only if it is the current
   timer's, and that is due exactly when the allowance is spent.
   */
  lemma {:induction false} TimersExact(allowance: int, start: int, trace: seq<Event>, z: World, g: nat)
    requires Run(Start(allowance, start), trace, z) && Live(z.b)
    ensures Running(z.b) ==> (Enabled(z, Fire(z.b.generation)) <==> z.spent >= allowance)
    ensures Enabled(z, Fire(g)) ==>
      (Apply(z, Fire(g)).b.cause.Some? <==> g == z.b.generation && Running(z.b))
    ensures Enabled(z, Fire(g)) && Apply(z, Fire(g)).b.cause.Some? ==> z.spent >= allowance
  {
    hide Run;
    RunKeeps(Start(allowance, start), trace, z, allowance);
  }

  /** Releasing a token a second time does nothing, whatever happened in between. */
  lemma {:induction false} ReleasedOnce(w: World, trace: seq<Event>, z: World, t: nat, allowance: int)
    requires Inv(w, allowance) && t < w.token && t !in w.b.pausing && Run(w, trace, z)
    ensures t < z.token && t !in z.b.pausing && Apply(z, ReleasePause(t)) == z
    decreases |trace|
  {
    hide Enabled, Inv;
    if trace != [] {
      StepKeeps(w, trace[0], allowance);
      ReleasedOnce(Apply(w, trace[0]), trace[1..], z, t, allowance);
    }
  }

  // ---------------------------------------------------------------- the code

  class ResolutionBudget {
    var remaining: int
    var started: int
    var generation: nat
    var pauses: int
    var charges: int
    var stopped: bool
    var cause: Option<Cause>
    var timers: map<nat, int>
    var pausing: set<nat>
    var charging: set<nat>

    constructor (allowance: int, now: int)
      ensures View() == New(allowance, now)
    {
      remaining, started, generation, pauses, charges := allowance, now, 1, 0, 0;
      stopped, cause, timers, pausing, charging := false, None, map[1 := now + allowance], {}, {};
    }

    ghost function View(): Budget
      reads this
    {
      Budget(remaining, started, generation, pauses, charges, stopped, cause, timers, pausing, charging)
    }

    method Cancel(why: Cause)
      modifies this`cause
      ensures cause == if old(cause).Some? then old(cause) else Some(why)
    {
      if cause.None? { cause := Some(why); }
    }

    method ArmLocked(now: int)
      modifies this
      ensures View() == Armed(old(View()), now)
    {
      started := now;
      generation := generation + 1;
      timers := timers[generation := now + remaining];
    }

    /** The stretch that is running ends here. */
    method SettleLocked(now: int)
      modifies this
      ensures View() == Settled(old(View()), now)
    {
      generation := generation + 1;
      remaining := remaining - (now - started);
      if remaining <= 0 {
        remaining := 0;
        Cancel(DeadlineExceeded);
      }
    }

    method Pause(now: int, token: nat)
      modifies this
      ensures View() == Paused(old(View()), now, token)
    {
      if stopped || cause.Some? { return; }
      if pauses == 0 && charges == 0 {
        SettleLocked(now);
        if cause.Some? { return; }
      }
      pauses := pauses + 1;
      pausing := pausing + {token};
    }

    method ReleasePause(now: int, token: nat)
      modifies this
      ensures View() == PauseReleased(old(View()), now, token)
    {
      if token !in pausing { return; }
      pausing := pausing - {token};
      pauses := pauses - 1;
      if pauses == 0 && charges == 0 && !stopped && cause.None? { ArmLocked(now); }
    }

    method Charge(now: int, token: nat)
      modifies this
      ensures View() == Charged(old(View()), now, token)
    {
      if stopped || cause.Some? { return; }
      if charges == 0 && pauses > 0 { ArmLocked(now); }
      charges := charges + 1;
      charging := charging + {token};
    }

    method ReleaseCharge(now: int, token: nat)
      modifies this
      ensures View() == ChargeReleased(old(View()), now, token)
    {
      if token !in charging { return; }
      charging := charging - {token};
      charges := charges - 1;
      if charges == 0 && pauses > 0 && !stopped && cause.None? { SettleLocked(now); }
    }

    method OnTimer(g: nat)
      modifies this
      ensures View() == Fired(old(View()), g)
    {
      timers := timers - {g};
      if stopped || (pauses > 0 && charges == 0) || generation != g { return; }
      remaining := 0;
      Cancel(DeadlineExceeded);
    }

    method Stop()
      modifies this
      ensures View() == Stopped(old(View()))
    {
      stopped := true;
      generation := generation + 1;
      Cancel(Canceled);
    }

    method Remaining(now: int) returns (r: int)
      ensures r == RemainingTime(View(), now)
    {
      r := remaining;
      if (pauses == 0 || charges > 0) && !stopped { r := r - (now - started); }
      if r < 0 || cause.Some? { return 0; }
    }
  }
}
