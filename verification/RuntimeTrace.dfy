/**
 What the runs of RuntimePool do, told by their events: which VMs come into the
 pool and out of it again, which never do, and when a new one may be built.
 */
module RuntimeTrace {
  import opened Options
  import opened RuntimePool

  // ---------------------------------------------------------------- the states of a run

  ghost function StateAt(trace: seq<Event>, k: nat): State
    requires k <= |trace|
  {
    if k == 0 then FRESH
    else
      var s := StateAt(trace, k - 1);
      if Enabled(s, trace[k - 1]) then Apply(s, trace[k - 1]) else s
  }

  /** Every event happens where the code lets it happen. */
  ghost predicate Legal(trace: seq<Event>) {
    forall k :: 0 <= k < |trace| ==> Enabled(StateAt(trace, k), trace[k])
  }

  lemma {:induction false} RunFrom(trace: seq<Event>, k: nat, s: State)
    requires k <= |trace| && Run(StateAt(trace, k), trace[k..], s)
    ensures forall j :: k <= j < |trace| ==> Enabled(StateAt(trace, j), trace[j])
    ensures s == StateAt(trace, |trace|)
    decreases |trace| - k
  {
    hide Apply, Enabled;
    if k < |trace| {
      assert trace[k..][0] == trace[k] && trace[k..][1..] == trace[k + 1..];
      RunFrom(trace, k + 1, s);
    }
  }

  /** A run is a legal trace with its last state. */
  lemma {:induction false} RunIsLegal(trace: seq<Event>, s: State)
    requires Run(FRESH, trace, s)
    ensures Legal(trace) && s == StateAt(trace, |trace|)
  {
    hide Apply, Enabled, Run;
    assert trace[0..] == trace;
    RunFrom(trace, 0, s);
  }

  lemma {:induction false} Reached(trace: seq<Event>, k: nat)
    requires Legal(trace) && k <= |trace|
    ensures Inv(StateAt(trace, k))
    decreases k
  {
    hide Inv, Apply, Enabled;
    if k == 0 {
      FreshInv();
    } else {
      Reached(trace, k - 1);
      StepKeeps(StateAt(trace, k - 1), trace[k - 1]);
    }
  }

  lemma {:induction false} FreshInv()
    ensures Inv(FRESH)
  {
    assert |FRESH.watchers| == 0;
  }

  lemma {:induction false} InvOwned(s: State)
    requires Inv(s)
    ensures Owned(s)
  {
  }

  // ---------------------------------------------------------------- how a call ended

  /** The last call of the job before event `i` returned, and returned this. */
  ghost predicate LastReturned(trace: seq<Event>, i: nat, id: JobId, healthy: bool) {
    i <= |trace| &&
    exists r :: 0 <= r < i && trace[r] == Return(id, healthy) && NoReturn(trace, r + 1, i, id)
  }

  ghost predicate NoReturn(trace: seq<Event>, from: int, to: int, id: JobId)
    requires 0 <= from && to <= |trace|
  {
    forall q :: from <= q < to ==> !(trace[q].Return? && trace[q].id == id)
  }

  ghost predicate FinishedIdle(s: State) {
    forall i :: i in s.jobs && s.jobs[i].task.Finished? ==> s.jobs[i].call.None?
  }

  lemma {:induction false} StepFinished(s: State, e: Event, id: JobId)
    requires Enabled(s, e) && FinishedIdle(s) && id in Apply(s, e).jobs && Apply(s, e).jobs[id].task.Finished?
    ensures id in s.jobs && Apply(s, e).jobs[id].call.None?
    ensures e == Return(id, Apply(s, e).jobs[id].task.healthy) ||
      (!(e.Return? && e.id == id) && s.jobs[id].task == Apply(s, e).jobs[id].task)
  {
  }

  lemma {:induction false} IdleWhenFinished(trace: seq<Event>, k: nat)
    requires Legal(trace) && k <= |trace|
    ensures FinishedIdle(StateAt(trace, k))
    decreases k
  {
    hide Apply, Enabled;
    if k > 0 {
      var s, e := StateAt(trace, k - 1), trace[k - 1];
      IdleWhenFinished(trace, k - 1);
      forall i | i in Apply(s, e).jobs && Apply(s, e).jobs[i].task.Finished?
        ensures Apply(s, e).jobs[i].call.None?
      {
        StepFinished(s, e, i);
      }
    }
  }

  lemma {:induction false} FinishedAs(trace: seq<Event>, k: nat, id: JobId)
    requires Legal(trace) && k <= |trace|
    requires id in StateAt(trace, k).jobs && StateAt(trace, k).jobs[id].task.Finished?
    ensures LastReturned(trace, k, id, StateAt(trace, k).jobs[id].task.healthy)
    decreases k
  {
    hide Apply, Enabled, FinishedIdle;
    if k > 0 {
      var s, e := StateAt(trace, k - 1), trace[k - 1];
      IdleWhenFinished(trace, k - 1);
      StepFinished(s, e, id);
      var h := StateAt(trace, k).jobs[id].task.healthy;
      if e == Return(id, h) {
        assert NoReturn(trace, k, k, id);
      } else {
        FinishedAs(trace, k - 1, id);
        var r :| 0 <= r < k - 1 && trace[r] == Return(id, h) && NoReturn(trace, r + 1, k - 1, id);
        assert NoReturn(trace, r + 1, k, id);
      }
    }
  }

  lemma {:induction false} OneLastReturn(trace: seq<Event>, i: nat, id: JobId)
    ensures !(LastReturned(trace, i, id, true) && LastReturned(trace, i, id, false))
  {
  }

  // ---------------------------------------------------------------- into the pool and out of it

  /** At event `i` an enabled extension's job lets go of the VM behind a call that went well. */
  ghost predicate ReleasedHealthy(trace: seq<Event>, i: nat, vm: Vm) {
    && i < |trace| && trace[i].Release? && trace[i].enabled
    && trace[i].id in StateAt(trace, i).jobs && StateAt(trace, i).jobs[trace[i].id].vm == vm
    && LastReturned(trace, i, trace[i].id, true)
  }

  /** The VM lies in the pool from behind event `i` up to event `k`. */
  ghost predicate PooledSince(trace: seq<Event>, i: nat, k: nat, vm: Vm)
    requires k <= |trace|
  {
    forall j :: i < j <= k ==> vm in StateAt(trace, j).ext.pool
  }

  /** What one event does to the pool. */
  lemma {:induction false} StepPool(s: State, e: Event, vm: Vm)
    requires Enabled(s, e) && vm in Apply(s, e).ext.pool
    ensures vm in s.ext.pool || (e.Release? && e.enabled && s.jobs[e.id].vm == vm &&
      s.jobs[e.id].task == Finished(true))
  {
  }

  /** Every VM in the pool was put there by such a release, and has been there since. */
  lemma {:induction false} PooledBy(trace: seq<Event>, k: nat, vm: Vm) returns (i: nat)
    requires Legal(trace) && k <= |trace| && vm in StateAt(trace, k).ext.pool
    ensures i < k && ReleasedHealthy(trace, i, vm) && PooledSince(trace, i, k, vm)
    decreases k
  {
    hide Apply, Enabled, LastReturned;
    var s, e := StateAt(trace, k - 1), trace[k - 1];
    StepPool(s, e, vm);
    if vm in s.ext.pool {
      i := PooledBy(trace, k - 1, vm);
    } else {
      i := k - 1;
      EnabledRelease(s, e);
      FinishedAs(trace, i, e.id);
    }
  }

  lemma {:induction false} EnabledRelease(s: State, e: Event)
    requires Enabled(s, e) && e.Release?
    ensures e.id in s.jobs && s.jobs[e.id].task.Finished?
  {
  }

  /** The VM was let go by such a release and has been in the pool until event `k`. */
  ghost predicate CameHealthy(trace: seq<Event>, k: nat, vm: Vm)
    requires k <= |trace|
  {
    exists i: nat :: i < k && ReleasedHealthy(trace, i, vm) && PooledSince(trace, i, k, vm)
  }

  lemma {:induction false} StepPop(s: State)
    requires Enabled(s, Pop)
    ensures s.ext.pool != []
    ensures Apply(s, Pop).jobs == s.jobs[s.nextId := Job(s.ext.pool[|s.ext.pool| - 1], Download, None)]
  {
  }

  /** Event `k` hands a new job a VM that came into the pool this way. */
  ghost predicate HandsOutHealthy(trace: seq<Event>, k: nat)
    requires k < |trace|
  {
    exists vm :: CameHealthy(trace, k, vm) && HandedOut(StateAt(trace, k), StateAt(trace, k + 1), vm)
  }

  ghost predicate HandedOut(before: State, after: State, vm: Vm) {
    exists id :: id !in before.jobs && id in after.jobs && after.jobs[id].vm == vm
  }

  lemma {:induction false} PopHandsOut(trace: seq<Event>, k: nat)
    requires Legal(trace) && k < |trace| && trace[k].Pop?
    ensures HandsOutHealthy(trace, k)
  {
    hide Apply, ReleasedHealthy, PooledSince;
    var before := StateAt(trace, k);
    Reached(trace, k);
    NewId(before);
    StepPop(before);
    var vm := before.ext.pool[|before.ext.pool| - 1];
    var i := PooledBy(trace, k, vm);
    assert before.nextId in StateAt(trace, k + 1).jobs && StateAt(trace, k + 1).jobs[before.nextId].vm == vm;
    assert CameHealthy(trace, k, vm);
  }

  /**
   Over every run: what lies in the pool, and what a download is handed out of it, was
   let go by an enabled extension behind a call that went well, and has not been used since.
   */
  lemma {:induction false} OnlyHealthyReused(trace: seq<Event>, s: State)
    requires Run(FRESH, trace, s)
    ensures forall vm :: vm in s.ext.pool ==> CameHealthy(trace, |trace|, vm)
    ensures forall k :: 0 <= k < |trace| && trace[k].Pop? ==> HandsOutHealthy(trace, k)
  {
    hide Run, Apply, Enabled, ReleasedHealthy, PooledSince, HandsOutHealthy;
    RunIsLegal(trace, s);
    forall vm | vm in s.ext.pool ensures CameHealthy(trace, |trace|, vm) {
      var i := PooledBy(trace, |trace|, vm);
    }
    forall k | 0 <= k < |trace| && trace[k].Pop? ensures HandsOutHealthy(trace, k) {
      PopHandsOut(trace, k);
    }
  }

  // ---------------------------------------------------------------- a new runtime

  /** No call of the job has come back unhealthy before event `k`. */
  ghost predicate NeverFailed(trace: seq<Event>, k: nat, id: JobId)
    requires k <= |trace|
  {
    forall r :: 0 <= r < k ==> trace[r] != Return(id, false)
  }

  lemma {:induction false} StepBuild(s: State, e: Event, id: JobId)
    requires Enabled(s, e) && (forall i :: i in s.jobs ==> i < s.nextId)
    requires id >= Apply(s, e).nextId || (id in Apply(s, e).jobs && Apply(s, e).jobs[id].task.Build?)
    ensures e != Return(id, false) && (id >= s.nextId || (id in s.jobs && s.jobs[id].task.Build?))
  {
  }

  lemma {:induction false} BuildNeverFailed(trace: seq<Event>, k: nat, id: JobId)
    requires Legal(trace) && k <= |trace|
    requires id >= StateAt(trace, k).nextId || (id in StateAt(trace, k).jobs && StateAt(trace, k).jobs[id].task.Build?)
    ensures NeverFailed(trace, k, id)
    decreases k
  {
    hide Apply, Enabled, Inv, Owned;
    if k > 0 {
      var s := StateAt(trace, k - 1);
      Reached(trace, k - 1);
      InvOwned(s);
      forall i | i in s.jobs ensures i < s.nextId { JobFacts(s, i); }
      StepBuild(s, trace[k - 1], id);
      BuildNeverFailed(trace, k - 1, id);
    }
  }

  /** A download is given a new runtime only if none of the calls that set it up failed. */
  lemma {:induction false} OnlyHealthyBuilt(trace: seq<Event>, s: State, k: nat)
    requires Run(FRESH, trace, s) && k < |trace| && trace[k].Built?
    ensures NeverFailed(trace, k, trace[k].id)
  {
    hide Run, Apply, NeverFailed;
    RunIsLegal(trace, s);
    BuildNeverFailed(trace, k, trace[k].id);
  }

  // ---------------------------------------------------------------- what a release does

  /** The VM is on its way to being closed, or stuck, or closed. */
  ghost predicate Doomed(s: State, vm: Vm) {
    vm in s.place &&
    match s.place[vm]
    case Closed => true
    case Quarantined(_) => true
    case ByJob(i) => i in s.jobs && s.jobs[i].vm == vm && s.jobs[i].task.Cleanup?
    case _ => false
  }

  lemma {:induction false} DoomedNotPooled(s: State, vm: Vm)
    requires Owned(s) && Doomed(s, vm)
    ensures vm !in s.ext.pool
  {
    forall k | 0 <= k < |s.ext.pool| ensures s.ext.pool[k] != vm {
      assert At(s, s.ext.pool[k], Pooled);
    }
  }

  /** What ownership and the lock say of the VMs that a step may take. */
  ghost predicate Apart(s: State) {
    && (forall i :: i in s.jobs ==> At(s, s.jobs[i].vm, ByJob(i)))
    && (forall i :: i in s.watchers ==> At(s, s.watchers[i].vm, Quarantined(i)))
    && (s.ext.pool != [] ==> At(s, s.ext.pool[|s.ext.pool| - 1], Pooled))
    && (s.lock.None? && s.ext.shared.Some? ==> At(s, s.ext.shared.value, Shared))
    && s.nextId !in s.jobs && s.nextVm !in s.place
  }

  lemma {:induction false} Takeable(s: State)
    requires Guarded(s)
    ensures Apart(s)
  {
    hide Attended;
  }

  lemma {:induction false} StepDoomed(s: State, e: Event, vm: Vm)
    requires Guarded(s) && Enabled(s, e) && Doomed(s, vm)
    ensures Doomed(Apply(s, e), vm)
  {
    Takeable(s);
    hide Guarded, Owned, Attended, Locked;
    if e.Pop? || e.Drain? || e.BuildNew? || e.LockShared? { DoomedTaken(s, e, vm); }
    else if e.Load? { DoomedForgotten(s, vm); }
    else if e.Return? { DoomedReturned(s, e, vm); }
    else if e.Release? || e.GiveUp? || e.Reap? { DoomedLeft(s, e, vm); }
    else { DoomedMarked(s, e, vm); }
  }

  lemma {:induction false} DoomedTaken(s: State, e: Event, vm: Vm)
    requires Enabled(s, e) && Doomed(s, vm) && Apart(s) && (e.Pop? || e.Drain? || e.BuildNew? || e.LockShared?)
    ensures Doomed(Apply(s, e), vm)
  {
  }

  lemma {:induction false} DoomedForgotten(s: State, vm: Vm)
    requires Enabled(s, Load) && Doomed(s, vm) && Apart(s)
    ensures Doomed(Apply(s, Load), vm)
  {
  }

  lemma {:induction false} DoomedReturned(s: State, e: Event, vm: Vm)
    requires Enabled(s, e) && Doomed(s, vm) && Apart(s) && e.Return?
    ensures Doomed(Apply(s, e), vm)
  {
    hide UnderLock;
  }

  lemma {:induction false} DoomedLeft(s: State, e: Event, vm: Vm)
    requires Enabled(s, e) && Doomed(s, vm) && Apart(s) && (e.Release? || e.GiveUp? || e.Reap?)
    ensures Doomed(Apply(s, e), vm)
  {
    hide UnderLock, Unlocked, Registered;
  }

  lemma {:induction false} DoomedMarked(s: State, e: Event, vm: Vm)
    requires Enabled(s, e) && Doomed(s, vm) && Apart(s)
    requires e.Built? || e.BuildFailed? || e.Start? || e.Exit? || e.UnlockShared? || e.DiscardShared?
    ensures Doomed(Apply(s, e), vm)
  {
    hide UnderLock, Unlocked;
  }

  lemma {:induction false} DoomedForEver(trace: seq<Event>, i: nat, k: nat, vm: Vm)
    requires Legal(trace) && i <= k <= |trace| && Doomed(StateAt(trace, i), vm)
    ensures Doomed(StateAt(trace, k), vm) && vm !in StateAt(trace, k).ext.pool
    decreases k
  {
    hide Apply, Enabled, Doomed, Guarded, Owned;
    Reached(trace, k);
    assert Owned(StateAt(trace, k)) by { InvOwned(StateAt(trace, k)); }
    if i < k {
      DoomedForEver(trace, i, k - 1, vm);
      Reached(trace, k - 1);
      StepDoomed(StateAt(trace, k - 1), trace[k - 1], vm);
    }
    DoomedNotPooled(StateAt(trace, k), vm);
  }

  lemma {:induction false} StepRelease(s: State, id: JobId, enabled: bool)
    requires Owned(s) && Enabled(s, Release(id, enabled))
    ensures var t, vm := Apply(s, Release(id, enabled)), s.jobs[id].vm;
      if enabled && s.ext.pool == [] && s.jobs[id].task == Finished(true) then t.ext.pool == [vm] && id !in t.jobs
      else Doomed(t, vm) && t.ext.pool == s.ext.pool
  {
    JobFacts(s, id);
  }

  /**
   A released VM is pooled exactly when the extension is enabled, the job's last call went
   well and the pool is empty; otherwise no later download is handed it.
   */
  lemma {:induction false} ReleasedExactly(trace: seq<Event>, s: State, i: nat, vm: Vm)
    requires Run(FRESH, trace, s) && i < |trace| && trace[i].Release?
    requires trace[i].id in StateAt(trace, i).jobs && StateAt(trace, i).jobs[trace[i].id].vm == vm
    ensures var before, after := StateAt(trace, i), StateAt(trace, i + 1);
      if trace[i].enabled && LastReturned(trace, i, trace[i].id, true) && before.ext.pool == []
      then after.ext.pool == [vm]
      else after.ext.pool == before.ext.pool && forall k: nat :: i < k <= |trace| ==> vm !in StateAt(trace, k).ext.pool
  {
    hide Run, Apply, Enabled, Inv, Owned, Doomed, LastReturned;
    RunIsLegal(trace, s);
    Reached(trace, i);
    var before, after, id := StateAt(trace, i), StateAt(trace, i + 1), trace[i].id;
    InvOwned(before);
    EnabledRelease(before, trace[i]);
    FinishedAs(trace, i, id);
    OneLastReturn(trace, i, id);
    StepRelease(before, id, trace[i].enabled);
    if !(trace[i].enabled && LastReturned(trace, i, id, true) && before.ext.pool == []) {
      forall k: nat | i < k <= |trace| ensures vm !in StateAt(trace, k).ext.pool {
        DoomedForEver(trace, i + 1, k, vm);
      }
    }
  }

  // ---------------------------------------------------------------- the gate

  /** Some caller gave up on its VM before event `k`, and the stuck call has not been reaped. */
  ghost predicate GivenUp(trace: seq<Event>, k: nat, id: JobId) {
    k <= |trace| && exists i :: 0 <= i < k && trace[i] == GiveUp(id) && NotReaped(trace, i + 1, k, id)
  }

  ghost predicate NotReaped(trace: seq<Event>, from: int, to: int, id: JobId)
    requires 0 <= from && to <= |trace|
  {
    forall j :: from <= j < to ==> trace[j] != Reap(id)
  }

  lemma {:induction false} StepWatchers(s: State, e: Event, id: JobId)
    requires Enabled(s, e)
    ensures id in Apply(s, e).watchers <==> e == GiveUp(id) || (id in s.watchers && e != Reap(id))
  {
  }

  lemma {:induction false} WatchedExactly(trace: seq<Event>, k: nat, id: JobId)
    requires Legal(trace) && k <= |trace|
    ensures id in StateAt(trace, k).watchers <==> GivenUp(trace, k, id)
    decreases k
  {
    hide Apply, Enabled;
    if k > 0 {
      WatchedExactly(trace, k - 1, id);
      StepWatchers(StateAt(trace, k - 1), trace[k - 1], id);
      GivenUpStep(trace, k, id);
    }
  }

  lemma {:induction false} GivenUpStep(trace: seq<Event>, k: nat, id: JobId)
    requires 0 < k <= |trace|
    ensures GivenUp(trace, k, id) <==>
      trace[k - 1] == GiveUp(id) || (GivenUp(trace, k - 1, id) && trace[k - 1] != Reap(id))
  {
    if trace[k - 1] == GiveUp(id) {
      assert NotReaped(trace, k, k, id);
    } else if GivenUp(trace, k - 1, id) && trace[k - 1] != Reap(id) {
      var i :| 0 <= i < k - 1 && trace[i] == GiveUp(id) && NotReaped(trace, i + 1, k - 1, id);
      assert NotReaped(trace, i + 1, k, id);
    }
    if GivenUp(trace, k, id) && trace[k - 1] != GiveUp(id) {
      var i :| 0 <= i < k && trace[i] == GiveUp(id) && NotReaped(trace, i + 1, k, id);
      assert NotReaped(trace, i + 1, k - 1, id);
    }
  }

  /** With VMMu free a runtime may be built exactly when every call given up on has been reaped. */
  lemma {:induction false} GateExactly(trace: seq<Event>, s: State)
    requires Run(FRESH, trace, s)
    ensures forall k :: 0 <= k < |trace| && trace[k].BuildNew? ==> forall id :: !GivenUp(trace, k, id)
    ensures s.lock.None? ==> (Enabled(s, BuildNew) <==> forall id :: !GivenUp(trace, |trace|, id))
  {
    hide Run, Apply, GivenUp;
    RunIsLegal(trace, s);
    forall k | 0 <= k < |trace| && trace[k].BuildNew? ensures forall id :: !GivenUp(trace, k, id) {
      OpenExactly(trace, k);
    }
    OpenExactly(trace, |trace|);
  }

  lemma {:induction false} OpenExactly(trace: seq<Event>, k: nat)
    requires Legal(trace) && k <= |trace|
    ensures StateAt(trace, k).ext.quarantined == 0 <==> forall id :: !GivenUp(trace, k, id)
  {
    hide Apply, Enabled, GivenUp, Owned, Attended, Locked, Placed;
    var s := StateAt(trace, k);
    Reached(trace, k);
    forall id ensures id in s.watchers <==> GivenUp(trace, k, id) { WatchedExactly(trace, k, id); }
    assert |s.watchers| == 0 <==> s.watchers == map[];
    if s.watchers != map[] { var id :| id in s.watchers; }
  }
}
