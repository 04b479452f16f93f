/**
 Ownership of JavaScript VMs in go_backend/extension_timeout.go,
 extension_manager_runtime.go and extension_provider_wrapper.go. A VM is not
 thread-safe: a call runs in its own goroutine, the caller may give up on it
 after interrupt and grace, and then nobody may touch the VM until the goroutine
 exits. `place` records, beside the code's own variables, where each VM is.
 */
module RuntimePool {
  import opened Options

  type Vm = nat
  type Goroutine = nat
  type JobId = nat

  const MAX_IDLE: nat := 1

  /** The fields of one loaded extension that the protocol shares. */
  datatype Ext = Ext(pool: seq<Vm>, quarantined: nat, shared: Option<Vm>)

  /** What a job does with its VM. `Finished` is a download whose call returned, healthy or not. */
  datatype Task = Build | Download | Finished(healthy: bool) | Cleanup | SharedCall | SharedCleanup

  /** Local variables of one caller: its VM, its task, the goroutine it waits for. */
  datatype Job = Job(vm: Vm, task: Task, call: Option<Goroutine>)

  /** A goroutine waiting for a stuck call to end. */
  datatype Watcher = Watcher(vm: Vm, call: Goroutine)

  datatype Place = ByJob(id: JobId) | Pooled | Quarantined(id: JobId) | Shared | Closed

  datatype State = State(
    ext: Ext, lock: Option<JobId>, jobs: map<JobId, Job>, watchers: map<JobId, Watcher>,
    running: map<Goroutine, Vm>, place: map<Vm, Place>, nextVm: nat, nextId: nat)

  datatype Event =
    | Pop                                // acquire: an idle runtime
    | BuildNew                           // acquire: a new one, under VMMu
    | Built(id: JobId)                   // ... handed to the download
    | BuildFailed(id: JobId)             // ... closed after a safe failure
    | Start(id: JobId)                   // the call's goroutine starts on the VM
    | Exit(g: Goroutine)                 // the call returns in its goroutine
    | Return(id: JobId, healthy: bool)   // the caller receives the result
    | GiveUp(id: JobId)                  // interrupt and grace passed: RuntimeUnsafe
    | Release(id: JobId, enabled: bool)  // a finished download lets go
    | Drain                              // an idle runtime is taken for cleanup
    | Reap(id: JobId)                    // a watched goroutine has exited
    | Load                               // a new shared VM, under VMMu
    | LockShared(teardown: bool)         // VMMu for a call or the cleanup of the shared VM
    | UnlockShared(id: JobId)
    | DiscardShared(id: JobId)           // the shared VM failed safely while it was set up

  // ---------------------------------------------------------------- the shared fields

  function PopIdle(e: Ext): Ext
    requires e.pool != []
  {
    e.(pool := e.pool[..|e.pool| - 1])
  }

  /** registerQuarantinedRuntime, and quarantineRuntimeLocked when the VM is the shared one. */
  function Registered(e: Ext, vm: Vm): Ext {
    e.(quarantined := e.quarantined + 1, shared := if e.shared == Some(vm) then None else e.shared)
  }

  /** What its goroutine does when the stuck call has ended. */
  function Unregistered(e: Ext): Ext {
    e.(quarantined := if e.quarantined > 0 then e.quarantined - 1 else 0)
  }

  predicate FitsPool(e: Ext, healthy: bool, enabled: bool) {
    healthy && enabled && |e.pool| < MAX_IDLE
  }

  // ---------------------------------------------------------------- steps

  /** The task holds VMMu throughout. */
  predicate UnderLock(t: Task) {
    t.Build? || t.SharedCall? || t.SharedCleanup?
  }

  predicate Idle(s: State, id: JobId) {
    id in s.jobs && s.jobs[id].call.None?
  }

  predicate Waiting(s: State, id: JobId) {
    id in s.jobs && s.jobs[id].call.Some?
  }

  /** What the code's own control flow and locks let happen; nothing here asks whether a VM is running. */
  predicate Enabled(s: State, e: Event) {
    match e
    case Pop => s.ext.pool != []
    case BuildNew => s.lock.None? && s.ext.quarantined == 0
    case Built(id) => Idle(s, id) && s.jobs[id].task == Build
    case BuildFailed(id) => Idle(s, id) && s.jobs[id].task == Build
    case Start(id) => Idle(s, id) && !s.jobs[id].task.Finished?
    case Exit(g) => g in s.running
    case Return(id, _) => Waiting(s, id) && s.jobs[id].call.value !in s.running
    case GiveUp(id) => Waiting(s, id)
    case Release(id, _) => Idle(s, id) && s.jobs[id].task.Finished?
    case Drain => s.ext.pool != []
    case Reap(id) => id in s.watchers && s.watchers[id].call !in s.running
    case Load => s.lock.None?
    case LockShared(_) => s.lock.None? && s.ext.shared.Some?
    case UnlockShared(id) => Idle(s, id) && s.jobs[id].task == SharedCall
    case DiscardShared(id) => Idle(s, id) && s.jobs[id].task == SharedCall
  }

  function Unlocked(s: State, t: Task): Option<JobId> {
    if UnderLock(t) then None else s.lock
  }

  /** A job ends and its VM goes to `p`. */
  function Dropped(s: State, id: JobId, p: Place): State
    requires id in s.jobs
  {
    s.(jobs := s.jobs - {id}, place := s.place[s.jobs[id].vm := p], lock := Unlocked(s, s.jobs[id].task))
  }

  /** A new job takes the VM. */
  function Taken(s: State, vm: Vm, t: Task): State {
    s.(jobs := s.jobs[s.nextId := Job(vm, t, None)], place := s.place[vm := ByJob(s.nextId)], nextId := s.nextId + 1,
       lock := if UnderLock(t) then Some(s.nextId) else s.lock)
  }

  function SetJob(s: State, id: JobId, j: Job): State {
    s.(jobs := s.jobs[id := j])
  }

  /** initializeVMLocked drops the shared VM it finds. */
  function Forgotten(s: State): State {
    if s.ext.shared.Some? then s.(place := s.place[s.ext.shared.value := Closed]) else s
  }

  /** A call came back: the next thing its caller does. */
  function Returned(s: State, id: JobId, healthy: bool): State
    requires id in s.jobs
  {
    var j := s.jobs[id];
    match j.task
    case Build => if healthy then SetJob(s, id, j.(call := None)) else Dropped(s, id, Closed)
    case Download => SetJob(s, id, j.(task := Finished(healthy), call := None))
    case Cleanup => Dropped(s, id, Closed)
    case SharedCall => SetJob(s, id, j.(call := None))
    case SharedCleanup => Dropped(s, id, Closed).(ext := s.ext.(shared := None))
    case Finished(_) => s
  }

  function Apply(s: State, e: Event): State
    requires Enabled(s, e)
  {
    match e
    case Pop => Taken(s, s.ext.pool[|s.ext.pool| - 1], Download).(ext := PopIdle(s.ext))
    case BuildNew => Taken(s, s.nextVm, Build).(nextVm := s.nextVm + 1)
    case Built(id) => SetJob(s, id, s.jobs[id].(task := Download)).(lock := None)
    case BuildFailed(id) => Dropped(s, id, Closed)
    case Start(id) =>
      SetJob(s, id, s.jobs[id].(call := Some(s.nextId)))
        .(running := s.running[s.nextId := s.jobs[id].vm], nextId := s.nextId + 1)
    case Exit(g) => s.(running := s.running - {g})
    case Return(id, healthy) => Returned(s, id, healthy)
    case GiveUp(id) =>
      Dropped(s, id, Quarantined(id))
        .(watchers := s.watchers[id := Watcher(s.jobs[id].vm, s.jobs[id].call.value)],
          ext := Registered(s.ext, s.jobs[id].vm))
    case Release(id, enabled) =>
      if FitsPool(s.ext, s.jobs[id].task.healthy, enabled) then
        Dropped(s, id, Pooled).(ext := s.ext.(pool := s.ext.pool + [s.jobs[id].vm]))
      else
        SetJob(s, id, s.jobs[id].(task := Cleanup))
    case Drain => Taken(s, s.ext.pool[|s.ext.pool| - 1], Cleanup).(ext := PopIdle(s.ext))
    case Reap(id) =>
      s.(watchers := s.watchers - {id}, place := s.place[s.watchers[id].vm := Closed], ext := Unregistered(s.ext))
    case Load =>
      Taken(Forgotten(s), s.nextVm, SharedCall).(nextVm := s.nextVm + 1, ext := s.ext.(shared := Some(s.nextVm)))
    case LockShared(teardown) => Taken(s, s.ext.shared.value, if teardown then SharedCleanup else SharedCall)
    case UnlockShared(id) => Dropped(s, id, Shared)
    case DiscardShared(id) => Dropped(s, id, Closed).(ext := s.ext.(shared := None))
  }

  ghost predicate Run(s: State, trace: seq<Event>, t: State)
    decreases |trace|
  {
    if trace == [] then s == t else Enabled(s, trace[0]) && Run(Apply(s, trace[0]), trace[1..], t)
  }

  // ---------------------------------------------------------------- invariant

  predicate At(s: State, vm: Vm, p: Place) {
    vm in s.place && s.place[vm] == p
  }

  /** Every variable that refers to a VM is its one owner. */
  ghost predicate Owned(s: State) {
    && (forall i :: i in s.jobs ==> At(s, s.jobs[i].vm, ByJob(i)) && i < s.nextId && i !in s.watchers)
    && (forall i :: i in s.watchers ==> At(s, s.watchers[i].vm, Quarantined(i)) && i < s.nextId)
    && (forall k :: 0 <= k < |s.ext.pool| ==> At(s, s.ext.pool[k], Pooled))
    && |s.ext.pool| <= MAX_IDLE
    && (forall v :: v in s.place ==> v < s.nextVm)
  }

  /** A running call belongs to the job that waits for it, or to the watcher of a quarantined VM. */
  ghost predicate Attended(s: State) {
    forall g :: g in s.running ==> g < s.nextId && AttendedBy(s, g, s.running[g])
  }

  predicate AttendedBy(s: State, g: Goroutine, vm: Vm) {
    vm in s.place &&
    match s.place[vm]
    case ByJob(i) => i in s.jobs && s.jobs[i].vm == vm && s.jobs[i].call == Some(g)
    case Quarantined(i) => i in s.watchers && s.watchers[i] == Watcher(vm, g)
    case _ => false
  }

  /** VMMu is held by the one job that needs it, and the shared VM is free or with that job. */
  ghost predicate Locked(s: State) {
    && (forall i :: i in s.jobs && UnderLock(s.jobs[i].task) ==> s.lock == Some(i))
    && (s.ext.shared.Some? ==>
          var v := s.ext.shared.value;
          At(s, v, Shared) ||
          (s.lock.Some? && s.lock.value in s.jobs && s.jobs[s.lock.value].vm == v && !s.jobs[s.lock.value].task.Build?
           && UnderLock(s.jobs[s.lock.value].task)))
    && (forall i :: i in s.jobs && (s.jobs[i].task.SharedCall? || s.jobs[i].task.SharedCleanup?)
          ==> s.ext.shared == Some(s.jobs[i].vm))
  }

  ghost predicate Guarded(s: State) {
    Owned(s) && Attended(s) && Locked(s) && s.ext.quarantined == |s.watchers|
  }

  /** Whoever a VM is said to be with has it: no VM that was made is lost. */
  ghost predicate Placed(s: State) {
    && (forall v :: 0 <= v < s.nextVm ==> v in s.place)
    && (forall v :: v in s.place ==> HeldBy(s, v, s.place[v]))
  }

  predicate HeldBy(s: State, v: Vm, p: Place) {
    match p
    case ByJob(i) => i in s.jobs && s.jobs[i].vm == v
    case Pooled => v in s.ext.pool
    case Quarantined(i) => i in s.watchers && s.watchers[i].vm == v
    case Shared => s.ext.shared == Some(v)
    case Closed => true
  }

  ghost predicate Inv(s: State) {
    Guarded(s) && Placed(s)
  }

  /** No goroutine executes on the VM. */
  ghost predicate Quiet(s: State, vm: Vm) {
    forall g :: g in s.running ==> s.running[g] != vm
  }

  /** A VM that is not with a waiting job or a watcher is quiet. */
  lemma {:induction false} QuietVm(s: State, vm: Vm)
    requires Guarded(s)
    requires vm !in s.place
      || s.place[vm] == Pooled || s.place[vm] == Shared || s.place[vm] == Closed
      || (s.place[vm].ByJob? && s.place[vm].id in s.jobs &&
          (s.jobs[s.place[vm].id].call.Some? ==> s.jobs[s.place[vm].id].call.value !in s.running))
      || (s.place[vm].Quarantined? && s.place[vm].id in s.watchers && s.watchers[s.place[vm].id].call !in s.running)
    ensures Quiet(s, vm)
  {
    forall g | g in s.running ensures s.running[g] != vm {
      assert AttendedBy(s, g, s.running[g]);
    }
  }

  /** Only what concerns the quiet VM `vm` changed. */
  ghost predicate SameElsewhere(s: State, t: State, vm: Vm) {
    && t.running == s.running && s.nextId <= t.nextId
    && (forall v :: v in s.place && v != vm ==> v in t.place && t.place[v] == s.place[v])
    && (forall i :: i in s.jobs && s.jobs[i].vm != vm ==> i in t.jobs && t.jobs[i] == s.jobs[i])
    && (forall i :: i in s.watchers && s.watchers[i].vm != vm ==> i in t.watchers && t.watchers[i] == s.watchers[i])
  }

  lemma {:induction false} AttendedAway(s: State, t: State, vm: Vm)
    requires Attended(s) && Quiet(s, vm) && SameElsewhere(s, t, vm)
    ensures Attended(t)
  {
    forall g | g in t.running ensures g < t.nextId && AttendedBy(t, g, t.running[g]) {
      assert AttendedBy(s, g, s.running[g]);
    }
  }

  /** A quiet VM that belongs to no job is taken by a new one. */
  lemma {:induction false} TakenOwned(s: State, vm: Vm, task: Task, ext: Ext, nextVm: nat)
    requires Owned(s) && vm < nextVm && s.nextVm <= nextVm && |ext.pool| <= MAX_IDLE
    requires vm in s.place ==> s.place[vm] == Pooled || s.place[vm] == Shared
    requires forall k :: 0 <= k < |ext.pool| ==> ext.pool[k] != vm && At(s, ext.pool[k], Pooled)
    ensures Owned(Taken(s, vm, task).(ext := ext, nextVm := nextVm))
    ensures SameElsewhere(s, Taken(s, vm, task), vm)
  {
    hide UnderLock;
    var t := Taken(s, vm, task).(ext := ext, nextVm := nextVm);
    forall i | i in t.jobs ensures At(t, t.jobs[i].vm, ByJob(i)) && i < t.nextId && i !in t.watchers {
      if i != s.nextId { assert At(s, s.jobs[i].vm, ByJob(i)); }
    }
    forall i | i in t.watchers ensures At(t, t.watchers[i].vm, Quarantined(i)) && i < t.nextId {
      assert At(s, s.watchers[i].vm, Quarantined(i));
    }
  }

  lemma {:induction false} DroppedOwned(s: State, id: JobId, p: Place)
    requires Owned(s) && id in s.jobs && (p == Closed || p == Shared || p == Pooled)
    ensures Owned(Dropped(s, id, p)) && SameElsewhere(s, Dropped(s, id, p), s.jobs[id].vm)
  {
    hide UnderLock, Unlocked;
    JobFacts(s, id);
  }

  lemma {:induction false} PopKeeps(s: State, e: Event)
    requires Guarded(s) && Enabled(s, e) && (e.Pop? || e.Drain?)
    ensures Guarded(Apply(s, e))
  {
    PopLocked(s, e);
    hide Locked;
    var vm := s.ext.pool[|s.ext.pool| - 1];
    QuietVm(s, vm);
    TakenOwned(s, vm, if e.Pop? then Download else Cleanup, PopIdle(s.ext), s.nextVm);
    AttendedAway(s, Apply(s, e), vm);
  }

  lemma {:induction false} PopLocked(s: State, e: Event)
    requires Guarded(s) && Enabled(s, e) && (e.Pop? || e.Drain?)
    ensures Locked(Apply(s, e))
  {
    var vm := s.ext.pool[|s.ext.pool| - 1];
    NewId(s);
    assert At(s, vm, Pooled);
    forall i | i in s.jobs ensures s.jobs[i].vm != vm { assert At(s, s.jobs[i].vm, ByJob(i)); }
    hide Attended, Owned, Locked, Taken;
    PooledTakenLocked(s, vm, if e.Pop? then Download else Cleanup, PopIdle(s.ext));
  }

  lemma {:induction false} PooledTakenLocked(s: State, vm: Vm, task: Task, ext: Ext)
    requires Locked(s) && s.nextId !in s.jobs && At(s, vm, Pooled) && ext.shared == s.ext.shared
    requires (task.Download? || task.Cleanup?) && forall i :: i in s.jobs ==> s.jobs[i].vm != vm
    ensures Locked(Taken(s, vm, task).(ext := ext))
  {
  }

  lemma {:induction false} NewId(s: State)
    requires Owned(s)
    ensures s.nextId !in s.jobs
  {
  }

  lemma {:induction false} BuildKeeps(s: State)
    requires Guarded(s) && Enabled(s, BuildNew)
    ensures Guarded(Apply(s, BuildNew))
  {
    hide Locked;
    QuietVm(s, s.nextVm);
    TakenOwned(s, s.nextVm, Build, s.ext, s.nextVm + 1);
    AttendedAway(s, Apply(s, BuildNew), s.nextVm);
    BuildLocked(s);
  }

  lemma {:induction false} BuildLocked(s: State)
    requires Guarded(s) && Enabled(s, BuildNew)
    ensures Locked(Apply(s, BuildNew))
  {
    hide Attended;
  }

  lemma {:induction false} LoadKeeps(s: State)
    requires Guarded(s) && Enabled(s, Load)
    ensures Guarded(Apply(s, Load))
  {
    hide Locked;
    var t := Apply(s, Load);
    LoadLocked(s);
    var d := Forgotten(s);
    ForgottenKeeps(s);
    QuietVm(s, s.nextVm);
    TakenOwned(d, s.nextVm, SharedCall, s.ext.(shared := Some(s.nextVm)), s.nextVm + 1);
    AttendedAway(d, t, s.nextVm);
  }

  lemma {:induction false} ForgottenKeeps(s: State)
    requires Guarded(s) && (s.ext.shared.Some? ==> At(s, s.ext.shared.value, Shared))
    ensures Owned(Forgotten(s)) && Attended(Forgotten(s))
  {
    hide Locked;
    if s.ext.shared.Some? {
      QuietVm(s, s.ext.shared.value);
      AttendedAway(s, Forgotten(s), s.ext.shared.value);
    }
  }

  lemma {:induction false} LoadLocked(s: State)
    requires Guarded(s) && Enabled(s, Load)
    ensures Locked(Apply(s, Load))
    ensures s.ext.shared.Some? ==> At(s, s.ext.shared.value, Shared)
  {
    hide Attended;
  }

  lemma {:induction false} LockKeeps(s: State, teardown: bool)
    requires Guarded(s) && Enabled(s, LockShared(teardown))
    ensures Guarded(Apply(s, LockShared(teardown)))
  {
    hide Locked;
    var vm := s.ext.shared.value;
    LockLocked(s, teardown);
    QuietVm(s, vm);
    TakenOwned(s, vm, if teardown then SharedCleanup else SharedCall, s.ext, s.nextVm);
    AttendedAway(s, Apply(s, LockShared(teardown)), vm);
  }

  lemma {:induction false} LockLocked(s: State, teardown: bool)
    requires Guarded(s) && Enabled(s, LockShared(teardown))
    ensures Locked(Apply(s, LockShared(teardown)))
    ensures At(s, s.ext.shared.value, Shared)
  {
    hide Attended;
  }

  /** A job ends; the pool may have got its VM. */
  lemma {:induction false} DropKeeps(s: State, id: JobId, p: Place, ext: Ext)
    requires Guarded(s) && id in s.jobs && (s.jobs[id].call.Some? ==> s.jobs[id].call.value !in s.running)
    requires ext.quarantined == s.ext.quarantined
    requires (p == Closed && ext.pool == s.ext.pool) || (p == Shared && ext.pool == s.ext.pool)
      || (p == Pooled && s.ext.pool == [] && ext.pool == [s.jobs[id].vm])
    requires Locked(Dropped(s, id, p).(ext := ext))
    ensures Guarded(Dropped(s, id, p).(ext := ext))
  {
    hide Locked, Attended, Owned, Unlocked, SameElsewhere;
    DropAttended(s, id, p, ext);
    DropOwned(s, id, p, ext);
  }

  lemma {:induction false} DropOwned(s: State, id: JobId, p: Place, ext: Ext)
    requires Owned(s) && id in s.jobs
    requires (p == Closed && ext.pool == s.ext.pool) || (p == Shared && ext.pool == s.ext.pool)
      || (p == Pooled && s.ext.pool == [] && ext.pool == [s.jobs[id].vm])
    ensures Owned(Dropped(s, id, p).(ext := ext))
  {
    hide SameElsewhere, Unlocked, UnderLock;
    DroppedOwned(s, id, p);
  }

  lemma {:induction false} DropAttended(s: State, id: JobId, p: Place, ext: Ext)
    requires Guarded(s) && id in s.jobs && (s.jobs[id].call.Some? ==> s.jobs[id].call.value !in s.running)
    requires p == Closed || p == Shared || p == Pooled
    ensures Attended(Dropped(s, id, p).(ext := ext))
  {
    var vm := s.jobs[id].vm;
    JobFacts(s, id);
    QuietVm(s, vm);
    DroppedOwned(s, id, p);
    hide Owned, Locked, Unlocked;
    AttendedAway(s, Dropped(s, id, p).(ext := ext), vm);
  }

  /** A job changes its task or notes that its call is over. */
  lemma {:induction false} SetKeeps(s: State, id: JobId, j: Job)
    requires Guarded(s) && id in s.jobs && j.vm == s.jobs[id].vm && j.call.None?
    requires s.jobs[id].call.Some? ==> s.jobs[id].call.value !in s.running
    requires Locked(SetJob(s, id, j))
    ensures Guarded(SetJob(s, id, j))
  {
    hide Locked;
    QuietVm(s, j.vm);
    AttendedAway(s, SetJob(s, id, j), j.vm);
  }

  lemma {:induction false} BuiltKeeps(s: State, id: JobId)
    requires Guarded(s) && Enabled(s, Built(id))
    ensures Guarded(Apply(s, Built(id)))
  {
    var t := Apply(s, Built(id));
    QuietVm(s, s.jobs[id].vm);
    AttendedAway(s, t, s.jobs[id].vm);
    BuiltLocked(s, id);
  }

  lemma {:induction false} BuiltLocked(s: State, id: JobId)
    requires Guarded(s) && Enabled(s, Built(id))
    ensures Locked(Apply(s, Built(id)))
  {
    hide Attended;
  }

  lemma {:induction false} ReleaseKeeps(s: State, id: JobId, enabled: bool)
    requires Guarded(s) && Enabled(s, Release(id, enabled))
    ensures Guarded(Apply(s, Release(id, enabled)))
  {
    ReleaseLocked(s, id, enabled);
    hide Locked;
    if FitsPool(s.ext, s.jobs[id].task.healthy, enabled) {
      assert s.ext.pool == [] && s.ext.pool + [s.jobs[id].vm] == [s.jobs[id].vm];
      DropKeeps(s, id, Pooled, s.ext.(pool := s.ext.pool + [s.jobs[id].vm]));
    } else {
      SetKeeps(s, id, s.jobs[id].(task := Cleanup));
    }
  }

  lemma {:induction false} ReleaseLocked(s: State, id: JobId, enabled: bool)
    requires Guarded(s) && Enabled(s, Release(id, enabled))
    ensures Locked(Apply(s, Release(id, enabled)))
  {
    hide Attended;
  }

  lemma {:induction false} EndKeeps(s: State, e: Event)
    requires Guarded(s) && Enabled(s, e) && (e.BuildFailed? || e.UnlockShared? || e.DiscardShared?)
    ensures Guarded(Apply(s, e))
  {
    EndLocked(s, e);
    hide Locked;
    match e
    case BuildFailed(id) => DropKeeps(s, id, Closed, s.ext);
    case UnlockShared(id) => DropKeeps(s, id, Shared, s.ext);
    case DiscardShared(id) => DropKeeps(s, id, Closed, s.ext.(shared := None));
  }

  lemma {:induction false} EndLocked(s: State, e: Event)
    requires Guarded(s) && Enabled(s, e) && (e.BuildFailed? || e.UnlockShared? || e.DiscardShared?)
    ensures Locked(Apply(s, e))
  {
    match e
    case BuildFailed(id) => PlainDropLocked(s, id);
    case UnlockShared(id) => UnlockLocked(s, id);
    case DiscardShared(id) => DiscardLocked(s, id);
  }

  lemma {:induction false} UnlockLocked(s: State, id: JobId)
    requires Guarded(s) && Enabled(s, UnlockShared(id))
    ensures Locked(Apply(s, UnlockShared(id)))
  {
    hide Attended;
  }

  lemma {:induction false} DiscardLocked(s: State, id: JobId)
    requires Guarded(s) && Enabled(s, DiscardShared(id))
    ensures Locked(Apply(s, DiscardShared(id)))
  {
    hide Attended;
  }

  lemma {:induction false} ReturnKeeps(s: State, id: JobId, healthy: bool)
    requires Guarded(s) && Enabled(s, Return(id, healthy))
    ensures Guarded(Apply(s, Return(id, healthy)))
  {
    ReturnLocked(s, id, healthy);
    hide Locked;
    var j := s.jobs[id];
    match j.task
    case Build => if healthy { SetKeeps(s, id, j.(call := None)); } else { DropKeeps(s, id, Closed, s.ext); }
    case Download => SetKeeps(s, id, j.(task := Finished(healthy), call := None));
    case Cleanup => DropKeeps(s, id, Closed, s.ext);
    case SharedCall => SetKeeps(s, id, j.(call := None));
    case SharedCleanup => DropKeeps(s, id, Closed, s.ext.(shared := None));
    case Finished(_) =>
  }

  lemma {:induction false} ReturnLocked(s: State, id: JobId, healthy: bool)
    requires Guarded(s) && Enabled(s, Return(id, healthy))
    ensures Locked(Apply(s, Return(id, healthy)))
  {
    hide Attended;
    var j := s.jobs[id];
    if j.task.SharedCleanup? {
      ReturnSharedCleanup(s, id, healthy);
    } else if j.task.Cleanup? || (j.task.Build? && !healthy) {
      PlainDropLocked(s, id);
    } else if !j.task.Finished? {
      SetLocked(s, id, if j.task.Download? then j.(task := Finished(healthy), call := None) else j.(call := None));
    }
  }

  lemma {:induction false} ReturnSharedCleanup(s: State, id: JobId, healthy: bool)
    requires Guarded(s) && Enabled(s, Return(id, healthy)) && s.jobs[id].task.SharedCleanup?
    ensures Locked(Apply(s, Return(id, healthy)))
  {
    hide Attended;
  }

  lemma {:induction false} PlainDropLocked(s: State, id: JobId)
    requires Guarded(s) && id in s.jobs && !s.jobs[id].task.SharedCall? && !s.jobs[id].task.SharedCleanup?
    ensures Locked(Dropped(s, id, Closed))
  {
    hide Attended;
  }

  lemma {:induction false} SetLocked(s: State, id: JobId, j: Job)
    requires Guarded(s) && id in s.jobs && j.vm == s.jobs[id].vm
    requires j.task == s.jobs[id].task || (!UnderLock(j.task) && !UnderLock(s.jobs[id].task))
    ensures Locked(SetJob(s, id, j))
  {
    hide Attended, Owned;
  }

  lemma {:induction false} StartKeeps(s: State, id: JobId)
    requires Guarded(s) && Enabled(s, Start(id))
    ensures Guarded(Apply(s, Start(id)))
  {
    var t := Apply(s, Start(id));
    forall g | g in t.running ensures AttendedBy(t, g, t.running[g]) {
      if g != s.nextId { assert AttendedBy(s, g, s.running[g]); }
    }
  }

  lemma {:induction false} GiveUpKeeps(s: State, id: JobId)
    requires Guarded(s) && Enabled(s, GiveUp(id))
    ensures Guarded(Apply(s, GiveUp(id)))
  {
    hide Locked, Owned, Attended, Apply, Enabled;
    GiveUpLocked(s, id);
    GiveUpOwned(s, id);
    GiveUpAttended(s, id);
    GiveUpCounted(s, id);
  }

  lemma {:induction false} OneMoreWatcher(m: map<JobId, Watcher>, id: JobId, w: Watcher)
    requires id !in m
    ensures |m[id := w]| == |m| + 1
  {
    assert m[id := w].Keys == m.Keys + {id};
  }

  lemma {:induction false} GiveUpCounted(s: State, id: JobId)
    requires Guarded(s) && Enabled(s, GiveUp(id)) && id !in s.watchers
    ensures Apply(s, GiveUp(id)).ext.quarantined == |Apply(s, GiveUp(id)).watchers|
  {
    hide Locked, Owned, Attended;
    OneMoreWatcher(s.watchers, id, Watcher(s.jobs[id].vm, s.jobs[id].call.value));
  }

  /** What ownership says of one job. */
  lemma {:induction false} JobFacts(s: State, id: JobId)
    requires Owned(s) && id in s.jobs
    ensures At(s, s.jobs[id].vm, ByJob(id)) && id < s.nextId && id !in s.watchers && s.jobs[id].vm < s.nextVm
    ensures forall i :: i in s.jobs && s.jobs[i].vm == s.jobs[id].vm ==> i == id
    ensures forall i :: i in s.watchers ==> s.watchers[i].vm != s.jobs[id].vm
    ensures forall k :: 0 <= k < |s.ext.pool| ==> s.ext.pool[k] != s.jobs[id].vm
  {
  }

  lemma {:induction false} GiveUpOwned(s: State, id: JobId)
    requires Guarded(s) && Enabled(s, GiveUp(id))
    ensures Owned(Apply(s, GiveUp(id))) && id !in s.watchers
  {
    var t := Apply(s, GiveUp(id));
    JobFacts(s, id);
    GiveUpWatchers(s, id, t);
    GiveUpJobs(s, id, t);
    GiveUpPool(s, id, t);
  }

  lemma {:induction false} GiveUpJobs(s: State, id: JobId, t: State)
    requires Guarded(s) && Enabled(s, GiveUp(id)) && t == Apply(s, GiveUp(id))
    ensures forall i :: i in t.jobs ==> At(t, t.jobs[i].vm, ByJob(i)) && i < t.nextId && i !in t.watchers
  {
    JobFacts(s, id);
    hide Locked, Attended, Unlocked, UnderLock;
    forall i | i in t.jobs ensures At(t, t.jobs[i].vm, ByJob(i)) && i < t.nextId && i !in t.watchers {
      assert At(s, s.jobs[i].vm, ByJob(i));
    }
  }

  lemma {:induction false} GiveUpPool(s: State, id: JobId, t: State)
    requires Guarded(s) && Enabled(s, GiveUp(id)) && t == Apply(s, GiveUp(id))
    ensures forall k :: 0 <= k < |t.ext.pool| ==> At(t, t.ext.pool[k], Pooled)
    ensures t.ext.pool == s.ext.pool && forall v :: v in t.place ==> v < t.nextVm
  {
    JobFacts(s, id);
    hide Locked, Attended, Unlocked, UnderLock;
    forall k | 0 <= k < |t.ext.pool| ensures At(t, t.ext.pool[k], Pooled) {
      assert At(s, s.ext.pool[k], Pooled);
    }
  }

  lemma {:induction false} GiveUpWatchers(s: State, id: JobId, t: State)
    requires Guarded(s) && Enabled(s, GiveUp(id)) && t == Apply(s, GiveUp(id))
    ensures forall i :: i in t.watchers ==> At(t, t.watchers[i].vm, Quarantined(i)) && i < t.nextId
  {
    JobFacts(s, id);
    hide Locked, Attended, Unlocked, UnderLock, Registered;
    forall i | i in t.watchers ensures At(t, t.watchers[i].vm, Quarantined(i)) && i < t.nextId {
      if i != id { assert At(s, s.watchers[i].vm, Quarantined(i)); }
    }
  }

  lemma {:induction false} GiveUpAttended(s: State, id: JobId)
    requires Guarded(s) && Enabled(s, GiveUp(id))
    ensures Attended(Apply(s, GiveUp(id)))
  {
    JobFacts(s, id);
    var t := Apply(s, GiveUp(id));
    forall g | g in t.running ensures g < t.nextId && AttendedBy(t, g, t.running[g]) {
      assert g < s.nextId && AttendedBy(s, g, s.running[g]);
      StillAttended(s, id, g, s.running[g]);
    }
  }

  lemma {:induction false} StillAttended(s: State, id: JobId, g: Goroutine, vm: Vm)
    requires Enabled(s, GiveUp(id)) && At(s, s.jobs[id].vm, ByJob(id)) && id !in s.watchers && AttendedBy(s, g, vm)
    ensures AttendedBy(Apply(s, GiveUp(id)), g, vm)
  {
    hide Unlocked, UnderLock, Registered;
  }

  lemma {:induction false} GiveUpLocked(s: State, id: JobId)
    requires Guarded(s) && Enabled(s, GiveUp(id))
    ensures Locked(Apply(s, GiveUp(id)))
  {
    JobFacts(s, id);
    hide Attended, Owned;
    if s.jobs[id].task.SharedCall? || s.jobs[id].task.SharedCleanup? {
      GiveUpShared(s, id);
    } else {
      GiveUpOwn(s, id);
    }
  }

  lemma {:induction false} GiveUpShared(s: State, id: JobId)
    requires Locked(s) && Enabled(s, GiveUp(id)) && (s.jobs[id].task.SharedCall? || s.jobs[id].task.SharedCleanup?)
    ensures Locked(Apply(s, GiveUp(id)))
  {
  }

  lemma {:induction false} GiveUpOwn(s: State, id: JobId)
    requires Locked(s) && Enabled(s, GiveUp(id)) && !s.jobs[id].task.SharedCall? && !s.jobs[id].task.SharedCleanup?
    requires At(s, s.jobs[id].vm, ByJob(id))
    requires forall i :: i in s.jobs && s.jobs[i].vm == s.jobs[id].vm ==> i == id
    ensures Locked(Apply(s, GiveUp(id)))
  {
  }

  lemma {:induction false} ReapKeeps(s: State, id: JobId)
    requires Guarded(s) && Enabled(s, Reap(id))
    ensures Guarded(Apply(s, Reap(id)))
  {
    var t := Apply(s, Reap(id));
    assert t.watchers.Keys == s.watchers.Keys - {id};
    QuietVm(s, s.watchers[id].vm);
    AttendedAway(s, t, s.watchers[id].vm);
  }

  lemma {:induction false} ExitKeeps(s: State, g: Goroutine)
    requires Guarded(s) && g in s.running
    ensures Guarded(Apply(s, Exit(g)))
  {
    var t := Apply(s, Exit(g));
    forall h | h in t.running ensures AttendedBy(t, h, t.running[h]) {
      assert AttendedBy(s, h, s.running[h]);
    }
  }

  lemma {:induction false} StepGuarded(s: State, e: Event)
    requires Guarded(s) && Enabled(s, e)
    ensures Guarded(Apply(s, e))
  {
    hide Guarded, Apply;
    match e
    case Pop => PopKeeps(s, e);
    case Drain => PopKeeps(s, e);
    case BuildNew => BuildKeeps(s);
    case Built(id) => BuiltKeeps(s, id);
    case BuildFailed(_) => EndKeeps(s, e);
    case UnlockShared(_) => EndKeeps(s, e);
    case DiscardShared(_) => EndKeeps(s, e);
    case Start(id) => StartKeeps(s, id);
    case Exit(g) => ExitKeeps(s, g);
    case Return(id, healthy) => ReturnKeeps(s, id, healthy);
    case GiveUp(id) => GiveUpKeeps(s, id);
    case Release(id, enabled) => ReleaseKeeps(s, id, enabled);
    case Reap(id) => ReapKeeps(s, id);
    case Load => LoadKeeps(s);
    case LockShared(teardown) => LockKeeps(s, teardown);
  }

  /** No step loses a VM. */
  lemma {:induction false} StepPlaced(s: State, e: Event)
    requires Inv(s) && Enabled(s, e)
    ensures Placed(Apply(s, e))
  {
    hide Inv, Apply, Enabled, Placed;
    match e
    case Pop => PlacedPopped(s, e);
    case Drain => PlacedPopped(s, e);
    case BuildNew => PlacedBuilt(s);
    case Built(_) => PlacedMarked(s, e);
    case Start(_) => PlacedMarked(s, e);
    case Exit(_) => PlacedMarked(s, e);
    case BuildFailed(_) => PlacedEnded(s, e);
    case UnlockShared(_) => PlacedEnded(s, e);
    case DiscardShared(_) => PlacedEnded(s, e);
    case Return(_, _) => PlacedReturned(s, e);
    case Release(_, _) => PlacedReleased(s, e);
    case GiveUp(_) => PlacedGivenUp(s, e);
    case Reap(_) => PlacedReaped(s, e);
    case Load => PlacedLoaded(s);
    case LockShared(_) => PlacedLocked(s, e);
  }

  /** From `s` to `t` only `vm` changed hands. */
  ghost predicate OthersStay(s: State, t: State, vm: Vm) {
    && s.nextVm <= t.nextVm <= s.nextVm + 1 && (t.nextVm > s.nextVm ==> vm == s.nextVm)
    && t.place.Keys == s.place.Keys + {vm}
    && (forall v :: v in s.place && v != vm ==>
      t.place[v] == s.place[v] && (HeldBy(s, v, s.place[v]) ==> HeldBy(t, v, s.place[v])))
  }

  lemma {:induction false} PlacedMoved(s: State, t: State, vm: Vm)
    requires Placed(s) && OthersStay(s, t, vm) && HeldBy(t, vm, t.place[vm])
    ensures Placed(t)
  {
    hide HeldBy;
    forall v: Vm | v < t.nextVm ensures v in t.place {
      if v < s.nextVm { assert v in s.place; }
    }
    forall v: Vm | v in t.place ensures HeldBy(t, v, t.place[v]) {
      if v != vm { assert HeldBy(s, v, s.place[v]); }
    }
  }

  /** A new job takes a VM. */
  lemma {:induction false} PlacedTaken(s: State, vm: Vm, task: Task, ext: Ext, nextVm: nat)
    requires Placed(s) && s.nextId !in s.jobs
    requires s.nextVm <= nextVm <= s.nextVm + 1 && (nextVm > s.nextVm ==> vm == s.nextVm)
    requires forall v :: v in s.ext.pool && v != vm ==> v in ext.pool
    requires forall v :: At(s, v, Shared) && v != vm ==> ext.shared == Some(v)
    ensures Placed(Taken(s, vm, task).(ext := ext, nextVm := nextVm))
  {
    hide Placed, UnderLock;
    var t := Taken(s, vm, task).(ext := ext, nextVm := nextVm);
    forall v | v in s.place && v != vm && HeldBy(s, v, s.place[v]) ensures HeldBy(t, v, s.place[v]) {
      if s.place[v].Shared? { assert At(s, v, Shared); }
    }
    PlacedMoved(s, t, vm);
  }

  lemma {:induction false} SharedHeld(s: State)
    requires Placed(s)
    ensures forall v: Vm :: At(s, v, Shared) ==> s.ext.shared == Some(v)
  {
    forall v: Vm | At(s, v, Shared) ensures s.ext.shared == Some(v) { assert HeldBy(s, v, s.place[v]); }
  }

  lemma {:induction false} PlacedPopped(s: State, e: Event)
    requires Inv(s) && Enabled(s, e) && (e.Pop? || e.Drain?)
    ensures Placed(Apply(s, e))
  {
    NewId(s);
    SharedHeld(s);
    hide Attended, Locked, Placed, Owned, Taken;
    var vm := s.ext.pool[|s.ext.pool| - 1];
    PlacedTaken(s, vm, if e.Pop? then Download else Cleanup, PopIdle(s.ext), s.nextVm);
    TakenKeepsNumber(s, vm, if e.Pop? then Download else Cleanup);
  }

  lemma {:induction false} TakenKeepsNumber(s: State, vm: Vm, task: Task)
    ensures Taken(s, vm, task).nextVm == s.nextVm && Taken(s, vm, task).ext == s.ext
  {
  }

  lemma {:induction false} PlacedBuilt(s: State)
    requires Inv(s) && Enabled(s, BuildNew)
    ensures Placed(Apply(s, BuildNew))
  {
    NewId(s);
    SharedHeld(s);
    hide Attended, Locked, Placed, Owned, Taken;
    PlacedTaken(s, s.nextVm, Build, s.ext, s.nextVm + 1);
    TakenKeepsNumber(s, s.nextVm, Build);
  }

  lemma {:induction false} PlacedSet(s: State, id: JobId, j: Job)
    requires Placed(s) && Owned(s) && id in s.jobs && j.vm == s.jobs[id].vm
    ensures Placed(SetJob(s, id, j))
  {
    hide Placed;
    JobFacts(s, id);
    PlacedMoved(s, SetJob(s, id, j), j.vm);
  }

  /** Holding does not depend on the lock and the running calls. */
  lemma {:induction false} PlacedAlike(s: State, t: State)
    requires Placed(s) && t.place == s.place && t.nextVm == s.nextVm
    requires t.jobs == s.jobs && t.watchers == s.watchers && t.ext == s.ext
    ensures Placed(t)
  {
    forall v: Vm | v in t.place ensures HeldBy(t, v, t.place[v]) {
      assert HeldBy(s, v, s.place[v]);
    }
  }

  lemma {:induction false} PlacedMarked(s: State, e: Event)
    requires Inv(s) && Enabled(s, e) && (e.Built? || e.Start? || e.Exit?)
    ensures Placed(Apply(s, e))
  {
    hide Placed, Attended, Locked, Owned;
    match e
    case Exit(_) => PlacedAlike(s, Apply(s, e));
    case Built(id) =>
      var j := s.jobs[id].(task := Download);
      PlacedSet(s, id, j);
      PlacedAlike(SetJob(s, id, j), Apply(s, e));
    case Start(id) =>
      var j := s.jobs[id].(call := Some(s.nextId));
      PlacedSet(s, id, j);
      PlacedAlike(SetJob(s, id, j), Apply(s, e));
  }

  /** A job ends; the pool and the shared VM may change as far as its VM is concerned. */
  lemma {:induction false} PlacedDropped(s: State, id: JobId, p: Place, ext: Ext)
    requires Placed(s) && Owned(s) && id in s.jobs
    requires p == Closed || (p == Pooled && s.jobs[id].vm in ext.pool) ||
      (p == Shared && ext.shared == Some(s.jobs[id].vm))
    requires forall v :: v in s.ext.pool ==> v in ext.pool
    requires ext.shared == s.ext.shared || (ext.shared.None? && s.ext.shared == Some(s.jobs[id].vm))
    ensures Placed(Dropped(s, id, p).(ext := ext))
  {
    hide Placed, Unlocked;
    JobFacts(s, id);
    PlacedMoved(s, Dropped(s, id, p).(ext := ext), s.jobs[id].vm);
  }

  lemma {:induction false} PlacedEnded(s: State, e: Event)
    requires Inv(s) && Enabled(s, e) && (e.BuildFailed? || e.UnlockShared? || e.DiscardShared?)
    ensures Placed(Apply(s, e))
  {
    hide Placed, Attended;
    match e
    case BuildFailed(id) => PlacedDropped(s, id, Closed, s.ext);
    case UnlockShared(id) => PlacedDropped(s, id, Shared, s.ext);
    case DiscardShared(id) => PlacedDropped(s, id, Closed, s.ext.(shared := None));
  }

  lemma {:induction false} PlacedReturned(s: State, e: Event)
    requires Inv(s) && Enabled(s, e) && e.Return?
    ensures Placed(Apply(s, e))
  {
    hide Placed, Attended;
    var id, j := e.id, s.jobs[e.id];
    match j.task
    case Build => if e.healthy { PlacedSet(s, id, j.(call := None)); } else { PlacedDropped(s, id, Closed, s.ext); }
    case Download => PlacedSet(s, id, j.(task := Finished(e.healthy), call := None));
    case Cleanup => PlacedDropped(s, id, Closed, s.ext);
    case SharedCall => PlacedSet(s, id, j.(call := None));
    case SharedCleanup => PlacedDropped(s, id, Closed, s.ext.(shared := None));
    case Finished(_) =>
  }

  lemma {:induction false} PlacedReleased(s: State, e: Event)
    requires Inv(s) && Enabled(s, e) && e.Release?
    ensures Placed(Apply(s, e))
  {
    hide Placed, Attended, Locked;
    var vm := s.jobs[e.id].vm;
    if FitsPool(s.ext, s.jobs[e.id].task.healthy, e.enabled) {
      assert vm in s.ext.pool + [vm];
      PlacedDropped(s, e.id, Pooled, s.ext.(pool := s.ext.pool + [vm]));
    } else {
      PlacedSet(s, e.id, s.jobs[e.id].(task := Cleanup));
    }
  }

  lemma {:induction false} PlacedGivenUp(s: State, e: Event)
    requires Inv(s) && Enabled(s, e) && e.GiveUp?
    ensures Placed(Apply(s, e))
  {
    JobFacts(s, e.id);
    var t, vm := Apply(s, e), s.jobs[e.id].vm;
    hide Placed, Guarded, Unlocked, HeldBy, Owned, Attended, Locked, UnderLock;
    forall v: Vm | v in s.place && v != vm && HeldBy(s, v, s.place[v]) ensures HeldBy(t, v, s.place[v]) {
      StillHeld(s, e.id, v);
    }
    GivenUpHeld(s, e.id);
    PlacedMoved(s, t, vm);
  }

  lemma {:induction false} StillHeld(s: State, id: JobId, v: Vm)
    requires Enabled(s, GiveUp(id)) && v in s.place && v != s.jobs[id].vm && id !in s.watchers
    requires HeldBy(s, v, s.place[v])
    ensures HeldBy(Apply(s, GiveUp(id)), v, s.place[v])
  {
  }

  lemma {:induction false} GivenUpHeld(s: State, id: JobId)
    requires Enabled(s, GiveUp(id))
    ensures HeldBy(Apply(s, GiveUp(id)), s.jobs[id].vm, Quarantined(id))
  {
  }

  lemma {:induction false} PlacedReaped(s: State, e: Event)
    requires Inv(s) && Enabled(s, e) && e.Reap?
    ensures Placed(Apply(s, e))
  {
    hide Placed, Attended, Locked;
    var vm := s.watchers[e.id].vm;
    assert At(s, vm, Quarantined(e.id));
    PlacedMoved(s, Apply(s, e), vm);
  }

  lemma {:induction false} PlacedForgotten(s: State)
    requires Inv(s) && s.lock.None?
    ensures Placed(Forgotten(s)) && forall v :: !At(Forgotten(s), v, Shared)
  {
    hide Attended;
    SharedHeld(s);
    if s.ext.shared.Some? {
      var vm := s.ext.shared.value;
      assert At(s, vm, Shared);
      forall v: Vm ensures !At(Forgotten(s), v, Shared) {
        assert At(Forgotten(s), v, Shared) ==> At(s, v, Shared);
      }
      hide Placed;
      PlacedMoved(s, Forgotten(s), vm);
    }
  }

  lemma {:induction false} PlacedLoaded(s: State)
    requires Inv(s) && Enabled(s, Load)
    ensures Placed(Apply(s, Load))
  {
    PlacedForgotten(s);
    NewId(s);
    hide Placed, Inv, Taken, At, Guarded, Owned, Attended, Locked;
    var m := Forgotten(s);
    assert m.nextVm == s.nextVm && m.nextId == s.nextId && m.jobs == s.jobs && m.ext == s.ext;
    hide Forgotten;
    PlacedTaken(m, s.nextVm, SharedCall, s.ext.(shared := Some(s.nextVm)), s.nextVm + 1);
  }

  lemma {:induction false} PlacedLocked(s: State, e: Event)
    requires Inv(s) && Enabled(s, e) && e.LockShared?
    ensures Placed(Apply(s, e))
  {
    NewId(s);
    SharedHeld(s);
    hide Attended, Locked, Placed, Owned, Taken;
    var task := if e.teardown then SharedCleanup else SharedCall;
    PlacedTaken(s, s.ext.shared.value, task, s.ext, s.nextVm);
    TakenKeepsNumber(s, s.ext.shared.value, task);
  }

  /** What every step keeps. */
  lemma {:induction false} StepKeeps(s: State, e: Event)
    requires Inv(s) && Enabled(s, e)
    ensures Inv(Apply(s, e))
  {
    StepGuarded(s, e);
    StepPlaced(s, e);
  }

  lemma {:induction false} RunKeeps(s: State, trace: seq<Event>, t: State)
    requires Inv(s) && Run(s, trace, t)
    ensures Inv(t)
    decreases |trace|
  {
    hide Inv, Apply, Enabled;
    if trace != [] {
      StepKeeps(s, trace[0]);
      RunKeeps(Apply(s, trace[0]), trace[1..], t);
    }
  }

  // ---------------------------------------------------------------- results

  /** Nothing is loaded yet. */
  const FRESH: State := State(Ext([], 0, None), None, map[], map[], map[], map[], 0, 0)

  /**
   In every interleaving of calls, timeouts, releases, drains and teardowns: no VM
   is executed by two goroutines, a call only ever starts on a VM nobody executes,
   what the pool hands out is idle, the pool keeps at most one, and the gate counts
   exactly the stuck runtimes nobody has reaped.
   */
  lemma {:induction false} Exclusive(trace: seq<Event>, s: State)
    requires Run(FRESH, trace, s)
    ensures forall g, h :: g in s.running && h in s.running && s.running[g] == s.running[h] ==> g == h
    ensures forall id :: Enabled(s, Start(id)) ==> Quiet(s, s.jobs[id].vm)
    ensures forall vm :: vm in s.ext.pool ==> Quiet(s, vm)
    ensures |s.ext.pool| <= MAX_IDLE && s.ext.quarantined == |s.watchers|
  {
    hide Run;
    RunKeeps(FRESH, trace, s);
    forall g, h | g in s.running && h in s.running && s.running[g] == s.running[h] ensures g == h {
      assert AttendedBy(s, g, s.running[g]) && AttendedBy(s, h, s.running[h]);
    }
    forall id | Enabled(s, Start(id)) ensures Quiet(s, s.jobs[id].vm) {
      QuietVm(s, s.jobs[id].vm);
    }
    forall vm | vm in s.ext.pool ensures Quiet(s, vm) {
      QuietVm(s, vm);
    }
  }

  ghost predicate Borrowed(s: State, v: Vm) {
    exists i :: i in s.jobs && s.jobs[i].vm == v
  }

  ghost predicate Stuck(s: State, v: Vm) {
    exists i :: i in s.watchers && s.watchers[i].vm == v
  }

  /** The shared VM while nobody uses it. */
  ghost predicate SharedFree(s: State, v: Vm) {
    s.ext.shared == Some(v) && !Borrowed(s, v)
  }

  function One(b: bool): nat {
    if b then 1 else 0
  }

  /**
   Every VM that was made is in exactly one place: borrowed by one job, pooled
   once, quarantined under one watcher, the free shared VM, or closed.
   */
  lemma {:induction false} OneOwner(trace: seq<Event>, s: State, v: Vm, i: JobId, j: JobId)
    requires Run(FRESH, trace, s) && v < s.nextVm
    ensures One(Borrowed(s, v)) + One(v in s.ext.pool) + One(Stuck(s, v)) + One(SharedFree(s, v))
      + One(At(s, v, Closed)) == 1
    ensures i in s.jobs && j in s.jobs && s.jobs[i].vm == s.jobs[j].vm ==> i == j
    ensures i in s.watchers && j in s.watchers && s.watchers[i].vm == s.watchers[j].vm ==> i == j
    ensures s.ext.shared == Some(v) ==> Borrowed(s, v) || At(s, v, Shared)
  {
    hide Run;
    RunKeeps(FRESH, trace, s);
    assert HeldBy(s, v, s.place[v]);
    if s.ext.shared == Some(v) && s.lock.Some? && s.lock.value in s.jobs { assert At(s, v, Shared) || Borrowed(s, v); }
    NowhereElse(s, v);
  }

  lemma {:induction false} NowhereElse(s: State, v: Vm)
    requires Inv(s) && v in s.place
    ensures Borrowed(s, v) <==> s.place[v].ByJob?
    ensures v in s.ext.pool <==> s.place[v].Pooled?
    ensures Stuck(s, v) <==> s.place[v].Quarantined?
    ensures SharedFree(s, v) <==> s.place[v].Shared?
  {
    hide Attended;
    assert HeldBy(s, v, s.place[v]);
    if v in s.ext.pool {
      var k :| 0 <= k < |s.ext.pool| && s.ext.pool[k] == v;
      assert At(s, s.ext.pool[k], Pooled);
    }
  }

  // ---------------------------------------------------------------- the shared fields in code

  class LoadedExtension {
    var isolatedPool: seq<Vm>
    var quarantinedRuntimes: nat
    var vm: Option<Vm>

    constructor ()
      ensures View() == Ext([], 0, None)
    {
      isolatedPool, quarantinedRuntimes, vm := [], 0, None;
    }

    function View(): Ext
      reads this
    {
      Ext(isolatedPool, quarantinedRuntimes, vm)
    }

    /** The pooled branch of acquireIsolatedExtensionRuntime. */
    method AcquireIdle() returns (r: Option<Vm>)
      modifies this`isolatedPool
      ensures old(isolatedPool) == [] ==> r.None? && View() == old(View())
      ensures old(isolatedPool) != [] ==>
        r == Some(old(isolatedPool[|isolatedPool| - 1])) && View() == PopIdle(old(View()))
    {
      var n := |isolatedPool|;
      if n == 0 { return None; }
      r := Some(isolatedPool[n - 1]);
      isolatedPool := isolatedPool[..n - 1];
    }

    /** Whether releaseIsolatedExtensionRuntime pooled the runtime; if not it has to be cleaned up. */
    method PoolIfFits(v: Vm, healthy: bool, enabled: bool) returns (pooled: bool)
      modifies this`isolatedPool
      ensures pooled <==> FitsPool(old(View()), healthy, enabled)
      ensures pooled <==> healthy && enabled && old(isolatedPool) == []
      ensures View() == if pooled then old(View()).(pool := old(isolatedPool) + [v]) else old(View())
    {
      if healthy && enabled {
        if |isolatedPool| < MAX_IDLE {
          isolatedPool := isolatedPool + [v];
          return true;
        }
      }
      return false;
    }

    /** registerQuarantinedRuntime, or quarantineRuntimeLocked if it is the shared VM. */
    method Quarantine(v: Vm)
      modifies this
      ensures View() == Registered(old(View()), v)
      ensures quarantinedRuntimes == old(quarantinedRuntimes) + 1 && isolatedPool == old(isolatedPool)
      ensures vm == if old(vm) == Some(v) then None else old(vm)
    {
      if vm == Some(v) { vm := None; }
      quarantinedRuntimes := quarantinedRuntimes + 1;
    }

    method QuarantineEnded()
      modifies this`quarantinedRuntimes
      ensures View() == Unregistered(old(View()))
      ensures old(quarantinedRuntimes) > 0 ==> quarantinedRuntimes == old(quarantinedRuntimes) - 1
    {
      if quarantinedRuntimes > 0 { quarantinedRuntimes := quarantinedRuntimes - 1; }
    }
  }
}
