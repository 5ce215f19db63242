/** Exclusive ownership of a store: the lock files (engine/store/ownership.py)
    and the engine lifespan that holds them (engine/main.py). */
module Ownership {
  import opened Basics

  // ------------------------------------------------------------- lock files

  /** A canonical absolute path, as its components. */
  type Path = seq<string>

  const MODEL_STORE_LOCK := ".engine-model-store.lock"

  /** `<database path>.lock`, next to the database. */
  function DbLock(db: Path): Path
    requires db != []
  {
    db[..|db| - 1] + [db[|db| - 1] + ".lock"]
  }

  function ModelLock(dir: Path): Path { dir + [MODEL_STORE_LOCK] }

  /** What `StoreOwnership` checks first. */
  predicate Distinct(db: Path, dir: Path)
    requires db != []
  {
    DbLock(db) != ModelLock(dir)
  }

  /** The two lock files coincide for exactly one database name per directory. */
  lemma SameLockFile(db: Path, dir: Path)
    requires db != []
    ensures !Distinct(db, dir) <==> db == dir + [".engine-model-store"]
  {
    var n := |db| - 1;
    assert ".engine-model-store" + ".lock" == MODEL_STORE_LOCK;
    if !Distinct(db, dir) {
      assert DbLock(db)[n] == ModelLock(dir)[n] == MODEL_STORE_LOCK;
      SuffixCancels(db[n], ".engine-model-store", ".lock");
      assert db[..n] == DbLock(db)[..n] == ModelLock(dir)[..n] == dir;
      assert db == db[..n] + [db[n]];
    }
  }

  lemma SuffixCancels(a: string, b: string, suffix: string)
    requires a + suffix == b + suffix
    ensures a == b
  {
    assert |a| == |b|;
    assert a == (a + suffix)[..|a|] == (b + suffix)[..|b|] == b;
  }

  /** Different databases, and different model directories, have different lock
      files. */
  lemma LockFilesAreInjective(db: Path, db': Path, dir: Path, dir': Path)
    requires db != [] && db' != []
    ensures DbLock(db) == DbLock(db') ==> db == db'
    ensures ModelLock(dir) == ModelLock(dir') ==> dir == dir'
  {
    if DbLock(db) == DbLock(db') {
      var n := |db| - 1;
      assert |DbLock(db)| == |db| && |DbLock(db')| == |db'|;
      assert DbLock(db)[n] == DbLock(db')[n];
      SuffixCancels(db[n], db'[n], ".lock");
      assert db[..n] == DbLock(db)[..n] == DbLock(db')[..n] == db'[..n];
      assert db == db[..n] + [db[n]] && db' == db'[..n] + [db'[n]];
    }
    if ModelLock(dir) == ModelLock(dir') {
      assert |dir| == |dir'|;
      assert dir == ModelLock(dir)[..|dir|] == ModelLock(dir')[..|dir'|] == dir';
    }
  }

  // ------------------------------------------------------- the lock objects

  /** The operating system's advisory locks: which handle holds which file. */
  class LockTable {
    var owner: map<Path, nat>

    constructor ()
      ensures owner == map[]
    {
      owner := map[];
    }
  }

  datatype Attempt = Ok | Locked | Unavailable

  /** One exclusive, non-blocking lock; `handle` is the open file. */
  class StoreLock {
    const path: Path
    var handle: Option<nat>

    constructor (path: Path)
      ensures this.path == path && handle == None
    {
      this.path, handle := path, None;
    }

    /** What being held means: the table has this handle for the path. */
    predicate Valid(os: LockTable)
      reads this, os
    {
      handle.Some? ==> path in os.owner && os.owner[path] == handle.value
    }

    /** `fails`: the file cannot be opened or locked for another reason than
        contention. Nothing is held after a failure. */
    method Acquire(os: LockTable, pid: nat, fails: bool) returns (r: Attempt)
      requires Valid(os)
      modifies this, os
      ensures Valid(os) && (r.Ok? <==> handle.Some?)
      ensures old(handle).Some? ==> r.Ok? && handle == old(handle) && os.owner == old(os.owner)
      ensures old(handle).None? && fails ==> r.Unavailable? && os.owner == old(os.owner)
      ensures old(handle).None? && !fails ==> (r.Locked? <==> path in old(os.owner)) && !r.Unavailable?
      ensures old(handle).None? && r.Ok? ==> handle == Some(pid) && os.owner == old(os.owner)[path := pid]
      ensures !r.Ok? ==> os.owner == old(os.owner)
    {
      if handle.Some? { return Ok; }
      if fails { return Unavailable; }
      if path in os.owner { return Locked; }
      os.owner := os.owner[path := pid];
      handle := Some(pid);
      r := Ok;
    }

    /** The file is closed even if unlocking raises, which frees the lock. */
    method Release(os: LockTable, unlockRaises: bool) returns (raised: bool)
      requires Valid(os)
      modifies this, os
      ensures handle == None && Valid(os)
      ensures os.owner == if old(handle).Some? then old(os.owner) - {path} else old(os.owner)
      ensures raised == (old(handle).Some? && unlockRaises)
    {
      var fh := handle;
      handle := None;
      if fh.None? { return false; }
      os.owner := os.owner - {path};
      raised := unlockRaises;
    }
  }

  /** Both locks of a store, taken and released together. */
  class StoreOwnership {
    const database: StoreLock
    const modelStore: StoreLock

    constructor (db: Path, dir: Path)
      requires db != [] && Distinct(db, dir)
      ensures fresh(database) && fresh(modelStore) && database != modelStore
      ensures database.path == DbLock(db) && modelStore.path == ModelLock(dir)
      ensures database.handle == None && modelStore.handle == None
    {
      database := new StoreLock(DbLock(db));
      modelStore := new StoreLock(ModelLock(dir));
    }

    /** Refused when both resources would share one lock file. */
    static method Open(db: Path, dir: Path) returns (r: StoreOwnership?)
      requires db != []
      ensures r == null <==> db == dir + [".engine-model-store"]
      ensures r != null ==> fresh(r) && fresh(r.database) && fresh(r.modelStore) && r.database != r.modelStore
                            && r.database.path == DbLock(db) && r.modelStore.path == ModelLock(dir)
                            && r.database.handle == None && r.modelStore.handle == None
    {
      SameLockFile(db, dir);
      if DbLock(db) == ModelLock(dir) { return null; }
      r := new StoreOwnership(db, dir);
    }

    /** All or nothing: both locks are held, or neither. */
    predicate Valid(os: LockTable)
      reads database, modelStore, os
    {
      && database != modelStore && database.path != modelStore.path
      && database.Valid(os) && modelStore.Valid(os)
      && (database.handle.Some? <==> modelStore.handle.Some?)
    }

    /** Database first; if the model directory cannot be locked the database
        lock taken here is rolled back. */
    method Acquire(os: LockTable, pid: nat, dbFails: bool, modelFails: bool) returns (r: Attempt)
      requires Valid(os)
      modifies database, modelStore, os
      ensures Valid(os) && (r.Ok? <==> database.handle.Some?)
      ensures !r.Ok? ==> os.owner == old(os.owner) && database.handle.None? && modelStore.handle.None?
      ensures r.Ok? && old(database.handle).None? ==>
                && database.path !in old(os.owner) && modelStore.path !in old(os.owner)
                && os.owner == old(os.owner)[database.path := pid][modelStore.path := pid]
      ensures old(database.handle).None? ==>
                r == (if dbFails then Unavailable
                      else if database.path in old(os.owner) then Locked
                      else if modelFails then Unavailable
                      else if modelStore.path in old(os.owner) then Locked
                      else Ok)
    {
      r := database.Acquire(os, pid, dbFails);
      if !r.Ok? { return; }
      var m := modelStore.Acquire(os, pid, modelFails);
      if !m.Ok? {
        var _ := database.Release(os, false);
        assert os.owner == old(os.owner);
        r := m;
      }
    }

    /** Reverse order; the database is released even if the first release raises. */
    method Release(os: LockTable, modelRaises: bool, dbRaises: bool) returns (raised: bool)
      requires Valid(os)
      modifies database, modelStore, os
      ensures Valid(os) && database.handle.None? && modelStore.handle.None?
      ensures os.owner == if old(database.handle).Some? then old(os.owner) - {modelStore.path, database.path}
              else old(os.owner)
      ensures raised == (old(database.handle).Some? && (modelRaises || dbRaises))
    {
      raised := modelStore.Release(os, modelRaises);
      var again := database.Release(os, dbRaises);
      raised := raised || again;
    }
  }

  // ------------------------------------------------------------ the lifespan

  /** The gRPC edge, as `_Lifecycle.grpc` records it. */
  datatype Grpc = Disabled | Owned | Stopping | Terminated

  /** The cleanup task: its next step, every step run, or cut short. */
  datatype Cleanup = NotStarted | Running(step: nat) | Completed | CutShort

  /** The five kinds of store writer `_live_writers` tracks. */
  datatype Writers = Writers(downloads: nat, webhookTask: bool, webhookThread: bool, grpc: Grpc, cleanup: Cleanup)

  predicate Live(w: Writers) {
    w.downloads > 0 || w.webhookTask || w.webhookThread || w.grpc.Owned? || w.grpc.Stopping?
    || w.cleanup.Running? || w.cleanup.CutShort?
  }

  /** The model-service shutdown that `_drain_owned_work` awaits. */
  datatype Drain = NoDrain | DrainRuns | DrainDone(ok: bool)

  /** The task that runs the lifespan, while it awaits cleanup or drain behind
      `shield`: a cancellation not yet delivered to it, and whether one was. */
  datatype Caller = Caller(pending: bool, cancelled: bool, drain: Drain)

  /** History: the outcome of each teardown step, the cancellations that hit the
      caller, and whether a download started after the drain had ended. */
  datatype Past = Past(outcomes: seq<bool>, cancels: nat, late: bool)

  /** Where a lifespan stands: `CleaningUp` is in `_complete`, `Draining` in
      `_drain_owned_work`, `Releasing` between the two unlocks, `Retained` kept
      the locks. */
  datatype Phase = Fresh | HasDb | Starting | Serving | CleaningUp | Draining | Releasing | Retained | Over

  datatype Process = Process(db: Path, dir: Path, phase: Phase, w: Writers, caller: Caller, past: Past)

  /** Every engine process of the machine, and the operating system's locks. */
  datatype World = World(procs: map<nat, Process>, locks: map<Path, nat>)

  datatype Event =
    | Spawn(db: Path, dir: Path)
    | LockDb(fails: bool)
    | LockModels(fails: bool)
    | Started | StartFails
    | StartWebhook | WebhookBusy | WebhookIdle | WebhookEnds
    | StartGrpc
    | StartDownload | EndDownload
    | BeginCleanup                       // shutdown, failure or cancellation while serving
    | CleanupStep(ok: bool)
    | CutCleanup                         // the cleanup task is cancelled from inside
    | DrainEnds(ok: bool)
    | CancelCaller                       // someone cancels the lifespan's task
    | CallerResumes                      // the awaiting loop wakes up, for whatever reason
    | ReleaseDb
    | Exit                               // however it exits; the OS drops its locks

  const STEPS := 8

  /** One teardown step. Step 0 stops the gRPC edge and step 3 the webhook task;
      a step that fails leaves its writer as it was. */
  function TeardownStep(w: Writers, k: nat, ok: bool): Writers {
    var t :=
      if k == 0 && !w.grpc.Disabled? then w.(grpc := if ok then Terminated else Stopping)
      else if k == 3 && ok then w.(webhookTask := false)
      else w;
    t.(cleanup := if k + 1 == STEPS then Completed else Running(k + 1))
  }

  /** Step 3 succeeds only once the webhook task has ended, which it does after
      its thread; step 6, the model service's shutdown, once no download is owned. */
  predicate CanStep(w: Writers, k: nat, ok: bool) {
    ok ==> (k == 3 ==> !w.webhookThread) && (k == 6 ==> w.downloads == 0)
  }

  function AfterStep(p: Process, ok: bool): Process
    requires p.w.cleanup.Running?
  {
    p.(w := TeardownStep(p.w, p.w.cleanup.step, ok), past := p.past.(outcomes := p.past.outcomes + [ok]))
  }

  predicate Awaiting(p: Process) { p.phase.CleaningUp? || p.phase.Draining? }

  /** The task the caller awaits is done: the loops' condition. */
  predicate TaskDone(p: Process) {
    if p.phase.CleaningUp? then !p.w.cleanup.Running? else p.caller.drain.DrainDone?
  }

  /** A cancellation is delivered: it is noted, and the shielded task goes on. */
  function Noted(c: Caller): Caller { c.(pending := false, cancelled := c.cancelled || c.pending) }

  /** One turn of either loop: look at the task; if it is not done, await again.
      Once cleanup is done the drain is started. */
  function Resumed(p: Process): Process {
    if p.phase.CleaningUp? && TaskDone(p) then p.(phase := Draining, caller := Noted(p.caller).(drain := DrainRuns))
    else p.(caller := Noted(p.caller))
  }

  function Download(p: Process): Process {
    p.(w := p.w.(downloads := p.w.downloads + 1), past := p.past.(late := p.past.late || p.caller.drain.DrainDone?))
  }

  /** The events that take place inside one process. */
  function LocalStep(p: Process, e: Event): Process {
    var w := p.w;
    match e
    case StartWebhook => if p.phase.Serving? then p.(w := w.(webhookTask := true)) else p
    case WebhookBusy => if w.webhookTask then p.(w := w.(webhookThread := true)) else p
    case WebhookIdle => p.(w := w.(webhookThread := false))
    case WebhookEnds => if !w.webhookThread then p.(w := w.(webhookTask := false)) else p
    case StartGrpc => if p.phase.Serving? && w.grpc.Disabled? then p.(w := w.(grpc := Owned)) else p
    case StartDownload => if p.phase.Serving? || Awaiting(p) then Download(p) else p
    case EndDownload => if w.downloads > 0 then p.(w := w.(downloads := w.downloads - 1)) else p
    case BeginCleanup => if p.phase.Serving? then p.(phase := CleaningUp, w := w.(cleanup := Running(0))) else p
    case CleanupStep(ok) =>
      if p.phase.CleaningUp? && w.cleanup.Running? && CanStep(w, w.cleanup.step, ok) then AfterStep(p, ok) else p
    case CutCleanup => if p.phase.CleaningUp? && w.cleanup.Running? then p.(w := w.(cleanup := CutShort)) else p
    case DrainEnds(ok) =>
      if p.phase.Draining? && p.caller.drain.DrainRuns? && (ok ==> w.downloads == 0)
      then p.(caller := p.caller.(drain := DrainDone(ok))) else p
    case CancelCaller =>
      if Awaiting(p) then
        p.(caller := p.caller.(pending := true), past := p.past.(cancels := p.past.cancels + 1))
      else p
    case CallerResumes => if Awaiting(p) then Resumed(p) else p
    case Started => if p.phase.Starting? then p.(phase := Serving) else p
    case StartFails => if p.phase.Starting? then p.(phase := Draining, caller := p.caller.(drain := DrainRuns)) else p
    case _ => p
  }

  function Update(s: World, pid: nat, p: Process, locks: map<Path, nat>): World { World(s.procs[pid := p], locks) }

  function LockDbStep(s: World, pid: nat, p: Process, fails: bool): World
    requires p.db != []
  {
    if fails || DbLock(p.db) in s.locks then Update(s, pid, p.(phase := Over), s.locks)
    else Update(s, pid, p.(phase := HasDb), s.locks[DbLock(p.db) := pid])
  }

  function LockModelsStep(s: World, pid: nat, p: Process, fails: bool): World
    requires p.db != []
  {
    if fails || ModelLock(p.dir) in s.locks then Update(s, pid, p.(phase := Over), s.locks - {DbLock(p.db)})
    else Update(s, pid, p.(phase := Starting), s.locks[ModelLock(p.dir) := pid])
  }

  /** The end of `_drain_owned_work` and the decision to release or retain have
      no suspension point between them. */
  function DecideStep(s: World, pid: nat, p: Process): World {
    var q := p.(caller := Noted(p.caller));
    if Live(p.w) then Update(s, pid, q.(phase := Retained), s.locks)
    else Update(s, pid, q.(phase := Releasing), s.locks - {ModelLock(p.dir)})
  }

  const QUIET := Writers(0, false, false, Disabled, NotStarted)

  function NewProcess(db: Path, dir: Path): Process
    requires db != []
  {
    var phase := if Distinct(db, dir) then Fresh else Over;
    Process(db, dir, phase, QUIET, Caller(false, false, NoDrain), Past([], 0, false))
  }

  predicate Decides(p: Process) { p.phase.Draining? && TaskDone(p) }

  function Next(s: World, pid: nat, e: Event): World {
    if e.Spawn? then
      if pid in s.procs || e.db == [] then s else Update(s, pid, NewProcess(e.db, e.dir), s.locks)
    else if pid !in s.procs || s.procs[pid].db == [] then s
    else
      var p := s.procs[pid];
      match e
      case LockDb(fails) => if p.phase.Fresh? then LockDbStep(s, pid, p, fails) else s
      case LockModels(fails) => if p.phase.HasDb? then LockModelsStep(s, pid, p, fails) else s
      case ReleaseDb =>
        if p.phase.Releasing? then Update(s, pid, p.(phase := Over), s.locks - {DbLock(p.db)}) else s
      case Exit => World(s.procs - {pid}, map l | l in s.locks && s.locks[l] != pid :: s.locks[l])
      case _ =>
        if e.CallerResumes? && Decides(p) then DecideStep(s, pid, p)
        else Update(s, pid, LocalStep(p, e), s.locks)
  }

  function Run(s: World, events: seq<(nat, Event)>): World {
    if events == [] then s
    else
      var (pid, e) := events[|events| - 1];
      Next(Run(s, events[..|events| - 1]), pid, e)
  }

  const EMPTY := World(map[], map[])

  // -------------------------------------------------------------- invariant

  predicate HoldsDb(p: Process) { !p.phase.Fresh? && !p.phase.Over? }

  predicate HoldsBoth(p: Process) { HoldsDb(p) && !p.phase.HasDb? && !p.phase.Releasing? }

  /** A process's writers are live only while it holds both locks. */
  predicate WellPhased(p: Process) {
    && p.db != [] && (HoldsDb(p) || p.phase.Fresh? ==> Distinct(p.db, p.dir))
    && (Live(p.w) ==> HoldsBoth(p))
    && (p.phase.Fresh? || p.phase.HasDb? || p.phase.Starting? ==> p.w == QUIET)
    && (p.phase.Serving? ==> p.w.cleanup.NotStarted?)
  }

  /** The awaiting caller leaves a loop only when its task is done, and a
      cancellation is either still to be delivered or noted. */
  predicate Shielded(p: Process) {
    && (p.phase.CleaningUp? ==> !p.w.cleanup.NotStarted?)
    && (p.phase.Draining? || p.phase.Releasing? || p.phase.Retained? ==> !p.w.cleanup.Running?)
    && (p.phase.Draining? ==> !p.caller.drain.NoDrain?)
    && (p.phase.Releasing? || p.phase.Retained? ==> p.caller.drain.DrainDone?)
    && (p.phase.Fresh? || p.phase.HasDb? || p.phase.Starting? || p.phase.Serving? || p.phase.CleaningUp? ==>
          p.caller.drain.NoDrain?)
    && (p.caller.cancelled || p.caller.pending <==> p.past.cancels > 0)
    && (p.phase.Releasing? || p.phase.Retained? ==> !p.caller.pending)
  }

  /** What the teardown outcomes say about the writers. */
  predicate Proven(p: Process) {
    var w, done := p.w, p.past.outcomes;
    && (w.cleanup.NotStarted? ==> done == [])
    && (w.cleanup.Running? ==> |done| == w.cleanup.step < STEPS)
    && (w.cleanup.Completed? ==> |done| == STEPS)
    && (if done == [] then w.grpc.Disabled? || w.grpc.Owned?
        else w.grpc.Disabled? || (if done[0] then w.grpc.Terminated? else w.grpc.Stopping?))
    && (w.webhookThread ==> w.webhookTask)
    && (|done| > 3 && done[3] ==> !w.webhookTask)
    && (p.caller.drain == DrainDone(true) && !p.past.late ==> w.downloads == 0)
    && (!p.caller.drain.DrainDone? ==> !p.past.late)
  }

  predicate Sound(p: Process) { WellPhased(p) && Shielded(p) && Proven(p) }

  /** The lock table says exactly what the processes' phases say. */
  predicate Owns(s: World, pid: nat, p: Process)
    requires p.db != []
  {
    && (HoldsDb(p) ==> DbLock(p.db) in s.locks && s.locks[DbLock(p.db)] == pid)
    && (HoldsBoth(p) ==> ModelLock(p.dir) in s.locks && s.locks[ModelLock(p.dir)] == pid)
  }

  /** No lock outlives the process and the phase that hold it. */
  predicate Accounted(s: World, l: Path)
    requires l in s.locks
  {
    var pid := s.locks[l];
    pid in s.procs && s.procs[pid].db != []
    && ((HoldsDb(s.procs[pid]) && l == DbLock(s.procs[pid].db))
          || (HoldsBoth(s.procs[pid]) && l == ModelLock(s.procs[pid].dir)))
  }

  predicate Inv(s: World) {
    && (forall pid | pid in s.procs :: Sound(s.procs[pid]) && s.procs[pid].db != [] && Owns(s, pid, s.procs[pid]))
    && (forall l | l in s.locks :: Accounted(s, l))
  }

  lemma LocalKeepsPhase(p: Process, e: Event)
    requires WellPhased(p) && !(e.CallerResumes? && Decides(p))
    ensures WellPhased(LocalStep(p, e)) && LocalStep(p, e).db == p.db && LocalStep(p, e).dir == p.dir
    ensures HoldsDb(LocalStep(p, e)) == HoldsDb(p) && HoldsBoth(LocalStep(p, e)) == HoldsBoth(p)
  {
    hide DbLock, ModelLock;
  }

  lemma LocalKeepsShield(p: Process, e: Event)
    requires WellPhased(p) && Shielded(p) && !(e.CallerResumes? && Decides(p))
    ensures Shielded(LocalStep(p, e))
  {
    hide DbLock, ModelLock, Distinct;
  }

  lemma LocalKeepsProof(p: Process, e: Event)
    requires WellPhased(p) && Shielded(p) && Proven(p) && !(e.CallerResumes? && Decides(p))
    ensures Proven(LocalStep(p, e))
  {
    hide DbLock, ModelLock, Distinct;
  }

  lemma LocalKeeps(p: Process, e: Event)
    requires Sound(p) && !(e.CallerResumes? && Decides(p))
    ensures Sound(LocalStep(p, e)) && LocalStep(p, e).db == p.db && LocalStep(p, e).dir == p.dir
    ensures HoldsDb(LocalStep(p, e)) == HoldsDb(p) && HoldsBoth(LocalStep(p, e)) == HoldsBoth(p)
  {
    hide WellPhased, Shielded, Proven, LocalStep;
    LocalKeepsPhase(p, e);
    LocalKeepsShield(p, e);
    LocalKeepsProof(p, e);
  }

  lemma NewIsSound(db: Path, dir: Path)
    requires db != []
    ensures Sound(NewProcess(db, dir)) && !HoldsDb(NewProcess(db, dir)) && NewProcess(db, dir).db == db
  {
    hide DbLock, ModelLock;
  }

  lemma SpawnKeeps(s: World, pid: nat, db: Path, dir: Path)
    requires Inv(s) && pid !in s.procs && db != []
    ensures Inv(Next(s, pid, Spawn(db, dir)))
  {
    hide DbLock, ModelLock, Sound, NewProcess;
    NewIsSound(db, dir);
  }

  /** Moving a quiet process between its first phases, or ending it. */
  lemma PhaseIsSound(p: Process, to: Phase)
    requires Sound(p)
    requires (p.phase.Fresh? && (to.Over? || to.HasDb?)) || (p.phase.HasDb? && (to.Over? || to.Starting?))
             || (p.phase.Releasing? && to.Over?)
    ensures Sound(p.(phase := to))
  {
    hide DbLock, ModelLock;
  }

  lemma DecidedIsSound(p: Process)
    requires Sound(p) && Decides(p)
    ensures var q := p.(caller := Noted(p.caller));
            Sound(q.(phase := if Live(p.w) then Retained else Releasing))
  {
    hide DbLock, ModelLock;
  }

  lemma LocksDiffer(p: Process)
    requires Sound(p) && p.db != [] && HoldsDb(p)
    ensures DbLock(p.db) != ModelLock(p.dir)
  {
    hide DbLock, ModelLock, Shielded, Proven;
  }

  lemma LockDbKeeps(s: World, pid: nat, fails: bool)
    requires Inv(s) && pid in s.procs && s.procs[pid].phase.Fresh?
    ensures Inv(LockDbStep(s, pid, s.procs[pid], fails))
  {
    hide DbLock, ModelLock, Sound;
    PhaseIsSound(s.procs[pid], Over);
    PhaseIsSound(s.procs[pid], HasDb);
  }

  lemma LockModelsKeeps(s: World, pid: nat, fails: bool)
    requires Inv(s) && pid in s.procs && s.procs[pid].phase.HasDb?
    ensures Inv(LockModelsStep(s, pid, s.procs[pid], fails))
  {
    hide DbLock, ModelLock, Sound;
    var p := s.procs[pid];
    LocksDiffer(p);
    PhaseIsSound(p, Over);
    PhaseIsSound(p, Starting);
  }

  lemma DecideKeeps(s: World, pid: nat)
    requires Inv(s) && pid in s.procs && Decides(s.procs[pid])
    ensures Inv(DecideStep(s, pid, s.procs[pid]))
  {
    hide DbLock, ModelLock, Sound, Live;
    var p := s.procs[pid];
    LocksDiffer(p);
    DecidedIsSound(p);
  }

  lemma ReleaseDbKeeps(s: World, pid: nat)
    requires Inv(s) && pid in s.procs && s.procs[pid].phase.Releasing?
    ensures Inv(Next(s, pid, ReleaseDb))
  {
    hide DbLock, ModelLock, Sound;
    PhaseIsSound(s.procs[pid], Over);
  }

  lemma ExitKeeps(s: World, pid: nat)
    requires Inv(s) && pid in s.procs
    ensures Inv(Next(s, pid, Exit))
  {
    hide DbLock, ModelLock, Sound;
  }

  lemma LocalsKeep(s: World, pid: nat, e: Event)
    requires Inv(s) && pid in s.procs && !(e.CallerResumes? && Decides(s.procs[pid]))
    ensures Inv(Update(s, pid, LocalStep(s.procs[pid], e), s.locks))
  {
    hide LocalStep, DbLock, ModelLock, Sound;
    LocalKeeps(s.procs[pid], e);
  }

  lemma NextKeeps(s: World, pid: nat, e: Event)
    requires Inv(s)
    ensures Inv(Next(s, pid, e))
  {
    hide Inv, LockDbStep, LockModelsStep, DecideStep, Decides, LocalStep, NewProcess;
    if e.Spawn? {
      if pid !in s.procs && e.db != [] { SpawnKeeps(s, pid, e.db, e.dir); }
    } else if pid in s.procs {
      var p := s.procs[pid];
      if e.LockDb? {
        if p.phase.Fresh? { LockDbKeeps(s, pid, e.fails); }
      } else if e.LockModels? {
        if p.phase.HasDb? { LockModelsKeeps(s, pid, e.fails); }
      } else if e.ReleaseDb? {
        if p.phase.Releasing? { ReleaseDbKeeps(s, pid); }
      } else if e.Exit? {
        ExitKeeps(s, pid);
      } else if e.CallerResumes? && Decides(p) {
        DecideKeeps(s, pid);
      } else {
        LocalsKeep(s, pid, e);
      }
    }
  }

  lemma {:induction false} RunKeeps(events: seq<(nat, Event)>)
    ensures Inv(Run(EMPTY, events))
    decreases |events|
  {
    if events != [] {
      RunKeeps(events[..|events| - 1]);
      var (pid, e) := events[|events| - 1];
      NextKeeps(Run(EMPTY, events[..|events| - 1]), pid, e);
    }
  }

  // ------------------------------------------------------------ main results

  /** In every run of any number of processes that start, fail to start, shut
      down under failing steps and repeated cancellation, exit or crash, a
      process with a live tracked writer holds both of its locks. */
  lemma LiveWriterHoldsBothLocks(events: seq<(nat, Event)>, pid: nat)
    ensures var s := Run(EMPTY, events);
            pid in s.procs && Live(s.procs[pid].w) ==>
              var p := s.procs[pid];
              && p.db != [] && DbLock(p.db) in s.locks && s.locks[DbLock(p.db)] == pid
              && ModelLock(p.dir) in s.locks && s.locks[ModelLock(p.dir)] == pid
  {
    hide DbLock, ModelLock, Run;
    RunKeeps(events);
  }

  /** So two processes never both have a live writer on one database or one
      model directory. */
  lemma WritersNeverShareAStore(events: seq<(nat, Event)>, p: nat, q: nat)
    ensures var s := Run(EMPTY, events);
            p != q && p in s.procs && q in s.procs && Live(s.procs[p].w) && Live(s.procs[q].w) ==>
              s.procs[p].db != s.procs[q].db && s.procs[p].dir != s.procs[q].dir
  {
    hide Run, Live;
    LiveWriterHoldsBothLocks(events, p);
    LiveWriterHoldsBothLocks(events, q);
  }

  /** Startup recovery is safe: while a process is starting, no other process
      has a live writer on its database or its model directory. */
  lemma RecoveryIsAlone(events: seq<(nat, Event)>, p: nat, q: nat)
    ensures var s := Run(EMPTY, events);
            p != q && p in s.procs && q in s.procs && s.procs[p].phase.Starting? && Live(s.procs[q].w) ==>
              s.procs[p].db != s.procs[q].db && s.procs[p].dir != s.procs[q].dir
  {
    hide Run;
    RunKeeps(events);
  }

  /** A process that failed to start, or released its store, holds no lock; a
      lock whose process exited is gone. */
  lemma NothingIsHeldAfterwards(events: seq<(nat, Event)>, l: Path)
    ensures var s := Run(EMPTY, events);
            l in s.locks ==>
              && s.locks[l] in s.procs
              && !s.procs[s.locks[l]].phase.Over? && !s.procs[s.locks[l]].phase.Fresh?
  {
    hide Run, Sound;
    RunKeeps(events);
    var s := Run(EMPTY, events);
    assert l in s.locks ==> Accounted(s, l);
  }

  /** However often the lifespan's task is cancelled while it shuts down, it
      goes on to the drain only after the cleanup task has ended, and to its
      decision only after the drain has; and by then it knows that it was
      cancelled, if it was. */
  lemma CancellationCutsNothingShort(events: seq<(nat, Event)>, pid: nat)
    ensures var s := Run(EMPTY, events);
            pid in s.procs ==>
              var p := s.procs[pid];
              && (p.phase.Draining? || p.phase.Releasing? || p.phase.Retained? ==> !p.w.cleanup.Running?)
              && (p.phase.Releasing? || p.phase.Retained? ==>
                    p.caller.drain.DrainDone? && (p.caller.cancelled <==> p.past.cancels > 0))
              && (p.past.cancels > 0 && Awaiting(p) ==> p.caller.cancelled || p.caller.pending)
  {
    hide Run, WellPhased, Proven;
    RunKeeps(events);
  }

  predicate AllTrue(bs: seq<bool>) { forall i | 0 <= i < |bs| :: bs[i] }

  /** The decision, in every run: after a cleanup that ran to its end the locks
      are kept exactly when the step that stops a started gRPC edge failed, or
      the webhook task, its thread or a download is live at that moment. The
      webhook can be live only if its step failed, a download only if the drain
      failed or one was started after it; so a teardown and a drain that
      succeed release the store, whatever ran when they began. */
  lemma LocksAreRetainedExactlyWhenUnproven(events: seq<(nat, Event)>, pid: nat)
    requires var s := Run(EMPTY, events);
             pid in s.procs && Decides(s.procs[pid]) && s.procs[pid].w.cleanup.Completed?
    ensures var s := Run(EMPTY, events);
            var p, t := s.procs[pid], Next(s, pid, CallerResumes);
            var w, past := p.w, p.past;
            && pid in t.procs && |past.outcomes| == STEPS
            && (t.procs[pid].phase.Retained? <==>
                  (!w.grpc.Disabled? && !past.outcomes[0]) || w.webhookTask || w.webhookThread || w.downloads > 0)
            && (t.procs[pid].phase.Retained? ==> t.locks == s.locks)
            && (!t.procs[pid].phase.Retained? ==>
                  t.procs[pid].phase.Releasing? && t.locks == s.locks - {ModelLock(p.dir)})
            && (w.webhookTask || w.webhookThread ==> !past.outcomes[3])
            && (w.downloads > 0 ==> p.caller.drain == DrainDone(false) || past.late)
            && (AllTrue(past.outcomes) && p.caller.drain == DrainDone(true) && !past.late ==>
                  t.procs[pid].phase.Releasing?)
  {
    hide Run, DbLock, ModelLock;
    RunKeeps(events);
  }

  /** A cleanup that was cut short keeps the locks. */
  lemma CutShortRetains(events: seq<(nat, Event)>, pid: nat)
    requires var s := Run(EMPTY, events);
             pid in s.procs && Decides(s.procs[pid]) && s.procs[pid].w.cleanup.CutShort?
    ensures var t := Next(Run(EMPTY, events), pid, CallerResumes); pid in t.procs && t.procs[pid].phase.Retained?
  {
    hide Run, DbLock, ModelLock;
    RunKeeps(events);
  }

  // ------------------------------------------- awaiting through cancellation

  function Locals(p: Process, events: seq<Event>): Process {
    if events == [] then p else LocalStep(Locals(p, events[..|events| - 1]), events[|events| - 1])
  }

  lemma {:induction false} LocalsAppend(p: Process, a: seq<Event>, b: seq<Event>)
    ensures Locals(p, a + b) == Locals(Locals(p, a), b)
    decreases |b|
  {
    hide LocalStep;
    if b == [] {
      assert a + b == a;
    } else {
      LocalsAppend(p, a, b[..|b| - 1]);
      assert (a + b)[..|a + b| - 1] == a + b[..|b| - 1];
    }
  }

  predicate Hit(p: Process) { p.caller.cancelled || p.caller.pending }

  /** While the caller is asleep nothing moves it on, and every cancellation
      that arrives is kept for it. */
  lemma {:induction false} SleepKeeps(p: Process, events: seq<Event>)
    requires Awaiting(p) && CallerResumes !in events
    ensures var q := Locals(p, events); q.phase == p.phase && (Hit(q) <==> Hit(p) || CancelCaller in events)
    decreases |events|
  {
    if events != [] {
      var front, e := events[..|events| - 1], events[|events| - 1];
      SleepKeeps(p, front);
      assert events == front + [e];
    }
  }

  lemma LoopsAgain(p: Process)
    requires Awaiting(p) && !TaskDone(p)
    ensures Locals(p, [CallerResumes]) == p.(caller := Noted(p.caller))
  {
    assert [CallerResumes][..0] == [];
  }

  /** The loops of `_complete` and `_drain_owned_work`: `rounds[i]` is all that
      happens while the i-th `await shield(task)` lasts. The loop returns only
      once its task is done, whatever cancellations the rounds hold; it loses
      none of them; and what happened on the way is a run of the process. */
  method AwaitShielded(p: Process, rounds: seq<seq<Event>>)
    returns (q: Process, returned: bool, ghost script: seq<Event>)
    requires Awaiting(p) && forall i | 0 <= i < |rounds| :: CallerResumes !in rounds[i]
    ensures q == Locals(p, script) && q.phase == p.phase
    ensures returned <==> TaskDone(q)
    ensures Hit(q) <==> Hit(p) || CancelCaller in script
  {
    hide LocalStep;
    q, script := p, [];
    var i := 0;
    while !TaskDone(q)
      invariant i <= |rounds| && q == Locals(p, script) && q.phase == p.phase
      invariant Hit(q) <==> Hit(p) || CancelCaller in script
      decreases |rounds| - i
    {
      if i == |rounds| { return q, false, script; }
      LocalsAppend(p, script, rounds[i]);
      SleepKeeps(q, rounds[i]);
      q, script := Locals(q, rounds[i]), script + rounds[i];
      if !TaskDone(q) {
        LoopsAgain(q);
        LocalsAppend(p, script, [CallerResumes]);
        q, script := q.(caller := Noted(q.caller)), script + [CallerResumes];
      }
      i := i + 1;
    }
    returned := true;
  }

  // ------------------------------------------------- a shutdown that releases

  lemma LocalsSnoc(p: Process, es: seq<Event>, e: Event)
    ensures Locals(p, es + [e]) == LocalStep(Locals(p, es), e)
  {
    hide LocalStep;
    assert (es + [e])[..|es|] == es;
  }

  lemma {:induction false} DownloadsEnd(p: Process) returns (es: seq<Event>)
    ensures Locals(p, es) == p.(w := p.w.(downloads := 0))
    decreases p.w.downloads
  {
    if p.w.downloads == 0 {
      es := [];
    } else {
      var q := LocalStep(p, EndDownload);
      var rest := DownloadsEnd(q);
      LocalsSnoc(p, [], EndDownload);
      LocalsAppend(p, [] + [EndDownload], rest);
      es := [] + [EndDownload] + rest;
    }
  }

  lemma {:induction false} StepsSucceed(p: Process, n: nat) returns (es: seq<Event>)
    requires p.phase.CleaningUp? && p.w.cleanup.Running? && p.w.cleanup.step + n < STEPS
    requires !p.w.webhookThread && (p.w.cleanup.step + n > 6 ==> p.w.downloads == 0)
    ensures var q := Locals(p, es);
            && q.phase == p.phase && q.w.cleanup == Running(p.w.cleanup.step + n) && q.caller == p.caller
            && q.w.downloads == p.w.downloads && !q.w.webhookThread
            && (p.w.cleanup.step == 0 && n > 0 ==> q.w.grpc.Disabled? || q.w.grpc.Terminated?)
            && (p.w.cleanup.step > 0 || n == 0 ==> q.w.grpc == p.w.grpc)
            && (p.w.cleanup.step <= 3 < p.w.cleanup.step + n ==> !q.w.webhookTask)
            && (!p.w.webhookTask ==> !q.w.webhookTask) && q.past.cancels == p.past.cancels
    decreases n
  {
    if n == 0 { return []; }
    es := StepsSucceed(p, n - 1);
    LocalsSnoc(p, es, CleanupStep(true));
    es := es + [CleanupStep(true)];
  }

  /** A failing step does not stop the ones after it: whatever their outcomes,
      all eight steps run, in order, and the cleanup is then complete. */
  lemma {:induction false} EveryStepRuns(p: Process, outcomes: seq<bool>) returns (es: seq<Event>)
    requires p.phase.CleaningUp? && p.w.cleanup == Running(0) && |outcomes| <= STEPS
    requires !p.w.webhookThread && p.w.downloads == 0 && p.past.outcomes == []
    ensures var q := Locals(p, es);
            && q.phase == p.phase && q.past.outcomes == outcomes && !q.w.webhookThread && q.w.downloads == 0
            && q.w.cleanup == if |outcomes| == STEPS then Completed else Running(|outcomes|)
    decreases |outcomes|
  {
    if outcomes == [] { return []; }
    var n := |outcomes| - 1;
    es := EveryStepRuns(p, outcomes[..n]);
    LocalsSnoc(p, es, CleanupStep(outcomes[n]));
    es := es + [CleanupStep(outcomes[n])];
    assert outcomes[..n] + [outcomes[n]] == outcomes;
  }

  /** The webhook task ends once its thread is idle, and not before. */
  lemma WebhookEndsAfterThread(p: Process)
    ensures LocalStep(p, WebhookEnds) == if p.w.webhookThread then p else p.(w := p.w.(webhookTask := false))
    ensures LocalStep(LocalStep(p, WebhookIdle), WebhookEnds)
            == p.(w := p.w.(webhookThread := false, webhookTask := false))
  {
  }

  /** From every serving process, whatever writers it has, there is a shutdown
      that is cancelled twice on the way and still releases the store. */
  lemma ShutdownCanRelease(p: Process) returns (es: seq<Event>)
    requires p.phase.Serving? && p.caller.drain.NoDrain?
    ensures var q := Locals(p, es);
            Decides(q) && q.w.cleanup.Completed? && !Live(q.w) && q.past.cancels == p.past.cancels + 2
  {
    LocalsSnoc(p, [], WebhookIdle);
    LocalsSnoc(p, [] + [WebhookIdle], BeginCleanup);
    es := [] + [WebhookIdle] + [BeginCleanup];
    LocalsSnoc(p, es, CancelCaller);
    es := es + [CancelCaller];
    LocalsSnoc(p, es, CallerResumes);
    es := es + [CallerResumes];
    es := FinishShutdown(p, es);
  }

  lemma FinishShutdown(p: Process, begun: seq<Event>) returns (es: seq<Event>)
    requires var q := Locals(p, begun);
             && q.phase.CleaningUp? && q.w.cleanup == Running(0) && !q.w.webhookThread && q.caller.drain.NoDrain?
             && q.past.cancels == p.past.cancels + 1
    ensures var q := Locals(p, es);
            Decides(q) && q.w.cleanup.Completed? && !Live(q.w) && q.past.cancels == p.past.cancels + 2
  {
    hide Locals, LocalStep;
    var six := StepsSucceed(Locals(p, begun), 6);
    LocalsAppend(p, begun, six);
    es := begun + six;
    var ends := DownloadsEnd(Locals(p, es));
    LocalsAppend(p, es, ends);
    es := es + ends;
    var one := StepsSucceed(Locals(p, es), 1);
    LocalsAppend(p, es, one);
    es := es + one;
    es := LastSteps(p, es);
  }

  lemma LastSteps(p: Process, before: seq<Event>) returns (es: seq<Event>)
    requires var q := Locals(p, before);
             && q.phase.CleaningUp? && q.w.cleanup == Running(7) && q.caller.drain.NoDrain?
                 && q.past.cancels == p.past.cancels + 1
             && q.w.downloads == 0 && !q.w.webhookThread && !q.w.webhookTask
                 && (q.w.grpc.Disabled? || q.w.grpc.Terminated?)
    ensures var q := Locals(p, es);
            Decides(q) && q.w.cleanup.Completed? && !Live(q.w) && q.past.cancels == p.past.cancels + 2
  {
    hide Locals;
    es := before;
    LocalsSnoc(p, es, CleanupStep(true));
    es := es + [CleanupStep(true)];
    LocalsSnoc(p, es, CancelCaller);
    es := es + [CancelCaller];
    LocalsSnoc(p, es, CallerResumes);
    es := es + [CallerResumes];
    LocalsSnoc(p, es, DrainEnds(true));
    es := es + [DrainEnds(true)];
  }

  // ------------------------------------------------------------- whole lives

  lemma RunSnoc(s: World, events: seq<(nat, Event)>, pid: nat, e: Event)
    ensures Run(s, events + [(pid, e)]) == Next(Run(s, events), pid, e)
  {
    hide Next;
    assert (events + [(pid, e)])[..|events|] == events;
  }

  lemma {:induction false} RunAppend(s: World, a: seq<(nat, Event)>, b: seq<(nat, Event)>)
    ensures Run(s, a + b) == Run(Run(s, a), b)
    decreases |b|
  {
    hide Next;
    if b == [] {
      assert a + b == a;
    } else {
      RunAppend(s, a, b[..|b| - 1]);
      assert (a + b)[..|a + b| - 1] == a + b[..|b| - 1];
    }
  }

  predicate Free(s: World, db: Path, dir: Path)
    requires db != []
  {
    DbLock(db) !in s.locks && ModelLock(dir) !in s.locks
  }

  function Launched(s: World, pid: nat, db: Path, dir: Path): World {
    Next(Next(Next(Next(s, pid, Spawn(db, dir)), pid, LockDb(false)), pid, LockModels(false)), pid, Started)
  }

  /** What becomes of a launch: with two lock files that differ and are both free
      the process serves and holds both; otherwise it ends, and no lock has
      changed hands. Other processes are untouched. */
  lemma LaunchServesIffFree(s: World, pid: nat, db: Path, dir: Path)
    requires db != [] && pid !in s.procs
    ensures var t := Launched(s, pid, db, dir);
            && t.procs.Keys == s.procs.Keys + {pid} && (forall q | q in s.procs :: t.procs[q] == s.procs[q])
            && (t.procs[pid].phase == Serving <==> db != dir + [".engine-model-store"] && Free(s, db, dir))
            && (t.procs[pid].phase == Serving ==>
                  && t.locks == s.locks[DbLock(db) := pid][ModelLock(dir) := pid]
                  && t.procs[pid] == NewProcess(db, dir).(phase := Serving))
            && (t.procs[pid].phase != Serving ==> t.procs[pid].phase == Over && t.locks == s.locks)
  {
    SameLockFile(db, dir);
    hide DbLock, ModelLock;
    var a := Next(s, pid, Spawn(db, dir));
    var b := Next(a, pid, LockDb(false));
    var c := Next(b, pid, LockModels(false));
    assert a.procs[pid].phase == (if Distinct(db, dir) then Fresh else Over);
    if Distinct(db, dir) && DbLock(db) !in s.locks {
      assert b.procs[pid].phase == HasDb;
      assert b.locks - {DbLock(db)} == s.locks;
    }
  }

  /** An event inside a process leaves locks and the other processes alone. */
  lemma NextIsLocal(s: World, pid: nat, e: Event)
    requires pid in s.procs && s.procs[pid].db != [] && !(e.CallerResumes? && Decides(s.procs[pid]))
    requires !e.Spawn? && !e.LockDb? && !e.LockModels? && !e.ReleaseDb? && !e.Exit?
    ensures Next(s, pid, e) == Update(s, pid, LocalStep(s.procs[pid], e), s.locks)
  {
    hide LocalStep, Decides;
  }

  /** The shutdown of a serving process that nothing disturbs: eight steps that
      succeed, the drain, and the decision. */
  lemma {:induction false} StepsDone(s: World, pid: nat, n: nat) returns (events: seq<(nat, Event)>)
    requires pid in s.procs && s.procs[pid].db != [] && s.procs[pid].phase == CleaningUp && n <= STEPS
    requires s.procs[pid].w == QUIET.(cleanup := Running(0))
    ensures var p, t := s.procs[pid], Run(s, events);
            && pid in t.procs && t == Update(s, pid, t.procs[pid], s.locks)
            && t.procs[pid] == p.(w := QUIET.(cleanup := if n == STEPS then Completed else Running(n)),
                                  past := p.past.(outcomes := t.procs[pid].past.outcomes))
    decreases n
  {
    hide Run;
    if n == 0 {
      events := [];
      assert Run(s, []) == s by { RunNone(s); }
      assert s == Update(s, pid, s.procs[pid], s.locks);
    } else {
      events := StepsDone(s, pid, n - 1);
      NextIsLocal(Run(s, events), pid, CleanupStep(true));
      RunSnoc(s, events, pid, CleanupStep(true));
      events := events + [(pid, CleanupStep(true))];
    }
  }

  lemma RunNone(s: World)
    ensures Run(s, []) == s
  {
  }

  /** A process that decides with nothing live gives back both locks. */
  lemma DecidesToRelease(s: World, pid: nat)
    requires pid in s.procs && s.procs[pid].db != [] && Decides(s.procs[pid]) && !Live(s.procs[pid].w)
    ensures var p, t := s.procs[pid], Next(Next(s, pid, CallerResumes), pid, ReleaseDb);
            && pid in t.procs && t == Update(s, pid, t.procs[pid], s.locks - {ModelLock(p.dir)} - {DbLock(p.db)})
            && t.procs[pid].phase == Over
  {
    hide DbLock, ModelLock, Live;
  }

  /** From the end of the cleanup to the release. */
  lemma ReleasedAtEnd(s: World, pid: nat)
    requires pid in s.procs && s.procs[pid].db != [] && s.procs[pid].phase == CleaningUp
    requires s.procs[pid].w == QUIET.(cleanup := Completed)
    ensures var p := s.procs[pid];
            var t := Next(Next(Next(Next(s, pid, CallerResumes), pid, DrainEnds(true)), pid, CallerResumes),
                          pid, ReleaseDb);
            && pid in t.procs && t == Update(s, pid, t.procs[pid], s.locks - {ModelLock(p.dir)} - {DbLock(p.db)})
            && t.procs[pid].phase == Over
  {
    hide DbLock, ModelLock, Next;
    var a := Next(s, pid, CallerResumes);
    NextIsLocal(s, pid, CallerResumes);
    assert a.procs[pid].phase == Draining && a.procs[pid].caller.drain == DrainRuns;
    var b := Next(a, pid, DrainEnds(true));
    NextIsLocal(a, pid, DrainEnds(true));
    DecidesToRelease(b, pid);
  }

  /** An undisturbed shutdown of a quiet serving process gives back both locks. */
  lemma QuietShutdownReleases(s: World, pid: nat) returns (events: seq<(nat, Event)>)
    requires pid in s.procs && s.procs[pid].db != [] && s.procs[pid].phase == Serving && s.procs[pid].w == QUIET
    ensures var p, t := s.procs[pid], Run(s, events);
            && pid in t.procs && t.procs[pid].phase == Over
            && t == Update(s, pid, t.procs[pid], s.locks - {ModelLock(p.dir)} - {DbLock(p.db)})
  {
    hide Run, DbLock, ModelLock, Decides;
    var begun := Next(s, pid, BeginCleanup);
    NextIsLocal(s, pid, BeginCleanup);
    var steps := StepsDone(begun, pid, STEPS);
    var done := Run(begun, steps);
    ReleasedAtEnd(done, pid);
    RunNone(s);
    RunSnoc(s, [], pid, BeginCleanup);
    RunAppend(s, [] + [(pid, BeginCleanup)], steps);
    events := [] + [(pid, BeginCleanup)] + steps;
    events := FourMore(s, events, pid, CallerResumes, DrainEnds(true), CallerResumes, ReleaseDb);
  }

  lemma FourMore(s: World, before: seq<(nat, Event)>, pid: nat, a: Event, b: Event, c: Event, d: Event)
    returns (events: seq<(nat, Event)>)
    ensures Run(s, events) == Next(Next(Next(Next(Run(s, before), pid, a), pid, b), pid, c), pid, d)
  {
    hide Next, Run;
    RunSnoc(s, before, pid, a);
    events := before + [(pid, a)];
    RunSnoc(s, events, pid, b);
    events := events + [(pid, b)];
    RunSnoc(s, events, pid, c);
    events := events + [(pid, c)];
    RunSnoc(s, events, pid, d);
    events := events + [(pid, d)];
  }

  /** A free store can be served, given back, and served again by another process. */
  lemma StoreCanBeHandedOn(s: World, p: nat, q: nat, db: Path, dir: Path) returns (events: seq<(nat, Event)>)
    requires db != [] && db != dir + [".engine-model-store"] && Free(s, db, dir)
    requires p !in s.procs && q !in s.procs && p != q
    ensures var t := Run(s, events);
            && p in t.procs && q in t.procs && t.procs[p].phase == Over && t.procs[q].phase == Serving
            && t.locks == s.locks[DbLock(db) := q][ModelLock(dir) := q]
  {
    SameLockFile(db, dir);
    hide Run, Next, DbLock, ModelLock;
    LaunchServesIffFree(s, p, db, dir);
    RunNone(s);
    var first := FourMore(s, [], p, Spawn(db, dir), LockDb(false), LockModels(false), Started);
    var served := Run(s, first);
    assert served.procs[p].phase == Serving;
    var more := QuietShutdownReleases(served, p);
    RunAppend(s, first, more);
    var released := Run(served, more);
    assert released.locks == s.locks;
    LaunchServesIffFree(released, q, db, dir);
    events := FourMore(s, first + more, q, Spawn(db, dir), LockDb(false), LockModels(false), Started);
  }

  /** A start that fails after the locks were taken gives them back. */
  lemma FailedStartReleases(s: World, pid: nat)
    requires pid in s.procs && s.procs[pid].db != [] && s.procs[pid].phase == Starting && s.procs[pid].w == QUIET
    ensures var p := s.procs[pid];
            var t := Next(Next(Next(Next(s, pid, StartFails), pid, DrainEnds(true)), pid, CallerResumes),
                          pid, ReleaseDb);
            && pid in t.procs && t.procs[pid].phase == Over
            && t == Update(s, pid, t.procs[pid], s.locks - {ModelLock(p.dir)} - {DbLock(p.db)})
  {
    hide DbLock, ModelLock, Next;
    var a := Next(s, pid, StartFails);
    NextIsLocal(s, pid, StartFails);
    var b := Next(a, pid, DrainEnds(true));
    NextIsLocal(a, pid, DrainEnds(true));
    DecidesToRelease(b, pid);
  }

  /** A serving process can have every kind of writer live at once; if its cleanup
      is then cut short and its drain fails, all of them are still live when it
      decides, so it keeps both locks until it exits. */
  lemma BusyShutdownRetains(p: Process) returns (busyBy: seq<Event>, lateBy: seq<Event>)
    requires p.phase == Serving && p.w == QUIET && p.caller == Caller(false, false, NoDrain)
    ensures var busy := Locals(p, busyBy);
            var late := Locals(busy, lateBy);
            && busy.w == Writers(1, true, true, Grpc.Owned, NotStarted) && busy.phase == Serving
            && Decides(late) && late.w == busy.w.(cleanup := CutShort) && Live(late.w)
  {
    hide Locals;
    busyBy := [];
    LocalsNone(p);
    LocalsSnoc(p, busyBy, StartWebhook); busyBy := busyBy + [StartWebhook];
    LocalsSnoc(p, busyBy, WebhookBusy); busyBy := busyBy + [WebhookBusy];
    LocalsSnoc(p, busyBy, StartGrpc); busyBy := busyBy + [StartGrpc];
    LocalsSnoc(p, busyBy, StartDownload); busyBy := busyBy + [StartDownload];
    lateBy := CutShutdown(Locals(p, busyBy));
  }

  lemma LocalsNone(p: Process)
    ensures Locals(p, []) == p
  {
  }

  lemma CutShutdown(p: Process) returns (es: seq<Event>)
    requires p.phase == Serving && p.caller == Caller(false, false, NoDrain)
    ensures Decides(Locals(p, es)) && Locals(p, es).w == p.w.(cleanup := CutShort)
  {
    hide Locals;
    es := [];
    LocalsNone(p);
    LocalsSnoc(p, es, BeginCleanup); es := es + [BeginCleanup];
    LocalsSnoc(p, es, CutCleanup); es := es + [CutCleanup];
    LocalsSnoc(p, es, CallerResumes); es := es + [CallerResumes];
    LocalsSnoc(p, es, DrainEnds(false)); es := es + [DrainEnds(false)];
  }

  /** An exit, however it comes, frees exactly the locks of that process. */
  lemma ExitFreesItsLocks(s: World, pid: nat, l: Path)
    requires Inv(s) && pid in s.procs
    ensures var t := Next(s, pid, Exit);
            && pid !in t.procs && (forall q | q in s.procs && q != pid :: q in t.procs && t.procs[q] == s.procs[q])
            && (l in t.locks <==> l in s.locks && s.locks[l] != pid)
            && (l in t.locks ==> t.locks[l] == s.locks[l])
  {
    hide Sound, Owns, Accounted;
    assert s.procs[pid].db != [];
  }
}
