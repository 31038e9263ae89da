/**
 The background task pool as a state machine. Every action is one atomic section of
 the pool: a critical section of one of its locks, one atomic access to a cancel flag,
 or one semaphore operation. Spawners, workers, progress callbacks, cancellers and
 persist jobs interleave freely; a run is the sequence of their actions.
 */
module TaskPool {
  import opened Wrappers

  type Id = nat

  datatype Status = Pending | Running | Completed | Failed | Cancelled

  predicate IsTerminal(s: Status) {
    s.Completed? || s.Failed? || s.Cancelled?
  }

  predicate IsActive(s: Status) {
    s.Pending? || s.Running?
  }

  /** The mutable part of `BackgroundTaskInfo`. */
  datatype Info = Info(
    id: Id, progress: string, status: Status, index: nat, total: nat,
    rowCompleted: Option<nat>, rowTotal: Option<nat>,
    startedAt: int, finishedAt: Option<int>, error: Option<string>)

  /** The columns on which two writers of the history table could disagree. */
  datatype Verdict = Verdict(status: Status, finishedAt: Option<int>, error: Option<string>)

  function VerdictOf(t: Info): Verdict {
    Verdict(t.status, t.finishedAt, t.error)
  }

  datatype SpawnPhase = Inserted | Flagged | Started | Handled

  /**
   Where a worker stands: waiting for a permit; permit held, before the Running patch; in its work;
   after its work; cancel flag read; final patch applied; flag and then handle removed from their
   maps; completed, or dropped by an abort, with the permit returned.
   */
  datatype Phase =
    | Queued
    | Acquired
    | Working
    | Worked
    | Loaded
    | Patched
    | Unflagged
    | Unhandled
    | Finished
    | Dropped

  /** `began` and `patched` record whether the Running patch and the final patch happened. */
  datatype Worker = Worker(
    phase: Phase, began: bool, patched: bool,
    outcome: Result<(), string>, sawCancel: bool)

  predicate Holding(p: Phase) {
    p.Acquired? || p.Working? || p.Worked? || p.Loaded? || p.Patched? || p.Unflagged? || p.Unhandled?
  }

  datatype CancelPhase = Stored | Aborted | Answered

  datatype Canceller = Canceller(target: Id, persist: bool, phase: CancelPhase)

  /**
   `cells` are the shared flag atomics, `flags` the domain of the map that publishes them;
   a worker keeps its own reference to its atomic after the map entry is gone.
   */
  datatype Pool = Pool(
    workerCount: nat, permits: nat,
    tasks: map<Id, Info>, cells: map<Id, bool>, flags: set<Id>, handles: set<Id>, aborted: set<Id>,
    spawns: map<Id, SpawnPhase>, workers: map<Id, Worker>, cancels: map<nat, Canceller>,
    jobs: seq<Info>, history: map<Id, Info>)

  datatype Action =
    | InsertTask(id: Id, total: nat, now: int)
    | InsertFlag(id: Id)
    | StartWorker(id: Id)
    | InsertHandle(id: Id)
    | Acquire(id: Id)
    | MarkRunning(id: Id)
    | Progress(id: Id, text: string, index: nat, total: nat, rowCompleted: Option<nat>, rowTotal: Option<nat>)
    | Finish(id: Id, outcome: Result<(), string>)
    | LoadFlag(id: Id)
    | FinalPatch(id: Id, now: int)
    | DropFlag(id: Id)
    | DropHandle(id: Id)
    | Release(id: Id)
    | Drop(id: Id)
    | CancelStore(caller: nat, id: Id, persist: bool)
    | CancelAbort(caller: nat, id: Id)
    | CancelPatch(caller: nat, id: Id, persist: bool, now: int)
    | Persist(job: nat)

  function Init(workerCount: nat): Pool {
    var n := if workerCount < 1 then 1 else workerCount;
    Pool(n, n, map[], map[], {}, {}, {}, map[], map[], map[], [], map[])
  }

  // ---- the patches applied under the task lock -------------------------------------

  function NewTask(id: Id, total: nat, now: int): Info {
    Info(id, "", Pending, 0, total, None, None, now, None, None)
  }

  function RunningPatch(t: Info): Info {
    t.(status := Running)
  }

  function ProgressPatch(t: Info, text: string, index: nat, total: nat,
                         rowCompleted: Option<nat>, rowTotal: Option<nat>): Info
  {
    t.(progress := text, index := index, total := total, rowCompleted := rowCompleted, rowTotal := rowTotal,
       status := if t.status.Pending? then Running else t.status)
  }

  function FinalStatus(w: Worker): Status {
    if w.sawCancel then Cancelled else if w.outcome.Ok? then Completed else Failed
  }

  function FinishPatch(t: Info, w: Worker, now: int): Info {
    if IsTerminal(t.status) then t
    else t.(status := FinalStatus(w), finishedAt := Some(now),
            error := if w.outcome.Err? then Some(w.outcome.error) else t.error)
  }

  function CancelledPatch(t: Info, now: int): Info {
    if IsActive(t.status) then t.(status := Cancelled, finishedAt := Some(now)) else t
  }

  // ---- the step function --------------------------------------------------------------

  predicate AtPhase(s: Pool, id: Id, p: Phase) {
    id in s.workers && s.workers[id].phase == p
  }

  predicate AtSpawn(s: Pool, id: Id, p: SpawnPhase) {
    id in s.spawns && s.spawns[id] == p
  }

  predicate Enabled(s: Pool, a: Action) {
    match a
    case InsertTask(id, _, _) => id !in s.tasks && id !in s.spawns
    case InsertFlag(id) => AtSpawn(s, id, Inserted)
    case StartWorker(id) => AtSpawn(s, id, Flagged)
    case InsertHandle(id) => AtSpawn(s, id, Started)
    case Acquire(id) => AtPhase(s, id, Queued) && s.permits > 0
    case MarkRunning(id) => AtPhase(s, id, Acquired) && id in s.tasks
    case Progress(id, _, _, _, _, _) => id in s.workers && s.workers[id].began && id in s.tasks
    case Finish(id, _) => AtPhase(s, id, Working)
    case LoadFlag(id) => AtPhase(s, id, Worked) && id in s.cells
    case FinalPatch(id, _) => AtPhase(s, id, Loaded) && id in s.tasks
    case DropFlag(id) => AtPhase(s, id, Patched)
    case DropHandle(id) => AtPhase(s, id, Unflagged)
    case Release(id) => AtPhase(s, id, Unhandled)
    case Drop(id) => id in s.aborted && id in s.workers && (s.workers[id].phase.Queued? || Holding(s.workers[id].phase))
    case CancelStore(c, _, _) => c !in s.cancels
    case CancelAbort(c, id) => c in s.cancels && s.cancels[c].phase.Stored? && s.cancels[c].target == id
    case CancelPatch(c, id, persist, _) =>
      c in s.cancels && s.cancels[c].phase.Aborted? && s.cancels[c].target == id && s.cancels[c].persist == persist
    case Persist(k) => k < |s.jobs|
  }

  function Moved(s: Pool, id: Id, p: Phase): (moved: map<Id, Worker>)
    requires id in s.workers
  {
    s.workers[id := s.workers[id].(phase := p)]
  }

  function Next(s: Pool, a: Action): Pool
    requires Enabled(s, a)
  {
    match a
    case InsertTask(id, total, now) =>
      s.(tasks := s.tasks[id := NewTask(id, total, now)], spawns := s.spawns[id := Inserted])
    case InsertFlag(id) =>
      s.(cells := s.cells[id := false], flags := s.flags + {id}, spawns := s.spawns[id := Flagged])
    case StartWorker(id) =>
      s.(workers := s.workers[id := Worker(Queued, false, false, Ok(()), false)], spawns := s.spawns[id := Started])
    case InsertHandle(id) => s.(handles := s.handles + {id}, spawns := s.spawns[id := Handled])
    case Acquire(id) => s.(workers := Moved(s, id, Acquired), permits := s.permits - 1)
    case MarkRunning(id) =>
      s.(tasks := s.tasks[id := RunningPatch(s.tasks[id])],
         workers := s.workers[id := s.workers[id].(phase := Working, began := true)])
    case Progress(id, text, index, total, rc, rt) =>
      s.(tasks := s.tasks[id := ProgressPatch(s.tasks[id], text, index, total, rc, rt)])
    case Finish(id, outcome) => s.(workers := s.workers[id := s.workers[id].(phase := Worked, outcome := outcome)])
    case LoadFlag(id) => s.(workers := s.workers[id := s.workers[id].(phase := Loaded, sawCancel := s.cells[id])])
    case FinalPatch(id, now) =>
      var t := FinishPatch(s.tasks[id], s.workers[id], now);
      s.(tasks := s.tasks[id := t], jobs := s.jobs + [t],
         workers := s.workers[id := s.workers[id].(phase := Patched, patched := true)])
    case DropFlag(id) => s.(workers := Moved(s, id, Unflagged), flags := s.flags - {id})
    case DropHandle(id) => s.(workers := Moved(s, id, Unhandled), handles := s.handles - {id})
    case Release(id) => s.(workers := Moved(s, id, Finished), permits := s.permits + 1)
    case Drop(id) =>
      s.(workers := Moved(s, id, Dropped), permits := if Holding(s.workers[id].phase) then s.permits + 1 else s.permits)
    case CancelStore(c, id, persist) =>
      s.(cells := if id in s.flags then s.cells[id := true] else s.cells,
         cancels := s.cancels[c := Canceller(id, persist, Stored)])
    case CancelAbort(c, id) =>
      s.(aborted := if id in s.handles then s.aborted + {id} else s.aborted,
         handles := s.handles - {id},
         cancels := s.cancels[c := s.cancels[c].(phase := Aborted)])
    case CancelPatch(c, id, persist, now) =>
      var answers := s.cancels[c := s.cancels[c].(phase := Answered)];
      if id !in s.tasks then s.(cancels := answers)
      else
        var t := CancelledPatch(s.tasks[id], now);
        s.(cancels := answers, tasks := s.tasks[id := t], jobs := if persist then s.jobs + [t] else s.jobs)
    case Persist(k) =>
      s.(jobs := s.jobs[..k] + s.jobs[k + 1..], history := Upsert(s.history, s.jobs[k]))
  }

  /** `persist_terminal`: only terminal snapshots reach the history table. */
  function Upsert(history: map<Id, Info>, t: Info): map<Id, Info> {
    if IsTerminal(t.status) then history[t.id := t] else history
  }

  // ---- runs -------------------------------------------------------------------------------

  function Last(acts: seq<Action>): Action
    requires acts != []
  {
    acts[|acts| - 1]
  }

  function Front(acts: seq<Action>): seq<Action>
    requires acts != []
  {
    acts[..|acts| - 1]
  }

  /** The state after the actions `acts`, or `None` when one of them was not enabled. */
  function Run(n: nat, acts: seq<Action>): Option<Pool> {
    if acts == [] then Some(Init(n))
    else
      var before := Run(n, Front(acts));
      if before.Some? && Enabled(before.value, Last(acts)) then Some(Next(before.value, Last(acts))) else None
  }

  predicate Legal(n: nat, acts: seq<Action>) {
    Run(n, acts).Some?
  }

  function After(n: nat, acts: seq<Action>): Pool
    requires Legal(n, acts)
  {
    Run(n, acts).value
  }

  lemma {:induction false} LegalPrefix(n: nat, acts: seq<Action>, k: nat)
    requires Legal(n, acts) && k <= |acts|
    ensures Legal(n, acts[..k])
    decreases |acts|
  {
    if k < |acts| {
      LegalPrefix(n, Front(acts), k);
      assert Front(acts)[..k] == acts[..k];
    } else {
      assert acts[..k] == acts;
    }
  }

  // ---- the inductive invariant ----------------------------------------------------------

  predicate Holds(s: Pool, id: Id) {
    id in s.workers && Holding(s.workers[id].phase)
  }

  /** The workers that hold a permit. */
  function Holders(s: Pool): set<Id> {
    set id | id in s.workers && Holds(s, id)
  }

  predicate WorkerInv(w: Worker) {
    match w.phase
    case Queued => !w.began && !w.patched
    case Acquired => !w.began && !w.patched
    case Working => w.began && !w.patched
    case Worked => w.began && !w.patched
    case Loaded => w.began && !w.patched
    case Patched => w.patched
    case Unflagged => w.patched
    case Unhandled => w.patched
    case Finished => w.patched
    case Dropped => true
  }

  predicate StatusInv(w: Worker, st: Status) {
    && (!w.began ==> !w.patched && (st.Pending? || st.Cancelled?))
    && (w.began && !w.patched ==> st.Running? || st.Cancelled?)
    && (w.patched ==> w.began && IsTerminal(st))
  }

  /** What holds of one task: its status, its flag and its worker agree. */
  predicate TaskInv(s: Pool, id: Id) {
    && (id in s.tasks <==> id in s.spawns)
    && (id in s.cells <==> id in s.spawns && !s.spawns[id].Inserted?)
    && (id in s.workers <==> id in s.spawns && (s.spawns[id].Started? || s.spawns[id].Handled?))
    && (id in s.flags ==> id in s.cells)
    && (id in s.cells && !(id in s.workers && s.workers[id].patched) ==> id in s.flags)
    && (id in s.tasks ==> s.tasks[id].id == id)
    && (id in s.tasks && id !in s.workers ==> s.tasks[id].status.Pending? || s.tasks[id].status.Cancelled?)
    && (id in s.workers ==>
          var w := s.workers[id];
          && WorkerInv(w)
          && StatusInv(w, s.tasks[id].status))
  }

  ghost predicate Inv(s: Pool) {
    && s.workerCount >= 1
    && s.permits + |Holders(s)| == s.workerCount
    && forall id: Id :: TaskInv(s, id)
  }

  predicate Sees(a: Action, id: Id) {
    !a.Persist? && a.id == id
  }

  /** What `TaskInv` and the task's history depend on. */
  predicate SameTask(s: Pool, t: Pool, id: Id) {
    && (id in t.tasks <==> id in s.tasks)
    && (id in s.tasks ==> t.tasks[id] == s.tasks[id])
    && (id in t.workers <==> id in s.workers)
    && (id in s.workers ==> t.workers[id] == s.workers[id])
    && (id in t.cells <==> id in s.cells)
    && (id in s.cells ==> t.cells[id] == s.cells[id])
    && (id in t.spawns <==> id in s.spawns)
    && (id in s.spawns ==> t.spawns[id] == s.spawns[id])
    && (id in t.flags <==> id in s.flags)
  }

  lemma OthersSame(s: Pool, a: Action, id: Id)
    requires Enabled(s, a) && !Sees(a, id)
    ensures SameTask(s, Next(s, a), id)
  {
  }

  /** An action on one task leaves every other task as it was. */
  lemma OthersUnchanged(s: Pool, a: Action, id: Id)
    requires Enabled(s, a) && !Sees(a, id) && TaskInv(s, id)
    ensures TaskInv(Next(s, a), id) && SameTask(s, Next(s, a), id)
  {
    OthersSame(s, a, id);
  }

  lemma SpawnKeepsTask(s: Pool, a: Action)
    requires Enabled(s, a) && !a.Persist? && TaskInv(s, a.id)
    requires a.InsertTask? || a.InsertFlag? || a.StartWorker? || a.InsertHandle?
    ensures TaskInv(Next(s, a), a.id)
  {
  }

  lemma WorkerKeepsTask(s: Pool, a: Action)
    requires Enabled(s, a) && !a.Persist? && TaskInv(s, a.id)
    requires a.Acquire? || a.MarkRunning? || a.Progress? || a.Finish? || a.LoadFlag? || a.FinalPatch?
    ensures TaskInv(Next(s, a), a.id)
  {
  }

  lemma ExitKeepsTask(s: Pool, a: Action)
    requires Enabled(s, a) && !a.Persist? && TaskInv(s, a.id)
    requires a.DropFlag? || a.DropHandle? || a.Release? || a.Drop?
    ensures TaskInv(Next(s, a), a.id)
  {
  }

  lemma CancelKeepsTask(s: Pool, a: Action)
    requires Enabled(s, a) && !a.Persist? && TaskInv(s, a.id)
    requires a.CancelStore? || a.CancelAbort? || a.CancelPatch?
    ensures TaskInv(Next(s, a), a.id)
  {
  }

  /** Whether the worker of `id` holds a permit changes only when it acquires or gives back one. */
  lemma HoldsStep(s: Pool, a: Action, id: Id)
    requires Enabled(s, a) && TaskInv(s, id)
    ensures Holds(Next(s, a), id) <==>
            if Sees(a, id) && a.Acquire? then true
            else if Sees(a, id) && (a.Release? || a.Drop?) then false
            else Holds(s, id)
  {
  }

  lemma PermitsStep(s: Pool, a: Action)
    requires Enabled(s, a)
    ensures Next(s, a).permits ==
            if a.Acquire? then s.permits - 1
            else if a.Release? || (a.Drop? && Holds(s, a.id)) then s.permits + 1
            else s.permits
    ensures Next(s, a).workerCount == s.workerCount
    ensures a.Release? ==> Holds(s, a.id)
    ensures a.Acquire? ==> !Holds(s, a.id)
  {
  }

  lemma HoldersStep(s: Pool, a: Action)
    requires Inv(s) && Enabled(s, a)
    ensures Next(s, a).permits + |Holders(Next(s, a))| == s.permits + |Holders(s)|
  {
    var t := Next(s, a);
    PermitsStep(s, a);
    forall id: Id ensures Holds(t, id) <==> if Sees(a, id) && a.Acquire? then true
                                            else if Sees(a, id) && (a.Release? || a.Drop?) then false
                                            else Holds(s, id)
    {
      assert TaskInv(s, id);
      HoldsStep(s, a, id);
    }
    if a.Acquire? {
      assert Holders(t) == Holders(s) + {a.id};
    } else if a.Release? || a.Drop? {
      assert Holders(t) == Holders(s) - {a.id};
    } else {
      assert Holders(t) == Holders(s);
    }
  }

  lemma InvStep(s: Pool, a: Action)
    requires Inv(s) && Enabled(s, a)
    ensures Inv(Next(s, a))
  {
    HoldersStep(s, a);
    forall id: Id ensures TaskInv(Next(s, a), id) {
      assert TaskInv(s, id);
      if Sees(a, id) {
        if a.InsertTask? || a.InsertFlag? || a.StartWorker? || a.InsertHandle? {
          SpawnKeepsTask(s, a);
        } else if a.DropFlag? || a.DropHandle? || a.Release? || a.Drop? {
          ExitKeepsTask(s, a);
        } else if a.CancelStore? || a.CancelAbort? || a.CancelPatch? {
          CancelKeepsTask(s, a);
        } else {
          WorkerKeepsTask(s, a);
        }
      } else {
        OthersUnchanged(s, a, id);
      }
    }
  }

  lemma {:induction false} Reachable(n: nat, acts: seq<Action>)
    requires Legal(n, acts)
    ensures Inv(After(n, acts))
    decreases |acts|
  {
    if acts == [] {
      assert Holders(Init(n)) == {};
    } else {
      Reachable(n, Front(acts));
      InvStep(After(n, Front(acts)), Last(acts));
    }
  }

  // ---- permits --------------------------------------------------------------------------------

  function Executing(s: Pool): set<Id> {
    set id | id in s.workers && s.workers[id].phase.Working?
  }

  lemma SubsetSize(a: set<Id>, b: set<Id>)
    requires a <= b
    ensures |a| <= |b|
  {
    assert b == a + (b - a);
  }

  /** No permit is ever lost or duplicated, aborts included, so at most `workerCount` bodies execute. */
  lemma PermitsConserved(n: nat, acts: seq<Action>)
    requires Legal(n, acts)
    ensures After(n, acts).permits + |Holders(After(n, acts))| == After(n, acts).workerCount
    ensures After(n, acts).workerCount >= 1
    ensures |Executing(After(n, acts))| <= After(n, acts).workerCount
  {
    Reachable(n, acts);
    SubsetSize(Executing(After(n, acts)), Holders(After(n, acts)));
  }

  /** The worker count is the requested one, raised to one, and never changes. */
  lemma {:induction false} WorkerCountStays(n: nat, acts: seq<Action>)
    requires Legal(n, acts)
    ensures n >= 1 ==> After(n, acts).workerCount == n
    ensures n == 0 ==> After(n, acts).workerCount == 1
    decreases |acts|
  {
    if acts != [] {
      WorkerCountStays(n, Front(acts));
      PermitsStep(After(n, Front(acts)), Last(acts));
    }
  }

  /** Tasks 0 to k - 1 are in their work, and nothing else has happened. */
  ghost predicate FirstBusy(s: Pool, n: nat, k: nat) {
    && s.permits + k == n
    && (forall id: Id :: id in s.tasks <==> id < k)
    && (forall id: Id :: id in s.spawns <==> id < k)
    && (forall id: Id :: id in s.workers <==> id < k)
    && (forall id: Id | id < k :: s.workers[id].phase.Working?)
  }

  lemma Extended(n: nat, acts: seq<Action>, a: Action)
    requires Legal(n, acts) && Enabled(After(n, acts), a)
    ensures Legal(n, acts + [a]) && After(n, acts + [a]) == Next(After(n, acts), a)
  {
    assert Front(acts + [a]) == acts;
  }

  /** One task more is spawned. */
  lemma SpawnedNext(n: nat, acts: seq<Action>, id: Id) returns (more: seq<Action>)
    requires Legal(n, acts) && id !in After(n, acts).tasks && id !in After(n, acts).spawns
    ensures Legal(n, more)
    ensures var s, t := After(n, acts), After(n, more);
            && t.permits == s.permits && t.tasks.Keys == s.tasks.Keys + {id} && t.spawns.Keys == s.spawns.Keys + {id}
            && t.workers == s.workers[id := Worker(Queued, false, false, Ok(()), false)]
  {
    Extended(n, acts, InsertTask(id, 1, 0));
    more := acts + [InsertTask(id, 1, 0)];
    Extended(n, more, InsertFlag(id));
    more := more + [InsertFlag(id)];
    Extended(n, more, StartWorker(id));
    more := more + [StartWorker(id)];
  }

  /** And its worker starts its work, while there is a permit. */
  lemma StartedNext(n: nat, acts: seq<Action>, id: Id) returns (more: seq<Action>)
    requires Legal(n, acts) && AtPhase(After(n, acts), id, Queued) && id in After(n, acts).tasks
    requires After(n, acts).permits > 0
    ensures Legal(n, more)
    ensures var s, t := After(n, acts), After(n, more);
            && t.permits == s.permits - 1 && t.tasks.Keys == s.tasks.Keys && t.spawns == s.spawns
            && t.workers == s.workers[id := s.workers[id].(phase := Working, began := true)]
  {
    Extended(n, acts, Acquire(id));
    more := acts + [Acquire(id)];
    Extended(n, more, MarkRunning(id));
    more := more + [MarkRunning(id)];
  }

  lemma OneMoreBusy(n: nat, acts: seq<Action>, k: nat) returns (more: seq<Action>)
    requires k < n && Legal(n, acts) && FirstBusy(After(n, acts), n, k)
    ensures Legal(n, more) && FirstBusy(After(n, more), n, k + 1)
  {
    var spawned := SpawnedNext(n, acts, k);
    more := StartedNext(n, spawned, k);
  }

  lemma {:induction false} BusyRun(n: nat, k: nat) returns (acts: seq<Action>)
    requires k <= n && n >= 1
    ensures Legal(n, acts) && FirstBusy(After(n, acts), n, k)
    decreases k
  {
    if k == 0 {
      acts := [];
    } else {
      acts := BusyRun(n, k - 1);
      acts := OneMoreBusy(n, acts, k - 1);
    }
  }

  lemma {:induction false} SizeBelow(ids: set<Id>, k: nat)
    requires forall id: Id :: id in ids <==> id < k
    ensures |ids| == k
  {
    if k > 0 {
      var rest := ids - {k - 1};
      assert forall id: Id :: id in rest <==> id < k - 1;
      SizeBelow(rest, k - 1);
    }
  }

  /** The bound on concurrent work is reached: some run has as many task bodies at work as were requested. */
  lemma AllWorkersCanWork(n: nat) returns (acts: seq<Action>)
    requires n >= 1
    ensures Legal(n, acts) && |Executing(After(n, acts))| == n
  {
    acts := BusyRun(n, n);
    SizeBelow(Executing(After(n, acts)), n);
  }

  /** A worker that holds a permit always has a next action of its own, so no permit is held for ever. */
  lemma HolderCanMove(n: nat, acts: seq<Action>, id: Id, outcome: Result<(), string>, now: int)
    requires Legal(n, acts) && Holds(After(n, acts), id)
    ensures var s := After(n, acts);
            match s.workers[id].phase
            case Acquired => Enabled(s, MarkRunning(id))
            case Working => Enabled(s, Finish(id, outcome))
            case Worked => Enabled(s, LoadFlag(id))
            case Loaded => Enabled(s, FinalPatch(id, now))
            case Patched => Enabled(s, DropFlag(id))
            case Unflagged => Enabled(s, DropHandle(id))
            case Unhandled => Enabled(s, Release(id))
            case _ => false
  {
    Reachable(n, acts);
    assert TaskInv(After(n, acts), id);
  }

  // ---- statuses --------------------------------------------------------------------------------

  /**
   Completed and Failed are absorbing, and the only way out of any terminal status is
   Cancelled to Running by the worker's unguarded Running patch.
   */
  lemma TerminalExits(n: nat, acts: seq<Action>, a: Action, id: Id)
    requires Legal(n, acts) && Enabled(After(n, acts), a)
    requires id in After(n, acts).tasks && IsTerminal(After(n, acts).tasks[id].status)
    ensures var before := After(n, acts);
            var after := Next(before, a);
            && id in after.tasks
            && (VerdictOf(after.tasks[id]) == VerdictOf(before.tasks[id])
                || (a == MarkRunning(id) && before.tasks[id].status.Cancelled? && after.tasks[id].status.Running?))
  {
    Reachable(n, acts);
    assert TaskInv(After(n, acts), id);
    if !Sees(a, id) {
      OthersUnchanged(After(n, acts), a, id);
    }
  }

  /** Once Completed or Failed, the status, the finish time and the error never change again. */
  lemma {:induction false} FinishedForever(n: nat, acts: seq<Action>, k: nat, id: Id)
    requires Legal(n, acts) && k <= |acts| && Legal(n, acts[..k])
    requires id in After(n, acts[..k]).tasks
    requires After(n, acts[..k]).tasks[id].status.Completed? || After(n, acts[..k]).tasks[id].status.Failed?
    ensures id in After(n, acts).tasks
    ensures VerdictOf(After(n, acts).tasks[id]) == VerdictOf(After(n, acts[..k]).tasks[id])
    decreases |acts|
  {
    if k < |acts| {
      assert Front(acts)[..k] == acts[..k];
      FinishedForever(n, Front(acts), k, id);
      TerminalExits(n, Front(acts), Last(acts), id);
    } else {
      assert acts[..k] == acts;
    }
  }
}
