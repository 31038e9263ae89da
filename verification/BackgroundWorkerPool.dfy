/**
 The pool object itself. A section is one critical section of the source and takes one step of
 the state machine in `TaskPool`; `Spawn`, `RunQueued`, `Cancel` and `PersistAll` are the whole
 operations, undisturbed, from any state that some interleaving can reach.
 */
module BackgroundWorkerPool {
  import opened Wrappers
  import opened TaskPool
  import opened TaskRecords

  /** One call of the progress callback. */
  datatype Report = Report(text: string, index: nat, total: nat, rowCompleted: Option<nat>, rowTotal: Option<nat>)

  function Reported(t: Info, r: Report): Info {
    ProgressPatch(t, r.text, r.index, r.total, r.rowCompleted, r.rowTotal)
  }

  /** The task shows what `r` said. */
  predicate Shows(t: Info, r: Report) {
    && t.progress == r.text && t.index == r.index && t.total == r.total
    && t.rowCompleted == r.rowCompleted && t.rowTotal == r.rowTotal
  }

  /** The history after the snapshots `jobs` were written in order. */
  function Written(history: map<Id, Info>, jobs: seq<Info>): map<Id, Info>
    decreases |jobs|
  {
    if jobs == [] then history else Written(Upsert(history, jobs[0]), jobs[1..])
  }

  /** Of the terminal snapshots of a task the one that is written last stays. */
  lemma {:induction false} LastWins(history: map<Id, Info>, before: seq<Info>, t: Info, after: seq<Info>)
    requires IsTerminal(t.status) && forall u | u in after :: u.id != t.id || !IsTerminal(u.status)
    ensures t.id in Written(history, before + [t] + after) && Written(history, before + [t] + after)[t.id] == t
    decreases |before|
  {
    var jobs := before + [t] + after;
    if before == [] {
      assert jobs[1..] == after;
      OthersWritten(Upsert(history, t), after, t.id);
    } else {
      assert jobs[1..] == before[1..] + [t] + after;
      LastWins(Upsert(history, before[0]), before[1..], t, after);
    }
  }

  lemma {:induction false} OthersWritten(history: map<Id, Info>, jobs: seq<Info>, id: Id)
    requires id in history && forall u | u in jobs :: u.id != id || !IsTerminal(u.status)
    ensures id in Written(history, jobs) && Written(history, jobs)[id] == history[id]
    decreases |jobs|
  {
    if jobs != [] {
      assert jobs[0] in jobs && forall u | u in jobs[1..] :: u in jobs;
      OthersWritten(Upsert(history, jobs[0]), jobs[1..], id);
    }
  }

  lemma ReachesInv(n: nat, s: Pool)
    requires Reaches(n, s)
    ensures Inv(s)
  {
    var acts :| Legal(n, acts) && After(n, acts) == s;
    Reachable(n, acts);
  }

  /** A worker has a task and a flag of its own. */
  lemma WorkerIsKnown(n: nat, s: Pool, id: Id)
    requires Reaches(n, s) && id in s.workers
    ensures id in s.tasks && s.tasks[id].id == id && id in s.cells
    ensures s.workers[id].phase.Working? ==> s.workers[id].began
    ensures s.workers[id].phase.Queued? ==>
              !s.workers[id].began && (s.tasks[id].status.Pending? || s.tasks[id].status.Cancelled?)
  {
    ReachesInv(n, s);
    assert TaskInv(s, id);
  }

  class WorkerPool {
    const workerCount: nat
    var permits: nat
    var tasks: map<Id, Info>
    var cells: map<Id, bool>
    var flags: set<Id>
    var handles: set<Id>
    var aborted: set<Id>
    var spawns: map<Id, SpawnPhase>
    var workers: map<Id, Worker>
    var cancels: map<nat, Canceller>
    var jobs: seq<Info>
    var history: map<Id, Info>

    ghost function View(): Pool
      reads this
    {
      Pool(workerCount, permits, tasks, cells, flags, handles, aborted, spawns, workers, cancels, jobs, history)
    }

    /** Some interleaving of spawns, workers, cancels and persist jobs leads here. */
    ghost predicate Valid()
      reads this
    {
      Reaches(workerCount, View())
    }

    constructor (requested: nat)
      ensures View() == Init(requested) && Valid()
      ensures requested >= 1 ==> workerCount == requested
      ensures requested == 0 ==> workerCount == 1
      ensures permits == workerCount && tasks == map[] && history == map[] && jobs == []
    {
      workerCount := if requested < 1 then 1 else requested;
      permits := if requested < 1 then 1 else requested;
      tasks, cells, flags, handles, aborted := map[], map[], {}, {}, {};
      spawns, workers, cancels, jobs, history := map[], map[], map[], [], map[];
      new;
      ReachesInit(workerCount);
    }

    /** `patch_task`: change one entry under the task lock and return a copy of it. */
    method PatchTask(id: Id, patch: Info -> Info) returns (updated: Option<Info>)
      modifies this`tasks
      ensures id !in old(tasks) ==> updated == None && tasks == old(tasks)
      ensures id in old(tasks) ==>
                updated == Some(patch(old(tasks)[id])) && tasks == old(tasks)[id := patch(old(tasks)[id])]
    {
      if id !in tasks {
        return None;
      }
      var entry := patch(tasks[id]);
      tasks := tasks[id := entry];
      return Some(entry);
    }

    // ---- the sections of a spawn ----------------------------------------------------------------

    method PublishTask(id: Id, total: nat, now: int)
      requires Valid() && Enabled(View(), InsertTask(id, total, now))
      modifies this`tasks, this`spawns
      ensures Valid()
      ensures tasks == old(tasks)[id := NewTask(id, total, now)] && spawns == old(spawns)[id := Inserted]
    {
      ReachesNext(workerCount, View(), InsertTask(id, total, now));
      ghost var next := Next(View(), InsertTask(id, total, now));
      tasks := tasks[id := Info(id, "", Pending, 0, total, None, None, now, None, None)];
      spawns := spawns[id := Inserted];
      assert View() == next;
    }

    method PublishFlag(id: Id)
      requires Valid() && Enabled(View(), InsertFlag(id))
      modifies this`cells, this`flags, this`spawns
      ensures Valid()
      ensures cells == old(cells)[id := false] && flags == old(flags) + {id} && spawns == old(spawns)[id := Flagged]
    {
      ReachesNext(workerCount, View(), InsertFlag(id));
      ghost var next := Next(View(), InsertFlag(id));
      cells := cells[id := false];
      flags := flags + {id};
      spawns := spawns[id := Flagged];
      assert View() == next;
    }

    method SpawnWorker(id: Id)
      requires Valid() && Enabled(View(), StartWorker(id))
      modifies this`workers, this`spawns
      ensures Valid()
      ensures workers == old(workers)[id := Worker(Queued, false, false, Ok(()), false)]
      ensures spawns == old(spawns)[id := Started]
    {
      ReachesNext(workerCount, View(), StartWorker(id));
      ghost var next := Next(View(), StartWorker(id));
      workers := workers[id := Worker(Queued, false, false, Ok(()), false)];
      spawns := spawns[id := Started];
      assert View() == next;
    }

    method PublishHandle(id: Id)
      requires Valid() && Enabled(View(), InsertHandle(id))
      modifies this`handles, this`spawns
      ensures Valid()
      ensures spawns == old(spawns)[id := Handled]
      ensures handles == old(handles) + {id}
    {
      ReachesNext(workerCount, View(), InsertHandle(id));
      ghost var next := Next(View(), InsertHandle(id));
      handles := handles + {id};
      spawns := spawns[id := Handled];
      assert View() == next;
    }

    /**
     `spawn`, undisturbed: the task is Pending, its flag published and clear, its worker queued and
     its handle stored; nothing else changes.
     */
    method Spawn(id: Id, total: nat, now: int)
      requires Valid() && id !in tasks && id !in spawns
      modifies this`tasks, this`cells, this`flags, this`handles, this`spawns, this`workers
      ensures Valid()
      ensures tasks == old(tasks)[id := Info(id, "", Pending, 0, total, None, None, now, None, None)]
      ensures workers.Keys == old(workers.Keys) + {id}
      ensures cells == old(cells)[id := false] && flags == old(flags) + {id} && handles == old(handles) + {id}
      ensures AtPhase(View(), id, Queued)
    {
      PublishTask(id, total, now);
      PublishFlag(id);
      SpawnWorker(id);
      PublishHandle(id);
    }

    // ---- the sections of a worker ------------------------------------------------------------------

    method AcquirePermit(id: Id)
      requires Valid() && Enabled(View(), Acquire(id))
      modifies this`permits, this`workers
      ensures Valid()
      ensures permits == old(permits) - 1 && workers == old(workers)[id := old(workers)[id].(phase := Acquired)]
    {
      ReachesNext(workerCount, View(), Acquire(id));
      ghost var next := Next(View(), Acquire(id));
      permits := permits - 1;
      workers := workers[id := workers[id].(phase := Acquired)];
      assert View() == next;
    }

    method BeginWork(id: Id)
      requires Valid() && Enabled(View(), MarkRunning(id))
      modifies this`tasks, this`workers
      ensures Valid()
      ensures tasks == old(tasks)[id := old(tasks)[id].(status := Running)]
      ensures workers == old(workers)[id := old(workers)[id].(phase := Working, began := true)]
    {
      ReachesNext(workerCount, View(), MarkRunning(id));
      ghost var next := Next(View(), MarkRunning(id));
      var updated := PatchTask(id, (t: Info) => t.(status := Running));
      workers := workers[id := workers[id].(phase := Working, began := true)];
      assert View() == next;
    }

    method ReportProgress(id: Id, r: Report)
      requires Valid() && Enabled(View(), Progress(id, r.text, r.index, r.total, r.rowCompleted, r.rowTotal))
      modifies this`tasks
      ensures Valid()
      ensures tasks == old(tasks)[id := Reported(old(tasks)[id], r)]
    {
      ReachesNext(workerCount, View(), Progress(id, r.text, r.index, r.total, r.rowCompleted, r.rowTotal));
      ghost var next := Next(View(), Progress(id, r.text, r.index, r.total, r.rowCompleted, r.rowTotal));
      var updated := PatchTask(id, (t: Info) =>
        var reported := t.(progress := r.text, index := r.index, total := r.total, rowCompleted := r.rowCompleted,
          rowTotal := r.rowTotal);
        if reported.status == Pending then reported.(status := Running) else reported);
      assert View() == next;
    }

    method FinishWork(id: Id, outcome: Result<(), string>)
      requires Valid() && Enabled(View(), Finish(id, outcome))
      modifies this`workers
      ensures Valid()
      ensures workers == old(workers)[id := old(workers)[id].(phase := Worked, outcome := outcome)]
    {
      ReachesNext(workerCount, View(), Finish(id, outcome));
      ghost var next := Next(View(), Finish(id, outcome));
      workers := workers[id := workers[id].(phase := Worked, outcome := outcome)];
      assert View() == next;
    }

    method ReadFlag(id: Id)
      requires Valid() && Enabled(View(), LoadFlag(id))
      modifies this`workers
      ensures Valid()
      ensures workers == old(workers)[id := old(workers)[id].(phase := Loaded, sawCancel := cells[id])]
    {
      ReachesNext(workerCount, View(), LoadFlag(id));
      ghost var next := Next(View(), LoadFlag(id));
      var cancelled := cells[id];
      workers := workers[id := workers[id].(phase := Loaded, sawCancel := cancelled)];
      assert View() == next;
    }

    method PatchFinished(id: Id, w: Worker, now: int) returns (updated: Option<Info>)
      requires id in tasks
      modifies this`tasks
      ensures tasks == old(tasks)[id := FinishPatch(old(tasks)[id], w, now)] && updated == Some(tasks[id])
    {
      var finalStatus := if w.sawCancel then Cancelled
        else match w.outcome case Ok(_) => Completed case Err(_) => Failed;
      updated := PatchTask(id, (t: Info) =>
        if IsTerminal(t.status) then t
        else
          var stamped := t.(status := finalStatus, finishedAt := Some(now));
          match w.outcome case Ok(_) => stamped case Err(message) => stamped.(error := Some(message)));
    }

    method ApplyFinalStatus(id: Id, now: int)
      requires Valid() && Enabled(View(), FinalPatch(id, now))
      modifies this`tasks, this`workers, this`jobs
      ensures Valid()
      ensures tasks == old(tasks)[id := FinishPatch(old(tasks)[id], old(workers)[id], now)]
      ensures jobs == old(jobs) + [tasks[id]]
      ensures workers == old(workers)[id := old(workers)[id].(phase := Patched, patched := true)]
    {
      ReachesNext(workerCount, View(), FinalPatch(id, now));
      ghost var next := Next(View(), FinalPatch(id, now));
      var w := workers[id];
      var updated := PatchFinished(id, w, now);
      if updated.Some? {
        jobs := jobs + [updated.value];
      }
      workers := workers[id := w.(phase := Patched, patched := true)];
      assert View() == next;
    }

    method CleanUpFlag(id: Id)
      requires Valid() && Enabled(View(), DropFlag(id))
      modifies this`flags, this`workers
      ensures Valid()
      ensures flags == old(flags) - {id} && workers == old(workers)[id := old(workers)[id].(phase := Unflagged)]
    {
      ReachesNext(workerCount, View(), DropFlag(id));
      ghost var next := Next(View(), DropFlag(id));
      flags := flags - {id};
      workers := workers[id := workers[id].(phase := Unflagged)];
      assert View() == next;
    }

    method CleanUpHandle(id: Id)
      requires Valid() && Enabled(View(), DropHandle(id))
      modifies this`handles, this`workers
      ensures Valid()
      ensures handles == old(handles) - {id} && workers == old(workers)[id := old(workers)[id].(phase := Unhandled)]
    {
      ReachesNext(workerCount, View(), DropHandle(id));
      ghost var next := Next(View(), DropHandle(id));
      handles := handles - {id};
      workers := workers[id := workers[id].(phase := Unhandled)];
      assert View() == next;
    }

    method ReleasePermit(id: Id)
      requires Valid() && Enabled(View(), Release(id))
      modifies this`permits, this`workers
      ensures Valid()
      ensures permits == old(permits) + 1 && workers == old(workers)[id := old(workers)[id].(phase := Finished)]
    {
      ReachesNext(workerCount, View(), Release(id));
      ghost var next := Next(View(), Release(id));
      permits := permits + 1;
      workers := workers[id := workers[id].(phase := Finished)];
      assert View() == next;
    }

    // ---- an undisturbed worker -----------------------------------------------------------------------

    /** The worker gets its permit and marks the task Running, whatever its status was. */
    method StartWork(id: Id)
      requires Valid() && AtPhase(View(), id, Queued) && permits > 0
      modifies this`permits, this`tasks, this`workers
      ensures Valid() && permits == old(permits) - 1
      ensures id in old(tasks) && tasks == old(tasks)[id := old(tasks)[id].(status := Running)]
      ensures workers == old(workers)[id := old(workers)[id].(phase := Working, began := true)]
    {
      WorkerIsKnown(workerCount, View(), id);
      AcquirePermit(id);
      BeginWork(id);
    }

    /** The work reports its progress; a Running task stays Running and shows the last report. */
    method Work(id: Id, reports: seq<Report>)
      requires Valid() && AtPhase(View(), id, Working) && id in tasks && tasks[id].status.Running?
      modifies this`tasks
      ensures Valid() && id in tasks && tasks == old(tasks)[id := tasks[id]]
      ensures tasks[id].status.Running? && tasks[id].id == old(tasks)[id].id && tasks[id].error == old(tasks)[id].error
      ensures tasks[id].startedAt == old(tasks)[id].startedAt
      ensures if reports == [] then tasks[id] == old(tasks)[id] else Shows(tasks[id], reports[|reports| - 1])
    {
      WorkerIsKnown(workerCount, View(), id);
      for i := 0 to |reports|
        invariant Valid() && id in tasks && tasks == old(tasks)[id := tasks[id]]
        invariant tasks[id].status.Running? && tasks[id].id == old(tasks)[id].id
        invariant tasks[id].error == old(tasks)[id].error && tasks[id].startedAt == old(tasks)[id].startedAt
        invariant if i == 0 then tasks[id] == old(tasks)[id] else Shows(tasks[id], reports[i - 1])
      {
        var r := reports[i];
        ReportProgress(id, r);
      }
    }

    /** How the worker of a Running task ends it, given what its flag says. */
    function Ended(t: Info, cancelled: bool, outcome: Result<(), string>, now: int): Info {
      t.(status := if cancelled then Cancelled else if outcome.Ok? then Completed else Failed,
         finishedAt := Some(now),
         error := if outcome.Err? then Some(outcome.error) else t.error)
    }

    /** The work returns and the worker reads its flag. */
    method LeaveWork(id: Id, outcome: Result<(), string>)
      requires Valid() && AtPhase(View(), id, Working)
      modifies this`workers
      ensures Valid() && id in cells && id in tasks
      ensures workers == old(workers)[id := Worker(Loaded, old(workers)[id].began, old(workers)[id].patched, outcome,
                                                   cells[id])]
    {
      WorkerIsKnown(workerCount, View(), id);
      FinishWork(id, outcome);
      ReadFlag(id);
    }

    /** The worker reads its flag, and the flag and the outcome decide how the task ends. */
    method EndWork(id: Id, outcome: Result<(), string>, now: int)
      requires Valid() && AtPhase(View(), id, Working) && id in tasks && tasks[id].status.Running?
      modifies this`tasks, this`workers, this`jobs
      ensures Valid() && id in cells
      ensures tasks == old(tasks)[id := Ended(old(tasks)[id], cells[id], outcome, now)]
      ensures jobs == old(jobs) + [tasks[id]]
      ensures workers == old(workers)[id := Worker(Patched, old(workers)[id].began, true, outcome, cells[id])]
    {
      LeaveWork(id, outcome);
      ApplyFinalStatus(id, now);
    }

    /** The worker withdraws its flag and its handle and gives its permit back. */
    method CleanUp(id: Id)
      requires Valid() && AtPhase(View(), id, Patched)
      modifies this`permits, this`flags, this`handles, this`workers
      ensures Valid() && permits == old(permits) + 1
      ensures flags == old(flags) - {id} && handles == old(handles) - {id}
      ensures workers == old(workers)[id := old(workers)[id].(phase := Finished)]
    {
      CleanUpFlag(id);
      CleanUpHandle(id);
      ReleasePermit(id);
    }

    /**
     The body of a queued worker, undisturbed, with the reports and the outcome of its work: it ends
     Cancelled exactly when its flag was set, else as the work says, even if the task had been
     cancelled before; it hands over that snapshot, and leaves no permit, flag or handle behind.
     */
    method RunQueued(id: Id, reports: seq<Report>, outcome: Result<(), string>, now: int)
      requires Valid() && AtPhase(View(), id, Queued) && permits > 0
      modifies this`permits, this`tasks, this`flags, this`handles, this`workers, this`jobs
      ensures Valid() && permits == old(permits) && AtPhase(View(), id, Finished)
      ensures id in tasks && id in cells && tasks == old(tasks)[id := tasks[id]] && jobs == old(jobs) + [tasks[id]]
      ensures tasks[id].id == id && tasks[id].finishedAt == Some(now)
      ensures tasks[id].status == if cells[id] then Cancelled else if outcome.Ok? then Completed else Failed
      ensures id in old(tasks)
      ensures tasks[id].error == if outcome.Err? then Some(outcome.error) else old(tasks)[id].error
      ensures tasks[id].startedAt == old(tasks)[id].startedAt
      ensures if reports == [] then
                tasks[id] ==
                  old(tasks)[id].(status := tasks[id].status, finishedAt := Some(now), error := tasks[id].error)
              else Shows(tasks[id], reports[|reports| - 1])
      ensures flags == old(flags) - {id} && handles == old(handles) - {id}
    {
      WorkerIsKnown(workerCount, View(), id);
      StartWork(id);
      Work(id, reports);
      EndWork(id, outcome, now);
      CleanUp(id);
    }

    // ---- cancel -----------------------------------------------------------------------------------

    method StoreFlag(caller: nat, id: Id, persist: bool)
      requires Valid() && Enabled(View(), CancelStore(caller, id, persist))
      modifies this`cells, this`cancels
      ensures Valid()
      ensures cells == (if id in flags then old(cells)[id := true] else old(cells))
      ensures cancels == old(cancels)[caller := Canceller(id, persist, Stored)]
    {
      ReachesNext(workerCount, View(), CancelStore(caller, id, persist));
      ghost var next := Next(View(), CancelStore(caller, id, persist));
      if id in flags {
        cells := cells[id := true];
      }
      cancels := cancels[caller := Canceller(id, persist, Stored)];
      assert View() == next;
    }

    method AbortHandle(caller: nat, id: Id)
      requires Valid() && Enabled(View(), CancelAbort(caller, id))
      modifies this`handles, this`aborted, this`cancels
      ensures Valid()
      ensures handles == old(handles) - {id}
      ensures aborted == if id in old(handles) then old(aborted) + {id} else old(aborted)
      ensures cancels == old(cancels)[caller := old(cancels)[caller].(phase := Aborted)]
    {
      ReachesNext(workerCount, View(), CancelAbort(caller, id));
      ghost var next := Next(View(), CancelAbort(caller, id));
      if id in handles {
        handles := handles - {id};
        aborted := aborted + {id};
      } else {
        assert handles - {id} == handles;
      }
      cancels := cancels[caller := cancels[caller].(phase := Aborted)];
      assert View() == next;
    }

    method PatchActive(id: Id, now: int) returns (updated: Option<Info>)
      modifies this`tasks
      ensures id !in old(tasks) ==> updated == None && tasks == old(tasks)
      ensures id in old(tasks) ==>
                tasks == old(tasks)[id := CancelledPatch(old(tasks)[id], now)] && updated == Some(tasks[id])
    {
      updated := PatchTask(id, (t: Info) =>
        if t.status == Pending || t.status == Running then t.(status := Cancelled, finishedAt := Some(now)) else t);
    }

    /** `found` is false when `cancel` answers NotFound. */
    method PatchCancelled(caller: nat, id: Id, persist: bool, now: int) returns (found: bool)
      requires Valid() && Enabled(View(), CancelPatch(caller, id, persist, now))
      modifies this`tasks, this`cancels, this`jobs
      ensures Valid()
      ensures cancels == old(cancels)[caller := old(cancels)[caller].(phase := Answered)]
      ensures found <==> id in old(tasks)
      ensures found ==> tasks == old(tasks)[id := CancelledPatch(old(tasks)[id], now)]
      ensures found ==> id in tasks && jobs == if persist then old(jobs) + [tasks[id]] else old(jobs)
      ensures !found ==> tasks == old(tasks) && jobs == old(jobs)
    {
      ReachesNext(workerCount, View(), CancelPatch(caller, id, persist, now));
      ghost var next := Next(View(), CancelPatch(caller, id, persist, now));
      var updated := PatchActive(id, now);
      cancels := cancels[caller := cancels[caller].(phase := Answered)];
      found := updated.Some?;
      if found && persist {
        jobs := jobs + [updated.value];
      }
      assert View() == next;
    }

    /**
     `cancel`, undisturbed. An unknown task is not found and nothing of it changes. A known one is
     terminal afterwards: an active one Cancelled now, a terminal one as it was; its published flag
     is set, its handle taken away and aborted, and with a sink its snapshot is handed over.
     */
    method Cancel(caller: nat, id: Id, persist: bool, now: int) returns (found: bool)
      requires Valid() && caller !in cancels
      modifies this`tasks, this`cells, this`handles, this`aborted, this`cancels, this`jobs
      ensures Valid() && (found <==> id in old(tasks))
      ensures !found ==> tasks == old(tasks) && jobs == old(jobs)
      ensures found ==>
                && id in tasks && tasks == old(tasks)[id := tasks[id]] && IsTerminal(tasks[id].status)
                && (IsTerminal(old(tasks)[id].status) ==> tasks[id] == old(tasks)[id])
                && (!IsTerminal(old(tasks)[id].status) ==>
                      tasks[id] == old(tasks)[id].(status := Cancelled, finishedAt := Some(now)))
                && jobs == if persist then old(jobs) + [tasks[id]] else old(jobs)
      ensures cells == (if id in flags then old(cells)[id := true] else old(cells)) && handles == old(handles) - {id}
      ensures aborted == if id in old(handles) then old(aborted) + {id} else old(aborted)
    {
      StoreFlag(caller, id, persist);
      AbortHandle(caller, id);
      found := PatchCancelled(caller, id, persist, now);
    }

    /** An aborted future is dropped at one of its suspension points; a permit it holds goes back. */
    method DropAborted(id: Id)
      requires Valid() && Enabled(View(), Drop(id))
      modifies this`permits, this`workers
      ensures Valid()
      ensures permits == old(permits) + if Holding(old(workers)[id].phase) then 1 else 0
      ensures workers == old(workers)[id := old(workers)[id].(phase := Dropped)]
    {
      ReachesNext(workerCount, View(), Drop(id));
      ghost var next := Next(View(), Drop(id));
      if !workers[id].phase.Queued? {
        permits := permits + 1;
      }
      workers := workers[id := workers[id].(phase := Dropped)];
      assert View() == next;
    }

    /** A spawned task whose worker still waits for a permit never runs once it is cancelled. */
    method CancelQueued(caller: nat, id: Id, persist: bool, now: int)
      requires Valid() && caller !in cancels && AtPhase(View(), id, Queued) && id in handles
      modifies this`permits, this`tasks, this`cells, this`handles, this`aborted, this`workers, this`cancels, this`jobs
      ensures Valid() && permits == old(permits) && AtPhase(View(), id, Dropped) && !workers[id].began
      ensures id in tasks && tasks[id].status.Cancelled?
    {
      WorkerIsKnown(workerCount, View(), id);
      var found := Cancel(caller, id, persist, now);
      DropAborted(id);
    }

    // ---- history and summary --------------------------------------------------------------------------

    method PersistTerminal(k: nat)
      requires Valid() && Enabled(View(), Persist(k))
      modifies this`jobs, this`history
      ensures Valid()
      ensures jobs == old(jobs)[..k] + old(jobs)[k + 1..] && history == Upsert(old(history), old(jobs)[k])
    {
      ReachesNext(workerCount, View(), Persist(k));
      ghost var next := Next(View(), Persist(k));
      var t := jobs[k];
      jobs := jobs[..k] + jobs[k + 1..];
      if IsTerminal(t.status) {
        history := history[t.id := t];
      }
      assert View() == next;
    }

    /** All pending jobs, first come first served. */
    method PersistAll()
      requires Valid()
      modifies this`jobs, this`history
      ensures Valid() && jobs == [] && history == Written(old(history), old(jobs))
    {
      while jobs != []
        invariant Valid() && Written(history, jobs) == Written(old(history), old(jobs))
        decreases |jobs|
      {
        assert jobs[..0] + jobs[1..] == jobs[1..];
        PersistTerminal(0);
      }
    }

    method SpawnAndRun(id: Id, total: nat, started: int, reports: seq<Report>, outcome: Result<(), string>, now: int)
      requires Valid() && id !in tasks && id !in spawns && permits > 0
      modifies this
      ensures Valid() && permits == old(permits) && history == old(history)
      ensures id in tasks && tasks == old(tasks)[id := tasks[id]] && jobs == old(jobs) + [tasks[id]]
      ensures tasks[id].id == id && tasks[id].status == if outcome.Ok? then Completed else Failed
      ensures tasks[id].startedAt == started && tasks[id].finishedAt == Some(now)
      ensures reports == [] ==> tasks[id].total == total && tasks[id].index == 0 && tasks[id].progress == ""
      ensures tasks[id].error == if outcome.Err? then Some(outcome.error) else None
    {
      Spawn(id, total, started);
      RunQueued(id, reports, outcome, now);
    }

    /** The undisturbed life of a task: it ends as its work says, and so does its record. */
    method Submit(id: Id, total: nat, started: int, reports: seq<Report>, outcome: Result<(), string>, now: int)
      requires Valid() && id !in tasks && id !in spawns && permits > 0
      modifies this
      ensures Valid() && permits == old(permits)
      ensures id in tasks && tasks[id].status == if outcome.Ok? then Completed else Failed
      ensures tasks[id].error == if outcome.Err? then Some(outcome.error) else None
      ensures tasks[id].startedAt == started && tasks[id].finishedAt == Some(now)
      ensures reports == [] ==> tasks[id].total == total && tasks[id].index == 0 && tasks[id].progress == ""
      ensures id in history && history[id] == tasks[id] && jobs == []
      ensures forall other | other in old(tasks) :: other in tasks && tasks[other] == old(tasks)[other]
    {
      SpawnAndRun(id, total, started, reports, outcome, now);
      LastWins(history, old(jobs), tasks[id], []);
      assert jobs == old(jobs) + [tasks[id]] + [];
      PersistAll();
    }

    /** `summary`: active tasks are the Pending and Running ones, idle workers saturate at zero. */
    method Summary() returns (count: nat, active: nat, idle: nat)
      ensures count == workerCount
      ensures active == |set id | id in tasks && IsActive(tasks[id].status)|
      ensures idle + (if active < workerCount then active else workerCount) == workerCount
    {
      active := 0;
      var rest := tasks.Keys;
      ghost var counted: set<Id> := {};
      while rest != {}
        invariant rest <= tasks.Keys
        invariant counted == set id | id in tasks && id !in rest && IsActive(tasks[id].status)
        invariant active == |counted|
        decreases rest
      {
        var id :| id in rest;
        rest := rest - {id};
        if tasks[id].status == Pending || tasks[id].status == Running {
          active := active + 1;
          counted := counted + {id};
        }
      }
      assert counted == set id | id in tasks && IsActive(tasks[id].status);
      count := workerCount;
      idle := if workerCount < active then 0 else workerCount - active;
    }
  }
}
