/** What the history table says about a task, given that snapshots are written by detached jobs. */
module TaskRecords {
  import opened Wrappers
  import opened TaskPool
  import opened TaskOutcome

  /** `a` hands a snapshot of task `id` to a detached persist job, provided the task exists. */
  predicate Hands(a: Action, id: Id) {
    (a.FinalPatch? && a.id == id) || (a.CancelPatch? && a.persist && a.id == id)
  }

  /** Without another Running patch, a terminal task keeps its verdict. */
  lemma {:induction false} TerminalStays(n: nat, acts: seq<Action>, k: nat, id: Id)
    requires Legal(n, acts) && k <= |acts| && Legal(n, acts[..k])
    requires id in After(n, acts[..k]).tasks && IsTerminal(After(n, acts[..k]).tasks[id].status)
    requires MarkRunning(id) !in acts[k..]
    ensures id in After(n, acts).tasks
    ensures VerdictOf(After(n, acts).tasks[id]) == VerdictOf(After(n, acts[..k]).tasks[id])
    decreases |acts|
  {
    if k < |acts| {
      assert Front(acts)[..k] == acts[..k];
      assert Front(acts)[k..] == acts[k..][..|acts| - 1 - k];
      TerminalStays(n, Front(acts), k, id);
      assert Last(acts) == acts[k..][|acts| - 1 - k];
      TerminalExits(n, Front(acts), Last(acts), id);
    } else {
      assert acts[..k] == acts;
    }
  }

  lemma VerdictStays(n: nat, first: seq<Action>, more: seq<Action>, id: Id)
    requires Legal(n, first) && Legal(n, first + more) && MarkRunning(id) !in more
    requires id in After(n, first).tasks && IsTerminal(After(n, first).tasks[id].status)
    ensures id in After(n, first + more).tasks
    ensures VerdictOf(After(n, first + more).tasks[id]) == VerdictOf(After(n, first).tasks[id])
  {
    assert (first + more)[..|first|] == first && (first + more)[|first|..] == more;
    TerminalStays(n, first + more, |first|, id);
  }

  /** Handing over a snapshot leaves the task terminal. */
  lemma HandedIsTerminal(n: nat, acts: seq<Action>, id: Id)
    requires Legal(n, acts) && acts != [] && Hands(Last(acts), id)
    requires id in After(n, acts).tasks
    ensures IsTerminal(After(n, acts).tasks[id].status)
    ensures After(n, acts).jobs == After(n, Front(acts)).jobs + [After(n, acts).tasks[id]]
  {
    Reachable(n, Front(acts));
    assert TaskInv(After(n, Front(acts)), id);
  }

  /**
   Two snapshots handed over with no Running patch after the first are terminal and agree on
   status, finish time and error.
   */
  lemma SnapshotsAgree(n: nat, acts: seq<Action>, j: nat, k: nat, id: Id)
    requires Legal(n, acts) && j <= k < |acts|
    requires Legal(n, acts[..j + 1]) && Legal(n, acts[..k + 1])
    requires Hands(acts[j], id) && Hands(acts[k], id)
    requires id in After(n, acts[..j + 1]).tasks
    requires MarkRunning(id) !in acts[j + 1..]
    ensures id in After(n, acts[..k + 1]).tasks
    ensures var first := After(n, acts[..j + 1]).tasks[id];
            var second := After(n, acts[..k + 1]).tasks[id];
            IsTerminal(first.status) && VerdictOf(first) == VerdictOf(second)
  {
    var first, more := acts[..j + 1], acts[j + 1..k + 1];
    HandedIsTerminal(n, first, id);
    assert acts[..k + 1] == first + more;
    assert forall a | a in more :: a in acts[j + 1..];
    VerdictStays(n, first, more, id);
  }

  predicate TaskInserted(acts: seq<Action>, id: Id) {
    exists a :: a in acts && a.InsertTask? && a.id == id
  }

  predicate Handed(acts: seq<Action>, id: Id) {
    acts != [] &&
    (Handed(Front(acts), id) || (Hands(Last(acts), id) && TaskInserted(Front(acts), id)))
  }

  /** Some cancel handed a snapshot to the history before the worker's Running patch. */
  predicate EarlyPersist(acts: seq<Action>, id: Id) {
    acts != [] &&
    (EarlyPersist(Front(acts), id) || (Last(acts) == MarkRunning(id) && Handed(Front(acts), id)))
  }

  /** The snapshot `t` says about its task what the task map says. */
  predicate Agrees(s: Pool, t: Info) {
    t.id in s.tasks && IsTerminal(t.status) && VerdictOf(t) == VerdictOf(s.tasks[t.id])
  }

  ghost predicate RecordInv(s: Pool, acts: seq<Action>, id: Id) {
    && (TaskInserted(acts, id) <==> id in s.tasks)
    && (id in s.history ==> s.history[id].id == id)
    && (!Handed(acts, id) ==> id !in s.history && forall k | 0 <= k < |s.jobs| :: s.jobs[k].id != id)
    && (!EarlyPersist(acts, id) ==>
          && (id in s.history ==> Agrees(s, s.history[id]))
          && (forall k | 0 <= k < |s.jobs| && s.jobs[k].id == id :: Agrees(s, s.jobs[k])))
  }

  /** What one action does to the pending snapshots, the history and task `id`. */
  predicate JobsChange(s: Pool, a: Action, t: Pool, id: Id) {
    && (a.Persist? ==>
          a.job < |s.jobs| && t.tasks == s.tasks && t.jobs == s.jobs[..a.job] + s.jobs[a.job + 1..]
          && t.history == Upsert(s.history, s.jobs[a.job]))
    && (!a.Persist? ==> t.history == s.history)
    && (!a.Persist? && Hands(a, a.id) && a.id in t.tasks ==>
          t.jobs == s.jobs + [t.tasks[a.id]] && t.tasks[a.id].id == a.id && IsTerminal(t.tasks[a.id].status))
    && (!a.Persist? && !(Hands(a, a.id) && a.id in t.tasks) ==> t.jobs == s.jobs)
    && (id in t.tasks <==> id in s.tasks || (a.InsertTask? && a.id == id))
    && (id in s.tasks && IsTerminal(s.tasks[id].status) && a != MarkRunning(id) ==>
          VerdictOf(t.tasks[id]) == VerdictOf(s.tasks[id]))
  }

  lemma OtherJobsStep(s: Pool, a: Action, id: Id)
    requires Enabled(s, a) && !Sees(a, id) && TaskInv(s, id) && (!a.Persist? ==> TaskInv(s, a.id))
    ensures JobsChange(s, a, Next(s, a), id)
  {
    OthersUnchanged(s, a, id);
  }

  lemma OwnJobsStep(s: Pool, a: Action, id: Id)
    requires Enabled(s, a) && Sees(a, id) && TaskInv(s, id)
    ensures JobsChange(s, a, Next(s, a), id)
  {
  }

  lemma JobsStep(s: Pool, a: Action, id: Id)
    requires Enabled(s, a) && TaskInv(s, id) && (!a.Persist? ==> TaskInv(s, a.id))
    ensures JobsChange(s, a, Next(s, a), id)
  {
    if Sees(a, id) {
      OwnJobsStep(s, a, id);
    } else {
      OtherJobsStep(s, a, id);
    }
  }

  lemma RecordStep(s: Pool, acts: seq<Action>, a: Action, t: Pool, id: Id)
    requires JobsChange(s, a, t, id) && RecordInv(s, acts, id)
    requires a.InsertTask? && a.id == id ==> id !in s.tasks
    ensures RecordInv(t, acts + [a], id)
  {
    var more := acts + [a];
    AppendedAction(acts, a, id);
    assert TaskInserted(more, id) <==> TaskInserted(acts, id) || (a.InsertTask? && a.id == id);
    assert Handed(more, id) <==> Handed(acts, id) || (Hands(a, id) && id in s.tasks);
    assert EarlyPersist(more, id) <==> EarlyPersist(acts, id) || (a == MarkRunning(id) && Handed(acts, id));
    if a.Persist? {
      assert forall k | 0 <= k < |t.jobs| :: t.jobs[k] in s.jobs;
    }
  }

  lemma {:induction false} RecordReachable(n: nat, acts: seq<Action>, id: Id)
    requires Legal(n, acts)
    ensures RecordInv(After(n, acts), acts, id)
    decreases |acts|
  {
    if acts != [] {
      RecordReachable(n, Front(acts), id);
      Reachable(n, Front(acts));
      var s, a := After(n, Front(acts)), Last(acts);
      assert TaskInv(s, id) && (!a.Persist? ==> TaskInv(s, a.id));
      JobsStep(s, a, id);
      RecordStep(s, Front(acts), a, Next(s, a), id);
      assert acts == Front(acts) + [Last(acts)];
    }
  }

  /** A snapshot that was handed over is still pending or has left a record; pending ones are terminal. */
  predicate KeptInv(s: Pool, acts: seq<Action>, id: Id) {
    && (forall k | 0 <= k < |s.jobs| :: IsTerminal(s.jobs[k].status))
    && (Handed(acts, id) ==> id in s.history || exists k | 0 <= k < |s.jobs| :: s.jobs[k].id == id)
    && (TaskInserted(acts, id) <==> id in s.tasks)
  }

  lemma PersistKeeps(s: Pool, acts: seq<Action>, job: nat, t: Pool, id: Id)
    requires JobsChange(s, Persist(job), t, id) && KeptInv(s, acts, id) && Handed(acts, id)
    ensures id in t.history || exists k | 0 <= k < |t.jobs| :: t.jobs[k].id == id
  {
    if id !in s.history {
      var k :| 0 <= k < |s.jobs| && s.jobs[k].id == id;
      if k < job {
        assert t.jobs[k] == s.jobs[k];
      } else if k > job {
        assert t.jobs[k - 1] == s.jobs[k];
      }
    }
  }

  lemma KeptStep(s: Pool, acts: seq<Action>, a: Action, t: Pool, id: Id)
    requires JobsChange(s, a, t, id) && KeptInv(s, acts, id)
    ensures KeptInv(t, acts + [a], id)
  {
    AppendedAction(acts, a, id);
    assert TaskInserted(acts + [a], id) <==> TaskInserted(acts, id) || (a.InsertTask? && a.id == id);
    assert Handed(acts + [a], id) <==> Handed(acts, id) || (Hands(a, id) && TaskInserted(acts, id));
    if a.Persist? {
      assert forall k | 0 <= k < |t.jobs| :: t.jobs[k] in s.jobs;
      if Handed(acts, id) {
        PersistKeeps(s, acts, a.job, t, id);
      }
    } else {
      assert forall k | 0 <= k < |s.jobs| :: t.jobs[k] == s.jobs[k];
      if Hands(a, id) && TaskInserted(acts, id) {
        assert t.jobs[|s.jobs|].id == id;
      }
    }
  }

  lemma JobsReachable(n: nat, acts: seq<Action>, a: Action, id: Id)
    requires Legal(n, acts) && Enabled(After(n, acts), a)
    ensures JobsChange(After(n, acts), a, Next(After(n, acts), a), id)
  {
    Reachable(n, acts);
    assert TaskInv(After(n, acts), id) && (!a.Persist? ==> TaskInv(After(n, acts), a.id));
    JobsStep(After(n, acts), a, id);
  }

  lemma KeptAppended(n: nat, acts: seq<Action>, a: Action, id: Id)
    requires Legal(n, acts) && Enabled(After(n, acts), a) && KeptInv(After(n, acts), acts, id)
    ensures Legal(n, acts + [a]) && KeptInv(After(n, acts + [a]), acts + [a], id)
  {
    Extended(n, acts, a);
    JobsReachable(n, acts, a, id);
    KeptStep(After(n, acts), acts, a, After(n, acts + [a]), id);
  }

  lemma {:induction false} KeptReachable(n: nat, acts: seq<Action>, id: Id)
    requires Legal(n, acts)
    ensures KeptInv(After(n, acts), acts, id)
    decreases |acts|
  {
    if acts != [] {
      KeptReachable(n, Front(acts), id);
      KeptAppended(n, Front(acts), Last(acts), id);
      assert acts == Front(acts) + [Last(acts)];
    }
  }

  predicate RecordAgrees(s: Pool, id: Id) {
    id in s.history ==> Agrees(s, s.history[id])
  }

  predicate AllPersist(acts: seq<Action>) {
    forall a | a in acts :: a.Persist?
  }

  /** The record of `id` agrees with its task at every moment of the run, and however pending jobs are written then. */
  ghost predicate Truthful(n: nat, acts: seq<Action>, id: Id) {
    forall k: nat, more: seq<Action> | k <= |acts| && AllPersist(more) && Legal(n, acts[..k] + more) ::
      RecordAgrees(After(n, acts[..k] + more), id)
  }

  lemma {:induction false} EarlyAt(acts: seq<Action>, id: Id) returns (k: nat)
    requires EarlyPersist(acts, id)
    ensures k < |acts| && acts[k] == MarkRunning(id) && Handed(acts[..k], id)
    decreases |acts|
  {
    if EarlyPersist(Front(acts), id) {
      k := EarlyAt(Front(acts), id);
      assert Front(acts)[..k] == acts[..k];
    } else {
      k := |acts| - 1;
    }
  }

  lemma {:induction false} EarlyInPrefix(acts: seq<Action>, k: nat, id: Id)
    requires k <= |acts| && EarlyPersist(acts[..k], id)
    ensures EarlyPersist(acts, id)
    decreases |acts|
  {
    if k == |acts| {
      assert acts[..k] == acts;
    } else {
      assert Front(acts)[..k] == acts[..k];
      EarlyInPrefix(Front(acts), k, id);
    }
  }

  lemma {:induction false} PersistsAreNotEarly(acts: seq<Action>, more: seq<Action>, id: Id)
    requires AllPersist(more) && EarlyPersist(acts + more, id)
    ensures EarlyPersist(acts, id)
    decreases |more|
  {
    if more == [] {
      assert acts + more == acts;
    } else {
      assert Front(acts + more) == acts + Front(more) && Last(acts + more) == Last(more);
      assert Last(more) in more;
      assert forall a | a in Front(more) :: a in more;
      PersistsAreNotEarly(acts, Front(more), id);
    }
  }

  /** Just after the Running patch that makes a snapshot stale, some order of the pending jobs shows it. */
  lemma EarlyPersistShows(n: nat, acts: seq<Action>, id: Id) returns (k: nat, more: seq<Action>)
    requires Legal(n, acts) && EarlyPersist(acts, id)
    ensures k <= |acts| && AllPersist(more) && Legal(n, acts[..k] + more)
    ensures !RecordAgrees(After(n, acts[..k] + more), id)
  {
    var j := EarlyAt(acts, id);
    k := j + 1;
    var run := acts[..k];
    assert Front(run) == acts[..j] && Last(run) == MarkRunning(id);
    LegalPrefix(n, acts, k);
    KeptReachable(n, run, id);
    RecordReachable(n, run, id);
    var s := After(n, run);
    assert id in s.tasks && s.tasks[id].status.Running?;
    if id in s.history {
      more := [];
      assert run + more == run;
    } else {
      var i :| 0 <= i < |s.jobs| && s.jobs[i].id == id;
      more := [Persist(i)];
      Extended(n, run, Persist(i));
    }
  }

  /**
   The record of a task agrees with it at every moment of a run, in every order in which the pending
   jobs can be written then, exactly when no snapshot was handed over before the Running patch.
   */
  lemma TruthfulExactlyWhenNotEarly(n: nat, acts: seq<Action>, id: Id)
    requires Legal(n, acts)
    ensures Truthful(n, acts, id) <==> !EarlyPersist(acts, id)
  {
    if EarlyPersist(acts, id) {
      var k, more := EarlyPersistShows(n, acts, id);
    } else {
      forall k: nat, more: seq<Action> | k <= |acts| && AllPersist(more) && Legal(n, acts[..k] + more)
        ensures RecordAgrees(After(n, acts[..k] + more), id)
      {
        if EarlyPersist(acts[..k] + more, id) {
          PersistsAreNotEarly(acts[..k], more, id);
          EarlyInPrefix(acts, k, id);
        }
        RecordReachable(n, acts[..k] + more, id);
      }
    }
  }

  ghost predicate Reaches(n: nat, s: Pool) {
    exists acts :: Legal(n, acts) && After(n, acts) == s
  }

  lemma ReachesInit(n: nat)
    ensures Reaches(n, Init(n))
  {
    assert Legal(n, []) && After(n, []) == Init(n);
  }

  lemma ReachesNext(n: nat, s: Pool, a: Action)
    requires Reaches(n, s) && Enabled(s, a)
    ensures Reaches(n, Next(s, a))
  {
    var acts :| Legal(n, acts) && After(n, acts) == s;
    Extended(n, acts, a);
  }

  /** A cancel that finds neither flag nor handle: its flag store and its abort are lost. */
  lemma LostCancel() returns (s: Pool)
    ensures Reaches(1, s) && s.permits == 1 && 0 in s.tasks && s.tasks[0].status.Cancelled?
    ensures s.cells == map[] && s.spawns == map[0 := Inserted] && s.workers == map[] && s.history == map[]
    ensures s.jobs == [s.tasks[0]] && s.tasks[0].id == 0
  {
    ReachesInit(1);
    s := Init(1);
    ReachesNext(1, s, InsertTask(0, 1, 10));
    s := Next(s, InsertTask(0, 1, 10));
    ReachesNext(1, s, CancelStore(7, 0, true));
    s := Next(s, CancelStore(7, 0, true));
    ReachesNext(1, s, CancelAbort(7, 0));
    s := Next(s, CancelAbort(7, 0));
    ReachesNext(1, s, CancelPatch(7, 0, true, 11));
    s := Next(s, CancelPatch(7, 0, true, 11));
  }

  /** The spawn goes on: flag and worker appear, and the worker gets its permit. */
  lemma LateWorker() returns (s: Pool)
    ensures Reaches(1, s) && 0 in s.tasks && s.tasks[0].status.Cancelled? && s.tasks[0].id == 0
    ensures s.cells == map[0 := false] && s.workers == map[0 := Worker(Acquired, false, false, Ok(()), false)]
    ensures s.jobs == [s.tasks[0]] && s.history == map[]
  {
    s := LostCancel();
    ReachesNext(1, s, InsertFlag(0));
    s := Next(s, InsertFlag(0));
    ReachesNext(1, s, StartWorker(0));
    s := Next(s, StartWorker(0));
    ReachesNext(1, s, Acquire(0));
    s := Next(s, Acquire(0));
  }

  /** The worker then marks the cancelled task Running. */
  lemma RevivedTask() returns (s: Pool, stale: Info)
    ensures Reaches(1, s) && 0 in s.tasks && s.tasks[0].status.Running? && s.tasks[0].id == 0
    ensures s.cells == map[0 := false] && s.workers == map[0 := Worker(Working, true, false, Ok(()), false)]
    ensures s.jobs == [stale] && stale.status.Cancelled? && stale.id == 0 && s.history == map[]
  {
    s := LateWorker();
    stale := s.tasks[0];
    ReachesNext(1, s, MarkRunning(0));
    s := Next(s, MarkRunning(0));
  }

  /** Its work succeeds, and the flag it reads was never stored into. */
  lemma MissedCancel() returns (s: Pool, stale: Info)
    ensures Reaches(1, s) && 0 in s.tasks && s.tasks[0].status.Running? && s.tasks[0].id == 0
    ensures 0 in s.workers && s.workers[0] == Worker(Loaded, true, false, Ok(()), false)
    ensures s.jobs == [stale] && stale.status.Cancelled? && stale.id == 0 && s.history == map[]
  {
    s, stale := RevivedTask();
    ReachesNext(1, s, Finish(0, Ok(())));
    s := Next(s, Finish(0, Ok(())));
    ReachesNext(1, s, LoadFlag(0));
    s := Next(s, LoadFlag(0));
  }

  /** So it completes the task and hands over a second snapshot. */
  lemma CompletedTask() returns (s: Pool, stale: Info, newer: Info)
    ensures Reaches(1, s) && 0 in s.tasks && s.tasks[0].status.Completed?
    ensures s.jobs == [stale, newer] && stale.id == 0 && stale.status.Cancelled?
    ensures newer.id == 0 && newer.status.Completed? && s.history == map[]
  {
    s, stale := MissedCancel();
    ReachesNext(1, s, FinalPatch(0, 12));
    s := Next(s, FinalPatch(0, 12));
    newer := s.tasks[0];
  }

  /**
   With an early persisted cancel the record can be wrong for good: the cancel is lost, the worker
   completes the task, and the older snapshot is written last.
   */
  lemma StaleRecord()
    ensures exists s ::
              Reaches(1, s) && s.jobs == []
              && 0 in s.tasks && s.tasks[0].status.Completed? && 0 in s.history && s.history[0].status.Cancelled?
  {
    var s, stale, newer := CompletedTask();
    ReachesNext(1, s, Persist(1));
    var s1 := Next(s, Persist(1));
    assert s1.jobs == [stale];
    ReachesNext(1, s1, Persist(0));
    var s2 := Next(s1, Persist(0));
    assert s2.jobs == [];
  }

  /** `order` runs all pending persist jobs of `s`, each given by its position among those left. */
  predicate DrainOrder(s: Pool, order: seq<nat>)
    decreases |order|
  {
    if order == [] then s.jobs == []
    else order[0] < |s.jobs| && DrainOrder(Next(s, Persist(order[0])), order[1..])
  }

  function Drained(s: Pool, order: seq<nat>): Pool
    requires DrainOrder(s, order)
    decreases |order|
  {
    if order == [] then s else Drained(Next(s, Persist(order[0])), order[1..])
  }

  lemma DrainOne(s: Pool, first: nat, rest: seq<nat>)
    requires first < |s.jobs| && DrainOrder(Next(s, Persist(first)), rest)
    ensures DrainOrder(s, [first] + rest)
    ensures Drained(s, [first] + rest) == Drained(Next(s, Persist(first)), rest)
  {
  }

  /** Any pending job can be the one that is written last. */
  lemma {:induction false} AnyJobCanBeLast(s: Pool, k: nat) returns (order: seq<nat>)
    requires k < |s.jobs| && IsTerminal(s.jobs[k].status)
    ensures DrainOrder(s, order)
    ensures s.jobs[k].id in Drained(s, order).history
    ensures Drained(s, order).history[s.jobs[k].id] == s.jobs[k]
    ensures Drained(s, order).tasks == s.tasks
    decreases |s.jobs|
  {
    if |s.jobs| == 1 {
      order := [];
      DrainOne(s, 0, order);
      order := [0];
    } else {
      var first := if k == 0 then 1 else 0;
      order := AnyJobCanBeLast(Next(s, Persist(first)), if k == 0 then 0 else k - 1);
      DrainOne(s, first, order);
      order := [first] + order;
    }
  }

  lemma {:induction false} AgreeingJobsDrain(s: Pool, order: seq<nat>, id: Id)
    requires DrainOrder(s, order)
    requires forall k | 0 <= k < |s.jobs| && s.jobs[k].id == id :: Agrees(s, s.jobs[k])
    requires id in s.history ==> s.history[id].id == id && Agrees(s, s.history[id])
    ensures Drained(s, order).tasks == s.tasks
    ensures id in Drained(s, order).history ==>
              Drained(s, order).history[id].id == id && Agrees(s, Drained(s, order).history[id])
    decreases |order|
  {
    if order != [] {
      var t := Next(s, Persist(order[0]));
      assert forall k | 0 <= k < |t.jobs| :: t.jobs[k] in s.jobs;
      AgreeingJobsDrain(t, order[1..], id);
    }
  }

  /**
   From a state whose record agrees, every order of the pending persist jobs ends in agreement
   exactly when every pending snapshot of the task agrees with it.
   */
  lemma EveryOrderAgrees(s: Pool, id: Id)
    requires forall k | 0 <= k < |s.jobs| :: IsTerminal(s.jobs[k].status)
    requires id in s.history ==> s.history[id].id == id && Agrees(s, s.history[id])
    ensures (forall order | DrainOrder(s, order) && id in Drained(s, order).history ::
               Agrees(s, Drained(s, order).history[id]))
            <==> (forall k | 0 <= k < |s.jobs| && s.jobs[k].id == id :: Agrees(s, s.jobs[k]))
  {
    if forall k | 0 <= k < |s.jobs| && s.jobs[k].id == id :: Agrees(s, s.jobs[k]) {
      forall order | DrainOrder(s, order) && id in Drained(s, order).history
        ensures Agrees(s, Drained(s, order).history[id])
      {
        AgreeingJobsDrain(s, order, id);
      }
    } else {
      var k :| 0 <= k < |s.jobs| && s.jobs[k].id == id && !Agrees(s, s.jobs[k]);
      var order := AnyJobCanBeLast(s, k);
    }
  }
}
