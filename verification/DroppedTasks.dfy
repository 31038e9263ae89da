/** How tasks end whose worker was aborted and dropped on the way. */
module DroppedTasks {
  import opened Wrappers
  import opened TaskPool
  import opened TaskOutcome
  import opened TaskRecords

  /** Some cancel patched the task, and no Running patch came after the last one that did. */
  predicate CancelStands(acts: seq<Action>, id: Id) {
    acts != [] &&
    ((Last(acts).CancelPatch? && Last(acts).id == id && TaskInserted(Front(acts), id))
     || (Last(acts) != MarkRunning(id) && CancelStands(Front(acts), id)))
  }

  /** The status is terminal exactly after the final patch and while a cancel patch stands. */
  predicate EndInv(s: Pool, acts: seq<Action>, id: Id) {
    && (TaskInserted(acts, id) <==> id in s.tasks)
    && (id !in s.tasks ==> !CancelStands(acts, id))
    && (id in s.tasks ==> (IsTerminal(s.tasks[id].status) <==> PatchedAt(s, id) || CancelStands(acts, id)))
  }

  lemma CancelStandsAppended(acts: seq<Action>, a: Action, id: Id)
    ensures CancelStands(acts + [a], id) <==>
              (a.CancelPatch? && a.id == id && TaskInserted(acts, id))
              || (a != MarkRunning(id) && CancelStands(acts, id))
    ensures TaskInserted(acts + [a], id) <==> TaskInserted(acts, id) || (a.InsertTask? && a.id == id)
  {
    AppendedAction(acts, a, id);
  }

  lemma OwnEndStep(s: Pool, acts: seq<Action>, a: Action, id: Id)
    requires Enabled(s, a) && Sees(a, id) && TaskInv(s, id) && EndInv(s, acts, id)
    ensures EndInv(Next(s, a), acts + [a], id)
  {
    CancelStandsAppended(acts, a, id);
  }

  lemma EndStep(s: Pool, acts: seq<Action>, a: Action, id: Id)
    requires Enabled(s, a) && TaskInv(s, id) && EndInv(s, acts, id)
    ensures EndInv(Next(s, a), acts + [a], id)
  {
    if Sees(a, id) {
      OwnEndStep(s, acts, a, id);
    } else {
      CancelStandsAppended(acts, a, id);
      OthersUnchanged(s, a, id);
    }
  }

  lemma {:induction false} EndReachable(n: nat, acts: seq<Action>, id: Id)
    requires Legal(n, acts)
    ensures EndInv(After(n, acts), acts, id)
    decreases |acts|
  {
    if acts != [] {
      EndReachable(n, Front(acts), id);
      Reachable(n, Front(acts));
      assert TaskInv(After(n, Front(acts)), id);
      EndStep(After(n, Front(acts)), Front(acts), Last(acts), id);
      assert acts == Front(acts) + [Last(acts)];
    }
  }

  /**
   A task is terminal exactly if its worker has applied the final patch, or some cancel has patched
   it with no Running patch after the last such cancel.
   */
  lemma TerminalExactly(n: nat, acts: seq<Action>, id: Id)
    requires Legal(n, acts) && id in After(n, acts).tasks
    ensures IsTerminal(After(n, acts).tasks[id].status) <==> FinalPatched(acts, id) || CancelStands(acts, id)
  {
    EndReachable(n, acts, id);
    HistoryReachable(n, acts, id);
  }

  // ---- dropped workers ---------------------------------------------------------------------------

  lemma DroppedStep(s: Pool, a: Action, id: Id)
    requires Enabled(s, a) && TaskInv(s, id) && AtPhase(s, id, Dropped)
    requires !(a.CancelPatch? && a.id == id)
    ensures AtPhase(Next(s, a), id, Dropped) && Next(s, a).workers[id] == s.workers[id]
    ensures id in s.tasks && id in Next(s, a).tasks && VerdictOf(Next(s, a).tasks[id]) == VerdictOf(s.tasks[id])
  {
    if !Sees(a, id) {
      OthersUnchanged(s, a, id);
    }
  }

  /** A dropped worker never comes back, and only a further cancel changes how its task stands. */
  lemma {:induction false} DroppedStays(n: nat, acts: seq<Action>, k: nat, id: Id)
    requires Legal(n, acts) && k <= |acts| && Legal(n, acts[..k])
    requires AtPhase(After(n, acts[..k]), id, Dropped)
    requires forall a | a in acts[k..] :: !(a.CancelPatch? && a.id == id)
    ensures AtPhase(After(n, acts), id, Dropped)
    ensures id in After(n, acts[..k]).tasks && id in After(n, acts).tasks
    ensures VerdictOf(After(n, acts).tasks[id]) == VerdictOf(After(n, acts[..k]).tasks[id])
    decreases |acts|
  {
    Reachable(n, acts[..k]);
    assert TaskInv(After(n, acts[..k]), id);
    if k < |acts| {
      assert Front(acts)[..k] == acts[..k];
      assert Front(acts)[k..] <= acts[k..];
      DroppedStays(n, Front(acts), k, id);
      Reachable(n, Front(acts));
      assert TaskInv(After(n, Front(acts)), id);
      assert Last(acts) == acts[k..][|acts| - 1 - k];
      DroppedStep(After(n, Front(acts)), Last(acts), id);
    } else {
      assert acts[..k] == acts;
    }
  }

  /**
   A task whose worker was dropped before its final patch is terminal, for ever if no other cancel
   comes, exactly if some cancel has patched it with no Running patch after the last such cancel.
   */
  lemma DroppedIsTerminalExactly(n: nat, acts: seq<Action>, k: nat, id: Id)
    requires Legal(n, acts) && k <= |acts| && Legal(n, acts[..k])
    requires AtPhase(After(n, acts[..k]), id, Dropped) && !FinalPatched(acts[..k], id)
    requires forall a | a in acts[k..] :: !(a.CancelPatch? && a.id == id)
    ensures id in After(n, acts).tasks
    ensures IsTerminal(After(n, acts).tasks[id].status) <==> CancelStands(acts[..k], id)
  {
    DroppedStays(n, acts, k, id);
    TerminalExactly(n, acts[..k], id);
  }

  // ---- a task that stays Running ---------------------------------------------------------------------

  /** A worker that has its permit, before its Running patch. */
  lemma ReadyWorker() returns (s: Pool)
    ensures Reaches(1, s) && 0 in s.tasks && s.tasks[0].status.Pending? && s.tasks[0].id == 0
    ensures s.workers == map[0 := Worker(Acquired, false, false, Ok(()), false)] && s.permits == 0
    ensures s.handles == {0} && s.flags == {0} && s.cancels == map[] && s.jobs == [] && s.history == map[]
  {
    ReachesInit(1);
    s := Init(1);
    ReachesNext(1, s, InsertTask(0, 1, 10));
    s := Next(s, InsertTask(0, 1, 10));
    ReachesNext(1, s, InsertFlag(0));
    s := Next(s, InsertFlag(0));
    ReachesNext(1, s, StartWorker(0));
    s := Next(s, StartWorker(0));
    ReachesNext(1, s, InsertHandle(0));
    s := Next(s, InsertHandle(0));
    ReachesNext(1, s, Acquire(0));
    s := Next(s, Acquire(0));
  }

  /** A whole cancel comes before the Running patch. */
  lemma CancelledBeforeRunning() returns (s: Pool)
    ensures Reaches(1, s) && 0 in s.tasks && s.tasks[0].status.Cancelled? && s.tasks[0].id == 0
    ensures s.workers == map[0 := Worker(Acquired, false, false, Ok(()), false)] && s.permits == 0
    ensures 0 in s.aborted && s.cancels == map[7 := Canceller(0, true, Answered)]
    ensures s.jobs == [s.tasks[0]] && s.history == map[]
  {
    s := ReadyWorker();
    ReachesNext(1, s, CancelStore(7, 0, true));
    s := Next(s, CancelStore(7, 0, true));
    ReachesNext(1, s, CancelAbort(7, 0));
    s := Next(s, CancelAbort(7, 0));
    ReachesNext(1, s, CancelPatch(7, 0, true, 11));
    s := Next(s, CancelPatch(7, 0, true, 11));
  }

  /**
   The Running patch undoes the cancel, and the aborted worker is dropped at its next suspension: the
   cancel is answered and its record written, the worker is gone, and the task is Running for good.
   */
  lemma StuckRunning() returns (s: Pool)
    ensures Reaches(1, s) && AtPhase(s, 0, Dropped) && 0 in s.tasks && s.tasks[0].status.Running?
    ensures s.cancels == map[7 := Canceller(0, true, Answered)] && s.permits == 1 && s.jobs == []
    ensures 0 in s.history && s.history[0].status.Cancelled?
  {
    s := CancelledBeforeRunning();
    ReachesNext(1, s, MarkRunning(0));
    s := Next(s, MarkRunning(0));
    ReachesNext(1, s, Drop(0));
    s := Next(s, Drop(0));
    ReachesNext(1, s, Persist(0));
    s := Next(s, Persist(0));
  }
}
