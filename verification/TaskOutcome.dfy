/** What decides how a task ends: which cancels came in time, over whole runs. */
module TaskOutcome {
  import opened Wrappers
  import opened TaskPool

  predicate FinalPatched(acts: seq<Action>, id: Id) {
    exists a :: a in acts && a.FinalPatch? && a.id == id
  }

  /** Some cancel stored into the published flag before the worker read it. */
  predicate CancelSeen(acts: seq<Action>, id: Id) {
    acts != [] &&
    (CancelSeen(Front(acts), id)
     || (Last(acts).CancelStore? && Last(acts).id == id
         && InsertFlag(id) in Front(acts) && LoadFlag(id) !in Front(acts)))
  }

  /** Some cancel patched the task between its Running patch and its final patch. */
  predicate CancelledWhileRunning(acts: seq<Action>, id: Id) {
    acts != [] &&
    (CancelledWhileRunning(Front(acts), id)
     || (Last(acts).CancelPatch? && Last(acts).id == id
         && MarkRunning(id) in Front(acts) && !FinalPatched(Front(acts), id)))
  }

  predicate Began(s: Pool, id: Id) {
    id in s.workers && s.workers[id].began
  }

  predicate PatchedAt(s: Pool, id: Id) {
    id in s.workers && s.workers[id].patched
  }

  predicate BeforeLoad(p: Phase) {
    p.Queued? || p.Acquired? || p.Working? || p.Worked?
  }

  /** The state remembers which of the task's own actions have happened. */
  predicate EventsInv(s: Pool, acts: seq<Action>, id: Id) {
    && (MarkRunning(id) in acts <==> Began(s, id))
    && (InsertFlag(id) in acts <==> id in s.cells)
    && (FinalPatched(acts, id) <==> PatchedAt(s, id))
    && (LoadFlag(id) in acts ==> Began(s, id))
    && (id in s.workers && (s.workers[id].phase.Loaded? || s.workers[id].patched) ==> LoadFlag(id) in acts)
    && (id in s.workers && BeforeLoad(s.workers[id].phase) ==> LoadFlag(id) !in acts)
  }

  /** The flag, and after the load the worker's copy of it, says whether a store came in time. */
  predicate FlagInv(s: Pool, acts: seq<Action>, id: Id) {
    && (id in s.cells && LoadFlag(id) !in acts ==> (s.cells[id] <==> CancelSeen(acts, id)))
    && (id !in s.cells ==> !CancelSeen(acts, id))
    && (id in s.workers && LoadFlag(id) in acts ==> (s.workers[id].sawCancel <==> CancelSeen(acts, id)))
  }

  /** The status says which cancel patch or final patch came first. */
  predicate OutcomeInv(s: Pool, acts: seq<Action>, id: Id) {
    && (!Began(s, id) ==> !CancelledWhileRunning(acts, id))
    && (Began(s, id) && !PatchedAt(s, id) && id in s.tasks ==>
          (s.tasks[id].status.Cancelled? <==> CancelledWhileRunning(acts, id)))
    && (PatchedAt(s, id) && id in s.tasks ==> s.tasks[id].status == Decision(acts, id, s.workers[id].outcome))
  }

  predicate HistoryInv(s: Pool, acts: seq<Action>, id: Id) {
    EventsInv(s, acts, id) && FlagInv(s, acts, id) && OutcomeInv(s, acts, id)
  }

  function Decision(acts: seq<Action>, id: Id, outcome: Result<(), string>): Status {
    if CancelSeen(acts, id) || CancelledWhileRunning(acts, id) then Cancelled
    else if outcome.Ok? then Completed
    else Failed
  }

  lemma AppendedAction(acts: seq<Action>, a: Action, id: Id)
    ensures Front(acts + [a]) == acts && Last(acts + [a]) == a
    ensures forall b :: b in acts + [a] <==> b in acts || b == a
    ensures FinalPatched(acts + [a], id) <==> FinalPatched(acts, id) || (a.FinalPatch? && a.id == id)
  {
  }

  /** The actions of the worker task itself. */
  predicate OfWorker(a: Action) {
    a.Acquire? || a.MarkRunning? || a.Finish? || a.LoadFlag? || a.FinalPatch?
    || a.DropFlag? || a.DropHandle? || a.Release? || a.Drop?
  }

  lemma WorkerEvents(s: Pool, acts: seq<Action>, a: Action, id: Id)
    requires Enabled(s, a) && Sees(a, id) && TaskInv(s, id) && EventsInv(s, acts, id)
    requires OfWorker(a)
    ensures EventsInv(Next(s, a), acts + [a], id)
  {
    AppendedAction(acts, a, id);
  }

  lemma OtherEvents(s: Pool, acts: seq<Action>, a: Action, id: Id)
    requires Enabled(s, a) && Sees(a, id) && TaskInv(s, id) && EventsInv(s, acts, id)
    requires !OfWorker(a)
    ensures EventsInv(Next(s, a), acts + [a], id)
  {
    AppendedAction(acts, a, id);
  }

  lemma EventsStep(s: Pool, acts: seq<Action>, a: Action, id: Id)
    requires Enabled(s, a) && TaskInv(s, id) && EventsInv(s, acts, id)
    ensures EventsInv(Next(s, a), acts + [a], id)
  {
    if Sees(a, id) {
      if OfWorker(a) {
        WorkerEvents(s, acts, a, id);
      } else {
        OtherEvents(s, acts, a, id);
      }
    } else {
      AppendedAction(acts, a, id);
      OthersUnchanged(s, a, id);
    }
  }

  lemma FlagStep(s: Pool, acts: seq<Action>, a: Action, id: Id)
    requires Enabled(s, a) && TaskInv(s, id) && EventsInv(s, acts, id) && FlagInv(s, acts, id)
    ensures FlagInv(Next(s, a), acts + [a], id)
  {
    AppendedAction(acts, a, id);
    if !Sees(a, id) {
      OthersUnchanged(s, a, id);
    }
  }

  lemma OutcomeStep(s: Pool, acts: seq<Action>, a: Action, id: Id)
    requires Enabled(s, a) && TaskInv(s, id)
    requires EventsInv(s, acts, id) && FlagInv(s, acts, id) && OutcomeInv(s, acts, id)
    ensures OutcomeInv(Next(s, a), acts + [a], id)
  {
    AppendedAction(acts, a, id);
    if !Sees(a, id) {
      OthersUnchanged(s, a, id);
    }
  }

  lemma HistoryStep(s: Pool, acts: seq<Action>, a: Action, id: Id)
    requires Enabled(s, a) && TaskInv(s, id) && HistoryInv(s, acts, id)
    ensures HistoryInv(Next(s, a), acts + [a], id)
  {
    EventsStep(s, acts, a, id);
    FlagStep(s, acts, a, id);
    OutcomeStep(s, acts, a, id);
  }

  lemma {:induction false} HistoryReachable(n: nat, acts: seq<Action>, id: Id)
    requires Legal(n, acts)
    ensures HistoryInv(After(n, acts), acts, id)
    decreases |acts|
  {
    if acts != [] {
      HistoryReachable(n, Front(acts), id);
      Reachable(n, Front(acts));
      assert TaskInv(After(n, Front(acts)), id);
      HistoryStep(After(n, Front(acts)), Front(acts), Last(acts), id);
      assert acts == Front(acts) + [Last(acts)];
    }
  }

  /**
   A worker that reached its final patch left the task Cancelled exactly when some cancel stored
   its flag in time or patched the task while it ran; otherwise the outcome of the work decides.
   */
  lemma FinalOutcome(n: nat, acts: seq<Action>, id: Id)
    requires Legal(n, acts) && FinalPatched(acts, id)
    ensures var s := After(n, acts);
            && id in s.workers && id in s.tasks
            && s.tasks[id].status == Decision(acts, id, s.workers[id].outcome)
  {
    HistoryReachable(n, acts, id);
    Reachable(n, acts);
    assert TaskInv(After(n, acts), id);
  }

  /** The worker applies its Running patch at most once. */
  lemma RunningOnce(n: nat, acts: seq<Action>, j: nat, k: nat, id: Id)
    requires Legal(n, acts) && j < k < |acts|
    requires acts[j] == MarkRunning(id)
    ensures acts[k] != MarkRunning(id)
  {
    LegalPrefix(n, acts, k + 1);
    assert Front(acts[..k + 1]) == acts[..k];
    HistoryReachable(n, acts[..k], id);
    Reachable(n, acts[..k]);
    assert TaskInv(After(n, acts[..k]), id);
    assert acts[..k][j] == MarkRunning(id);
  }
}
