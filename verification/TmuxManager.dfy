/**
 The manager object itself. The steps of an attach and of a reaper are proved to be those of
 the state machine in `TmuxProtocol`; `Attach` runs them in the order of the program for an
 attach that meets no other thread on its key.
 */
module TmuxManager {
  import opened Wrappers
  import opened TmuxProtocol

  /** What the remote side does to one attempt; `refusal` is the reason why control mode does not open. */
  datatype Remote = Remote(connects: bool, refusal: Option<string>, window: bool)

  /** What an attempt comes to that finds no live host and may open connection `c`. */
  function FreshOutcome(remote: Remote, c: Conn): Outcome {
    if !remote.connects then Failed
    else if remote.refusal.Some? then Unsupported
    else if remote.window then Attached(c)
    else Failed
  }

  predicate Opens(remote: Remote) {
    remote.connects && remote.refusal.None?
  }

  /** Where `spawn_host` leaves the attach `a`. */
  function SpawnPhase(a: Attempt, remote: Remote, c: Conn): Phase {
    if !remote.connects then FailedPhase(a)
    else if remote.refusal.Some? then Leaving(Unsupported)
    else HasHost(c)
  }

  /** What resolving the host of `key` does to hosts and connections, given what an opening would do. */
  predicate HostsAfter(s: Manager, v: Manager, key: Key, opens: bool, c: Conn) {
    if LiveHost(s, key).Some? then v.hosts == s.hosts && v.links == s.links
    else if opens then key in v.hosts && v.hosts[key] == c && v.links == s.links[c := Link(key, true, true)]
    else key !in v.hosts && v.links == s.links
  }

  /** A refusal is recorded with its reason and the time; no other mark changes. */
  predicate MarksAfter(s: Manager, v: Manager, key: Key, refusal: Option<string>) {
    v.unsupported == if refusal.None? then s.unsupported else s.unsupported[key := Mark(refusal.value, s.now)]
  }

  /** The refusal that an attempt runs into which may open a connection. */
  function RefusalOf(remote: Remote): Option<string> {
    if remote.connects then remote.refusal else None
  }

  /** The refusal that an undisturbed attach runs into. */
  function ExpectedRefusal(cached: Option<Conn>, first: Remote, second: Remote): Option<string> {
    if cached.None? then RefusalOf(first) else if first.window then None else RefusalOf(second)
  }

  /** The key was marked less than 300 seconds ago. */
  predicate YoungMark(s: Manager, key: Key) {
    key in s.unsupported && s.now - s.unsupported[key].markedAt < 300
  }

  /** After an attach that met no young mark, the key has the mark of the refusal it ran into, or none. */
  predicate MarksAfterAttach(s: Manager, v: Manager, key: Key, refusal: Option<string>) {
    if YoungMark(s, key) then v.unsupported == s.unsupported
    else if refusal.Some? then v.unsupported == s.unsupported[key := Mark(refusal.value, s.now)]
    else v.unsupported == s.unsupported - {key}
  }

  lemma MarkedOverSwept(s: Manager, swept: Manager, v: Manager, key: Key, refusal: Option<string>)
    requires swept.unsupported == s.unsupported - {key} && swept.now == s.now && MarksAfter(swept, v, key, refusal)
    requires !YoungMark(s, key)
    ensures MarksAfterAttach(s, v, key, refusal)
  {
  }

  /** An attached session is bound to its connection and has no direct record. */
  predicate BoundAfter(s: Manager, a: Attempt) {
    a.phase.Leaving? && a.phase.outcome.Attached? ==>
      && a.sid in s.sessions && s.sessions[a.sid] == Binding(a.key, a.phase.outcome.conn)
      && a.sid !in s.direct
  }

  /** Where one attempt of the attach `a` leaves it. */
  function AttemptPhase(a: Attempt, host: Option<Conn>, remote: Remote, c: Conn): Phase {
    var o := if host.None? then FreshOutcome(remote, c) else if remote.window then Attached(host.value) else Failed;
    if o.Failed? then FailedPhase(a) else Leaving(o)
  }

  /** What an undisturbed attach comes to: a failure on a cached host is retried once without it. */
  function ExpectedOutcome(marked: bool, cached: Option<Conn>, first: Remote, second: Remote, c: Conn): Outcome {
    if marked then Unsupported
    else if cached.None? then FreshOutcome(first, c)
    else if first.window then Attached(cached.value)
    else FreshOutcome(second, c)
  }

  /** A session is attached when a cached host shows its window, or else when a fresh connection does. */
  lemma AnswerMeans(marked: bool, cached: Option<Conn>, first: Remote, second: Remote, c: Conn)
    ensures var answer := ExpectedOutcome(marked, cached, first, second, c);
            var reused, remote := cached.Some? && first.window, if cached.Some? then second else first;
            && (answer.Unsupported? <==> marked || (!reused && remote.connects && remote.refusal.Some?))
            && (answer.Attached? <==>
                  !marked && (reused || (remote.connects && remote.refusal.None? && remote.window)))
            && (answer.Attached? ==> answer.conn == if reused then cached.value else c)
  {
  }

  lemma TakenAndReleased(held: map<LockId, nat>, l: LockId, t: nat)
    requires l !in held
    ensures held[l := t] - {l} == held
  {
  }

  lemma RunPair(s: Manager, a: Action, b: Action)
    requires Enabled(s, a) && Enabled(Next(s, a), b)
    ensures Run(s, [a, b]) == Some(Next(Next(s, a), b))
  {
    assert [a, b][1..] == [b] && [b][1..] == [];
    assert Run(Next(s, a), [b]) == Run(Next(Next(s, a), b), []);
  }

  /** What one undisturbed reaper does: nothing more than its check, or all three of its sections. */
  function ReapActions(s: Manager, r: nat, idle: bool): seq<Action>
    requires r in s.reapers
  {
    if s.reapers[r].key in s.hosts && idle then [ReapCheck(r, idle), ReapRemove(r), ReapUnlock(r)]
    else [ReapCheck(r, idle)]
  }

  lemma RunSingle(s: Manager, a: Action)
    requires Enabled(s, a)
    ensures Run(s, [a]) == Some(Next(s, a))
  {
  }

  lemma RunTriple(s: Manager, a: Action, b: Action, c: Action)
    requires Enabled(s, a) && Enabled(Next(s, a), b) && Enabled(Next(Next(s, a), b), c)
    ensures Run(s, [a, b, c]) == Some(Next(Next(Next(s, a), b), c))
  {
    assert [a, b, c][1..] == [b, c];
    RunPair(Next(s, a), b, c);
  }

  /** A reaper that runs while no attach of its key is armed keeps every key at one connection. */
  lemma ReapKeepsInv(s: Manager, r: nat, idle: bool)
    requires Inv(s, false) && Enabled(s, ReapCheck(r, idle)) && !ArmedOn(s, s.reapers[r].key)
    ensures Run(s, ReapActions(s, r, idle)).Some? && Inv(Run(s, ReapActions(s, r, idle)).value, false)
  {
    var checked := Next(s, ReapCheck(r, idle));
    InvStep(s, ReapCheck(r, idle), false);
    if s.reapers[r].key in s.hosts && idle {
      var removed := Next(checked, ReapRemove(r));
      InvStep(checked, ReapRemove(r), false);
      InvStep(removed, ReapUnlock(r), false);
      RunTriple(s, ReapCheck(r, idle), ReapRemove(r), ReapUnlock(r));
    } else {
      RunSingle(s, ReapCheck(r, idle));
    }
  }

  class SharedManager {
    var hosts: map<Key, Conn>
    var locks: map<Key, LockId>
    var sessions: map<Sid, Binding>
    var direct: map<Sid, Option<string>>
    var unsupported: map<Key, Mark>
    var now: int
    var links: map<Conn, Link>
    var lockIds: set<LockId>
    var held: map<LockId, nat>
    var attaches: map<nat, Attempt>
    var reapers: map<nat, Reaper>

    ghost function View(): Manager
      reads this
    {
      Manager(hosts, locks, sessions, direct, unsupported, now, links, lockIds, held, attaches, reapers)
    }

    constructor ()
      ensures View() == Init()
    {
      hosts, locks, sessions, direct, unsupported := map[], map[], map[], map[], map[];
      now, links, lockIds, held, attaches, reapers := 0, map[], {}, map[], map[], map[];
    }

    // ---- single critical sections ------------------------------------------------------------

    method UnsupportedReason(key: Key) returns (reason: Option<string>)
      modifies this`unsupported
      ensures unsupported == SweptMarks(old(View()), key)
      ensures reason == if key in unsupported then Some(unsupported[key].reason) else None
      ensures reason.Some? <==> YoungMark(old(View()), key)
      ensures unsupported == if reason.Some? then old(unsupported) else old(unsupported) - {key}
    {
      if key !in unsupported {
        assert unsupported - {key} == unsupported;
        return None;
      }
      if now - unsupported[key].markedAt >= UNSUPPORTED_TTL {
        unsupported := unsupported - {key};
        return None;
      }
      return Some(unsupported[key].reason);
    }

    method ConnectLock(key: Key, newLock: LockId) returns (lock: LockId)
      modifies this`locks, this`lockIds
      ensures lock == if key in old(locks) then old(locks)[key] else newLock
      ensures locks == old(locks)[key := lock] && lockIds == old(lockIds) + {lock}
    {
      if key !in locks {
        locks := locks[key := newLock];
      }
      lock := locks[key];
      assert locks == old(locks)[key := lock];
      lockIds := lockIds + {lock};
    }

    /** `live_host`: the cached connection if it lives; a dead entry is removed. */
    method LiveConnection(key: Key) returns (host: Option<Conn>)
      modifies this`hosts
      ensures host == LiveHost(old(View()), key) && hosts == SweptHosts(old(View()), key)
      ensures host.Some? <==> key in old(hosts) && old(hosts)[key] in links && links[old(hosts)[key]].live
      ensures hosts == if host.Some? then old(hosts) else old(hosts) - {key}
    {
      if key !in hosts {
        assert hosts - {key} == hosts;
        return None;
      }
      if hosts[key] in links && links[hosts[key]].live {
        return Some(hosts[key]);
      }
      hosts := hosts - {key};
      return None;
    }

    /** Remove the cached host of `key` and disconnect it. */
    method RemoveHost(key: Key)
      modifies this`hosts, this`links
      ensures hosts == old(hosts) - {key} && links == Disconnected(old(View()), key)
      ensures key in old(hosts) ==> !IsLive(View(), old(hosts)[key])
      ensures forall c :: c in links <==> c in old(links)
      ensures forall c | c in links && !(key in old(hosts) && c == old(hosts)[key]) :: links[c] == old(links)[c]
    {
      if key in hosts {
        var c := hosts[key];
        if c in links {
          links := links[c := links[c].(live := false)];
        }
      }
      hosts := hosts - {key};
    }

    method SetPhase(t: nat, p: Phase)
      requires t in attaches
      modifies this`attaches
      ensures attaches == Moved(old(View()), t, p)
    {
      attaches := attaches[t := attaches[t].(phase := p)];
    }

    // ---- the steps of an attach ---------------------------------------------------------------

    method BeginAttach(t: nat, key: Key, sid: Sid) returns (refused: bool)
      requires Enabled(View(), Begin(t, key, sid))
      modifies this`unsupported, this`attaches
      ensures View() == Next(old(View()), Begin(t, key, sid))
      ensures attaches ==
                old(attaches)[t := Attempt(key, sid, if refused then Done(Unsupported) else Checked, 0, false, false)]
      ensures refused <==> YoungMark(old(View()), key)
      ensures unsupported == if refused then old(unsupported) else old(unsupported) - {key}
    {
      var reason := UnsupportedReason(key);
      refused := reason.Some?;
      attaches := attaches[t := Attempt(key, sid, if refused then Done(Unsupported) else Checked, 0, false, false)];
    }

    method FetchLock(t: nat, newLock: LockId)
      requires Enabled(View(), GetLock(t, newLock))
      modifies this`locks, this`lockIds, this`attaches
      ensures View() == Next(old(View()), GetLock(t, newLock))
      ensures var a := old(attaches)[t];
              attaches == old(attaches)[t :=
                a.(phase := Waiting, lock := if a.key in old(locks) then old(locks)[a.key] else newLock)]
    {
      var lock := ConnectLock(attaches[t].key, newLock);
      attaches := attaches[t := attaches[t].(phase := Waiting, lock := lock)];
    }

    method TakeLock(t: nat)
      requires Enabled(View(), Enter(t))
      modifies this`held, this`attaches
      ensures View() == Next(old(View()), Enter(t))
      ensures attaches == Moved(old(View()), t, Entered) && held == old(held)[old(attaches)[t].lock := t]
    {
      held := held[attaches[t].lock := t];
      SetPhase(t, Entered);
    }

    method ProbeCache(t: nat)
      requires Enabled(View(), Probe(t))
      modifies this`hosts, this`attaches
      ensures View() == Next(old(View()), Probe(t))
      ensures var a := old(attaches)[t];
              var host := LiveHost(old(View()), a.key);
              && LiveHost(View(), a.key) == host
              && attaches == old(attaches)[t := a.(phase := Resolving, cached := host.Some?)]
    {
      var host := LiveConnection(attaches[t].key);
      attaches := attaches[t := attaches[t].(phase := Resolving, cached := host.Some?)];
    }

    method ResolveHost(t: nat)
      requires Enabled(View(), Resolve(t))
      modifies this`hosts, this`attaches
      ensures View() == Next(old(View()), Resolve(t))
    {
      var host := LiveConnection(attaches[t].key);
      SetPhase(t, if host.Some? then HasHost(host.value) else Connecting);
    }

    method RecordRefusal(t: nat, reason: string)
      requires Enabled(View(), OpenFails(t, reason))
      modifies this`unsupported, this`attaches
      ensures View() == Next(old(View()), OpenFails(t, reason))
      ensures attaches == Moved(old(View()), t, Leaving(Unsupported))
      ensures unsupported == old(unsupported)[old(attaches)[t].key := Mark(reason, now)]
    {
      unsupported := unsupported[attaches[t].key := Mark(reason, now)];
      SetPhase(t, Leaving(Unsupported));
    }

    method OpenControl(t: nat, c: Conn)
      requires Enabled(View(), Open(t, c))
      modifies this`links, this`attaches
      ensures View() == Next(old(View()), Open(t, c))
      ensures attaches == Moved(old(View()), t, Opened(c))
                && links == old(links)[c := Link(old(attaches)[t].key, true, false)]
    {
      links := links[c := Link(attaches[t].key, true, false)];
      SetPhase(t, Opened(c));
    }

    method PublishHost(t: nat)
      requires Enabled(View(), Publish(t))
      modifies this`hosts, this`links, this`attaches
      ensures View() == Next(old(View()), Publish(t))
      ensures var c := old(attaches)[t].phase.conn;
              && attaches == Moved(old(View()), t, HasHost(c)) && hosts == old(hosts)[old(attaches)[t].key := c]
              && (c in old(links) ==> links == old(links)[c := old(links)[c].(published := true)])
    {
      var c := attaches[t].phase.conn;
      hosts := hosts[attaches[t].key := c];
      if c in links {
        links := links[c := links[c].(published := true)];
      }
      SetPhase(t, HasHost(c));
    }

    /** A failed attempt: another one follows if the probe had found a cached host. */
    method FailAttempt(t: nat)
      requires Enabled(View(), ConnectFails(t)) || Enabled(View(), WindowFails(t))
      modifies this`attaches
      ensures Enabled(old(View()), ConnectFails(t)) ==> View() == Next(old(View()), ConnectFails(t))
      ensures Enabled(old(View()), WindowFails(t)) ==> View() == Next(old(View()), WindowFails(t))
      ensures attaches == Moved(old(View()), t, FailedPhase(old(attaches)[t]))
    {
      SetPhase(t, if attaches[t].cached && !attaches[t].retried then Dropping else Leaving(Failed));
    }

    method WindowFound(t: nat)
      requires Enabled(View(), WindowReady(t))
      modifies this`attaches
      ensures View() == Next(old(View()), WindowReady(t))
      ensures attaches == Moved(old(View()), t, Windowed(old(attaches)[t].phase.conn))
    {
      SetPhase(t, Windowed(attaches[t].phase.conn));
    }

    method RemoveDirect(t: nat)
      requires Enabled(View(), ClearDirect(t))
      modifies this`direct, this`attaches
      ensures View() == Next(old(View()), ClearDirect(t))
      ensures attaches == Moved(old(View()), t, Cleared(old(attaches)[t].phase.conn))
      ensures direct == old(direct) - {old(attaches)[t].sid}
    {
      direct := direct - {attaches[t].sid};
      SetPhase(t, Cleared(attaches[t].phase.conn));
    }

    method BindSession(t: nat)
      requires Enabled(View(), Bind(t))
      modifies this`sessions, this`attaches
      ensures View() == Next(old(View()), Bind(t))
      ensures var a := old(attaches)[t];
              && attaches == Moved(old(View()), t, Leaving(Attached(a.phase.conn)))
              && sessions == old(sessions)[a.sid := Binding(a.key, a.phase.conn)]
    {
      var c := attaches[t].phase.conn;
      sessions := sessions[attaches[t].sid := Binding(attaches[t].key, c)];
      SetPhase(t, Leaving(Attached(c)));
    }

    method DropCached(t: nat)
      requires Enabled(View(), TmuxProtocol.Action.DropHost(t))
      modifies this`hosts, this`links, this`attaches
      ensures View() == Next(old(View()), TmuxProtocol.Action.DropHost(t))
      ensures var a := old(attaches)[t];
              && attaches == old(attaches)[t := a.(phase := Resolving, retried := true)]
              && hosts == old(hosts) - {a.key} && links == Disconnected(old(View()), a.key)
    {
      RemoveHost(attaches[t].key);
      attaches := attaches[t := attaches[t].(phase := Resolving, retried := true)];
    }

    method ReleaseLock(t: nat)
      requires Enabled(View(), Leave(t))
      modifies this`held, this`attaches
      ensures View() == Next(old(View()), Leave(t))
      ensures held == old(held) - {old(attaches)[t].lock}
      ensures attaches == Moved(old(View()), t, Done(old(attaches)[t].phase.outcome))
    {
      held := held - {attaches[t].lock};
      SetPhase(t, Done(attaches[t].phase.outcome));
    }

    // ---- an undisturbed attach ---------------------------------------------------------------

    method OpenAndPublish(t: nat, c: Conn, ghost root: Manager)
      requires At(View(), t, Connecting) && c !in links && Leads(root, View())
      modifies this`hosts, this`links, this`attaches
      ensures Leads(root, View())
      ensures attaches == Moved(old(View()), t, HasHost(c))
      ensures var key := old(attaches)[t].key;
              hosts == old(hosts)[key := c] && links == old(links)[c := Link(key, true, true)]
    {
      ghost var a := attaches[t];
      LeadsNext(root, View(), Open(t, c));
      OpenControl(t, c);
      LeadsNext(root, View(), Publish(t));
      PublishHost(t);
      OverwriteLink(old(links), c, Link(a.key, true, false), Link(a.key, true, true));
      Overwrite(old(attaches), t, a.(phase := Opened(c)), a.(phase := HasHost(c)));
    }

    /** `spawn_host`: from Connecting to a cached host, a recorded refusal, or a failure. */
    method SpawnHost(t: nat, c: Conn, remote: Remote, ghost root: Manager)
      requires At(View(), t, Connecting) && c !in links && Leads(root, View())
      modifies this`hosts, this`links, this`unsupported, this`attaches
      ensures Leads(root, View())
      ensures attaches == Moved(old(View()), t, SpawnPhase(old(attaches)[t], remote, c))
      ensures var key := old(attaches)[t].key;
              if Opens(remote) then hosts == old(hosts)[key := c] && links == old(links)[c := Link(key, true, true)]
              else hosts == old(hosts) && links == old(links)
      ensures unsupported == if remote.connects && remote.refusal.Some?
                             then old(unsupported)[old(attaches)[t].key := Mark(remote.refusal.value, now)]
                             else old(unsupported)
    {
      if !remote.connects {
        LeadsNext(root, View(), ConnectFails(t));
        FailAttempt(t);
      } else if remote.refusal.Some? {
        LeadsNext(root, View(), OpenFails(t, remote.refusal.value));
        RecordRefusal(t, remote.refusal.value);
      } else {
        OpenAndPublish(t, c, root);
      }
    }

    /** The cached host if it lives, else a new one. */
    method ObtainHost(t: nat, c: Conn, remote: Remote, ghost root: Manager)
      requires At(View(), t, Resolving) && c !in links && Leads(root, View())
      modifies this`hosts, this`links, this`unsupported, this`attaches
      ensures Leads(root, View())
      ensures var a := old(attaches)[t];
              var host := LiveHost(old(View()), a.key);
              && attaches == Moved(old(View()), t, if host.Some? then HasHost(host.value) else SpawnPhase(a, remote, c))
              && HostsAfter(old(View()), View(), a.key, Opens(remote), c)
              && MarksAfter(old(View()), View(), a.key, if host.None? then RefusalOf(remote) else None)
    {
      LeadsNext(root, View(), Resolve(t));
      ResolveHost(t);
      ghost var resolved := attaches[t];
      if attaches[t].phase.Connecting? {
        SpawnHost(t, c, remote, root);
        Overwrite(old(attaches), t, resolved, attaches[t]);
      }
    }

    method BindToWindow(t: nat, ghost root: Manager)
      requires t in attaches && attaches[t].phase.Windowed? && Leads(root, View())
      modifies this`direct, this`sessions, this`attaches
      ensures Leads(root, View())
      ensures var a := old(attaches)[t];
              && attaches == Moved(old(View()), t, Leaving(Attached(a.phase.conn)))
              && sessions == old(sessions)[a.sid := Binding(a.key, a.phase.conn)] && direct == old(direct) - {a.sid}
    {
      ghost var a := attaches[t];
      LeadsNext(root, View(), ClearDirect(t));
      RemoveDirect(t);
      LeadsNext(root, View(), Bind(t));
      BindSession(t);
      Overwrite(old(attaches), t, a.(phase := Cleared(a.phase.conn)), a.(phase := Leaving(Attached(a.phase.conn))));
    }

    /** From a resolved host to a bound session, or to a failure. */
    method UseHost(t: nat, window: bool, ghost root: Manager)
      requires t in attaches && attaches[t].phase.HasHost? && Leads(root, View())
      modifies this`direct, this`sessions, this`attaches
      ensures Leads(root, View())
      ensures attaches == Moved(old(View()), t, if window then Leaving(Attached(old(attaches)[t].phase.conn))
                                                else FailedPhase(old(attaches)[t]))
      ensures window ==> var a := old(attaches)[t];
                         sessions == old(sessions)[a.sid := Binding(a.key, a.phase.conn)]
                           && direct == old(direct) - {a.sid}
    {
      if !window {
        LeadsNext(root, View(), WindowFails(t));
        FailAttempt(t);
      } else {
        LeadsNext(root, View(), WindowReady(t));
        WindowFound(t);
        ghost var windowed := attaches[t];
        BindToWindow(t, root);
        Overwrite(old(attaches), t, windowed, attaches[t]);
      }
    }

    /** `attach_with_resolved_host`: one attempt. */
    method AttachWithResolvedHost(t: nat, c: Conn, remote: Remote, ghost root: Manager)
      requires At(View(), t, Resolving) && c !in links && Leads(root, View())
      modifies this`hosts, this`links, this`unsupported, this`direct, this`sessions, this`attaches
      ensures Leads(root, View())
      ensures var a := old(attaches)[t];
              && attaches == Moved(old(View()), t, AttemptPhase(a, LiveHost(old(View()), a.key), remote, c))
              && HostsAfter(old(View()), View(), a.key, Opens(remote), c)
              && BoundAfter(View(), attaches[t])
              && MarksAfter(old(View()), View(), a.key,
                   if LiveHost(old(View()), a.key).None? then RefusalOf(remote) else None)
    {
      ObtainHost(t, c, remote, root);
      if attaches[t].phase.HasHost? {
        ghost var used := attaches[t];
        UseHost(t, remote.window, root);
        Overwrite(old(attaches), t, used, attaches[t]);
      }
    }

    /** Fetch and take the connect lock, which is free. */
    method LockKey(t: nat, newLock: LockId, ghost root: Manager)
      requires At(View(), t, Checked) && newLock !in lockIds && newLock !in held && Leads(root, View())
      requires attaches[t].key in locks ==> locks[attaches[t].key] !in held
      modifies this`locks, this`lockIds, this`held, this`attaches
      ensures Leads(root, View())
      ensures var a := old(attaches)[t];
              && t in attaches && attaches == old(attaches)[t := a.(phase := Entered, lock := attaches[t].lock)]
              && attaches[t].lock !in old(held) && held == old(held)[attaches[t].lock := t]
    {
      LeadsNext(root, View(), GetLock(t, newLock));
      FetchLock(t, newLock);
      ghost var waiting := attaches[t];
      LeadsNext(root, View(), Enter(t));
      TakeLock(t);
      Overwrite(old(attaches), t, waiting, attaches[t]);
      assert waiting.lock !in old(held);
    }

    /** Take the connect lock, which is free, and look whether a live host is cached. */
    method LockAndProbe(t: nat, newLock: LockId, ghost root: Manager)
      requires At(View(), t, Checked) && newLock !in lockIds && newLock !in held && Leads(root, View())
      requires attaches[t].key in locks ==> locks[attaches[t].key] !in held
      modifies this`hosts, this`locks, this`lockIds, this`held, this`attaches
      ensures Leads(root, View())
      ensures var a := old(attaches)[t];
              var host := LiveHost(old(View()), a.key);
              && t in attaches && attaches[t].lock !in old(held) && held == old(held)[attaches[t].lock := t]
              && attaches[t] == a.(phase := Resolving, lock := attaches[t].lock, cached := host.Some?)
              && LiveHost(View(), a.key) == host
    {
      LockKey(t, newLock, root);
      LeadsNext(root, View(), Probe(t));
      ProbeCache(t);
    }

    /** From the start of the attach to the attempt, unless an unexpired mark answers it. */
    method StartAttach(t: nat, key: Key, sid: Sid, newLock: LockId, ghost root: Manager) returns (refused: bool)
      requires t !in attaches && newLock !in lockIds && newLock !in held && Leads(root, View())
      requires key in locks ==> locks[key] !in held
      modifies this`hosts, this`locks, this`unsupported, this`lockIds, this`held, this`attaches
      ensures Leads(root, View())
      ensures refused ==> hosts == old(hosts) && locks == old(locks) && held == old(held)
      ensures refused ==> t in attaches && attaches[t].phase == Done(Unsupported)
      ensures !refused ==>
                && t in attaches && attaches[t].lock !in old(held) && held == old(held)[attaches[t].lock := t]
                && attaches[t] == Attempt(key, sid, Resolving, attaches[t].lock, LiveHost(old(View()), key).Some?,
                  false)
      ensures !refused ==> LiveHost(View(), key) == LiveHost(old(View()), key)
      ensures refused <==> YoungMark(old(View()), key)
      ensures unsupported == if refused then old(unsupported) else old(unsupported) - {key}
    {
      LeadsNext(root, View(), Begin(t, key, sid));
      refused := BeginAttach(t, key, sid);
      assert LiveHost(View(), key) == LiveHost(old(View()), key);
      if !refused {
        LockAndProbe(t, newLock, root);
      }
    }

    /** Drop the cached host, which may be half dead, and connect anew. */
    method Retry(t: nat, c: Conn, second: Remote, ghost root: Manager)
      requires At(View(), t, Dropping) && c !in links && Leads(root, View())
      requires attaches[t].cached && !attaches[t].retried && LiveHost(View(), attaches[t].key).Some?
      modifies this`hosts, this`links, this`unsupported, this`direct, this`sessions, this`attaches
      ensures Leads(root, View())
      ensures var a := old(attaches)[t];
              && t in attaches && attaches[t].lock == a.lock && attaches[t].key == a.key && attaches[t].sid == a.sid
              && attaches[t].phase == Leaving(FreshOutcome(second, c))
              && BoundAfter(View(), attaches[t])
              && (attaches[t].phase.outcome.Attached? ==> LiveHost(View(), a.key) == Some(c))
              && !IsLive(View(), old(hosts)[a.key])
              && MarksAfter(old(View()), View(), a.key, RefusalOf(second))
    {
      LeadsNext(root, View(), TmuxProtocol.Action.DropHost(t));
      DropCached(t);
      AttachWithResolvedHost(t, c, second, root);
    }

    /** The attempt, the retry if the first one failed on a cached host, and the release of the lock. */
    method AttemptAndRetry(t: nat, c: Conn, first: Remote, second: Remote, ghost root: Manager)
      requires At(View(), t, Resolving) && c !in links && Leads(root, View())
      requires attaches[t].cached == LiveHost(View(), attaches[t].key).Some? && !attaches[t].retried
      modifies this`hosts, this`links, this`unsupported, this`direct, this`sessions, this`attaches
      ensures Leads(root, View())
      ensures var a := old(attaches)[t];
              var host := LiveHost(old(View()), a.key);
              && t in attaches && attaches[t].lock == a.lock && attaches[t].key == a.key && attaches[t].sid == a.sid
              && attaches[t].phase == Leaving(ExpectedOutcome(false, host, first, second, c))
              && BoundAfter(View(), attaches[t])
              && (attaches[t].phase.outcome.Attached? ==>
                    LiveHost(View(), a.key) == Some(attaches[t].phase.outcome.conn))
              && (host.Some? && !first.window ==> !IsLive(View(), host.value))
              && MarksAfter(old(View()), View(), a.key, ExpectedRefusal(host, first, second))
    {
      AttachWithResolvedHost(t, c, first, root);
      if attaches[t].phase.Dropping? {
        Retry(t, c, second, root);
      }
    }

    /** What happens under the connect lock, and the release of the lock. */
    method AttachLocked(t: nat, c: Conn, first: Remote, second: Remote, ghost root: Manager) returns (answer: Outcome)
      requires At(View(), t, Resolving) && c !in links && Leads(root, View())
      requires attaches[t].cached == LiveHost(View(), attaches[t].key).Some? && !attaches[t].retried
      modifies this`hosts, this`links, this`unsupported, this`direct, this`sessions, this`attaches, this`held
      ensures Leads(root, View())
      ensures t in attaches && attaches[t].phase == Done(answer) && held == old(held) - {old(attaches)[t].lock}
      ensures var a := old(attaches)[t];
              && answer == ExpectedOutcome(false, LiveHost(old(View()), a.key), first, second, c)
              && (answer.Attached? ==>
                    && LiveHost(View(), a.key) == Some(answer.conn)
                    && a.sid in sessions && sessions[a.sid] == Binding(a.key, answer.conn) && a.sid !in direct)
              && MarksAfter(old(View()), View(), a.key,
                   ExpectedRefusal(LiveHost(old(View()), a.key), first, second))
    {
      AttemptAndRetry(t, c, first, second, root);
      answer := attaches[t].phase.outcome;
      LeadsNext(root, View(), Leave(t));
      ReleaseLock(t);
    }

    /**
     `attach` on a key whose connect lock is free, undisturbed: its answer, and that an attached
     session is bound to the live cached connection of its key and has no direct record left.
     */
    method Attach(t: nat, key: Key, sid: Sid, newLock: LockId, c: Conn, first: Remote, second: Remote)
      returns (answer: Outcome)
      requires t !in attaches && newLock !in lockIds && newLock !in held && c !in links
      requires key in locks ==> locks[key] !in held
      modifies this
      ensures Leads(old(View()), View())
      ensures now == old(now)
      ensures var marked := YoungMark(old(View()), key);
              && answer == ExpectedOutcome(marked, LiveHost(old(View()), key), first, second, c)
              && (marked ==> hosts == old(hosts) && links == old(links) && locks == old(locks))
      ensures MarksAfterAttach(old(View()), View(), key,
                ExpectedRefusal(LiveHost(old(View()), key), first, second))
      ensures held == old(held) && t in attaches && attaches[t].phase == Done(answer)
      ensures answer.Attached? ==>
                && LiveHost(View(), key) == Some(answer.conn)
                && sid in sessions && sessions[sid] == Binding(key, answer.conn) && sid !in direct
    {
      ghost var before := View();
      LeadsSelf(before);
      var refused := StartAttach(t, key, sid, newLock, before);
      if refused {
        answer := Unsupported;
      } else {
        TakenAndReleased(old(held), attaches[t].lock, t);
        ghost var started := View();
        answer := AttachLocked(t, c, first, second, before);
        MarkedOverSwept(before, started, View(), key, ExpectedRefusal(LiveHost(before, key), first, second));
      }
    }

    // ---- close and the delayed reaper --------------------------------------------------------

    method ForgetSession(sid: Sid)
      modifies this`sessions
      ensures View() == Next(old(View()), Forget(sid)) && sessions == old(sessions) - {sid}
    {
      sessions := sessions - {sid};
    }

    method ScheduleIdleReap(r: nat, key: Key)
      requires Enabled(View(), ScheduleReap(r, key))
      modifies this`reapers
      ensures View() == Next(old(View()), ScheduleReap(r, key)) && reapers == old(reapers)[r := Reaper(key, Sleeping)]
    {
      reapers := reapers[r := Reaper(key, Sleeping)];
    }

    /** `close`: only a bound session is forgotten, and its host is scheduled for reaping. */
    method Close(sid: Sid, r: nat) returns (found: bool)
      requires r !in reapers
      modifies this`sessions, this`reapers
      ensures found <==> sid in old(sessions)
      ensures !found ==> View() == old(View())
      ensures found ==> Run(old(View()), [Forget(sid), ScheduleReap(r, old(sessions)[sid].key)]) == Some(View())
      ensures found ==> sessions == old(sessions) - {sid}
                          && reapers == old(reapers)[r := Reaper(old(sessions)[sid].key, Sleeping)]
    {
      if sid !in sessions {
        return false;
      }
      var key := sessions[sid].key;
      ghost var before := View();
      ForgetSession(sid);
      ScheduleIdleReap(r, key);
      RunPair(before, Forget(sid), ScheduleReap(r, key));
      found := true;
    }

    method CheckIdle(r: nat, idle: bool) returns (stillIdle: bool)
      requires Enabled(View(), ReapCheck(r, idle))
      modifies this`reapers
      ensures View() == Next(old(View()), ReapCheck(r, idle))
      ensures stillIdle <==> old(reapers)[r].key in hosts && idle
      ensures reapers == old(reapers)[r := Reaper(old(reapers)[r].key, if stillIdle then Condemned else Over)]
    {
      var key := reapers[r].key;
      stillIdle := if key in hosts then idle else false;
      reapers := reapers[r := Reaper(key, if stillIdle then Condemned else Over)];
    }

    method ReapHost(r: nat)
      requires Enabled(View(), ReapRemove(r))
      modifies this`hosts, this`links, this`reapers
      ensures View() == Next(old(View()), ReapRemove(r))
      ensures hosts == old(hosts) - {old(reapers)[r].key} && links == Disconnected(old(View()), old(reapers)[r].key)
      ensures reapers == old(reapers)[r := Reaper(old(reapers)[r].key, Removed)]
    {
      RemoveHost(reapers[r].key);
      reapers := reapers[r := Reaper(reapers[r].key, Removed)];
    }

    method RemoveLock(r: nat)
      requires Enabled(View(), ReapUnlock(r))
      modifies this`locks, this`reapers
      ensures View() == Next(old(View()), ReapUnlock(r)) && locks == old(locks) - {old(reapers)[r].key}
    {
      locks := locks - {reapers[r].key};
      reapers := reapers[r := Reaper(reapers[r].key, Over)];
    }

    method RemoveIdle(r: nat)
      requires Enabled(View(), ReapRemove(r))
      modifies this`hosts, this`links, this`locks, this`reapers
      ensures Run(old(View()), [ReapRemove(r), ReapUnlock(r)]) == Some(View())
      ensures var key := old(reapers)[r].key;
              && hosts == old(hosts) - {key} && locks == old(locks) - {key}
              && links == Disconnected(old(View()), key)
    {
      ghost var before := View();
      ReapHost(r);
      RemoveLock(r);
      RunPair(before, ReapRemove(r), ReapUnlock(r));
    }

    /**
     The task of `schedule_idle_reap` after its delay, undisturbed: a host that is missing or in use
     is left alone; an idle one is gone and dead afterwards, and its key is without a lock.
     */
    method IdleReap(r: nat, idle: bool) returns (reaped: bool)
      requires Enabled(View(), ReapCheck(r, idle))
      modifies this`hosts, this`links, this`locks, this`reapers
      ensures Run(old(View()), ReapActions(old(View()), r, idle)) == Some(View())
      ensures reaped <==> old(reapers)[r].key in old(hosts) && idle
      ensures !reaped ==> hosts == old(hosts) && links == old(links) && locks == old(locks)
      ensures reaped ==>
                var key := old(reapers)[r].key;
                && hosts == old(hosts) - {key} && locks == old(locks) - {key}
                && links == Disconnected(old(View()), key) && !IsLive(View(), old(hosts)[key])
    {
      ghost var before := View();
      reaped := CheckIdle(r, idle);
      if reaped {
        RemoveIdle(r);
        assert [ReapCheck(r, idle), ReapRemove(r), ReapUnlock(r)][1..] == [ReapRemove(r), ReapUnlock(r)];
      } else {
        RunSingle(before, ReapCheck(r, idle));
      }
    }
  }
}
