/**
 The tmux connection manager as a state machine. An action is one critical section of one of
 the manager's maps, one operation on a per-key connect lock, or one event outside: a remote
 result, a dying connection, time passing. Attaches, closes, and delayed reapers interleave.
 */
module TmuxProtocol {
  import opened Wrappers

  /** A host, as user, name and port, and the name of a tmux session. */
  datatype Key = Key(host: string, session: string)

  /** A control connection. */
  type Conn = nat

  /** A connect lock object. */
  type LockId = nat

  /** The number in the id of a terminal session. */
  type Sid = nat

  const UNSUPPORTED_TTL: int := 300

  datatype Outcome = Attached(conn: Conn) | Unsupported | Failed

  /**
   Where an attach stands: no unexpired mark was found; the lock object is at hand; the lock is held;
   it is known whether a host was cached; no live host is cached; a connection is open, not cached
   yet; the host is resolved; the window is there; the direct record is gone; a first attempt on a
   cached host failed; the result is known with the lock still held; the lock is released.
   */
  datatype Phase =
    | Checked
    | Waiting
    | Entered
    | Resolving
    | Connecting
    | Opened(conn: Conn)
    | HasHost(conn: Conn)
    | Windowed(conn: Conn)
    | Cleared(conn: Conn)
    | Dropping
    | Leaving(outcome: Outcome)
    | Done(outcome: Outcome)

  datatype Attempt = Attempt(key: Key, sid: Sid, phase: Phase, lock: LockId, cached: bool, retried: bool)

  datatype ReapPhase = Sleeping | Condemned | Removed | Over

  datatype Reaper = Reaper(key: Key, phase: ReapPhase)

  /** `published` records that the connection was put into the host map. */
  datatype Link = Link(key: Key, live: bool, published: bool)

  datatype Binding = Binding(key: Key, conn: Conn)

  datatype Mark = Mark(reason: string, markedAt: int)

  datatype Manager = Manager(
    hosts: map<Key, Conn>, locks: map<Key, LockId>, sessions: map<Sid, Binding>,
    direct: map<Sid, Option<string>>, unsupported: map<Key, Mark>,
    now: int, links: map<Conn, Link>, lockIds: set<LockId>, held: map<LockId, nat>,
    attaches: map<nat, Attempt>, reapers: map<nat, Reaper>)

  datatype Action =
    | Begin(t: nat, key: Key, sid: Sid)
    | GetLock(t: nat, newLock: LockId)
    | Enter(t: nat)
    | Probe(t: nat)
    | Resolve(t: nat)
    | ConnectFails(t: nat)
    | OpenFails(t: nat, reason: string)
    | Open(t: nat, conn: Conn)
    | Publish(t: nat)
    | WindowReady(t: nat)
    | WindowFails(t: nat)
    | ClearDirect(t: nat)
    | Bind(t: nat)
    | DropHost(t: nat)
    | Leave(t: nat)
    | ScheduleReap(r: nat, reapKey: Key)
    | ReapCheck(r: nat, idle: bool)
    | ReapRemove(r: nat)
    | ReapUnlock(r: nat)
    | RecordDirect(session: Sid, why: Option<string>)
    | ForgetDirect(session: Sid)
    | Forget(session: Sid)
    | InvalidateAll
    | Die(lost: Conn)
    | Tick(seconds: nat)

  function Init(): Manager {
    Manager(map[], map[], map[], map[], map[], 0, map[], {}, map[], map[], map[])
  }

  predicate At(s: Manager, t: nat, p: Phase) {
    t in s.attaches && s.attaches[t].phase == p
  }

  predicate Expired(s: Manager, key: Key) {
    key in s.unsupported && s.now - s.unsupported[key].markedAt >= UNSUPPORTED_TTL
  }

  predicate IsLive(s: Manager, c: Conn) {
    c in s.links && s.links[c].live
  }

  /** `live_host`: the cached connection if it is alive. */
  function LiveHost(s: Manager, key: Key): Option<Conn> {
    if key in s.hosts && IsLive(s, s.hosts[key]) then Some(s.hosts[key]) else None
  }

  predicate Enabled(s: Manager, a: Action) {
    match a
    case Begin(t, _, _) => t !in s.attaches
    case GetLock(t, l) => At(s, t, Checked) && l !in s.lockIds
    case Enter(t) => At(s, t, Waiting) && s.attaches[t].lock !in s.held
    case Probe(t) => At(s, t, Entered)
    case Resolve(t) => At(s, t, Resolving)
    case ConnectFails(t) => At(s, t, Connecting)
    case OpenFails(t, _) => At(s, t, Connecting)
    case Open(t, c) => At(s, t, Connecting) && c !in s.links
    case Publish(t) => t in s.attaches && s.attaches[t].phase.Opened?
    case WindowReady(t) => t in s.attaches && s.attaches[t].phase.HasHost?
    case WindowFails(t) => t in s.attaches && s.attaches[t].phase.HasHost?
    case ClearDirect(t) => t in s.attaches && s.attaches[t].phase.Windowed?
    case Bind(t) => t in s.attaches && s.attaches[t].phase.Cleared?
    case DropHost(t) => At(s, t, Dropping)
    case Leave(t) => t in s.attaches && s.attaches[t].phase.Leaving?
    case ScheduleReap(r, _) => r !in s.reapers
    case ReapCheck(r, _) => r in s.reapers && s.reapers[r].phase.Sleeping?
    case ReapRemove(r) => r in s.reapers && s.reapers[r].phase.Condemned?
    case ReapUnlock(r) => r in s.reapers && s.reapers[r].phase.Removed?
    case RecordDirect(_, _) => true
    case ForgetDirect(_) => true
    case Forget(_) => true
    case InvalidateAll => true
    case Die(c) => c in s.links
    case Tick(_) => true
  }

  function Moved(s: Manager, t: nat, p: Phase): (moved: map<nat, Attempt>)
    requires t in s.attaches
  {
    s.attaches[t := s.attaches[t].(phase := p)]
  }

  /** An error inside an attempt: retry once if the first probe found a cached host. */
  function FailedPhase(a: Attempt): Phase {
    if a.cached && !a.retried then Dropping else Leaving(Failed)
  }

  /** A host that is removed is disconnected before the host map is unlocked. */
  function Disconnected(s: Manager, key: Key): map<Conn, Link> {
    if key in s.hosts && s.hosts[key] in s.links then s.links[s.hosts[key] := s.links[s.hosts[key]].(live := false)]
    else s.links
  }

  /** `live_host` removes an entry whose connection is dead. */
  function SweptHosts(s: Manager, key: Key): map<Key, Conn> {
    if LiveHost(s, key).None? then s.hosts - {key} else s.hosts
  }

  /** `unsupported_reason` removes an expired mark. */
  function SweptMarks(s: Manager, key: Key): map<Key, Mark> {
    if Expired(s, key) then s.unsupported - {key} else s.unsupported
  }

  function Next(s: Manager, a: Action): Manager
    requires Enabled(s, a)
  {
    match a
    case Begin(t, key, sid) =>
      var p := if key in SweptMarks(s, key) then Done(Unsupported) else Checked;
      s.(unsupported := SweptMarks(s, key), attaches := s.attaches[t := Attempt(key, sid, p, 0, false, false)])
    case GetLock(t, l) =>
      var key := s.attaches[t].key;
      var lock := if key in s.locks then s.locks[key] else l;
      s.(locks := s.locks[key := lock], lockIds := s.lockIds + {lock},
         attaches := s.attaches[t := s.attaches[t].(phase := Waiting, lock := lock)])
    case Enter(t) => s.(attaches := Moved(s, t, Entered), held := s.held[s.attaches[t].lock := t])
    case Probe(t) =>
      var key := s.attaches[t].key;
      s.(hosts := SweptHosts(s, key),
         attaches := s.attaches[t := s.attaches[t].(phase := Resolving, cached := LiveHost(s, key).Some?)])
    case Resolve(t) =>
      var host := LiveHost(s, s.attaches[t].key);
      s.(hosts := SweptHosts(s, s.attaches[t].key),
         attaches := Moved(s, t, if host.Some? then HasHost(host.value) else Connecting))
    case ConnectFails(t) => s.(attaches := Moved(s, t, FailedPhase(s.attaches[t])))
    case OpenFails(t, reason) =>
      s.(attaches := Moved(s, t, Leaving(Unsupported)),
         unsupported := s.unsupported[s.attaches[t].key := Mark(reason, s.now)])
    case Open(t, c) =>
      s.(attaches := Moved(s, t, Opened(c)), links := s.links[c := Link(s.attaches[t].key, true, false)])
    case Publish(t) =>
      var c := s.attaches[t].phase.conn;
      s.(attaches := Moved(s, t, HasHost(c)),
         hosts := s.hosts[s.attaches[t].key := c],
         links := if c in s.links then s.links[c := s.links[c].(published := true)] else s.links)
    case WindowReady(t) => s.(attaches := Moved(s, t, Windowed(s.attaches[t].phase.conn)))
    case WindowFails(t) => s.(attaches := Moved(s, t, FailedPhase(s.attaches[t])))
    case ClearDirect(t) =>
      s.(attaches := Moved(s, t, Cleared(s.attaches[t].phase.conn)), direct := s.direct - {s.attaches[t].sid})
    case Bind(t) =>
      var c := s.attaches[t].phase.conn;
      s.(attaches := Moved(s, t, Leaving(Attached(c))),
         sessions := s.sessions[s.attaches[t].sid := Binding(s.attaches[t].key, c)])
    case DropHost(t) =>
      var key := s.attaches[t].key;
      s.(hosts := s.hosts - {key}, links := Disconnected(s, key),
         attaches := s.attaches[t := s.attaches[t].(phase := Resolving, retried := true)])
    case Leave(t) =>
      s.(attaches := Moved(s, t, Done(s.attaches[t].phase.outcome)), held := s.held - {s.attaches[t].lock})
    case ScheduleReap(r, key) => s.(reapers := s.reapers[r := Reaper(key, Sleeping)])
    case ReapCheck(r, idle) =>
      var key := s.reapers[r].key;
      s.(reapers := s.reapers[r := Reaper(key, if key in s.hosts && idle then Condemned else Over)])
    case ReapRemove(r) =>
      var key := s.reapers[r].key;
      s.(hosts := s.hosts - {key}, links := Disconnected(s, key), reapers := s.reapers[r := Reaper(key, Removed)])
    case ReapUnlock(r) =>
      s.(locks := s.locks - {s.reapers[r].key}, reapers := s.reapers[r := Reaper(s.reapers[r].key, Over)])
    case RecordDirect(sid, reason) => s.(direct := s.direct[sid := reason])
    case ForgetDirect(sid) => s.(direct := s.direct - {sid})
    case Forget(sid) => s.(sessions := s.sessions - {sid})
    case InvalidateAll => s.(unsupported := map[])
    case Die(c) => s.(links := s.links[c := s.links[c].(live := false)])
    case Tick(d) => s.(now := s.now + d)
  }

  // ---- the connect locks --------------------------------------------------------------------

  /** The attach holds its connect lock. */
  predicate Inside(p: Phase) {
    !p.Checked? && !p.Waiting? && !p.Done?
  }

  /** The attach has fetched its connect lock and not yet released it. */
  predicate InFlight(p: Phase) {
    p.Waiting? || Inside(p)
  }

  /** The attach is past everything that opens or caches a connection or comes back to it. */
  predicate Spent(a: Attempt) {
    a.phase.Windowed? || a.phase.Cleared? || a.phase.Leaving? || (a.phase.HasHost? && (!a.cached || a.retried))
  }

  /** The attach may still open or cache a connection. */
  predicate Armed(a: Attempt) {
    InFlight(a.phase) && !Spent(a)
  }

  predicate Busy(s: Manager, key: Key) {
    exists t :: t in s.attaches && s.attaches[t].key == key && InFlight(s.attaches[t].phase)
  }

  predicate ArmedOn(s: Manager, key: Key) {
    exists t :: t in s.attaches && s.attaches[t].key == key && Armed(s.attaches[t])
  }

  /**
   Two readings of what relies on a connect lock: with `strict` every attach in flight, else only
   those that are armed.
   */
  predicate Relies(a: Attempt, strict: bool) {
    if strict then InFlight(a.phase) else Armed(a)
  }

  predicate InUse(s: Manager, key: Key, strict: bool) {
    if strict then Busy(s, key) else ArmedOn(s, key)
  }

  /** At most one attach per key is inside. */
  predicate Exclusive(s: Manager, key: Key) {
    forall t, u | t in s.attaches && u in s.attaches
                  && s.attaches[t].key == key && s.attaches[u].key == key
                  && Inside(s.attaches[t].phase) && Inside(s.attaches[u].phase) :: t == u
  }

  predicate LockInv(s: Manager, strict: bool) {
    && (forall t | t in s.attaches && Relies(s.attaches[t], strict) ::
          s.attaches[t].key in s.locks && s.locks[s.attaches[t].key] == s.attaches[t].lock)
    && (forall t | t in s.attaches && Inside(s.attaches[t].phase) ::
          s.attaches[t].lock in s.held && s.held[s.attaches[t].lock] == t)
    && (forall l | l in s.held ::
          s.held[l] in s.attaches && Inside(s.attaches[s.held[l]].phase) && s.attaches[s.held[l]].lock == l)
    && (forall k | k in s.locks :: s.locks[k] in s.lockIds)
    && (forall l | l in s.held :: l in s.lockIds)
    && (forall k, m | k in s.locks && m in s.locks && s.locks[k] == s.locks[m] :: k == m)
  }

  /** The connect lock of a key is deleted only while no attach relies on it. */
  predicate Clean(s: Manager, a: Action, strict: bool)
    requires Enabled(s, a)
  {
    a.ReapUnlock? ==> !InUse(s, s.reapers[a.r].key, strict)
  }

  /** The action is one of an attach. */
  predicate OfAttach(a: Action) {
    Early(a) || Late(a)
  }

  /** The first half of an attach, up to an open connection. */
  predicate Early(a: Action) {
    a.Begin? || a.GetLock? || a.Enter? || a.Probe? || a.Resolve? || a.ConnectFails? || a.OpenFails? || a.Open?
  }

  /** The second half of an attach. */
  predicate Late(a: Action) {
    a.Publish? || a.WindowReady? || a.WindowFails? || a.ClearDirect? || a.Bind? || a.DropHost? || a.Leave?
  }

  lemma OutsideActions(s: Manager, a: Action)
    requires Enabled(s, a) && !OfAttach(a)
    ensures Next(s, a).attaches == s.attaches
  {
  }

  /** An action leaves the attaches of other threads alone. */
  lemma OtherAttach(s: Manager, a: Action, t: nat)
    requires Enabled(s, a) && !(OfAttach(a) && a.t == t)
    ensures t in Next(s, a).attaches <==> t in s.attaches
    ensures t in s.attaches ==> Next(s, a).attaches[t] == s.attaches[t]
  {
    if !OfAttach(a) {
      OutsideActions(s, a);
    }
  }

  predicate MovesLock(a: Action) {
    a.GetLock? || a.Enter? || a.Leave? || a.ReapUnlock?
  }

  /** Actions other than fetching, taking, leaving and deleting locks keep an attach where it is. */
  predicate AttachKept(s: Manager, u: Manager, t: nat) {
    if t in s.attaches then
      && t in u.attaches
      && u.attaches[t].key == s.attaches[t].key
      && u.attaches[t].lock == s.attaches[t].lock
      && (Inside(u.attaches[t].phase) <==> Inside(s.attaches[t].phase))
      && (InFlight(u.attaches[t].phase) <==> InFlight(s.attaches[t].phase))
      && (Armed(u.attaches[t]) ==> Armed(s.attaches[t]))
    else t in u.attaches ==> !InFlight(u.attaches[t].phase)
  }

  lemma EarlyAttachKept(s: Manager, a: Action)
    requires Enabled(s, a)
    requires Early(a) && !MovesLock(a)
    ensures AttachKept(s, Next(s, a), a.t)
  {
  }

  lemma LateAttachKept(s: Manager, a: Action)
    requires Enabled(s, a)
    requires Late(a) && !MovesLock(a)
    ensures AttachKept(s, Next(s, a), a.t)
  {
  }

  lemma AnyAttachKept(s: Manager, a: Action, t: nat)
    requires Enabled(s, a) && !MovesLock(a)
    ensures AttachKept(s, Next(s, a), t)
  {
    if OfAttach(a) && a.t == t {
      if Early(a) {
        EarlyAttachKept(s, a);
      } else {
        LateAttachKept(s, a);
      }
    } else {
      OtherAttach(s, a, t);
    }
  }

  lemma LocksUntouched(s: Manager, a: Action)
    requires Enabled(s, a) && !MovesLock(a)
    ensures Next(s, a).locks == s.locks && Next(s, a).held == s.held && Next(s, a).lockIds == s.lockIds
  {
  }

  /** `LockInv` speaks only of the lock fields and of key, lock and position of each attach. */
  lemma LockInvFrame(s: Manager, u: Manager, strict: bool)
    requires LockInv(s, strict) && u.locks == s.locks && u.held == s.held && u.lockIds == s.lockIds
    requires forall t: nat :: AttachKept(s, u, t)
    ensures LockInv(u, strict)
  {
    assert forall t | t in u.attaches && InFlight(u.attaches[t].phase) :: AttachKept(s, u, t) && t in s.attaches;
    assert forall l | l in u.held :: AttachKept(s, u, s.held[l]);
  }

  lemma GetLockStep(s: Manager, t: nat, l: LockId, strict: bool)
    requires LockInv(s, strict) && Enabled(s, GetLock(t, l))
    ensures LockInv(Next(s, GetLock(t, l)), strict)
  {
  }

  lemma EnterStep(s: Manager, t: nat, strict: bool)
    requires LockInv(s, strict) && Enabled(s, Enter(t))
    ensures LockInv(Next(s, Enter(t)), strict)
  {
  }

  lemma LeaveStep(s: Manager, t: nat, strict: bool)
    requires LockInv(s, strict) && Enabled(s, Leave(t))
    ensures LockInv(Next(s, Leave(t)), strict)
  {
  }

  lemma UnlockStep(s: Manager, r: nat, strict: bool)
    requires LockInv(s, strict) && Enabled(s, ReapUnlock(r)) && !InUse(s, s.reapers[r].key, strict)
    ensures LockInv(Next(s, ReapUnlock(r)), strict)
  {
  }

  lemma LockInvStep(s: Manager, a: Action, strict: bool)
    requires LockInv(s, strict) && Enabled(s, a) && Clean(s, a, strict)
    ensures LockInv(Next(s, a), strict)
  {
    if a.GetLock? {
      GetLockStep(s, a.t, a.newLock, strict);
    } else if a.Enter? {
      EnterStep(s, a.t, strict);
    } else if a.Leave? {
      LeaveStep(s, a.t, strict);
    } else if a.ReapUnlock? {
      UnlockStep(s, a.r, strict);
    } else {
      LocksUntouched(s, a);
      forall t: nat ensures AttachKept(s, Next(s, a), t) {
        AnyAttachKept(s, a, t);
      }
      LockInvFrame(s, Next(s, a), strict);
    }
  }

  lemma LockInvExcludes(s: Manager, key: Key)
    requires LockInv(s, true)
    ensures Exclusive(s, key)
  {
  }

  /** At most one armed attach per key is inside. */
  lemma OneArmed(s: Manager, t: nat, u: nat)
    requires LockInv(s, false) && t in s.attaches && u in s.attaches && s.attaches[t].key == s.attaches[u].key
    requires Inside(s.attaches[t].phase) && Inside(s.attaches[u].phase)
    requires Armed(s.attaches[t]) && Armed(s.attaches[u])
    ensures t == u
  {
  }

  lemma StrictIsMore(s: Manager, strict: bool)
    requires LockInv(s, strict)
    ensures LockInv(s, false)
  {
  }

  // ---- the connections -------------------------------------------------------------------------

  predicate LinkOf(s: Manager, key: Key, c: Conn) {
    c in s.links && s.links[c].key == key
  }

  predicate Cached(s: Manager, key: Key, c: Conn) {
    LinkOf(s, key, c) && s.links[c].published
  }

  predicate HostInv(s: Manager, key: Key) {
    key in s.hosts ==> Cached(s, key, s.hosts[key])
  }

  /** What an attach knows about its key and its connection. */
  predicate AttachInv(s: Manager, t: nat) {
    t in s.attaches ==>
      var a := s.attaches[t];
      match a.phase
      case Connecting => a.key !in s.hosts
      case Opened(c) => a.key !in s.hosts && LinkOf(s, a.key, c) && !s.links[c].published
      case HasHost(c) => Cached(s, a.key, c)
      case Windowed(c) => Cached(s, a.key, c)
      case Cleared(c) => Cached(s, a.key, c)
      case Leaving(Attached(c)) => Cached(s, a.key, c)
      case Done(Attached(c)) => Cached(s, a.key, c)
      case _ => true
  }

  predicate IsOpening(s: Manager, t: nat, c: Conn) {
    t in s.attaches && s.attaches[t].phase == Opened(c)
  }

  /** A live connection is the one cached under its key, or the lock holder is about to cache it. */
  ghost predicate Tracked(s: Manager, c: Conn) {
    IsLive(s, c) ==>
      (s.links[c].key in s.hosts && s.hosts[s.links[c].key] == c) || exists t :: IsOpening(s, t, c)
  }

  ghost predicate ConnInv(s: Manager) {
    && (forall key: Key :: HostInv(s, key))
    && (forall t: nat :: AttachInv(s, t))
    && (forall c: Conn :: Tracked(s, c))
  }

  ghost predicate Inv(s: Manager, strict: bool) {
    LockInv(s, strict) && ConnInv(s)
  }

  predicate ChangesHosts(a: Action) {
    a.Probe? || a.Resolve? || a.DropHost? || a.ReapRemove? || a.Publish?
  }

  lemma HostsUnchanged(s: Manager, a: Action)
    requires Enabled(s, a) && !ChangesHosts(a)
    ensures Next(s, a).hosts == s.hosts
  {
  }

  /** Only Publish adds to the host map, under its own key; the others at most remove. */
  predicate HostsChange(s: Manager, a: Action, u: Manager, key: Key)
    requires a.Publish? ==> a.t in s.attaches && s.attaches[a.t].phase.Opened?
  {
    if a.Publish? && s.attaches[a.t].key == key then key in u.hosts && u.hosts[key] == s.attaches[a.t].phase.conn
    else key in u.hosts ==> key in s.hosts && u.hosts[key] == s.hosts[key]
  }

  lemma HostsChanged(s: Manager, a: Action, key: Key)
    requires Enabled(s, a) && ChangesHosts(a)
    ensures HostsChange(s, a, Next(s, a), key)
  {
  }

  lemma HostsStep(s: Manager, a: Action, key: Key)
    requires Enabled(s, a)
    ensures HostsChange(s, a, Next(s, a), key)
  {
    if ChangesHosts(a) {
      HostsChanged(s, a, key);
    } else {
      HostsUnchanged(s, a);
    }
  }

  predicate ChangesLinks(a: Action) {
    a.Open? || a.Publish? || a.DropHost? || a.ReapRemove? || a.Die?
  }

  lemma LinksUnchanged(s: Manager, a: Action)
    requires Enabled(s, a) && !ChangesLinks(a)
    ensures Next(s, a).links == s.links
  {
  }

  /** Connections keep their key and never come back to life; only Publish publishes, only Open opens. */
  lemma LinksStep(s: Manager, a: Action, c: Conn)
    requires Enabled(s, a)
    ensures var u := Next(s, a);
            && (c in s.links ==>
                  && c in u.links && u.links[c].key == s.links[c].key && (u.links[c].live ==> s.links[c].live)
                  && (u.links[c].published <==> s.links[c].published || (a.Publish? && IsOpening(s, a.t, c))))
            && (c in u.links && c !in s.links ==>
                  a == Open(a.t, c) && u.links[c] == Link(s.attaches[a.t].key, true, false))
  {
    if !ChangesLinks(a) {
      LinksUnchanged(s, a);
    }
  }

  /** A cached connection leaves the host map only dead. */
  predicate KeptOrDead(s: Manager, u: Manager, key: Key)
    requires key in s.hosts
  {
    IsLive(u, s.hosts[key]) ==> key in u.hosts && u.hosts[key] == s.hosts[key]
  }

  lemma SweptHost(s: Manager, a: Action, key: Key)
    requires Enabled(s, a) && key in s.hosts && (a.Probe? || a.Resolve?)
    ensures KeptOrDead(s, Next(s, a), key)
  {
  }

  lemma RemovedHost(s: Manager, a: Action, key: Key)
    requires Enabled(s, a) && key in s.hosts && s.hosts[key] in s.links
    requires a.DropHost? || a.ReapRemove? || (a.Publish? && s.attaches[a.t].key != key)
    ensures KeptOrDead(s, Next(s, a), key)
  {
  }

  lemma CachedStep(s: Manager, a: Action, key: Key)
    requires Enabled(s, a) && key in s.hosts && s.hosts[key] in s.links
    requires !(a.Publish? && s.attaches[a.t].key == key)
    ensures KeptOrDead(s, Next(s, a), key)
  {
    if !ChangesHosts(a) {
      HostsUnchanged(s, a);
    } else if a.Probe? || a.Resolve? {
      SweptHost(s, a, key);
    } else {
      RemovedHost(s, a, key);
    }
  }

  lemma HostInvStep(s: Manager, a: Action, key: Key)
    requires Enabled(s, a) && HostInv(s, key) && (OfAttach(a) ==> AttachInv(s, a.t))
    ensures HostInv(Next(s, a), key)
  {
    HostsStep(s, a, key);
    if key in Next(s, a).hosts {
      LinksStep(s, a, Next(s, a).hosts[key]);
    }
  }

  /** An attach other than the acting one keeps what it knows, unless the actor caches under its key. */
  lemma OtherAttachInv(s: Manager, a: Action, t: nat)
    requires Enabled(s, a) && AttachInv(s, t) && !(OfAttach(a) && a.t == t)
    requires a.Publish? ==> AttachInv(s, a.t)
    requires (t in s.attaches && a.Publish? && s.attaches[a.t].key == s.attaches[t].key) ==>
               !s.attaches[t].phase.Connecting? && !s.attaches[t].phase.Opened?
    ensures AttachInv(Next(s, a), t)
  {
    OtherAttach(s, a, t);
    if t in s.attaches {
      var b := s.attaches[t];
      HostsStep(s, a, b.key);
      match b.phase
      case Opened(c) => LinksStep(s, a, c);
      case HasHost(c) => LinksStep(s, a, c);
      case Windowed(c) => LinksStep(s, a, c);
      case Cleared(c) => LinksStep(s, a, c);
      case Leaving(Attached(c)) => LinksStep(s, a, c);
      case Done(Attached(c)) => LinksStep(s, a, c);
      case _ =>
    }
  }

  lemma EarlyAttachInv(s: Manager, a: Action)
    requires Enabled(s, a) && OfAttach(a) && AttachInv(s, a.t)
    requires a.t in s.attaches ==> HostInv(s, s.attaches[a.t].key)
    requires Early(a)
    ensures AttachInv(Next(s, a), a.t)
  {
  }

  lemma LateAttachInv(s: Manager, a: Action)
    requires Enabled(s, a) && OfAttach(a) && AttachInv(s, a.t)
    requires Late(a)
    ensures AttachInv(Next(s, a), a.t)
  {
  }

  lemma OnlyOneConnects(s: Manager, t: nat, u: nat)
    requires LockInv(s, false) && t in s.attaches && u in s.attaches && t != u
    requires s.attaches[t].phase.Opened? && s.attaches[t].key == s.attaches[u].key
    ensures !s.attaches[u].phase.Connecting? && !s.attaches[u].phase.Opened?
  {
    if s.attaches[u].phase.Connecting? || s.attaches[u].phase.Opened? {
      OneArmed(s, t, u);
    }
  }

  lemma AttachInvStep(s: Manager, a: Action, t: nat)
    requires Enabled(s, a) && LockInv(s, false) && ConnInv(s)
    ensures AttachInv(Next(s, a), t)
  {
    assert AttachInv(s, t);
    if OfAttach(a) && a.t == t {
      if Late(a) {
        LateAttachInv(s, a);
      } else {
        assert a.t in s.attaches ==> HostInv(s, s.attaches[a.t].key);
        EarlyAttachInv(s, a);
      }
    } else {
      if a.Publish? && t in s.attaches {
        assert AttachInv(s, a.t);
        if s.attaches[a.t].key == s.attaches[t].key {
          OnlyOneConnects(s, a.t, t);
        }
      }
      OtherAttachInv(s, a, t);
    }
  }

  /** A connection that some attach is opening is still being opened, or now cached. */
  lemma OpeningStep(s: Manager, a: Action, c: Conn, t: nat)
    requires Enabled(s, a) && IsOpening(s, t, c) && AttachInv(s, t)
    ensures Tracked(Next(s, a), c)
  {
    var u := Next(s, a);
    LinksStep(s, a, c);
    if OfAttach(a) && a.t == t {
      assert a.Publish?;
    } else {
      OtherAttach(s, a, t);
      assert IsOpening(u, t, c);
    }
  }

  lemma TrackedStep(s: Manager, a: Action, c: Conn)
    requires Enabled(s, a) && Tracked(s, c) && (forall t: nat :: AttachInv(s, t))
    ensures Tracked(Next(s, a), c)
  {
    var u := Next(s, a);
    LinksStep(s, a, c);
    if c !in s.links {
      if c in u.links {
        assert IsOpening(u, a.t, c);
      }
    } else if exists t :: IsOpening(s, t, c) {
      var t :| IsOpening(s, t, c);
      assert AttachInv(s, t);
      OpeningStep(s, a, c, t);
    } else if IsLive(u, c) {
      if a.Publish? {
        assert AttachInv(s, a.t);
      }
      CachedStep(s, a, s.links[c].key);
    }
  }

  lemma InvStep(s: Manager, a: Action, strict: bool)
    requires Inv(s, strict) && Enabled(s, a) && Clean(s, a, strict)
    ensures Inv(Next(s, a), strict)
  {
    LockInvStep(s, a, strict);
    StrictIsMore(s, strict);
    forall key: Key ensures HostInv(Next(s, a), key) {
      assert HostInv(s, key) && (OfAttach(a) ==> AttachInv(s, a.t));
      HostInvStep(s, a, key);
    }
    forall t: nat ensures AttachInv(Next(s, a), t) {
      AttachInvStep(s, a, t);
    }
    forall c: Conn ensures Tracked(Next(s, a), c) {
      assert Tracked(s, c);
      TrackedStep(s, a, c);
    }
  }

  /** In a state that satisfies the invariant, a key has at most one live connection. */
  lemma AtMostOneLive(s: Manager, c: Conn, d: Conn)
    requires Inv(s, false) && IsLive(s, c) && IsLive(s, d) && s.links[c].key == s.links[d].key
    ensures c == d
  {
    assert Tracked(s, c) && Tracked(s, d);
    forall t, e | IsOpening(s, t, e)
      ensures s.attaches[t].key !in s.hosts && LinkOf(s, s.attaches[t].key, e)
    {
      assert AttachInv(s, t);
    }
    forall t, u | IsOpening(s, t, c) && IsOpening(s, u, d)
      ensures t == u
    {
      OneArmed(s, t, u);
    }
  }

  // ---- runs ---------------------------------------------------------------------------------------

  /** The state after `acts`, or `None` when one of them was not enabled. */
  function Run(s: Manager, acts: seq<Action>): Option<Manager>
    decreases |acts|
  {
    if acts == [] then Some(s)
    else if Enabled(s, acts[0]) then Run(Next(s, acts[0]), acts[1..])
    else None
  }

  predicate CleanRun(s: Manager, acts: seq<Action>, strict: bool)
    decreases |acts|
  {
    acts == [] || (Enabled(s, acts[0]) && Clean(s, acts[0], strict) && CleanRun(Next(s, acts[0]), acts[1..], strict))
  }

  lemma InvInit()
    ensures Inv(Init(), true) && Inv(Init(), false)
  {
  }

  lemma {:induction false} InvRun(s: Manager, acts: seq<Action>, strict: bool)
    requires Inv(s, strict) && CleanRun(s, acts, strict)
    ensures Run(s, acts).Some? && Inv(Run(s, acts).value, strict)
    decreases |acts|
  {
    if acts != [] {
      InvStep(s, acts[0], strict);
      InvRun(Next(s, acts[0]), acts[1..], strict);
    }
  }

  /** In runs whose reapers delete a connect lock only while no attach is in flight, one attach per key is inside. */
  lemma OneAttachInside(acts: seq<Action>, key: Key)
    requires CleanRun(Init(), acts, true)
    ensures Run(Init(), acts).Some? && Exclusive(Run(Init(), acts).value, key)
  {
    InvInit();
    InvRun(Init(), acts, true);
    LockInvExcludes(Run(Init(), acts).value, key);
  }

  /**
   In every run whose reapers delete a connect lock only while no attach of that key is armed, a
   live connection is cached under its key or about to be, and no key ever has two of them.
   */
  lemma OneConnectionPerKey(acts: seq<Action>, c: Conn, d: Conn)
    requires CleanRun(Init(), acts, false)
    ensures Run(Init(), acts).Some?
    ensures var s := Run(Init(), acts).value;
            && Tracked(s, c)
            && (IsLive(s, c) && IsLive(s, d) && s.links[c].key == s.links[d].key ==> c == d)
  {
    InvInit();
    InvRun(Init(), acts, false);
    var s := Run(Init(), acts).value;
    assert Tracked(s, c);
    if IsLive(s, c) && IsLive(s, d) && s.links[c].key == s.links[d].key {
      AtMostOneLive(s, c, d);
    }
  }

  /**
   An attach that returns Attached has a connection of its own key; as long as that connection
   lives, it is the cached one, so other attaches share it.
   */
  lemma AttachedMeansShared(acts: seq<Action>, t: nat)
    requires CleanRun(Init(), acts, false) && Run(Init(), acts).Some?
    requires t in Run(Init(), acts).value.attaches
    requires Run(Init(), acts).value.attaches[t].phase.Done?
        && Run(Init(), acts).value.attaches[t].phase.outcome.Attached?
    ensures var s := Run(Init(), acts).value;
            var c := s.attaches[t].phase.outcome.conn;
            && LinkOf(s, s.attaches[t].key, c)
            && (IsLive(s, c) ==> s.attaches[t].key in s.hosts && s.hosts[s.attaches[t].key] == c)
  {
    InvInit();
    InvRun(Init(), acts, false);
    var s := Run(Init(), acts).value;
    var c := s.attaches[t].phase.outcome.conn;
    assert AttachInv(s, t) && Tracked(s, c);
    forall u: nat
      ensures IsOpening(s, u, c) ==> !s.links[c].published
    {
      assert AttachInv(s, u);
    }
  }

  // ---- what an attach leaves for its session -------------------------------------------------------

  /** The action leaves the session of attach `t` and its direct record alone, or is a step of `t` itself. */
  predicate SparesSession(s: Manager, a: Action, t: nat)
    requires Enabled(s, a) && t in s.attaches
  {
    var sid := s.attaches[t].sid;
    && !(a.Forget? && a.session == sid)
    && !(a.RecordDirect? && a.session == sid)
    && !(a.Bind? && a.t != t && s.attaches[a.t].sid == sid)
  }

  predicate RunSparesSession(s: Manager, acts: seq<Action>, t: nat)
    requires t in s.attaches
    decreases |acts|
  {
    acts == []
    || (Enabled(s, acts[0]) && SparesSession(s, acts[0], t)
        && t in Next(s, acts[0]).attaches && RunSparesSession(Next(s, acts[0]), acts[1..], t))
  }

  /** The direct record is gone, and once the attach has bound its session the binding is there. */
  predicate SessionInv(s: Manager, t: nat, key: Key, sid: Sid, c: Conn) {
    && t in s.attaches && s.attaches[t].key == key && s.attaches[t].sid == sid && sid !in s.direct
    && (s.attaches[t].phase == Cleared(c)
        || ((s.attaches[t].phase == Leaving(Attached(c)) || s.attaches[t].phase == Done(Attached(c)))
            && sid in s.sessions && s.sessions[sid] == Binding(key, c)))
  }

  predicate ChangesSessions(a: Action) {
    a.Forget? || a.RecordDirect? || a.ForgetDirect? || a.Bind? || a.ClearDirect?
  }

  lemma SessionsUnchanged(s: Manager, a: Action)
    requires Enabled(s, a) && !ChangesSessions(a)
    ensures Next(s, a).sessions == s.sessions && Next(s, a).direct == s.direct
  {
  }

  lemma SessionsKept(s: Manager, a: Action, t: nat)
    requires Enabled(s, a) && t in s.attaches && SparesSession(s, a, t) && !(OfAttach(a) && a.t == t)
    requires s.attaches[t].sid !in s.direct
    ensures s.attaches[t].sid !in Next(s, a).direct
    ensures s.attaches[t].sid in s.sessions ==>
              && s.attaches[t].sid in Next(s, a).sessions
              && Next(s, a).sessions[s.attaches[t].sid] == s.sessions[s.attaches[t].sid]
  {
    if !ChangesSessions(a) {
      SessionsUnchanged(s, a);
    }
  }

  lemma SessionStep(s: Manager, a: Action, t: nat, key: Key, sid: Sid, c: Conn)
    requires Enabled(s, a) && SessionInv(s, t, key, sid, c) && SparesSession(s, a, t)
    ensures SessionInv(Next(s, a), t, key, sid, c)
  {
    if !(OfAttach(a) && a.t == t) {
      OtherAttach(s, a, t);
      SessionsKept(s, a, t);
    }
  }

  lemma {:induction false} SessionRun(s: Manager, acts: seq<Action>, t: nat, key: Key, sid: Sid, c: Conn)
    requires SessionInv(s, t, key, sid, c) && RunSparesSession(s, acts, t)
    ensures Run(s, acts).Some? && SessionInv(Run(s, acts).value, t, key, sid, c)
    decreases |acts|
  {
    if acts != [] {
      SessionStep(s, acts[0], t, key, sid, c);
      SessionRun(Next(s, acts[0]), acts[1..], t, key, sid, c);
    }
  }

  /**
   From the removal of its direct record on, and until someone else forgets, rebinds or records the
   session: an attach that has returned Attached has its session bound to its connection, and no
   direct record.
   */
  lemma AttachedMeansBound(s: Manager, acts: seq<Action>, t: nat)
    requires Enabled(s, ClearDirect(t)) && RunSparesSession(Next(s, ClearDirect(t)), acts, t)
    ensures Run(s, [ClearDirect(t)] + acts).Some?
    ensures var a, v := s.attaches[t], Run(s, [ClearDirect(t)] + acts).value;
            t in v.attaches && (v.attaches[t].phase.Done? ==>
              && v.attaches[t].phase == Done(Attached(a.phase.conn))
              && a.sid in v.sessions && v.sessions[a.sid] == Binding(a.key, a.phase.conn) && a.sid !in v.direct)
  {
    var a := s.attaches[t];
    assert ([ClearDirect(t)] + acts)[1..] == acts;
    SessionRun(Next(s, ClearDirect(t)), acts, t, a.key, a.sid, a.phase.conn);
  }

  // ---- deleting a lock that is in use -------------------------------------------------------------

  predicate NoUnlocks(acts: seq<Action>) {
    forall a | a in acts :: !a.ReapUnlock?
  }

  /** `v` can follow `s` without any lock being deleted in between. */
  ghost predicate Leads(s: Manager, v: Manager) {
    exists acts :: NoUnlocks(acts) && Run(s, acts) == Some(v)
  }

  lemma LeadsSelf(s: Manager)
    ensures Leads(s, s)
  {
    assert NoUnlocks([]) && Run(s, []) == Some(s);
  }

  lemma {:induction false} RunAppend(s: Manager, acts: seq<Action>, more: seq<Action>)
    requires Run(s, acts).Some?
    ensures Run(s, acts + more) == Run(Run(s, acts).value, more)
    decreases |acts|
  {
    if acts == [] {
      assert acts + more == more;
    } else {
      assert (acts + more)[1..] == acts[1..] + more;
      RunAppend(Next(s, acts[0]), acts[1..], more);
    }
  }

  lemma Append(s: Manager, acts: seq<Action>, a: Action)
    requires Run(s, acts).Some? && Enabled(Run(s, acts).value, a)
    ensures Run(s, acts + [a]) == Some(Next(Run(s, acts).value, a))
  {
    RunAppend(s, acts, [a]);
    assert [a][1..] == [];
    assert Run(Run(s, acts).value, [a]) == Run(Next(Run(s, acts).value, a), []);
  }

  lemma LeadsNext(s: Manager, v: Manager, a: Action)
    requires Leads(s, v) && Enabled(v, a) && !a.ReapUnlock?
    ensures Leads(s, Next(v, a))
  {
    var acts :| NoUnlocks(acts) && Run(s, acts) == Some(v);
    Append(s, acts, a);
    assert NoUnlocks(acts + [a]);
  }

  lemma {:induction false} NoUnlocksAreClean(s: Manager, acts: seq<Action>, strict: bool)
    requires Run(s, acts).Some? && NoUnlocks(acts)
    ensures CleanRun(s, acts, strict)
    decreases |acts|
  {
    if acts != [] {
      assert acts[0] in acts && forall a | a in acts[1..] :: a in acts;
      NoUnlocksAreClean(Next(s, acts[0]), acts[1..], strict);
    }
  }

  lemma LeadsTrans(r: Manager, s: Manager, v: Manager)
    requires Leads(r, s) && Leads(s, v)
    ensures Leads(r, v)
  {
    var acts :| NoUnlocks(acts) && Run(r, acts) == Some(s);
    var more :| NoUnlocks(more) && Run(s, more) == Some(v);
    RunAppend(r, acts, more);
    assert NoUnlocks(acts + more);
  }

  lemma FreshNatAbove(used: set<nat>) returns (n: nat)
    ensures forall x | x in used :: x < n
    decreases used
  {
    n := 0;
    if used != {} {
      var x :| x in used;
      var m := FreshNatAbove(used - {x});
      n := if m <= x then x + 1 else m;
      assert forall y | y in used :: y == x || y in used - {x};
    }
  }

  predicate SameRest(s: Manager, v: Manager) {
    v.unsupported == s.unsupported && v.reapers == s.reapers
  }

  lemma BeginLeads(r: Manager, s: Manager, t: nat, key: Key) returns (v: Manager)
    requires Leads(r, s) && t !in s.attaches && key !in s.unsupported
    ensures Leads(r, v) && SameRest(s, v)
    ensures v.attaches == s.attaches[t := Attempt(key, 0, Checked, 0, false, false)]
    ensures v.locks == s.locks && v.lockIds == s.lockIds && v.held == s.held && v.hosts == s.hosts && v.links == s.links
  {
    LeadsNext(r, s, Begin(t, key, 0));
    v := Next(s, Begin(t, key, 0));
  }

  lemma GetLockLeads(r: Manager, s: Manager, t: nat, l: LockId) returns (v: Manager)
    requires Leads(r, s) && At(s, t, Checked) && l !in s.lockIds && s.attaches[t].key !in s.locks
    ensures Leads(r, v) && SameRest(s, v)
    ensures v.attaches == s.attaches[t := s.attaches[t].(phase := Waiting, lock := l)]
    ensures v.locks == s.locks[s.attaches[t].key := l] && v.lockIds == s.lockIds + {l}
    ensures v.held == s.held && v.hosts == s.hosts && v.links == s.links
  {
    LeadsNext(r, s, GetLock(t, l));
    v := Next(s, GetLock(t, l));
  }

  lemma EnterLeads(r: Manager, s: Manager, t: nat) returns (v: Manager)
    requires Leads(r, s) && At(s, t, Waiting) && s.attaches[t].lock !in s.held
    ensures Leads(r, v) && SameRest(s, v)
    ensures v.attaches == s.attaches[t := s.attaches[t].(phase := Entered)]
    ensures v.locks == s.locks && v.lockIds == s.lockIds
    ensures v.held == s.held[s.attaches[t].lock := t] && v.hosts == s.hosts && v.links == s.links
  {
    LeadsNext(r, s, Enter(t));
    v := Next(s, Enter(t));
  }

  lemma OpenLeads(r: Manager, s: Manager, t: nat, c: Conn) returns (v: Manager)
    requires Leads(r, s) && At(s, t, Connecting) && c !in s.links
    ensures Leads(r, v) && SameRest(s, v) && v.held == s.held && v.locks == s.locks && v.lockIds == s.lockIds
    ensures v.attaches == s.attaches[t := s.attaches[t].(phase := Opened(c))]
    ensures v.hosts == s.hosts && v.links == s.links[c := Link(s.attaches[t].key, true, false)]
  {
    LeadsNext(r, s, Open(t, c));
    v := Next(s, Open(t, c));
  }

  lemma PublishLeads(r: Manager, s: Manager, t: nat, c: Conn) returns (v: Manager)
    requires Leads(r, s) && IsOpening(s, t, c) && c in s.links
    ensures Leads(r, v) && SameRest(s, v) && v.held == s.held && v.locks == s.locks && v.lockIds == s.lockIds
    ensures v.attaches == s.attaches[t := s.attaches[t].(phase := HasHost(c))]
    ensures v.hosts == s.hosts[s.attaches[t].key := c] && v.links == s.links[c := s.links[c].(published := true)]
  {
    LeadsNext(r, s, Publish(t));
    v := Next(s, Publish(t));
  }

  lemma InvalidateLeads(s: Manager) returns (v: Manager)
    ensures Leads(s, v) && v == s.(unsupported := map[])
  {
    LeadsSelf(s);
    LeadsNext(s, s, InvalidateAll);
    v := Next(s, InvalidateAll);
  }

  /** A new attach on a key without a lock entry gets a lock of its own and is inside at once. */
  lemma NewcomerGetsIn(s: Manager, key: Key) returns (v: Manager, t: nat, l: LockId)
    requires key !in s.locks && forall k | k in s.held :: k in s.lockIds
    ensures Leads(s, v) && t !in s.attaches && l !in s.lockIds
    ensures v.attaches == s.attaches[t := Attempt(key, 0, Entered, l, false, false)]
    ensures v.held == s.held[l := t] && v.hosts == s.hosts && v.links == s.links
    ensures v.locks == s.locks[key := l] && v.lockIds == s.lockIds + {l}
    ensures v.unsupported == map[] && v.reapers == s.reapers
  {
    t := FreshNatAbove(s.attaches.Keys);
    l := FreshNatAbove(s.lockIds);
    var s1 := InvalidateLeads(s);
    var s2 := BeginLeads(s, s1, t, key);
    var s3 := GetLockLeads(s, s2, t, l);
    Overwrite(s.attaches, t, s2.attaches[t], s3.attaches[t]);
    v := EnterLeads(s, s3, t);
    Overwrite(s.attaches, t, s3.attaches[t], v.attaches[t]);
  }

  /**
   If a reaper deletes the lock of a key while an attach of that key is in flight, the run can go
   on to two attaches of the key inside at once.
   */
  lemma UnlockWhileBusy(s: Manager, r: nat) returns (v: Manager)
    requires Inv(s, true) && Enabled(s, ReapUnlock(r)) && Busy(s, s.reapers[r].key)
    ensures Leads(Next(s, ReapUnlock(r)), v) && !Exclusive(v, s.reapers[r].key)
  {
    var key := s.reapers[r].key;
    var u := Next(s, ReapUnlock(r));
    var t :| t in s.attaches && s.attaches[t].key == key && InFlight(s.attaches[t].phase);
    var lock := s.attaches[t].lock;
    var newcomer, l;
    v, newcomer, l := NewcomerGetsIn(u, key);
    var other := t;
    if lock in s.held {
      other := s.held[lock];
      assert s.attaches[other].key == key;
      assert v.attaches[other] == s.attaches[other];
    } else {
      assert lock in u.lockIds;
      v := EnterLeads(u, v, t);
    }
    assert Inside(v.attaches[other].phase) && Inside(v.attaches[newcomer].phase);
    assert v.attaches[other].key == key == v.attaches[newcomer].key && other != newcomer;
  }

  /** Deleting a connect lock preserves exclusion on its key for ever exactly when no attach is in flight. */
  lemma UnlockIsSafeExactlyWhenIdle(s: Manager, r: nat)
    requires Inv(s, true) && Enabled(s, ReapUnlock(r))
    ensures (forall acts | CleanRun(Next(s, ReapUnlock(r)), acts, true) ::
               Run(Next(s, ReapUnlock(r)), acts).Some?
               && Exclusive(Run(Next(s, ReapUnlock(r)), acts).value, s.reapers[r].key))
            <==> !Busy(s, s.reapers[r].key)
  {
    var u, key := Next(s, ReapUnlock(r)), s.reapers[r].key;
    if Busy(s, key) {
      var v := UnlockWhileBusy(s, r);
      var acts :| NoUnlocks(acts) && Run(u, acts) == Some(v);
      NoUnlocksAreClean(u, acts, true);
    } else {
      forall acts | CleanRun(u, acts, true)
        ensures Run(u, acts).Some? && Exclusive(Run(u, acts).value, key)
      {
        InvStep(s, ReapUnlock(r), true);
        InvRun(u, acts, true);
        LockInvExcludes(Run(u, acts).value, key);
      }
    }
  }

  lemma Overwrite(m: map<nat, Attempt>, k: nat, x: Attempt, y: Attempt)
    ensures m[k := x][k := y] == m[k := y]
  {
  }

  lemma OverwriteLink(m: map<Conn, Link>, c: Conn, x: Link, y: Link)
    ensures m[c := x][c := y] == m[c := y]
  {
  }

  /** From Connecting, an attach opens a connection and caches it. */
  lemma OpensAndPublishes(s: Manager, u: Manager, t: nat) returns (v: Manager, c: Conn)
    requires Leads(s, u) && At(u, t, Connecting)
    ensures Leads(s, v) && c !in u.links && SameRest(u, v)
    ensures v.held == u.held && v.locks == u.locks && v.lockIds == u.lockIds
    ensures v.links == u.links[c := Link(u.attaches[t].key, true, true)] && v.hosts == u.hosts[u.attaches[t].key := c]
    ensures v.attaches == u.attaches[t := u.attaches[t].(phase := HasHost(c))]
  {
    c := FreshNatAbove(u.links.Keys);
    var key, a := u.attaches[t].key, u.attaches[t];
    var w := OpenLeads(s, u, t, c);
    v := PublishLeads(s, w, t, c);
    OverwriteLink(u.links, c, Link(key, true, false), Link(key, true, true));
    Overwrite(u.attaches, t, a.(phase := Opened(c)), a.(phase := HasHost(c)));
  }

  lemma ProbeLeads(r: Manager, s: Manager, t: nat) returns (v: Manager)
    requires Leads(r, s) && At(s, t, Entered) && LiveHost(s, s.attaches[t].key).None?
    ensures Leads(r, v) && SameRest(s, v) && v.held == s.held && v.locks == s.locks && v.lockIds == s.lockIds
    ensures v.hosts == s.hosts - {s.attaches[t].key} && v.links == s.links
    ensures v.attaches == s.attaches[t := s.attaches[t].(phase := Resolving, cached := false)]
  {
    LeadsNext(r, s, Probe(t));
    v := Next(s, Probe(t));
  }

  lemma ResolveLeads(r: Manager, s: Manager, t: nat) returns (v: Manager)
    requires Leads(r, s) && At(s, t, Resolving) && LiveHost(s, s.attaches[t].key).None?
    ensures Leads(r, v) && SameRest(s, v) && v.held == s.held && v.locks == s.locks && v.lockIds == s.lockIds
    ensures v.hosts == s.hosts - {s.attaches[t].key} && v.links == s.links
    ensures v.attaches == s.attaches[t := s.attaches[t].(phase := Connecting)]
  {
    LeadsNext(r, s, Resolve(t));
    v := Next(s, Resolve(t));
  }

  lemma RemoveTwice(m: map<Key, Conn>, key: Key)
    ensures m - {key} - {key} == m - {key}
  {
  }

  /** An attach that enters while its key has no live host goes on to Connecting. */
  lemma FindsNoHost(s: Manager, u: Manager, t: nat) returns (v: Manager)
    requires Leads(s, u) && At(u, t, Entered) && LiveHost(u, u.attaches[t].key).None?
    ensures Leads(s, v) && SameRest(u, v) && v.held == u.held && v.locks == u.locks && v.lockIds == u.lockIds
    ensures v.links == u.links && v.hosts == u.hosts - {u.attaches[t].key}
    ensures v.attaches == u.attaches[t := u.attaches[t].(phase := Connecting, cached := false)]
  {
    var w := ProbeLeads(s, u, t);
    v := ResolveLeads(s, w, t);
    Overwrite(u.attaches, t, w.attaches[t], v.attaches[t]);
    RemoveTwice(u.hosts, u.attaches[t].key);
  }

  // ---- two live connections ------------------------------------------------------------------------

  ghost predicate TwoLive(s: Manager, key: Key) {
    exists c, d | c in s.links && d in s.links ::
      c != d && IsLive(s, c) && IsLive(s, d) && s.links[c].key == key == s.links[d].key
  }

  /** The lock entry of `key` is gone, so the next attach of that key gets a lock of its own. */
  predicate Unlocked(s: Manager, key: Key) {
    key !in s.locks && forall l | l in s.held :: l in s.lockIds
  }

  /** Attach `t` of the key whose lock entry is gone. */
  predicate Stray(s: Manager, t: nat, key: Key) {
    Unlocked(s, key) && t in s.attaches && s.attaches[t].key == key && (key in s.hosts ==> s.hosts[key] in s.links)
  }

  /** While a stray attach connects, a newcomer connects as well. */
  lemma ConnectingLeaks(s: Manager, t: nat, key: Key) returns (v: Manager)
    requires Stray(s, t, key) && At(s, t, Connecting) && key !in s.hosts
    ensures Leads(s, v) && TwoLive(v, key)
  {
    var newcomer, l, c, d;
    v, newcomer, l := NewcomerGetsIn(s, key);
    v := FindsNoHost(s, v, newcomer);
    v, c := OpensAndPublishes(s, v, newcomer);
    v, d := OpensAndPublishes(s, v, t);
    assert c in v.links && d in v.links;
  }

  /** The cached connection of a key may die at any time. */
  lemma HostDies(s: Manager, key: Key) returns (v: Manager)
    requires key in s.hosts ==> s.hosts[key] in s.links
    ensures Leads(s, v) && LiveHost(v, key).None?
    ensures v == s.(links := v.links) && v.links.Keys == s.links.Keys
    ensures forall c | c in s.links && !(key in s.hosts && s.hosts[key] == c) :: v.links[c] == s.links[c]
  {
    LeadsSelf(s);
    v := s;
    if key in s.hosts {
      LeadsNext(s, s, Die(s.hosts[key]));
      v := Next(s, Die(s.hosts[key]));
    }
  }

  lemma ResolvingLeaks(s: Manager, t: nat, key: Key) returns (v: Manager)
    requires Stray(s, t, key) && At(s, t, Resolving)
    ensures Leads(s, v) && TwoLive(v, key)
  {
    var w := HostDies(s, key);
    var x := ResolveLeads(s, w, t);
    v := ConnectingLeaks(x, t, key);
    LeadsTrans(s, x, v);
  }

  lemma EnteredLeaks(s: Manager, t: nat, key: Key) returns (v: Manager)
    requires Stray(s, t, key) && At(s, t, Entered)
    ensures Leads(s, v) && TwoLive(v, key)
  {
    var w := HostDies(s, key);
    var x := FindsNoHost(s, w, t);
    v := ConnectingLeaks(x, t, key);
    LeadsTrans(s, x, v);
  }

  lemma DroppingLeaks(s: Manager, t: nat, key: Key) returns (v: Manager)
    requires Stray(s, t, key) && At(s, t, Dropping)
    ensures Leads(s, v) && TwoLive(v, key)
  {
    LeadsSelf(s);
    LeadsNext(s, s, DropHost(t));
    var w := Next(s, DropHost(t));
    v := ResolvingLeaks(w, t, key);
    LeadsTrans(s, w, v);
  }

  lemma RetryLeaks(s: Manager, t: nat, key: Key) returns (v: Manager)
    requires Stray(s, t, key) && s.attaches[t].phase.HasHost? && !Spent(s.attaches[t])
    ensures Leads(s, v) && TwoLive(v, key)
  {
    LeadsSelf(s);
    LeadsNext(s, s, WindowFails(t));
    var w := Next(s, WindowFails(t));
    v := DroppingLeaks(w, t, key);
    LeadsTrans(s, w, v);
  }

  /** After publishing its host, an attach may fail to get a window and leave. */
  lemma GivesUp(r: Manager, s: Manager, t: nat) returns (v: Manager)
    requires Leads(r, s) && t in s.attaches && s.attaches[t].phase.HasHost? && !s.attaches[t].cached
    ensures Leads(r, v) && SameRest(s, v) && v.hosts == s.hosts && v.links == s.links
    ensures v.locks == s.locks && v.lockIds == s.lockIds
    ensures v.held == s.held - {s.attaches[t].lock} && v.attaches.Keys == s.attaches.Keys
    ensures v.attaches == s.attaches[t := v.attaches[t]]
  {
    LeadsNext(r, s, WindowFails(t));
    var w := Next(s, WindowFails(t));
    assert w.attaches == Moved(s, t, Leaving(Failed));
    LeadsNext(r, w, Leave(t));
    v := Next(w, Leave(t));
  }

  /** An attach of a key whose lock is free gets in. */
  lemma RejoinsLock(r: Manager, s: Manager, t: nat, key: Key) returns (v: Manager)
    requires Leads(r, s) && t !in s.attaches && key !in s.unsupported
    requires s.held.Keys <= s.lockIds && (key in s.locks ==> s.locks[key] !in s.held)
    ensures Leads(r, v) && SameRest(s, v) && At(v, t, Entered) && v.attaches[t].key == key
    ensures v.hosts == s.hosts && v.links == s.links
  {
    var w := BeginLeads(r, s, t, key);
    var x, lock := FetchLeads(r, w, t);
    v := EnterLeads(r, x, t);
  }

  /** The lock that is at hand for a key, stored or new, is free if the stored one is. */
  lemma FetchLeads(r: Manager, s: Manager, t: nat) returns (v: Manager, lock: LockId)
    requires Leads(r, s) && At(s, t, Checked) && s.held.Keys <= s.lockIds
    requires s.attaches[t].key in s.locks ==> s.locks[s.attaches[t].key] !in s.held
    ensures Leads(r, v) && SameRest(s, v) && v.held == s.held && v.hosts == s.hosts && v.links == s.links
    ensures v.attaches == s.attaches[t := s.attaches[t].(phase := Waiting, lock := lock)] && lock !in v.held
  {
    var l := FreshNatAbove(s.lockIds);
    LeadsNext(r, s, GetLock(t, l));
    v := Next(s, GetLock(t, l));
    lock := v.attaches[t].lock;
  }

  /** A newcomer connects and caches its connection. */
  lemma NewcomerConnects(s: Manager, key: Key) returns (v: Manager, t: nat, d: Conn, l: LockId)
    requires Unlocked(s, key) && key !in s.hosts
    ensures Leads(s, v) && d !in s.links && v.links == s.links[d := Link(key, true, true)]
    ensures v.hosts == s.hosts[key := d] && v.unsupported == map[] && v.reapers == s.reapers
    ensures v.locks == s.locks[key := l] && v.lockIds == s.lockIds + {l} && v.held == s.held[l := t] && l !in s.held
    ensures t !in s.attaches && v.attaches == s.attaches[t := Attempt(key, 0, HasHost(d), l, false, false)]
  {
    v, t, l := NewcomerGetsIn(s, key);
    var entered := v.attaches[t];
    v := FindsNoHost(s, v, t);
    assert s.hosts - {key} == s.hosts;
    Overwrite(s.attaches, t, entered, v.attaches[t]);
    var connecting := v.attaches[t];
    v, d := OpensAndPublishes(s, v, t);
    Overwrite(s.attaches, t, connecting, v.attaches[t]);
  }

  /** A newcomer connects, caches its connection and leaves. */
  lemma NewcomerComesAndGoes(s: Manager, key: Key) returns (v: Manager, d: Conn, l: LockId)
    requires Unlocked(s, key) && key !in s.hosts
    ensures Leads(s, v) && d !in s.links && v.links == s.links[d := Link(key, true, true)]
    ensures key in v.hosts && v.hosts[key] == d && v.unsupported == map[] && v.reapers == s.reapers
    ensures v.locks == s.locks[key := l] && v.lockIds == s.lockIds + {l} && v.held == s.held && l !in s.held
    ensures forall t | t in s.attaches :: t in v.attaches && v.attaches[t] == s.attaches[t]
  {
    var w, newcomer;
    w, newcomer, d, l := NewcomerConnects(s, key);
    v := GivesUp(s, w, newcomer);
    assert s.held[l := newcomer] - {l} == s.held;
  }

  /** A stray attach that has opened a connection caches it over that of a newcomer, and it may die there. */
  lemma OpenedLeaks(s: Manager, t: nat, key: Key) returns (v: Manager)
    requires Stray(s, t, key) && s.attaches[t].phase.Opened? && key !in s.hosts && s.attaches[t].phase.conn in s.links
    ensures Leads(s, v) && TwoLive(v, key)
  {
    var c := s.attaches[t].phase.conn;
    var w, d, l := NewcomerComesAndGoes(s, key);
    var x := PublishLeads(s, w, t, c);
    v := HostHiddenLeaks(x, key, d);
    LeadsTrans(s, x, v);
  }

  /** A live connection that is not the cached one stays while another one is opened. */
  lemma HostHiddenLeaks(s: Manager, key: Key, d: Conn) returns (v: Manager)
    requires IsLive(s, d) && s.links[d].key == key && key in s.hosts && s.hosts[key] != d && s.hosts[key] in s.links
    requires key !in s.unsupported && s.held.Keys <= s.lockIds && (key in s.locks ==> s.locks[key] !in s.held)
    ensures Leads(s, v) && TwoLive(v, key)
  {
    var e;
    v := HostDies(s, key);
    var t := FreshNatAbove(s.attaches.Keys);
    v := RejoinsLock(s, v, t, key);
    v := FindsNoHost(s, v, t);
    v, e := OpensAndPublishes(s, v, t);
    assert d in v.links && e in v.links;
  }

  /** A spent attach can always run to its end. */
  lemma SpentLeaves(s: Manager, t: nat) returns (v: Manager)
    requires t in s.attaches && Spent(s.attaches[t])
    ensures Leads(s, v) && v.hosts == s.hosts && v.links == s.links && v.locks == s.locks && v.lockIds == s.lockIds
    ensures v.held == s.held - {s.attaches[t].lock}
    ensures forall u | u in s.attaches && u != t :: u in v.attaches && v.attaches[u] == s.attaches[u]
  {
    LeadsSelf(s);
    v := s;
    if v.attaches[t].phase.HasHost? {
      v := SpentStep(s, v, t, WindowFails(t));
    }
    if v.attaches[t].phase.Windowed? {
      v := SpentStep(s, v, t, ClearDirect(t));
    }
    if v.attaches[t].phase.Cleared? {
      v := SpentStep(s, v, t, Bind(t));
    }
    LeadsNext(s, v, Leave(t));
    v := Next(v, Leave(t));
  }

  lemma SpentStep(r: Manager, s: Manager, t: nat, a: Action) returns (v: Manager)
    requires Leads(r, s) && t in s.attaches && Spent(s.attaches[t]) && Enabled(s, a)
    requires a == WindowFails(t) || a == ClearDirect(t) || a == Bind(t)
    ensures Leads(r, v) && v.hosts == s.hosts && v.links == s.links && v.locks == s.locks && v.lockIds == s.lockIds
    ensures v.held == s.held && t in v.attaches && v.attaches[t].lock == s.attaches[t].lock
    ensures a.WindowFails? ==> v.attaches[t].phase.Leaving?
    ensures a.ClearDirect? ==> v.attaches[t].phase.Cleared?
    ensures a.Bind? ==> v.attaches[t].phase.Leaving?
    ensures forall u | u in s.attaches && u != t :: u in v.attaches && v.attaches[u] == s.attaches[u]
  {
    LeadsNext(r, s, a);
    v := Next(s, a);
  }

  /** An armed attach inside its lock. */
  lemma InsideLeaks(s: Manager, t: nat, key: Key) returns (v: Manager)
    requires Stray(s, t, key) && Inside(s.attaches[t].phase) && Armed(s.attaches[t]) && AttachInv(s, t)
    ensures Leads(s, v) && TwoLive(v, key)
  {
    match s.attaches[t].phase
    case Entered => v := EnteredLeaks(s, t, key);
    case Resolving => v := ResolvingLeaks(s, t, key);
    case Connecting => v := ConnectingLeaks(s, t, key);
    case Opened(c) => v := OpenedLeaks(s, t, key);
    case HasHost(c) => v := RetryLeaks(s, t, key);
    case Dropping => v := DroppingLeaks(s, t, key);
  }

  lemma WaitingLeaks(s: Manager, t: nat, key: Key) returns (v: Manager)
    requires Stray(s, t, key) && At(s, t, Waiting) && s.attaches[t].lock !in s.held && s.attaches[t].lock in s.lockIds
    ensures Leads(s, v) && TwoLive(v, key)
  {
    LeadsSelf(s);
    var w := EnterLeads(s, s, t);
    v := EnteredLeaks(w, t, key);
    LeadsTrans(s, w, v);
  }

  /** Whoever is armed on the key when its lock is deleted: the run can go on to two live connections. */
  lemma ArmedLeaks(s: Manager, r: nat) returns (v: Manager)
    requires Inv(s, false) && Enabled(s, ReapUnlock(r)) && ArmedOn(s, s.reapers[r].key)
    ensures Leads(Next(s, ReapUnlock(r)), v) && TwoLive(v, s.reapers[r].key)
  {
    var key, u := s.reapers[r].key, Next(s, ReapUnlock(r));
    var t :| t in s.attaches && s.attaches[t].key == key && Armed(s.attaches[t]);
    var lock := s.attaches[t].lock;
    assert HostInv(s, key);
    if Inside(s.attaches[t].phase) {
      assert AttachInv(s, t);
      v := InsideLeaks(u, t, key);
    } else if lock !in s.held {
      v := WaitingLeaks(u, t, key);
    } else if Spent(s.attaches[s.held[lock]]) {
      var w := SpentLeaves(u, s.held[lock]);
      v := WaitingLeaks(w, t, key);
      LeadsTrans(u, w, v);
    } else {
      assert AttachInv(s, s.held[lock]);
      assert Armed(s.attaches[s.held[lock]]);
      v := InsideLeaks(u, s.held[lock], key);
    }
  }

  lemma {:induction false} StrictRunsAreClean(s: Manager, acts: seq<Action>, strict: bool)
    requires CleanRun(s, acts, strict)
    ensures CleanRun(s, acts, false)
    decreases |acts|
  {
    if acts != [] {
      StrictRunsAreClean(Next(s, acts[0]), acts[1..], strict);
    }
  }

  ghost predicate TwoLiveAfter(s: Manager, acts: seq<Action>, key: Key) {
    Run(s, acts).Some? && TwoLive(Run(s, acts).value, key)
  }

  /**
   After a reaper has deleted the connect lock of a key, and with no further lock deleted while in
   use, the key can come to two live connections exactly when some attach of it was armed at the
   deletion. An attach past its last connection attempt does no harm.
   */
  lemma UnlockLeaksExactlyWhenArmed(s: Manager, r: nat, strict: bool)
    requires Inv(s, false) && Enabled(s, ReapUnlock(r))
    ensures (exists acts :: CleanRun(Next(s, ReapUnlock(r)), acts, strict)
                            && TwoLiveAfter(Next(s, ReapUnlock(r)), acts, s.reapers[r].key))
            <==> ArmedOn(s, s.reapers[r].key)
  {
    var u, key := Next(s, ReapUnlock(r)), s.reapers[r].key;
    if ArmedOn(s, key) {
      var v := ArmedLeaks(s, r);
      var acts :| NoUnlocks(acts) && Run(u, acts) == Some(v);
      NoUnlocksAreClean(u, acts, strict);
      assert TwoLiveAfter(u, acts, key);
    } else {
      forall acts | CleanRun(u, acts, strict)
        ensures !TwoLiveAfter(u, acts, key)
      {
        InvStep(s, ReapUnlock(r), false);
        StrictRunsAreClean(u, acts, strict);
        InvRun(u, acts, false);
        NotTwoLive(Run(u, acts).value, key);
      }
    }
  }

  lemma NotTwoLive(s: Manager, key: Key)
    requires Inv(s, false)
    ensures !TwoLive(s, key)
  {
    forall c, d | IsLive(s, c) && IsLive(s, d) && s.links[c].key == key == s.links[d].key
      ensures c == d
    {
      AtMostOneLive(s, c, d);
    }
  }

  /** A state reached without deleting locks satisfies the invariant. */
  lemma LeadsKeepsInv(r: Manager, s: Manager)
    requires Inv(r, false) && Leads(r, s)
    ensures Inv(s, false)
  {
    var acts :| NoUnlocks(acts) && Run(r, acts) == Some(s);
    NoUnlocksAreClean(r, acts, false);
    InvRun(r, acts, false);
  }

  /** A reaper that finds the cached host idle removes it. */
  lemma ReaperRemoves(r: Manager, s: Manager, key: Key) returns (v: Manager)
    requires Leads(r, s) && key in s.hosts && 0 !in s.reapers
    ensures Leads(r, v) && key !in v.hosts && 0 in v.reapers && v.reapers[0] == Reaper(key, Removed)
    ensures v.attaches == s.attaches && v.held == s.held && v.unsupported == s.unsupported
    ensures v.locks == s.locks && v.lockIds == s.lockIds
  {
    LeadsNext(r, s, ScheduleReap(0, key));
    var w := Next(s, ScheduleReap(0, key));
    LeadsNext(r, w, ReapCheck(0, true));
    var x := Next(w, ReapCheck(0, true));
    LeadsNext(r, x, ReapRemove(0));
    v := Next(x, ReapRemove(0));
  }

  /** Attach, close, reap, and attach again before the lock is deleted. */
  lemma LateAttach(r: Manager, key: Key) returns (s: Manager)
    requires Unlocked(r, key) && key !in r.hosts && 0 !in r.reapers && r.held == map[]
    ensures Leads(r, s) && Enabled(s, ReapUnlock(0)) && s.reapers[0].key == key && ArmedOn(s, key)
  {
    var w, d, l := NewcomerComesAndGoes(r, key);
    var x := ReaperRemoves(r, w, key);
    s := ArrivesLate(r, x, key);
  }

  /** An attach that comes while a reaper is about to delete the lock. */
  lemma ArrivesLate(r: Manager, x: Manager, key: Key) returns (s: Manager)
    requires Leads(r, x) && Enabled(x, ReapUnlock(0)) && x.reapers[0].key == key
    requires key !in x.unsupported && x.held == map[]
    ensures Leads(r, s) && Enabled(s, ReapUnlock(0)) && s.reapers[0].key == key && ArmedOn(s, key)
  {
    var u := FreshNatAbove(x.attaches.Keys);
    assert x.held.Keys == {};
    s := RejoinsLock(r, x, u, key);
    assert Armed(s.attaches[u]);
  }

  /** The leak is reachable from the initial state. */
  lemma LeakIsReachable(key: Key) returns (s: Manager, v: Manager)
    ensures Leads(Init(), s) && Enabled(s, ReapUnlock(0)) && s.reapers[0].key == key
    ensures Leads(Next(s, ReapUnlock(0)), v) && TwoLive(v, key)
  {
    s := LateAttach(Init(), key);
    InvInit();
    LeadsKeepsInv(Init(), s);
    v := ArmedLeaks(s, 0);
  }

  // ---- dying connections ------------------------------------------------------------------------

  /** A connection that was opened and does not live. */
  predicate Dead(s: Manager, c: Conn) {
    c in s.links && !s.links[c].live
  }

  lemma DeadStep(s: Manager, a: Action, c: Conn)
    requires Enabled(s, a) && Dead(s, c)
    ensures Dead(Next(s, a), c)
  {
  }

  lemma {:induction false} DeadRun(s: Manager, acts: seq<Action>, c: Conn)
    requires Run(s, acts).Some? && Dead(s, c)
    ensures Dead(Run(s, acts).value, c)
    decreases |acts|
  {
    if acts != [] {
      DeadStep(s, acts[0], c);
      DeadRun(Next(s, acts[0]), acts[1..], c);
    }
  }

  /** A connection that dies is dead for good: no look into the cache finds it again, whatever comes after. */
  lemma DiedForGood(s: Manager, c: Conn, acts: seq<Action>, key: Key)
    requires Enabled(s, Die(c)) && Run(s, [Die(c)] + acts).Some?
    ensures var v := Run(s, [Die(c)] + acts).value;
            Dead(v, c) && LiveHost(v, key) != Some(c)
  {
    var all := [Die(c)] + acts;
    assert all[0] == Die(c) && all[1..] == acts;
    DeadRun(Next(s, Die(c)), acts, c);
  }

  // ---- the unsupported marks ------------------------------------------------------------------

  /** A mark set at `m` or later is present. */
  predicate Marked(s: Manager, key: Key, m: int) {
    key in s.unsupported && s.unsupported[key].markedAt >= m
  }

  lemma ClockStep(s: Manager, a: Action)
    requires Enabled(s, a)
    ensures s.now <= Next(s, a).now
    ensures !a.Begin? && !a.OpenFails? && !a.InvalidateAll? ==> Next(s, a).unsupported == s.unsupported
  {
  }

  lemma EarlyMark(s: Manager, a: Action, key: Key, m: int)
    requires Enabled(s, a) && Early(a) && Marked(s, key, m)
    requires s.unsupported[key].markedAt <= s.now < m + UNSUPPORTED_TTL
    ensures Marked(Next(s, a), key, m)
    ensures Next(s, a).unsupported[key].markedAt <= s.now
  {
  }

  /** A young mark stays, or is replaced by a younger one, until all marks are invalidated. */
  lemma MarkStep(s: Manager, a: Action, key: Key, m: int)
    requires Enabled(s, a) && Marked(s, key, m) && !a.InvalidateAll?
    requires s.unsupported[key].markedAt <= s.now < m + UNSUPPORTED_TTL
    ensures Marked(Next(s, a), key, m)
    ensures Next(s, a).unsupported[key].markedAt <= Next(s, a).now
  {
    ClockStep(s, a);
    if Early(a) {
      EarlyMark(s, a, key, m);
    }
  }

  lemma BeginMarked(s: Manager, t: nat, key: Key, sid: Sid, m: int)
    requires Enabled(s, Begin(t, key, sid)) && Marked(s, key, m) && s.now < m + UNSUPPORTED_TTL
    ensures At(Next(s, Begin(t, key, sid)), t, Done(Unsupported))
  {
  }

  /** The attaches of `key` that begin in `acts`. */
  predicate Begins(acts: seq<Action>, t: nat, key: Key) {
    exists a :: a in acts && a.Begin? && a.t == t && a.key == key
  }

  /**
   Until its mark is five minutes old or all marks are invalidated, an attach of an unsupported key
   that begins is answered Unsupported at once: beginning is its only step, so it neither fetches a
   lock nor opens a connection.
   */
  lemma {:induction false} MarkBlocksNewAttaches(s: Manager, acts: seq<Action>, key: Key, m: int, t: nat)
    requires Marked(s, key, m) && s.unsupported[key].markedAt <= s.now
    requires Run(s, acts).Some? && Run(s, acts).value.now < m + UNSUPPORTED_TTL
    requires forall a | a in acts :: !a.InvalidateAll?
    requires Begins(acts, t, key)
    ensures At(Run(s, acts).value, t, Done(Unsupported))
    ensures forall a | a in acts && OfAttach(a) && a.t == t :: a.Begin?
    decreases |acts|
  {
    var a, rest := acts[0], acts[1..];
    assert a in acts && forall b | b in rest :: b in acts;
    assert forall b | b in acts :: b == a || b in rest;
    NowGrows(Next(s, a), rest);
    ClockStep(s, a);
    if a.Begin? && a.t == t && a.key == key {
      BeginMarked(s, t, key, a.sid, m);
      DoneStays(Next(s, a), rest, t, Unsupported);
    } else {
      MarkStep(s, a, key, m);
      var b :| b in acts && b.Begin? && b.t == t && b.key == key;
      assert b in rest;
      MarkBlocksNewAttaches(Next(s, a), rest, key, m, t);
      if OfAttach(a) && a.t == t {
        ActorIsKnown(s, a);
        AttachStays(s, a, t);
        BegunOnce(Next(s, a), rest, t);
      }
    }
  }

  /** A beginning attach is answered at once exactly if its key was marked less than 300 seconds ago. */
  lemma MarkAnswers(s: Manager, t: nat, key: Key, sid: Sid)
    requires Enabled(s, Begin(t, key, sid))
    ensures var v := Next(s, Begin(t, key, sid));
            var young := key in s.unsupported && s.now - s.unsupported[key].markedAt < 300;
            && (if young then At(v, t, Done(Unsupported)) else At(v, t, Checked))
            && (if young then v.unsupported == s.unsupported else v.unsupported == s.unsupported - {key})
  {
    if key !in s.unsupported {
      assert s.unsupported - {key} == s.unsupported;
    }
  }

  /**
   A refusal is remembered. Once the remote side refuses control mode to an attach of a key, then in
   every continuation under 300 seconds, until all marks are invalidated, every attach of that key that
   begins is answered Unsupported and takes no other step.
   */
  lemma RefusalBlocksNewAttaches(s: Manager, refused: nat, reason: string, acts: seq<Action>, t: nat)
    requires Enabled(s, OpenFails(refused, reason)) && Run(s, [OpenFails(refused, reason)] + acts).Some?
    requires Run(s, [OpenFails(refused, reason)] + acts).value.now < s.now + 300
    requires forall a | a in acts :: !a.InvalidateAll?
    requires Begins(acts, t, s.attaches[refused].key)
    ensures At(Run(s, [OpenFails(refused, reason)] + acts).value, t, Done(Unsupported))
    ensures forall a | a in acts && OfAttach(a) && a.t == t :: a.Begin?
  {
    var all := [OpenFails(refused, reason)] + acts;
    assert all[0] == OpenFails(refused, reason) && all[1..] == acts;
    MarkBlocksNewAttaches(Next(s, OpenFails(refused, reason)), acts, s.attaches[refused].key, s.now, t);
  }

  lemma AttachStays(s: Manager, a: Action, t: nat)
    requires Enabled(s, a) && (t in s.attaches || (a.Begin? && a.t == t))
    ensures t in Next(s, a).attaches
  {
    if !(OfAttach(a) && a.t == t) {
      OtherAttach(s, a, t);
    }
  }

  lemma ActorIsKnown(s: Manager, a: Action)
    requires Enabled(s, a) && OfAttach(a)
    ensures a.Begin? || a.t in s.attaches
  {
  }

  /** An attach that is known does not begin again. */
  lemma {:induction false} BegunOnce(s: Manager, acts: seq<Action>, t: nat)
    requires Run(s, acts).Some? && t in s.attaches
    ensures forall a | a in acts && a.Begin? :: a.t != t
    decreases |acts|
  {
    if acts != [] {
      assert forall b | b in acts :: b == acts[0] || b in acts[1..];
      AttachStays(s, acts[0], t);
      BegunOnce(Next(s, acts[0]), acts[1..], t);
    }
  }

  lemma {:induction false} NowGrows(s: Manager, acts: seq<Action>)
    requires Run(s, acts).Some?
    ensures s.now <= Run(s, acts).value.now
    decreases |acts|
  {
    if acts != [] {
      ClockStep(s, acts[0]);
      NowGrows(Next(s, acts[0]), acts[1..]);
    }
  }

  lemma {:induction false} DoneStays(s: Manager, acts: seq<Action>, t: nat, o: Outcome)
    requires Run(s, acts).Some? && At(s, t, Done(o))
    ensures At(Run(s, acts).value, t, Done(o))
    ensures forall a | a in acts && OfAttach(a) :: a.t != t
    decreases |acts|
  {
    if acts != [] {
      assert forall b | b in acts :: b == acts[0] || b in acts[1..];
      if !(OfAttach(acts[0]) && acts[0].t == t) {
        OtherAttach(s, acts[0], t);
      }
      DoneStays(Next(s, acts[0]), acts[1..], t, o);
    }
  }
}
