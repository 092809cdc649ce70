/** The web-terminal registry: at most one terminal session per VM (the
    registry is a map keyed by VM id), a wrap-around port allocator, the
    start / reuse / stop operations, access checks and the idle sweep. The
    terminal process itself is outside the model: whether it is still alive
    is a flag of the session, whether the terminal program is installed and
    whether spawning it raised are inputs. */
module Terminal {
  import opened Wrappers
  import opened Records
  import opened Seqs
  import opened Text

  datatype Session = Session(
    sessionId: string,
    vmId: int,
    userId: int,
    port: int,
    token: string,
    createdAt: int,
    lastActivity: int,
    alive: bool)

  /** A session is expired when its process has died or when it has been idle
      for strictly longer than the timeout. */
  predicate IsExpired(s: Session, timeoutMinutes: int, now: int) {
    !s.alive || now - s.lastActivity > timeoutMinutes * 60
  }

  datatype Manager = Manager(basePort: int, sessions: map<int, Session>, portCounter: int, timeoutMinutes: int)

  /** The pool the allocator wraps around in is `basePort .. basePort + PoolSpan`. */
  const PoolSpan := 1000
  const DefaultBasePort := 7681
  const DefaultTimeoutMinutes := 30

  function NewManager(basePort: int): (m: Manager)
    ensures Valid(m) && m.sessions == map[]
  {
    Manager(basePort, map[], basePort, DefaultTimeoutMinutes)
  }

  function UsedPorts(sessions: map<int, Session>): set<int> {
    set k | k in sessions :: sessions[k].port
  }

  /** The registry's invariant: the counter never drops below the base port,
      each session is filed under its own VM, and no two sessions share a port. */
  ghost predicate Valid(m: Manager) {
    && m.basePort <= m.portCounter
    && (forall k :: k in m.sessions ==> m.sessions[k].vmId == k)
    && (forall k1, k2 :: k1 in m.sessions && k2 in m.sessions && k1 != k2 ==> m.sessions[k1].port != m.sessions[k2].port)
  }

  predicate InPool(basePort: int, p: int) {
    basePort <= p <= basePort + PoolSpan
  }

  /** The allocator's scan ends: either the counter itself is free or some
      port of the pool is. (With every pool port taken and the counter taken
      too, the scan in the source never ends.) */
  predicate CanAllocate(sessions: map<int, Session>, basePort: int, counter: int) {
    counter !in UsedPorts(sessions)
    || exists p :: basePort <= p <= basePort + PoolSpan && p !in UsedPorts(sessions)
  }

  /** One step of the allocator's scan: the next port, back to the base port
      once past the end of the pool. */
  function ScanStep(basePort: int, c: int): int {
    if c + 1 > basePort + PoolSpan then basePort else c + 1
  }

  /** The port the scan looks at after `n` steps from `c`. */
  function ScanAfter(basePort: int, c: int, n: nat): int
    decreases n
  {
    if n == 0 then c else ScanAfter(basePort, ScanStep(basePort, c), n - 1)
  }

  /** As written, the scan of `_get_next_port` never ends when the counter
      and every pool port are taken: however many steps it makes, the port it
      looks at is still held by a session, so its loop condition stays true. */
  lemma {:induction false} ScanStuckWhenPoolFull(sessions: map<int, Session>, basePort: int, counter: int, n: nat)
    requires basePort <= counter
    requires !CanAllocate(sessions, basePort, counter)
    ensures ScanAfter(basePort, counter, n) in UsedPorts(sessions)
    decreases n
  {
    if n > 0 {
      var next := ScanStep(basePort, counter);
      assert InPool(basePort, next);
      ScanStuckWhenPoolFull(sessions, basePort, next, n - 1);
    }
  }

  /** `_get_next_port`: scans upwards from the counter for a port no session
      holds, wrapping to the base port once the counter passes the end of the
      pool, returns it, and leaves the counter just past it. */
  method NextPort(m: Manager) returns (port: int, m': Manager)
    requires m.basePort <= m.portCounter
    requires CanAllocate(m.sessions, m.basePort, m.portCounter)
    ensures port !in UsedPorts(m.sessions)
    ensures m' == m.(portCounter := port + 1)
    ensures m.portCounter !in UsedPorts(m.sessions) ==> port == m.portCounter
    ensures m.portCounter in UsedPorts(m.sessions) ==> InPool(m.basePort, port)
    ensures m.portCounter <= port ==> forall p :: m.portCounter <= p < port ==> p in UsedPorts(m.sessions)
    ensures port < m.portCounter ==>
              && (forall p :: m.portCounter <= p <= m.basePort + PoolSpan ==> p in UsedPorts(m.sessions))
              && (forall p :: m.basePort <= p < port ==> p in UsedPorts(m.sessions))
  {
    var used := UsedPorts(m.sessions);
    var base := m.basePort;
    var c := m.portCounter;
    if c in used {
      ghost var f :| InPool(base, f) && f !in used;
      ghost var wrapped := false;
      while c in used
        invariant InPool(base, f) && f !in used
        invariant base <= c
        invariant c != m.portCounter ==> c <= base + PoolSpan
        invariant !wrapped ==> m.portCounter <= c && forall p :: m.portCounter <= p < c ==> p in used
        invariant wrapped ==> && c <= f
                              && (forall p :: m.portCounter <= p <= base + PoolSpan ==> p in used)
                              && (forall p :: base <= p < c ==> p in used)
        invariant wrapped ==> c < m.portCounter
        decreases if c <= f then f - c else if c <= base + PoolSpan then f + PoolSpan + 1 - c else f - base + 1
      {
        wrapped := wrapped || c + 1 > base + PoolSpan;
        c := ScanStep(base, c);
      }
    }
    port := c;
    m' := m.(portCounter := port + 1);
  }

  /** The image of a map has no more elements than the map has keys. */
  lemma {:induction false} UsedPortsBounded(sessions: map<int, Session>)
    ensures |UsedPorts(sessions)| <= |sessions|
    decreases |sessions|
  {
    if |sessions| > 0 {
      var k := Member(sessions.Keys);
      var rest := sessions - {k};
      UsedPortsBounded(rest);
      forall q | q in UsedPorts(sessions)
        ensures q in UsedPorts(rest) + {sessions[k].port}
      {
        var j :| j in sessions && sessions[j].port == q;
        if j != k {
          assert j in rest;
        }
      }
      SubsetCardinality(UsedPorts(sessions), UsedPorts(rest) + {sessions[k].port});
    }
  }

  /** The ports `lo .. hi`. */
  function {:induction false} PortRange(lo: int, hi: int): (r: set<int>)
    requires lo <= hi + 1
    ensures forall p :: p in r <==> lo <= p <= hi
    ensures |r| == hi - lo + 1
    decreases hi - lo + 1
  {
    if lo > hi then {} else PortRange(lo, hi - 1) + {hi}
  }

  /** With at most `PoolSpan` sessions, some port of the pool is free, so the
      allocator's scan always ends. */
  lemma FewSessionsCanAllocate(sessions: map<int, Session>, basePort: int, counter: int)
    requires |sessions| <= PoolSpan
    ensures CanAllocate(sessions, basePort, counter)
  {
    UsedPortsBounded(sessions);
    var pool := PortRange(basePort, basePort + PoolSpan);
    if pool <= UsedPorts(sessions) {
      SubsetCardinality(pool, UsedPorts(sessions));
      assert false;
    }
    var p :| p in pool && p !in UsedPorts(sessions);
    assert basePort <= p <= basePort + PoolSpan;
  }

  // ---------------------------------------------------------------- events

  /** `_log_terminal_event`: one "terminal" event of the user on the VM. */
  function LogTerminalEvent(db: Db, user: User, vm: Vm, severity: string, message: string, details: Details, now: int): (r: Db)
    ensures |r.events| == |db.events| + 1 && r.events[..|db.events|] == db.events
    ensures r.events[|db.events|].eventType == "terminal" && r.events[|db.events|].severity == severity
    ensures r.events[|db.events|].userId == Some(user.id) && r.events[|db.events|].vmId == Some(vm.id)
    ensures r.users == db.users && r.vms == db.vms
  {
    var (db', e) := AddEvent(db, "terminal", severity, message, Some(user.id), Some(vm.id), details, now);
    assert db'.events[..|db.events|] == db.events;
    db'
  }

  // ---------------------------------------------------------------- stop

  datatype Stopped = Stopped(db: Db, m: Manager, ok: bool)

  /** `stop_terminal_session`: an unknown VM id changes nothing and answers
      false; otherwise exactly that session is removed (its process is
      terminated outside the model), an event is logged when the VM still
      exists, and the answer is true. */
  function StopSession(db: Db, m: Manager, vmId: int, user: User, now: int): (r: Stopped)
    ensures r.ok <==> vmId in m.sessions
    ensures !r.ok ==> r.db == db && r.m == m
    ensures r.ok ==> r.m == m.(sessions := m.sessions - {vmId})
    ensures r.db.users == db.users && r.db.vms == db.vms
    ensures |r.db.events| == |db.events| + (if r.ok && vmId in db.vms then 1 else 0)
    ensures r.db.events[..|db.events|] == db.events
    ensures Valid(m) ==> Valid(r.m)
  {
    if vmId !in m.sessions then Stopped(db, m, false)
    else
      var session := m.sessions[vmId];
      var m' := m.(sessions := m.sessions - {vmId});
      if vmId in db.vms then
        var vm := db.vms[vmId];
        var db' := LogTerminalEvent(db, user, vm, "info", "Stopped terminal session for VM " + vm.name,
                                    map["session_id" := VStr(session.sessionId)], now);
        Stopped(db', m', true)
      else
        Stopped(db, m', true)
  }

  /** Stopping leaves every other session exactly as it was. */
  lemma StopSessionOthersUntouched(db: Db, m: Manager, vmId: int, user: User, now: int, k: int)
    requires k != vmId
    ensures k in StopSession(db, m, vmId, user, now).m.sessions <==> k in m.sessions
    ensures k in m.sessions ==> StopSession(db, m, vmId, user, now).m.sessions[k] == m.sessions[k]
    ensures vmId !in StopSession(db, m, vmId, user, now).m.sessions
  {
  }

  // ---------------------------------------------------------------- start

  /** The allocation on the start path can finish: the VM's own session (if
      any) is dropped before the scan. */
  predicate StartCanAllocate(m: Manager, vm: Vm, ttydInstalled: bool, sshReady: bool) {
    vm.status == "running" && ttydInstalled && sshReady && !(vm.id in m.sessions && m.sessions[vm.id].alive)
    ==> CanAllocate(m.sessions - {vm.id}, m.basePort, m.portCounter)
  }

  /** The second half of `start_terminal_session`, once the VM is known to
      be running and has no session: refuse when the terminal program is
      missing or no SSH command can be derived for the VM (`sshReady`),
      otherwise allocate a port, spawn the process and file the new
      session under the VM. A spawn that raises yields no session, with the
      port counter already advanced. */
  method LaunchSession(
    db: Db, m: Manager, vm: Vm, user: User, ttydInstalled: bool, sshReady: bool,
    token: string, sessionId: string, spawnError: Option<string>, now: int)
    returns (db': Db, m': Manager, r: Option<Session>)
    requires Valid(m) && vm.id !in m.sessions
    requires ttydInstalled && sshReady ==> CanAllocate(m.sessions, m.basePort, m.portCounter)
    ensures Valid(m')
    ensures r.None? ==> m'.sessions == m.sessions
    ensures r.Some? ==> && m'.sessions == m.sessions[vm.id := r.value]
                        && r.value.vmId == vm.id && r.value.userId == user.id
                        && r.value.token == token && r.value.alive
                        && r.value.port !in UsedPorts(m.sessions)
    ensures r.Some? <==> ttydInstalled && sshReady && spawnError.None?
    ensures |db'.events| == |db.events| + 1 && db'.events[..|db.events|] == db.events
    ensures db'.events[|db.events|].severity == (if r.Some? then "info" else "critical")
    ensures db'.users == db.users && db'.vms == db.vms
  {
    if !ttydInstalled {
      db' := LogTerminalEvent(db, user, vm, "critical", "Failed to start terminal - ttyd not installed", map[], now);
      m' := m;
      r := None;
      return;
    }
    if !sshReady {
      db' := LogTerminalEvent(db, user, vm, "critical",
                              "Failed to start terminal for VM " + vm.name + " - SSH command unavailable", map[], now);
      m' := m;
      r := None;
      return;
    }
    var port, m2 := NextPort(m);
    if spawnError.Some? {
      db' := LogTerminalEvent(db, user, vm, "critical",
                              "Exception starting terminal session: " + spawnError.value, map[], now);
      m' := m2;
      r := None;
      return;
    }
    var session := Session(sessionId, vm.id, user.id, port, token, now, now, true);
    forall k | k in m.sessions
      ensures m.sessions[k].port != port
    {
      assert m.sessions[k].port in UsedPorts(m.sessions);
    }
    m' := m2.(sessions := m2.sessions[vm.id := session]);
    db' := LogTerminalEvent(db, user, vm, "info",
                            "Started terminal session for VM " + vm.name + " on port " + IntToString(port),
                            map["session_id" := VStr(sessionId), "port" := VInt(port)], now);
    r := Some(session);
  }

  /** `start_terminal_session`. A VM that is not running gets no terminal
      and one warning event. A live session of the VM is handed back with its
      activity refreshed. Otherwise a dead session of the VM is stopped first
      and the launch proceeds as `LaunchSession` describes. */
  method StartSession(
    db: Db, m: Manager, vm: Vm, user: User, ttydInstalled: bool, sshReady: bool,
    token: string, sessionId: string, spawnError: Option<string>, now: int)
    returns (db': Db, m': Manager, r: Option<Session>)
    requires Valid(m)
    requires StartCanAllocate(m, vm, ttydInstalled, sshReady)
    ensures Valid(m')
    ensures vm.status != "running" ==>
              && r.None? && m' == m
              && |db'.events| == |db.events| + 1
              && db'.events[|db.events|].severity == "warning"
              && db'.events[|db.events|].eventType == "terminal"
    ensures vm.status == "running" && vm.id in m.sessions && m.sessions[vm.id].alive ==>
              && r == Some(m.sessions[vm.id].(lastActivity := now))
              && m' == m.(sessions := m.sessions[vm.id := r.value])
              && |db'.events| == |db.events| + 1
              && db'.events[|db.events|].severity == "info"
    ensures r.Some? ==> vm.id in m'.sessions && m'.sessions[vm.id] == r.value && r.value.vmId == vm.id
    ensures r.Some? && !(vm.id in m.sessions && m.sessions[vm.id].alive) ==>
              && r.value.token == token && r.value.userId == user.id && r.value.alive
              && r.value.port !in UsedPorts(m.sessions - {vm.id})
    ensures r.None? ==> m'.sessions == m.sessions || m'.sessions == m.sessions - {vm.id}
    ensures forall k :: k != vm.id ==> (k in m'.sessions <==> k in m.sessions)
    ensures forall k :: k != vm.id && k in m.sessions ==> m'.sessions[k] == m.sessions[k]
    ensures vm.status == "running" && !(vm.id in m.sessions && m.sessions[vm.id].alive) ==>
              (r.Some? <==> ttydInstalled && sshReady && spawnError.None?)
    ensures db'.users == db.users && db'.vms == db.vms
  {
    if vm.status != "running" {
      db' := LogTerminalEvent(db, user, vm, "warning",
                              "Failed to start terminal for VM " + vm.name + " - VM not running", map[], now);
      m' := m;
      r := None;
      return;
    }
    var m1 := m;
    var db1 := db;
    if vm.id in m.sessions {
      var existing := m.sessions[vm.id];
      if existing.alive {
        var refreshed := existing.(lastActivity := now);
        m' := m.(sessions := m.sessions[vm.id := refreshed]);
        db' := LogTerminalEvent(db, user, vm, "info",
                                "Reconnected to existing terminal session for VM " + vm.name, map[], now);
        r := Some(refreshed);
        return;
      }
      var stopped := StopSession(db, m, vm.id, user, now);
      db1, m1 := stopped.db, stopped.m;
    } else {
      assert m.sessions - {vm.id} == m.sessions;
    }
    db', m', r := LaunchSession(db1, m1, vm, user, ttydInstalled, sshReady, token, sessionId, spawnError, now);
  }

  // ---------------------------------------------------------------- access

  /** `verify_session_access`: granted iff the VM has a session, the
      requester is its user or an admin, and the token is either empty (no
      check) or the session's; a grant refreshes the session's activity. */
  function VerifyAccess(m: Manager, vmId: int, user: User, token: string, now: int): (r: (Manager, bool))
    ensures r.1 <==> && vmId in m.sessions
                     && (m.sessions[vmId].userId == user.id || user.isAdmin)
                     && (token == "" || m.sessions[vmId].token == token)
    ensures !r.1 ==> r.0 == m
    ensures r.1 ==> r.0 == m.(sessions := m.sessions[vmId := m.sessions[vmId].(lastActivity := now)])
    ensures Valid(m) ==> Valid(r.0)
  {
    if vmId !in m.sessions then (m, false)
    else
      var s := m.sessions[vmId];
      if s.userId != user.id && !user.isAdmin then (m, false)
      else if token != "" && s.token != token then (m, false)
      else (m.(sessions := m.sessions[vmId := s.(lastActivity := now)]), true)
  }

  /** A user who is neither the session's owner nor an admin is always
      refused, whatever token is offered. */
  lemma StrangerDenied(m: Manager, vmId: int, user: User, token: string, now: int)
    requires vmId in m.sessions && m.sessions[vmId].userId != user.id && !user.isAdmin
    ensures !VerifyAccess(m, vmId, user, token, now).1
  {
  }

  // ---------------------------------------------------------------- listing

  /** `list_active_sessions`: every session for an admin or when no user is
      given, otherwise only the user's own. */
  function ListActive(m: Manager, user: Option<User>): (r: set<Session>)
    ensures forall s :: s in r <==> s in m.sessions.Values && (user.None? || user.value.isAdmin || s.userId == user.value.id)
  {
    set s | s in m.sessions.Values && (user.None? || user.value.isAdmin || s.userId == user.value.id)
  }

  /** A user's listing is part of what an admin sees. */
  lemma ListActiveWithinAdminView(m: Manager, user: User)
    ensures ListActive(m, Some(user)) <= ListActive(m, None)
    ensures ListActive(m, None) == m.sessions.Values
  {
  }

  // ---------------------------------------------------------------- sweeps

  /** The sessions the sweep can remove: the chosen ones whose user exists. */
  function Removable(db: Db, m: Manager, keys: set<int>): set<int> {
    set k | k in keys && k in m.sessions && m.sessions[k].userId in db.users
  }

  /** Taking one more key into account adds it to the removable set exactly
      when its session's user exists. */
  lemma RemovableStep(db: Db, m: Manager, done: set<int>, k: int)
    requires k in m.sessions && k !in done
    ensures m.sessions[k].userId in db.users ==> Removable(db, m, done + {k}) == Removable(db, m, done) + {k}
    ensures m.sessions[k].userId !in db.users ==> Removable(db, m, done + {k}) == Removable(db, m, done)
    ensures k !in Removable(db, m, done)
  {
  }

  /** The registry and the log while the sweep is running: `removed` gone
      from the registry, the log only grown. */
  ghost predicate SweepState(db0: Db, m0: Manager, db: Db, m: Manager, removed: set<int>) {
    && m == m0.(sessions := m0.sessions - removed)
    && db.users == db0.users && db.vms == db0.vms
    && |db.events| >= |db0.events| && db.events[..|db0.events|] == db0.events
  }

  /** Stopping one more session of the original registry keeps the sweep's
      bookkeeping. */
  lemma SweepStep(db0: Db, m0: Manager, db: Db, m: Manager, removed: set<int>, k: int, user: User, now: int)
    requires SweepState(db0, m0, db, m, removed)
    requires k in m0.sessions && k !in removed
    ensures SweepState(db0, m0, StopSession(db, m, k, user, now).db, StopSession(db, m, k, user, now).m, removed + {k})
    ensures |removed + {k}| == |removed| + 1
  {
    var st := StopSession(db, m, k, user, now);
    assert (m0.sessions - removed) - {k} == m0.sessions - (removed + {k});
    assert st.db.events[..|db0.events|] == db0.events by {
      assert st.db.events[..|db.events|] == db.events;
    }
  }

  /** Stops, one by one, each session among `keys` whose user exists, and
      counts the stops. */
  method StopEach(db: Db, m: Manager, keys: set<int>, now: int) returns (db': Db, m': Manager, count: nat)
    requires keys <= m.sessions.Keys
    ensures m' == m.(sessions := m.sessions - Removable(db, m, keys))
    ensures count == |Removable(db, m, keys)|
    ensures db'.users == db.users && db'.vms == db.vms
    ensures |db'.events| >= |db.events| && db'.events[..|db.events|] == db.events
  {
    var todo := keys;
    ghost var done: set<int> := {};
    ghost var removed: set<int> := {};
    db', m', count := db, m, 0;
    while todo != {}
      invariant done + todo == keys && done !! todo
      invariant removed == Removable(db, m, done)
      invariant SweepState(db, m, db', m', removed)
      invariant count == |removed|
      decreases |todo|
    {
      ghost var w := Member(todo);
      var k :| k in todo;
      var session := m'.sessions[k];
      RemovableStep(db, m, done, k);
      if session.userId in db'.users {
        var user := db'.users[session.userId];
        SweepStep(db, m, db', m', removed, k, user, now);
        var stopped := StopSession(db', m', k, user, now);
        db', m' := stopped.db, stopped.m;
        removed := removed + {k};
        count := count + 1;
      }
      done := done + {k};
      todo := todo - {k};
    }
  }

  function ExpiredKeys(m: Manager, now: int): (r: set<int>)
    ensures r <= m.sessions.Keys
  {
    set k | k in m.sessions && IsExpired(m.sessions[k], m.timeoutMinutes, now)
  }

  /** `cleanup_expired_sessions`: removes exactly the expired sessions whose
      user still exists and returns how many it removed. */
  method CleanupExpiredSessions(db: Db, m: Manager, now: int) returns (db': Db, m': Manager, cleaned: nat)
    requires Valid(m)
    ensures Valid(m')
    ensures forall k :: k in m'.sessions <==>
              k in m.sessions && !(IsExpired(m.sessions[k], m.timeoutMinutes, now) && m.sessions[k].userId in db.users)
    ensures forall k :: k in m'.sessions ==> m'.sessions[k] == m.sessions[k]
    ensures cleaned == |m.sessions.Keys - m'.sessions.Keys|
    ensures m'.portCounter == m.portCounter
  {
    db', m', cleaned := StopEach(db, m, ExpiredKeys(m, now), now);
    assert m.sessions.Keys - m'.sessions.Keys == Removable(db, m, ExpiredKeys(m, now));
  }

  /** `stop_all_sessions`: stops every session whose user still exists. */
  method StopAllSessions(db: Db, m: Manager, now: int) returns (db': Db, m': Manager, stopped: nat)
    requires Valid(m)
    ensures Valid(m')
    ensures forall k :: k in m'.sessions <==> k in m.sessions && m.sessions[k].userId !in db.users
    ensures stopped == |m.sessions.Keys - m'.sessions.Keys|
  {
    db', m', stopped := StopEach(db, m, m.sessions.Keys, now);
    assert m.sessions.Keys - m'.sessions.Keys == Removable(db, m, m.sessions.Keys);
  }
}
