/**
 What each session call, taken as a whole, leaves in the database and of the containers: what it changes, and that
 it changes nothing else.
 */
module SessionOutcomes {
  import opened Options
  import opened SessionModel
  import opened SessionCalls

  /** Nothing but this row, and no container but this row's, is different. */
  ghost predicate OnlyRow(db: Db, after: Db, s: SessionId) {
    && after.rows.Keys == db.rows.Keys && (forall x | x in db.rows && x != s :: after.rows[x] == db.rows[x])
    && db.containers - ContainerOf(db.rows, s) <= after.containers <= db.containers
  }

  // ---------------------------------------------------------------------------------------------
  // Start, stop, check
  // ---------------------------------------------------------------------------------------------

  /**
   A stop takes effect exactly for the owner of a session whose container, if it names one, can be removed; then
   the session is abandoned, its container gone, and nothing else different.
   */
  lemma StopLeaves(db: Db, s: SessionId, user: UserId, stuck: set<ContainerId>)
    ensures
      var after := StopBy(db, s, user, Abandoned, stuck);
      if s in db.rows && db.rows[s].user == user
           && (db.rows[s].container.Some? ==> db.rows[s].container.value !in stuck)
      then
        && OnlyRow(db, after, s) && after.rows[s] == db.rows[s].(status := Abandoned)
        && (db.rows[s].container.Some? ==> db.rows[s].container.value !in after.containers)
        && after.attempts == db.attempts && after.progress == db.progress
      else after == db
  {
    if s in db.rows && db.rows[s].container.Some? && db.rows[s].container.value in stuck {
      assert db.rows[s].container.value in ContainerOf(db.rows, s) * stuck;
    }
  }

  /** The new row, and nothing else, whatever creating the container gave. */
  lemma LaunchLeaves(db: Db, user: UserId, ch: ChallengeId, s: SessionId, k: Option<ContainerId>, now: nat)
    requires s !in db.rows
    ensures Launch(db, user, ch, s, k, now)
      == db.(rows := db.rows[s := Row(user, ch, k, if k.Some? then Running else Error, 0, now, None)],
             containers := db.containers + if k.Some? then {k.value} else {})
  {
  }

  /**
   A start below the cap whose prior session, if there is one, can be stopped: that one is abandoned and its
   container gone; the new row is running in its new container, or in error with none when launching failed.
   */
  lemma StartLeaves(db: Db, cap: nat, user: UserId, ch: ChallengeId, prior: Option<SessionId>, s: SessionId,
      k: Option<ContainerId>, now: nat, stuck: set<ContainerId>)
    requires s !in db.rows && |ActiveIds(db.rows)| < cap
    requires prior.Some? ==> prior.value in db.rows && ContainerOf(db.rows, prior.value) !! stuck
    ensures
      var stopped := if prior.Some? then ContainerOf(db.rows, prior.value) else {};
      var created := if k.Some? then {k.value} else {};
      var rows := if prior.Some? then db.rows[prior.value := db.rows[prior.value].(status := Abandoned)] else db.rows;
      Start(db, cap, user, ch, prior, s, k, now, stuck)
      == db.(rows := rows[s := Row(user, ch, k, if k.Some? then Running else Error, 0, now, None)],
             containers := db.containers - stopped + created)
  {
    var between := if prior.Some? then Stop(db, prior.value, Abandoned, stuck) else db;
    LaunchLeaves(between, user, ch, s, k, now);
  }

  ghost predicate ActiveOf(rows: Rows, user: UserId, x: SessionId) {
    x in rows && rows[x].user == user && IsActive(rows[x].status)
  }

  lemma NewRowAlone(rows: Rows, user: UserId, prior: Option<SessionId>, s: SessionId, r: Row, after: Rows)
    requires s !in rows && r.user == user && (prior.Some? ==> prior.value in rows)
    requires forall x: SessionId | ActiveOf(rows, user, x) :: prior == Some(x)
    requires after
      == (if prior.Some? then rows[prior.value := rows[prior.value].(status := Abandoned)] else rows)[s := r]
    ensures forall x: SessionId :: ActiveOf(after, user, x) <==> x == s && IsActive(r.status)
  {
    forall x: SessionId | ActiveOf(after, user, x)
      ensures x == s
    {
      assert x != s && prior != Some(x) ==> ActiveOf(rows, user, x);
    }
  }

  /** So when the prior session was the user's only active one, the new one is, or none if launching failed. */
  lemma StartLeavesOneActive(db: Db, cap: nat, user: UserId, ch: ChallengeId, prior: Option<SessionId>, s: SessionId,
      k: Option<ContainerId>, now: nat, stuck: set<ContainerId>)
    requires s !in db.rows && |ActiveIds(db.rows)| < cap
    requires prior.Some? ==> prior.value in db.rows && ContainerOf(db.rows, prior.value) !! stuck
    requires forall x: SessionId | ActiveOf(db.rows, user, x) :: prior == Some(x)
    ensures forall x: SessionId ::
      ActiveOf(Start(db, cap, user, ch, prior, s, k, now, stuck).rows, user, x) <==> x == s && k.Some?
  {
    StartLeaves(db, cap, user, ch, prior, s, k, now, stuck);
    NewRowAlone(db.rows, user, prior, s, Row(user, ch, k, if k.Some? then Running else Error, 0, now, None),
      Start(db, cap, user, ch, prior, s, k, now, stuck).rows);
  }

  /** A start at the cap, or whose user's session cannot be stopped, changes nothing. */
  lemma RefusedStartLeavesAll(db: Db, cap: nat, user: UserId, ch: ChallengeId, prior: Option<SessionId>,
      s: SessionId, k: Option<ContainerId>, now: nat, stuck: set<ContainerId>)
    requires s !in db.rows
    ensures Start(db, cap, user, ch, prior, s, k, now, stuck) == db
       <==> |ActiveIds(db.rows)| >= cap
            || (prior.Some? && (prior.value !in db.rows || ContainerOf(db.rows, prior.value) * stuck != {}))
  {
    var after := Start(db, cap, user, ch, prior, s, k, now, stuck);
    if |ActiveIds(db.rows)| < cap && (prior.None? || !StopThrows(db, prior.value, stuck)) {
      assert s in after.rows;
    }
  }

  /**
   A check by anybody but the owner, or of a session without a container, changes nothing. One whose script could
   not be run leaves the session checking. One that answered leaves it solved at that time or running, by the
   answer, its attempt with the answer, and the count and flag of the owner's progress; nothing else is different.
   */
  lemma CheckLeaves(db: Db, s: SessionId, user: UserId, result: Option<bool>, now: nat, later: nat)
    ensures
      var after := CheckOf(db, s, user, result, now, later);
      if s !in db.rows || db.rows[s].user != user || db.rows[s].container.None? then after == db
      else
        && OnlyRow(db, after, s) && after.containers == db.containers
        && match result
           case None =>
             after.rows[s] == db.rows[s].(status := Checking)
               && after.attempts == db.attempts && after.progress == db.progress
           case Some(passed) =>
             var key := (user, db.rows[s].challenge);
             && after.rows[s].status == (if passed then Solved else Running)
             && after.rows[s].solvedAt == (if passed then Some(now) else db.rows[s].solvedAt)
             && after.rows[s] == db.rows[s].(status := after.rows[s].status, solvedAt := after.rows[s].solvedAt)
             && after.attempts == db.attempts + [Attempt(s, passed)]
             && after.progress.Keys == db.progress.Keys + {key}
             && (forall x | x in db.progress && x != key :: after.progress[x] == db.progress[x])
             && var before := Lookup(db.progress, key);
             && after.progress[key].attempts == (if before.Some? then before.value.attempts else 0) + 1
             && after.progress[key].solved == (passed || (before.Some? && before.value.solved))
             && after.progress[key].hintsMax >= db.rows[s].hints && after.progress[key].lastAttemptedAt == later
  {
  }

  // ---------------------------------------------------------------------------------------------
  // Account deletion
  // ---------------------------------------------------------------------------------------------

  lemma {:induction false} KeptAreOthers(attempts: seq<Attempt>, rows: Rows, user: UserId)
    ensures forall a :: a in AttemptsKept(attempts, rows, user) <==>
      a in attempts && !(a.session in rows && rows[a.session].user == user)
    decreases |attempts|
  {
    if attempts != [] {
      var front := attempts[..|attempts| - 1];
      KeptAreOthers(front, rows, user);
      assert attempts == front + [attempts[|attempts| - 1]];
    }
  }

  /**
   An account whose active session cannot be stopped is not deleted, nor anything else; otherwise no session,
   attempt or progress of the user is left, and everybody else's are as they were.
   */
  lemma DeletionLeavesTheOthers(db: Db, user: UserId, active: Option<SessionId>, stuck: set<ContainerId>)
    requires active.Some? ==> active.value in db.rows && db.rows[active.value].user == user
    ensures
      var after := DeleteAccount(db, user, active, stuck);
      if active.Some? && ContainerOf(db.rows, active.value) * stuck != {} then after == db
      else
        && after.rows == (map s | s in db.rows && db.rows[s].user != user :: db.rows[s])
        && after.progress == (map k | k in db.progress && k.0 != user :: db.progress[k])
        && (forall a :: a in after.attempts
              <==> a in db.attempts && !(a.session in db.rows && db.rows[a.session].user == user))
        && after.containers == db.containers - (if active.Some? then ContainerOf(db.rows, active.value) else {})
  {
    var between := if active.Some? then Stop(db, active.value, Abandoned, stuck) else db;
    KeptAreOthers(db.attempts, between.rows, user);
  }

  /** A session of the user, active or solved, that is not the one stopped and whose container is still there. */
  ghost predicate HoldsContainer(db: Db, user: UserId, active: Option<SessionId>, s: SessionId, c: ContainerId) {
    && Names(db.rows, s, c) && c in db.containers && db.rows[s].user == user && active != Some(s)
    && (IsActive(db.rows[s].status) || db.rows[s].status.Solved?)
  }

  lemma DeletionOrphans(db: Db, user: UserId, active: Option<SessionId>, s: SessionId, c: ContainerId)
    requires Tidy(db) && (active.Some? ==> active.value in db.rows && db.rows[active.value].user == user)
    requires HoldsContainer(db, user, active, s, c)
    ensures c in DeleteAccount(db, user, active, {}).containers
    ensures forall x :: !Names(DeleteAccount(db, user, active, {}).rows, x, c)
  {
    DeletionLeavesTheOthers(db, user, active, {});
    if active.Some? { OthersContainer(db, active.value, s); }
    forall x | Names(DeleteAccount(db, user, active, {}).rows, x, c)
      ensures x == s
    {
      assert Names(db.rows, x, c);
    }
  }

  lemma DeletionStaysTidy(db: Db, user: UserId, active: Option<SessionId>)
    requires Tidy(db) && (active.Some? ==> active.value in db.rows && db.rows[active.value].user == user)
    requires forall s, c :: !HoldsContainer(db, user, active, s, c)
    ensures Tidy(DeleteAccount(db, user, active, {}))
  {
    var after := DeleteAccount(db, user, active, {});
    DeletionLeavesTheOthers(db, user, active, {});
    assert forall s, c | Names(after.rows, s, c) :: Names(db.rows, s, c);
    forall c | c in after.containers
      ensures exists x :: Names(after.rows, x, c) && (IsActive(after.rows[x].status) || after.rows[x].status.Solved?)
    {
      var x :| Names(db.rows, x, c) && (IsActive(db.rows[x].status) || db.rows[x].status.Solved?);
      assert ContainerOf(db.rows, x) == {c} && !HoldsContainer(db, user, active, x, c);
      assert Names(after.rows, x, c);
    }
  }

  /**
   Deleting an account leaves no container behind without its session if and only if the user had no other active or
   solved session whose container is still there: the service stops one active session, and no solved one.
   */
  lemma DeletionKeepsTidyIff(db: Db, user: UserId, active: Option<SessionId>)
    requires Tidy(db) && (active.Some? ==> active.value in db.rows && db.rows[active.value].user == user)
    ensures Tidy(DeleteAccount(db, user, active, {})) <==> forall s, c :: !HoldsContainer(db, user, active, s, c)
  {
    if s, c :| HoldsContainer(db, user, active, s, c) {
      DeletionOrphans(db, user, active, s, c);
    } else {
      DeletionStaysTidy(db, user, active);
    }
  }

  // ---------------------------------------------------------------------------------------------
  // The reaper
  // ---------------------------------------------------------------------------------------------

  /**
   A tick, row by row: an active row whose last activity is longer ago than the timeout is expired; a solved one
   past its grace time loses its container id; in both cases the container is gone unless removing it threw.
   Every other row is as it was.
   */
  lemma ReapLeaves(db: Db, config: Config, now: nat, later: nat, stuck: set<ContainerId>, s: SessionId)
    requires s in db.rows
    ensures
      var after := Reap(db, config, now, later, stuck);
      var r := db.rows[s];
      var idle := IsActive(r.status) && now > r.activity + config.idleMs;
      var overdue := r.status.Solved? && r.container.Some? && r.solvedAt.Some?
        && later > r.solvedAt.value + config.solvedGraceMs;
      && after.rows.Keys == db.rows.Keys
      && after.rows[s] == (if idle then r.(status := Expired) else if overdue then r.(container := None) else r)
      && (idle || overdue ==> ContainerOf(db.rows, s) * after.containers <= stuck)
      && after.attempts == db.attempts && after.progress == db.progress
  {
    var idleIds := IdleIds(db.rows, now, config.idleMs);
    var first := SweepOf(db, Idle, idleIds, stuck);
    var overdueIds := OverdueIds(first.rows, later, config.solvedGraceMs);
    assert s in idleIds ==> ContainerOf(db.rows, s) <= Named(db.rows, idleIds);
    assert s in overdueIds ==> ContainerOf(db.rows, s) <= Named(first.rows, overdueIds);
  }

  /** In a tidy database a tick spares every row that deserves its container: the row and the container stay. */
  lemma ReapSparesTheDeserving(db: Db, config: Config, now: nat, later: nat, stuck: set<ContainerId>, s: SessionId)
    requires Tidy(db) && s in db.rows && Deserves(db.rows[s], config, now, later)
    ensures
      var after := Reap(db, config, now, later, stuck);
      && s in after.rows && after.rows[s] == db.rows[s]
      && ContainerOf(db.rows, s) * db.containers <= after.containers
  {
    ReapLeaves(db, config, now, later, stuck, s);
    var idleIds := IdleIds(db.rows, now, config.idleMs);
    var first := SweepOf(db, Idle, idleIds, stuck);
    var overdueIds := OverdueIds(first.rows, later, config.solvedGraceMs);
    forall x | x in idleIds + overdueIds
      ensures ContainerOf(db.rows, x) !! ContainerOf(db.rows, s)
    {
      if c :| c in ContainerOf(db.rows, x) && c in ContainerOf(db.rows, s) {
        assert Names(db.rows, x, c) && Names(db.rows, s, c);
      }
    }
  }

  /** A call that does not stop, check or drain this session, and no tick later than its activity at `t` allows. */
  ghost predicate Spares(c: SessionCalls.Call, s: SessionId, t: nat, idleMs: nat) {
    match c
    case CallStart(_, _, prior, _, _, _) => prior != Some(s)
    case CallStop(x, _) => x != s
    case CallCheck(x, _, _, _, _) => x != s
    case CallHeartbeat(x, _, now) => x == s ==> t <= now
    case CallReap(now, _) => now <= t + idleMs
    case CallDrain => false
  }

  /** What a session keeps under such calls. */
  ghost predicate StillThere(db: Db, after: Db, s: SessionId, t: nat) {
    && s in db.rows && s in after.rows && after.rows[s] == db.rows[s].(activity := after.rows[s].activity)
    && t <= after.rows[s].activity && ContainerOf(db.rows, s) * db.containers <= after.containers
  }

  lemma OneCallSpares(db: Db, config: Config, c: SessionCalls.Call, s: SessionId, t: nat)
    requires Tidy(db) && Fits(db, c) && Spares(c, s, t, config.idleMs)
    requires s in db.rows && IsActive(db.rows[s].status) && t <= db.rows[s].activity
    ensures StillThere(db, Perform(db, config, c), s, t)
  {
    match c
    case CallReap(now, later) => ReapSparesTheDeserving(db, config, now, later, {}, s);
    case CallStop(x, user) => OthersContainer(db, x, s);
    case CallStart(_, _, prior, _, _, _) => if prior.Some? { OthersContainer(db, prior.value, s); }
    case CallCheck(_, _, _, _, _) =>
    case CallHeartbeat(_, _, _) =>
  }

  lemma OthersContainer(db: Db, x: SessionId, s: SessionId)
    requires Tidy(db) && x != s
    ensures ContainerOf(db.rows, x) !! ContainerOf(db.rows, s)
  {
    if c :| c in ContainerOf(db.rows, x) && c in ContainerOf(db.rows, s) {
      assert Names(db.rows, x, c) && Names(db.rows, s, c);
    }
  }

  lemma {:induction false} CallsSpare(db: Db, config: Config, calls: seq<SessionCalls.Call>, s: SessionId, t: nat)
    requires Tidy(db) && AllFit(db, config, calls)
    requires forall i | 0 <= i < |calls| :: Spares(calls[i], s, t, config.idleMs)
    requires s in db.rows && IsActive(db.rows[s].status) && t <= db.rows[s].activity
    ensures StillThere(db, PerformAll(db, config, calls), s, t)
    decreases |calls|
  {
    if calls != [] {
      var next := Perform(db, config, calls[0]);
      OneCallSpares(db, config, calls[0], s, t);
      PerformTidy(db, config, calls[0]);
      assert forall i | 0 <= i < |calls| - 1 :: calls[1..][i] == calls[i + 1];
      CallsSpare(next, config, calls[1..], s, t);
    }
  }

  /**
   A heartbeat at `t` by the owner of an active session spares it from every tick up to the idle timeout later: over
   any calls that do not stop, check or drain it, its row stays as it is, with its container.
   */
  lemma HeartbeatSpares(db: Db, config: Config, s: SessionId, user: UserId, t: nat, calls: seq<SessionCalls.Call>)
    requires Tidy(db) && s in db.rows && db.rows[s].user == user && IsActive(db.rows[s].status)
    requires AllFit(Perform(db, config, CallHeartbeat(s, user, t)), config, calls)
    requires forall i | 0 <= i < |calls| :: Spares(calls[i], s, t, config.idleMs)
    ensures
      var after := PerformAll(Perform(db, config, CallHeartbeat(s, user, t)), config, calls);
      && s in after.rows && after.rows[s].(activity := db.rows[s].activity) == db.rows[s]
      && ContainerOf(db.rows, s) * db.containers <= after.containers
  {
    PerformTidy(db, config, CallHeartbeat(s, user, t));
    CallsSpare(Perform(db, config, CallHeartbeat(s, user, t)), config, calls, s, t);
  }

  /** A heartbeat of anybody else, or of a session that is not active, changes nothing; the owner's only the time. */
  lemma HeartbeatLeaves(db: Db, config: Config, s: SessionId, user: UserId, t: nat)
    ensures
      var after := Perform(db, config, CallHeartbeat(s, user, t));
      if s in db.rows && db.rows[s].user == user && IsActive(db.rows[s].status)
      then after == db.(rows := db.rows[s := db.rows[s].(activity := t)]) else after == db
  {
  }

  // ---------------------------------------------------------------------------------------------
  // Drain and boot
  // ---------------------------------------------------------------------------------------------

  /** A drain abandons exactly the active sessions with a container, and removes it unless that throws. */
  lemma DrainLeaves(db: Db, stuck: set<ContainerId>, s: SessionId)
    requires s in db.rows
    ensures
      var after := DrainOf(db, stuck);
      var r := db.rows[s];
      var drained := IsActive(r.status) && r.container.Some?;
      && after.rows.Keys == db.rows.Keys
      && after.rows[s] == (if drained then r.(status := Abandoned) else r)
      && (drained ==> ContainerOf(db.rows, s) * after.containers <= stuck)
      && after.attempts == db.attempts && after.progress == db.progress
  {
    assert s in DrainIds(db.rows) ==> ContainerOf(db.rows, s) <= Named(db.rows, DrainIds(db.rows));
  }

  /** A boot sets to error exactly the active sessions that name a container which is not there. */
  lemma BootLeaves(db: Db, stuck: set<ContainerId>, s: SessionId)
    requires s in db.rows
    ensures
      var after := BootOf(db, stuck);
      var r := db.rows[s];
      && after.rows.Keys == db.rows.Keys
      && after.rows[s] == (if IsActive(r.status) && r.container.Some? && r.container.value !in db.containers
        then r.(status := Error) else r)
      && (IsActive(r.status) ==> ContainerOf(db.rows, s) * db.containers <= after.containers)
      && after.attempts == db.attempts && after.progress == db.progress
  {
    BootReconciles(db, stuck);
    if IsActive(db.rows[s].status) && db.rows[s].container.Some? {
      assert s in ActiveIds(db.rows) && db.rows[s].container.value in Known(db.rows);
    }
  }

  // ---------------------------------------------------------------------------------------------
  // A tick among other calls
  // ---------------------------------------------------------------------------------------------

  /** The tick is in its first half throughout. */
  ghost predicate Expiring(w: World, es: seq<Event>, id: CallId)
    decreases |es|
  {
    && id in w.calls && w.calls[id].Sweep? && w.calls[id].kind.Idle?
    && (es != [] ==> Expiring(Next(w, es[0]), es[1..], id))
  }

  lemma StepExpiring(w: World, e: Event, id: CallId)
    requires Enabled(w, e) && id in w.calls && w.calls[id].Sweep? && w.calls[id].kind.Idle?
    requires id in Next(w, e).calls && Next(w, e).calls[id].Sweep? && Next(w, e).calls[id].kind.Idle?
    ensures Next(w, e).calls[id].queue == w.calls[id].queue
         || (w.calls[id].queue != [] && Next(w, e).calls[id].queue == w.calls[id].queue[1..])
  {
  }

  lemma {:induction false} RunExpiring(w: World, es: seq<Event>, id: CallId)
    requires Run(w, es) && Expiring(w, es, id)
    ensures id in After(w, es).calls && After(w, es).calls[id].Sweep?
    ensures Ids(After(w, es).calls[id].queue) <= Ids(w.calls[id].queue)
    decreases |es|
  {
    if es != [] {
      StepExpiring(w, es[0], id);
      RunExpiring(Next(w, es[0]), es[1..], id);
    }
  }

  function ToExpire(w: World, id: CallId): set<SessionId> {
    if id in w.calls && w.calls[id].Sweep? then Ids(w.calls[id].queue) else {}
  }

  /** Whatever other calls do meanwhile, the rows a tick goes on to expire were active and idle when it began. */
  lemma TickExpiresOnlyTheIdle(w: World, id: CallId, queue: Queue, es: seq<Event>, s: SessionId)
    requires Enabled(w, ReapBegin(id, queue))
    requires Run(Next(w, ReapBegin(id, queue)), es) && Expiring(Next(w, ReapBegin(id, queue)), es, id)
    requires s in ToExpire(After(Next(w, ReapBegin(id, queue)), es), id)
    ensures s in w.rows && IsActive(w.rows[s].status) && w.rows[s].activity + w.config.idleMs < w.now
  {
    RunExpiring(Next(w, ReapBegin(id, queue)), es, id);
  }

  lemma ExpiresNext(w: World, id: CallId, s: SessionId, k: ContainerId)
    requires id in w.calls && w.calls[id] == Sweep(Idle, false, [(s, Some(k))]) && s in w.rows
    ensures
      var es := [Proceed(id, true), Proceed(id, true)];
      && Run(w, es) && After(w, es).now == w.now && After(w, es).containers == w.containers - {k}
      && After(w, es).rows == w.rows[s := w.rows[s].(status := Expired)]
  {
    var w1 := w.(calls := w.calls[id := Sweep(Idle, true, [(s, Some(k))])], containers := w.containers - {k});
    assert Next(w, Proceed(id, true)) == w1;
    Snoc(w, [], w, Proceed(id, true));
    Snoc(w, [] + [Proceed(id, true)], w1, Proceed(id, true));
    assert [] + [Proceed(id, true)] + [Proceed(id, true)] == [Proceed(id, true), Proceed(id, true)];
  }

  /**
   But a heartbeat that comes while the tick is at work does not spare its session: from every state with one idle
   session there is a run in which it is expired, and its container removed, although it was active just now.
   */
  lemma HeartbeatDuringTickIsLost(w: World, id: CallId, s: SessionId, k: ContainerId)
    requires id !in w.calls && IdleIds(w.rows, w.now, w.config.idleMs) == {s}
    requires s in w.rows && w.rows[s].container == Some(k)
    ensures
      var es := [ReapBegin(id, [(s, Some(k))]), Heartbeat(s, w.rows[s].user), Proceed(id, true), Proceed(id, true)];
      && Run(w, es) && After(w, es).now == w.now && After(w, es).containers == w.containers - {k}
      && After(w, es).rows == w.rows[s := w.rows[s].(status := Expired, activity := w.now)]
  {
    var begin, beat := ReapBegin(id, [(s, Some(k))]), Heartbeat(s, w.rows[s].user);
    var es := [begin, beat, Proceed(id, true), Proceed(id, true)];
    assert begin.queue[0].0 in Ids(begin.queue) && s in IdleIds(w.rows, w.now, w.config.idleMs);
    var w1 := Next(w, begin);
    var w2 := w1.(rows := w.rows[s := w.rows[s].(activity := w.now)]);
    assert Next(w1, beat) == w2;
    ExpiresNext(w2, id, s, k);
    assert es[1..] == [beat, Proceed(id, true), Proceed(id, true)];
    assert es[1..][1..] == [Proceed(id, true), Proceed(id, true)];
  }
}
