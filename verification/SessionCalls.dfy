/**
 The session calls one at a time, each as a function of the database and the labelled containers. A call's
 Docker outcomes are arguments: `stuck` are the containers whose removal throws; removing a container that
 is gone already counts as done.
 */
module SessionCalls {
  import opened Options
  import opened SessionModel

  datatype Db = Db(rows: Rows, containers: set<ContainerId>, attempts: seq<Attempt>, progress: map<Key, Progress>)

  function ContainerOf(rows: Rows, s: SessionId): set<ContainerId> {
    if s in rows && rows[s].container.Some? then {rows[s].container.value} else {}
  }

  /** The containers named by the rows of `ids`. */
  function Named(rows: Rows, ids: set<SessionId>): set<ContainerId> {
    set s | s in ids && s in rows && rows[s].container.Some? :: rows[s].container.value
  }

  // ---------------------------------------------------------------------------------------------
  // Start, stop, check
  // ---------------------------------------------------------------------------------------------

  predicate StopThrows(db: Db, s: SessionId, stuck: set<ContainerId>) {
    s !in db.rows || ContainerOf(db.rows, s) * stuck != {}
  }

  function Stop(db: Db, s: SessionId, st: Status, stuck: set<ContainerId>): Db {
    if StopThrows(db, s, stuck) then db
    else db.(rows := SetStatus(db.rows, s, st), containers := db.containers - ContainerOf(db.rows, s))
  }

  /** A stop by its owner; anybody else is refused. */
  function StopBy(db: Db, s: SessionId, user: UserId, st: Status, stuck: set<ContainerId>): Db {
    if s in db.rows && db.rows[s].user == user then Stop(db, s, st, stuck) else db
  }

  /** The insert and what follows it; `k` is the container created, if creating one did not throw. */
  function Launch(db: Db, user: UserId, ch: ChallengeId, s: SessionId, k: Option<ContainerId>, now: nat): Db {
    var rows := db.rows[s := NewRow(user, ch, now)];
    match k
    case None => db.(rows := SetStatus(rows, s, Error))
    case Some(c) => db.(rows := SetContainer(rows, s, c), containers := db.containers + {c})
  }

  /** `prior` is the row the prior-session query returned. */
  function Start(
    db: Db, cap: nat, user: UserId, ch: ChallengeId, prior: Option<SessionId>,
    s: SessionId, k: Option<ContainerId>, now: nat, stuck: set<ContainerId>): Db
  {
    if |ActiveIds(db.rows)| >= cap then db
    else if prior.None? then Launch(db, user, ch, s, k, now)
    else if StopThrows(db, prior.value, stuck) then db
    else Launch(Stop(db, prior.value, Abandoned, stuck), user, ch, s, k, now)
  }

  /**
   `result` is what the check script said, if running it did not throw; the status is written at `now`, the
   progress at `later`.
   */
  function CheckOf(db: Db, s: SessionId, user: UserId, result: Option<bool>, now: nat, later: nat): Db {
    if s !in db.rows || db.rows[s].user != user || db.rows[s].container.None? then db
    else
      var rows := SetStatus(db.rows, s, Checking);
      match result
      case None => db.(rows := rows)
      case Some(passed) =>
        var u := Upsert(user, db.rows[s].challenge, passed, db.rows[s].hints, later);
        var key := (user, db.rows[s].challenge);
        Db(if passed then SetSolved(rows, s, now) else SetStatus(rows, s, Running), db.containers,
           db.attempts + [Attempt(s, passed)],
           db.progress[key := UpsertProgress(Lookup(db.progress, key), u)])
  }

  // ---------------------------------------------------------------------------------------------
  // Account deletion
  // ---------------------------------------------------------------------------------------------

  function AttemptsKept(attempts: seq<Attempt>, rows: Rows, user: UserId): seq<Attempt> {
    if attempts == [] then []
    else
      var a := attempts[|attempts| - 1];
      AttemptsKept(attempts[..|attempts| - 1], rows, user)
      + (if a.session in rows && rows[a.session].user == user then [] else [a])
  }

  /** `DELETE FROM users` with its cascades. */
  function UserDeleted(db: Db, user: UserId): Db {
    Db(map s | s in db.rows && db.rows[s].user != user :: db.rows[s], db.containers,
       AttemptsKept(db.attempts, db.rows, user),
       map k | k in db.progress && k.0 != user :: db.progress[k])
  }

  /** Deleting an account, its password proved: `active` is the user's active session the query returned. */
  function DeleteAccount(db: Db, user: UserId, active: Option<SessionId>, stuck: set<ContainerId>): Db {
    if active.None? then UserDeleted(db, user)
    else if StopThrows(db, active.value, stuck) then db
    else UserDeleted(Stop(db, active.value, Abandoned, stuck), user)
  }

  // ---------------------------------------------------------------------------------------------
  // Reaper, drain, boot
  // ---------------------------------------------------------------------------------------------

  /** Every row of `ids` is marked, and its container removed unless that throws. */
  function SweepOf(db: Db, kind: SweepKind, ids: set<SessionId>, stuck: set<ContainerId>): Db {
    db.(rows := map s | s in db.rows :: if s in ids then SweepMarked(db.rows, kind, s)[s] else db.rows[s],
        containers := db.containers - (Named(db.rows, ids) - stuck))
  }

  /** What one more row adds to a sweep. */
  lemma SweptOne(db: Db, kind: SweepKind, ids: set<SessionId>, s: SessionId, stuck: set<ContainerId>)
    requires s in db.rows && s !in ids
    ensures
      var part := SweepOf(db, kind, ids, stuck);
      && s in part.rows && part.rows[s] == db.rows[s]
      && SweepOf(db, kind, ids + {s}, stuck).rows == part.rows[s := SweepMarked(db.rows, kind, s)[s]]
      && SweepOf(db, kind, ids + {s}, stuck).containers == part.containers - (ContainerOf(db.rows, s) - stuck)
  {
    assert Named(db.rows, ids + {s}) == Named(db.rows, ids) + ContainerOf(db.rows, s);
  }

  /** One reaper tick; its two queries run at `now` and `later`. */
  function Reap(db: Db, config: Config, now: nat, later: nat, stuck: set<ContainerId>): Db {
    var idle := SweepOf(db, Idle, IdleIds(db.rows, now, config.idleMs), stuck);
    SweepOf(idle, SolvedGrace, OverdueIds(idle.rows, later, config.solvedGraceMs), stuck)
  }

  function DrainOf(db: Db, stuck: set<ContainerId>): Db { SweepOf(db, Drain, DrainIds(db.rows), stuck) }

  /** The containers the database knows: those of active rows. */
  function Known(rows: Rows): set<ContainerId> { Named(rows, ActiveIds(rows)) }

  function Reconciled(containers: set<ContainerId>, known: set<ContainerId>,
      stuck: set<ContainerId>): set<ContainerId> {
    set c | c in containers && (c in known || c in stuck)
  }

  function IsOrphaned(r: Row, live: set<ContainerId>): bool {
    IsActive(r.status) && r.container.Some? && r.container.value !in live
  }

  function OrphansMarked(rows: Rows, live: set<ContainerId>): Rows {
    map s | s in rows :: if IsOrphaned(rows[s], live) then rows[s].(status := Error) else rows[s]
  }

  /** The boot sequence: orphaned containers are removed first, then active rows without a container are marked. */
  function BootOf(db: Db, stuck: set<ContainerId>): Db {
    var live := Reconciled(db.containers, Known(db.rows), stuck);
    db.(rows := OrphansMarked(db.rows, live), containers := live)
  }

  /**
   From any database and any containers: every active row's container exists afterwards; no container of a
   row that was active is removed; and a container no active row names is one whose removal threw.
   */
  lemma BootReconciles(db: Db, stuck: set<ContainerId>)
    ensures
      var after := BootOf(db, stuck);
      && (forall s | s in ActiveIds(after.rows) && after.rows[s].container.Some? ::
        after.rows[s].container.value in after.containers)
      && Known(after.rows) == db.containers * Known(db.rows)
      && after.containers == Known(after.rows) + db.containers * stuck
      && (forall s | s in db.rows :: s in after.rows && after.rows[s].(status := db.rows[s].status) == db.rows[s])
  {
    var after := BootOf(db, stuck);
    forall c | c in db.containers * Known(db.rows)
      ensures c in Known(after.rows)
    {
      var s :| s in ActiveIds(db.rows) && db.rows[s].container == Some(c);
      assert after.rows[s] == db.rows[s] && s in ActiveIds(after.rows);
    }
    forall c | c in Known(after.rows)
      ensures c in db.containers * Known(db.rows)
    {
      var s :| s in ActiveIds(after.rows) && after.rows[s].container == Some(c);
      assert after.rows[s] == db.rows[s] && s in ActiveIds(db.rows);
    }
  }

  /**
   A second boot changes nothing if and only if it, too, cannot remove what the first could not; in
   particular when every removal of the first succeeded.
   */
  lemma SecondBoot(db: Db, stuck: set<ContainerId>, again: set<ContainerId>)
    ensures
      var once := BootOf(db, stuck);
      BootOf(once, again) == once <==> once.containers - Known(once.rows) <= again
    ensures stuck * db.containers <= Known(db.rows) ==> BootOf(BootOf(db, stuck), again) == BootOf(db, stuck)
  {
    BootReconciles(db, stuck);
    var once := BootOf(db, stuck);
    var twice := BootOf(once, again);
    assert Known(once.rows) <= once.containers;
    forall s | s in once.rows
      ensures twice.rows[s] == once.rows[s]
    {
      if IsActive(once.rows[s].status) && once.rows[s].container.Some? {
        assert s in ActiveIds(once.rows);
        assert once.rows[s].container.value in Known(once.rows);
      }
    }
    assert twice.rows == once.rows;
    if once.containers - Known(once.rows) <= again {
      assert twice.containers == once.containers;
    }
  }

  /**
   The drain of a shutdown leaves no active row with a container, and only the containers it did not know or
   could not remove; the next boot then finds no row to mark and removes all it can.
   */
  lemma BootAfterDrain(db: Db, stuck: set<ContainerId>, again: set<ContainerId>)
    ensures
      var drained := DrainOf(db, stuck);
      && Known(drained.rows) == {} && drained.containers == db.containers - (Known(db.rows) - stuck)
      && (forall s | s in db.rows && s !in DrainIds(db.rows) :: s in drained.rows && drained.rows[s] == db.rows[s])
      && BootOf(drained, again) == drained.(containers := drained.containers * again)
  {
    var drained := DrainOf(db, stuck);
    assert Named(db.rows, DrainIds(db.rows)) == Known(db.rows);
    forall s | s in ActiveIds(drained.rows)
      ensures drained.rows[s].container.None?
    {
      assert s !in DrainIds(db.rows);
    }
    assert BootOf(drained, again).rows == drained.rows;
  }

  // ---------------------------------------------------------------------------------------------
  // No container without its session
  // ---------------------------------------------------------------------------------------------

  ghost predicate Names(rows: Rows, s: SessionId, c: ContainerId) {
    s in rows && rows[s].container == Some(c)
  }

  /** No two rows name one container; a labelled container is named by a row that is active or solved. */
  ghost predicate Tidy(db: Db) {
    && (forall a, b, c | Names(db.rows, a, c) && Names(db.rows, b, c) :: a == b)
    && (forall c | c in db.containers :: exists s ::
      Names(db.rows, s, c) && (IsActive(db.rows[s].status) || db.rows[s].status.Solved?))
    && (forall s | s in db.rows && db.rows[s].status.Solved? :: db.rows[s].solvedAt.Some?)
  }

  datatype Call =
    | CallStart(user: UserId, challenge: ChallengeId, prior: Option<SessionId>, session: SessionId,
      container: Option<ContainerId>, now: nat)
    | CallStop(session: SessionId, user: UserId)
    | CallCheck(session: SessionId, user: UserId, result: Option<bool>, now: nat, later: nat)
    | CallHeartbeat(session: SessionId, user: UserId, now: nat)
    | CallReap(now: nat, later: nat)
    | CallDrain

  /** New ids are new, and a check script only answers in a container that exists. */
  ghost predicate Fits(db: Db, c: Call) {
    match c
    case CallStart(_, _, _, s, k, _) =>
      s !in db.rows && (k.Some? ==> k.value !in db.containers && forall x | x in db.rows :: db.rows[x].container != k)
    case CallCheck(s, _, result, _, _) => result.Some? ==> s in db.rows && ContainerOf(db.rows, s) <= db.containers
    case _ => true
  }

  /** A call whose Docker calls on existing containers all succeed. */
  function Perform(db: Db, config: Config, c: Call): Db {
    match c
    case CallStart(user, ch, prior, s, k, now) => Start(db, config.cap, user, ch, prior, s, k, now, {})
    case CallStop(s, user) => StopBy(db, s, user, Abandoned, {})
    case CallCheck(s, user, result, now, later) => CheckOf(db, s, user, result, now, later)
    case CallHeartbeat(s, user, now) => db.(rows := Touch(db.rows, s, user, now))
    case CallReap(now, later) => Reap(db, config, now, later, {})
    case CallDrain => DrainOf(db, {})
  }

  /** A change that keeps every row's container, and the status of those whose container is left. */
  lemma TidyKept(db: Db, after: Db)
    requires Tidy(db) && after.containers <= db.containers && db.rows.Keys == after.rows.Keys
    requires forall s | s in db.rows :: after.rows[s].container == db.rows[s].container || after.rows[s].container.None?
    requires forall s | s in db.rows && ContainerOf(db.rows, s) * after.containers != {} ::
      && after.rows[s].container == db.rows[s].container
      && (IsActive(db.rows[s].status) || db.rows[s].status.Solved? ==>
        IsActive(after.rows[s].status) || after.rows[s].status.Solved?)
    requires forall s | s in db.rows && after.rows[s].status.Solved? :: after.rows[s].solvedAt.Some?
    ensures Tidy(after)
  {
    forall c | c in after.containers
      ensures exists s :: Names(after.rows, s, c) && (IsActive(after.rows[s].status) || after.rows[s].status.Solved?)
    {
      var s :| Names(db.rows, s, c) && (IsActive(db.rows[s].status) || db.rows[s].status.Solved?);
      assert ContainerOf(db.rows, s) == {c} && c in ContainerOf(db.rows, s) * after.containers;
      assert Names(after.rows, s, c);
    }
    forall a, b, c | Names(after.rows, a, c) && Names(after.rows, b, c)
      ensures a == b
    {
      assert Names(db.rows, a, c) && Names(db.rows, b, c);
    }
  }

  lemma StopTidy(db: Db, s: SessionId)
    requires Tidy(db)
    ensures Tidy(Stop(db, s, Abandoned, {}))
  {
    if s in db.rows {
      forall x | x in db.rows && ContainerOf(db.rows, x) * (db.containers - ContainerOf(db.rows, s)) != {}
        ensures x != s
      {
      }
      TidyKept(db, Stop(db, s, Abandoned, {}));
    }
  }

  lemma LaunchTidy(db: Db, user: UserId, ch: ChallengeId, s: SessionId, k: Option<ContainerId>, now: nat)
    requires Tidy(db) && s !in db.rows
    requires k.Some? ==> k.value !in db.containers && forall x | x in db.rows :: db.rows[x].container != k
    ensures Tidy(Launch(db, user, ch, s, k, now))
  {
    var after := Launch(db, user, ch, s, k, now);
    forall c | c in after.containers
      ensures exists x :: Names(after.rows, x, c) && (IsActive(after.rows[x].status) || after.rows[x].status.Solved?)
    {
      if k == Some(c) {
        assert Names(after.rows, s, c);
      } else {
        var x :| Names(db.rows, x, c) && (IsActive(db.rows[x].status) || db.rows[x].status.Solved?);
        assert Names(after.rows, x, c);
      }
    }
    forall a, b, c | Names(after.rows, a, c) && Names(after.rows, b, c)
      ensures a == b
    {
      assert a != s ==> Names(db.rows, a, c);
      assert b != s ==> Names(db.rows, b, c);
    }
  }

  lemma SweepTidy(db: Db, kind: SweepKind, ids: set<SessionId>)
    requires Tidy(db)
    ensures Tidy(SweepOf(db, kind, ids, {}))
  {
    var after := SweepOf(db, kind, ids, {});
    forall s | s in db.rows && ContainerOf(db.rows, s) * after.containers != {}
      ensures s !in ids
    {
      assert s in ids ==> ContainerOf(db.rows, s) <= Named(db.rows, ids);
    }
    TidyKept(db, after);
  }

  lemma CheckTidy(db: Db, s: SessionId, user: UserId, result: Option<bool>, now: nat, later: nat)
    requires Tidy(db)
    ensures Tidy(CheckOf(db, s, user, result, now, later))
  {
    TidyKept(db, CheckOf(db, s, user, result, now, later));
  }

  lemma PerformTidy(db: Db, config: Config, c: Call)
    requires Tidy(db) && Fits(db, c)
    ensures Tidy(Perform(db, config, c))
  {
    match c
    case CallStart(user, ch, prior, s, k, now) =>
      if |ActiveIds(db.rows)| < config.cap {
        if prior.Some? { StopTidy(db, prior.value); }
        if prior.None? || !StopThrows(db, prior.value, {}) {
          LaunchTidy(if prior.Some? then Stop(db, prior.value, Abandoned, {}) else db, user, ch, s, k, now);
        }
      }
    case CallStop(s, _) => StopTidy(db, s);
    case CallCheck(s, user, result, now, later) => CheckTidy(db, s, user, result, now, later);
    case CallHeartbeat(_, _, _) => TidyKept(db, Perform(db, config, c));
    case CallReap(now, later) =>
      SweepTidy(db, Idle, IdleIds(db.rows, now, config.idleMs));
      var idle := SweepOf(db, Idle, IdleIds(db.rows, now, config.idleMs), {});
      SweepTidy(idle, SolvedGrace, OverdueIds(idle.rows, later, config.solvedGraceMs));
    case CallDrain => SweepTidy(db, Drain, DrainIds(db.rows));
  }

  ghost predicate AllFit(db: Db, config: Config, calls: seq<Call>)
    decreases |calls|
  {
    calls == [] || (Fits(db, calls[0]) && AllFit(Perform(db, config, calls[0]), config, calls[1..]))
  }

  function PerformAll(db: Db, config: Config, calls: seq<Call>): Db
    decreases |calls|
  {
    if calls == [] then db else PerformAll(Perform(db, config, calls[0]), config, calls[1..])
  }

  lemma {:induction false} CallsKeepTidy(db: Db, config: Config, calls: seq<Call>)
    requires Tidy(db) && AllFit(db, config, calls)
    ensures Tidy(PerformAll(db, config, calls))
    decreases |calls|
  {
    if calls != [] {
      PerformTidy(db, config, calls[0]);
      CallsKeepTidy(Perform(db, config, calls[0]), config, calls[1..]);
    }
  }

  /** A row that may keep its container at the reaper's times. */
  ghost predicate Deserves(r: Row, config: Config, now: nat, later: nat) {
    || (IsActive(r.status) && r.activity + config.idleMs >= now)
    || (r.status.Solved? && r.solvedAt.Some? && r.solvedAt.value + config.solvedGraceMs >= later)
  }

  /**
   After any calls one at a time from an empty database, and a reaper tick: every labelled container is named
   by exactly one row, and that row is active and not idle, or solved and within its grace time.
   */
  lemma ReaperLeavesOnlyDeservedContainers(config: Config, calls: seq<Call>, now: nat, later: nat)
    requires AllFit(Db(map[], {}, [], map[]), config, calls)
    ensures
      var db := Reap(PerformAll(Db(map[], {}, [], map[]), config, calls), config, now, later, {});
      && (forall a, b, c | Names(db.rows, a, c) && Names(db.rows, b, c) :: a == b)
      && (forall c | c in db.containers :: exists s :: Names(db.rows, s, c) && Deserves(db.rows[s], config, now, later))
  {
    CallsKeepTidy(Db(map[], {}, [], map[]), config, calls);
    var before := PerformAll(Db(map[], {}, [], map[]), config, calls);
    PerformTidy(before, config, CallReap(now, later));
    ReapRemovesTheRest(before, config, now, later);
  }

  lemma ReapRemovesTheRest(db: Db, config: Config, now: nat, later: nat)
    requires Tidy(db) && Tidy(Reap(db, config, now, later, {}))
    ensures
      var after := Reap(db, config, now, later, {});
      forall c | c in after.containers :: exists s ::
        Names(after.rows, s, c) && Deserves(after.rows[s], config, now, later)
  {
    var idleIds := IdleIds(db.rows, now, config.idleMs);
    var idle := SweepOf(db, Idle, idleIds, {});
    var overdue := OverdueIds(idle.rows, later, config.solvedGraceMs);
    var after := Reap(db, config, now, later, {});
    forall c | c in after.containers
      ensures exists s :: Names(after.rows, s, c) && Deserves(after.rows[s], config, now, later)
    {
      var s :| Names(after.rows, s, c) && (IsActive(after.rows[s].status) || after.rows[s].status.Solved?);
      assert s !in overdue;
      assert after.rows[s] == idle.rows[s];
      assert s in idleIds && Names(db.rows, s, c) ==> c in Named(db.rows, idleIds);
      assert s !in idleIds;
      assert Deserves(after.rows[s], config, now, later);
    }
  }
}
