/**
 The session service as its calls run one at a time: queries and Docker calls in order, rows and containers
 changed step by step, loops over result rows. Every method is one of the functions in `SessionCalls`.
 */
module SessionService {
  import opened Options
  import opened SessionModel
  import opened SessionCalls

  datatype StartResult = ChallengeNotFound | TooMany | StopFailed | LaunchFailed | Started(session: SessionId)

  class Service {
    const config: Config
    var rows: Rows
    var containers: set<ContainerId>
    var attempts: seq<Attempt>
    var progress: map<Key, Progress>

    constructor (config: Config)
      ensures this.config == config && State() == Db(map[], {}, [], map[])
    {
      this.config := config;
      rows, containers, attempts, progress := map[], {}, [], map[];
    }

    ghost function State(): Db
      reads this
    {
      Db(rows, containers, attempts, progress)
    }

    /** `remove({ force: true })`: throws for a stuck container, and is content with one that is gone. */
    method DestroyContainer(c: ContainerId, stuck: set<ContainerId>) returns (ok: bool)
      modifies this`containers
      ensures ok == (c !in stuck)
      ensures containers == if ok then old(containers) - {c} else old(containers)
    {
      ok := c !in stuck;
      if ok { containers := containers - {c}; }
    }

    method StopSession(s: SessionId, user: UserId, finalStatus: Status, stuck: set<ContainerId>) returns (ok: bool)
      modifies this
      ensures ok == (s in old(rows) && old(rows)[s].user == user && !StopThrows(old(State()), s, stuck))
      ensures State() == StopBy(old(State()), s, user, finalStatus, stuck)
    {
      if s !in rows || rows[s].user != user { return false; }
      if rows[s].container.Some? {
        ok := DestroyContainer(rows[s].container.value, stuck);
        assert !ok ==> rows[s].container.value in ContainerOf(rows, s) * stuck;
        if !ok { return; }
      }
      rows := rows[s := rows[s].(status := finalStatus)];
      ok := true;
    }

    /**
     `available` is whether the challenge exists and is active, `newId` the id the insert returns and `created`
     what creating the container gave. The prior-session query returns some active row of the user when there
     is one.
     */
    method StartSession(user: UserId, ch: ChallengeId, available: bool, newId: SessionId,
        created: Option<ContainerId>, now: nat, stuck: set<ContainerId>)
      returns (r: StartResult, prior: Option<SessionId>)
      requires newId !in rows
      modifies this
      ensures prior.Some? ==> prior.value in ActiveIds(old(rows)) && old(rows)[prior.value].user == user
      ensures prior.None? && !r.TooMany? && !r.ChallengeNotFound? ==> forall s | s in ActiveIds(old(rows)) ::
        old(rows)[s].user != user
      ensures State()
        == if available then Start(old(State()), config.cap, user, ch, prior, newId, created, now, stuck)
           else old(State())
      ensures r.ChallengeNotFound? <==> !available
      ensures r.TooMany? <==> available && |ActiveIds(old(rows))| >= config.cap
      ensures r.StopFailed? <==>
        available && |ActiveIds(old(rows))| < config.cap && prior.Some? && StopThrows(old(State()), prior.value, stuck)
      ensures r.LaunchFailed? <==>
        && available && |ActiveIds(old(rows))| < config.cap && created.None?
        && (prior.Some? ==> !StopThrows(old(State()), prior.value, stuck))
      ensures r.Started? ==>
        r.session == newId && newId in rows && rows[newId].status.Running?
        && rows[newId].container == created
    {
      prior := None;
      if !available { return ChallengeNotFound, prior; }
      var active := set s | s in rows && IsActive(rows[s].status);
      assert active == ActiveIds(rows);
      if |active| >= config.cap { return TooMany, prior; }
      var mine := set s | s in active && rows[s].user == user;
      assert forall s | s in active && rows[s].user == user :: s in mine;
      if mine != {} {
        var p :| p in mine;
        prior := Some(p);
        var ok := StopSession(p, user, Abandoned, stuck);
        if !ok { return StopFailed, prior; }
      }
      rows := rows[newId := NewRow(user, ch, now)];
      if created.None? {
        rows := rows[newId := rows[newId].(status := Error)];
        return LaunchFailed, prior;
      }
      containers := containers + {created.value};
      rows := rows[newId := rows[newId].(container := created, status := Running)];
      r := Started(newId);
    }

    method Heartbeat(s: SessionId, user: UserId, now: nat)
      modifies this`rows
      ensures rows == Touch(old(rows), s, user, now)
    {
      if s in rows && rows[s].user == user && IsActive(rows[s].status) {
        rows := rows[s := rows[s].(activity := now)];
      }
    }

    /**
     `proved` is whether the account exists and the password given is its own. The query returns some active
     session of the user when there is one.
     */
    method DeleteOwnAccount(user: UserId, proved: bool, stuck: set<ContainerId>)
      returns (ok: bool, active: Option<SessionId>)
      modifies this
      ensures active.Some? ==> active.value in ActiveIds(old(rows)) && old(rows)[active.value].user == user
      ensures proved && active.None? ==> forall s | s in ActiveIds(old(rows)) :: old(rows)[s].user != user
      ensures ok == (proved && (active.Some? ==> !StopThrows(old(State()), active.value, stuck)))
      ensures State() == if proved then DeleteAccount(old(State()), user, active, stuck) else old(State())
    {
      active := None;
      if !proved { return false, active; }
      var mine := set s | s in rows && IsActive(rows[s].status) && rows[s].user == user;
      assert forall s | s in ActiveIds(rows) && rows[s].user == user :: s in mine;
      if mine != {} {
        var a :| a in mine;
        active := Some(a);
        ok := StopSession(a, user, Abandoned, stuck);
        if !ok { return; }
      }
      attempts := AttemptsKept(attempts, rows, user);
      progress := map k | k in progress && k.0 != user :: progress[k];
      rows := map s | s in rows && rows[s].user != user :: rows[s];
      ok := true;
    }

    /** `result` is what running the check script gave, if it did not throw. */
    method CheckSession(s: SessionId, user: UserId, result: Option<bool>, now: nat, later: nat) returns (ok: bool)
      modifies this
      ensures ok == (s in old(rows) && old(rows)[s].user == user && old(rows)[s].container.Some? && result.Some?)
      ensures State() == CheckOf(old(State()), s, user, result, now, later)
    {
      if s !in rows || rows[s].user != user || rows[s].container.None? { return false; }
      var session := rows[s];
      rows := rows[s := rows[s].(status := Checking)];
      if result.None? { return false; }
      attempts := attempts + [Attempt(s, result.value)];
      if result.value {
        rows := rows[s := rows[s].(status := Solved, solvedAt := Some(now))];
      } else {
        rows := rows[s := rows[s].(status := Running)];
      }
      UpsertRow(user, session.challenge, result.value, session.hints, later);
      ok := true;
    }

    method UpsertRow(user: UserId, ch: ChallengeId, passed: bool, hints: nat, now: nat)
      modifies this`progress
      ensures progress == old(progress)[(user, ch) := UpsertProgress(Lookup(old(progress), (user, ch)),
        Upsert(user, ch, passed, hints, now))]
    {
      var key := (user, ch);
      if key !in progress {
        progress := progress[key := Progress(passed, 1, hints, if passed then Some(now) else None, now)];
      } else {
        var p := progress[key];
        p := p.(attempts := p.attempts + 1, lastAttemptedAt := now);
        if passed { p := p.(solved := true); }
        if p.hintsMax < hints { p := p.(hintsMax := hints); }
        if p.firstSolvedAt.None? && passed { p := p.(firstSolvedAt := Some(now)); }
        progress := progress[key := p];
      }
    }

    /** The loop of the reaper's two halves and of the drain: destroy best-effort, then mark. */
    method SweepRows(kind: SweepKind, ids: set<SessionId>, stuck: set<ContainerId>)
      requires ids <= rows.Keys
      modifies this`rows, this`containers
      ensures State() == SweepOf(old(State()), kind, ids, stuck)
    {
      ghost var before := State();
      var snapshot := rows;
      var todo := ids;
      assert rows == SweepOf(before, kind, ids - todo, stuck).rows;
      while todo != {}
        invariant todo <= ids && snapshot == before.rows
        invariant State() == SweepOf(before, kind, ids - todo, stuck)
      {
        var s :| s in todo;
        SweptOne(before, kind, ids - todo, s, stuck);
        assert ids - (todo - {s}) == (ids - todo) + {s};
        if snapshot[s].container.Some? {
          var _ := DestroyContainer(snapshot[s].container.value, stuck);
        }
        match kind {
          case Idle => rows := rows[s := rows[s].(status := Expired)];
          case SolvedGrace => rows := rows[s := rows[s].(container := None)];
          case Drain => rows := rows[s := rows[s].(status := Abandoned)];
        }
        todo := todo - {s};
      }
      assert ids - {} == ids;
    }

    /** One reaper tick. */
    method ReapIdleSessions(now: nat, later: nat, stuck: set<ContainerId>)
      modifies this
      ensures State() == Reap(old(State()), config, now, later, stuck)
    {
      var idle := set s | s in rows && IsActive(rows[s].status) && rows[s].activity + config.idleMs < now;
      SweepRows(Idle, idle, stuck);
      var solved := set s | s in rows && rows[s].status.Solved? && rows[s].container.Some? && rows[s].solvedAt.Some?
                            && rows[s].solvedAt.value + config.solvedGraceMs < later;
      SweepRows(SolvedGrace, solved, stuck);
    }

    method DrainAllActiveSessions(stuck: set<ContainerId>) returns (n: nat)
      modifies this
      ensures n == |DrainIds(old(rows))|
      ensures State() == DrainOf(old(State()), stuck)
    {
      var active := set s | s in rows && IsActive(rows[s].status) && rows[s].container.Some?;
      SweepRows(Drain, active, stuck);
      n := |active|;
    }

    method ListActiveContainerIds() returns (ids: set<ContainerId>)
      ensures ids == Known(rows)
    {
      ids := {};
      var active := set s | s in rows && IsActive(rows[s].status);
      var todo := active;
      while todo != {}
        invariant todo <= active
        invariant ids == Named(rows, active - todo)
      {
        var s :| s in todo;
        if rows[s].container.Some? { ids := ids + {rows[s].container.value}; }
        assert Named(rows, active - (todo - {s})) == Named(rows, active - todo) + ContainerOf(rows, s);
        todo := todo - {s};
      }
      assert active - {} == ActiveIds(rows);
    }

    method ReconcileOrphans(known: set<ContainerId>, stuck: set<ContainerId>)
      modifies this`containers
      ensures containers == Reconciled(old(containers), known, stuck)
    {
      var todo := containers;
      while todo != {}
        invariant todo <= old(containers)
        invariant containers == todo + Reconciled(old(containers) - todo, known, stuck)
      {
        var c :| c in todo;
        if c !in known {
          var _ := DestroyContainer(c, stuck);
        }
        todo := todo - {c};
      }
    }

    method MarkOrphanedSessionsError(live: set<ContainerId>)
      modifies this`rows
      ensures rows == OrphansMarked(old(rows), live)
    {
      var active := set s | s in rows && IsActive(rows[s].status);
      var snapshot := rows;
      var todo := active;
      while todo != {}
        invariant todo <= active && snapshot == old(rows)
        invariant rows == map s | s in snapshot ::
          if s !in todo && IsOrphaned(snapshot[s], live) then snapshot[s].(status := Error) else snapshot[s]
      {
        var s :| s in todo;
        if snapshot[s].container.Some? && snapshot[s].container.value !in live {
          rows := rows[s := rows[s].(status := Error)];
        }
        todo := todo - {s};
      }
    }

    /** The reconciling part of the boot, in its order. */
    method Bootstrap(stuck: set<ContainerId>)
      modifies this
      ensures State() == BootOf(old(State()), stuck)
    {
      var known := ListActiveContainerIds();
      ReconcileOrphans(known, stuck);
      MarkOrphanedSessionsError(containers);
    }
  }
}
