/**
 Every complete run of one call alone in the interleaved machine, time passing as it likes, ends with a result
 of that call's function in `SessionCalls`. With `SessionAlone` the two models of the service agree.
 */
module SessionLone {
  import opened Options
  import opened SessionModel
  import opened SessionCalls
  import opened SessionAlone

  // ---------------------------------------------------------------------------------------------
  // One call's run
  // ---------------------------------------------------------------------------------------------

  /** A step of the call, after its beginning. */
  predicate StepOf(e: Event, id: CallId) {
    match e
    case PriorFound(x, _) => x == id
    case Proceed(x, _) => x == id
    case Inserted(x, _) => x == id
    case Created(x, _) => x == id
    case Ran(x, _) => x == id
    case SolvedFound(x, _) => x == id
    case SweepDone(x) => x == id
    case _ => false
  }

  /** Nothing but this call's steps and time passing, to its end. */
  ghost predicate Completes(w: World, es: seq<Event>, id: CallId) {
    && Run(w, es) && After(w, es).calls == map[]
    && forall i | 0 <= i < |es| :: es[i].Advance? || StepOf(es[i], id)
  }

  lemma Tail(w: World, es: seq<Event>, id: CallId)
    requires Completes(w, es, id) && es != []
    ensures Enabled(w, es[0]) && (es[0].Advance? || StepOf(es[0], id)) && Completes(Next(w, es[0]), es[1..], id)
    ensures After(w, es) == After(Next(w, es[0]), es[1..])
  {
    assert forall i | 0 <= i < |es| - 1 :: es[1..][i] == es[i + 1];
  }

  /** With no call in flight only time passes. */
  lemma {:induction false} Idles(w: World, es: seq<Event>, id: CallId)
    requires Completes(w, es, id) && w.calls == map[]
    ensures DbOf(After(w, es)) == DbOf(w)
    decreases |es|
  {
    if es != [] {
      Tail(w, es, id);
      Idles(Next(w, es[0]), es[1..], id);
    }
  }

  /** The call's next step comes, after some time. */
  lemma {:induction false} Awaits(w: World, es: seq<Event>, id: CallId) returns (e: Event, u: World, rest: seq<Event>)
    requires Completes(w, es, id) && id in w.calls
    ensures StepOf(e, id) && u == w.(now := u.now) && u.now >= w.now && Enabled(u, e)
    ensures Completes(Next(u, e), rest, id) && After(Next(u, e), rest) == After(w, es) && |rest| < |es|
    decreases |es|
  {
    Tail(w, es, id);
    if es[0].Advance? {
      e, u, rest := Awaits(Next(w, es[0]), es[1..], id);
    } else {
      e, u, rest := es[0], w, es[1..];
    }
  }

  // ---------------------------------------------------------------------------------------------
  // Stops
  // ---------------------------------------------------------------------------------------------

  lemma MarkRuns(w: World, es: seq<Event>, id: CallId, s: SessionId, t: Then) returns (v: World, rest: seq<Event>)
    requires Completes(w, es, id) && w.calls == map[id := StopMark(s, t)]
    ensures v == w.(now := v.now, rows := SetStatus(w.rows, s, Abandoned), calls := GoOn(map[], id, t))
      && v.now >= w.now
    ensures Completes(v, rest, id) && After(v, rest) == After(w, es)
  {
    var e, u, r := Awaits(w, es, id);
    v, rest := Next(u, e), r;
    assert GoOn(u.calls, id, t) == GoOn(map[], id, t);
  }

  /** From the removal of its container on, a stop either fails or goes on to its caller. */
  lemma DestroyRuns(w: World, es: seq<Event>, id: CallId, s: SessionId, c: ContainerId, t: Then)
    returns (v: World, rest: seq<Event>, stuck: set<ContainerId>)
    requires Completes(w, es, id) && w.calls == map[id := StopDestroy(s, c, t)] && s in w.rows
      && w.rows[s].container == Some(c)
    ensures
      var db := Stop(DbOf(w), s, Abandoned, stuck);
      v == w.(now := v.now, rows := db.rows, containers := db.containers,
        calls := if StopThrows(DbOf(w), s, stuck) then map[] else GoOn(map[], id, t)) && v.now >= w.now
    ensures Completes(v, rest, id) && After(v, rest) == After(w, es)
  {
    var e, u, r := Awaits(w, es, id);
    v, rest := Next(u, e), r;
    if e.ok {
      stuck := {};
      assert v == u.(calls := map[id := StopMark(s, t)], containers := w.containers - {c});
      v, rest := MarkRuns(v, rest, id, s, t);
    } else {
      stuck := {c};
      assert c in ContainerOf(w.rows, s) * stuck;
      assert u.calls - {id} == map[];
    }
  }

  lemma ReadRuns(w: World, es: seq<Event>, id: CallId, s: SessionId, t: Then)
    returns (v: World, rest: seq<Event>, stuck: set<ContainerId>)
    requires Completes(w, es, id) && w.calls == map[id := StopRead(s, t)] && s in w.rows
    ensures
      var db := Stop(DbOf(w), s, Abandoned, stuck);
      v == w.(now := v.now, rows := db.rows, containers := db.containers,
        calls := if StopThrows(DbOf(w), s, stuck) then map[] else GoOn(map[], id, t)) && v.now >= w.now
    ensures Completes(v, rest, id) && After(v, rest) == After(w, es)
  {
    var e, u, r := Awaits(w, es, id);
    v, rest := Next(u, e), r;
    if w.rows[s].container.None? {
      stuck := {};
      assert v == u.(calls := map[id := StopMark(s, t)]);
      v, rest := MarkRuns(v, rest, id, s, t);
    } else {
      assert v == u.(calls := map[id := StopDestroy(s, w.rows[s].container.value, t)]);
      v, rest, stuck := DestroyRuns(v, rest, id, s, w.rows[s].container.value, t);
    }
  }

  /** Every lone stop is the function's, for some outcome of the removal. */
  lemma EveryStop(w: World, id: CallId, s: SessionId, user: UserId, es: seq<Event>) returns (stuck: set<ContainerId>)
    requires w.calls == map[] && Completes(Next(w, StopBegin(id, s, user)), es, id)
    ensures DbOf(After(Next(w, StopBegin(id, s, user)), es)) == StopBy(DbOf(w), s, user, Abandoned, stuck)
  {
    stuck := {};
    var v, rest := Next(w, StopBegin(id, s, user)), es;
    if s in w.rows && w.rows[s].user == user {
      if w.rows[s].container.None? {
        assert v == w.(calls := map[id := StopMark(s, Return)]);
        v, rest := MarkRuns(v, es, id, s, Return);
      } else {
        assert v == w.(calls := map[id := StopDestroy(s, w.rows[s].container.value, Return)]);
        v, rest, stuck := DestroyRuns(v, es, id, s, w.rows[s].container.value, Return);
      }
    }
    Idles(v, rest, id);
  }

  // ---------------------------------------------------------------------------------------------
  // Starts
  // ---------------------------------------------------------------------------------------------

  lemma CreatingRuns(w: World, es: seq<Event>, id: CallId, s: SessionId) returns (k: Option<ContainerId>)
    requires Completes(w, es, id) && w.calls == map[id := Create(s)]
    ensures
      DbOf(After(w, es))
      == match k
         case None => DbOf(w).(rows := SetStatus(w.rows, s, Error))
         case Some(c) => DbOf(w).(rows := SetContainer(w.rows, s, c), containers := w.containers + {c})
    ensures k.Some? ==> k.value !in w.containers
  {
    var e, u, r := Awaits(w, es, id);
    var v := Next(u, e);
    if e.Created? {
      k := Some(e.container);
      assert v.calls == map[id := Store(s, e.container)];
    } else {
      k := None;
      assert v.calls == map[id := Fail(s)];
    }
    var f, x, q := Awaits(v, r, id);
    assert Next(x, f).calls == map[];
    Idles(Next(x, f), q, id);
  }

  lemma InsertRuns(w: World, es: seq<Event>, id: CallId, user: UserId, ch: ChallengeId)
    returns (s: SessionId, k: Option<ContainerId>, at: nat)
    requires Completes(w, es, id) && w.calls == map[id := InsertRow(user, ch)]
    ensures DbOf(After(w, es)) == Launch(DbOf(w), user, ch, s, k, at)
    ensures s !in w.rows && at >= w.now && (k.Some? ==> k.value !in w.containers)
  {
    var e, u, r := Awaits(w, es, id);
    s, at := e.session, u.now;
    assert Next(u, e) == u.(calls := map[id := Create(s)], rows := w.rows[s := NewRow(user, ch, at)]);
    k := CreatingRuns(Next(u, e), r, id, s);
  }

  lemma PriorRuns(w: World, es: seq<Event>, id: CallId, user: UserId, ch: ChallengeId)
    returns (prior: Option<SessionId>, s: SessionId, k: Option<ContainerId>, at: nat, stuck: set<ContainerId>)
    requires Completes(w, es, id) && w.calls == map[id := FindPrior(user, ch)] && |ActiveIds(w.rows)| < w.config.cap
    ensures prior.Some? ==> prior.value in ActiveIds(w.rows) && w.rows[prior.value].user == user
    ensures prior.None? ==> forall x | x in ActiveIds(w.rows) :: w.rows[x].user != user
    ensures DbOf(After(w, es)) == Start(DbOf(w), w.config.cap, user, ch, prior, s, k, at, stuck)
  {
    var e, u, r := Awaits(w, es, id);
    prior := e.prior;
    var v := Next(u, e);
    if prior.None? {
      stuck := {};
      assert v.calls == map[id := InsertRow(user, ch)];
      s, k, at := InsertRuns(v, r, id, user, ch);
    } else {
      assert v.calls == map[id := StopRead(prior.value, InsertFor(user, ch))];
      var rest: seq<Event>;
      v, rest, stuck := ReadRuns(v, r, id, prior.value, InsertFor(user, ch));
      if StopThrows(DbOf(w), prior.value, stuck) {
        Idles(v, rest, id);
        s, k, at := 0, None, 0;
      } else {
        s, k, at := InsertRuns(v, rest, id, user, ch);
      }
    }
  }

  /** Every lone start is the function's, for some prior session of the user, new ids, time and Docker outcomes. */
  lemma EveryStart(w: World, id: CallId, user: UserId, ch: ChallengeId, es: seq<Event>)
    returns (prior: Option<SessionId>, s: SessionId, k: Option<ContainerId>, at: nat, stuck: set<ContainerId>)
    requires w.calls == map[] && Completes(Next(w, StartBegin(id, user, ch)), es, id)
    ensures |ActiveIds(w.rows)| < w.config.cap ==>
      && (prior.Some? ==> prior.value in ActiveIds(w.rows) && w.rows[prior.value].user == user)
      && (prior.None? ==> forall x | x in ActiveIds(w.rows) :: w.rows[x].user != user)
    ensures DbOf(After(Next(w, StartBegin(id, user, ch)), es))
      == Start(DbOf(w), w.config.cap, user, ch, prior, s, k, at, stuck)
  {
    var v := Next(w, StartBegin(id, user, ch));
    if |ActiveIds(w.rows)| >= w.config.cap {
      Idles(v, es, id);
      prior, s, k, at, stuck := None, 0, None, 0, {};
    } else {
      prior, s, k, at, stuck := PriorRuns(v, es, id, user, ch);
    }
  }

  // ---------------------------------------------------------------------------------------------
  // Checks
  // ---------------------------------------------------------------------------------------------

  /** What a check leaves once its script has answered. */
  function Checked(db: Db, c: SessionModel.Call, now: nat, later: nat): Db
    requires c.Check?
  {
    var u := Upsert(c.user, c.challenge, c.passed, c.hints, later);
    var key := (c.user, c.challenge);
    Db(if c.passed then SetSolved(db.rows, c.session, now) else SetStatus(db.rows, c.session, Running), db.containers,
       db.attempts + [Attempt(c.session, c.passed)], db.progress[key := UpsertProgress(Lookup(db.progress, key), u)])
  }

  lemma UpsertRuns(w: World, es: seq<Event>, id: CallId, c: SessionModel.Call) returns (later: nat)
    requires Completes(w, es, id) && c.Check? && c.phase.ToUpsert? && w.calls == map[id := c]
    ensures
      var u := Upsert(c.user, c.challenge, c.passed, c.hints, later);
      var key := (c.user, c.challenge);
      DbOf(After(w, es)) == DbOf(w).(progress := w.progress[key := UpsertProgress(Lookup(w.progress, key), u)])
    ensures later >= w.now
  {
    var e, u, r := Awaits(w, es, id);
    later := u.now;
    assert Next(u, e).calls == map[];
    Idles(Next(u, e), r, id);
  }

  lemma InsertedRuns(w: World, es: seq<Event>, id: CallId, c: SessionModel.Call) returns (now: nat, later: nat)
    requires Completes(w, es, id) && c.Check? && c.phase.ToInsert? && w.calls == map[id := c]
    ensures DbOf(After(w, es)) == Checked(DbOf(w), c, now, later) && w.now <= now <= later
  {
    var e, u, r := Awaits(w, es, id);
    var v := u.(calls := map[id := c.(phase := ToStore)], attempts := w.attempts + [Attempt(c.session, c.passed)]);
    InsertsAttempt(u, id, c);
    assert v == Next(u, e);
    var f, x, q := Awaits(v, r, id);
    now := x.now;
    StoresOutcome(x, id, c.(phase := ToStore), f);
    later := UpsertRuns(Next(x, f), q, id, c.(phase := ToUpsert));
  }

  lemma StoresOutcome(w: World, id: CallId, c: SessionModel.Call, e: Event)
    requires c.Check? && c.phase.ToStore? && w.calls == map[id := c] && Enabled(w, e) && StepOf(e, id)
    ensures Next(w, e)
      == w.(calls := map[id := c.(phase := ToUpsert)],
            rows := if c.passed then SetSolved(w.rows, c.session, w.now) else SetStatus(w.rows, c.session, Running))
  {
  }

  lemma RunRuns(w: World, es: seq<Event>, id: CallId, c: SessionModel.Call)
    returns (result: Option<bool>, now: nat, later: nat)
    requires Completes(w, es, id) && c.Check? && c.phase.ToRun? && w.calls == map[id := c]
    ensures DbOf(After(w, es)) == if result.None? then DbOf(w)
      else Checked(DbOf(w), c.(passed := result.value), now, later)
    ensures w.now <= now <= later
  {
    var e, u, r := Awaits(w, es, id);
    if e.Ran? {
      result := Some(e.passed);
      var d := c.(phase := ToInsert, passed := e.passed);
      assert Next(u, e) == u.(calls := map[id := d]);
      now, later := InsertedRuns(Next(u, e), r, id, d);
    } else {
      result, now, later := None, w.now, w.now;
      assert Next(u, e).calls == map[];
      Idles(Next(u, e), r, id);
    }
  }

  /** Every lone check is the function's, for some answer of the script and some times of its updates. */
  lemma EveryCheck(w: World, id: CallId, s: SessionId, user: UserId, es: seq<Event>)
    returns (result: Option<bool>, now: nat, later: nat)
    requires w.calls == map[] && Completes(Next(w, CheckBegin(id, s, user)), es, id)
    ensures DbOf(After(Next(w, CheckBegin(id, s, user)), es)) == CheckOf(DbOf(w), s, user, result, now, later)
    ensures w.now <= now <= later
  {
    var v := Next(w, CheckBegin(id, s, user));
    if s in w.rows && w.rows[s].user == user && w.rows[s].container.Some? {
      var c := Check(ToMark, s, user, w.rows[s].challenge, w.rows[s].hints, false);
      assert v == w.(calls := map[id := c]);
      var e, u, r := Awaits(v, es, id);
      assert Next(u, e) == u.(calls := map[id := c.(phase := ToRun)], rows := SetStatus(w.rows, s, Checking));
      result, now, later := RunRuns(Next(u, e), r, id, c.(phase := ToRun));
    } else {
      Idles(v, es, id);
      result, now, later := None, w.now, w.now;
    }
  }

  // ---------------------------------------------------------------------------------------------
  // Reaper and drain
  // ---------------------------------------------------------------------------------------------

  /** The rows of `ids` marked and these containers gone. */
  function SweptWith(db: Db, kind: SweepKind, ids: set<SessionId>, gone: set<ContainerId>): Db {
    SweepOf(db, kind, ids, {}).(containers := db.containers - gone)
  }

  lemma HeadRuns(w: World, es: seq<Event>, id: CallId, kind: SweepKind, queue: Queue)
    returns (v: World, rest: seq<Event>, gone: set<ContainerId>)
    requires Completes(w, es, id) && w.calls == map[id := Sweep(kind, false, queue)] && queue != []
      && IsResult(w.rows, queue)
    ensures v == w.(now := v.now, rows := SweepMarked(w.rows, kind, queue[0].0), containers := w.containers - gone,
                    calls := map[id := Sweep(kind, false, queue[1..])]) && v.now >= w.now
    ensures gone <= ContainerOf(w.rows, queue[0].0)
    ensures Completes(v, rest, id) && After(v, rest) == After(w, es) && |rest| < |es|
  {
    var e, u, r := Awaits(w, es, id);
    gone := if e.ok then ContainerOf(w.rows, queue[0].0) else {};
    var x := u.(containers := w.containers - gone, calls := map[id := Sweep(kind, true, queue)]);
    assert x == Next(u, e);
    var f, y, q := Awaits(x, r, id);
    HeadMarks(y, id, kind, queue);
    v, rest := Next(y, f), q;
  }

  lemma {:induction false} LoopRuns(w: World, es: seq<Event>, id: CallId, kind: SweepKind, queue: Queue)
    returns (v: World, rest: seq<Event>, gone: set<ContainerId>)
    requires Completes(w, es, id) && w.calls == map[id := Sweep(kind, false, queue)] && IsResult(w.rows, queue)
    ensures
      var db := SweptWith(DbOf(w), kind, Ids(queue), gone);
      v == w.(now := v.now, rows := db.rows, containers := db.containers, calls := map[id := Sweep(kind, false, [])])
        && v.now >= w.now
    ensures gone <= Named(w.rows, Ids(queue))
    ensures Completes(v, rest, id) && After(v, rest) == After(w, es)
    decreases |es|
  {
    if queue == [] {
      v, rest, gone := w, es, {};
      assert SweptWith(DbOf(w), kind, {}, {}) == DbOf(w);
    } else {
      var u, r, first := HeadRuns(w, es, id, kind, queue);
      RestIsResult(w.rows, kind, queue);
      v, rest, gone := LoopRuns(u, r, id, kind, queue[1..]);
      SweptWithOneMore(DbOf(w), kind, queue[0].0, Ids(queue[1..]), first, gone);
      gone := first + gone;
    }
  }

  lemma SweptWithOneMore(db: Db, kind: SweepKind, s: SessionId, ids: set<SessionId>, first: set<ContainerId>,
      gone: set<ContainerId>)
    requires s in db.rows && s !in ids
    requires first <= ContainerOf(db.rows, s) && gone <= Named(SweepMarked(db.rows, kind, s), ids)
    ensures
      var one := db.(rows := SweepMarked(db.rows, kind, s), containers := db.containers - first);
      SweptWith(one, kind, ids, gone) == SweptWith(db, kind, {s} + ids, first + gone)
    ensures first + gone <= Named(db.rows, {s} + ids)
  {
    SweepOne(db, kind, s, {});
    SweepsCompose(db, kind, s, ids, {});
    var one := db.(rows := SweepMarked(db.rows, kind, s), containers := db.containers - first);
    assert SweptWith(one, kind, ids, gone).rows == SweepOf(db, kind, {s} + ids, {}).rows;
  }

  /** Every lone reaper tick is the function's, for some time of its second query and some outcome of each removal. */
  lemma EveryReap(w: World, id: CallId, queue: Queue, es: seq<Event>) returns (later: nat, stuck: set<ContainerId>)
    requires w.calls == map[] && Enabled(w, ReapBegin(id, queue)) && Completes(Next(w, ReapBegin(id, queue)), es, id)
    ensures DbOf(After(Next(w, ReapBegin(id, queue)), es)) == Reap(DbOf(w), w.config, w.now, later, stuck)
      && later >= w.now
  {
    var begun := w.(calls := map[id := Sweep(Idle, false, queue)]);
    assert begun == Next(w, ReapBegin(id, queue));
    var idle, r, gone1 := LoopRuns(begun, es, id, Idle, queue);
    var e, u, q := Awaits(idle, r, id);
    later := u.now;
    var found := u.(calls := map[id := Sweep(SolvedGrace, false, e.queue)]);
    assert found == Next(u, e);
    var done, rest, gone2 := LoopRuns(found, q, id, SolvedGrace, e.queue);
    SweepCloseRuns(done, rest, id);
    var named1 := Named(w.rows, IdleIds(w.rows, w.now, w.config.idleMs));
    var named2 := Named(idle.rows, OverdueIds(idle.rows, later, w.config.solvedGraceMs));
    stuck := (named1 + named2) - (gone1 + gone2);
    ReapWith(DbOf(w), w.config, w.now, later, gone1, gone2);
  }

  lemma SweepCloseRuns(w: World, es: seq<Event>, id: CallId)
    requires Completes(w, es, id) && (w.calls == map[id := Sweep(SolvedGrace, false, [])]
      || w.calls == map[id := Sweep(Drain, false, [])])
    ensures DbOf(After(w, es)) == DbOf(w)
  {
    var e, u, r := Awaits(w, es, id);
    assert Next(u, e).calls == map[];
    Idles(Next(u, e), r, id);
  }

  lemma ReapWith(db: Db, config: Config, now: nat, later: nat, gone1: set<ContainerId>, gone2: set<ContainerId>)
    requires gone1 <= Named(db.rows, IdleIds(db.rows, now, config.idleMs))
    requires
      var idle := SweptWith(db, Idle, IdleIds(db.rows, now, config.idleMs), gone1);
      gone2 <= Named(idle.rows, OverdueIds(idle.rows, later, config.solvedGraceMs))
    ensures
      var idle := SweptWith(db, Idle, IdleIds(db.rows, now, config.idleMs), gone1);
      var overdue := OverdueIds(idle.rows, later, config.solvedGraceMs);
      var stuck := (Named(db.rows, IdleIds(db.rows, now, config.idleMs)) + Named(idle.rows, overdue)) - (gone1 + gone2);
      SweptWith(idle, SolvedGrace, overdue, gone2) == Reap(db, config, now, later, stuck)
  {
    var ids := IdleIds(db.rows, now, config.idleMs);
    var idle := SweptWith(db, Idle, ids, gone1);
    var overdue := OverdueIds(idle.rows, later, config.solvedGraceMs);
    var stuck := (Named(db.rows, ids) + Named(idle.rows, overdue)) - (gone1 + gone2);
    var first := SweepOf(db, Idle, ids, stuck);
    assert first.rows == idle.rows;
    assert SweptWith(idle, SolvedGrace, overdue, gone2).containers
      == SweepOf(first, SolvedGrace, overdue, stuck).containers;
  }

  /** Every lone drain is the function's, for some outcome of each removal. */
  lemma EveryDrain(w: World, id: CallId, queue: Queue, es: seq<Event>) returns (stuck: set<ContainerId>)
    requires w.calls == map[] && Enabled(w, DrainBegin(id, queue)) && Completes(Next(w, DrainBegin(id, queue)), es, id)
    ensures DbOf(After(Next(w, DrainBegin(id, queue)), es)) == DrainOf(DbOf(w), stuck)
  {
    var begun := w.(calls := map[id := Sweep(Drain, false, queue)]);
    assert begun == Next(w, DrainBegin(id, queue));
    var done, rest, gone := LoopRuns(begun, es, id, Drain, queue);
    SweepCloseRuns(done, rest, id);
    stuck := Named(w.rows, DrainIds(w.rows)) - gone;
    assert Named(w.rows, DrainIds(w.rows)) - stuck == gone;
  }
}
