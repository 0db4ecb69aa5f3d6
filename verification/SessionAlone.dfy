/**
 Every result of a function in `SessionCalls` is that of some run of its call alone in the interleaved
 machine, for every database and every Docker outcome. `SessionLone` has the other direction.
 */
module SessionAlone {
  import opened Options
  import opened SessionModel
  import opened SessionCalls

  function DbOf(w: World): Db { Db(w.rows, w.containers, w.attempts, w.progress) }

  /** The run brings the machine, with no call in flight before or after, to this database. */
  ghost predicate Gives(w: World, es: seq<Event>, db: Db) {
    Run(w, es) && After(w, es).calls == map[] && DbOf(After(w, es)) == db
  }

  function Outcome(rows: Rows, s: SessionId, stuck: set<ContainerId>): bool { ContainerOf(rows, s) * stuck == {} }

  /** The removal of a stop's container, and what follows it. */
  lemma DestroySteps(w0: World, es: seq<Event>, w: World, id: CallId, s: SessionId, c: ContainerId, t: Then,
      stuck: set<ContainerId>)
    returns (run: seq<Event>)
    requires Leads(w0, es, w) && w.calls == map[id := StopDestroy(s, c, t)] && s in w.rows
      && w.rows[s].container == Some(c)
    ensures
      var db := Stop(DbOf(w), s, Abandoned, stuck);
      Leads(w0, run, w.(rows := db.rows, containers := db.containers,
        calls := if StopThrows(DbOf(w), s, stuck) then map[] else GoOn(map[], id, t)))
  {
    var ok := c !in stuck;
    Snoc(w0, es, w, Proceed(id, ok));
    run := es + [Proceed(id, ok)];
    if ok {
      var w2 := w.(calls := map[id := StopMark(s, t)], containers := w.containers - {c});
      assert w2 == Next(w, Proceed(id, ok));
      MarkStep(w0, run, w2, id, s, t);
      run := run + [Proceed(id, true)];
    } else {
      assert c in ContainerOf(w.rows, s) * stuck;
      assert w.(calls := map[]) == Next(w, Proceed(id, ok));
    }
  }

  /** A stop from its first query on, whoever asked for it. */
  lemma StopSteps(w0: World, es: seq<Event>, w: World, id: CallId, s: SessionId, t: Then, stuck: set<ContainerId>)
    returns (run: seq<Event>)
    requires Leads(w0, es, w) && w.calls == map[id := StopRead(s, t)] && s in w.rows
    ensures
      var db := Stop(DbOf(w), s, Abandoned, stuck);
      Leads(w0, run, w.(rows := db.rows, containers := db.containers,
        calls := if StopThrows(DbOf(w), s, stuck) then map[] else GoOn(map[], id, t)))
  {
    Snoc(w0, es, w, Proceed(id, true));
    run := es + [Proceed(id, true)];
    if w.rows[s].container.None? {
      var w1 := w.(calls := map[id := StopMark(s, t)]);
      assert w1 == Next(w, Proceed(id, true));
      MarkStep(w0, run, w1, id, s, t);
      run := run + [Proceed(id, true)];
    } else {
      var c := w.rows[s].container.value;
      var w1 := w.(calls := map[id := StopDestroy(s, c, t)]);
      assert w1 == Next(w, Proceed(id, true));
      run := DestroySteps(w0, run, w1, id, s, c, t, stuck);
    }
  }

  lemma MarkStep(w0: World, es: seq<Event>, w: World, id: CallId, s: SessionId, t: Then)
    requires Leads(w0, es, w) && w.calls == map[id := StopMark(s, t)]
    ensures Leads(w0, es + [Proceed(id, true)],
      w.(rows := SetStatus(w.rows, s, Abandoned), calls := GoOn(map[], id, t)))
  {
    Snoc(w0, es, w, Proceed(id, true));
    assert GoOn(w.calls, id, t) == GoOn(map[], id, t);
  }

  lemma StopAlone(w: World, id: CallId, s: SessionId, user: UserId, stuck: set<ContainerId>) returns (es: seq<Event>)
    requires w.calls == map[]
    ensures Gives(w, es, StopBy(DbOf(w), s, user, Abandoned, stuck))
  {
    Snoc(w, [], w, StopBegin(id, s, user));
    es := [] + [StopBegin(id, s, user)];
    if s in w.rows && w.rows[s].user == user {
      if w.rows[s].container.None? {
        var w1 := w.(calls := map[id := StopMark(s, Return)]);
        assert w1 == Next(w, StopBegin(id, s, user));
        MarkStep(w, es, w1, id, s, Return);
        es := es + [Proceed(id, true)];
      } else {
        var c := w.rows[s].container.value;
        var w1 := w.(calls := map[id := StopDestroy(s, c, Return)]);
        assert w1 == Next(w, StopBegin(id, s, user));
        es := DestroySteps(w, es, w1, id, s, c, Return, stuck);
      }
    }
  }

  /** The insert and what follows it. */
  lemma LaunchSteps(w0: World, es: seq<Event>, w: World, id: CallId, user: UserId, ch: ChallengeId, s: SessionId,
      k: Option<ContainerId>)
    returns (run: seq<Event>)
    requires Leads(w0, es, w) && w.calls == map[id := InsertRow(user, ch)] && s !in w.rows
      && (k.Some? ==> k.value !in w.containers)
    ensures
      var db := Launch(DbOf(w), user, ch, s, k, w.now);
      Leads(w0, run, w.(rows := db.rows, containers := db.containers, calls := map[]))
  {
    var w1 := w.(calls := map[id := Create(s)], rows := w.rows[s := NewRow(user, ch, w.now)]);
    assert w1 == Next(w, Inserted(id, s));
    Snoc(w0, es, w, Inserted(id, s));
    run := es + [Inserted(id, s)];
    var e := if k.Some? then Created(id, k.value) else Proceed(id, false);
    Snoc(w0, run, w1, e);
    run := run + [e];
    LaunchEnds(w0, run, w, w1, id, user, ch, s, k);
    run := run + [Proceed(id, true)];
  }

  lemma LaunchEnds(w0: World, es: seq<Event>, w: World, w1: World, id: CallId, user: UserId, ch: ChallengeId,
      s: SessionId, k: Option<ContainerId>)
    requires w1 == w.(calls := map[id := Create(s)], rows := w.rows[s := NewRow(user, ch, w.now)])
    requires Leads(w0, es, Next(w1, if k.Some? then Created(id, k.value) else Proceed(id, false)))
    requires w.calls == map[id := InsertRow(user, ch)] && s !in w.rows && (k.Some? ==> k.value !in w.containers)
    ensures
      var db := Launch(DbOf(w), user, ch, s, k, w.now);
      Leads(w0, es + [Proceed(id, true)], w.(rows := db.rows, containers := db.containers, calls := map[]))
  {
    var w2 := Next(w1, if k.Some? then Created(id, k.value) else Proceed(id, false));
    Snoc(w0, es, w2, Proceed(id, true));
    assert w2.calls - {id} == map[];
  }

  lemma WaitThenLaunch(
    w0: World, es: seq<Event>, w: World, id: CallId, user: UserId, ch: ChallengeId, s: SessionId,
      k: Option<ContainerId>, wait: nat)
    returns (run: seq<Event>)
    requires Leads(w0, es, w) && w.calls == map[id := InsertRow(user, ch)] && s !in w.rows
      && (k.Some? ==> k.value !in w.containers)
    ensures Gives(w0, run, Launch(DbOf(w), user, ch, s, k, w.now + wait))
  {
    Snoc(w0, es, w, Advance(wait));
    run := LaunchSteps(w0, es + [Advance(wait)], w.(now := w.now + wait), id, user, ch, s, k);
  }

  /** A start alone, with any prior session the query may return and any time before its insert. */
  lemma StartAlone(
    w: World, id: CallId, user: UserId, ch: ChallengeId, prior: Option<SessionId>,
    s: SessionId, k: Option<ContainerId>, wait: nat, stuck: set<ContainerId>) returns (es: seq<Event>)
    requires w.calls == map[] && s !in w.rows && (k.Some? ==> k.value !in w.containers)
    requires prior.Some? ==> prior.value in ActiveIds(w.rows) && w.rows[prior.value].user == user
    requires prior.None? ==> forall x | x in ActiveIds(w.rows) :: w.rows[x].user != user
    ensures Gives(w, es, Start(DbOf(w), w.config.cap, user, ch, prior, s, k, w.now + wait, stuck))
  {
    Snoc(w, [], w, StartBegin(id, user, ch));
    es := [] + [StartBegin(id, user, ch)];
    if |ActiveIds(w.rows)| < w.config.cap {
      es := StartGoesOn(w, es, id, user, ch, prior, s, k, wait, stuck);
    }
  }

  lemma StartGoesOn(
    w: World, es: seq<Event>, id: CallId, user: UserId, ch: ChallengeId, prior: Option<SessionId>,
    s: SessionId, k: Option<ContainerId>, wait: nat, stuck: set<ContainerId>) returns (run: seq<Event>)
    requires w.calls == map[] && s !in w.rows && (k.Some? ==> k.value !in w.containers)
      && |ActiveIds(w.rows)| < w.config.cap
    requires prior.Some? ==> prior.value in ActiveIds(w.rows) && w.rows[prior.value].user == user
    requires prior.None? ==> forall x | x in ActiveIds(w.rows) :: w.rows[x].user != user
    requires Leads(w, es, w.(calls := map[id := FindPrior(user, ch)]))
    ensures Gives(w, run, Start(DbOf(w), w.config.cap, user, ch, prior, s, k, w.now + wait, stuck))
  {
    var w1 := w.(calls := map[id := FindPrior(user, ch)]);
    Snoc(w, es, w1, PriorFound(id, prior));
    run := es + [PriorFound(id, prior)];
    if prior.None? {
      var w2 := w.(calls := map[id := InsertRow(user, ch)]);
      assert w2 == Next(w1, PriorFound(id, prior));
      run := WaitThenLaunch(w, run, w2, id, user, ch, s, k, wait);
    } else {
      assert w.(calls := map[id := StopRead(prior.value, InsertFor(user, ch))]) == Next(w1, PriorFound(id, prior));
      run := StartStops(w, run, id, user, ch, prior.value, s, k, wait, stuck);
    }
  }

  lemma StartStops(
    w: World, es: seq<Event>, id: CallId, user: UserId, ch: ChallengeId, prior: SessionId,
    s: SessionId, k: Option<ContainerId>, wait: nat, stuck: set<ContainerId>) returns (run: seq<Event>)
    requires w.calls == map[] && s !in w.rows && (k.Some? ==> k.value !in w.containers)
      && |ActiveIds(w.rows)| < w.config.cap
    requires prior in w.rows && Leads(w, es, w.(calls := map[id := StopRead(prior, InsertFor(user, ch))]))
    ensures Gives(w, run, Start(DbOf(w), w.config.cap, user, ch, Some(prior), s, k, w.now + wait, stuck))
  {
    var w2 := w.(calls := map[id := StopRead(prior, InsertFor(user, ch))]);
    run := StopSteps(w, es, w2, id, prior, InsertFor(user, ch), stuck);
    if !StopThrows(DbOf(w), prior, stuck) {
      var db := Stop(DbOf(w2), prior, Abandoned, stuck);
      run := WaitThenLaunch(w, run, w2.(rows := db.rows, containers := db.containers,
        calls := map[id := InsertRow(user, ch)]),
                            id, user, ch, s, k, wait);
    }
  }

  /** A check alone, whatever the script said or if running it threw, and however long its updates wait. */
  lemma CheckAlone(w: World, id: CallId, s: SessionId, user: UserId, result: Option<bool>, wait: nat, more: nat)
    returns (es: seq<Event>)
    requires w.calls == map[]
    ensures Gives(w, es, CheckOf(DbOf(w), s, user, result, w.now + wait, w.now + wait + more))
  {
    Snoc(w, [], w, CheckBegin(id, s, user));
    es := [] + [CheckBegin(id, s, user)];
    if s in w.rows && w.rows[s].user == user && w.rows[s].container.Some? {
      var c := Check(ToMark, s, user, w.rows[s].challenge, w.rows[s].hints, false);
      var w1 := w.(calls := map[id := c]);
      assert w1 == Next(w, CheckBegin(id, s, user));
      Snoc(w, es, w1, Proceed(id, true));
      es := es + [Proceed(id, true)];
      var w2 := w.(calls := map[id := c.(phase := ToRun)], rows := SetStatus(w.rows, s, Checking));
      assert w2 == Next(w1, Proceed(id, true));
      if result.None? {
        Snoc(w, es, w2, Proceed(id, false));
        es := es + [Proceed(id, false)];
        assert w2.calls - {id} == map[];
      } else {
        es := CheckEnds(w, es, w2, id, c.(phase := ToRun), result.value, wait, more);
      }
    }
  }

  lemma CheckEnds(
    w0: World, es: seq<Event>, w: World, id: CallId, c: SessionModel.Call, passed: bool, wait: nat, more: nat)
      returns (run: seq<Event>)
    requires Leads(w0, es, w) && c.Check? && c.phase.ToRun? && w.calls == map[id := c]
    ensures
      var rows := if passed then SetSolved(w.rows, c.session, w.now + wait) else SetStatus(w.rows, c.session, Running);
      var u := Upsert(c.user, c.challenge, passed, c.hints, w.now + wait + more);
      var key := (c.user, c.challenge);
      Gives(w0, run, Db(rows, w.containers, w.attempts + [Attempt(c.session, passed)],
        w.progress[key := UpsertProgress(Lookup(w.progress, key), u)]))
  {
    Snoc(w0, es, w, Ran(id, passed));
    var w2 := CheckInserts(w0, es + [Ran(id, passed)], w, id, c, passed);
    Snoc(w0, es + [Ran(id, passed)] + [Proceed(id, true)], w2, Advance(wait));
    run := CheckStores(w0, es + [Ran(id, passed)] + [Proceed(id, true)] + [Advance(wait)], w2.(now := w.now + wait), id,
                       c.(phase := ToStore, passed := passed), more);
  }

  lemma CheckInserts(w0: World, es: seq<Event>, w: World, id: CallId, c: SessionModel.Call, passed: bool)
    returns (v: World)
    requires c.Check? && c.phase.ToRun? && w.calls == map[id := c] && Leads(w0, es, Next(w, Ran(id, passed)))
    ensures v == w.(calls := map[id := c.(phase := ToStore, passed := passed)],
      attempts := w.attempts + [Attempt(c.session, passed)])
    ensures Leads(w0, es + [Proceed(id, true)], v)
  {
    var w1 := w.(calls := map[id := c.(phase := ToInsert, passed := passed)]);
    assert w1 == Next(w, Ran(id, passed));
    Snoc(w0, es, w1, Proceed(id, true));
    v := w.(calls := map[id := c.(phase := ToStore, passed := passed)],
      attempts := w.attempts + [Attempt(c.session, passed)]);
    InsertsAttempt(w1, id, c.(phase := ToInsert, passed := passed));
  }

  lemma InsertsAttempt(w: World, id: CallId, c: SessionModel.Call)
    requires c.Check? && c.phase.ToInsert? && w.calls == map[id := c]
    ensures Next(w, Proceed(id, true))
      == w.(calls := map[id := c.(phase := ToStore)], attempts := w.attempts + [Attempt(c.session, c.passed)])
  {
  }

  lemma CheckStores(w0: World, es: seq<Event>, w: World, id: CallId, c: SessionModel.Call, more: nat)
    returns (run: seq<Event>)
    requires Leads(w0, es, w) && c.Check? && c.phase.ToStore? && w.calls == map[id := c]
    ensures
      var rows := if c.passed then SetSolved(w.rows, c.session, w.now) else SetStatus(w.rows, c.session, Running);
      var u := Upsert(c.user, c.challenge, c.passed, c.hints, w.now + more);
      var key := (c.user, c.challenge);
      Gives(w0, run, Db(rows, w.containers, w.attempts, w.progress[key := UpsertProgress(Lookup(w.progress, key), u)]))
  {
    var rows := if c.passed then SetSolved(w.rows, c.session, w.now) else SetStatus(w.rows, c.session, Running);
    var w3 := w.(calls := map[id := c.(phase := ToUpsert)], rows := rows);
    assert w3 == Next(w, Proceed(id, true));
    Snoc(w0, es, w, Proceed(id, true));
    Snoc(w0, es + [Proceed(id, true)], w3, Advance(more));
    run := CheckUpserts(w0, es + [Proceed(id, true)] + [Advance(more)], w3.(now := w.now + more), id,
      c.(phase := ToUpsert));
  }

  lemma CheckUpserts(w0: World, es: seq<Event>, w: World, id: CallId, c: SessionModel.Call) returns (run: seq<Event>)
    requires Leads(w0, es, w) && c.Check? && c.phase.ToUpsert? && w.calls == map[id := c]
    ensures
      var u := Upsert(c.user, c.challenge, c.passed, c.hints, w.now);
      var key := (c.user, c.challenge);
      Gives(w0, run, DbOf(w).(progress := w.progress[key := UpsertProgress(Lookup(w.progress, key), u)]))
  {
    Snoc(w0, es, w, Proceed(id, true));
    run := es + [Proceed(id, true)];
    assert w.calls - {id} == map[];
  }

  // ---------------------------------------------------------------------------------------------
  // The reaper
  // ---------------------------------------------------------------------------------------------

  lemma {:induction false} QueryResult(rows: Rows, ids: set<SessionId>) returns (queue: Queue)
    requires ids <= rows.Keys
    ensures IsResult(rows, queue) && Ids(queue) == ids
    decreases |ids|
  {
    queue := [];
    if ids != {} {
      var s :| s in ids;
      var rest := QueryResult(rows, ids - {s});
      queue := [(s, rows[s].container)] + rest;
      forall i | 0 < i < |queue|
        ensures queue[i] == rest[i - 1] && queue[i].0 in ids - {s}
      {
        assert rest[i - 1].0 in Ids(rest);
      }
      forall x | x in ids
        ensures x in Ids(queue)
      {
        if x == s { assert queue[0].0 == s; }
        else {
          assert x in Ids(rest);
          var i :| 0 <= i < |rest| && rest[i].0 == x;
          assert queue[i + 1].0 == x;
        }
      }
    }
  }

  /** Two sweeps in a row are one of both. */
  lemma SweepsCompose(db: Db, kind: SweepKind, s: SessionId, ids: set<SessionId>, stuck: set<ContainerId>)
    requires s in db.rows && s !in ids
    ensures SweepOf(SweepOf(db, kind, {s}, stuck), kind, ids, stuck) == SweepOf(db, kind, {s} + ids, stuck)
  {
    var one := SweepOf(db, kind, {s}, stuck);
    var a, b := SweepOf(one, kind, ids, stuck), SweepOf(db, kind, {s} + ids, stuck);
    assert forall x | x in db.rows && x != s :: one.rows[x] == db.rows[x];
    assert Named(one.rows, ids) == Named(db.rows, ids);
    assert Named(db.rows, {s} + ids) == Named(db.rows, {s}) + Named(db.rows, ids);
    assert a.rows == b.rows;
    assert a.containers == b.containers;
  }

  lemma HeadSteps(w0: World, es: seq<Event>, w: World, id: CallId, kind: SweepKind, queue: Queue,
      stuck: set<ContainerId>)
    returns (run: seq<Event>)
    requires Leads(w0, es, w) && w.calls == map[id := Sweep(kind, false, queue)] && queue != []
      && IsResult(w.rows, queue)
    ensures
      var db := SweepOf(DbOf(w), kind, {queue[0].0}, stuck);
      Leads(w0, run, w.(rows := db.rows, containers := db.containers,
        calls := map[id := Sweep(kind, false, queue[1..])]))
  {
    var (s, c) := queue[0];
    var ok := c.None? || c.value !in stuck;
    var w1 := w.(calls := map[id := Sweep(kind, true, queue)],
      containers := w.containers - (ContainerOf(w.rows, s) - stuck));
    assert w1 == Next(w, Proceed(id, ok)) by { HeadDestroys(w, id, kind, queue, stuck); }
    Snoc(w0, es, w, Proceed(id, ok));
    run := es + [Proceed(id, ok)];
    Snoc(w0, run, w1, Proceed(id, true));
    run := run + [Proceed(id, true)];
    HeadMarks(w1, id, kind, queue);
    SweepOne(DbOf(w), kind, s, stuck);
  }

  lemma HeadDestroys(w: World, id: CallId, kind: SweepKind, queue: Queue, stuck: set<ContainerId>)
    requires w.calls == map[id := Sweep(kind, false, queue)] && queue != [] && IsResult(w.rows, queue)
    ensures
      Next(w, Proceed(id, queue[0].1.None? || queue[0].1.value !in stuck))
      == w.(calls := map[id := Sweep(kind, true, queue)],
        containers := w.containers - (ContainerOf(w.rows, queue[0].0) - stuck))
  {
  }

  lemma HeadMarks(w: World, id: CallId, kind: SweepKind, queue: Queue)
    requires w.calls == map[id := Sweep(kind, true, queue)] && queue != []
    ensures
      Next(w, Proceed(id, true))
      == w.(rows := SweepMarked(w.rows, kind, queue[0].0), calls := map[id := Sweep(kind, false, queue[1..])])
  {
  }

  lemma SweepOne(db: Db, kind: SweepKind, s: SessionId, stuck: set<ContainerId>)
    requires s in db.rows
    ensures SweepOf(db, kind, {s}, stuck)
      == db.(rows := SweepMarked(db.rows, kind, s), containers := db.containers - (ContainerOf(db.rows, s) - stuck))
  {
    assert Named(db.rows, {s}) == ContainerOf(db.rows, s);
    assert SweepOf(db, kind, {s}, stuck).rows == SweepMarked(db.rows, kind, s);
  }

  /** What is left of a query's result once the first row has been marked. */
  lemma RestIsResult(rows: Rows, kind: SweepKind, queue: Queue)
    requires queue != [] && IsResult(rows, queue)
    ensures IsResult(SweepMarked(rows, kind, queue[0].0), queue[1..])
    ensures Ids(queue) == {queue[0].0} + Ids(queue[1..]) && queue[0].0 !in Ids(queue[1..])
  {
    var rest := queue[1..];
    assert forall i | 0 <= i < |rest| :: rest[i] == queue[i + 1];
    forall x | x in Ids(queue)
      ensures x in {queue[0].0} + Ids(rest)
    {
      var i :| 0 <= i < |queue| && queue[i].0 == x;
      if i > 0 { assert rest[i - 1].0 == x; }
    }
  }

  /** The loop over a query's rows, whatever their order, sweeps exactly the set of them. */
  lemma {:induction false} LoopSteps(w0: World, es: seq<Event>, w: World, id: CallId, kind: SweepKind, queue: Queue,
      stuck: set<ContainerId>)
    returns (run: seq<Event>)
    requires Leads(w0, es, w) && w.calls == map[id := Sweep(kind, false, queue)] && IsResult(w.rows, queue)
    ensures
      var db := SweepOf(DbOf(w), kind, Ids(queue), stuck);
      Leads(w0, run, w.(rows := db.rows, containers := db.containers, calls := map[id := Sweep(kind, false, [])]))
    decreases |queue|
  {
    if queue == [] {
      run := es;
      assert SweepOf(DbOf(w), kind, {}, stuck) == DbOf(w);
      assert w == w.(rows := w.rows, containers := w.containers, calls := map[id := Sweep(kind, false, [])]);
    } else {
      var s := queue[0].0;
      var rest := queue[1..];
      run := HeadSteps(w0, es, w, id, kind, queue, stuck);
      var db := SweepOf(DbOf(w), kind, {s}, stuck);
      SweepOne(DbOf(w), kind, s, stuck);
      RestIsResult(w.rows, kind, queue);
      var v := w.(rows := db.rows, containers := db.containers, calls := map[id := Sweep(kind, false, rest)]);
      run := LoopSteps(w0, run, v, id, kind, rest, stuck);
      SweepsCompose(DbOf(w), kind, s, Ids(rest), stuck);
    }
  }

  /** A reaper tick alone, time passing between its two queries. */
  lemma ReapAlone(w: World, id: CallId, gap: nat, stuck: set<ContainerId>) returns (es: seq<Event>)
    requires w.calls == map[]
    ensures Gives(w, es, Reap(DbOf(w), w.config, w.now, w.now + gap, stuck))
  {
    var queue := QueryResult(w.rows, IdleIds(w.rows, w.now, w.config.idleMs));
    Snoc(w, [], w, ReapBegin(id, queue));
    var w1 := Next(w, ReapBegin(id, queue));
    es := LoopSteps(w, [] + [ReapBegin(id, queue)], w1, id, Idle, queue, stuck);
    var idle := SweepOf(DbOf(w), Idle, IdleIds(w.rows, w.now, w.config.idleMs), stuck);
    var w2 := w.(rows := idle.rows, containers := idle.containers, calls := map[id := Sweep(Idle, false, [])]);
    Snoc(w, es, w2, Advance(gap));
    es := es + [Advance(gap)];
    es := ReapSolved(w, es, w2.(now := w.now + gap), id, stuck);
  }

  lemma ReapSolved(w0: World, es: seq<Event>, w: World, id: CallId, stuck: set<ContainerId>) returns (run: seq<Event>)
    requires Leads(w0, es, w) && w.calls == map[id := Sweep(Idle, false, [])]
    ensures Gives(w0, run, SweepOf(DbOf(w), SolvedGrace, OverdueIds(w.rows, w.now, w.config.solvedGraceMs), stuck))
  {
    var queue := QueryResult(w.rows, OverdueIds(w.rows, w.now, w.config.solvedGraceMs));
    var w3 := w.(calls := map[id := Sweep(SolvedGrace, false, queue)]);
    assert w3 == Next(w, SolvedFound(id, queue));
    Snoc(w0, es, w, SolvedFound(id, queue));
    run := LoopSteps(w0, es + [SolvedFound(id, queue)], w3, id, SolvedGrace, queue, stuck);
    var db := SweepOf(DbOf(w), SolvedGrace, OverdueIds(w.rows, w.now, w.config.solvedGraceMs), stuck);
    run := SweepCloses(w0, run, w.(rows := db.rows, containers := db.containers,
      calls := map[id := Sweep(SolvedGrace, false, [])]), id);
  }

  lemma SweepCloses(w0: World, es: seq<Event>, w: World, id: CallId) returns (run: seq<Event>)
    requires Leads(w0, es, w) && (w.calls == map[id := Sweep(SolvedGrace, false, [])]
      || w.calls == map[id := Sweep(Drain, false, [])])
    ensures Gives(w0, run, DbOf(w))
  {
    Snoc(w0, es, w, SweepDone(id));
    run := es + [SweepDone(id)];
    assert w.calls - {id} == map[];
  }

  /** A drain alone. */
  lemma DrainAlone(w: World, id: CallId, stuck: set<ContainerId>) returns (es: seq<Event>)
    requires w.calls == map[]
    ensures Gives(w, es, DrainOf(DbOf(w), stuck))
  {
    var queue := QueryResult(w.rows, DrainIds(w.rows));
    Snoc(w, [], w, DrainBegin(id, queue));
    var w1 := Next(w, DrainBegin(id, queue));
    es := LoopSteps(w, [] + [DrainBegin(id, queue)], w1, id, Drain, queue, stuck);
    var db := DrainOf(DbOf(w), stuck);
    es := SweepCloses(w, es, w.(rows := db.rows, containers := db.containers,
      calls := map[id := Sweep(Drain, false, [])]), id);
  }
}
