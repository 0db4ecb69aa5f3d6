/**
 Calls one at a time: exactly when the documented cap holds, exactly when no user has two active sessions,
 and a run in which both fail.
 */
module SessionSequential {
  import opened Options
  import opened SessionModel
  import opened SessionCap
  import opened Sets

  /** At most one call in flight, at every point. */
  ghost predicate OneAtATime(w: World, es: seq<Event>)
    decreases |es|
  {
    |w.calls| <= 1 && (es != [] ==> OneAtATime(Next(w, es[0]), es[1..]))
  }

  /** The first update of a check finds its session inactive. */
  predicate Revives(w: World, e: Event) {
    && e.Proceed? && e.call in w.calls && w.calls[e.call].Check? && w.calls[e.call].phase.ToMark?
    && w.calls[e.call].session in w.rows && !IsActive(w.rows[w.calls[e.call].session].status)
  }

  lemma SoleKey(calls: map<CallId, Call>, id: CallId)
    requires |calls| <= 1 && id in calls
    ensures calls.Keys == {id}
  {
    if x :| x in calls && x != id {
      SubsetSize({id, x}, calls.Keys);
    }
  }

  // ---------------------------------------------------------------------------------------------
  // What a step does to the active sessions
  // ---------------------------------------------------------------------------------------------

  /** A start past its insert, or a check past its first update and before its last, keeps its session active. */
  predicate Settled(rows: Rows, c: Call) {
    (c.Create? || c.Store? || (c.Check? && (c.phase.ToRun? || c.phase.ToInsert? || c.phase.ToStore?))) ==>
      c.session in rows && IsActive(rows[c.session].status)
  }

  ghost predicate CallsSettled(w: World) { forall id | id in w.calls :: Settled(w.rows, w.calls[id]) }

  lemma StopActive(w: World, id: CallId, c: Call, ok: bool)
    requires w.calls == map[id := c] && (c.StopRead? || c.StopDestroy? || c.StopMark?)
    ensures
      var v := ProceedStop(w, id, c, ok);
      && ActiveIds(v.rows) <= ActiveIds(w.rows) && CallsSettled(v)
      && forall x | x in v.calls && Uninserted(v.calls[x]) :: Uninserted(c)
  {
  }

  lemma StartActive(w: World, id: CallId, c: Call)
    requires w.calls == map[id := c] && (c.Create? || c.Store? || c.Fail?) && Settled(w.rows, c)
    ensures
      var v := ProceedStart(w, id, c);
      && ActiveIds(v.rows) <= ActiveIds(w.rows) && CallsSettled(v)
      && forall x | x in v.calls :: !Uninserted(v.calls[x])
  {
  }

  /** A check adds an active session only by its first update, and then its own. */
  lemma CheckActive(w: World, id: CallId, c: Call)
    requires w.calls == map[id := c] && c.Check? && Settled(w.rows, c) && (c.session in w.rows || !c.phase.ToMark?)
    ensures
      var v := ProceedCheck(w, id, c);
      && CallsSettled(v) && (forall x | x in v.calls :: !Uninserted(v.calls[x]))
      && (c.phase.ToMark? ==> ActiveIds(v.rows) == ActiveIds(w.rows) + {c.session})
      && (!c.phase.ToMark? ==> ActiveIds(v.rows) <= ActiveIds(w.rows))
  {
  }

  lemma SweepActive(w: World, id: CallId, c: Call, ok: bool)
    requires w.calls == map[id := c] && c.Sweep? && c.queue != []
    ensures
      var v := ProceedSweep(w, id, c, ok);
      && ActiveIds(v.rows) <= ActiveIds(w.rows) && CallsSettled(v)
      && forall x | x in v.calls :: !Uninserted(v.calls[x])
  {
  }

  lemma InsertActive(w: World, id: CallId, s: SessionId)
    requires |w.calls| <= 1 && Enabled(w, Inserted(id, s))
    ensures
      var v := Next(w, Inserted(id, s));
      && ActiveIds(v.rows) == ActiveIds(w.rows) + {s} && s !in ActiveIds(w.rows) && CallsSettled(v)
      && v.calls == map[id := Create(s)]
  {
    SoleKey(w.calls, id);
  }

  /** The rows a check is about exist: rows are never deleted. */
  ghost predicate ChecksHaveRows(w: World) {
    forall id | id in w.calls && w.calls[id].Check? :: w.calls[id].session in w.rows
  }

  lemma KeepsRows(w: World, e: Event)
    requires Enabled(w, e) && ChecksHaveRows(w)
    ensures ChecksHaveRows(Next(w, e)) && w.rows.Keys <= Next(w, e).rows.Keys
  {
  }

  /** Beginnings, heartbeats, hints, results of queries and of Docker calls, and time. */
  predicate IsQuiet(e: Event) { !e.Proceed? && !e.Inserted? }

  lemma QuietActive(w: World, e: Event)
    requires Enabled(w, e) && IsQuiet(e) && CallsSettled(w)
    ensures ActiveIds(Next(w, e).rows) == ActiveIds(w.rows) && CallsSettled(Next(w, e))
  {
  }

  /** Uninserted starts come from the count check only. */
  lemma QuietUninserted(w: World, e: Event)
    requires Enabled(w, e) && IsQuiet(e)
    ensures forall id | id in Next(w, e).calls && Uninserted(Next(w, e).calls[id]) ::
      (id in w.calls && Uninserted(w.calls[id])) || (e.StartBegin? && |ActiveIds(w.rows)| < w.config.cap)
  {
  }

  // ---------------------------------------------------------------------------------------------
  // The cap
  // ---------------------------------------------------------------------------------------------

  /** A check revives its session while the cap is used up. */
  predicate Overfills(w: World, e: Event) { Revives(w, e) && |ActiveIds(w.rows)| >= w.config.cap }

  predicate NeverOverfills(w: World, es: seq<Event>)
    decreases |es|
  {
    es == [] || (!Overfills(w, es[0]) && NeverOverfills(Next(w, es[0]), es[1..]))
  }

  predicate AlwaysWithinCap(w: World, es: seq<Event>)
    decreases |es|
  {
    |ActiveIds(w.rows)| <= w.config.cap && (es != [] ==> AlwaysWithinCap(Next(w, es[0]), es[1..]))
  }

  ghost predicate CapInv(w: World) {
    && |ActiveIds(w.rows)| <= w.config.cap && CallsSettled(w) && ChecksHaveRows(w)
    && forall id | id in w.calls && Uninserted(w.calls[id]) :: |ActiveIds(w.rows)| < w.config.cap
  }

  lemma FirstUpdateCap(w: World, e: Event)
    requires CapInv(w) && |w.calls| <= 1 && Enabled(w, e) && e.Proceed? && ChecksHaveRows(Next(w, e))
    requires w.calls[e.call].Check? && w.calls[e.call].phase.ToMark?
    ensures if Overfills(w, e) then |ActiveIds(Next(w, e).rows)| > w.config.cap else CapInv(Next(w, e))
  {
    var id, c := e.call, w.calls[e.call];
    SoleKey(w.calls, id);
    assert w.calls == map[id := c];
    CheckActive(w, id, c);
    if c.session in ActiveIds(w.rows) { assert ActiveIds(Next(w, e).rows) == ActiveIds(w.rows); }
  }

  lemma FewerCap(w: World, v: World)
    requires CapInv(w) && CallsSettled(v) && ChecksHaveRows(v) && v.config == w.config
      && ActiveIds(v.rows) <= ActiveIds(w.rows)
    requires forall x | x in v.calls && Uninserted(v.calls[x]) :: |ActiveIds(w.rows)| < w.config.cap
    ensures CapInv(v)
  {
    SubsetSize(ActiveIds(v.rows), ActiveIds(w.rows));
  }

  lemma ProceedCap(w: World, e: Event)
    requires CapInv(w) && |w.calls| <= 1 && Enabled(w, e) && e.Proceed? && ChecksHaveRows(Next(w, e))
    ensures if Overfills(w, e) then |ActiveIds(Next(w, e).rows)| > w.config.cap else CapInv(Next(w, e))
  {
    var id, c := e.call, w.calls[e.call];
    SoleKey(w.calls, id);
    assert w.calls == map[id := c];
    if c.Check? && c.phase.ToMark? {
      FirstUpdateCap(w, e);
    } else {
      if c.Check? { CheckActive(w, id, c); }
      else if c.Sweep? { SweepActive(w, id, c, e.ok); }
      else if c.Create? || c.Store? || c.Fail? { StartActive(w, id, c); }
      else { StopActive(w, id, c, e.ok); }
      KeepsConfig(w, e);
      FewerCap(w, Next(w, e));
    }
  }

  lemma InsertCap(w: World, e: Event)
    requires CapInv(w) && |w.calls| <= 1 && Enabled(w, e) && e.Inserted? && ChecksHaveRows(Next(w, e))
    ensures CapInv(Next(w, e))
  {
    InsertActive(w, e.call, e.session);
    assert Uninserted(w.calls[e.call]);
  }

  lemma QuietCap(w: World, e: Event)
    requires CapInv(w) && Enabled(w, e) && IsQuiet(e) && ChecksHaveRows(Next(w, e)) && Next(w, e).config == w.config
    ensures CapInv(Next(w, e))
  {
    QuietActive(w, e);
    QuietUninserted(w, e);
  }

  lemma KeepsConfig(w: World, e: Event)
    ensures Next(w, e).config == w.config
  {
  }

  lemma StepCap(w: World, e: Event)
    requires CapInv(w) && |w.calls| <= 1 && Enabled(w, e)
    ensures if Overfills(w, e) then |ActiveIds(Next(w, e).rows)| > w.config.cap else CapInv(Next(w, e))
  {
    KeepsRows(w, e);
    KeepsConfig(w, e);
    if e.Proceed? { ProceedCap(w, e); }
    else if e.Inserted? { InsertCap(w, e); }
    else { QuietCap(w, e); }
  }

  lemma {:induction false} RunCap(w: World, es: seq<Event>)
    requires CapInv(w) && Run(w, es) && OneAtATime(w, es)
    ensures AlwaysWithinCap(w, es) <==> NeverOverfills(w, es)
    decreases |es|
  {
    if es != [] {
      var v := Next(w, es[0]);
      StepCap(w, es[0]);
      KeepsConfig(w, es[0]);
      if !Overfills(w, es[0]) { RunCap(v, es[1..]); }
    }
  }

  /**
   With calls one at a time the documented cap holds at every point of a run if and only if no check's first
   update finds its session inactive while the cap is used up.
   */
  lemma CapHoldsIff(w: World, es: seq<Event>)
    requires w.calls == map[] && |ActiveIds(w.rows)| <= w.config.cap
    requires Run(w, es) && OneAtATime(w, es)
    ensures AlwaysWithinCap(w, es) <==> NeverOverfills(w, es)
  {
    RunCap(w, es);
  }

  // ---------------------------------------------------------------------------------------------
  // One active session per user
  // ---------------------------------------------------------------------------------------------

  /** No user has two active sessions. */
  ghost predicate UsersApart(rows: Rows) {
    forall a, b | a in ActiveIds(rows) && b in ActiveIds(rows) && rows[a].user == rows[b].user :: a == b
  }

  /** A check revives a session whose user has another active one. */
  ghost predicate Doubles(w: World, e: Event) {
    Revives(w, e) && exists s :: s in ActiveIds(w.rows) && w.rows[s].user == w.rows[w.calls[e.call].session].user
  }

  ghost predicate NeverDoubles(w: World, es: seq<Event>)
    decreases |es|
  {
    es == [] || (!Doubles(w, es[0]) && NeverDoubles(Next(w, es[0]), es[1..]))
  }

  ghost predicate AlwaysApart(w: World, es: seq<Event>)
    decreases |es|
  {
    UsersApart(w.rows) && (es != [] ==> AlwaysApart(Next(w, es[0]), es[1..]))
  }

  /** What a start has found out of its user: at most the session it stops is active, and none when it inserts. */
  ghost predicate FoundOut(rows: Rows, c: Call) {
    match c
    case StopRead(s, InsertFor(u, _)) => Only(rows, u, s)
    case StopDestroy(s, _, InsertFor(u, _)) => Only(rows, u, s)
    case StopMark(s, InsertFor(u, _)) => Only(rows, u, s)
    case InsertRow(u, _) => forall a | a in ActiveIds(rows) :: rows[a].user != u
    case _ => true
  }

  ghost predicate Only(rows: Rows, u: UserId, s: SessionId) {
    forall a | a in ActiveIds(rows) && rows[a].user == u :: a == s
  }

  ghost predicate ApartInv(w: World) {
    && UsersApart(w.rows) && CallsSettled(w) && ChecksHaveRows(w)
    && forall id | id in w.calls :: FoundOut(w.rows, w.calls[id])
  }

  ghost predicate UsersStay(w: World, v: World) {
    forall s | s in w.rows :: s in v.rows && v.rows[s].user == w.rows[s].user
  }

  lemma KeepsUsers(w: World, e: Event)
    requires Enabled(w, e)
    ensures UsersStay(w, Next(w, e))
  {
  }

  lemma FewerApart(w: World, v: World)
    requires UsersApart(w.rows) && UsersStay(w, v) && ActiveIds(v.rows) <= ActiveIds(w.rows)
    ensures UsersApart(v.rows)
  {
  }

  lemma StopFindsOut(w: World, id: CallId, c: Call, ok: bool)
    requires w.calls == map[id := c] && (c.StopRead? || c.StopDestroy? || c.StopMark?) && FoundOut(w.rows, c)
    ensures
      var v := ProceedStop(w, id, c, ok);
      forall x | x in v.calls :: FoundOut(v.rows, v.calls[x])
  {
  }

  /** A call `FoundOut` asks nothing of. */
  predicate IsUnasked(c: Call) { !Uninserted(c) || c.FindPrior? }

  lemma QuietCalls(w: World, e: Event)
    requires Enabled(w, e) && IsQuiet(e) && !e.PriorFound?
    ensures forall id | id in Next(w, e).calls ::
      (id in w.calls && Next(w, e).calls[id] == w.calls[id]) || IsUnasked(Next(w, e).calls[id])
  {
  }

  lemma QuietFindsOut(w: World, e: Event)
    requires Enabled(w, e) && IsQuiet(e) && UsersApart(w.rows) && forall id | id in w.calls ::
      FoundOut(w.rows, w.calls[id])
    requires ActiveIds(Next(w, e).rows) == ActiveIds(w.rows) && UsersStay(w, Next(w, e))
    ensures forall id | id in Next(w, e).calls :: FoundOut(Next(w, e).rows, Next(w, e).calls[id])
  {
    var v := Next(w, e);
    if !e.PriorFound? { QuietCalls(w, e); }
  }

  lemma ReviveApart(w: World, e: Event)
    requires UsersApart(w.rows) && e.Proceed? && e.call in w.calls && w.calls == map[e.call := w.calls[e.call]]
      && UsersStay(w, Next(w, e))
    requires w.calls[e.call].Check? && w.calls[e.call].phase.ToMark? && w.calls[e.call].session in w.rows
    requires ActiveIds(Next(w, e).rows) == ActiveIds(w.rows) + {w.calls[e.call].session}
    ensures UsersApart(Next(w, e).rows) <==> !Doubles(w, e)
  {
    var s := w.calls[e.call].session;
    var v := Next(w, e);
    if Doubles(w, e) {
      var x :| x in ActiveIds(w.rows) && w.rows[x].user == w.rows[s].user;
      assert x in ActiveIds(v.rows) && s in ActiveIds(v.rows) && x != s;
    }
  }

  lemma ProceedApart(w: World, e: Event)
    requires ApartInv(w) && |w.calls| <= 1 && Enabled(w, e) && e.Proceed?
    requires ChecksHaveRows(Next(w, e)) && UsersStay(w, Next(w, e))
    ensures if Doubles(w, e) then !UsersApart(Next(w, e).rows) else ApartInv(Next(w, e))
  {
    var id, c := e.call, w.calls[e.call];
    SoleKey(w.calls, id);
    assert w.calls == map[id := c];
    if c.Check? {
      CheckActive(w, id, c);
      if c.phase.ToMark? { ReviveApart(w, e); } else { FewerApart(w, Next(w, e)); }
    } else {
      if c.Sweep? { SweepActive(w, id, c, e.ok); }
      else if c.Create? || c.Store? || c.Fail? { StartActive(w, id, c); }
      else { StopActive(w, id, c, e.ok); StopFindsOut(w, id, c, e.ok); }
      FewerApart(w, Next(w, e));
    }
  }

  lemma StepApart(w: World, e: Event)
    requires ApartInv(w) && |w.calls| <= 1 && Enabled(w, e)
    ensures if Doubles(w, e) then !UsersApart(Next(w, e).rows) else ApartInv(Next(w, e))
  {
    KeepsRows(w, e);
    KeepsUsers(w, e);
    if e.Proceed? {
      ProceedApart(w, e);
    } else if e.Inserted? {
      InsertActive(w, e.call, e.session);
      assert FoundOut(w.rows, w.calls[e.call]);
    } else {
      QuietActive(w, e);
      QuietFindsOut(w, e);
      FewerApart(w, Next(w, e));
    }
  }

  lemma {:induction false} RunApart(w: World, es: seq<Event>)
    requires ApartInv(w) && Run(w, es) && OneAtATime(w, es)
    ensures AlwaysApart(w, es) <==> NeverDoubles(w, es)
    decreases |es|
  {
    if es != [] {
      StepApart(w, es[0]);
      if !Doubles(w, es[0]) { RunApart(Next(w, es[0]), es[1..]); }
    }
  }

  /**
   With calls one at a time no user has two active sessions at any point of a run if and only if no check's
   first update finds inactive a session whose user has another active one.
   */
  lemma UsersApartIff(w: World, es: seq<Event>)
    requires w.calls == map[] && UsersApart(w.rows)
    requires Run(w, es) && OneAtATime(w, es)
    ensures AlwaysApart(w, es) <==> NeverDoubles(w, es)
  {
    RunApart(w, es);
  }

  // ---------------------------------------------------------------------------------------------
  // Both fail
  // ---------------------------------------------------------------------------------------------

  ghost predicate LeadsAlone(w: World, es: seq<Event>, v: World) { Leads(w, es, v) && OneAtATime(w, es) }

  lemma {:induction false} AloneSnoc(w: World, es: seq<Event>, v: World, e: Event)
    requires Leads(w, es, v) && OneAtATime(w, es) && |Next(v, e).calls| <= 1
    ensures OneAtATime(w, es + [e])
    decreases |es|
  {
    if es == [] {
      assert [] + [e] == [e] && [e][1..] == [];
    } else {
      var all := es + [e];
      assert all[0] == es[0] && all[1..] == es[1..] + [e];
      AloneSnoc(Next(w, es[0]), es[1..], v, e);
    }
  }

  lemma SnocAlone(w: World, es: seq<Event>, v: World, e: Event)
    requires LeadsAlone(w, es, v) && Enabled(v, e) && |Next(v, e).calls| <= 1
    ensures LeadsAlone(w, es + [e], Next(v, e))
  {
    Snoc(w, es, v, e);
    AloneSnoc(w, es, v, e);
  }

  function Empty(cap: nat): World { World(0, Config(cap, 0, 0), map[], {}, [], map[], [], map[]) }

  function Started(w: World, user: UserId, s: SessionId, k: ContainerId): World {
    w.(rows := w.rows[s := Row(user, 5, Some(k), Running, 0, w.now, None)], containers := w.containers + {k})
  }

  function Inserting(w: World, user: UserId): World { w.(calls := map[1 := InsertRow(user, 5)]) }

  function Creating(w: World, user: UserId, s: SessionId): World {
    w.(calls := map[1 := Create(s)], rows := w.rows[s := NewRow(user, 5, w.now)])
  }

  lemma StartCounts(w0: World, es: seq<Event>, w: World, user: UserId) returns (run: seq<Event>)
    requires LeadsAlone(w0, es, w) && w.calls == map[] && |ActiveIds(w.rows)| < w.config.cap
    requires forall x | x in ActiveIds(w.rows) :: w.rows[x].user != user
    ensures LeadsAlone(w0, run, Inserting(w, user))
  {
    var w1 := w.(calls := map[1 := FindPrior(user, 5)]);
    assert w1 == Next(w, StartBegin(1, user, 5));
    SnocAlone(w0, es, w, StartBegin(1, user, 5));
    run := es + [StartBegin(1, user, 5)];
    assert Inserting(w, user) == Next(w1, PriorFound(1, None));
    SnocAlone(w0, run, w1, PriorFound(1, None));
    run := run + [PriorFound(1, None)];
  }

  lemma StartInserts(w0: World, es: seq<Event>, w: World, user: UserId, s: SessionId) returns (run: seq<Event>)
    requires LeadsAlone(w0, es, Inserting(w, user)) && s !in w.rows
    ensures LeadsAlone(w0, run, Creating(w, user, s))
  {
    assert Creating(w, user, s) == Next(Inserting(w, user), Inserted(1, s));
    SnocAlone(w0, es, Inserting(w, user), Inserted(1, s));
    run := es + [Inserted(1, s)];
  }

  function Storing(w: World, user: UserId, s: SessionId, k: ContainerId): World {
    Creating(w, user, s).(calls := map[1 := Store(s, k)], containers := w.containers + {k})
  }

  lemma StoreStep(w: World, user: UserId, s: SessionId, k: ContainerId)
    requires w.calls == map[]
    ensures Next(Storing(w, user, s, k), Proceed(1, true)) == Started(w, user, s, k)
  {
    var v := Storing(w, user, s, k);
    assert v.calls - {1} == map[];
    assert SetContainer(v.rows, s, k) == Started(w, user, s, k).rows;
  }

  lemma StartCreates(w0: World, es: seq<Event>, w: World, user: UserId, s: SessionId, k: ContainerId)
    returns (run: seq<Event>)
    requires LeadsAlone(w0, es, Creating(w, user, s)) && w.calls == map[] && k !in w.containers
    ensures LeadsAlone(w0, run, Started(w, user, s, k))
  {
    assert Storing(w, user, s, k) == Next(Creating(w, user, s), Created(1, k));
    SnocAlone(w0, es, Creating(w, user, s), Created(1, k));
    StoreStep(w, user, s, k);
    SnocAlone(w0, es + [Created(1, k)], Storing(w, user, s, k), Proceed(1, true));
    run := es + [Created(1, k)] + [Proceed(1, true)];
  }

  /** A start alone, from its count check to its final update. */
  lemma StartAlone(w0: World, es: seq<Event>, w: World, user: UserId, s: SessionId, k: ContainerId)
    returns (run: seq<Event>)
    requires LeadsAlone(w0, es, w) && w.calls == map[] && |ActiveIds(w.rows)| < w.config.cap && s !in w.rows
      && k !in w.containers
    requires forall x | x in ActiveIds(w.rows) :: w.rows[x].user != user
    ensures LeadsAlone(w0, run, Started(w, user, s, k))
  {
    run := StartCounts(w0, es, w, user);
    run := StartInserts(w0, run, w, user, s);
    run := StartCreates(w0, run, w, user, s, k);
  }

  /** A stop alone of a session with a container: the row keeps its container id. */
  lemma StopAlone(w0: World, es: seq<Event>, w: World, s: SessionId, k: ContainerId) returns (run: seq<Event>)
    requires LeadsAlone(w0, es, w) && w.calls == map[] && s in w.rows && w.rows[s].container == Some(k)
    ensures LeadsAlone(w0, run, w.(rows := SetStatus(w.rows, s, Abandoned), containers := w.containers - {k}))
  {
    var w1 := w.(calls := map[2 := StopDestroy(s, k, Return)]);
    assert w1 == Next(w, StopBegin(2, s, w.rows[s].user));
    var w2 := w.(calls := map[2 := StopMark(s, Return)], containers := w.containers - {k});
    assert w2 == Next(w1, Proceed(2, true));
    var w3 := w.(rows := SetStatus(w.rows, s, Abandoned), containers := w.containers - {k});
    assert w3.calls == w2.calls - {2};
    assert w3 == Next(w2, Proceed(2, true));
    SnocAlone(w0, es, w, StopBegin(2, s, w.rows[s].user));
    run := es + [StopBegin(2, s, w.rows[s].user)];
    SnocAlone(w0, run, w1, Proceed(2, true));
    SnocAlone(w0, run + [Proceed(2, true)], w2, Proceed(2, true));
    run := run + [Proceed(2, true)] + [Proceed(2, true)];
  }

  /** A session was started and stopped, and its user has started another: the first still has its container id. */
  function StoppedAndStarted(): World {
    Empty(1).(rows := map[10 := Row(1, 5, Some(70), Abandoned, 0, 0, None),
      11 := Row(1, 5, Some(71), Running, 0, 0, None)],
              containers := {71})
  }

  function JustStopped(): World {
    Empty(1).(rows := map[10 := Row(1, 5, Some(70), Abandoned, 0, 0, None)])
  }

  lemma JustStoppedHappens() returns (es: seq<Event>)
    ensures LeadsAlone(Empty(1), es, JustStopped())
  {
    var w0 := Empty(1);
    assert ActiveIds(w0.rows) == {};
    es := StartAlone(w0, [], w0, 1, 10, 70);
    var w1 := Started(w0, 1, 10, 70);
    es := StopAlone(w0, es, w1, 10, 70);
    assert w1.(rows := SetStatus(w1.rows, 10, Abandoned), containers := w1.containers - {70}) == JustStopped();
  }

  lemma StoppedAndStartedHappens() returns (es: seq<Event>)
    ensures LeadsAlone(Empty(1), es, StoppedAndStarted())
  {
    es := JustStoppedHappens();
    assert ActiveIds(JustStopped().rows) == {};
    es := StartAlone(Empty(1), es, JustStopped(), 1, 11, 71);
    assert Started(JustStopped(), 1, 11, 71) == StoppedAndStarted();
  }

  lemma Revived(w: World)
    requires w == Next(StoppedAndStarted(), CheckBegin(3, 10, 1))
    ensures w == StoppedAndStarted().(calls := map[3 := Check(ToMark, 10, 1, 5, 0, false)])
    ensures Next(w, Proceed(3, true))
      == w.(calls := map[3 := Check(ToRun, 10, 1, 5, 0, false)], rows := SetStatus(w.rows, 10, Checking))
    ensures ActiveIds(w.rows) == {11} && ActiveIds(Next(w, Proceed(3, true)).rows) == {10, 11}
    ensures Overfills(w, Proceed(3, true)) && Doubles(w, Proceed(3, true))
    ensures !UsersApart(Next(w, Proceed(3, true)).rows)
  {
    assert ActiveIds(w.rows) == {11};
    assert 11 in ActiveIds(w.rows) && w.rows[11].user == w.rows[10].user;
    var v := Next(w, Proceed(3, true));
    assert ActiveIds(v.rows) == {10, 11};
    assert 10 in ActiveIds(v.rows) && 11 in ActiveIds(v.rows) && v.rows[10].user == v.rows[11].user;
  }

  /**
   Calls one at a time from an empty database with a cap of one: a start, its stop, another start of the user,
   and a check of the stopped session. Its first update revives the session: two are active, both the user's.
   */
  lemma CheckOfAStoppedSessionBreaksTheCap() returns (es: seq<Event>)
    ensures
      var all := es + [CheckBegin(3, 10, 1)] + [Proceed(3, true)];
      var w := Next(StoppedAndStarted(), CheckBegin(3, 10, 1));
      && Leads(Empty(1), es, StoppedAndStarted()) && Run(Empty(1), all) && OneAtATime(Empty(1), all)
      && Overfills(w, Proceed(3, true)) && Doubles(w, Proceed(3, true))
      && After(Empty(1), all) == Next(w, Proceed(3, true))
      && ActiveIds(After(Empty(1), all).rows) == {10, 11} && !UsersApart(After(Empty(1), all).rows)
  {
    es := StoppedAndStartedHappens();
    var w := Next(StoppedAndStarted(), CheckBegin(3, 10, 1));
    Revived(w);
    SnocAlone(Empty(1), es, StoppedAndStarted(), CheckBegin(3, 10, 1));
    SnocAlone(Empty(1), es + [CheckBegin(3, 10, 1)], w, Proceed(3, true));
  }
}
