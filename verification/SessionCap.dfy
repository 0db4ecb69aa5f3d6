/** How many sessions can be active at once, over every interleaving. */
module SessionCap {
  import opened Options
  import opened SessionModel
  import opened Sets

  // ---------------------------------------------------------------------------------------------
  // The measure
  // ---------------------------------------------------------------------------------------------

  /** A start past its count check, or a check. */
  predicate IsBusy(c: Call) { IsStart(c) || c.Check? }

  predicate IsStart(c: Call) { Uninserted(c) || c.Create? || c.Store? || c.Fail? }

  /** A start that has not inserted its row yet. */
  predicate Uninserted(c: Call) {
    c.FindPrior? || c.InsertRow? || ((c.StopRead? || c.StopDestroy? || c.StopMark?) && c.then_.InsertFor?)
  }

  /** The row a call may still make active: the final update of a start and the updates of a check are unconditional. */
  function Pin(c: Call): Option<SessionId> {
    if c.Create? || c.Store? || (c.Check? && !c.phase.ToUpsert?) then Some(c.session) else None
  }

  function Pins(calls: map<CallId, Call>): set<SessionId> {
    set id | id in calls && Pin(calls[id]).Some? :: Pin(calls[id]).value
  }

  function Uninserteds(calls: map<CallId, Call>): set<CallId> {
    set id | id in calls && Uninserted(calls[id])
  }

  function Busy(calls: map<CallId, Call>): set<CallId> {
    set id | id in calls && IsBusy(calls[id])
  }

  function Reach(w: World): set<SessionId> { ActiveIds(w.rows) + Pins(w.calls) }

  /** The most rows that can be active with no further count check passed. */
  function Measure(w: World): nat { |Reach(w)| + |Uninserteds(w.calls)| }

  lemma BusyAfter(calls: map<CallId, Call>, id: CallId, c: Call)
    requires id !in calls
    ensures Uninserteds(calls[id := c]) == Uninserteds(calls) + (if Uninserted(c) then {id} else {})
    ensures Busy(calls[id := c]) == Busy(calls) + (if IsBusy(c) then {id} else {})
    ensures id !in Busy(calls) && id !in Uninserteds(calls)
  {
  }

  lemma PinsGrow(calls: map<CallId, Call>, id: CallId, c: Call)
    ensures |Pins(calls[id := c])| <= |Pins(calls)| + (if Pin(c).Some? then 1 else 0)
  {
    PinsAfter(calls, id, c);
    SubsetSize(Pins(calls[id := c]), Pins(calls) + (if Pin(c).Some? then {Pin(c).value} else {}));
  }

  lemma {:induction false} PinsAreFew(calls: map<CallId, Call>)
    ensures |Pins(calls)| + |Uninserteds(calls)| <= |Busy(calls)|
    decreases |calls|
  {
    if calls != map[] {
      var id :| id in calls;
      var rest := calls - {id};
      PinsAreFew(rest);
      assert calls == rest[id := calls[id]];
      BusyAfter(rest, id, calls[id]);
      PinsGrow(rest, id, calls[id]);
    } else {
      assert Pins(calls) == {} && Uninserteds(calls) == {};
    }
  }

  // ---------------------------------------------------------------------------------------------
  // Steps
  // ---------------------------------------------------------------------------------------------

  /** Nothing becomes reachable that was not, except the row a start inserts in exchange for its place. */
  ghost predicate Shrinks(w: World, v: World) {
    && v.config.cap == w.config.cap
    && ((Reach(v) <= Reach(w) && Uninserteds(v.calls) <= Uninserteds(w.calls))
        || exists s, id ::
          Reach(v) <= Reach(w) + {s} && id in Uninserteds(w.calls)
          && Uninserteds(v.calls) <= Uninserteds(w.calls) - {id})
  }

  lemma ShrinkingKeeps(w: World, v: World)
    requires Shrinks(w, v)
    ensures Measure(v) <= Measure(w)
  {
    if Reach(v) <= Reach(w) && Uninserteds(v.calls) <= Uninserteds(w.calls) {
      SubsetSize(Reach(v), Reach(w));
      SubsetSize(Uninserteds(v.calls), Uninserteds(w.calls));
    } else {
      var s, id :| Reach(v) <= Reach(w) + {s} && id in Uninserteds(w.calls)
        && Uninserteds(v.calls) <= Uninserteds(w.calls) - {id};
      SubsetSize(Reach(v), Reach(w) + {s});
      SubsetSize(Uninserteds(v.calls), Uninserteds(w.calls) - {id});
    }
  }

  /** Replacing one call and changing one row. */
  lemma PinsAfter(calls: map<CallId, Call>, id: CallId, c: Call)
    ensures Pins(calls[id := c]) <= Pins(calls) + (if Pin(c).Some? then {Pin(c).value} else {})
    ensures Pins(calls - {id}) <= Pins(calls)
    ensures id in calls && Pin(calls[id]).Some? ==> Pin(calls[id]).value in Pins(calls)
  {
  }

  /** A check may only begin on an active session. */
  ghost predicate ChecksActive(w: World, e: Event) {
    e.CheckBegin? && e.session in w.rows ==> IsActive(w.rows[e.session].status)
  }

  lemma StopShrinks(w: World, id: CallId, c: Call, ok: bool)
    requires id in w.calls && w.calls[id] == c && (c.StopRead? || c.StopDestroy? || c.StopMark?)
    ensures Reach(ProceedStop(w, id, c, ok)) <= Reach(w) && Shrinks(w, ProceedStop(w, id, c, ok))
  {
    assert Reach(ProceedStop(w, id, c, ok)) <= Reach(w);
  }

  lemma StartShrinks(w: World, id: CallId, c: Call)
    requires id in w.calls && w.calls[id] == c && (c.Create? || c.Store? || c.Fail?)
    ensures Reach(ProceedStart(w, id, c)) <= Reach(w) && Shrinks(w, ProceedStart(w, id, c))
  {
    PinsAfter(w.calls, id, c);
    PinsAfter(w.calls, id, Fail(c.session));
    assert Reach(ProceedStart(w, id, c)) <= Reach(w);
  }

  lemma CheckShrinks(w: World, id: CallId, c: Call)
    requires id in w.calls && w.calls[id] == c && c.Check?
    ensures Reach(ProceedCheck(w, id, c)) <= Reach(w) && Shrinks(w, ProceedCheck(w, id, c))
  {
    PinsAfter(w.calls, id, c);
    PinsAfter(w.calls, id, c.(phase := ToRun));
    PinsAfter(w.calls, id, c.(phase := ToStore));
    PinsAfter(w.calls, id, c.(phase := ToUpsert));
    assert Reach(ProceedCheck(w, id, c)) <= Reach(w);
  }

  lemma SweepShrinks(w: World, id: CallId, c: Call, ok: bool)
    requires id in w.calls && w.calls[id] == c && c.Sweep?
    ensures Reach(ProceedSweep(w, id, c, ok)) <= Reach(w) && Shrinks(w, ProceedSweep(w, id, c, ok))
  {
    assert Reach(ProceedSweep(w, id, c, ok)) <= Reach(w);
  }

  lemma ProceedShrinks(w: World, e: Event)
    requires Enabled(w, e) && e.Proceed?
    ensures Reach(Next(w, e)) <= Reach(w) && Shrinks(w, Next(w, e))
  {
    var c := w.calls[e.call];
    if c.StopRead? || c.StopDestroy? || c.StopMark? { StopShrinks(w, e.call, c, e.ok); }
    else if c.Check? { CheckShrinks(w, e.call, c); }
    else if c.Sweep? { SweepShrinks(w, e.call, c, e.ok); }
    else { StartShrinks(w, e.call, c); }
  }

  lemma OtherShrinks(w: World, e: Event)
    requires Enabled(w, e) && !e.Proceed? && !e.StartBegin? && !e.Inserted? && ChecksActive(w, e)
    ensures Reach(Next(w, e)) <= Reach(w) && Shrinks(w, Next(w, e))
  {
  }

  lemma InsertShrinks(w: World, id: CallId, s: SessionId)
    requires Enabled(w, Inserted(id, s))
    ensures Shrinks(w, Next(w, Inserted(id, s)))
  {
    var v := Next(w, Inserted(id, s));
    PinsAfter(w.calls, id, Create(s));
    assert Reach(v) <= Reach(w) + {s};
    assert id in Uninserteds(w.calls) && Uninserteds(v.calls) <= Uninserteds(w.calls) - {id};
  }

  lemma StepMeasure(w: World, e: Event, n: nat)
    requires Enabled(w, e) && ChecksActive(w, e) && |Busy(Next(w, e).calls)| <= n
    requires Measure(w) <= w.config.cap - 1 + n
    ensures Next(w, e).config.cap == w.config.cap && Measure(Next(w, e)) <= w.config.cap - 1 + n
  {
    var v := Next(w, e);
    if e.StartBegin? {
      if v != w {
        PinsAreFew(v.calls);
        SubsetSize(Reach(v), ActiveIds(v.rows) + Pins(v.calls));
        assert |Reach(v)| <= |ActiveIds(v.rows)| + |Pins(v.calls)|;
      }
    } else {
      if e.Proceed? { ProceedShrinks(w, e); }
      else if e.Inserted? { InsertShrinks(w, e.call, e.session); }
      else { OtherShrinks(w, e); }
      ShrinkingKeeps(w, v);
    }
  }

  // ---------------------------------------------------------------------------------------------
  // Runs
  // ---------------------------------------------------------------------------------------------

  /** Checks begin on active sessions only, and no more than `n` starts and checks are ever in flight at once. */
  ghost predicate Bounded(w: World, es: seq<Event>, n: nat)
    decreases |es|
  {
    es == [] || (ChecksActive(w, es[0]) && |Busy(Next(w, es[0]).calls)| <= n && Bounded(Next(w, es[0]), es[1..], n))
  }

  lemma {:induction false} RunMeasure(w: World, es: seq<Event>, n: nat)
    requires Run(w, es) && Bounded(w, es, n) && Measure(w) <= w.config.cap - 1 + n
    ensures |ActiveIds(After(w, es).rows)| <= w.config.cap - 1 + n
    decreases |es|
  {
    if es == [] {
      SubsetSize(ActiveIds(w.rows), Reach(w));
    } else {
      StepMeasure(w, es[0], n);
      RunMeasure(Next(w, es[0]), es[1..], n);
    }
  }

  /**
   Over every interleaving: with at most `n` starts (past their count check) and checks in flight at once,
   no more than MAX_CONCURRENT_SESSIONS - 1 + n sessions are active at any point.
   */
  lemma ActiveIsBounded(w: World, es: seq<Event>, n: nat)
    requires w.calls == map[] && |ActiveIds(w.rows)| <= w.config.cap - 1 + n
    requires Run(w, es) && Bounded(w, es, n)
    ensures |ActiveIds(After(w, es).rows)| <= w.config.cap - 1 + n
  {
    assert Reach(w) == ActiveIds(w.rows);
    RunMeasure(w, es, n);
  }

  // ---------------------------------------------------------------------------------------------
  // The bound is reached
  // ---------------------------------------------------------------------------------------------

  function WithStarted(rows: Rows, b: nat, k: nat, now: nat): Rows {
    rows + map i: nat | b <= i < b + k :: NewRow(i, 0, now)
  }

  function RacingCalls(b: nat, n: nat, k: nat): map<CallId, Call> {
    map i: nat | b <= i < b + n :: if i < b + k then Create(i) else FindPrior(i, 0)
  }

  /**
   Starts of `n` new users, numbered from `b`, past the count check; the first `k` of them have inserted their
   rows.
   */
  function Racing(w: World, b: nat, n: nat, k: nat): World {
    w.(rows := WithStarted(w.rows, b, k, w.now), calls := RacingCalls(b, n, k))
  }

  /** Sessions and users of this database are numbered below `b`. */
  ghost predicate Below(rows: Rows, b: nat) { forall s | s in rows :: s < b && rows[s].user < b }

  function Span(b: nat, n: nat): (r: set<nat>)
    ensures |r| == n && forall i: nat :: i in r <==> b <= i < b + n
  {
    if n == 0 then {} else Span(b, n - 1) + {b + n - 1}
  }

  lemma BusyIsFew(calls: map<CallId, Call>, b: nat, n: nat)
    requires forall id | id in calls :: b <= id < b + n
    ensures |Busy(calls)| <= n
  {
    SubsetSize(Busy(calls), Span(b, n));
  }

  lemma {:induction false} BoundedSnoc(w: World, es: seq<Event>, v: World, e: Event, n: nat)
    requires Leads(w, es, v) && Bounded(w, es, n) && ChecksActive(v, e) && |Busy(Next(v, e).calls)| <= n
    ensures Bounded(w, es + [e], n)
    decreases |es|
  {
    if es == [] {
      assert [] + [e] == [e] && [e][1..] == [];
    } else {
      var all := es + [e];
      assert all[0] == es[0] && all[1..] == es[1..] + [e];
      BoundedSnoc(Next(w, es[0]), es[1..], v, e, n);
    }
  }

  lemma ActiveWithStarted(rows: Rows, b: nat, k: nat, now: nat)
    requires Below(rows, b)
    ensures ActiveIds(WithStarted(rows, b, k, now)) == ActiveIds(rows) + Span(b, k)
  {
    var started := WithStarted(rows, b, k, now);
    forall s
      ensures s in ActiveIds(started) <==> s in ActiveIds(rows) || s in Span(b, k)
    {
      if s in rows { assert started[s] == rows[s]; }
    }
  }

  lemma RacingRows(w: World, b: nat, n: nat, k: nat)
    requires Below(w.rows, b)
    ensures ActiveIds(Racing(w, b, n, k).rows) == ActiveIds(w.rows) + Span(b, k)
    ensures |ActiveIds(Racing(w, b, n, k).rows)| == |ActiveIds(w.rows)| + k
  {
    ActiveWithStarted(w.rows, b, k, w.now);
    assert ActiveIds(w.rows) !! Span(b, k);
  }

  lemma {:induction false} AllPassTheCount(w: World, b: nat, n: nat, m: nat) returns (es: seq<Event>)
    requires w.calls == map[] && Below(w.rows, b) && |ActiveIds(w.rows)| < w.config.cap && m <= n
    ensures Leads(w, es, Racing(w, b, m, 0)) && Bounded(w, es, n)
    decreases m
  {
    if m == 0 {
      es := [];
      assert Racing(w, b, 0, 0).rows == w.rows && Racing(w, b, 0, 0).calls == w.calls;
    } else {
      es := AllPassTheCount(w, b, n, m - 1);
      var v := Racing(w, b, m - 1, 0);
      var e := StartBegin(b + m - 1, b + m - 1, 0);
      RacingRows(w, b, m - 1, 0);
      assert Next(v, e).calls == Racing(w, b, m, 0).calls;
      BusyIsFew(Racing(w, b, m, 0).calls, b, n);
      BoundedSnoc(w, es, v, e, n);
      Snoc(w, es, v, e);
      es := es + [e];
    }
  }

  lemma FindsNoPrior(w: World, b: nat, n: nat, k: nat)
    requires Below(w.rows, b) && k < n
    ensures Enabled(Racing(w, b, n, k), PriorFound(b + k, None))
  {
    RacingRows(w, b, n, k);
  }

  lemma InsertsOne(w: World, b: nat, n: nat, k: nat, es: seq<Event>) returns (run: seq<Event>)
    requires Below(w.rows, b) && k < n && Leads(w, es, Racing(w, b, n, k)) && Bounded(w, es, n)
    ensures Leads(w, run, Racing(w, b, n, k + 1)) && Bounded(w, run, n)
  {
    var v := Racing(w, b, n, k);
    var u := b + k;
    var v1 := v.(calls := v.calls[u := InsertRow(u, 0)]);
    FindsNoPrior(w, b, n, k);
    assert v1 == Next(v, PriorFound(u, None));
    BusyIsFew(v1.calls, b, n);
    BoundedSnoc(w, es, v, PriorFound(u, None), n);
    Snoc(w, es, v, PriorFound(u, None));
    run := InsertsHis(w, b, n, k, es + [PriorFound(u, None)], v1);
  }

  lemma OneMoreStarted(rows: Rows, b: nat, k: nat, now: nat)
    requires Below(rows, b)
    ensures WithStarted(rows, b, k, now)[b + k := NewRow(b + k, 0, now)] == WithStarted(rows, b, k + 1, now)
    ensures b + k !in WithStarted(rows, b, k, now)
  {
  }

  lemma InsertStep(w: World, b: nat, n: nat, k: nat, v1: World)
    requires Below(w.rows, b) && k < n
    requires v1 == Racing(w, b, n, k).(calls := Racing(w, b, n, k).calls[b + k := InsertRow(b + k, 0)])
    ensures Enabled(v1, Inserted(b + k, b + k)) && Next(v1, Inserted(b + k, b + k)) == Racing(w, b, n, k + 1)
  {
    OneMoreStarted(w.rows, b, k, w.now);
  }

  lemma InsertsHis(w: World, b: nat, n: nat, k: nat, es: seq<Event>, v1: World) returns (run: seq<Event>)
    requires Below(w.rows, b) && k < n && Leads(w, es, v1) && Bounded(w, es, n)
    requires v1 == Racing(w, b, n, k).(calls := Racing(w, b, n, k).calls[b + k := InsertRow(b + k, 0)])
    ensures Leads(w, run, Racing(w, b, n, k + 1)) && Bounded(w, run, n)
  {
    var u := b + k;
    InsertStep(w, b, n, k, v1);
    BusyIsFew(RacingCalls(b, n, k + 1), b, n);
    BoundedSnoc(w, es, v1, Inserted(u, u), n);
    Snoc(w, es, v1, Inserted(u, u));
    run := es + [Inserted(u, u)];
  }

  /** `n` racing starts of which `k` have inserted can be reached, with no more in flight at any point. */
  ghost predicate Reachable(w: World, b: nat, n: nat, k: nat) {
    exists es :: Leads(w, es, Racing(w, b, n, k)) && Bounded(w, es, n)
  }

  lemma NextInsert(w: World, b: nat, n: nat, k: nat)
    requires Below(w.rows, b) && k < n && Reachable(w, b, n, k)
    ensures Reachable(w, b, n, k + 1)
  {
    var es :| Leads(w, es, Racing(w, b, n, k)) && Bounded(w, es, n);
    var run := InsertsOne(w, b, n, k, es);
  }

  lemma {:induction false} AllInsert(w: World, b: nat, n: nat, k: nat)
    requires w.calls == map[] && Below(w.rows, b) && |ActiveIds(w.rows)| < w.config.cap && k <= n
    ensures Reachable(w, b, n, k)
    decreases k
  {
    if k == 0 {
      var es := AllPassTheCount(w, b, n, n);
    } else {
      AllInsert(w, b, n, k - 1);
      NextInsert(w, b, n, k - 1);
    }
  }

  /** Every database numbers its sessions and users below some bound. */
  lemma {:induction false} SomeBound(rows: Rows) returns (b: nat)
    ensures Below(rows, b)
    decreases |rows|
  {
    b := 0;
    if rows != map[] {
      var s :| s in rows;
      var rest := SomeBound(rows - {s});
      b := rest + s + rows[s].user + 1;
      assert forall x | x in rows :: x != s ==> x in rows - {s} && (rows - {s})[x] == rows[x];
    }
  }

  /**
   The bound is exact: for every cap, every database with one session less than the cap active and every `n`,
   that many starts that pass the count check together leave `MAX_CONCURRENT_SESSIONS - 1 + n` sessions active.
   */
  lemma BoundIsReached(w: World, n: nat) returns (es: seq<Event>)
    requires w.calls == map[] && |ActiveIds(w.rows)| == w.config.cap - 1
    ensures Run(w, es) && Bounded(w, es, n)
    ensures |ActiveIds(After(w, es).rows)| == w.config.cap - 1 + n
  {
    var b := SomeBound(w.rows);
    AllInsert(w, b, n, n);
    es :| Leads(w, es, Racing(w, b, n, n)) && Bounded(w, es, n);
    RacingRows(w, b, n, n);
  }
}
