/** The progress row kept by the upsert, against the log of check attempts, over every interleaving. */
module SessionProgress {
  import opened Options
  import opened SessionModel

  // ---------------------------------------------------------------------------------------------
  // What the row has to say of its upserts
  // ---------------------------------------------------------------------------------------------

  function KeyOf(u: Upsert): Key { (u.user, u.challenge) }

  /** The checks of a user and challenge, or those of them with this answer. */
  datatype Which = Which(key: Key, passed: Option<bool>)

  predicate Has(q: Which, key: Key, passed: bool) { key == q.key && (q.passed.Some? ==> q.passed.value == passed) }

  function All(key: Key): Which { Which(key, None) }

  /** Their upserts, in order. */
  function Mine(log: seq<Upsert>, q: Which): seq<Upsert> {
    if log == [] then []
    else
      var u := log[|log| - 1];
      Mine(log[..|log| - 1], q) + (if Has(q, KeyOf(u), u.passed) then [u] else [])
  }

  ghost predicate AnyPassed(mine: seq<Upsert>) { exists i :: 0 <= i < |mine| && mine[i].passed }

  /** The index is that of the first passing upsert. */
  ghost predicate FirstPass(mine: seq<Upsert>, i: int) {
    0 <= i < |mine| && mine[i].passed && forall j | 0 <= j < i :: !mine[j].passed
  }

  /** A row, or its absence, describes exactly these upserts. */
  ghost predicate Describes(p: Option<Progress>, mine: seq<Upsert>) {
    match p
    case None => mine == []
    case Some(r) =>
      && r.attempts == |mine| > 0
      && (r.solved <==> AnyPassed(mine))
      && (forall i | 0 <= i < |mine| :: mine[i].hints <= r.hintsMax)
      && (exists i :: 0 <= i < |mine| && mine[i].hints == r.hintsMax)
      && (r.solved <==> r.firstSolvedAt.Some?)
      && (r.firstSolvedAt.Some? ==> exists i :: FirstPass(mine, i) && mine[i].at == r.firstSolvedAt.value)
      && r.lastAttemptedAt == mine[|mine| - 1].at
  }

  /** One upsert takes a row that describes some upserts to one that describes them and it. */
  lemma UpsertDescribes(p: Option<Progress>, mine: seq<Upsert>, u: Upsert)
    requires Describes(p, mine)
    ensures Describes(Some(UpsertProgress(p, u)), mine + [u])
  {
    var n := mine + [u];
    var r := UpsertProgress(p, u);
    assert n[|mine|] == u;
    assert forall i | 0 <= i < |mine| :: n[i] == mine[i];
    match p {
      case None =>
        assert u.passed ==> FirstPass(n, 0);
      case Some(q) =>
        var m :| 0 <= m < |mine| && mine[m].hints == q.hintsMax;
        assert n[if q.hintsMax < u.hints then |mine| else m].hints == r.hintsMax;
        if q.firstSolvedAt.Some? {
          var i :| FirstPass(mine, i) && mine[i].at == q.firstSolvedAt.value;
          assert FirstPass(n, i);
        } else if u.passed {
          assert FirstPass(n, |mine|);
        }
    }
  }

  /** What of an upsert does not depend on when it ran. */
  function Result(u: Upsert): (bool, nat) { (u.passed, u.hints) }

  function Results(mine: seq<Upsert>): seq<(bool, nat)> { seq(|mine|, i requires 0 <= i < |mine| => Result(mine[i])) }

  lemma InResults(a: seq<Upsert>, b: seq<Upsert>, i: int)
    requires multiset(Results(a)) == multiset(Results(b)) && 0 <= i < |a|
    ensures exists j :: 0 <= j < |b| && Result(b[j]) == Result(a[i])
  {
    assert Results(a)[i] in multiset(Results(a));
    assert Results(a)[i] in Results(b);
  }

  /** Whatever order the same upserts ran in, the row differs in its timestamps only. */
  lemma OrderChangesOnlyTimestamps(p: Progress, a: seq<Upsert>, q: Progress, b: seq<Upsert>)
    requires Describes(Some(p), a) && Describes(Some(q), b) && multiset(Results(a)) == multiset(Results(b))
    ensures p.solved == q.solved && p.attempts == q.attempts && p.hintsMax == q.hintsMax
  {
    assert |multiset(Results(a))| == |a| && |multiset(Results(b))| == |b|;
    Covers(p, a, q, b);
    Covers(q, b, p, a);
  }

  lemma Covers(p: Progress, a: seq<Upsert>, q: Progress, b: seq<Upsert>)
    requires Describes(Some(p), a) && Describes(Some(q), b) && multiset(Results(a)) == multiset(Results(b))
    ensures (p.solved ==> q.solved) && p.hintsMax <= q.hintsMax
  {
    if p.solved {
      var i :| 0 <= i < |a| && a[i].passed;
      InResults(a, b, i);
    }
    var i :| 0 <= i < |a| && a[i].hints == p.hintsMax;
    InResults(a, b, i);
  }

  // ---------------------------------------------------------------------------------------------
  // The attempt rows and the checks between insert and upsert
  // ---------------------------------------------------------------------------------------------

  predicate IsOf(rows: Rows, a: Attempt, q: Which) {
    a.session in rows && Has(q, (rows[a.session].user, rows[a.session].challenge), a.passed)
  }

  function CountAttempts(attempts: seq<Attempt>, rows: Rows, q: Which): nat {
    if attempts == [] then 0
    else CountAttempts(attempts[..|attempts| - 1], rows, q) + (if IsOf(rows, attempts[|attempts| - 1], q) then 1
      else 0)
  }

  /** The checks of this user and challenge that have inserted their attempt and not upserted yet. */
  function Between(calls: map<CallId, Call>, q: Which): set<CallId> {
    set id | id in calls && IsBetween(calls[id], q)
  }

  predicate IsBetween(c: Call, q: Which) {
    c.Check? && (c.phase.ToStore? || c.phase.ToUpsert?) && Has(q, (c.user, c.challenge), c.passed)
  }

  /** A check in flight belongs to the user and challenge of its session. */
  ghost predicate CallsMatch(w: World) {
    && (forall id | id in w.calls && w.calls[id].Check? ::
          && w.calls[id].session in w.rows
          && w.rows[w.calls[id].session].user == w.calls[id].user
          && w.rows[w.calls[id].session].challenge == w.calls[id].challenge)
    && (forall i | 0 <= i < |w.attempts| :: w.attempts[i].session in w.rows)
  }

  ghost predicate RowInv(w: World, q: Which) {
    Describes(Lookup(w.progress, q.key), Mine(w.upserts, All(q.key))) && Counted(w, q)
  }

  ghost predicate Counted(w: World, q: Which) {
    |Mine(w.upserts, q)| + |Between(w.calls, q)| == CountAttempts(w.attempts, w.rows, q)
  }

  lemma {:induction false} CountSame(attempts: seq<Attempt>, rows: Rows, later: Rows, q: Which)
    requires forall s | s in rows ::
      s in later && later[s].user == rows[s].user
      && later[s].challenge == rows[s].challenge
    requires forall i | 0 <= i < |attempts| :: attempts[i].session in rows
    ensures CountAttempts(attempts, later, q) == CountAttempts(attempts, rows, q)
    decreases |attempts|
  {
    if attempts != [] {
      CountSame(attempts[..|attempts| - 1], rows, later, q);
    }
  }

  lemma CountSnoc(attempts: seq<Attempt>, a: Attempt, rows: Rows, q: Which)
    ensures CountAttempts(attempts + [a], rows, q)
         == CountAttempts(attempts, rows, q) + (if IsOf(rows, a, q) then 1 else 0)
  {
    assert (attempts + [a])[..|attempts|] == attempts;
  }

  ghost predicate KeysStay(w: World, v: World) {
    forall s | s in w.rows :: s in v.rows && v.rows[s].user == w.rows[s].user
      && v.rows[s].challenge == w.rows[s].challenge
  }

  lemma RowsKeepKeys(w: World, e: Event)
    requires Enabled(w, e)
    ensures KeysStay(w, Next(w, e))
  {
    if e.Proceed? {
      var c := w.calls[e.call];
      if c.Sweep? {
        assert Next(w, e) == ProceedSweep(w, e.call, c, e.ok);
      } else if c.Check? {
        assert Next(w, e) == ProceedCheck(w, e.call, c);
      }
    }
  }

  lemma StepMatches(w: World, e: Event)
    requires CallsMatch(w) && Enabled(w, e)
    ensures CallsMatch(Next(w, e))
  {
    RowsKeepKeys(w, e);
    if e.Proceed? { ProceedMatches(w, e.call, e.ok); } else { OtherMatches(w, e); }
  }

  /** A call's own step changes its phase and result only. */
  ghost predicate SameCheck(c: Call, d: Call) {
    d.Check? ==> c.Check? && d.session == c.session && d.user == c.user && d.challenge == c.challenge
  }

  lemma CheckStep(w: World, id: CallId, c: Call)
    requires CallsMatch(w) && id in w.calls && w.calls[id] == c && c.Check? && KeysStay(w, ProceedCheck(w, id, c))
    ensures CallsMatch(ProceedCheck(w, id, c))
  {
    var v := ProceedCheck(w, id, c);
    assert forall x | x in v.calls :: x in w.calls && SameCheck(w.calls[x], v.calls[x]);
  }

  /** The steps of calls that are not checks. */
  lemma OtherCalls(w: World, id: CallId, ok: bool)
    requires Enabled(w, Proceed(id, ok)) && !w.calls[id].Check?
    ensures
      var v := Next(w, Proceed(id, ok));
      && v.attempts == w.attempts && v.progress == w.progress && v.upserts == w.upserts
      && forall x | x in v.calls :: (x in w.calls && v.calls[x] == w.calls[x]) || (x == id && !v.calls[x].Check?)
    ensures
      var v := Next(w, Proceed(id, ok));
      forall x | x in w.calls && x != id :: x in v.calls && v.calls[x] == w.calls[x]
  {
    var c := w.calls[id];
    if c.Sweep? {
      assert Next(w, Proceed(id, ok)) == ProceedSweep(w, id, c, ok);
    } else if c.Create? || c.Store? || c.Fail? {
      assert Next(w, Proceed(id, ok)) == ProceedStart(w, id, c);
    } else {
      assert Next(w, Proceed(id, ok)) == ProceedStop(w, id, c, ok);
    }
  }

  lemma ProceedMatches(w: World, id: CallId, ok: bool)
    requires CallsMatch(w) && Enabled(w, Proceed(id, ok)) && KeysStay(w, Next(w, Proceed(id, ok)))
    ensures CallsMatch(Next(w, Proceed(id, ok)))
  {
    if w.calls[id].Check? { CheckStep(w, id, w.calls[id]); } else { OtherCalls(w, id, ok); }
  }

  lemma OtherMatches(w: World, e: Event)
    requires CallsMatch(w) && Enabled(w, e) && !e.Proceed? && KeysStay(w, Next(w, e))
    ensures CallsMatch(Next(w, e))
  {
    assert Next(w, e).attempts == w.attempts;
  }

  // ---------------------------------------------------------------------------------------------
  // Steps keep `RowInv`
  // ---------------------------------------------------------------------------------------------

  /** A step that leaves attempts, progress and the checks in between alone. */
  lemma QuietRow(w: World, v: World, q: Which)
    requires RowInv(w, q) && CallsMatch(w) && KeysStay(w, v)
    requires v.attempts == w.attempts && v.progress == w.progress && v.upserts == w.upserts
    requires forall id ::
      (id in v.calls && IsBetween(v.calls[id], q))
      <==> (id in w.calls && IsBetween(w.calls[id], q))
    ensures RowInv(v, q)
  {
    CountSame(w.attempts, w.rows, v.rows, q);
    assert Between(v.calls, q) == Between(w.calls, q);
  }

  /** The attempt is inserted: one more attempt row, one more check in between. */
  lemma InsertRowInv(w: World, id: CallId, q: Which)
    requires RowInv(w, q) && CallsMatch(w) && id in w.calls && w.calls[id].Check? && w.calls[id].phase.ToInsert?
    ensures RowInv(ProceedCheck(w, id, w.calls[id]), q)
  {
    var c := w.calls[id];
    var v := ProceedCheck(w, id, c);
    CountSnoc(w.attempts, Attempt(c.session, c.passed), w.rows, q);
    if Has(q, (c.user, c.challenge), c.passed) {
      assert Between(v.calls, q) == Between(w.calls, q) + {id};
    } else {
      assert Between(v.calls, q) == Between(w.calls, q);
    }
  }

  lemma MineSnoc(log: seq<Upsert>, u: Upsert, q: Which)
    ensures Mine(log + [u], q) == Mine(log, q) + (if Has(q, KeyOf(u), u.passed) then [u] else [])
  {
    assert (log + [u])[..|log|] == log;
  }

  lemma UpsertRow(w: World, id: CallId, key: Key)
    requires Describes(Lookup(w.progress, key), Mine(w.upserts, All(key)))
    requires id in w.calls && w.calls[id].Check? && w.calls[id].phase.ToUpsert?
    ensures
      var v := ProceedCheck(w, id, w.calls[id]);
      Describes(Lookup(v.progress, key), Mine(v.upserts, All(key)))
  {
    var c := w.calls[id];
    var u := Upsert(c.user, c.challenge, c.passed, c.hints, w.now);
    var mine := Mine(w.upserts, All(key));
    MineSnoc(w.upserts, u, All(key));
    if KeyOf(u) == key {
      UpsertDescribes(Lookup(w.progress, key), mine, u);
    } else {
      assert mine + [] == mine;
    }
  }

  lemma UpsertCounts(w: World, id: CallId, q: Which)
    requires Counted(w, q) && id in w.calls && w.calls[id].Check? && w.calls[id].phase.ToUpsert?
    ensures Counted(ProceedCheck(w, id, w.calls[id]), q)
  {
    var c := w.calls[id];
    var v := ProceedCheck(w, id, c);
    MineSnoc(w.upserts, Upsert(c.user, c.challenge, c.passed, c.hints, w.now), q);
    if Has(q, (c.user, c.challenge), c.passed) {
      assert Between(v.calls, q) == Between(w.calls, q) - {id};
    } else {
      assert Between(v.calls, q) == Between(w.calls, q);
    }
  }

  /** The upsert: one more upsert in the row, one check less in between. */
  lemma UpsertRowInv(w: World, id: CallId, q: Which)
    requires RowInv(w, q) && id in w.calls && w.calls[id].Check? && w.calls[id].phase.ToUpsert?
    ensures RowInv(ProceedCheck(w, id, w.calls[id]), q)
  {
    UpsertRow(w, id, q.key);
    UpsertCounts(w, id, q);
  }

  /** The other steps of a check. */
  lemma PhaseRowInv(w: World, id: CallId, q: Which)
    requires RowInv(w, q) && CallsMatch(w) && id in w.calls && w.calls[id].Check?
    requires !w.calls[id].phase.ToInsert? && !w.calls[id].phase.ToUpsert?
      && KeysStay(w, ProceedCheck(w, id, w.calls[id]))
    ensures RowInv(ProceedCheck(w, id, w.calls[id]), q)
  {
    QuietRow(w, ProceedCheck(w, id, w.calls[id]), q);
  }

  lemma ProceedRow(w: World, id: CallId, ok: bool, q: Which)
    requires RowInv(w, q) && CallsMatch(w) && Enabled(w, Proceed(id, ok)) && KeysStay(w, Next(w, Proceed(id, ok)))
    ensures RowInv(Next(w, Proceed(id, ok)), q)
  {
    var c := w.calls[id];
    if c.Check? && c.phase.ToInsert? { InsertRowInv(w, id, q); }
    else if c.Check? && c.phase.ToUpsert? { UpsertRowInv(w, id, q); }
    else if c.Check? { PhaseRowInv(w, id, q); }
    else {
      OtherCalls(w, id, ok);
      QuietRow(w, Next(w, Proceed(id, ok)), q);
    }
  }

  lemma OtherQuiet(w: World, e: Event, q: Which)
    requires Enabled(w, e) && !e.Proceed?
    ensures
      var v := Next(w, e);
      && v.attempts == w.attempts && v.progress == w.progress && v.upserts == w.upserts
      && forall id :: (id in v.calls && IsBetween(v.calls[id], q)) <==> (id in w.calls && IsBetween(w.calls[id], q))
  {
  }

  lemma OtherRow(w: World, e: Event, q: Which)
    requires RowInv(w, q) && CallsMatch(w) && Enabled(w, e) && !e.Proceed? && KeysStay(w, Next(w, e))
    ensures RowInv(Next(w, e), q)
  {
    OtherQuiet(w, e, q);
    QuietRow(w, Next(w, e), q);
  }

  lemma {:induction false} RunKeepsRow(w: World, es: seq<Event>, q: Which)
    requires Run(w, es) && CallsMatch(w) && RowInv(w, q)
    ensures RowInv(After(w, es), q)
    decreases |es|
  {
    if es != [] {
      RowsKeepKeys(w, es[0]);
      StepMatches(w, es[0]);
      if es[0].Proceed? { ProceedRow(w, es[0].call, es[0].ok, q); } else { OtherRow(w, es[0], q); }
      RunKeepsRow(Next(w, es[0]), es[1..], q);
    }
  }

  lemma RunCounts(now: nat, config: Config, es: seq<Event>, q: Which)
    requires Run(Empty(now, config), es)
    ensures RowInv(After(Empty(now, config), es), q)
  {
    assert Between(map[], q) == {};
    RunKeepsRow(Empty(now, config), es, q);
  }

  function Empty(now: nat, config: Config): World { World(now, config, map[], {}, [], map[], [], map[]) }

  /**
   At every point of every interleaving from an empty database, for every user and challenge: the progress
   row describes exactly the upserts that ran, and its attempt count plus the checks between insert and
   upsert is the number of attempt rows; the same holds of the upserts, checks and attempts with either answer.
   */
  lemma ProgressDescribesTheChecks(now: nat, config: Config, es: seq<Event>, key: Key, passed: bool)
    requires Run(Empty(now, config), es)
    ensures
      var v := After(Empty(now, config), es);
      var answer := Which(key, Some(passed));
      && Describes(Lookup(v.progress, key), Mine(v.upserts, All(key)))
      && (if key in v.progress then v.progress[key].attempts else 0) + |Between(v.calls, All(key))|
         == CountAttempts(v.attempts, v.rows, All(key))
      && |Mine(v.upserts, answer)| + |Between(v.calls, answer)| == CountAttempts(v.attempts, v.rows, answer)
  {
    RunCounts(now, config, es, All(key));
    RunCounts(now, config, es, Which(key, Some(passed)));
  }

  lemma {:induction false} SomeMine(log: seq<Upsert>, key: Key)
    ensures Mine(log, Which(key, Some(true))) != [] <==> AnyPassed(Mine(log, All(key)))
    decreases |log|
  {
    if log != [] {
      var before := Mine(log[..|log| - 1], All(key));
      var mine := Mine(log, All(key));
      SomeMine(log[..|log| - 1], key);
      assert forall i | 0 <= i < |before| :: mine[i] == before[i];
      assert mine != before ==> mine == before + [log[|log| - 1]];
      assert mine != before ==> mine[|before|] == log[|log| - 1];
    }
  }

  ghost predicate AnyAttempt(attempts: seq<Attempt>, rows: Rows, q: Which) {
    exists i :: 0 <= i < |attempts| && IsOf(rows, attempts[i], q)
  }

  lemma {:induction false} SomeAttempt(attempts: seq<Attempt>, rows: Rows, q: Which)
    ensures CountAttempts(attempts, rows, q) > 0 <==> AnyAttempt(attempts, rows, q)
    decreases |attempts|
  {
    if attempts != [] {
      var front := attempts[..|attempts| - 1];
      SomeAttempt(front, rows, q);
      assert forall i | 0 <= i < |front| :: front[i] == attempts[i];
    }
  }

  /**
   So whenever no passed check of a user and challenge is between its insert and its upsert, the challenge counts as
   solved if and only if some attempt at it passed.
   */
  lemma SolvedIffAnAttemptPassed(now: nat, config: Config, es: seq<Event>, key: Key)
    requires Run(Empty(now, config), es)
    requires Between(After(Empty(now, config), es).calls, Which(key, Some(true))) == {}
    ensures
      var v := After(Empty(now, config), es);
      (key in v.progress && v.progress[key].solved)
      <==> AnyAttempt(v.attempts, v.rows, Which(key, Some(true)))
  {
    var v := After(Empty(now, config), es);
    ProgressDescribesTheChecks(now, config, es, key, true);
    assert |Mine(v.upserts, Which(key, Some(true)))| == CountAttempts(v.attempts, v.rows, Which(key, Some(true)));
    SomeMine(v.upserts, key);
    SomeAttempt(v.attempts, v.rows, Which(key, Some(true)));
    assert (key in v.progress && v.progress[key].solved) <==> AnyPassed(Mine(v.upserts, All(key)));
  }

  // ---------------------------------------------------------------------------------------------
  // What one check carries
  // ---------------------------------------------------------------------------------------------

  /** The check is in flight throughout, and its script does not answer. */
  ghost predicate Carries(w: World, es: seq<Event>, id: CallId)
    decreases |es|
  {
    && id in w.calls && w.calls[id].Check?
    && (es != [] ==> !(es[0].Ran? && es[0].call == id) && Carries(Next(w, es[0]), es[1..], id))
  }

  lemma StepCarries(w: World, e: Event, id: CallId)
    requires Enabled(w, e) && id in w.calls && w.calls[id].Check? && !(e.Ran? && e.call == id)
    requires id in Next(w, e).calls && Next(w, e).calls[id].Check?
    ensures Next(w, e).calls[id].(phase := w.calls[id].phase) == w.calls[id]
  {
    if !e.Proceed? {
    } else if w.calls[e.call].Check? {
    } else { OtherCalls(w, e.call, e.ok); }
  }

  lemma {:induction false} RunCarries(w: World, es: seq<Event>, id: CallId)
    requires Run(w, es) && Carries(w, es, id)
    ensures id in After(w, es).calls && After(w, es).calls[id].Check?
    ensures After(w, es).calls[id].(phase := w.calls[id].phase) == w.calls[id]
    decreases |es|
  {
    if es != [] {
      StepCarries(w, es[0], id);
      RunCarries(Next(w, es[0]), es[1..], id);
    }
  }

  /**
   From a check's beginning, over any steps of other calls, to its script's answer, and over any from there to its
   insert or its upsert: the attempt inserted is its session's with that answer, and the upsert is the owner's, with
   that answer and the hints the session had when the check began.
   */
  lemma CheckStoresItsAnswer(w: World, id: CallId, s: SessionId, user: UserId, before: seq<Event>, passed: bool,
      after: seq<Event>, ok: bool)
    requires Enabled(w, CheckBegin(id, s, user)) && Next(w, CheckBegin(id, s, user)) != w
    requires Run(Next(w, CheckBegin(id, s, user)), before) && Carries(Next(w, CheckBegin(id, s, user)), before, id)
    requires
      var u := After(Next(w, CheckBegin(id, s, user)), before);
      && Enabled(u, Ran(id, passed)) && Run(Next(u, Ran(id, passed)), after)
      && Carries(Next(u, Ran(id, passed)), after, id)
    ensures s in w.rows && w.rows[s].user == user
    ensures
      var u := After(Next(w, CheckBegin(id, s, user)), before);
      var v := After(Next(u, Ran(id, passed)), after);
      var done := Next(v, Proceed(id, ok));
      && id in v.calls && v.calls[id].Check?
      && (v.calls[id].phase.ToInsert? ==> done.attempts == v.attempts + [Attempt(s, passed)])
      && (v.calls[id].phase.ToUpsert? ==>
            done.upserts == v.upserts + [Upsert(user, w.rows[s].challenge, passed, w.rows[s].hints, v.now)])
  {
    var begun := Next(w, CheckBegin(id, s, user));
    RunCarries(begun, before, id);
    RunCarries(Next(After(begun, before), Ran(id, passed)), after, id);
  }
}
