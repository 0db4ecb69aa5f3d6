/**
 Session rows, containers, check attempts and progress, with every call cut at its awaits. Calls interleave
 freely; each step is one query or one Docker call with the code up to the next await. Queries succeed and
 rows are never deleted; Docker calls may throw.
 */
module SessionModel {
  import opened Options

  type UserId = nat
  type ChallengeId = nat
  type SessionId = nat
  type ContainerId = nat
  type CallId = nat
  type Key = (UserId, ChallengeId)

  // ---------------------------------------------------------------------------------------------
  // Tables and queries
  // ---------------------------------------------------------------------------------------------

  datatype Status = Starting | Running | Checking | Solved | Abandoned | Error | Expired

  predicate IsActive(s: Status) { s.Starting? || s.Running? || s.Checking? }

  datatype Row = Row(
    user: UserId, challenge: ChallengeId, container: Option<ContainerId>, status: Status,
    hints: nat, activity: nat, solvedAt: Option<nat>)

  type Rows = map<SessionId, Row>

  datatype Attempt = Attempt(session: SessionId, passed: bool)

  datatype Progress = Progress(
    solved: bool, attempts: nat, hintsMax: nat, firstSolvedAt: Option<nat>, lastAttemptedAt: nat)

  /** One execution of the progress upsert. */
  datatype Upsert = Upsert(user: UserId, challenge: ChallengeId, passed: bool, hints: nat, at: nat)

  function ActiveIds(rows: Rows): set<SessionId> {
    set s | s in rows && IsActive(rows[s].status)
  }

  function SetStatus(rows: Rows, s: SessionId, st: Status): Rows {
    if s in rows then rows[s := rows[s].(status := st)] else rows
  }

  function SetSolved(rows: Rows, s: SessionId, now: nat): Rows {
    if s in rows then rows[s := rows[s].(status := Solved, solvedAt := Some(now))] else rows
  }

  function SetContainer(rows: Rows, s: SessionId, c: ContainerId): Rows {
    if s in rows then rows[s := rows[s].(container := Some(c), status := Running)] else rows
  }

  function ClearContainer(rows: Rows, s: SessionId): Rows {
    if s in rows then rows[s := rows[s].(container := None)] else rows
  }

  function Touch(rows: Rows, s: SessionId, user: UserId, now: nat): Rows {
    if s in rows && rows[s].user == user && IsActive(rows[s].status) then rows[s := rows[s].(activity := now)] else rows
  }

  function NewRow(user: UserId, challenge: ChallengeId, now: nat): Row {
    Row(user, challenge, None, Starting, 0, now, None)
  }

  function Greatest(a: nat, b: nat): nat { if a < b then b else a }

  /** `INSERT ... ON CONFLICT (user_id, challenge_id) DO UPDATE`. */
  function UpsertProgress(p: Option<Progress>, u: Upsert): Progress {
    match p
    case None => Progress(u.passed, 1, u.hints, if u.passed then Some(u.at) else None, u.at)
    case Some(r) =>
      Progress(r.solved || u.passed, r.attempts + 1, Greatest(r.hintsMax, u.hints),
               if r.firstSolvedAt.Some? then r.firstSolvedAt else if u.passed then Some(u.at) else None, u.at)
  }

  datatype Config = Config(cap: nat, idleMs: nat, solvedGraceMs: nat)

  function IdleIds(rows: Rows, now: nat, idleMs: nat): set<SessionId> {
    set s | s in rows && IsActive(rows[s].status) && rows[s].activity + idleMs < now
  }

  function OverdueIds(rows: Rows, now: nat, graceMs: nat): set<SessionId> {
    set s | s in rows && rows[s].status.Solved? && rows[s].container.Some? && rows[s].solvedAt.Some?
            && rows[s].solvedAt.value + graceMs < now
  }

  function DrainIds(rows: Rows): set<SessionId> {
    set s | s in rows && IsActive(rows[s].status) && rows[s].container.Some?
  }

  type Queue = seq<(SessionId, Option<ContainerId>)>

  function Ids(queue: Queue): set<SessionId> { set i | 0 <= i < |queue| :: queue[i].0 }

  /** A query's result: some rows, each once, with its container. */
  ghost predicate IsResult(rows: Rows, queue: Queue) {
    && (forall i | 0 <= i < |queue| :: queue[i].0 in rows && queue[i].1 == rows[queue[i].0].container)
    && (forall i, j | 0 <= i < j < |queue| :: queue[i].0 != queue[j].0)
  }

  // ---------------------------------------------------------------------------------------------
  // Calls in flight
  // ---------------------------------------------------------------------------------------------

  /** What a stop goes on to: return to its caller, or insert the new session of the start that asked for it. */
  datatype Then = Return | InsertFor(user: UserId, challenge: ChallengeId)

  datatype CheckPhase = ToMark | ToRun | ToInsert | ToStore | ToUpsert

  datatype SweepKind = Idle | SolvedGrace | Drain

  /** A call, by what it awaits next. */
  datatype Call =
    | FindPrior(user: UserId, challenge: ChallengeId)
    | StopRead(session: SessionId, then_: Then)
    | StopDestroy(session: SessionId, container: ContainerId, then_: Then)
    | StopMark(session: SessionId, then_: Then)
    | InsertRow(user: UserId, challenge: ChallengeId)
    | Create(session: SessionId)
    | Store(session: SessionId, container: ContainerId)
    | Fail(session: SessionId)
    | Check(phase: CheckPhase, session: SessionId, user: UserId, challenge: ChallengeId, hints: nat, passed: bool)
    | Sweep(kind: SweepKind, marking: bool, queue: Queue)

  datatype World = World(
    now: nat, config: Config, rows: Rows, containers: set<ContainerId>,
    attempts: seq<Attempt>, progress: map<Key, Progress>, upserts: seq<Upsert>, calls: map<CallId, Call>)

  datatype Event =
    | StartBegin(call: CallId, user: UserId, challenge: ChallengeId)
    | StopBegin(call: CallId, session: SessionId, user: UserId)
    | CheckBegin(call: CallId, session: SessionId, user: UserId)
    | ReapBegin(call: CallId, queue: Queue)
    | DrainBegin(call: CallId, queue: Queue)
    | Heartbeat(session: SessionId, user: UserId)
    | RevealHint(session: SessionId, hints: nat)
    | PriorFound(call: CallId, prior: Option<SessionId>)
    | Proceed(call: CallId, ok: bool)
    | Inserted(call: CallId, session: SessionId)
    | Created(call: CallId, container: ContainerId)
    | Ran(call: CallId, passed: bool)
    | SolvedFound(call: CallId, queue: Queue)
    | SweepDone(call: CallId)
    | Advance(ms: nat)

  function SetCall(w: World, id: CallId, c: Call): World { w.(calls := w.calls[id := c]) }

  function EndCall(w: World, id: CallId): World { w.(calls := w.calls - {id}) }

  /** A stop is over: its caller goes on. */
  function GoOn(calls: map<CallId, Call>, id: CallId, t: Then): map<CallId, Call> {
    match t
    case Return => calls - {id}
    case InsertFor(u, ch) => calls[id := InsertRow(u, ch)]
  }

  /** `startSession` past the count query. */
  function BeginStart(w: World, id: CallId, user: UserId, ch: ChallengeId): World {
    if |ActiveIds(w.rows)| >= w.config.cap then w else SetCall(w, id, FindPrior(user, ch))
  }

  /** The row a stop reads: a session with a container is destroyed first, any other is marked at once. */
  function ReadForStop(w: World, id: CallId, s: SessionId, t: Then): World {
    if s !in w.rows then EndCall(w, id)
    else if w.rows[s].container.Some? then SetCall(w, id, StopDestroy(s, w.rows[s].container.value, t))
    else SetCall(w, id, StopMark(s, t))
  }

  /** `stopSession` of a user's own session, whose row is read at once. */
  function BeginStop(w: World, id: CallId, s: SessionId, user: UserId): World {
    if s in w.rows && w.rows[s].user == user then ReadForStop(w, id, s, Return) else w
  }

  /** `checkSession` up to its first update: it asks for a container, not for an active status. */
  function BeginCheck(w: World, id: CallId, s: SessionId, user: UserId): World {
    if s in w.rows && w.rows[s].user == user && w.rows[s].container.Some? then
      SetCall(w, id, Check(ToMark, s, user, w.rows[s].challenge, w.rows[s].hints, false))
    else w
  }

  function ProceedStop(w: World, id: CallId, c: Call, ok: bool): World {
    match c
    case StopRead(s, t) => ReadForStop(w, id, s, t)
    case StopDestroy(s, k, t) =>
      if ok then w.(calls := w.calls[id := StopMark(s, t)], containers := w.containers - {k}) else EndCall(w, id)
    case StopMark(s, t) => w.(calls := GoOn(w.calls, id, t), rows := SetStatus(w.rows, s, Abandoned))
    case _ => w
  }

  function ProceedStart(w: World, id: CallId, c: Call): World {
    match c
    case Create(s) => SetCall(w, id, Fail(s))
    case Store(s, k) => w.(calls := w.calls - {id}, rows := SetContainer(w.rows, s, k))
    case Fail(s) => w.(calls := w.calls - {id}, rows := SetStatus(w.rows, s, Error))
    case _ => w
  }

  function ProceedCheck(w: World, id: CallId, c: Call): World {
    if !c.Check? then w
    else
      match c.phase
      case ToMark => w.(calls := w.calls[id := c.(phase := ToRun)], rows := SetStatus(w.rows, c.session, Checking))
      case ToRun => EndCall(w, id)
      case ToInsert => w.(calls := w.calls[id := c.(phase := ToStore)],
        attempts := w.attempts + [Attempt(c.session, c.passed)])
      case ToStore =>
        w.(calls := w.calls[id := c.(phase := ToUpsert)],
           rows := if c.passed then SetSolved(w.rows, c.session, w.now) else SetStatus(w.rows, c.session, Running))
      case ToUpsert =>
        var u := Upsert(c.user, c.challenge, c.passed, c.hints, w.now);
        var key := (c.user, c.challenge);
        w.(calls := w.calls - {id}, progress := w.progress[key := UpsertProgress(Lookup(w.progress, key), u)],
          upserts := w.upserts + [u])
  }

  function SweepMarked(rows: Rows, kind: SweepKind, s: SessionId): Rows {
    match kind
    case Idle => SetStatus(rows, s, Expired)
    case SolvedGrace => ClearContainer(rows, s)
    case Drain => SetStatus(rows, s, Abandoned)
  }

  function ProceedSweep(w: World, id: CallId, c: Call, ok: bool): World {
    if !c.Sweep? || c.queue == [] then w
    else if !c.marking then
      w.(calls := w.calls[id := c.(marking := true)],
         containers := if ok && c.queue[0].1.Some? then w.containers - {c.queue[0].1.value} else w.containers)
    else
      w.(calls := w.calls[id := c.(marking := false, queue := c.queue[1..])],
        rows := SweepMarked(w.rows, c.kind, c.queue[0].0))
  }

  /** The await of `c` is over; `ok` is false when its Docker call threw. */
  function ProceedCall(w: World, id: CallId, c: Call, ok: bool): World {
    if c.StopRead? || c.StopDestroy? || c.StopMark? then ProceedStop(w, id, c, ok)
    else if c.Create? || c.Store? || c.Fail? then ProceedStart(w, id, c)
    else if c.Check? then ProceedCheck(w, id, c)
    else ProceedSweep(w, id, c, ok)
  }

  ghost predicate Enabled(w: World, e: Event) {
    match e
    case StartBegin(id, _, _) => id !in w.calls
    case StopBegin(id, _, _) => id !in w.calls
    case CheckBegin(id, _, _) => id !in w.calls
    case ReapBegin(id, queue) =>
      id !in w.calls && IsResult(w.rows, queue) && Ids(queue) == IdleIds(w.rows, w.now, w.config.idleMs)
    case DrainBegin(id, queue) => id !in w.calls && IsResult(w.rows, queue) && Ids(queue) == DrainIds(w.rows)
    case PriorFound(id, prior) =>
      && id in w.calls && w.calls[id].FindPrior?
      && (prior.Some? ==> prior.value in ActiveIds(w.rows) && w.rows[prior.value].user == w.calls[id].user)
      && (prior.None? ==> forall s | s in ActiveIds(w.rows) :: w.rows[s].user != w.calls[id].user)
    case Proceed(id, _) =>
      id in w.calls && !w.calls[id].FindPrior? && !w.calls[id].InsertRow?
        && (w.calls[id].Sweep? ==> w.calls[id].queue != [])
    case Inserted(id, s) => id in w.calls && w.calls[id].InsertRow? && s !in w.rows
    case Created(id, k) => id in w.calls && w.calls[id].Create? && k !in w.containers
    case Ran(id, _) => id in w.calls && w.calls[id].Check? && w.calls[id].phase.ToRun?
    case SolvedFound(id, queue) =>
      && id in w.calls && w.calls[id].Sweep? && w.calls[id].queue == [] && w.calls[id].kind.Idle?
      && IsResult(w.rows, queue) && Ids(queue) == OverdueIds(w.rows, w.now, w.config.solvedGraceMs)
    case SweepDone(id) => id in w.calls && w.calls[id].Sweep? && w.calls[id].queue == [] && !w.calls[id].kind.Idle?
    case _ => true
  }

  function Next(w: World, e: Event): World {
    match e
    case StartBegin(id, user, ch) => BeginStart(w, id, user, ch)
    case StopBegin(id, s, user) => BeginStop(w, id, s, user)
    case CheckBegin(id, s, user) => BeginCheck(w, id, s, user)
    case ReapBegin(id, queue) => SetCall(w, id, Sweep(Idle, false, queue))
    case DrainBegin(id, queue) => SetCall(w, id, Sweep(Drain, false, queue))
    case Heartbeat(s, user) => w.(rows := Touch(w.rows, s, user, w.now))
    case RevealHint(s, n) => if s in w.rows then w.(rows := w.rows[s := w.rows[s].(hints := n)]) else w
    case PriorFound(id, prior) =>
      if id !in w.calls || !w.calls[id].FindPrior? then w
      else
        var c := w.calls[id];
        SetCall(w, id, if prior.Some? then StopRead(prior.value, InsertFor(c.user, c.challenge))
          else InsertRow(c.user, c.challenge))
    case Proceed(id, ok) => if id in w.calls then ProceedCall(w, id, w.calls[id], ok) else w
    case Inserted(id, s) =>
      if id !in w.calls || !w.calls[id].InsertRow? then w
      else w.(calls := w.calls[id := Create(s)],
        rows := w.rows[s := NewRow(w.calls[id].user, w.calls[id].challenge, w.now)])
    case Created(id, k) =>
      if id !in w.calls || !w.calls[id].Create? then w
      else w.(calls := w.calls[id := Store(w.calls[id].session, k)], containers := w.containers + {k})
    case Ran(id, passed) =>
      if id !in w.calls || !w.calls[id].Check? then w
      else SetCall(w, id, w.calls[id].(phase := ToInsert, passed := passed))
    case SolvedFound(id, queue) =>
      if id !in w.calls || !w.calls[id].Sweep? then w else SetCall(w, id, Sweep(SolvedGrace, false, queue))
    case SweepDone(id) => EndCall(w, id)
    case Advance(ms) => w.(now := w.now + ms)
  }

  ghost predicate Run(w: World, es: seq<Event>)
    decreases |es|
  {
    es == [] || (Enabled(w, es[0]) && Run(Next(w, es[0]), es[1..]))
  }

  function After(w: World, es: seq<Event>): World
    decreases |es|
  {
    if es == [] then w else After(Next(w, es[0]), es[1..])
  }

  /** The run `es` leads from `w` to `v`. */
  ghost predicate Leads(w: World, es: seq<Event>, v: World) { Run(w, es) && After(w, es) == v }

  lemma {:induction false} Snoc(w: World, es: seq<Event>, v: World, e: Event)
    requires Leads(w, es, v) && Enabled(v, e)
    ensures Leads(w, es + [e], Next(v, e))
    decreases |es|
  {
    if es == [] {
      assert [] + [e] == [e] && [e][1..] == [];
    } else {
      assert (es + [e])[1..] == es[1..] + [e];
      Snoc(Next(w, es[0]), es[1..], v, e);
    }
  }
}
