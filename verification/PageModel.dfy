/**
 The challenge page's terminal: its session, its reconnect budget and timer, and what it asks the server for.
 Each step is one handler, effect or timer callback. `window.setTimeout` fires on time; the callback a close
 event reaches is the one of the latest render.
 */
module PageModel {
  import opened Options

  type SessionId = nat
  type Ticket = nat
  type TimerId = nat

  const RECONNECT_DELAYS_MS: seq<nat> := [1000, 2000, 4000, 8000, 8000]

  datatype Status = Connecting | Connected | Disconnected

  datatype LocalSession = LocalSession(id: SessionId, wsTicket: Ticket)

  datatype Timer = Timer(due: nat, session: Option<SessionId>)

  /** A ticket request, and whether a reconnect timer made it. */
  datatype Request = Request(session: SessionId, byTimer: bool)

  /** The ticket request whose answer the page still waits for: only the latest one's callbacks run. */
  datatype Pending = Refresh(session: SessionId) | Resume(session: SessionId)

  /**
   `timers` are the timers the browser still holds; the page's own reference names at most one of them.
   `seen` is history: every session the page has heard of.
   */
  datatype State = State(
    now: nat, session: Option<LocalSession>, status: Status, attempts: nat, timerRef: Option<TimerId>,
    stopping: bool, stopped: set<SessionId>, timers: map<TimerId, Timer>, nextTimer: TimerId,
    pending: Option<Pending>, seen: set<SessionId>, requests: seq<Request>, lostToasts: nat)

  datatype Event =
    | Exit
    | StatusChange(status: Status)
    | ClickStart
    | Started(session: SessionId, ticket: Ticket)
    | ClickStop
    | StopDone
    | StopFailed
    | ClickReconnect
    | TicketCame(ticket: Ticket)
    | TicketFailed
    | ResumeCheck(active: SessionId, forThisPage: bool)
    | TimerFires(timer: TimerId)
    | ChangePage
    | Advance(ms: nat)

  function Fresh(now: nat): State {
    State(now, None, Connecting, 0, None, false, {}, map[], 0, None, {}, [], 0)
  }

  /** `window.clearTimeout` on the page's own reference. */
  function ClearRef(s: State): State {
    if s.timerRef.Some? then s.(timers := s.timers - {s.timerRef.value}, timerRef := None) else s
  }

  function Ask(s: State, p: Pending, byTimer: bool): State {
    s.(requests := s.requests + [Request(p.session, byTimer)], pending := Some(p), seen := s.seen + {p.session})
  }

  /**
   The success callback of the pending request: a refresh gives the open session its ticket, a resume opens its
   session.
   */
  function OnTicket(s: State, ticket: Ticket): State {
    match s.pending
    case None => s
    case Some(Refresh(_)) =>
      s.(pending := None, session := if s.session.Some? then Some(s.session.value.(wsTicket := ticket)) else None)
    case Some(Resume(id)) => s.(pending := None, session := Some(LocalSession(id, ticket)))
  }

  /** The effect that resumes the session the server reports as active, if it is this challenge's. */
  function OnResumeCheck(s: State, active: SessionId, forThisPage: bool): State {
    if !forThisPage || s.session.Some? || s.pending.Some? || active in s.stopped then s
      else Ask(s, Resume(active), false)
  }

  function IdOf(session: Option<LocalSession>): Option<SessionId> {
    if session.Some? then Some(session.value.id) else None
  }

  /** `handleUnexpectedExit`. */
  function OnExit(s: State): State {
    if s.stopping then s
    else if s.attempts >= |RECONNECT_DELAYS_MS| then s.(attempts := 0, lostToasts := s.lostToasts + 1)
    else
      s.(attempts := s.attempts + 1, timerRef := Some(s.nextTimer), nextTimer := s.nextTimer + 1,
         timers := s.timers[s.nextTimer := Timer(s.now + RECONNECT_DELAYS_MS[s.attempts], IdOf(s.session))])
  }

  /** `handleTerminalStatusChange`. */
  function OnStatus(s: State, status: Status): State {
    if s.stopping && status.Disconnected? then s
    else s.(status := status, attempts := if status.Connected? then 0 else s.attempts)
  }

  /** `handleStop` up to its request. */
  function OnStop(s: State): State {
    if s.session.None? then s
    else ClearRef(s.(stopping := true, stopped := s.stopped + {s.session.value.id})).(attempts := 0)
  }

  /** The callback of a reconnect timer. */
  function OnTimer(s: State, id: TimerId): State {
    if id !in s.timers then s
    else
      var t := s.(timerRef := None, timers := s.timers - {id});
      if s.stopping || s.timers[id].session.None? then t else Ask(t, Refresh(s.timers[id].session.value), true)
  }

  /** The effect that resets the page when its slug changes. */
  function OnChangePage(s: State): State {
    ClearRef(s.(session := None, stopping := false, stopped := {}, attempts := 0))
  }

  ghost predicate Enabled(s: State, e: Event) {
    match e
    case TimerFires(id) => id in s.timers && s.timers[id].due <= s.now
    case Advance(ms) => forall id | id in s.timers :: s.now + ms <= s.timers[id].due
    case Started(id, _) => id !in s.seen
    case _ => true
  }

  function Next(s: State, e: Event): State {
    match e
    case Exit => OnExit(s)
    case StatusChange(status) => OnStatus(s, status)
    case ClickStart => s.(stopping := false)
    case Started(id, ticket) => s.(session := Some(LocalSession(id, ticket)), seen := s.seen + {id})
    case ClickStop => OnStop(s)
    case StopDone => s.(session := None)
    case StopFailed => s.(stopping := false)
    case ClickReconnect => if s.session.Some? then Ask(s, Refresh(s.session.value.id), false) else s
    case TicketCame(ticket) => OnTicket(s, ticket)
    case TicketFailed => s.(pending := None)
    case ResumeCheck(active, forThisPage) => OnResumeCheck(s, active, forThisPage)
    case TimerFires(id) => OnTimer(s, id)
    case ChangePage => OnChangePage(s)
    case Advance(ms) => s.(now := s.now + ms)
  }

  ghost predicate Run(s: State, es: seq<Event>)
    decreases |es|
  {
    es == [] || (Enabled(s, es[0]) && Run(Next(s, es[0]), es[1..]))
  }

  function After(s: State, es: seq<Event>): State
    decreases |es|
  {
    if es == [] then s else After(Next(s, es[0]), es[1..])
  }

  /** The run `es` leads from `s` to `t`. */
  ghost predicate Leads(s: State, es: seq<Event>, t: State) { Run(s, es) && After(s, es) == t }

  lemma {:induction false} Snoc(s: State, es: seq<Event>, t: State, e: Event)
    requires Leads(s, es, t) && Enabled(t, e)
    ensures Leads(s, es + [e], Next(t, e))
    decreases |es|
  {
    if es == [] {
      assert [] + [e] == [e] && [e][1..] == [];
    } else {
      assert (es + [e])[0] == es[0] && (es + [e])[1..] == es[1..] + [e];
      Snoc(Next(s, es[0]), es[1..], t, e);
    }
  }
}
