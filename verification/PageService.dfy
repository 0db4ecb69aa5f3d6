/** The page with its refs and state, changed in place by its handlers. Every method is one step of `PageModel`. */
module PageService {
  import opened Options
  import opened PageModel

  class ChallengeDetailPage {
    var now: nat
    var session: Option<LocalSession>
    var terminalStatus: Status
    var reconnectAttempts: nat
    var reconnectTimer: Option<TimerId>
    var stopping: bool
    var stoppedSessionIds: set<SessionId>
    var timers: map<TimerId, Timer>
    var nextTimer: TimerId
    var pendingTicket: Option<Pending>
    ghost var seen: set<SessionId>
    var requests: seq<Request>
    var lostToasts: nat

    constructor (now: nat)
      ensures State() == Fresh(now)
    {
      this.now, session, terminalStatus := now, None, Connecting;
      reconnectAttempts, reconnectTimer, stopping, stoppedSessionIds := 0, None, false, {};
      timers, nextTimer, pendingTicket, seen, requests, lostToasts := map[], 0, None, {}, [], 0;
    }

    ghost function State(): State
      reads this
    {
      PageModel.State(now, session, terminalStatus, reconnectAttempts, reconnectTimer, stopping, stoppedSessionIds,
                      timers, nextTimer, pendingTicket, seen, requests, lostToasts)
    }

    method ClearReconnectTimer()
      modifies this`timers, this`reconnectTimer
      ensures State() == ClearRef(old(State()))
    {
      if reconnectTimer.Some? {
        timers := timers - {reconnectTimer.value};
        reconnectTimer := None;
      }
    }

    method SetTimeout(ms: nat, sessionId: Option<SessionId>) returns (id: TimerId)
      modifies this`timers, this`nextTimer
      ensures id == old(nextTimer) && nextTimer == id + 1 && timers == old(timers)[id := Timer(now + ms, sessionId)]
    {
      id := nextTimer;
      timers := timers[id := Timer(now + ms, sessionId)];
      nextTimer := id + 1;
    }

    /** `refreshTicketMutation.mutate`. */
    method Mutate(p: Pending, byTimer: bool)
      modifies this`requests, this`pendingTicket, this`seen
      ensures State() == Ask(old(State()), p, byTimer)
    {
      requests := requests + [Request(p.session, byTimer)];
      pendingTicket := Some(p);
      seen := seen + {p.session};
    }

    method HandleUnexpectedExit()
      modifies this
      ensures State() == Next(old(State()), Exit)
    {
      if stopping { return; }
      if reconnectAttempts >= |RECONNECT_DELAYS_MS| {
        reconnectAttempts := 0;
        lostToasts := lostToasts + 1;
        return;
      }
      var attempt := reconnectAttempts;
      reconnectAttempts := reconnectAttempts + 1;
      var sessionId := if session.Some? then Some(session.value.id) else None;
      var id := SetTimeout(RECONNECT_DELAYS_MS[attempt], sessionId);
      reconnectTimer := Some(id);
    }

    method HandleTerminalStatusChange(status: Status)
      modifies this
      ensures State() == Next(old(State()), StatusChange(status))
    {
      if stopping && status.Disconnected? { return; }
      if status.Connected? { reconnectAttempts := 0; }
      terminalStatus := status;
    }

    /** The callback of a pending timer. */
    method OnReconnectTimer(id: TimerId)
      requires id in timers
      modifies this
      ensures State() == Next(old(State()), TimerFires(id))
    {
      var sessionId := timers[id].session;
      timers := timers - {id};
      reconnectTimer := None;
      if stopping || sessionId.None? { return; }
      Mutate(Refresh(sessionId.value), true);
    }

    method HandleStop()
      modifies this
      ensures State() == Next(old(State()), ClickStop)
    {
      if session.None? { return; }
      stopping := true;
      stoppedSessionIds := stoppedSessionIds + {session.value.id};
      ClearReconnectTimer();
      reconnectAttempts := 0;
    }

    method OnStopSettled(ok: bool)
      modifies this
      ensures State() == Next(old(State()), if ok then StopDone else StopFailed)
    {
      if ok { session := None; } else { stopping := false; }
    }

    method HandleStart()
      modifies this
      ensures State() == Next(old(State()), ClickStart)
    {
      stopping := false;
    }

    method OnStarted(id: SessionId, ticket: Ticket)
      modifies this
      ensures State() == Next(old(State()), Started(id, ticket))
    {
      session := Some(LocalSession(id, ticket));
      seen := seen + {id};
    }

    method HandleReconnect()
      modifies this
      ensures State() == Next(old(State()), ClickReconnect)
    {
      if session.None? { return; }
      Mutate(Refresh(session.value.id), false);
    }

    method OnTicketSettled(ticket: Option<Ticket>)
      modifies this
      ensures State() == Next(old(State()), if ticket.Some? then TicketCame(ticket.value) else TicketFailed)
    {
      var p := pendingTicket;
      pendingTicket := None;
      if ticket.None? || p.None? { return; }
      if p.value.Resume? {
        session := Some(LocalSession(p.value.session, ticket.value));
      } else if session.Some? {
        session := Some(session.value.(wsTicket := ticket.value));
      }
    }

    /**
     The effect that resumes the active session the server reports, unless it is another challenge's or this page
     stopped it.
     */
    method ResumeEffect(active: SessionId, forThisPage: bool)
      modifies this
      ensures State() == Next(old(State()), ResumeCheck(active, forThisPage))
    {
      if !forThisPage { return; }
      if session.Some? || pendingTicket.Some? { return; }
      if active in stoppedSessionIds { return; }
      Mutate(Resume(active), false);
    }

    /** The effect that runs when the slug changes. */
    method OnSlugChange()
      modifies this
      ensures State() == Next(old(State()), ChangePage)
    {
      session := None;
      stopping := false;
      stoppedSessionIds := {};
      reconnectAttempts := 0;
      ClearReconnectTimer();
    }
  }
}
