/** The reconnect budget, what a stop suppresses, and how long reconnecting can take. */
module Reconnect {
  import opened Options
  import opened PageModel

  // ---------------------------------------------------------------------------------------------
  // The budget
  // ---------------------------------------------------------------------------------------------

  /** A connect, the toast of an exhausted budget, a stop or a page change: what gives the budget back. */
  predicate Refills(s: State, e: Event) {
    || e == StatusChange(Connected)
    || (e.Exit? && !s.stopping && s.attempts >= |RECONNECT_DELAYS_MS|)
    || (e.ClickStop? && s.session.Some?)
    || e.ChangePage?
  }

  predicate NeverRefilled(s: State, es: seq<Event>)
    decreases |es|
  {
    es == [] || (!Refills(s, es[0]) && NeverRefilled(Next(s, es[0]), es[1..]))
  }

  /** The delay of the timer a step sets, if it sets one. */
  function DelaySet(s: State, e: Event): seq<nat> {
    var v := Next(s, e);
    if s.nextTimer in v.timers && v.nextTimer > s.nextTimer && v.timers[s.nextTimer].due >= s.now
    then [v.timers[s.nextTimer].due - s.now] else []
  }

  /** The delays of the timers a run schedules, in order. */
  function Delays(s: State, es: seq<Event>): seq<nat>
    decreases |es|
  {
    if es == [] then [] else DelaySet(s, es[0]) + Delays(Next(s, es[0]), es[1..])
  }

  function Sum(xs: seq<nat>): nat {
    if xs == [] then 0 else xs[0] + Sum(xs[1..])
  }

  ghost predicate TimersInv(s: State) {
    && s.attempts <= |RECONNECT_DELAYS_MS|
    && (forall id | id in s.timers :: id < s.nextTimer && s.now <= s.timers[id].due)
    && (s.timerRef.Some? ==> s.timerRef.value < s.nextTimer)
  }

  /** What the page waits for and holds was seen; an unanswered resume is of no session it holds or has stopped. */
  ghost predicate TicketInv(s: State) {
    && (s.session.Some? ==> s.session.value.id in s.seen)
    && (s.pending.Some? ==> s.pending.value.session in s.seen)
    && (s.pending.Some? && s.pending.value.Resume? ==>
          s.pending.value.session !in s.stopped && IdOf(s.session) != Some(s.pending.value.session))
    && (forall id | id in s.timers && s.timers[id].session.Some? :: s.timers[id].session.value in s.seen)
  }

  ghost predicate Inv(s: State) { TimersInv(s) && TicketInv(s) }

  lemma StepTimers(s: State, e: Event)
    requires TimersInv(s) && Enabled(s, e)
    ensures TimersInv(Next(s, e))
  {
  }

  lemma StepInv(s: State, e: Event)
    requires Inv(s) && Enabled(s, e)
    ensures Inv(Next(s, e))
  {
    StepTimers(s, e);
  }

  lemma {:induction false} RunInv(s: State, es: seq<Event>)
    requires Inv(s) && Run(s, es)
    ensures Inv(After(s, es))
    decreases |es|
  {
    if es != [] {
      StepInv(s, es[0]);
      RunInv(Next(s, es[0]), es[1..]);
    }
  }

  /**
   In a run with no connect, toast, stop or page change the page schedules exactly the next stretch of the
   five delays, so at most five reconnects in a row.
   */
  lemma {:induction false} SchedulesNextDelays(s: State, es: seq<Event>)
    requires Inv(s) && Run(s, es) && NeverRefilled(s, es)
    ensures s.attempts <= After(s, es).attempts <= |RECONNECT_DELAYS_MS|
    ensures Delays(s, es) == RECONNECT_DELAYS_MS[s.attempts..After(s, es).attempts]
    decreases |es|
  {
    if es != [] {
      var v := Next(s, es[0]);
      StepInv(s, es[0]);
      SchedulesNextDelays(v, es[1..]);
      StepSchedules(s, es[0]);
    }
  }

  lemma StepSchedules(s: State, e: Event)
    requires Inv(s) && Enabled(s, e) && !Refills(s, e)
    ensures
      var v := Next(s, e);
      || (s.attempts < |RECONNECT_DELAYS_MS| && v.attempts == s.attempts + 1
        && DelaySet(s, e) == [RECONNECT_DELAYS_MS[s.attempts]])
      || (v.attempts == s.attempts && DelaySet(s, e) == [])
  {
  }

  lemma AtMostFiveInARow(start: nat, es: seq<Event>, more: seq<Event>)
    requires Run(Fresh(start), es)
    requires Run(After(Fresh(start), es), more) && NeverRefilled(After(Fresh(start), es), more)
    ensures |Delays(After(Fresh(start), es), more)| <= 5
  {
    RunInv(Fresh(start), es);
    SchedulesNextDelays(After(Fresh(start), es), more);
  }

  /**
   A connect, a toast, a stop or a page change gives the whole budget back: from then on, until the next, the page
   schedules an initial stretch of the five delays.
   */
  lemma RefillGivesTheWholeBudget(start: nat, es: seq<Event>, e: Event, more: seq<Event>)
    requires Run(Fresh(start), es) && Enabled(After(Fresh(start), es), e) && Refills(After(Fresh(start), es), e)
    requires Run(Next(After(Fresh(start), es), e), more) && NeverRefilled(Next(After(Fresh(start), es), e), more)
    ensures
      var v := Next(After(Fresh(start), es), e);
      && After(v, more).attempts <= 5
      && Delays(v, more) == [1000, 2000, 4000, 8000, 8000][..After(v, more).attempts]
  {
    RunInv(Fresh(start), es);
    StepInv(After(Fresh(start), es), e);
    SchedulesNextDelays(Next(After(Fresh(start), es), e), more);
  }

  /** The connections lost while the page was not stopping. */
  function LostConnections(s: State, es: seq<Event>): nat
    decreases |es|
  {
    if es == [] then 0
    else (if es[0].Exit? && !s.stopping then 1 else 0) + LostConnections(Next(s, es[0]), es[1..])
  }

  /** Over any run each of them set one timer or showed one toast, and nothing else did either. */
  lemma {:induction false} EveryLossIsAnswered(s: State, es: seq<Event>)
    requires Inv(s) && Run(s, es)
    ensures |Delays(s, es)| + After(s, es).lostToasts == s.lostToasts + LostConnections(s, es)
    decreases |es|
  {
    if es != [] {
      StepInv(s, es[0]);
      EveryLossIsAnswered(Next(s, es[0]), es[1..]);
    }
  }

  /** What the page shows is the terminal's latest report that was not suppressed. */
  lemma {:induction false} ShowsTheLatestReport(s: State, es: seq<Event>)
    requires forall i | 0 <= i < |es| ::
      es[i].StatusChange? ==> After(s, es[..i]).stopping && es[i].status.Disconnected?
    ensures After(s, es).status == s.status
    decreases |es|
  {
    if es != [] {
      assert es[..0] == [];
      forall i | 0 <= i < |es| - 1 && es[1..][i].StatusChange?
        ensures After(Next(s, es[0]), es[1..][..i]).stopping && es[1..][i].status.Disconnected?
      {
        assert es[..i + 1][0] == es[0] && es[..i + 1][1..] == es[1..][..i];
        assert es[1..][i] == es[i + 1];
      }
      ShowsTheLatestReport(Next(s, es[0]), es[1..]);
    }
  }

  lemma ReportIsShown(s: State, status: Status, es: seq<Event>)
    requires !(s.stopping && status.Disconnected?)
    requires
      var v := Next(s, StatusChange(status));
      forall i | 0 <= i < |es| :: es[i].StatusChange? ==> After(v, es[..i]).stopping && es[i].status.Disconnected?
    ensures After(Next(s, StatusChange(status)), es).status == status
  {
    ShowsTheLatestReport(Next(s, StatusChange(status)), es);
  }

  // ---------------------------------------------------------------------------------------------
  // Stops
  // ---------------------------------------------------------------------------------------------

  predicate Lifts(e: Event) { e.StopFailed? || e.ClickStart? || e.ChangePage? }

  lemma {:induction false} AfterSnoc(s: State, es: seq<Event>, e: Event)
    ensures After(s, es + [e]) == Next(After(s, es), e)
    decreases |es|
  {
    if es == [] {
      assert [] + [e] == [e] && [e][1..] == [];
    } else {
      assert (es + [e])[0] == es[0] && (es + [e])[1..] == es[1..] + [e];
      AfterSnoc(Next(s, es[0]), es[1..], e);
    }
  }

  /** Stop number `k` of the run was clicked with a session, and nothing has lifted its suppression since. */
  ghost predicate StopHolds(s: State, es: seq<Event>, k: nat) {
    k < |es| && es[k].ClickStop? && After(s, es[..k]).session.Some? && forall j | k < j < |es| :: !Lifts(es[j])
  }

  /**
   The page is stopping exactly when some stop was clicked and no stop has failed, nothing was started and the page
   not changed since.
   */
  lemma {:induction false} StoppingIff(start: nat, es: seq<Event>)
    ensures After(Fresh(start), es).stopping <==> exists k: nat :: StopHolds(Fresh(start), es, k)
    decreases |es|
  {
    var s := Fresh(start);
    if es != [] {
      var n := |es| - 1;
      var e := es[n];
      assert es == es[..n] + [e];
      AfterSnoc(s, es[..n], e);
      StoppingIff(start, es[..n]);
      assert forall k: nat | k <= n :: es[..n][..k] == es[..k];
      if e.ClickStop? && After(s, es[..n]).session.Some? {
        assert StopHolds(s, es, n);
      } else {
        assert forall k: nat :: StopHolds(s, es, k) ==> StopHolds(s, es[..n], k) && !Lifts(e);
        forall k: nat | StopHolds(s, es[..n], k) && !Lifts(e)
          ensures StopHolds(s, es, k)
        {
          assert forall j | k < j < |es| :: j < n ==> es[j] == es[..n][j];
        }
      }
    }
  }

  ghost predicate NeverLifted(es: seq<Event>) { forall i | 0 <= i < |es| :: !Lifts(es[i]) }

  function TimerRequests(rs: seq<Request>): nat {
    if rs == [] then 0 else TimerRequests(rs[..|rs| - 1]) + if rs[|rs| - 1].byTimer then 1 else 0
  }

  lemma StepUnderStop(s: State, e: Event)
    requires s.stopping && !Lifts(e)
    ensures Next(s, e).stopping && TimerRequests(Next(s, e).requests) == TimerRequests(s.requests)
    ensures forall id | id in Next(s, e).timers :: id in s.timers
    ensures Next(s, e).lostToasts == s.lostToasts && (Next(s, e).status.Disconnected? ==> s.status.Disconnected?)
  {
    var v := Next(s, e);
    if v.requests != s.requests {
      assert !v.requests[|s.requests|].byTimer;
      assert v.requests[..|s.requests|] == s.requests;
    }
  }

  /**
   From a stop on, until it is lifted, no timer asks for a ticket and none is set, no connection is reported
   lost and none shown as disconnected.
   */
  lemma {:induction false} NoTimerRequestsAfterStop(s: State, es: seq<Event>)
    requires s.stopping && NeverLifted(es)
    ensures TimerRequests(After(s, es).requests) == TimerRequests(s.requests) && After(s, es).stopping
    ensures forall id | id in After(s, es).timers :: id in s.timers
    ensures After(s, es).lostToasts == s.lostToasts && (After(s, es).status.Disconnected? ==> s.status.Disconnected?)
    decreases |es|
  {
    if es != [] {
      StepUnderStop(s, es[0]);
      assert NeverLifted(es[1..]) by {
        assert forall i | 0 <= i < |es| - 1 :: es[1..][i] == es[i + 1];
      }
      NoTimerRequestsAfterStop(Next(s, es[0]), es[1..]);
    }
  }

  lemma {:induction false} RunNotResumed(s: State, es: seq<Event>, id: SessionId)
    requires Inv(s) && Run(s, es) && (forall i | 0 <= i < |es| :: !es[i].ChangePage?)
    requires id in s.stopped && id in s.seen && IdOf(s.session) != Some(id)
    ensures IdOf(After(s, es).session) != Some(id)
    decreases |es|
  {
    if es != [] {
      StepInv(s, es[0]);
      assert forall i | 0 <= i < |es| - 1 :: es[1..][i] == es[i + 1];
      RunNotResumed(Next(s, es[0]), es[1..], id);
    }
  }

  /**
   Once a stop clicked on a page has succeeded, its session is never the page's session again, over any run
   without a page change: no report of the server and no request still unanswered brings it back.
   */
  lemma StoppedSessionIsNotResumed(start: nat, es: seq<Event>, between: seq<Event>, more: seq<Event>)
    requires Run(Fresh(start), es) && After(Fresh(start), es).session.Some?
    requires Run(Next(After(Fresh(start), es), ClickStop), between)
      && (forall i | 0 <= i < |between| :: !between[i].ChangePage?)
    requires
      var stopped := Next(After(Next(After(Fresh(start), es), ClickStop), between), StopDone);
      Run(stopped, more) && forall i | 0 <= i < |more| :: !more[i].ChangePage?
    ensures
      var id := After(Fresh(start), es).session.value.id;
      var stopped := Next(After(Next(After(Fresh(start), es), ClickStop), between), StopDone);
      IdOf(After(stopped, more).session) != Some(id)
  {
    var s := After(Fresh(start), es);
    var id := s.session.value.id;
    RunInv(Fresh(start), es);
    StepInv(s, ClickStop);
    var clicked := Next(s, ClickStop);
    RunInv(clicked, between);
    RunKeepsStopped(clicked, between, id);
    var v := After(clicked, between);
    StepInv(v, StopDone);
    RunNotResumed(Next(v, StopDone), more, id);
  }

  lemma {:induction false} RunKeepsStopped(s: State, es: seq<Event>, id: SessionId)
    requires id in s.stopped && id in s.seen && forall i | 0 <= i < |es| :: !es[i].ChangePage?
    ensures id in After(s, es).stopped && id in After(s, es).seen
    decreases |es|
  {
    if es != [] {
      assert !es[0].ChangePage? && forall i | 0 <= i < |es| - 1 :: es[1..][i] == es[i + 1];
      RunKeepsStopped(Next(s, es[0]), es[1..], id);
    }
  }

  // ---------------------------------------------------------------------------------------------
  // What is asked for is used
  // ---------------------------------------------------------------------------------------------

  /** The page waits for this answer throughout, having asked for nothing since. */
  ghost predicate StillWaits(s: State, es: seq<Event>, p: Pending)
    decreases |es|
  {
    s.pending == Some(p) && (es != [] ==> StillWaits(Next(s, es[0]), es[1..], p))
  }

  lemma {:induction false} RunWaits(s: State, es: seq<Event>, p: Pending)
    requires StillWaits(s, es, p)
    ensures After(s, es).pending == Some(p)
    decreases |es|
  {
    if es != [] { RunWaits(Next(s, es[0]), es[1..], p); }
  }

  /**
   A reported session is asked for exactly when it is this page's, the page has none, waits for no answer and did
   not stop it; and over any run in which the page goes on waiting for it, the answer opens it.
   */
  lemma ReportedSessionIsResumed(s: State, active: SessionId, forThisPage: bool, es: seq<Event>, ticket: Ticket)
    ensures
      var v := Next(s, ResumeCheck(active, forThisPage));
      if forThisPage && s.session.None? && s.pending.None? && active !in s.stopped
      then
        && v.requests == s.requests + [Request(active, false)] && v.pending == Some(Resume(active))
        && (StillWaits(v, es, Resume(active)) ==>
              Next(After(v, es), TicketCame(ticket)).session == Some(LocalSession(active, ticket)))
      else v == s
  {
    var v := Next(s, ResumeCheck(active, forThisPage));
    if StillWaits(v, es, Resume(active)) { RunWaits(v, es, Resume(active)); }
  }

  /**
   A lost connection with budget left leaves a timer; when it fires while the page is not stopping, a ticket for that
   session is asked for, and over any run in which the page goes on waiting for it, the answer is the open session's
   new ticket.
   */
  lemma LostConnectionGetsANewTicket(s: State, es: seq<Event>, more: seq<Event>, ticket: Ticket)
    requires Inv(s) && s.session.Some? && !s.stopping && s.attempts < |RECONNECT_DELAYS_MS|
    requires Run(Next(s, Exit), es) && s.nextTimer in After(Next(s, Exit), es).timers
    requires !After(Next(s, Exit), es).stopping
    ensures
      var id := s.session.value.id;
      var fired := Next(After(Next(s, Exit), es), TimerFires(s.nextTimer));
      && fired.requests == After(Next(s, Exit), es).requests + [Request(id, true)]
      && fired.pending == Some(Refresh(id)) && s.nextTimer !in fired.timers
      && (StillWaits(fired, more, Refresh(id)) ==>
            var v := After(fired, more);
            Next(v, TicketCame(ticket)).session
            == if v.session.Some? then Some(LocalSession(v.session.value.id, ticket)) else None)
  {
    var id := s.session.value.id;
    StepInv(s, Exit);
    RunKeepsTimer(Next(s, Exit), es, s.nextTimer);
    var fired := Next(After(Next(s, Exit), es), TimerFires(s.nextTimer));
    if StillWaits(fired, more, Refresh(id)) { RunWaits(fired, more, Refresh(id)); }
  }

  lemma {:induction false} RunKeepsTimer(s: State, es: seq<Event>, id: TimerId)
    requires Inv(s) && Run(s, es) && id < s.nextTimer && id in After(s, es).timers
    ensures id in s.timers && After(s, es).timers[id] == s.timers[id]
    decreases |es|
  {
    if es != [] {
      StepInv(s, es[0]);
      RunKeepsTimer(Next(s, es[0]), es[1..], id);
    }
  }

  /** A failed request can be repeated at once: the next report of a session that was not stopped asks for it. */
  lemma FailureAllowsTheNextRequest(s: State, active: SessionId, ticket: Ticket)
    requires s.session.None? && active !in s.stopped
    ensures
      var v := Next(Next(s, TicketFailed), ResumeCheck(active, true));
      && v.requests == s.requests + [Request(active, false)]
      && Next(v, TicketCame(ticket)).session == Some(LocalSession(active, ticket))
  {
    ReportedSessionIsResumed(Next(s, TicketFailed), active, true, [], ticket);
  }

  /**
   A page change forgets the session and every stop, so a session stopped before is resumed when it is reported
   again; but it does not forget a request unanswered, whose answer opens the other page's session.
   */
  lemma PageChangeForgetsAllButTheRequest(s: State, active: SessionId, ticket: Ticket)
    ensures
      var v := Next(s, ChangePage);
      && v.session.None? && !v.stopping
      && (s.pending.None? ==>
            Next(Next(v, ResumeCheck(active, true)), TicketCame(ticket)).session == Some(LocalSession(active, ticket)))
      && (s.pending.Some? ==>
            Next(v, TicketCame(ticket)).session
            == if s.pending.value.Resume? then Some(LocalSession(s.pending.value.session, ticket)) else None)
  {
    ReportedSessionIsResumed(Next(s, ChangePage), active, true, [], ticket);
  }

  // ---------------------------------------------------------------------------------------------
  // Timers left behind
  // ---------------------------------------------------------------------------------------------

  /** Whichever timer fires, the page forgets the one it remembers: a page change then leaves every other pending. */
  lemma FiredTimerForgetsTheOthers(s: State, fired: TimerId, other: TimerId)
    requires fired in s.timers && other in s.timers && other != fired
    ensures
      var v := Next(Next(s, TimerFires(fired)), ChangePage);
      other in v.timers && v.timers[other] == s.timers[other]
  {
  }

  /** The page remembers every pending timer. */
  ghost predicate OneTimer(s: State) { s.timers.Keys <= if s.timerRef.Some? then {s.timerRef.value} else {} }

  /** What a page change leaves behind, in terms of the page's reference; a stop leaves the same. */
  lemma NoStrayTimerIff(s: State)
    ensures Next(s, ChangePage).timers == map[] <==> OneTimer(s)
    ensures s.session.Some? ==> Next(s, ClickStop).timers == Next(s, ChangePage).timers
  {
    if s.timerRef.Some? {
      var id := s.timerRef.value;
      assert (s.timers - {id}).Keys == s.timers.Keys - {id};
      assert s.timers - {id} == map[] <==> s.timers.Keys - {id} == {};
    } else {
      assert s.timers == map[] <==> s.timers.Keys == {};
    }
  }

  /** This step sets a reconnect timer while one is pending. */
  predicate SchedulesOnTop(s: State, e: Event) {
    e.Exit? && !s.stopping && s.attempts < |RECONNECT_DELAYS_MS| && s.timers != map[]
  }

  lemma OneTimerKeptIff(s: State, e: Event)
    requires Inv(s) && Enabled(s, e) && OneTimer(s)
    ensures OneTimer(Next(s, e)) <==> !SchedulesOnTop(s, e)
  {
    var v := Next(s, e);
    if SchedulesOnTop(s, e) {
      var id :| id in s.timers;
      assert id in v.timers.Keys && v.timerRef == Some(s.nextTimer);
    }
  }

  predicate NeverOnTop(s: State, es: seq<Event>)
    decreases |es|
  {
    es == [] || (!SchedulesOnTop(s, es[0]) && NeverOnTop(Next(s, es[0]), es[1..]))
  }

  /** A page change leaves no reconnect timer pending, nor does a stop, which needs a session. */
  predicate Clearable(s: State) {
    Next(s, ChangePage).timers == map[] && (s.session.Some? ==> Next(s, ClickStop).timers == map[])
  }

  /** So it is wherever this run is stopped short. */
  predicate AlwaysClearable(s: State, es: seq<Event>)
    decreases |es|
  {
    Clearable(s) && (es != [] ==> AlwaysClearable(Next(s, es[0]), es[1..]))
  }

  lemma {:induction false} RunClearableIff(s: State, es: seq<Event>)
    requires Inv(s) && Run(s, es) && OneTimer(s)
    ensures AlwaysClearable(s, es) <==> NeverOnTop(s, es)
    decreases |es|
  {
    NoStrayTimerIff(s);
    if es != [] {
      var v := Next(s, es[0]);
      StepInv(s, es[0]);
      OneTimerKeptIff(s, es[0]);
      NoStrayTimerIff(v);
      if OneTimer(v) { RunClearableIff(v, es[1..]); }
    }
  }

  /**
   The exact guard: over any run from a fresh page, a page change or a stop at any point leaves no reconnect
   timer behind if and only if no lost connection sets a timer while one is pending.
   */
  lemma NoStrayTimerEverIff(start: nat, es: seq<Event>)
    requires Run(Fresh(start), es)
    ensures AlwaysClearable(Fresh(start), es) <==> NeverOnTop(Fresh(start), es)
  {
    RunClearableIff(Fresh(start), es);
  }

  /** Two connections lost in a row, the second after a reconnect by hand: two timers pending. */
  function TwoTimers(now: nat): State {
    State(now, Some(LocalSession(7, 1)), Connecting, 2, Some(1), false, {},
          map[0 := Timer(now + 1000, Some(7)), 1 := Timer(now + 2000, Some(7))], 2, None, {7}, [Request(7, false)], 0)
  }

  lemma TwoTimersHappen(now: nat) returns (es: seq<Event>)
    ensures Leads(Fresh(now), es, TwoTimers(now))
  {
    var s1 := Fresh(now).(session := Some(LocalSession(7, 0)), seen := {7});
    var s2 := s1.(attempts := 1, timerRef := Some(0), nextTimer := 1, timers := map[0 := Timer(now + 1000, Some(7))]);
    var s3 := s2.(requests := [Request(7, false)], pending := Some(Refresh(7)));
    var s4 := s3.(session := Some(LocalSession(7, 1)), pending := None);
    Snoc(Fresh(now), [], Fresh(now), Started(7, 0));
    assert s2 == Next(s1, Exit);
    Snoc(Fresh(now), [] + [Started(7, 0)], s1, Exit);
    Snoc(Fresh(now), [] + [Started(7, 0)] + [Exit], s2, ClickReconnect);
    Snoc(Fresh(now), [] + [Started(7, 0)] + [Exit] + [ClickReconnect], s3, TicketCame(1));
    es := [] + [Started(7, 0)] + [Exit] + [ClickReconnect] + [TicketCame(1)];
    assert TwoTimers(now) == Next(s4, Exit);
    Snoc(Fresh(now), es, s4, Exit);
    es := es + [Exit];
  }

  /** Then one outlives the page change: it asks for a ticket of the session left behind. */
  lemma StrayTimerOutlivesThePage(now: nat) returns (es: seq<Event>, left: State)
    ensures Leads(Fresh(now), es, TwoTimers(now)) && left.session.None?
      && left.requests == [Request(7, false), Request(7, true)]
    ensures Leads(TwoTimers(now), [ChangePage, Advance(1000), TimerFires(0)], left)
  {
    es := TwoTimersHappen(now);
    var s := TwoTimers(now);
    var s1 := s.(session := None, attempts := 0, timerRef := None, timers := map[0 := Timer(now + 1000, Some(7))]);
    assert s1 == Next(s, ChangePage);
    var s2 := s1.(now := now + 1000);
    left := s2.(timers := map[], requests := [Request(7, false), Request(7, true)], pending := Some(Refresh(7)));
    assert left == Next(s2, TimerFires(0));
    Snoc(s, [], s, ChangePage);
    Snoc(s, [] + [ChangePage], s1, Advance(1000));
    Snoc(s, [] + [ChangePage] + [Advance(1000)], s2, TimerFires(0));
    assert [] + [ChangePage] + [Advance(1000)] + [TimerFires(0)] == [ChangePage, Advance(1000), TimerFires(0)];
  }

  // ---------------------------------------------------------------------------------------------
  // How long it takes
  // ---------------------------------------------------------------------------------------------

  /** The time that passes with no reconnect timer pending: requests, connects and their failures. */
  function Latency(s: State, es: seq<Event>): nat
    decreases |es|
  {
    if es == [] then 0
    else (if es[0].Advance? && s.timers == map[] then es[0].ms else 0) + Latency(Next(s, es[0]), es[1..])
  }

  ghost predicate DueWithin(s: State, ms: nat) { forall id | id in s.timers :: s.timers[id].due <= s.now + ms }

  /** Time passes either as latency or as a scheduled delay. */
  lemma {:induction false} WaitingIsScheduled(s: State, es: seq<Event>, left: nat)
    requires Inv(s) && Run(s, es) && DueWithin(s, left)
    ensures After(s, es).now <= s.now + left + Sum(Delays(s, es)) + Latency(s, es)
    decreases |es|
  {
    if es != [] {
      var v := Next(s, es[0]);
      StepInv(s, es[0]);
      var delay := Delay(s, es[0]);
      if es[0].Advance? && s.timers != map[] {
        var id :| id in s.timers;
        assert s.now + es[0].ms <= s.timers[id].due <= s.now + left;
        WaitingIsScheduled(v, es[1..], left - es[0].ms);
      } else {
        StepDueWithin(s, es[0], left);
        WaitingIsScheduled(v, es[1..], left + delay);
      }
      DelaysSum(s, es);
    }
  }

  /** The same as a number of milliseconds, none being 0. */
  function Delay(s: State, e: Event): nat {
    if e.Exit? && !s.stopping && s.attempts < |RECONNECT_DELAYS_MS| then RECONNECT_DELAYS_MS[s.attempts] else 0
  }

  lemma StepDueWithin(s: State, e: Event, left: nat)
    requires Inv(s) && Enabled(s, e) && DueWithin(s, left) && (e.Advance? ==> s.timers == map[])
    ensures DueWithin(Next(s, e), left + Delay(s, e))
  {
  }

  lemma DelaysSum(s: State, es: seq<Event>)
    requires Inv(s) && es != [] && Enabled(s, es[0])
    ensures Sum(Delays(s, es)) == Delay(s, es[0]) + Sum(Delays(Next(s, es[0]), es[1..]))
  {
    var rest := Delays(Next(s, es[0]), es[1..]);
    if Delay(s, es[0]) > 0 {
      assert Delays(s, es)[1..] == rest;
    } else {
      assert Delays(s, es) == rest;
    }
  }

  lemma DelaysTotal(i: nat, j: nat)
    requires i <= j <= |RECONNECT_DELAYS_MS|
    ensures Sum(RECONNECT_DELAYS_MS[i..j]) <= Sum(RECONNECT_DELAYS_MS) == 23000
  {
    var d := RECONNECT_DELAYS_MS;
    assert d[1..] == [2000, 4000, 8000, 8000] && d[1..][1..] == [4000, 8000, 8000] && d[1..][1..][1..] == [8000, 8000];
    assert d[1..][1..][1..][1..] == [8000] && d[1..][1..][1..][1..][1..] == [];
    Slice(i, j);
  }

  lemma {:induction false} Slice(i: nat, j: nat)
    requires i <= j <= |RECONNECT_DELAYS_MS|
    ensures Sum(RECONNECT_DELAYS_MS[i..j]) + Sum(RECONNECT_DELAYS_MS[j..]) == Sum(RECONNECT_DELAYS_MS[i..])
    ensures Sum(RECONNECT_DELAYS_MS[i..j]) <= Sum(RECONNECT_DELAYS_MS)
    decreases j - i
  {
    var d := RECONNECT_DELAYS_MS;
    if i < j {
      Slice(i + 1, j);
      assert d[i..j][0] == d[i] && d[i..j][1..] == d[i + 1..j];
      assert d[i..][0] == d[i] && d[i..][1..] == d[i + 1..];
    }
    Suffix(i);
  }

  lemma {:induction false} Suffix(i: nat)
    requires i <= |RECONNECT_DELAYS_MS|
    ensures Sum(RECONNECT_DELAYS_MS[i..]) <= Sum(RECONNECT_DELAYS_MS)
    decreases i
  {
    var d := RECONNECT_DELAYS_MS;
    if i > 0 {
      Suffix(i - 1);
      assert d[i - 1..][1..] == d[i..];
    } else {
      assert d[0..] == d;
    }
  }

  /**
   From a lost connection with no timer pending, for as long as nothing gives the budget back: all time beyond
   23 s is spent on ticket requests and connects.
   */
  lemma ReconnectsWithin23Seconds(s: State, es: seq<Event>)
    requires Inv(s) && s.timers == map[] && Run(s, es) && NeverRefilled(s, es)
    ensures After(s, es).now <= s.now + 23000 + Latency(s, es)
  {
    SchedulesNextDelays(s, es);
    DelaysTotal(s.attempts, After(s, es).attempts);
    WaitingIsScheduled(s, es, 0);
  }

  lemma {:induction false} DelaysJoin(s: State, a: seq<Event>, b: seq<Event>)
    ensures Delays(s, a + b) == Delays(s, a) + Delays(After(s, a), b)
    decreases |a|
  {
    if a == [] {
      assert a + b == b;
    } else {
      assert (a + b)[0] == a[0] && (a + b)[1..] == a[1..] + b;
      DelaysJoin(Next(s, a[0]), a[1..], b);
    }
  }

  lemma {:induction false} NoDelayWithoutExit(s: State, es: seq<Event>)
    requires forall i | 0 <= i < |es| :: !es[i].Exit?
    ensures Delays(s, es) == []
    decreases |es|
  {
    if es != [] {
      assert DelaySet(s, es[0]) == [];
      assert !es[0].Exit? && forall i | 0 <= i < |es| - 1 :: es[1..][i] == es[i + 1];
      NoDelayWithoutExit(Next(s, es[0]), es[1..]);
    }
  }

  lemma {:induction false} RunSplits(s: State, a: seq<Event>, b: seq<Event>)
    requires Run(s, a + b)
    ensures Run(s, a) && Run(After(s, a), b) && After(s, a + b) == After(After(s, a), b)
    decreases |a|
  {
    if a == [] {
      assert a + b == b;
    } else {
      assert (a + b)[0] == a[0] && (a + b)[1..] == a[1..] + b;
      RunSplits(Next(s, a[0]), a[1..], b);
    }
  }

  /**
   And beyond the connect that gives the budget back, for as long as that connection is not lost: from a lost
   connection with no timer pending, all time beyond 23 s is spent on requests, connects, and what the server
   does after the connect.
   */
  lemma ConnectedWithin23Seconds(s: State, a: seq<Event>, b: seq<Event>)
    requires Inv(s) && s.timers == map[] && Run(s, a + b) && NeverRefilled(s, a)
    requires forall i | 0 <= i < |b| :: !b[i].Exit?
    ensures After(s, a + b).now <= s.now + 23000 + Latency(s, a + b)
  {
    RunSplits(s, a, b);
    SchedulesNextDelays(s, a);
    DelaysTotal(s.attempts, After(s, a).attempts);
    DelaysJoin(s, a, b);
    NoDelayWithoutExit(After(s, a), b);
    assert Delays(s, a) + [] == Delays(s, a);
    WaitingIsScheduled(s, a + b, 0);
  }
}
