/** How long an unattended shell is kept: what its pending timers, its own and those left behind, decide. */
module TerminalGrace {
  import opened Options
  import opened TerminalModel
  import opened TerminalInvariants
  import opened TerminalTheorems
  import opened TerminalLiveness

  // ---------------------------------------------------------------------------------------------
  // Survival over undisturbed runs
  // ---------------------------------------------------------------------------------------------

  /** In this run a grace timer of the container fires while its registered shell is unattended. */
  ghost predicate FiresUnattended(w: World, es: seq<Event>, c: Container)
    decreases |es|
  {
    es != [] &&
    (|| (es[0].Fire? && es[0].timer in w.timers && w.timers[es[0].timer].container == c
         && Registered(w, c).Some? && Registered(w, c).value.sockets == {})
     || FiresUnattended(Next(w, es[0]), es[1..], c))
  }

  lemma {:induction false} RunGone(w: World, es: seq<Event>, c: Container)
    requires Run(w, es) && Undisturbed(w, es, c) && c !in w.registry
    ensures c !in After(w, es).registry
    decreases |es|
  {
    if es != [] {
      RunGone(Next(w, es[0]), es[1..], c);
    }
  }

  lemma StepSurvival(w: World, start: nat, es: seq<Event>, e: Event, c: Container)
    requires Reached(w, start, es) && Enabled(w, e) && !Disturbs(w, e, c) && Registered(w, c).Some?
    ensures
      var fired := e.Fire? && w.timers[e.timer].container == c && Registered(w, c).value.sockets == {};
      && (fired ==> c !in Next(w, e).registry)
      && (!fired ==> Registered(Next(w, e), c).Some? && Next(w, e).registry[c] == w.registry[c])
  {
    ReachedInv(w, start, es);
    StepEntry(w, e, c);
  }

  lemma {:induction false} RunSurvival(w: World, start: nat, done: seq<Event>, es: seq<Event>, c: Container)
    requires Reached(w, start, done) && Run(w, es) && Undisturbed(w, es, c) && Registered(w, c).Some?
    ensures Lookup(After(w, es).registry, c) == if FiresUnattended(w, es, c) then None else Some(w.registry[c])
    decreases |es|
  {
    if es != [] {
      StepSurvival(w, start, done, es[0], c);
      Snoc(Boot(start), done, w, es[0]);
      var v := Next(w, es[0]);
      if c in v.registry { RunSurvival(v, start, done + [es[0]], es[1..], c); } else { RunGone(v, es[1..], c); }
    }
  }

  /**
   Over a run in which no stream of the container ends, nothing destroys it and no other shell is started
   for it, its registered shell is still registered at the end if and only if no grace timer of the container,
   its own or one left behind, fires while it is unattended; otherwise nothing is.
   */
  lemma SurvivesIffNoTimerFiresUnattended(w: World, start: nat, es: seq<Event>, run: seq<Event>, c: Container)
    requires Reached(w, start, es) && c in w.registry && Run(w, run) && Undisturbed(w, run, c)
    ensures Lookup(After(w, run).registry, c) == if FiresUnattended(w, run, c) then None else Some(w.registry[c])
  {
    ReachedInv(w, start, es);
    RunSurvival(w, start, es, run, c);
  }

  // ---------------------------------------------------------------------------------------------
  // Before the first timer of the container is due
  // ---------------------------------------------------------------------------------------------

  ghost predicate IsTimerOf(w: World, id: TimerId, c: Container) { id in w.timers && w.timers[id].container == c }

  /** Every pending timer of the container is due after `t`. */
  ghost predicate AllDueAfter(w: World, c: Container, t: nat) {
    forall id | IsTimerOf(w, id, c) :: t < w.timers[id].due
  }

  ghost predicate TimersGrow(w: World, v: World) {
    forall id | id in v.timers ::
      (id in w.timers && v.timers[id] == w.timers[id]) || v.timers[id].due == w.now + RECONNECT_GRACE_MS
  }

  /** Timers keep their due time, and new ones have the whole grace time to go. */
  lemma StepTimers(w: World, e: Event)
    ensures TimersGrow(w, Next(w, e))
  {
  }

  lemma StepNow(w: World, e: Event)
    ensures w.now <= Next(w, e).now
  {
  }

  lemma {:induction false} RunForward(w: World, es: seq<Event>)
    requires Run(w, es)
    ensures w.now <= After(w, es).now
    decreases |es|
  {
    if es != [] {
      StepNow(w, es[0]);
      RunForward(Next(w, es[0]), es[1..]);
    }
  }

  lemma {:induction false} NoneFires(w: World, es: seq<Event>, c: Container)
    requires Run(w, es) && AllDueAfter(w, c, After(w, es).now) && After(w, es).now < w.now + RECONNECT_GRACE_MS
    ensures !FiresUnattended(w, es, c)
    decreases |es|
  {
    if es != [] {
      RunForward(w, es);
      StepNow(w, es[0]);
      StepTimers(w, es[0]);
      assert !(es[0].Fire? && IsTimerOf(w, es[0].timer, c));
      NoneFires(Next(w, es[0]), es[1..], c);
    }
  }

  // ---------------------------------------------------------------------------------------------
  // After it
  // ---------------------------------------------------------------------------------------------

  ghost predicate NoAttach(es: seq<Event>, c: Container) {
    forall i | 0 <= i < |es| :: es[i].AttachStart? ==> es[i].container != c
  }

  ghost predicate Unattended(w: World, c: Container) { Registered(w, c).Some? && Registered(w, c).value.sockets == {} }

  lemma OuterStaysAlone(w: World, e: Event, c: Container)
    requires RegistryInv(w) && Enabled(w, e) && Outer(e) && !e.Fire? && !Disturbs(w, e, c) && Unattended(w, c)
    requires e.AttachStart? ==> e.container != c
    requires c in Next(w, e).registry && Next(w, e).registry[c] == w.registry[c]
    ensures Unattended(Next(w, e), c)
  {
    var sh := w.registry[c];
    assert w.shells[sh].container == c;
    if e.Close? && e.shell != sh && w.shells[e.shell].container != c {
      assert Next(w, e).shells[sh] == w.shells[sh];
    }
  }

  /** Only attaching to the container, ending its shell or firing takes one of its timers away. */
  lemma OuterKeepsTimers(w: World, e: Event, c: Container, id: TimerId)
    requires RegistryInv(w) && TimersInv(w) && Enabled(w, e) && Outer(e) && !e.Fire? && !Disturbs(w, e, c)
      && IsTimerOf(w, id, c)
    requires e.AttachStart? ==> e.container != c
    ensures id in Next(w, e).timers && Next(w, e).timers[id] == w.timers[id]
  {
    var d := if e.AttachStart? || e.Destroy? then e.container else c;
    if d in w.registry { assert EntryInv(d, w.shells[w.registry[d]], w.timers); }
  }

  /** What one more step leaves of an unattended shell and of a timer of its container. */
  ghost predicate StaysAlone(w: World, v: World, c: Container, id: TimerId) {
    c !in v.registry || (Unattended(v, c) && IsTimerOf(v, id, c) && IsTimerOf(w, id, c)
      && v.timers[id].due == w.timers[id].due)
  }

  lemma FireStaysAlone(w: World, start: nat, es: seq<Event>, f: TimerId, c: Container, id: TimerId)
    requires Reached(w, start, es) && Enabled(w, Fire(f)) && Unattended(w, c) && IsTimerOf(w, id, c)
    ensures StaysAlone(w, Next(w, Fire(f)), c, id)
  {
    TimerEndsOnlyUnattended(w, start, es, f, c);
  }

  lemma OuterAlone(w: World, start: nat, es: seq<Event>, e: Event, c: Container, id: TimerId)
    requires Reached(w, start, es) && Enabled(w, e) && Outer(e) && !e.Fire? && !Disturbs(w, e, c)
    requires Unattended(w, c) && IsTimerOf(w, id, c) && (e.AttachStart? ==> e.container != c)
    ensures StaysAlone(w, Next(w, e), c, id)
  {
    StepSurvival(w, start, es, e, c);
    ReachedInv(w, start, es);
    OuterStaysAlone(w, e, c);
    OuterKeepsTimers(w, e, c, id);
  }

  lemma StepStaysAlone(w: World, start: nat, es: seq<Event>, e: Event, c: Container, id: TimerId)
    requires Reached(w, start, es) && Enabled(w, e) && !Disturbs(w, e, c) && Unattended(w, c) && IsTimerOf(w, id, c)
    requires e.AttachStart? ==> e.container != c
    ensures StaysAlone(w, Next(w, e), c, id)
  {
    if e.Fire? { FireStaysAlone(w, start, es, e.timer, c, id); }
    else if Outer(e) { OuterAlone(w, start, es, e, c, id); }
  }

  lemma NotOverdue(w: World, start: nat, es: seq<Event>, id: TimerId)
    requires Reached(w, start, es) && id in w.timers
    ensures w.now <= w.timers[id].due
  {
    ReachedInv(w, start, es);
  }

  lemma {:induction false} OneFires(w: World, start: nat, done: seq<Event>, es: seq<Event>, c: Container, id: TimerId)
    requires Reached(w, start, done) && Run(w, es) && Undisturbed(w, es, c) && NoAttach(es, c)
    requires Unattended(w, c) && IsTimerOf(w, id, c) && w.timers[id].due < After(w, es).now
    ensures c !in After(w, es).registry
    decreases |es|
  {
    NotOverdue(w, start, done, id);
    if es != [] {
      var v := Next(w, es[0]);
      StepStaysAlone(w, start, done, es[0], c, id);
      Snoc(Boot(start), done, w, es[0]);
      if c in v.registry {
        assert forall i | 0 <= i < |es| - 1 :: es[1..][i] == es[i + 1];
        OneFires(v, start, done + [es[0]], es[1..], c, id);
      } else {
        RunGone(v, es[1..], c);
      }
    }
  }

  /**
   What becomes of an unattended shell can be told from the timers pending for its container. Over any run
   that does not disturb it: while none of them is due it stays registered; once one of them is overdue, nobody
   having attached, nothing is registered.
   */
  lemma FirstTimerDecides(w: World, start: nat, es: seq<Event>, run: seq<Event>, c: Container)
    requires Reached(w, start, es) && Unattended(w, c) && Run(w, run) && Undisturbed(w, run, c)
    ensures AllDueAfter(w, c, After(w, run).now) ==> Lookup(After(w, run).registry, c) == Some(w.registry[c])
    ensures NoAttach(run, c) && (exists id :: IsTimerOf(w, id, c) && w.timers[id].due < After(w, run).now) ==>
      c !in After(w, run).registry
  {
    if AllDueAfter(w, c, After(w, run).now) {
      OwnTimerOf(w, start, es, c);
      NoneFires(w, run, c);
      SurvivesIffNoTimerFiresUnattended(w, start, es, run, c);
    }
    if id :| NoAttach(run, c) && IsTimerOf(w, id, c) && w.timers[id].due < After(w, run).now {
      OneFires(w, start, es, run, c, id);
    }
  }

  lemma OwnTimerOf(w: World, start: nat, es: seq<Event>, c: Container)
    requires Reached(w, start, es) && Unattended(w, c)
    ensures exists id :: IsTimerOf(w, id, c) && w.timers[id].due <= w.now + RECONNECT_GRACE_MS
  {
    GraceExactlyWhenUnattended(w, start, es, c);
    ReachedInv(w, start, es);
    assert IsTimerOf(w, Registered(w, c).value.grace.value, c);
  }

  // ---------------------------------------------------------------------------------------------
  // Coming back
  // ---------------------------------------------------------------------------------------------

  /** A grace timer that is not the registered shell's own was left behind by a shell that is not registered. */
  ghost predicate TimerInv(x: View, id: TimerId) {
    id in x.timers ==>
      var c := x.timers[id];
      || (c in x.registry && x.registry[c] in x.lines && x.lines[x.registry[c]].grace == Some(id))
      || (exists sh :: sh in x.lines && x.lines[sh].container == c && Lookup(x.registry, c) != Some(sh))
  }

  ghost predicate StaleInv(x: View) {
    forall id | id in x.timers :: TimerInv(x, id)
  }

  /** A timer left behind stays so. */
  lemma LeftBehindKept(x: View, ch: Change, c: Container, sh: ShellId)
    requires ViewInv(x) && Allowed(x, ch) && sh in x.lines && x.lines[sh].container == c
      && Lookup(x.registry, c) != Some(sh)
    ensures
      var y := Apply(x, ch);
      sh in y.lines && y.lines[sh].container == c && Lookup(y.registry, c) != Some(sh)
  {
  }

  /** A shell's own timer stays its own, or is left behind with it. */
  lemma OwnTimerKept(x: View, ch: Change, id: TimerId)
    requires ViewInv(x) && Allowed(x, ch) && id in x.timers && id in Apply(x, ch).timers
    requires x.timers[id] in x.registry && x.registry[x.timers[id]] in x.lines
      && x.lines[x.registry[x.timers[id]]].grace == Some(id)
    ensures TimerInv(Apply(x, ch), id)
  {
    var y := Apply(x, ch);
    var c := x.timers[id];
    if Lookup(y.registry, c) != Lookup(x.registry, c) {
      assert x.registry[c] in y.lines && y.lines[x.registry[c]].container == c;
    }
  }

  lemma StaleKept(x: View, ch: Change)
    requires ViewInv(x) && StaleInv(x) && Allowed(x, ch)
    ensures StaleInv(Apply(x, ch))
  {
    var y := Apply(x, ch);
    forall id | id in y.timers
      ensures TimerInv(y, id)
    {
      if id in x.timers {
        assert TimerInv(x, id);
        var c := x.timers[id];
        if sh :| sh in x.lines && x.lines[sh].container == c && Lookup(x.registry, c) != Some(sh) {
          LeftBehindKept(x, ch, c, sh);
        } else {
          OwnTimerKept(x, ch, id);
        }
      }
    }
  }

  lemma StepStale(w: World, e: Event)
    requires WorldInv(w) && StaleInv(ViewOf(w)) && Enabled(w, e)
    ensures StaleInv(ViewOf(Next(w, e)))
  {
    WorldView(w, e);
    StepView(w, e);
    StaleKept(ViewOf(w), ChangeOf(w, e));
  }

  lemma {:induction false} RunStale(w: World, es: seq<Event>)
    requires WorldInv(w) && StaleInv(ViewOf(w)) && Run(w, es)
    ensures StaleInv(ViewOf(After(w, es)))
    decreases |es|
  {
    if es != [] {
      StepStale(w, es[0]);
      StepInv(w, es[0]);
      RunStale(Next(w, es[0]), es[1..]);
    }
  }

  /** `sh` is the only shell the container has had. */
  ghost predicate OnlyShell(w: World, c: Container, sh: ShellId) {
    forall x | x in w.shells && w.shells[x].container == c :: x == sh
  }

  /** While the container has had one shell, a timer due for it is that shell's own. */
  lemma OnlyOwnTimer(w: World, c: Container, id: TimerId)
    requires RegistryInv(w) && StaleInv(ViewOf(w)) && c in w.registry && OnlyShell(w, c, w.registry[c])
    requires id in w.timers && w.timers[id].container == c
    ensures w.registry[c] in w.shells
    ensures w.timers[id].due == w.shells[w.registry[c]].emptySince + RECONNECT_GRACE_MS
  {
    assert TimerInv(ViewOf(w), id);
    assert EntryInv(c, w.shells[w.registry[c]], w.timers);
  }

  lemma ReachedStale(w: World, start: nat, es: seq<Event>)
    requires Reached(w, start, es)
    ensures StaleInv(ViewOf(w))
  {
    BootInv(start);
    RunStale(Boot(start), es);
  }

  lemma AttachJoins(w: World, c: Container, ws: SocketId, ready: Ready)
    requires RegistryInv(w) && Registered(w, c).Some?
    ensures
      var v := Attach(w, ws, c, ready);
      && Registered(v, c).Some? && v.registry == w.registry
      && ws in Registered(v, c).value.sockets && Registered(v, c).value.stream.Live?
  {
    assert EntryInv(c, w.shells[w.registry[c]], w.timers);
  }

  /** Every timer pending for the container has the whole grace time to go: none was left behind by an earlier shell. */
  ghost predicate NoEarlierTimer(w: World, c: Container) {
    forall id | IsTimerOf(w, id, c) :: w.timers[id].due >= w.now + RECONNECT_GRACE_MS
  }

  /** So it is when the last socket of the container's only shell so far has just left. */
  lemma OnlyShellHasNoEarlierTimer(w: World, start: nat, es: seq<Event>, c: Container)
    requires Reached(w, start, es) && Unattended(w, c) && Registered(w, c).value.emptySince == w.now
    requires OnlyShell(w, c, w.registry[c])
    ensures NoEarlierTimer(w, c)
  {
    ReachedInv(w, start, es);
    ReachedStale(w, start, es);
    forall id | IsTimerOf(w, id, c)
      ensures w.timers[id].due >= w.now + RECONNECT_GRACE_MS
    {
      OnlyOwnTimer(w, c, id);
    }
  }

  /**
   Coming back: a registered shell, with no earlier timer of its container pending, is handed out again to an
   attach less than 120 s later, whatever else ran meanwhile, as long as nothing ended it, destroyed its
   container or started another.
   */
  lemma ReattachFindsTheSameShell(
    w: World, start: nat, es: seq<Event>, run: seq<Event>, c: Container, ws: SocketId, ready: Ready)
    requires Reached(w, start, es) && c in w.registry && NoEarlierTimer(w, c)
    requires Run(w, run) && Undisturbed(w, run, c)
    requires After(w, run).now < w.now + RECONNECT_GRACE_MS
    ensures
      var v := Next(After(w, run), AttachStart(ws, c, ready));
      && Registered(v, c).Some? && v.registry[c] == w.registry[c]
      && ws in Registered(v, c).value.sockets && Registered(v, c).value.stream.Live?
  {
    NoneFires(w, run, c);
    SurvivesIffNoTimerFiresUnattended(w, start, es, run, c);
    ReachedInv(w, start, es);
    RunKeeps(w, run);
    AttachJoins(After(w, run), c, ws, ready);
  }
}
