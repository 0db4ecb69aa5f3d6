/** What the terminal promises, over every run of the machine from a fresh boot. */
module TerminalTheorems {
  import opened Options
  import opened TerminalModel
  import opened TerminalInvariants

  ghost predicate Reached(w: World, start: nat, es: seq<Event>) { Leads(Boot(start), es, w) }

  lemma ReachedInv(w: World, start: nat, es: seq<Event>)
    requires Reached(w, start, es)
    ensures WorldInv(w)
  {
    BootInv(start);
    RunKeeps(Boot(start), es);
  }

  // ---------------------------------------------------------------------------------------------
  // Grace timers
  // ---------------------------------------------------------------------------------------------

  /**
   In every reachable state a registered shell has a pending grace timer exactly when nobody is attached;
   the timer is due 120 s after the last socket left, so nobody has been away longer than that.
   */
  lemma GraceExactlyWhenUnattended(w: World, start: nat, es: seq<Event>, c: Container)
    requires Reached(w, start, es) && c in w.registry
    ensures Registered(w, c).Some?
    ensures
      var s := Registered(w, c).value;
      && s.stream.Live?
      && (s.sockets == {} <==> (s.grace.Some? && s.grace.value in w.timers && w.timers[s.grace.value].container == c))
      && (s.sockets == {} ==>
            && w.timers[s.grace.value].due == s.emptySince + 120_000
            && w.now <= s.emptySince + 120_000)
  {
    ReachedInv(w, start, es);
    assert EntryInv(c, w.shells[w.registry[c]], w.timers);
  }

  /**
   A grace timer, stale or not, ends the shell registered for its container exactly when that shell is
   unattended, and touches no other entry.
   */
  lemma TimerEndsOnlyUnattended(w: World, start: nat, es: seq<Event>, id: TimerId, c: Container)
    requires Reached(w, start, es) && Enabled(w, Fire(id)) && c in w.registry
    ensures Registered(w, c).Some?
    ensures
      var v := Next(w, Fire(id));
      var s := w.shells[w.registry[c]];
      && w.registry[c] in v.shells
      && (c !in v.registry <==> w.timers[id].container == c && s.sockets == {})
      && (c in v.registry ==> v.registry[c] == w.registry[c] && v.shells[v.registry[c]] == s)
      && (c !in v.registry ==> v.shells[w.registry[c]].stream.EndCalled? && v.shells[w.registry[c]].resumeDue.None?)
  {
    EntryOwned(w, start, es, c);
    var d := w.timers[id].container;
    if d in w.registry { EntryOwned(w, start, es, d); }
    assert Next(w, Fire(id)) == FireGrace(w, id);
  }

  lemma EntryOwned(w: World, start: nat, es: seq<Event>, c: Container)
    requires Reached(w, start, es) && c in w.registry
    ensures w.registry[c] in w.shells && w.shells[w.registry[c]].container == c
      && w.shells[w.registry[c]].stream.Live?
  {
    ReachedInv(w, start, es);
    assert EntryInv(c, w.shells[w.registry[c]], w.timers);
  }

  // ---------------------------------------------------------------------------------------------
  // Silent peers
  // ---------------------------------------------------------------------------------------------

  /**
   In every reachable state, a socket of a registered shell was heard from within the last 60 s unless it
   closed before its close listener was there; a registered shell with no such lost socket was heard from
   within the last 180 s.
   */
  lemma SilenceIsBounded(w: World, start: nat, es: seq<Event>, c: Container)
    requires Reached(w, start, es) && c in w.registry
    ensures Registered(w, c).Some?
    ensures
      var s := w.shells[w.registry[c]];
      && (forall ws | ws in s.sockets :: ws in s.socks && (s.socks[ws].lost || w.now <= s.socks[ws].heard + 60_000))
      && ((forall ws | ws in s.sockets :: !s.socks[ws].lost) ==> w.now <= s.heard + 180_000)
  {
    ReachedInv(w, start, es);
    var s := w.shells[w.registry[c]];
    assert EntryInv(c, s, w.timers) && ShellInv(s, w.now, w.nextSweep);
    forall ws | ws in s.sockets && !s.socks[ws].lost
      ensures w.now <= s.socks[ws].heard + 60_000 && w.now <= s.heard + 60_000
    {
      HeardRecently(s, ws, w.now, w.nextSweep);
    }
    if s.sockets != {} && forall ws | ws in s.sockets :: !s.socks[ws].lost {
      var ws :| ws in s.sockets;
    }
  }

  /**
   What ends a registered shell other than its timer: its stream's end, its container's destruction, a second exec.
   */
  ghost predicate Disturbs(w: World, e: Event, c: Container) {
    || e == Destroy(c)
    || (e.End? && e.shell in w.shells && w.shells[e.shell].container == c)
    || (e.AttachDone? && e.ws in w.waiting && w.waiting[e.ws].container == c)
  }

  ghost predicate Undisturbed(w: World, es: seq<Event>, c: Container)
    decreases |es|
  {
    es == [] || (!Disturbs(w, es[0], c) && Undisturbed(Next(w, es[0]), es[1..], c))
  }

  /** The entry of `c` after a step: the same shell, losing at most the socket that just closed. */
  ghost predicate SameEntry(w: World, v: World, c: Container, closing: Option<SocketId>) {
    && c in w.registry && c in v.registry && v.registry[c] == w.registry[c]
    && Registered(w, c).Some? && Registered(v, c).Some?
    && var s, t := Registered(w, c).value, Registered(v, c).value;
    && (forall ws | ws in s.sockets :: ws in t.sockets || closing == Some(ws))
    && (forall ws | ws in s.socks && s.socks[ws].lost :: ws in t.socks && t.socks[ws].lost)
    && (t.sockets == {} ==> t.emptySince == v.now || (s.sockets == {} && t.emptySince == s.emptySince))
  }

  lemma InnerEntry(w: World, e: Event, c: Container)
    requires Enabled(w, e) && Inner(e) && Registered(w, c).Some?
    ensures SameEntry(w, Next(w, e), c, None)
  {
  }

  lemma AttachEntry(w: World, ws: SocketId, a: Container, ready: Ready, c: Container)
    requires RegistryInv(w) && Enabled(w, AttachStart(ws, a, ready)) && Registered(w, c).Some?
    ensures SameEntry(w, Attach(w, ws, a, ready), c, None)
  {
    assert EntryInv(c, w.shells[w.registry[c]], w.timers);
    assert a in w.registry ==> EntryInv(a, w.shells[w.registry[a]], w.timers);
  }

  lemma ReleaseEntry(w: World, a: Container, ws: SocketId, c: Container)
    requires Registered(w, c).Some? && (a in w.registry && a != c ==> w.registry[a] != w.registry[c])
    requires Registered(w, c).value.sockets == {} <==> Registered(w, c).value.grace.Some?
    ensures SameEntry(w, Release(w, a, ws), c, Some(ws))
  {
  }

  lemma CloseEntry(w: World, sh: ShellId, ws: SocketId, c: Container)
    requires RegistryInv(w) && HasSocket(w, sh, ws) && Registered(w, c).Some?
    ensures SameEntry(w, SocketClosed(w, sh, ws), c, Some(ws))
  {
    var a := w.shells[sh].container;
    assert EntryInv(c, w.shells[w.registry[c]], w.timers);
    assert a in w.registry ==> EntryInv(a, w.shells[w.registry[a]], w.timers);
    var v := SetReady(w, sh, ws, Closed);
    assert SameEntry(w, v, c, None);
    ReleaseEntry(v, a, ws, c);
  }

  lemma RestEntry(w: World, e: Event, c: Container)
    requires RegistryInv(w) && Enabled(w, e) && Registered(w, c).Some? && !Disturbs(w, e, c)
    requires !Inner(e) && !e.AttachStart? && !e.Close? && !e.Fire?
    ensures SameEntry(w, Next(w, e), c, None)
  {
    assert EntryInv(c, w.shells[w.registry[c]], w.timers);
    if e.Destroy? && e.container in w.registry {
      assert EntryInv(e.container, w.shells[w.registry[e.container]], w.timers);
    }
  }

  lemma FireEntry(w: World, id: TimerId, c: Container)
    requires RegistryInv(w) && id in w.timers && Registered(w, c).Some?
    requires w.timers[id].container != c || Registered(w, c).value.sockets != {}
    ensures SameEntry(w, FireGrace(w, id), c, None)
  {
    var a := w.timers[id].container;
    assert EntryInv(c, w.shells[w.registry[c]], w.timers);
    assert a in w.registry ==> EntryInv(a, w.shells[w.registry[a]], w.timers);
  }

  /** Only its grace timer, and only while it is unattended, can end a shell nothing disturbs. */
  lemma StepEntry(w: World, e: Event, c: Container)
    requires WorldInv(w) && Enabled(w, e) && c in w.registry && !Disturbs(w, e, c)
    ensures Registered(w, c).Some?
    ensures
      || (e.Fire? && w.timers[e.timer].container == c && Registered(w, c).value.sockets == {})
      || SameEntry(w, Next(w, e), c, if e.Close? then Some(e.ws) else None)
  {
    if Inner(e) { InnerEntry(w, e, c); }
    else if e.AttachStart? { AttachEntry(w, e.ws, e.container, e.ready, c); }
    else if e.Close? { CloseEntry(w, e.shell, e.ws, c); }
    else if e.Fire? {
      if w.timers[e.timer].container != c || Registered(w, c).value.sockets != {} { FireEntry(w, e.timer, c); }
    }
    else { RestEntry(w, e, c); }
  }

  lemma StepInv(w: World, e: Event)
    requires WorldInv(w) && Enabled(w, e)
    ensures WorldInv(Next(w, e))
  {
    StepShells(w, e);
    StepOwner(w, e);
    StepRegistry(w, e);
  }

  ghost predicate Pinned(w: World, c: Container, ws: SocketId) {
    Registered(w, c).Some? && ws in Registered(w, c).value.sockets
    && ws in Registered(w, c).value.socks && Registered(w, c).value.socks[ws].lost
  }

  lemma PinnedStays(w: World, e: Event, c: Container, ws: SocketId)
    requires WorldInv(w) && Enabled(w, e) && !Disturbs(w, e, c) && Pinned(w, c, ws)
    ensures SameEntry(w, Next(w, e), c, None) || (e.Close? && e.ws != ws && SameEntry(w, Next(w, e), c, Some(e.ws)))
  {
    StepEntry(w, e, c);
    if e.Close? {
      var r := w.registry[c];
      assert PingInv(w.shells[r], w.now, w.nextSweep);
      assert HasSocket(w, r, ws) && HasSocket(w, e.shell, e.ws);
    }
  }

  lemma {:induction false} RunPinned(w: World, es: seq<Event>, c: Container, ws: SocketId)
    requires WorldInv(w) && Run(w, es) && Undisturbed(w, es, c) && Pinned(w, c, ws)
    ensures Pinned(After(w, es), c, ws) && After(w, es).registry[c] == w.registry[c]
    decreases |es|
  {
    if es != [] {
      PinnedStays(w, es[0], c, ws);
      StepInv(w, es[0]);
      RunPinned(Next(w, es[0]), es[1..], c, ws);
    }
  }

  /**
   The bound fails for a lost socket: no close event, sweep or timer ever removes it, so over any run the
   shell stays registered and attended until something disturbs it.
   */
  lemma LostSocketPinsTheShell(w: World, start: nat, es: seq<Event>, run: seq<Event>, c: Container, ws: SocketId)
    requires Reached(w, start, es) && Run(w, run) && Undisturbed(w, run, c) && Pinned(w, c, ws)
    ensures Pinned(After(w, run), c, ws) && After(w, run).registry[c] == w.registry[c]
  {
    ReachedInv(w, start, es);
    RunPinned(w, run, c, ws);
  }

  ghost predicate WaitsThroughout(w: World, es: seq<Event>, ws: SocketId)
    decreases |es|
  {
    ws in w.waiting && (es != [] ==> WaitsThroughout(Next(w, es[0]), es[1..], ws))
  }

  lemma StepWaiting(w: World, e: Event, ws: SocketId)
    requires Enabled(w, e) && ws in w.waiting && w.waiting[ws].ready.Closed? && ws in Next(w, e).waiting
    ensures Next(w, e).waiting[ws].ready.Closed? && Next(w, e).waiting[ws].container == w.waiting[ws].container
  {
  }

  lemma {:induction false} StaysClosed(w: World, es: seq<Event>, ws: SocketId)
    requires Run(w, es) && WaitsThroughout(w, es, ws) && w.waiting[ws].ready.Closed?
    ensures ws in After(w, es).waiting && After(w, es).waiting[ws].ready.Closed?
    ensures After(w, es).waiting[ws].container == w.waiting[ws].container
    decreases |es|
  {
    if es != [] {
      StepWaiting(w, es[0], ws);
      StaysClosed(Next(w, es[0]), es[1..], ws);
    }
  }

  /** A socket that closes while it waits for its exec joins the shell all the same, as such a lost socket. */
  lemma ClosedWhileWaitingIsLost(w: World, ws: SocketId, run: seq<Event>, sh: ShellId)
    requires Enabled(w, CloseWaiting(ws)) && Run(Next(w, CloseWaiting(ws)), run)
    requires WaitsThroughout(Next(w, CloseWaiting(ws)), run, ws)
    requires Enabled(After(Next(w, CloseWaiting(ws)), run), AttachDone(ws, sh))
    ensures Pinned(Next(After(Next(w, CloseWaiting(ws)), run), AttachDone(ws, sh)), w.waiting[ws].container, ws)
  {
    StaysClosed(Next(w, CloseWaiting(ws)), run, ws);
  }

  /** How a shell and its sockets may look after a step. */
  ghost predicate Follows(s: Shell, t: Shell) {
    && s.output <= t.output
    && (forall ws | ws in s.socks ::
          ws in t.socks && SocketFollows(s.socks[ws], t.socks[ws], ws in s.sockets && s.socks[ws].ready.Open?))
    && (forall ws | ws in t.sockets && ws in s.socks :: ws in s.sockets)
  }

  ghost predicate SocketFollows(k: Socket, j: Socket, receiving: bool) {
    && j.from == k.from && k.sent <= j.sent
    && (j.ready.Open? ==> k.ready.Open?)
    && (!receiving ==> j.sent == k.sent)
  }

  /** Nothing but a pong or a sweep touches what the ping sweep goes by. */
  ghost predicate SamePings(s: Shell, t: Shell) {
    forall ws | ws in s.socks ::
      && ws in t.socks && t.socks[ws].alive == s.socks[ws].alive
      && (t.socks[ws].ready.Terminated? ==> s.socks[ws].ready.Terminated?)
  }

  lemma PutFollows(s: Shell, ws: SocketId, j: Socket)
    requires ws in s.socks && SocketFollows(s.socks[ws], j, false)
    ensures Follows(s, PutSocket(s, ws, j))
  {
  }

  lemma StreamFollows(w: World, e: Event)
    requires Enabled(w, e) && (e.Data? || e.Tick?)
    ensures e.shell in Next(w, e).shells
    ensures Follows(w.shells[e.shell], Next(w, e).shells[e.shell])
      && SamePings(w.shells[e.shell], Next(w, e).shells[e.shell])
  {
  }

  lemma SocketEventFollows(w: World, e: Event)
    requires Enabled(w, e) && (e.BeginClose? || e.Drained? || e.Control?)
    ensures e.shell in Next(w, e).shells
    ensures Follows(w.shells[e.shell], Next(w, e).shells[e.shell])
      && SamePings(w.shells[e.shell], Next(w, e).shells[e.shell])
  {
    PutFollows(w.shells[e.shell], e.ws, Next(w, e).shells[e.shell].socks[e.ws]);
  }

  lemma PongFollows(w: World, sh: ShellId, ws: SocketId)
    requires HasSocket(w, sh, ws)
    ensures sh in ReceivePong(w, sh, ws).shells && Follows(w.shells[sh], ReceivePong(w, sh, ws).shells[sh])
  {
    PutFollows(w.shells[sh], ws, w.shells[sh].socks[ws].(alive := true, heard := w.now));
  }

  lemma InnerFollows(w: World, e: Event, sh: ShellId)
    requires Enabled(w, e) && Inner(e) && sh in w.shells
    ensures sh in Next(w, e).shells && Follows(w.shells[sh], Next(w, e).shells[sh])
    ensures !e.Pong? ==> SamePings(w.shells[sh], Next(w, e).shells[sh])
  {
    if e.Data? || e.Tick? { StreamFollows(w, e); }
    else if e.Pong? { PongFollows(w, e.shell, e.ws); }
    else { SocketEventFollows(w, e); }
    if sh != e.shell { assert Next(w, e).shells[sh] == w.shells[sh]; }
  }

  lemma ClosingFollows(s: Shell, t: Shell)
    requires t == CloseAll(s).(stream := t.stream) || t == EndStream(CloseAll(s)) || t == EndStream(s)
    ensures Follows(s, t) && SamePings(s, t)
  {
  }

  lemma ReadyFollows(w: World, x: ShellId, ws: SocketId, sh: ShellId)
    requires HasSocket(w, x, ws) && sh in w.shells
    ensures
      var u := SetReady(w, x, ws, Closed);
      sh in u.shells && Follows(w.shells[sh], u.shells[sh]) && SamePings(w.shells[sh], u.shells[sh])
  {
    if x == sh { PutFollows(w.shells[sh], ws, w.shells[sh].socks[ws].(ready := Closed)); }
  }

  lemma ReleaseFollows(w: World, c: Container, ws: SocketId, sh: ShellId)
    requires sh in w.shells
    ensures
      var v := Release(w, c, ws);
      sh in v.shells && Follows(w.shells[sh], v.shells[sh]) && SamePings(w.shells[sh], v.shells[sh])
  {
  }

  lemma CloseFollows(w: World, x: ShellId, ws: SocketId, sh: ShellId)
    requires HasSocket(w, x, ws) && sh in w.shells
    ensures sh in SocketClosed(w, x, ws).shells
    ensures
      var s, t := w.shells[sh], SocketClosed(w, x, ws).shells[sh];
      Follows(s, t) && SamePings(s, t)
  {
    ReadyFollows(w, x, ws, sh);
    var u := SetReady(w, x, ws, Closed);
    ReleaseFollows(u, w.shells[x].container, ws, sh);
  }

  lemma AttachFollows(w: World, e: Event, sh: ShellId)
    requires Enabled(w, e) && (e.AttachStart? || e.AttachDone?) && sh in w.shells
    ensures sh in Next(w, e).shells
    ensures Follows(w.shells[sh], Next(w, e).shells[sh]) && SamePings(w.shells[sh], Next(w, e).shells[sh])
  {
  }

  lemma OuterFollows(w: World, e: Event, sh: ShellId)
    requires Enabled(w, e) && Outer(e) && sh in w.shells
    ensures sh in Next(w, e).shells
    ensures Follows(w.shells[sh], Next(w, e).shells[sh]) && SamePings(w.shells[sh], Next(w, e).shells[sh])
  {
    var s := w.shells[sh];
    if e.Close? { CloseFollows(w, e.shell, e.ws, sh); }
    else if e.AttachStart? || e.AttachDone? { AttachFollows(w, e, sh); }
    else if Next(w, e).shells[sh] != s { ClosingFollows(s, Next(w, e).shells[sh]); }
  }

  lemma StepFollows(w: World, e: Event, sh: ShellId)
    requires Enabled(w, e) && sh in w.shells
    ensures sh in Next(w, e).shells && Follows(w.shells[sh], Next(w, e).shells[sh])
  {
    if Inner(e) { InnerFollows(w, e, sh); }
    else if Outer(e) { OuterFollows(w, e, sh); }
  }

  // ---------------------------------------------------------------------------------------------
  // Shell output
  // ---------------------------------------------------------------------------------------------

  ghost predicate Receiving(w: World, sh: ShellId, ws: SocketId) {
    HasSocket(w, sh, ws) && ws in w.shells[sh].sockets && w.shells[sh].socks[ws].ready.Open?
  }

  lemma {:induction false} RunFollows(w: World, es: seq<Event>, sh: ShellId, ws: SocketId)
    requires Run(w, es) && HasSocket(w, sh, ws)
    ensures
      var v := After(w, es);
      && HasSocket(v, sh, ws) && w.shells[sh].output <= v.shells[sh].output
      && v.shells[sh].socks[ws].from == w.shells[sh].socks[ws].from
      && (Receiving(v, sh, ws) ==> Receiving(w, sh, ws))
      && (!Receiving(w, sh, ws) ==> v.shells[sh].socks[ws].sent == w.shells[sh].socks[ws].sent)
    decreases |es|
  {
    if es != [] {
      StepFollows(w, es[0], sh);
      RunFollows(Next(w, es[0]), es[1..], sh, ws);
    }
  }

  /**
   In every reachable state the bytes a socket was sent are the shell's output from where it attached, up
   to now while it is attached and open; once it is not, no run sends it anything more.
   */
  lemma SentIsASlice(w: World, start: nat, es: seq<Event>, sh: ShellId, ws: SocketId, more: seq<Event>)
    requires Reached(w, start, es) && HasSocket(w, sh, ws) && Run(w, more)
    ensures
      var s := w.shells[sh];
      var k := s.socks[ws];
      && k.from + |k.sent| <= |s.output| && k.sent == s.output[k.from..k.from + |k.sent|]
      && (Receiving(w, sh, ws) ==> k.sent == s.output[k.from..])
      && (!Receiving(w, sh, ws) ==>
            HasSocket(After(w, more), sh, ws) && After(w, more).shells[sh].socks[ws].sent == k.sent)
  {
    ReachedInv(w, start, es);
    assert SliceOf(w.shells[sh], w.shells[sh].socks[ws]);
    RunFollows(w, more, sh, ws);
  }

  /**
   Over any run from its attach on, a socket's bytes start at the end of the output there was when it attached,
   to a first shell or to one it came back to; while it receives they are all the shell printed since.
   */
  lemma SliceStartsAtTheAttach(w: World, start: nat, es: seq<Event>, e: Event, run: seq<Event>)
    requires Reached(w, start, es) && Enabled(w, e)
      && (e.AttachDone? || (e.AttachStart? && Registered(w, e.container).Some?))
    requires Run(Next(w, e), run)
    ensures
      var sh := if e.AttachDone? then e.shell else w.registry[e.container];
      var printed := if sh in w.shells then |w.shells[sh].output| else 0;
      var v := After(Next(w, e), run);
      && HasSocket(v, sh, e.ws) && v.shells[sh].socks[e.ws].from == printed <= |v.shells[sh].output|
      && (Receiving(v, sh, e.ws) ==> v.shells[sh].socks[e.ws].sent == v.shells[sh].output[printed..])
  {
    var sh := if e.AttachDone? then e.shell else w.registry[e.container];
    Snoc(Boot(start), es, w, e);
    var u := Next(w, e);
    RunFollows(u, run, sh, e.ws);
    RunJoins(Boot(start), es + [e], u, run);
    SentIsASlice(After(u, run), start, es + [e] + run, sh, e.ws, []);
  }

  /**
   Once its stream has ended or its container was destroyed, no socket a shell ever had is open or sent anything
   more, over any run.
   */
  lemma EndedShellIsSilent(w: World, start: nat, es: seq<Event>, e: Event, sh: ShellId, run: seq<Event>, ws: SocketId)
    requires Reached(w, start, es) && Enabled(w, e) && Run(Next(w, e), run) && HasSocket(w, sh, ws)
    requires e == End(sh) || (e.Destroy? && e.container in w.registry && w.registry[e.container] == sh)
    ensures
      var v := After(Next(w, e), run);
      && HasSocket(v, sh, ws) && !Receiving(v, sh, ws)
      && v.shells[sh].socks[ws].sent == w.shells[sh].socks[ws].sent
  {
    ReachedInv(w, start, es);
    StepFollows(w, e, sh);
    assert !Receiving(Next(w, e), sh, ws);
    RunFollows(Next(w, e), run, sh, ws);
  }

  /**
   Destroying a container ends its shell at once: the entry and its timer go, the stream is ended with no resume
   check left, and no other entry or shell changes.
   */
  lemma DestroyEndsTheShell(w: World, start: nat, es: seq<Event>, c: Container)
    requires Reached(w, start, es) && c in w.registry
    ensures Registered(w, c).Some?
    ensures
      var v, sh := Next(w, Destroy(c)), w.registry[c];
      var own := if w.shells[sh].grace.Some? then {w.shells[sh].grace.value} else {};
      && v.registry == w.registry - {c} && v.timers == w.timers - own
      && v.shells == w.shells[sh := v.shells[sh]] && v.shells[sh].stream.EndCalled? && v.shells[sh].resumeDue.None?
  {
    GraceExactlyWhenUnattended(w, start, es, c);
    assert Next(w, Destroy(c)) == EndShell(w, c);
  }

  /**
   Over any run, two sockets that received throughout it were sent the same bytes: what the shell printed
   meanwhile.
   */
  lemma MirroredSocketsSeeTheSame(w: World, start: nat, es: seq<Event>, run: seq<Event>, sh: ShellId, a: SocketId,
      b: SocketId)
    requires Reached(w, start, es) && Run(w, run)
    requires HasSocket(w, sh, a) && HasSocket(w, sh, b)
    requires Receiving(After(w, run), sh, a) && Receiving(After(w, run), sh, b)
    ensures
      var v := After(w, run);
      && |w.shells[sh].output| <= |v.shells[sh].output|
      && var printed := v.shells[sh].output[|w.shells[sh].output|..];
      && v.shells[sh].socks[a].sent == w.shells[sh].socks[a].sent + printed
      && v.shells[sh].socks[b].sent == w.shells[sh].socks[b].sent + printed
  {
    SentGrowsByOutput(w, start, es, run, sh, a);
    SentGrowsByOutput(w, start, es, run, sh, b);
  }

  lemma SlicesGrowAlike(s: Shell, t: Shell, a: SocketId)
    requires SliceInv(s) && SliceInv(t) && s.output <= t.output
    requires a in s.sockets && a in t.sockets && s.socks[a].ready.Open? && t.socks[a].ready.Open?
    requires t.socks[a].from == s.socks[a].from
    ensures t.socks[a].sent == s.socks[a].sent + t.output[|s.output|..]
  {
    var from, n := s.socks[a].from, |s.output|;
    assert SliceOf(s, s.socks[a]) && SliceOf(t, t.socks[a]);
    assert t.output[from..] == t.output[from..n] + t.output[n..];
  }

  lemma SentGrowsByOutput(w: World, start: nat, es: seq<Event>, run: seq<Event>, sh: ShellId, a: SocketId)
    requires Reached(w, start, es) && Run(w, run) && HasSocket(w, sh, a) && Receiving(After(w, run), sh, a)
    ensures
      var v := After(w, run);
      && |w.shells[sh].output| <= |v.shells[sh].output|
      && v.shells[sh].socks[a].sent == w.shells[sh].socks[a].sent + v.shells[sh].output[|w.shells[sh].output|..]
  {
    ReachedInv(w, start, es);
    RunKeeps(w, run);
    RunFollows(w, run, sh, a);
    assert ShellInv(w.shells[sh], w.now, w.nextSweep);
    SlicesGrowAlike(w.shells[sh], After(w, run).shells[sh], a);
  }
}
