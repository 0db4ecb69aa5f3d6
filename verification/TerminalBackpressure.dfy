/** What is queued on the sockets, and when a shell that printed too much is paused and resumed. */
module TerminalBackpressure {
  import opened Options
  import opened TerminalModel
  import opened TerminalInvariants
  import opened TerminalTheorems

  /** The bytes of another frame this step queues on the socket. */
  function ControlBytes(e: Event, sh: ShellId, ws: SocketId): nat {
    if e.Control? && e.shell == sh && e.ws == ws then e.bytes else 0
  }

  function AllControlBytes(es: seq<Event>, sh: ShellId, ws: SocketId): nat {
    if es == [] then 0 else ControlBytes(es[0], sh, ws) + AllControlBytes(es[1..], sh, ws)
  }

  /** What a socket was sent, less what is queued or has left. */
  function Unaccounted(k: Socket): int { |k.sent| - k.backlog - k.drained }

  ghost predicate SameAccounts(s: Shell, t: Shell) {
    forall ws | ws in s.socks :: ws in t.socks && Unaccounted(t.socks[ws]) == Unaccounted(s.socks[ws])
  }

  lemma OuterAccounts(w: World, e: Event, sh: ShellId)
    requires Enabled(w, e) && Outer(e) && !e.Close? && sh in w.shells
    ensures sh in Next(w, e).shells && SameAccounts(w.shells[sh], Next(w, e).shells[sh])
  {
  }

  lemma CloseAccounts(w: World, x: ShellId, ws: SocketId, sh: ShellId)
    requires HasSocket(w, x, ws) && sh in w.shells
    ensures sh in SocketClosed(w, x, ws).shells && SameAccounts(w.shells[sh], SocketClosed(w, x, ws).shells[sh])
  {
    var u := SetReady(w, x, ws, Closed);
    assert SameAccounts(w.shells[sh], u.shells[sh]);
  }

  lemma SocketAccounts(w: World, e: Event, ws: SocketId)
    requires Enabled(w, e) && Inner(e) && HasSocket(w, e.shell, ws)
    ensures HasSocket(Next(w, e), e.shell, ws)
    ensures Unaccounted(w.shells[e.shell].socks[ws])
         == Unaccounted(Next(w, e).shells[e.shell].socks[ws]) + ControlBytes(e, e.shell, ws)
  {
  }

  lemma StepAccounts(w: World, e: Event, sh: ShellId, ws: SocketId)
    requires Enabled(w, e) && HasSocket(w, sh, ws)
    ensures HasSocket(Next(w, e), sh, ws)
    ensures Unaccounted(w.shells[sh].socks[ws])
         == Unaccounted(Next(w, e).shells[sh].socks[ws]) + ControlBytes(e, sh, ws)
  {
    if Inner(e) {
      if e.shell == sh { SocketAccounts(w, e, ws); } else { assert Next(w, e).shells[sh] == w.shells[sh]; }
    }
    else if e.Close? { CloseAccounts(w, e.shell, e.ws, sh); }
    else if Outer(e) { OuterAccounts(w, e, sh); }
  }

  /**
   Over any run a socket's bytes are conserved: what it was sent since, with the other frames queued, is what its
   queue has grown by and what has left it.
   */
  lemma {:induction false} BytesAreConserved(w: World, es: seq<Event>, sh: ShellId, ws: SocketId)
    requires Run(w, es) && HasSocket(w, sh, ws)
    ensures HasSocket(After(w, es), sh, ws)
    ensures
      var k, j := w.shells[sh].socks[ws], After(w, es).shells[sh].socks[ws];
      |j.sent| - |k.sent| + AllControlBytes(es, sh, ws) == j.backlog - k.backlog + j.drained - k.drained
    decreases |es|
  {
    if es != [] {
      StepAccounts(w, es[0], sh, ws);
      BytesAreConserved(Next(w, es[0]), es[1..], sh, ws);
    }
  }

  /**
   In every reachable state an attached socket has no more shell output queued than 4 MiB and the chunk that
   caused the pause, and no more than 4 MiB while it is not paused; what else it has queued are the other
   frames not sent yet. A registered shell is paused exactly when its resume check is pending, and the check
   is due within 250 ms.
   */
  lemma BacklogIsBounded(w: World, start: nat, es: seq<Event>, sh: ShellId)
    requires Reached(w, start, es) && sh in w.shells
    ensures
      var s := w.shells[sh];
      && (forall ws | ws in s.sockets ::
            ws in s.socks
            && 0 <= s.socks[ws].backlog - s.socks[ws].control
                 <= 4 * 1024 * 1024 + (if s.paused then s.lastChunk else 0))
      && (Registered(w, s.container) == Some(s) ==> (s.paused <==> s.resumeDue.Some?))
      && (s.resumeDue.Some? ==> w.now <= s.resumeDue.value <= w.now + 250)
  {
    ReachedInv(w, start, es);
    var s := w.shells[sh];
    assert BackpressureInv(s, w.now);
    if s.container in w.registry {
      assert EntryInv(s.container, w.shells[w.registry[s.container]], w.timers);
    }
  }

  ghost predicate PausedThroughout(w: World, es: seq<Event>, sh: ShellId)
    decreases |es|
  {
    && sh in w.shells && w.shells[sh].paused
    && (es != [] ==> PausedThroughout(Next(w, es[0]), es[1..], sh))
  }

  lemma InnerKeepsMarks(w: World, e: Event, sh: ShellId)
    requires Enabled(w, e) && Inner(e) && sh in w.shells && w.shells[sh].paused
    ensures sh in Next(w, e).shells && Next(w, e).shells[sh].over == w.shells[sh].over
  {
  }

  lemma StepKeepsMarks(w: World, e: Event, sh: ShellId)
    requires Enabled(w, e) && sh in w.shells && w.shells[sh].paused
    ensures sh in Next(w, e).shells && Next(w, e).shells[sh].over == w.shells[sh].over
  {
    if Inner(e) { InnerKeepsMarks(w, e, sh); }
  }

  lemma {:induction false} RunKeepsMarks(w: World, es: seq<Event>, sh: ShellId)
    requires Run(w, es) && PausedThroughout(w, es, sh)
    ensures sh in After(w, es).shells && After(w, es).shells[sh].over == w.shells[sh].over
    ensures After(w, es).shells[sh].paused
    decreases |es|
  {
    if es != [] {
      StepKeepsMarks(w, es[0], sh);
      RunKeepsMarks(Next(w, es[0]), es[1..], sh);
    }
  }

  /**
   From the data event that pauses a shell, over any run to the check that resumes it: each socket over the
   limit at the pause has drained more than 3 MiB since, or left.
   */
  lemma HysteresisOfThreeMiB(w: World, start: nat, es: seq<Event>, sh: ShellId, chunk: seq<Byte>, run: seq<Event>,
      ws: SocketId)
    requires Reached(w, start, es) && Enabled(w, Data(sh, chunk))
    requires
      var p := Next(w, Data(sh, chunk));
      && Run(p, run) && PausedThroughout(p, run, sh) && Enabled(After(p, run), Tick(sh))
      && !Next(After(p, run), Tick(sh)).shells[sh].paused
      && HasSocket(p, sh, ws) && ws in p.shells[sh].sockets && p.shells[sh].socks[ws].backlog > PAUSE_BYTES
    ensures
      var p := Next(w, Data(sh, chunk));
      var v := After(p, run);
      && HasSocket(v, sh, ws)
      && (ws in v.shells[sh].sockets ==>
            v.shells[sh].socks[ws].drained - p.shells[sh].socks[ws].drained > 3 * 1024 * 1024)
  {
    var p := Next(w, Data(sh, chunk));
    var v := After(p, run);
    ReachedInv(w, start, es);
    StepInv(w, Data(sh, chunk));
    RunKeeps(p, run);
    RunKeepsMarks(p, run, sh);
    RunFollows(p, run, sh, ws);
    var d := Deliver(w.shells[sh], chunk);
    assert ws in OverLimit(d) && p.shells[sh].over[ws] == p.shells[sh].socks[ws].drained;
    assert BackpressureInv(v.shells[sh], v.now);
  }

  /**
   The check resumes the stream exactly when every attached socket is below 1 MiB, and otherwise comes again in 250
   ms.
   */
  lemma ResumesAtFirstDrainedCheck(w: World, start: nat, es: seq<Event>, sh: ShellId)
    requires Reached(w, start, es) && Enabled(w, Tick(sh))
    ensures
      var s, t := w.shells[sh], Next(w, Tick(sh)).shells[sh];
      && (forall ws | ws in s.sockets :: ws in s.socks)
      && ((exists ws :: ws in s.sockets && s.socks[ws].backlog >= 1024 * 1024)
        <==> t.resumeDue == Some(w.now + 250))
      && (s.stream.Live? ==> (t.paused <==> t.resumeDue.Some?))
  {
    ReachedInv(w, start, es);
    assert BackpressureInv(w.shells[sh], w.now);
  }

  ghost predicate Undrained(w: World, sh: ShellId) {
    sh in w.shells && exists ws ::
      ws in w.shells[sh].sockets && ws in w.shells[sh].socks
      && w.shells[sh].socks[ws].backlog >= 1024 * 1024
  }

  /** In this run the shell's check came at time `t` and found an attached socket with 1 MiB or more queued. */
  ghost predicate UndrainedAt(w: World, es: seq<Event>, sh: ShellId, t: nat)
    decreases |es|
  {
    es != [] && ((es[0] == Tick(sh) && w.now == t && Undrained(w, sh)) || UndrainedAt(Next(w, es[0]), es[1..], sh, t))
  }

  ghost predicate PausedLive(w: World, es: seq<Event>, sh: ShellId)
    decreases |es|
  {
    && sh in w.shells && w.shells[sh].paused && w.shells[sh].stream.Live?
    && (es != [] ==> PausedLive(Next(w, es[0]), es[1..], sh))
  }

  lemma InnerKeepsDue(w: World, e: Event, sh: ShellId)
    requires Enabled(w, e) && Inner(e) && e != Tick(sh) && sh in w.shells && w.shells[sh].paused
    ensures sh in Next(w, e).shells && Next(w, e).shells[sh].resumeDue == w.shells[sh].resumeDue
  {
  }

  lemma StepKeepsDue(w: World, e: Event, sh: ShellId)
    requires Enabled(w, e) && e != Tick(sh) && sh in w.shells && w.shells[sh].paused && w.shells[sh].stream.Live?
    requires sh in Next(w, e).shells && Next(w, e).shells[sh].stream.Live?
    ensures Next(w, e).shells[sh].resumeDue == w.shells[sh].resumeDue
  {
    if Inner(e) { InnerKeepsDue(w, e, sh); }
  }

  lemma DueAhead(w: World, start: nat, es: seq<Event>, sh: ShellId)
    requires Reached(w, start, es) && sh in w.shells && w.shells[sh].resumeDue.Some?
    ensures w.now <= w.shells[sh].resumeDue.value
    ensures w.shells[sh].sockets <= w.shells[sh].socks.Keys
  {
    ReachedInv(w, start, es);
    assert ShellInv(w.shells[sh], w.now, w.nextSweep);
  }

  lemma StepUndrained(w: World, start: nat, es: seq<Event>, e: Event, sh: ShellId)
    requires Reached(w, start, es) && Enabled(w, e) && sh in w.shells && w.shells[sh].paused
      && w.shells[sh].stream.Live?
    requires sh in Next(w, e).shells && Next(w, e).shells[sh].paused && Next(w, e).shells[sh].stream.Live?
    requires w.shells[sh].resumeDue.Some?
    ensures
      var due, later := w.shells[sh].resumeDue.value, Next(w, e).shells[sh].resumeDue;
      if e == Tick(sh) then Undrained(w, sh) && w.now == due && later == Some(due + CHECK_MS) else later == Some(due)
  {
    if e == Tick(sh) {
      DueAhead(w, start, es, sh);
    } else {
      StepKeepsDue(w, e, sh);
    }
  }

  lemma {:induction false} RunUndrained(w: World, start: nat, done: seq<Event>, es: seq<Event>, sh: ShellId, k: nat)
    requires Reached(w, start, done) && Run(w, es) && PausedLive(w, es, sh) && w.shells[sh].resumeDue.Some?
    requires w.shells[sh].resumeDue.value + CHECK_MS * k < After(w, es).now
    ensures UndrainedAt(w, es, sh, w.shells[sh].resumeDue.value + CHECK_MS * k)
    decreases |es|
  {
    DueAhead(w, start, done, sh);
    if es != [] {
      StepUndrained(w, start, done, es[0], sh);
      Snoc(Boot(start), done, w, es[0]);
      if es[0] != Tick(sh) {
        RunUndrained(Next(w, es[0]), start, done + [es[0]], es[1..], sh, k);
      } else if k > 0 {
        RunUndrained(Next(w, es[0]), start, done + [es[0]], es[1..], sh, k - 1);
      }
    }
  }

  /**
   From the data event that pauses a shell, over any run in which it stays paused and its stream is not ended:
   each check that came since, one every 250 ms, found an attached socket with 1 MiB or more queued.
   */
  lemma PausedOnlyWhileUndrained(w: World, start: nat, es: seq<Event>, sh: ShellId, chunk: seq<Byte>, run: seq<Event>,
      k: nat)
    requires Reached(w, start, es) && Enabled(w, Data(sh, chunk))
    requires Run(Next(w, Data(sh, chunk)), run) && PausedLive(Next(w, Data(sh, chunk)), run, sh)
    requires k >= 1 && w.now + 250 * k < After(Next(w, Data(sh, chunk)), run).now
    ensures UndrainedAt(Next(w, Data(sh, chunk)), run, sh, w.now + 250 * k)
  {
    Snoc(Boot(start), es, w, Data(sh, chunk));
    RunUndrained(Next(w, Data(sh, chunk)), start, es + [Data(sh, chunk)], run, sh, k - 1);
  }
}
