/** Which peers the ping sweep spares: those that answer, from the start of their bridge on. */
module TerminalPeers {
  import opened Options
  import opened TerminalModel
  import opened TerminalInvariants
  import opened TerminalTheorems

  ghost predicate IsPong(e: Event, ws: SocketId) { e == PongWaiting(ws) || (e.Pong? && e.ws == ws) }

  /** Whether the peer answers every ping before the next sweep; `pinged` is a ping not answered yet. */
  ghost predicate Answers(es: seq<Event>, ws: SocketId, pinged: bool)
    decreases |es|
  {
    es == [] ||
    if es[0].Sweep? then !pinged && Answers(es[1..], ws, true)
    else Answers(es[1..], ws, pinged && !IsPong(es[0], ws))
  }

  ghost predicate IsTerminated(w: World, ws: SocketId) {
    || (ws in w.waiting && w.waiting[ws].ready.Terminated?)
    || exists sh :: HasSocket(w, sh, ws) && w.shells[sh].socks[ws].ready.Terminated?
  }

  /** Not terminated, and with its flag set unless a ping is unanswered. */
  ghost predicate Spared(w: World, ws: SocketId, pinged: bool) {
    && (ws in w.waiting ==> !w.waiting[ws].ready.Terminated? && (pinged || w.waiting[ws].alive))
    && forall sh | HasSocket(w, sh, ws) ::
         !w.shells[sh].socks[ws].ready.Terminated? && (pinged || w.shells[sh].socks[ws].alive)
  }

  lemma StepPeer(w: World, e: Event, sh: ShellId, ws: SocketId)
    requires Enabled(w, e) && HasSocket(w, sh, ws)
    ensures
      var v := Next(w, e);
      && HasSocket(v, sh, ws)
      && var k, j := w.shells[sh].socks[ws], v.shells[sh].socks[ws];
      && (j.ready.Terminated? ==> k.ready.Terminated? || (e.Sweep? && !k.alive))
      && (k.alive && !e.Sweep? ==> j.alive)
      && (e == Pong(sh, ws) ==> j.alive)
  {
    if Inner(e) { InnerFollows(w, e, sh); }
    else if Outer(e) { OuterFollows(w, e, sh); }
  }

  lemma StepWaits(w: World, e: Event, ws: SocketId, pinged: bool)
    requires OwnerInv(w) && Enabled(w, e) && Spared(w, ws, pinged) && (e.Sweep? ==> !pinged)
    requires ws in Next(w, e).waiting
    ensures
      var k := Next(w, e).waiting[ws];
      !k.ready.Terminated? && (e.Sweep? || (pinged && !IsPong(e, ws)) || k.alive)
  {
  }

  lemma StepSpares(w: World, e: Event, ws: SocketId, pinged: bool)
    requires OwnerInv(w) && Enabled(w, e) && Spared(w, ws, pinged) && (e.Sweep? ==> !pinged)
    ensures Spared(Next(w, e), ws, e.Sweep? || (pinged && !IsPong(e, ws)))
  {
    var v := Next(w, e);
    if ws in v.waiting { StepWaits(w, e, ws, pinged); }
    forall sh | HasSocket(v, sh, ws)
      ensures !v.shells[sh].socks[ws].ready.Terminated?
      ensures e.Sweep? || (pinged && !IsPong(e, ws)) || v.shells[sh].socks[ws].alive
    {
      if HasSocket(w, sh, ws) {
        StepPeer(w, e, sh, ws);
      } else {
        StepSockets(w, e, sh, ws);
      }
    }
  }

  /** A socket new to a shell has just been attached, or was waiting for this shell's exec. */
  lemma StepSockets(w: World, e: Event, sh: ShellId, ws: SocketId)
    requires Enabled(w, e) && HasSocket(Next(w, e), sh, ws) && !HasSocket(w, sh, ws)
    ensures
      var k := Next(w, e).shells[sh].socks[ws];
      || (e.AttachStart? && e.ws == ws && !k.ready.Terminated? && k.alive)
      || (e == AttachDone(ws, sh) && k.ready == w.waiting[ws].ready && k.alive == w.waiting[ws].alive)
  {
    if Inner(e) { InnerOwner(w, e); }
    else if !e.AttachStart? && !e.AttachDone? { OuterOwner(w, e); }
  }

  lemma {:induction false} AnswersMonotone(es: seq<Event>, ws: SocketId)
    ensures Answers(es, ws, true) ==> Answers(es, ws, false)
    decreases |es|
  {
    if es != [] {
      AnswersMonotone(es[1..], ws);
    }
  }

  lemma {:induction false} RunSpares(w: World, es: seq<Event>, ws: SocketId, pinged: bool)
    requires Run(w, es) && OwnerInv(w) && Spared(w, ws, pinged) && Answers(es, ws, pinged)
    ensures !IsTerminated(After(w, es), ws)
    decreases |es|
  {
    if es != [] {
      StepOwner(w, es[0]);
      StepSpares(w, es[0], ws, pinged);
      RunSpares(Next(w, es[0]), es[1..], ws, es[0].Sweep? || (pinged && !IsPong(es[0], ws)));
    }
  }

  /** From any reachable state, a bridged peer that answers every ping before the next sweep is never terminated. */
  lemma AnsweringPeerIsNeverTerminated(w: World, start: nat, es: seq<Event>, run: seq<Event>, sh: ShellId, ws: SocketId)
    requires Reached(w, start, es) && Run(w, run) && HasSocket(w, sh, ws) && !w.shells[sh].socks[ws].ready.Terminated?
    requires Answers(run, ws, !w.shells[sh].socks[ws].alive)
    ensures HasSocket(After(w, run), sh, ws) && !After(w, run).shells[sh].socks[ws].ready.Terminated?
  {
    ReachedInv(w, start, es);
    RunSpares(w, run, ws, !w.shells[sh].socks[ws].alive);
    RunFollows(w, run, sh, ws);
  }

  /**
   No ping is outstanding when a bridge begins: a peer that answers every ping from then on, while it waits for a
   first exec and after, is never terminated; it joins a registered shell at once.
   */
  lemma BridgedPeerIsNeverTerminated(w: World, start: nat, es: seq<Event>, ws: SocketId, c: Container, ready: Ready,
      run: seq<Event>)
    requires Reached(w, start, es) && Enabled(w, AttachStart(ws, c, ready))
    requires Run(Next(w, AttachStart(ws, c, ready)), run) && Answers(run, ws, false)
    ensures
      var v := Next(w, AttachStart(ws, c, ready));
      && !IsTerminated(After(v, run), ws)
      && (if c in w.registry then HasSocket(After(v, run), w.registry[c], ws) else ws in v.waiting)
  {
    var e := AttachStart(ws, c, ready);
    ReachedInv(w, start, es);
    StepOwner(w, e);
    assert forall sh | HasSocket(Next(w, e), sh, ws) :: !HasSocket(w, sh, ws);
    forall sh | HasSocket(Next(w, e), sh, ws)
      ensures !Next(w, e).shells[sh].socks[ws].ready.Terminated? && Next(w, e).shells[sh].socks[ws].alive
    {
      StepSockets(w, e, sh, ws);
    }
    RunSpares(Next(w, e), run, ws, false);
    if c in w.registry { RunFollows(Next(w, e), run, w.registry[c], ws); }
  }
}
