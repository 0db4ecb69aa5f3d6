/** Which shells are alive, and which one the registry names. */
module TerminalLiveness {
  import opened Options
  import opened TerminalModel
  import opened TerminalInvariants
  import opened TerminalTheorems

  // ---------------------------------------------------------------------------------------------
  // The machine without sockets, bytes and clocks
  // ---------------------------------------------------------------------------------------------

  datatype Line = Line(container: Container, stream: Stream, grace: Option<TimerId>)

  datatype View = View(
    registry: map<Container, ShellId>, lines: map<ShellId, Line>,
    queue: map<SocketId, Container>, timers: map<TimerId, Container>)

  function LineOf(s: Shell): Line { Line(s.container, s.stream, s.grace) }

  function LinesOf(shells: map<ShellId, Shell>): map<ShellId, Line> {
    map sh | sh in shells :: LineOf(shells[sh])
  }

  function QueueOf(waiting: map<SocketId, Waiting>): map<SocketId, Container> {
    map ws | ws in waiting :: waiting[ws].container
  }

  function DueOf(timers: map<TimerId, Grace>): map<TimerId, Container> {
    map id | id in timers :: timers[id].container
  }

  function ViewOf(w: World): View {
    View(w.registry, LinesOf(w.shells), QueueOf(w.waiting), DueOf(w.timers))
  }

  datatype Change =
    | Nothing
    | Queued(ws: SocketId, container: Container)
    | Unqueued(ws: SocketId)
    | Reattached(container: Container)
    | Created(ws: SocketId, shell: ShellId)
    | GraceStarted(container: Container, timer: TimerId)
    | Destroyed(container: Container)
    | Fired(timer: TimerId, ended: bool)
    | Finished(shell: ShellId)

  function EndLine(l: Line): Line { l.(stream := if l.stream.Live? then EndCalled else l.stream) }

  function WithoutGrace(x: View, sh: ShellId): map<TimerId, Container> {
    if sh in x.lines && x.lines[sh].grace.Some? then x.timers - {x.lines[sh].grace.value} else x.timers
  }

  function Apply(x: View, ch: Change): View {
    match ch
    case Nothing => x
    case Queued(ws, c) => x.(queue := x.queue[ws := c])
    case Unqueued(ws) => x.(queue := x.queue - {ws})
    case Reattached(c) =>
      if c in x.registry && x.registry[c] in x.lines then
        x.(lines := x.lines[x.registry[c] := x.lines[x.registry[c]].(grace := None)],
          timers := WithoutGrace(x, x.registry[c]))
      else x
    case Created(ws, sh) =>
      if ws in x.queue then
        x.(queue := x.queue - {ws}, registry := x.registry[x.queue[ws] := sh],
           lines := x.lines[sh := Line(x.queue[ws], Live, None)])
      else x
    case GraceStarted(c, id) =>
      if c in x.registry && x.registry[c] in x.lines then
        x.(lines := x.lines[x.registry[c] := x.lines[x.registry[c]].(grace := Some(id))], timers := x.timers[id := c])
      else x
    case Destroyed(c) =>
      if c in x.registry && x.registry[c] in x.lines then
        x.(lines := x.lines[x.registry[c] := EndLine(x.lines[x.registry[c]])],
           timers := WithoutGrace(x, x.registry[c]), registry := x.registry - {c})
      else x
    case Fired(id, ended) =>
      if id !in x.timers then x
      else
        var c := x.timers[id];
        if ended && c in x.registry && x.registry[c] in x.lines then
          x.(lines := x.lines[x.registry[c] := EndLine(x.lines[x.registry[c]])],
             timers := x.timers - {id}, registry := x.registry - {c})
        else x.(timers := x.timers - {id})
    case Finished(sh) =>
      if sh in x.lines then
        x.(lines := x.lines[sh := x.lines[sh].(stream := Done)], registry := x.registry - {x.lines[sh].container})
      else x
  }

  /** What a step looks like from the view. */
  function ChangeOf(w: World, e: Event): Change {
    match e
    case AttachStart(ws, c, _) => if Registered(w, c).Some? then Reattached(c) else Queued(ws, c)
    case AttachDone(ws, sh) => Created(ws, sh)
    case AttachFail(ws) => Unqueued(ws)
    case End(sh) => Finished(sh)
    case Destroy(c) => Destroyed(c)
    case Fire(id) =>
      Fired(id, id in w.timers && var r := Registered(w, w.timers[id].container); r.Some? && r.value.sockets == {})
    case Close(sh, ws) =>
      if sh in w.shells then ReleaseChange(w, w.shells[sh].container, ws) else Nothing
    case _ => Nothing
  }

  lemma PutLine(shells: map<ShellId, Shell>, sh: ShellId, t: Shell)
    ensures LinesOf(shells[sh := t]) == LinesOf(shells)[sh := LineOf(t)]
    ensures sh in shells && LineOf(t) == LineOf(shells[sh]) ==> LinesOf(shells[sh := t]) == LinesOf(shells)
  {
    assert LinesOf(shells[sh := t]) == LinesOf(shells)[sh := LineOf(t)];
    if sh in shells && LineOf(t) == LineOf(shells[sh]) {
      assert LinesOf(shells)[sh := LineOf(t)] == LinesOf(shells);
    }
  }

  lemma DropTimer(timers: map<TimerId, Grace>, id: TimerId)
    ensures DueOf(timers - {id}) == DueOf(timers) - {id}
  {
  }

  lemma InnerView(w: World, e: Event)
    requires Enabled(w, e) && Inner(e)
    ensures ViewOf(Next(w, e)) == ViewOf(w)
  {
    var t := Next(w, e).shells[e.shell];
    assert Next(w, e) == SetShell(w, e.shell, t);
    assert LineOf(t) == LineOf(w.shells[e.shell]);
    PutLine(w.shells, e.shell, t);
  }

  lemma RestView(w: World, e: Event)
    requires Enabled(w, e) && !Inner(e) && !Outer(e) && !e.AttachFail?
    ensures ViewOf(Next(w, e)) == ViewOf(w)
  {
    var v := Next(w, e);
    assert LinesOf(v.shells) == LinesOf(w.shells);
    assert QueueOf(v.waiting) == QueueOf(w.waiting);
  }

  lemma AttachView(w: World, ws: SocketId, c: Container, ready: Ready)
    ensures ViewOf(Attach(w, ws, c, ready)) == Apply(ViewOf(w), ChangeOf(w, AttachStart(ws, c, ready)))
  {
    var r := Registered(w, c);
    if r.Some? {
      PutLine(w.shells, w.registry[c], AddSocket(r.value, ws, ready, true, w.now));
      if r.value.grace.Some? { DropTimer(w.timers, r.value.grace.value); }
    } else {
      assert QueueOf(w.waiting[ws := Waiting(c, ready, true, w.now)]) == QueueOf(w.waiting)[ws := c];
    }
  }

  lemma RegisterView(w: World, ws: SocketId, sh: ShellId)
    ensures ViewOf(Register(w, ws, sh)) == Apply(ViewOf(w), Created(ws, sh))
  {
    if ws in w.waiting {
      var p := w.waiting[ws];
      PutLine(w.shells, sh, AddSocket(NewShell(p.container, w.now), ws, p.ready, p.alive, p.heard));
      assert QueueOf(w.waiting - {ws}) == QueueOf(w.waiting) - {ws};
    }
  }

  lemma DestroyView(w: World, c: Container)
    ensures ViewOf(EndShell(w, c)) == Apply(ViewOf(w), Destroyed(c))
  {
    var r := Registered(w, c);
    if r.Some? {
      PutLine(w.shells, w.registry[c], EndStream(CloseAll(r.value)));
      if r.value.grace.Some? { DropTimer(w.timers, r.value.grace.value); }
    }
  }

  lemma FireView(w: World, id: TimerId)
    ensures ViewOf(FireGrace(w, id)) == Apply(ViewOf(w), ChangeOf(w, Fire(id)))
  {
    if id in w.timers {
      DropTimer(w.timers, id);
      var r := Registered(w, w.timers[id].container);
      if r.Some? { PutLine(w.shells, w.registry[w.timers[id].container], EndStream(r.value)); }
    }
  }

  lemma EndView(w: World, sh: ShellId)
    ensures ViewOf(StreamEnded(w, sh)) == Apply(ViewOf(w), Finished(sh))
  {
    if sh in w.shells { PutLine(w.shells, sh, CloseAll(w.shells[sh]).(stream := Done)); }
  }

  function ReleaseChange(w: World, c: Container, ws: SocketId): Change {
    var r := Registered(w, c);
    if r.None? || r.value.sockets - {ws} != {} || r.value.grace.Some? then Nothing else GraceStarted(c, w.nextTimer)
  }

  lemma ReleaseView(w: World, c: Container, ws: SocketId)
    ensures ViewOf(Release(w, c, ws)) == Apply(ViewOf(w), ReleaseChange(w, c, ws))
  {
    var r := Registered(w, c);
    if r.Some? {
      PutLine(w.shells, w.registry[c], DropSocket(r.value, ws, w.nextTimer, w.now));
      assert DueOf(w.timers[w.nextTimer := Grace(c, w.now + RECONNECT_GRACE_MS)]) == DueOf(w.timers)[w.nextTimer := c];
    }
  }

  lemma CloseView(w: World, sh: ShellId, ws: SocketId)
    requires HasSocket(w, sh, ws)
    ensures ViewOf(SocketClosed(w, sh, ws)) == Apply(ViewOf(w), ReleaseChange(w, w.shells[sh].container, ws))
  {
    var v := SetReady(w, sh, ws, Closed);
    PutLine(w.shells, sh, v.shells[sh]);
    ReleaseView(v, w.shells[sh].container, ws);
  }

  /** The view of the next world is the change applied to the view of this one. */
  lemma StepView(w: World, e: Event)
    requires Enabled(w, e)
    ensures ViewOf(Next(w, e)) == Apply(ViewOf(w), ChangeOf(w, e))
  {
    if Inner(e) { InnerView(w, e); }
    else if e.AttachStart? { AttachView(w, e.ws, e.container, e.ready); }
    else if e.AttachDone? { RegisterView(w, e.ws, e.shell); }
    else if e.AttachFail? { assert QueueOf(w.waiting - {e.ws}) == QueueOf(w.waiting) - {e.ws}; }
    else if e.End? { EndView(w, e.shell); }
    else if e.Destroy? { DestroyView(w, e.container); }
    else if e.Fire? { FireView(w, e.timer); }
    else if e.Close? { CloseView(w, e.shell, e.ws); }
    else { RestView(w, e); }
  }

  /** What `WorldInv` says of the view, and which changes a step makes of it. */
  ghost predicate ViewInv(x: View) {
    forall c | c in x.registry ::
      && x.registry[c] in x.lines && x.lines[x.registry[c]].container == c && x.lines[x.registry[c]].stream.Live?
      && (x.lines[x.registry[c]].grace.Some? ==> Lookup(x.timers, x.lines[x.registry[c]].grace.value) == Some(c))
  }

  ghost predicate Allowed(x: View, ch: Change) {
    match ch
    case Created(ws, sh) => ws in x.queue && sh !in x.lines
    case GraceStarted(c, id) => c in x.registry && x.registry[c] in x.lines && x.lines[x.registry[c]].grace.None?
      && id !in x.timers
    case Fired(id, _) => id in x.timers
    case Finished(sh) => sh in x.lines && !x.lines[sh].stream.Done?
    case Queued(ws, c) => c !in x.registry && ws !in x.queue
    case _ => true
  }

  lemma WorldView(w: World, e: Event)
    requires RegistryInv(w) && TimersInv(w) && Enabled(w, e)
    ensures ViewInv(ViewOf(w)) && Allowed(ViewOf(w), ChangeOf(w, e))
  {
    forall c | c in w.registry
      ensures w.registry[c] in w.shells && EntryInv(c, w.shells[w.registry[c]], w.timers)
    {
    }
  }

  // ---------------------------------------------------------------------------------------------
  // The registry names exactly the live shells
  // ---------------------------------------------------------------------------------------------

  ghost predicate Exact(x: View) {
    forall sh | sh in x.lines :: x.lines[sh].stream.Live? <==> Lookup(x.registry, x.lines[sh].container) == Some(sh)
  }

  /** What a change has to find in the registry for it to stay exact. */
  ghost predicate Safe(x: View, ch: Change) {
    match ch
    case Created(ws, _) => ws in x.queue ==> x.queue[ws] !in x.registry
    case Finished(sh) => sh in x.lines ==> Lookup(x.registry, x.lines[sh].container) in {None, Some(sh)}
    case _ => true
  }

  lemma CreatedExact(x: View, ws: SocketId, sh: ShellId)
    requires ViewInv(x) && Exact(x) && Allowed(x, Created(ws, sh))
    ensures Exact(Apply(x, Created(ws, sh))) <==> Safe(x, Created(ws, sh))
  {
    var y := Apply(x, Created(ws, sh));
    if x.queue[ws] in x.registry {
      assert y.lines[x.registry[x.queue[ws]]].stream.Live?;
    }
  }

  lemma FinishedExact(x: View, sh: ShellId)
    requires ViewInv(x) && Exact(x) && Allowed(x, Finished(sh))
    ensures Exact(Apply(x, Finished(sh))) <==> Safe(x, Finished(sh))
  {
    var y := Apply(x, Finished(sh));
    var c := x.lines[sh].container;
    if c in x.registry && x.registry[c] != sh {
      assert y.lines[x.registry[c]].stream.Live? && c !in y.registry;
    }
  }

  lemma ExactIffSafe(x: View, ch: Change)
    requires ViewInv(x) && Exact(x) && Allowed(x, ch)
    ensures Exact(Apply(x, ch)) <==> Safe(x, ch)
  {
    match ch
    case Created(ws, sh) => CreatedExact(x, ws, sh);
    case Finished(sh) => FinishedExact(x, sh);
    case _ =>
  }

  /**
   The guard is exact: a step from a reachable state whose registry names exactly the live shells leads to
   such a state if and only if a first exec finds no entry and an end event finds its own entry or none.
   */
  lemma RegistryExactIffSafe(w: World, start: nat, es: seq<Event>, e: Event)
    requires Reached(w, start, es) && Enabled(w, e) && Exact(ViewOf(w))
    ensures Exact(ViewOf(Next(w, e))) <==> Safe(ViewOf(w), ChangeOf(w, e))
  {
    ReachedInv(w, start, es);
    WorldView(w, e);
    StepView(w, e);
    ExactIffSafe(ViewOf(w), ChangeOf(w, e));
  }

  /**
   The order that keeps every step safe: no socket asks for a container's shell while another waits for its
   first exec, or while a stream we ended there has not delivered its end event.
   */
  ghost predicate Orderly(w: World, e: Event) {
    e.AttachStart? ==>
      && (forall ws | ws in w.waiting :: w.waiting[ws].container != e.container)
      && (forall sh | sh in w.shells && w.shells[sh].container == e.container :: !w.shells[sh].stream.EndCalled?)
  }

  ghost predicate OrderlyRun(w: World, es: seq<Event>)
    decreases |es|
  {
    es == [] || (Orderly(w, es[0]) && OrderlyRun(Next(w, es[0]), es[1..]))
  }

  ghost predicate InOrder(x: View, ch: Change) {
    ch.Queued? ==>
      && (forall ws | ws in x.queue :: x.queue[ws] != ch.container)
      && (forall sh | sh in x.lines && x.lines[sh].container == ch.container :: !x.lines[sh].stream.EndCalled?)
  }

  ghost predicate OrderInv(x: View) {
    && (forall ws | ws in x.queue :: x.queue[ws] !in x.registry)
    && (forall a, b | a in x.queue && b in x.queue && x.queue[a] == x.queue[b] :: a == b)
    && (forall sh | sh in x.lines && x.lines[sh].stream.EndCalled? :: x.lines[sh].container !in x.registry)
    && (forall sh, ws | sh in x.lines && ws in x.queue && x.lines[sh].stream.EndCalled? ::
      x.queue[ws] != x.lines[sh].container)
  }

  lemma OrderKept(x: View, ch: Change)
    requires ViewInv(x) && Exact(x) && OrderInv(x) && Allowed(x, ch) && InOrder(x, ch)
    ensures Safe(x, ch) && OrderInv(Apply(x, ch))
  {
  }

  lemma {:induction false} RunOrderly(w: World, es: seq<Event>)
    requires WorldInv(w) && Exact(ViewOf(w)) && OrderInv(ViewOf(w)) && Run(w, es) && OrderlyRun(w, es)
    ensures Exact(ViewOf(After(w, es)))
    decreases |es|
  {
    if es != [] {
      OrderlyStep(w, es[0]);
      RunOrderly(Next(w, es[0]), es[1..]);
    }
  }

  /** Over every orderly run from a boot the registry names exactly the live shells, so a container has at most one. */
  lemma OrderlyRunsAreExact(start: nat, es: seq<Event>)
    requires Run(Boot(start), es) && OrderlyRun(Boot(start), es)
    ensures
      var v := After(Boot(start), es);
      && (forall sh | sh in v.shells ::
        v.shells[sh].stream.Live?
        <==> Lookup(v.registry, v.shells[sh].container) == Some(sh))
      && (forall a, b | a in v.shells && b in v.shells && v.shells[a].container == v.shells[b].container
            && v.shells[a].stream.Live? && v.shells[b].stream.Live? :: a == b)
  {
    BootInv(start);
    RunOrderly(Boot(start), es);
    var v := After(Boot(start), es);
    assert forall sh | sh in v.shells :: ViewOf(v).lines[sh] == LineOf(v.shells[sh]);
  }

  lemma OrderlyIsInOrder(w: World, e: Event)
    requires Orderly(w, e)
    ensures InOrder(ViewOf(w), ChangeOf(w, e))
  {
  }

  lemma OrderlyStep(w: World, e: Event)
    requires WorldInv(w) && Exact(ViewOf(w)) && OrderInv(ViewOf(w)) && Enabled(w, e) && Orderly(w, e)
    ensures WorldInv(Next(w, e)) && Exact(ViewOf(Next(w, e))) && OrderInv(ViewOf(Next(w, e)))
  {
    StepInv(w, e);
    WorldView(w, e);
    StepView(w, e);
    OrderlyIsInOrder(w, e);
    OrderKept(ViewOf(w), ChangeOf(w, e));
    ExactIffSafe(ViewOf(w), ChangeOf(w, e));
  }
}
