/**
 What every run of the terminal machine keeps. `ShellInv` is about one shell alone (bytes, backpressure,
 pings), `RegistryInv` about the registry and its grace timers; `RunKeeps` carries both over whole runs.
 */
module TerminalInvariants {
  import opened Options
  import opened TerminalModel

  // ---------------------------------------------------------------------------------------------
  // One shell
  // ---------------------------------------------------------------------------------------------

  /** The bytes a socket was sent are a contiguous piece of the shell's output. */
  ghost predicate SliceOf(s: Shell, k: Socket) {
    k.from + |k.sent| <= |s.output| && k.sent == s.output[k.from..k.from + |k.sent|]
  }

  ghost predicate SliceInv(s: Shell) {
    && s.sockets <= s.socks.Keys
    && (forall ws | ws in s.socks :: SliceOf(s, s.socks[ws]))
    && (forall ws | ws in s.sockets && s.socks[ws].ready.Open? ::
          s.socks[ws].from + |s.socks[ws].sent| == |s.output|)
  }

  ghost predicate BackpressureInv(s: Shell, now: nat) {
    && s.sockets <= s.socks.Keys
    && (forall ws | ws in s.socks :: s.socks[ws].control <= s.socks[ws].backlog)
    && (forall ws | ws in s.sockets ::
          s.socks[ws].backlog - s.socks[ws].control <= PAUSE_BYTES + (if s.paused then s.lastChunk else 0))
    && (s.stream.Live? ==> (s.paused <==> s.resumeDue.Some?))
    && (s.resumeDue.Some? ==> now <= s.resumeDue.value <= now + CHECK_MS)
    && (s.paused ==> forall ws | ws in s.over ::
          ws in s.socks && s.over[ws] <= s.socks[ws].drained
          && s.socks[ws].backlog + s.socks[ws].drained - s.over[ws] > PAUSE_BYTES)
  }

  /** A socket that is still open was heard from within the last two sweeps. */
  ghost predicate Fresh(ready: Ready, alive: bool, heard: nat, now: nat, nextSweep: nat) {
    && heard <= now
    && (ready.Open? || ready.Closing? ==> nextSweep <= heard + (if alive then PING_MS else 2 * PING_MS))
    && (ready.Terminated? ==> nextSweep == now + PING_MS && nextSweep <= heard + 3 * PING_MS)
  }

  ghost predicate PingInv(s: Shell, now: nat, nextSweep: nat) {
    && s.sockets <= s.socks.Keys
    && s.heard <= now
    && (forall ws | ws in s.socks ::
          Fresh(s.socks[ws].ready, s.socks[ws].alive, s.socks[ws].heard, now, nextSweep)
          && s.socks[ws].heard <= s.heard
          && (s.socks[ws].lost ==> s.socks[ws].ready.Closed?))
  }

  ghost predicate ShellInv(s: Shell, now: nat, nextSweep: nat) {
    SliceInv(s) && BackpressureInv(s, now) && PingInv(s, now, nextSweep)
  }

  lemma AddSocketKeeps(s: Shell, ws: SocketId, ready: Ready, alive: bool, heard: nat, now: nat, nextSweep: nat)
    requires ShellInv(s, now, nextSweep) && ws !in s.socks
    requires Fresh(ready, alive, heard, now, nextSweep)
    ensures ShellInv(AddSocket(s, ws, ready, alive, heard), now, nextSweep)
  {
  }

  lemma DeliverKeepsSlices(s: Shell, chunk: seq<Byte>)
    requires SliceInv(s)
    ensures SliceInv(Deliver(s, chunk))
  {
    var t := Deliver(s, chunk);
    forall ws | ws in t.socks
      ensures SliceOf(t, t.socks[ws])
    {
      var k := s.socks[ws];
      assert SliceOf(s, k);
    }
  }

  lemma DataSlices(s: Shell, chunk: seq<Byte>, now: nat)
    requires SliceInv(s)
    ensures SliceInv(Backpressure(Deliver(s, chunk), now))
  {
    DeliverKeepsSlices(s, chunk);
    var d := Deliver(s, chunk);
    assert forall ws | ws in d.socks :: SliceOf(d, d.socks[ws]) ==> SliceOf(Backpressure(d, now), d.socks[ws]);
  }

  /** Delivering to a shell that is not paused and then checking the limit keeps the backlog bound. */
  lemma DataBacklog(s: Shell, chunk: seq<Byte>, now: nat)
    requires BackpressureInv(s, now) && !s.paused
    ensures BackpressureInv(Backpressure(Deliver(s, chunk), now), now)
  {
    var d := Deliver(s, chunk);
    var t := Backpressure(d, now);
    assert forall ws | ws in s.sockets :: d.socks[ws].backlog - d.socks[ws].control <= PAUSE_BYTES + |chunk|;
    if t.paused {
      assert forall ws | ws in t.over :: ws in OverLimit(d) && t.over[ws] == d.socks[ws].drained;
    } else {
      assert forall ws | ws in d.sockets :: ws !in OverLimit(d);
    }
  }

  lemma DataPings(s: Shell, chunk: seq<Byte>, now: nat, nextSweep: nat)
    requires PingInv(s, now, nextSweep)
    ensures PingInv(Backpressure(Deliver(s, chunk), now), now, nextSweep)
  {
    var d := Deliver(s, chunk);
    assert forall ws | ws in d.socks ::
      d.socks[ws].heard == s.socks[ws].heard && d.socks[ws].alive == s.socks[ws].alive
      && d.socks[ws].ready == s.socks[ws].ready && d.socks[ws].lost == s.socks[ws].lost;
  }

  lemma DataKeeps(s: Shell, chunk: seq<Byte>, now: nat, nextSweep: nat)
    requires ShellInv(s, now, nextSweep) && !s.paused
    ensures ShellInv(Backpressure(Deliver(s, chunk), now), now, nextSweep)
  {
    DataSlices(s, chunk, now);
    DataBacklog(s, chunk, now);
    DataPings(s, chunk, now, nextSweep);
  }

  lemma SweepShellSlices(s: Shell)
    requires SliceInv(s)
    ensures SliceInv(SweepShell(s))
  {
    var t := SweepShell(s);
    forall ws | ws in t.socks
      ensures SliceOf(t, t.socks[ws])
    {
      assert SliceOf(s, s.socks[ws]);
    }
  }

  lemma SweepShellPings(s: Shell, now: nat)
    requires PingInv(s, now, now)
    ensures PingInv(SweepShell(s), now, now + PING_MS)
  {
  }

  lemma SweepShellKeeps(s: Shell, now: nat)
    requires ShellInv(s, now, now)
    ensures ShellInv(SweepShell(s), now, now + PING_MS)
  {
    SweepShellSlices(s);
    SweepShellPings(s, now);
  }

  /** Closing sockets, wholly or one by one, keeps everything about the shell. */
  lemma CloseAllKeeps(s: Shell, now: nat, nextSweep: nat)
    requires ShellInv(s, now, nextSweep)
    ensures ShellInv(CloseAll(s), now, nextSweep)
  {
    var t := CloseAll(s);
    forall ws | ws in t.socks
      ensures SliceOf(t, t.socks[ws])
    {
      assert SliceOf(s, s.socks[ws]);
    }
  }

  lemma EndStreamKeeps(s: Shell, now: nat, nextSweep: nat)
    requires ShellInv(s, now, nextSweep)
    ensures ShellInv(EndStream(s), now, nextSweep)
  {
    assert forall ws | ws in s.socks :: SliceOf(s, s.socks[ws]) ==> SliceOf(EndStream(s), s.socks[ws]);
  }

  /** Replacing one socket's record, with what its new record has to meet. */
  lemma PutKeeps(s: Shell, ws: SocketId, j: Socket, heard: nat, now: nat, nextSweep: nat)
    requires ShellInv(s, now, nextSweep) && ws in s.socks && s.heard <= heard <= now
    requires j.from == s.socks[ws].from && j.sent == s.socks[ws].sent
    requires j.ready.Open? ==> s.socks[ws].ready.Open?
    requires s.socks[ws].drained <= j.drained && s.socks[ws].backlog + s.socks[ws].drained <= j.backlog + j.drained
    requires 0 <= j.backlog - j.control <= s.socks[ws].backlog - s.socks[ws].control
    requires Fresh(j.ready, j.alive, j.heard, now, nextSweep) && j.heard <= heard && (j.lost ==> j.ready.Closed?)
    ensures ShellInv(s.(socks := s.socks[ws := j], heard := heard), now, nextSweep)
  {
    var t := s.(socks := s.socks[ws := j], heard := heard);
    forall x | x in t.socks
      ensures SliceOf(t, t.socks[x])
    {
      assert SliceOf(s, s.socks[x]);
    }
    assert SliceInv(t);
    assert BackpressureInv(t, now);
    assert PingInv(t, now, nextSweep);
  }

  lemma DropKeeps(s: Shell, ws: SocketId, timer: TimerId, now: nat, nextSweep: nat)
    requires ShellInv(s, now, nextSweep)
    ensures ShellInv(DropSocket(s, ws, timer, now), now, nextSweep)
  {
    var t := DropSocket(s, ws, timer, now);
    assert SliceInv(t) by {
      assert forall x | x in t.socks :: SliceOf(s, s.socks[x]) ==> SliceOf(t, t.socks[x]);
    }
    assert BackpressureInv(t, now);
  }

  lemma WaitKeeps(s: Shell, now: nat, later: nat, nextSweep: nat)
    requires ShellInv(s, now, nextSweep) && now <= later
    requires s.resumeDue.Some? ==> later <= s.resumeDue.value
    requires forall ws | ws in s.socks :: !s.socks[ws].ready.Terminated?
    ensures ShellInv(s, later, nextSweep)
  {
  }

  // ---------------------------------------------------------------------------------------------
  // The registry and its timers
  // ---------------------------------------------------------------------------------------------

  /**
   A registered shell is live, its grace timer is pending exactly when its socket set is empty and is due
   `RECONNECT_GRACE_MS` after the last socket left; it holds no closed socket except a lost one.
   */
  ghost predicate EntryInv(c: Container, s: Shell, timers: map<TimerId, Grace>) {
    && s.container == c && s.stream.Live?
    && (s.sockets == {} <==> s.grace.Some?)
    && (s.grace.Some? ==>
          && Lookup(timers, s.grace.value) == Some(Grace(c, s.emptySince + RECONNECT_GRACE_MS))
          && s.emptySince <= s.heard + 2 * PING_MS)
    && (forall ws | ws in s.sockets && ws in s.socks && s.socks[ws].ready.Closed? :: s.socks[ws].lost)
  }

  ghost predicate RegistryInv(w: World) {
    forall c | c in w.registry :: w.registry[c] in w.shells && EntryInv(c, w.shells[w.registry[c]], w.timers)
  }

  ghost predicate TimersInv(w: World) {
    forall id | id in w.timers :: id < w.nextTimer && w.now <= w.timers[id].due <= w.now + RECONNECT_GRACE_MS
  }

  /** What the clock, the shells and the waiting sockets meet. */
  ghost predicate ShellsInv(w: World) {
    && w.now <= w.nextSweep <= w.now + PING_MS
    && (forall sh | sh in w.shells :: ShellInv(w.shells[sh], w.now, w.nextSweep))
    && (forall ws | ws in w.waiting ::
          Fresh(w.waiting[ws].ready, w.waiting[ws].alive, w.waiting[ws].heard, w.now, w.nextSweep))
  }

  ghost predicate WorldInv(w: World) {
    ShellsInv(w) && OwnerInv(w) && TimersInv(w) && RegistryInv(w)
  }

  // ---------------------------------------------------------------------------------------------
  // Steps keep `ShellsInv`
  // ---------------------------------------------------------------------------------------------

  lemma SetShellKeeps(w: World, sh: ShellId, t: Shell)
    requires ShellsInv(w) && ShellInv(t, w.now, w.nextSweep)
    ensures ShellsInv(SetShell(w, sh, t))
  {
  }

  lemma PutSocketKeeps(w: World, sh: ShellId, ws: SocketId, j: Socket)
    requires ShellsInv(w) && HasSocket(w, sh, ws)
    requires
      var k := w.shells[sh].socks[ws];
      && j.from == k.from && j.sent == k.sent && j.heard == k.heard && j.alive == k.alive && j.lost == k.lost
      && (j.ready == k.ready || j.ready.Closed? || (j.ready.Closing? && k.ready.Open?))
      && k.drained <= j.drained && k.backlog + k.drained <= j.backlog + j.drained
      && (k.control <= k.backlog ==> 0 <= j.backlog - j.control <= k.backlog - k.control)
    ensures ShellsInv(SetShell(w, sh, PutSocket(w.shells[sh], ws, j)))
  {
    var s := w.shells[sh];
    assert PingInv(s, w.now, w.nextSweep) && BackpressureInv(s, w.now);
    PutKeeps(s, ws, j, s.heard, w.now, w.nextSweep);
    assert s.(socks := s.socks[ws := j], heard := s.heard) == PutSocket(s, ws, j);
    SetShellKeeps(w, sh, PutSocket(s, ws, j));
  }

  lemma ReleaseShells(w: World, c: Container, ws: SocketId)
    requires ShellsInv(w)
    ensures ShellsInv(Release(w, c, ws))
  {
    if Registered(w, c).Some? {
      DropKeeps(w.shells[w.registry[c]], ws, w.nextTimer, w.now, w.nextSweep);
    }
  }

  lemma DoneKeeps(s: Shell, now: nat, nextSweep: nat)
    requires ShellInv(s, now, nextSweep)
    ensures ShellInv(CloseAll(s).(stream := Done), now, nextSweep)
  {
    CloseAllKeeps(s, now, nextSweep);
    var c := CloseAll(s);
    assert forall x | x in c.socks :: SliceOf(c, c.socks[x]) ==> SliceOf(c.(stream := Done), c.socks[x]);
  }

  lemma SweepAllShells(w: World)
    requires ShellsInv(w) && w.now == w.nextSweep
    ensures ShellsInv(SweepAll(w))
  {
    var v := SweepAll(w);
    forall sh | sh in v.shells
      ensures ShellInv(v.shells[sh], v.now, v.nextSweep)
    {
      SweepShellKeeps(w.shells[sh], w.now);
    }
  }

  lemma AdvanceShells(w: World, ms: nat)
    requires ShellsInv(w) && Quiet(w, w.now + ms)
    ensures ShellsInv(w.(now := w.now + ms))
  {
    forall sh | sh in w.shells
      ensures ShellInv(w.shells[sh], w.now + ms, w.nextSweep)
    {
      assert forall ws | ws in w.shells[sh].socks :: HasSocket(w, sh, ws);
      WaitKeeps(w.shells[sh], w.now, w.now + ms, w.nextSweep);
    }
  }

  lemma SameShells(w: World, v: World)
    requires ShellsInv(w) && v.shells == w.shells && v.now == w.now && v.nextSweep == w.nextSweep
    requires forall ws | ws in v.waiting ::
      Fresh(v.waiting[ws].ready, v.waiting[ws].alive, v.waiting[ws].heard, v.now, v.nextSweep)
    ensures ShellsInv(v)
  {
  }

  lemma AttachShells(w: World, ws: SocketId, c: Container, ready: Ready)
    requires ShellsInv(w) && Enabled(w, AttachStart(ws, c, ready))
    ensures ShellsInv(Attach(w, ws, c, ready))
  {
    if Registered(w, c).Some? {
      var s := w.shells[w.registry[c]];
      AddSocketKeeps(s, ws, ready, true, w.now, w.now, w.nextSweep);
      SetShellKeeps(w, w.registry[c], AddSocket(s, ws, ready, true, w.now));
    }
  }

  lemma RegisterShells(w: World, ws: SocketId, sh: ShellId)
    requires ShellsInv(w) && ws in w.waiting && sh !in w.shells
    ensures ShellsInv(Register(w, ws, sh))
  {
    var p := w.waiting[ws];
    AddSocketKeeps(NewShell(p.container, w.now), ws, p.ready, p.alive, p.heard, w.now, w.nextSweep);
    SetShellKeeps(w, sh, AddSocket(NewShell(p.container, w.now), ws, p.ready, p.alive, p.heard));
    SameShells(SetShell(w, sh, AddSocket(NewShell(p.container, w.now), ws, p.ready, p.alive, p.heard)),
      Register(w, ws, sh));
  }

  lemma EndShellShells(w: World, c: Container)
    requires ShellsInv(w)
    ensures ShellsInv(EndShell(w, c))
  {
    if Registered(w, c).Some? {
      var s := w.shells[w.registry[c]];
      CloseAllKeeps(s, w.now, w.nextSweep);
      EndStreamKeeps(CloseAll(s), w.now, w.nextSweep);
      SetShellKeeps(w, w.registry[c], EndStream(CloseAll(s)));
    }
  }

  lemma FireShells(w: World, id: TimerId)
    requires ShellsInv(w) && id in w.timers
    ensures ShellsInv(FireGrace(w, id))
  {
    var c := w.timers[id].container;
    if Registered(w, c).Some? {
      EndStreamKeeps(w.shells[w.registry[c]], w.now, w.nextSweep);
      SetShellKeeps(w, w.registry[c], EndStream(w.shells[w.registry[c]]));
    }
  }

  lemma EndShells(w: World, sh: ShellId)
    requires ShellsInv(w) && sh in w.shells
    ensures ShellsInv(StreamEnded(w, sh))
  {
    DoneKeeps(w.shells[sh], w.now, w.nextSweep);
    SetShellKeeps(w, sh, CloseAll(w.shells[sh]).(stream := Done));
  }

  lemma CloseShells(w: World, sh: ShellId, ws: SocketId)
    requires ShellsInv(w) && HasSocket(w, sh, ws)
    ensures ShellsInv(SocketClosed(w, sh, ws))
  {
    PutSocketKeeps(w, sh, ws, w.shells[sh].socks[ws].(ready := Closed));
    ReleaseShells(SetReady(w, sh, ws, Closed), w.shells[sh].container, ws);
  }

  lemma PongShells(w: World, sh: ShellId, ws: SocketId)
    requires ShellsInv(w) && Enabled(w, Pong(sh, ws))
    ensures ShellsInv(ReceivePong(w, sh, ws))
  {
    var s := w.shells[sh];
    var j := s.socks[ws].(alive := true, heard := w.now);
    assert PingInv(s, w.now, w.nextSweep) && BackpressureInv(s, w.now);
    PutKeeps(s, ws, j, w.now, w.now, w.nextSweep);
    SetShellKeeps(w, sh, s.(socks := s.socks[ws := j], heard := w.now));
  }

  lemma DataShells(w: World, sh: ShellId, chunk: seq<Byte>)
    requires ShellsInv(w) && Enabled(w, Data(sh, chunk))
    ensures ShellsInv(ReceiveData(w, sh, chunk))
  {
    DataKeeps(w.shells[sh], chunk, w.now, w.nextSweep);
    SetShellKeeps(w, sh, Backpressure(Deliver(w.shells[sh], chunk), w.now));
  }

  lemma TickShells(w: World, sh: ShellId)
    requires ShellsInv(w) && Enabled(w, Tick(sh))
    ensures ShellsInv(CheckResume(w, sh))
  {
    SetShellKeeps(w, sh, ResumeCheck(w.shells[sh], w.now));
  }

  /** Steps inside one shell. */
  ghost predicate Inner(e: Event) {
    e.Data? || e.Tick? || e.BeginClose? || e.Drained? || e.Control? || e.Pong?
  }

  lemma InnerShells(w: World, e: Event)
    requires ShellsInv(w) && Enabled(w, e) && Inner(e)
    ensures ShellsInv(Next(w, e))
  {
    match e
    case Pong(sh, ws) => PongShells(w, sh, ws);
    case Data(sh, chunk) => DataShells(w, sh, chunk);
    case Tick(sh) => TickShells(w, sh);
    case BeginClose(sh, ws) => PutSocketKeeps(w, sh, ws, w.shells[sh].socks[ws].(ready := Closing));
    case Drained(sh, ws, n, c) => PutSocketKeeps(w, sh, ws, Drain(w.shells[sh].socks[ws], n, c));
    case Control(sh, ws, n) => PutSocketKeeps(w, sh, ws, QueueControl(w.shells[sh].socks[ws], n));
  }

  /** Steps of the registry. */
  ghost predicate Outer(e: Event) {
    e.AttachStart? || e.AttachDone? || e.Close? || e.End? || e.Fire? || e.Destroy?
  }

  lemma OuterShells(w: World, e: Event)
    requires ShellsInv(w) && Enabled(w, e) && Outer(e)
    ensures ShellsInv(Next(w, e))
  {
    match e
    case AttachStart(ws, c, ready) => AttachShells(w, ws, c, ready);
    case AttachDone(ws, sh) => RegisterShells(w, ws, sh);
    case Close(sh, ws) => CloseShells(w, sh, ws);
    case End(sh) => EndShells(w, sh);
    case Fire(id) => FireShells(w, id);
    case Destroy(c) => EndShellShells(w, c);
  }

  lemma StepShells(w: World, e: Event)
    requires ShellsInv(w) && Enabled(w, e)
    ensures ShellsInv(Next(w, e))
  {
    if Outer(e) { OuterShells(w, e); }
    else if Inner(e) { InnerShells(w, e); }
    else if e.Sweep? { SweepAllShells(w); }
    else if e.Advance? { AdvanceShells(w, e.ms); }
    else { SameShells(w, Next(w, e)); }
  }

  // ---------------------------------------------------------------------------------------------
  // A socket belongs to one shell
  // ---------------------------------------------------------------------------------------------

  ghost predicate OwnerInv(w: World) {
    && (forall a, b, ws | HasSocket(w, a, ws) && HasSocket(w, b, ws) :: a == b)
    && (forall sh, ws | HasSocket(w, sh, ws) :: ws !in w.waiting)
  }

  /** No step but an attach gives a shell a socket. */
  ghost predicate SameSockets(w: World, v: World) {
    && (forall sh, ws | HasSocket(v, sh, ws) :: HasSocket(w, sh, ws))
    && (forall ws | ws in v.waiting :: ws in w.waiting)
  }

  lemma InnerOwner(w: World, e: Event)
    requires Enabled(w, e) && Inner(e)
    ensures SameSockets(w, Next(w, e))
  {
  }

  lemma OuterOwner(w: World, e: Event)
    requires Enabled(w, e) && !Inner(e) && !e.AttachStart? && !e.AttachDone?
    ensures SameSockets(w, Next(w, e))
  {
  }

  lemma AttachOwner(w: World, e: Event)
    requires OwnerInv(w) && Enabled(w, e) && (e.AttachStart? || e.AttachDone?)
    ensures OwnerInv(Next(w, e))
  {
    var v := Next(w, e);
    forall sh, ws | HasSocket(v, sh, ws)
      ensures HasSocket(w, sh, ws) || (e.AttachStart? && e.ws == ws && e.container in w.registry
        && w.registry[e.container] == sh)
           || (e.AttachDone? && e.ws == ws && e.shell == sh)
    {
    }
  }

  lemma StepOwner(w: World, e: Event)
    requires OwnerInv(w) && Enabled(w, e)
    ensures OwnerInv(Next(w, e))
  {
    if e.AttachStart? || e.AttachDone? { AttachOwner(w, e); }
    else if Inner(e) { InnerOwner(w, e); }
    else { OuterOwner(w, e); }
  }

  // ---------------------------------------------------------------------------------------------
  // Steps keep `RegistryInv`
  // ---------------------------------------------------------------------------------------------

  /** A change inside one shell that the registry cannot see. */
  ghost predicate SameToRegistry(s: Shell, t: Shell) {
    && t.container == s.container && t.stream == s.stream && t.sockets == s.sockets
    && t.grace == s.grace && t.emptySince == s.emptySince && s.heard <= t.heard
    && t.socks.Keys == s.socks.Keys
    && (forall ws | ws in t.sockets && ws in t.socks && t.socks[ws].ready.Closed? ::
          s.socks[ws].ready.Closed? && t.socks[ws].lost == s.socks[ws].lost)
  }

  /** If every shell looks the same to the registry, so do its entries. */
  lemma SameKeeps(w: World, v: World)
    requires TimersInv(w) && RegistryInv(w)
    requires v.registry == w.registry && v.timers == w.timers && v.nextTimer == w.nextTimer && v.now == w.now
    requires forall sh | sh in w.shells :: sh in v.shells && SameToRegistry(w.shells[sh], v.shells[sh])
    ensures TimersInv(v) && RegistryInv(v)
  {
    forall c | c in v.registry
      ensures v.registry[c] in v.shells && EntryInv(c, v.shells[v.registry[c]], v.timers)
    {
      assert EntryInv(c, w.shells[w.registry[c]], w.timers);
      assert SameToRegistry(w.shells[w.registry[c]], v.shells[v.registry[c]]);
    }
  }

  lemma AttachRegistry(w: World, ws: SocketId, c: Container, ready: Ready)
    requires TimersInv(w) && RegistryInv(w)
    ensures TimersInv(Attach(w, ws, c, ready)) && RegistryInv(Attach(w, ws, c, ready))
  {
    var v := Attach(w, ws, c, ready);
    assert c in w.registry ==> EntryInv(c, w.shells[w.registry[c]], w.timers);
    forall d | d in v.registry
      ensures v.registry[d] in v.shells && EntryInv(d, v.shells[v.registry[d]], v.timers)
    {
      assert EntryInv(d, w.shells[w.registry[d]], w.timers);
    }
  }

  lemma RegisterRegistry(w: World, ws: SocketId, sh: ShellId)
    requires TimersInv(w) && RegistryInv(w) && sh !in w.shells
    ensures TimersInv(Register(w, ws, sh)) && RegistryInv(Register(w, ws, sh))
  {
    var v := Register(w, ws, sh);
    forall d | d in v.registry
      ensures v.registry[d] in v.shells && EntryInv(d, v.shells[v.registry[d]], v.timers)
    {
      assert d in w.registry ==> EntryInv(d, w.shells[w.registry[d]], w.timers);
    }
  }

  lemma FireRegistry(w: World, id: TimerId)
    requires TimersInv(w) && RegistryInv(w) && id in w.timers
    ensures TimersInv(FireGrace(w, id)) && RegistryInv(FireGrace(w, id))
  {
    var v := FireGrace(w, id);
    forall d | d in v.registry
      ensures v.registry[d] in v.shells && EntryInv(d, v.shells[v.registry[d]], v.timers)
    {
      assert EntryInv(d, w.shells[w.registry[d]], w.timers);
      var c := w.timers[id].container;
      assert c in w.registry ==> EntryInv(c, w.shells[w.registry[c]], w.timers);
    }
  }

  lemma EndShellRegistry(w: World, c: Container)
    requires TimersInv(w) && RegistryInv(w)
    ensures TimersInv(EndShell(w, c)) && RegistryInv(EndShell(w, c))
  {
    var v := EndShell(w, c);
    forall d | d in v.registry
      ensures v.registry[d] in v.shells && EntryInv(d, v.shells[v.registry[d]], v.timers)
    {
      assert EntryInv(d, w.shells[w.registry[d]], w.timers);
      assert c in w.registry ==> EntryInv(c, w.shells[w.registry[c]], w.timers);
    }
  }

  lemma EndRegistry(w: World, sh: ShellId)
    requires TimersInv(w) && RegistryInv(w) && sh in w.shells
    ensures TimersInv(StreamEnded(w, sh)) && RegistryInv(StreamEnded(w, sh))
  {
    var v := StreamEnded(w, sh);
    forall d | d in v.registry
      ensures v.registry[d] in v.shells && EntryInv(d, v.shells[v.registry[d]], v.timers)
    {
      assert EntryInv(d, w.shells[w.registry[d]], w.timers);
    }
  }

  /** A registered shell's socket that is not closed keeps the shell from having been silent for two sweeps. */
  lemma HeardRecently(s: Shell, ws: SocketId, now: nat, nextSweep: nat)
    requires PingInv(s, now, nextSweep) && now <= nextSweep && ws in s.socks && !s.socks[ws].ready.Closed?
    ensures now <= s.socks[ws].heard + 2 * PING_MS && now <= s.heard + 2 * PING_MS
  {
  }

  /**
   `Release` drops `ws` from the shell registered for `c`, and starts that shell's grace timer when it was the
   last.
   */
  lemma ReleaseRegistry(w: World, c: Container, ws: SocketId)
    requires TimersInv(w)
    requires forall d | d in w.registry && d != c ::
      w.registry[d] in w.shells && EntryInv(d, w.shells[w.registry[d]], w.timers)
    requires c in w.registry ==>
      w.registry[c] in w.shells
      && ReleasingInv(c, w.shells[w.registry[c]], w.timers, ws, w.now)
    ensures TimersInv(Release(w, c, ws)) && RegistryInv(Release(w, c, ws))
  {
    var v := Release(w, c, ws);
    if c in w.registry {
      var s := w.shells[w.registry[c]];
      assert ReleasingInv(c, s, w.timers, ws, w.now);
      assert EntryInv(c, v.shells[w.registry[c]], v.timers);
    }
    forall d | d in v.registry && d != c
      ensures v.registry[d] in v.shells && EntryInv(d, v.shells[v.registry[d]], v.timers)
    {
      assert EntryInv(d, w.shells[w.registry[d]], w.timers);
      assert c in w.registry ==> w.shells[w.registry[c]].container == c;
      assert c in w.registry ==> w.registry[c] != w.registry[d];
    }
  }

  /** `EntryInv` for a shell whose socket `ws` has closed and is about to be dropped. */
  ghost predicate ReleasingInv(c: Container, s: Shell, timers: map<TimerId, Grace>, ws: SocketId, now: nat) {
    && s.container == c && s.stream.Live?
    && (s.sockets == {} <==> s.grace.Some?)
    && (s.grace.Some? ==>
          && Lookup(timers, s.grace.value) == Some(Grace(c, s.emptySince + RECONNECT_GRACE_MS))
          && s.emptySince <= s.heard + 2 * PING_MS)
    && (ws in s.sockets ==> now <= s.heard + 2 * PING_MS)
    && (forall x | x in s.sockets && x in s.socks && s.socks[x].ready.Closed? :: s.socks[x].lost || x == ws)
  }

  lemma CloseRegistry(w: World, sh: ShellId, ws: SocketId)
    requires TimersInv(w) && RegistryInv(w) && OwnerInv(w) && HasSocket(w, sh, ws)
    requires w.now <= w.shells[sh].heard + 2 * PING_MS
    requires forall x | x in w.shells :: w.shells[x].sockets <= w.shells[x].socks.Keys
    ensures TimersInv(SocketClosed(w, sh, ws)) && RegistryInv(SocketClosed(w, sh, ws))
  {
    var v := SetReady(w, sh, ws, Closed);
    var c := w.shells[sh].container;
    forall d | d in w.registry
      ensures w.registry[d] in w.shells && EntryInv(d, w.shells[w.registry[d]], w.timers)
      ensures d != c ==> w.registry[d] != sh && v.shells[w.registry[d]] == w.shells[w.registry[d]]
      ensures ws in w.shells[w.registry[d]].sockets ==> w.registry[d] == sh
    {
      assert ws in w.shells[w.registry[d]].sockets ==> HasSocket(w, w.registry[d], ws);
    }
    ReleaseRegistry(v, c, ws);
  }

  lemma InnerLooksSame(w: World, e: Event)
    requires Enabled(w, e) && Inner(e) && !e.Pong?
    ensures SameToRegistry(w.shells[e.shell], Next(w, e).shells[e.shell])
  {
  }

  lemma InnerRegistry(w: World, e: Event)
    requires TimersInv(w) && RegistryInv(w) && Enabled(w, e) && Inner(e) && !e.Pong?
    ensures TimersInv(Next(w, e)) && RegistryInv(Next(w, e))
  {
    InnerLooksSame(w, e);
    var v := Next(w, e);
    assert v == w.(shells := w.shells[e.shell := v.shells[e.shell]]);
    SameKeeps(w, v);
  }

  lemma PongRegistry(w: World, sh: ShellId, ws: SocketId)
    requires TimersInv(w) && RegistryInv(w) && Enabled(w, Pong(sh, ws)) && w.shells[sh].heard <= w.now
    ensures TimersInv(ReceivePong(w, sh, ws)) && RegistryInv(ReceivePong(w, sh, ws))
  {
    SameKeeps(w, ReceivePong(w, sh, ws));
  }

  /** Steps that change neither the registry nor a timer nor what the registry sees of a shell. */
  lemma SameRegistry(w: World, e: Event)
    requires TimersInv(w) && RegistryInv(w) && Enabled(w, e)
    requires e.AttachFail? || e.CloseWaiting? || e.PongWaiting? || e.Sweep?
    ensures TimersInv(Next(w, e)) && RegistryInv(Next(w, e))
  {
    SameKeeps(w, Next(w, e));
  }

  lemma StepRegistry(w: World, e: Event)
    requires WorldInv(w) && Enabled(w, e)
    ensures TimersInv(Next(w, e)) && RegistryInv(Next(w, e))
  {
    if e.AttachStart? { AttachRegistry(w, e.ws, e.container, e.ready); }
    else if e.AttachDone? { RegisterRegistry(w, e.ws, e.shell); }
    else if e.End? { EndRegistry(w, e.shell); }
    else if e.Fire? { FireRegistry(w, e.timer); }
    else if e.Destroy? { EndShellRegistry(w, e.container); }
    else if e.Advance? { AdvanceRegistry(w, e.ms); }
    else if e.Close? {
      HeardRecently(w.shells[e.shell], e.ws, w.now, w.nextSweep);
      CloseRegistry(w, e.shell, e.ws);
    }
    else if e.Pong? { PongRegistry(w, e.shell, e.ws); }
    else if Inner(e) { InnerRegistry(w, e); }
    else { SameRegistry(w, e); }
  }

  lemma AdvanceRegistry(w: World, ms: nat)
    requires TimersInv(w) && RegistryInv(w) && Quiet(w, w.now + ms)
    ensures TimersInv(w.(now := w.now + ms)) && RegistryInv(w.(now := w.now + ms))
  {
    assert forall c | c in w.registry :: EntryInv(c, w.shells[w.registry[c]], w.timers);
  }

  // ---------------------------------------------------------------------------------------------
  // Runs
  // ---------------------------------------------------------------------------------------------

  lemma BootInv(now: nat)
    ensures WorldInv(Boot(now))
  {
  }

  /** Every run, of any length and any interleaving, keeps the invariant. */
  lemma {:induction false} RunKeeps(w: World, es: seq<Event>)
    requires WorldInv(w) && Run(w, es)
    ensures WorldInv(After(w, es))
    decreases |es|
  {
    if es != [] {
      StepShells(w, es[0]);
      StepOwner(w, es[0]);
      StepRegistry(w, es[0]);
      RunKeeps(Next(w, es[0]), es[1..]);
    }
  }
}
