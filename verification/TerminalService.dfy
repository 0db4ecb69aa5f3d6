/**
 The registry as the service runs it: handlers and timer callbacks that change the maps in place and loop
 over socket sets. Every method is one step of `TerminalModel`; a shell reference held by a closure is its id.
 */
module TerminalService {
  import opened Options
  import opened TerminalModel
  import opened TerminalInvariants
  import opened TerminalTheorems

  class ExecRegistry {
    var now: nat
    var nextSweep: nat
    var execRegistry: map<Container, ShellId>
    var shells: map<ShellId, Shell>
    var waiting: map<SocketId, Waiting>
    var timers: map<TimerId, Grace>
    var nextTimer: TimerId

    constructor (start: nat)
      ensures State() == Boot(start)
    {
      now, nextSweep := start, start + PING_MS;
      execRegistry, shells, waiting, timers, nextTimer := map[], map[], map[], map[], 0;
    }

    ghost function State(): World
      reads this
    {
      World(now, nextSweep, execRegistry, shells, waiting, timers, nextTimer)
    }

    /** What the handlers rely on. */
    ghost predicate Sound()
      reads this
    {
      && (forall c | c in execRegistry :: execRegistry[c] in shells)
      && (forall sh | sh in shells :: shells[sh].sockets <= shells[sh].socks.Keys)
    }

    /** What the handlers ask of the state holds whenever it is one that a run reaches. */
    lemma ReachedIsSound(start: nat, es: seq<Event>)
      requires Reached(State(), start, es)
      ensures Sound()
    {
      ReachedInv(State(), start, es);
      assert forall sh | sh in shells :: SliceInv(State().shells[sh]);
    }

    /** The bridge up to its await: join the registered shell, or wait for the first exec. */
    method AttachOrCreateShell(ws: SocketId, c: Container, ready: Ready) returns (resumed: bool)
      requires Sound() && Enabled(State(), AttachStart(ws, c, ready))
      modifies this
      ensures resumed == (c in old(execRegistry))
      ensures State() == Next(old(State()), AttachStart(ws, c, ready))
    {
      resumed := c in execRegistry;
      if resumed {
        var sh := execRegistry[c];
        var session := shells[sh];
        if session.grace.Some? {
          timers := timers - {session.grace.value};
          session := session.(grace := None);
        }
        session := session.(sockets := session.sockets + {ws}, heard := Max(session.heard, now));
        session := session.(socks := session.socks[ws := Socket(ready, ready.Closed?, true, now, |session.output|, [],
          0, 0, 0)]);
        shells := shells[sh := session];
      } else {
        waiting := waiting[ws := Waiting(c, ready, true, now)];
      }
    }

    /** The bridge after its await: the exec runs, its session is registered and the socket joins it. */
    method ExecStarted(ws: SocketId, sh: ShellId)
      requires Enabled(State(), AttachDone(ws, sh))
      modifies this
      ensures State() == Next(old(State()), AttachDone(ws, sh))
    {
      var p := waiting[ws];
      waiting := waiting - {ws};
      var session := NewShell(p.container, now);
      execRegistry := execRegistry[p.container := sh];
      session := session.(sockets := {ws}, heard := p.heard);
      session := session.(socks := map[ws := Socket(p.ready, p.ready.Closed?, p.alive, p.heard, 0, [], 0, 0, 0)]);
      assert session == AddSocket(NewShell(p.container, now), ws, p.ready, p.alive, p.heard);
      shells := shells[sh := session];
    }

    /** `ws.send(chunk)` on every attached socket that is open. */
    method SendToSockets(s: Shell, chunk: seq<Byte>) returns (t: Shell)
      requires s.sockets <= s.socks.Keys
      ensures t == Deliver(s, chunk)
    {
      t := s.(output := s.output + chunk, lastChunk := |chunk|);
      var todo := s.sockets;
      while todo != {}
        invariant todo <= s.sockets
        invariant t == s.(output := s.output + chunk, lastChunk := |chunk|, socks := t.socks)
        invariant t.socks == map ws | ws in s.socks ::
          if ws in s.sockets - todo then Send(s.socks[ws], chunk) else s.socks[ws]
      {
        var ws :| ws in todo;
        var k := t.socks[ws];
        if k.ready.Open? {
          t := t.(socks := t.socks[ws := k.(sent := k.sent + chunk, backlog := k.backlog + |chunk|)]);
        }
        todo := todo - {ws};
      }
    }

    method OnData(sh: ShellId, chunk: seq<Byte>)
      requires Sound() && Enabled(State(), Data(sh, chunk))
      modifies this
      ensures State() == Next(old(State()), Data(sh, chunk))
    {
      var t := SendToSockets(shells[sh], chunk);
      shells := shells[sh := t];
      MaybeApplyBackpressure(sh);
    }

    method MaybeApplyBackpressure(sh: ShellId)
      requires sh in shells && shells[sh].sockets <= shells[sh].socks.Keys
      modifies this
      ensures State() == SetShell(old(State()), sh, Backpressure(old(shells)[sh], now))
    {
      var s := shells[sh];
      if s.paused {
        assert shells == shells[sh := s];
        return;
      }
      var overLimit := false;
      var todo := s.sockets;
      while todo != {}
        invariant todo <= s.sockets
        invariant !overLimit
        invariant forall ws | ws in s.sockets - todo :: s.socks[ws].backlog <= PAUSE_BYTES
      {
        var ws :| ws in todo;
        todo := todo - {ws};
        if s.socks[ws].backlog > PAUSE_BYTES {
          overLimit := true;
          assert ws in OverLimit(s);
          break;
        }
      }
      if !overLimit {
        assert OverLimit(s) == {};
        assert shells == shells[sh := s];
        return;
      }
      var over := map w | w in s.sockets && s.socks[w].backlog > PAUSE_BYTES :: s.socks[w].drained;
      assert over == map w | w in OverLimit(s) && w in s.socks :: s.socks[w].drained;
      s := s.(paused := true, resumeDue := Some(now + CHECK_MS), over := over);
      assert s == Backpressure(old(shells)[sh], now);
      shells := shells[sh := s];
    }

    /** The interval callback set while the shell is paused. */
    method OnResumeCheck(sh: ShellId)
      requires Sound() && Enabled(State(), Tick(sh))
      modifies this
      ensures State() == Next(old(State()), Tick(sh))
    {
      var s := shells[sh];
      var allDrained := true;
      var todo := s.sockets;
      while todo != {}
        invariant todo <= s.sockets
        invariant allDrained
        invariant forall ws | ws in s.sockets - todo :: s.socks[ws].backlog < RESUME_BYTES
      {
        var ws :| ws in todo;
        todo := todo - {ws};
        if s.socks[ws].backlog >= RESUME_BYTES {
          allDrained := false;
          assert !AllDrained(s);
          break;
        }
      }
      if allDrained {
        shells := shells[sh := s.(paused := false, resumeDue := None)];
      } else {
        shells := shells[sh := s.(resumeDue := Some(now + CHECK_MS))];
      }
    }

    /** `ws.close()` on every attached socket. */
    method CloseSockets(s: Shell) returns (t: Shell)
      requires s.sockets <= s.socks.Keys
      ensures t == CloseAll(s)
    {
      t := s;
      var todo := s.sockets;
      while todo != {}
        invariant todo <= s.sockets
        invariant t == s.(socks := t.socks)
        invariant t.socks == map ws | ws in s.socks ::
          if ws in s.sockets - todo then CloseSocket(s.socks[ws]) else s.socks[ws]
      {
        var ws :| ws in todo;
        if t.socks[ws].ready.Open? {
          t := t.(socks := t.socks[ws := t.socks[ws].(ready := Closing)]);
        }
        todo := todo - {ws};
      }
    }

    method OnStreamEnd(sh: ShellId)
      requires Sound() && Enabled(State(), End(sh))
      modifies this
      ensures State() == Next(old(State()), End(sh))
    {
      var s := CloseSockets(shells[sh]);
      shells := shells[sh := s.(stream := Done)];
      execRegistry := execRegistry - {s.container};
    }

    method ReleaseSocket(c: Container, ws: SocketId)
      modifies this
      ensures State() == Release(old(State()), c, ws)
    {
      if c !in execRegistry || execRegistry[c] !in shells { return; }
      var sh := execRegistry[c];
      shells := shells[sh := shells[sh].(sockets := shells[sh].sockets - {ws})];
      if |shells[sh].sockets| > 0 || shells[sh].grace.Some? { return; }
      shells := shells[sh := shells[sh].(grace := Some(nextTimer), emptySince := now)];
      timers := timers[nextTimer := Grace(c, now + RECONNECT_GRACE_MS)];
      nextTimer := nextTimer + 1;
    }

    /** The close listener `bridge` registers. */
    method OnClose(sh: ShellId, ws: SocketId)
      requires Enabled(State(), Close(sh, ws))
      modifies this
      ensures State() == Next(old(State()), Close(sh, ws))
    {
      var s := shells[sh];
      shells := shells[sh := s.(socks := s.socks[ws := s.socks[ws].(ready := Closed)])];
      ReleaseSocket(s.container, ws);
    }

    /** The grace callback: it looks the container up again. */
    method OnGraceTimer(id: TimerId)
      requires Enabled(State(), Fire(id))
      modifies this
      ensures State() == Next(old(State()), Fire(id))
    {
      var c := timers[id].container;
      timers := timers - {id};
      if c !in execRegistry || execRegistry[c] !in shells { return; }
      var sh := execRegistry[c];
      var current := shells[sh];
      if |current.sockets| > 0 { return; }
      if current.resumeDue.Some? {
        current := current.(resumeDue := None);
      }
      shells := shells[sh := current.(stream := if current.stream.Live? then EndCalled else current.stream)];
      execRegistry := execRegistry - {c};
    }

    method EndShellSession(c: Container)
      requires Sound()
      modifies this
      ensures State() == Next(old(State()), Destroy(c))
    {
      if c !in execRegistry { return; }
      var sh := execRegistry[c];
      if shells[sh].grace.Some? { timers := timers - {shells[sh].grace.value}; }
      var s := CloseSockets(shells[sh]);
      shells := shells[sh := s.(resumeDue := None, stream := if s.stream.Live? then EndCalled else s.stream)];
      execRegistry := execRegistry - {c};
    }

    /** The shells with the sockets in `swept` already visited by the sweep. */
    static ghost function Partly(shells: map<ShellId, Shell>, swept: set<(ShellId, SocketId)>): map<ShellId, Shell> {
      map sh | sh in shells :: shells[sh].(socks :=
        map ws | ws in shells[sh].socks ::
          if (sh, ws) in swept then SweepSocket(shells[sh].socks[ws]) else shells[sh].socks[ws])
    }

    static lemma SweepOne(shells: map<ShellId, Shell>, swept: set<(ShellId, SocketId)>, sh: ShellId, ws: SocketId)
      requires sh in shells && ws in shells[sh].socks && (sh, ws) !in swept
      ensures
        var p := Partly(shells, swept);
        sh in p && ws in p[sh].socks && p[sh].socks[ws] == shells[sh].socks[ws] &&
        Partly(shells, swept + {(sh, ws)})
        == p[sh := p[sh].(socks := p[sh].socks[ws := SweepSocket(shells[sh].socks[ws])])]
    {
      var p := Partly(shells, swept);
      var q := Partly(shells, swept + {(sh, ws)});
      assert q[sh].socks == p[sh].socks[ws := SweepSocket(shells[sh].socks[ws])];
      forall x | x in shells && x != sh
        ensures q[x].socks == p[x].socks
      {
      }
    }

    static lemma SweepEnds(shells: map<ShellId, Shell>, clients: set<(ShellId, SocketId)>)
      ensures Partly(shells, {}) == shells
      ensures (forall sh, ws | sh in shells && ws in shells[sh].socks :: (sh, ws) in clients) ==>
        Partly(shells, clients) == map sh | sh in shells :: SweepShell(shells[sh])
    {
      forall sh | sh in shells
        ensures Partly(shells, {})[sh].socks == shells[sh].socks
        ensures (forall ws | ws in shells[sh].socks :: (sh, ws) in clients) ==>
          Partly(shells, clients)[sh].socks == SweepShell(shells[sh]).socks
      {
      }
      assert Partly(shells, {}) == shells;
    }

    /** The sweep's loop over its clients. */
    static method SweepClients(shells: map<ShellId, Shell>, clients: set<(ShellId, SocketId)>)
      returns (r: map<ShellId, Shell>)
      requires forall p | p in clients :: p.0 in shells && p.1 in shells[p.0].socks
      ensures r == Partly(shells, clients)
    {
      r := shells;
      var todo := clients;
      SweepEnds(shells, clients);
      assert clients - todo == {};
      while todo != {}
        invariant todo <= clients
        invariant r == Partly(shells, clients - todo)
      {
        var client :| client in todo;
        var (sh, ws) := client;
        SweepOne(shells, clients - todo, sh, ws);
        assert clients - (todo - {client}) == (clients - todo) + {(sh, ws)};
        var k := r[sh].socks[ws];
        if !k.ready.Closed? && !k.ready.Terminated? {
          if !k.alive { k := k.(ready := Terminated); } else { k := k.(alive := false); }
        }
        r := r[sh := r[sh].(socks := r[sh].socks[ws := k])];
        todo := todo - {client};
      }
      assert clients - {} == clients;
    }

    /** Every client that has not answered since the last sweep is terminated; the others are pinged. */
    method HeartbeatSweep()
      requires Enabled(State(), Sweep)
      modifies this
      ensures State() == Next(old(State()), Sweep)
    {
      var clients := set sh, ws | sh in shells && ws in shells[sh].socks :: (sh, ws);
      SweepEnds(shells, clients);
      shells := SweepClients(shells, clients);
      waiting := map ws | ws in waiting :: SweepWaiting(waiting[ws]);
      nextSweep := nextSweep + PING_MS;
    }
  }
}
