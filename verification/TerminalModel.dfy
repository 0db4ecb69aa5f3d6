/**
 The terminal exec registry as a transition system: one step per stretch of code between two awaits,
 and one per timer, stream or socket event. `TerminalService` runs the same steps in place.
 */
module TerminalModel {
  import opened Options

  type Container = nat
  type ShellId = nat
  type SocketId = nat
  type TimerId = nat
  newtype Byte = b: int | 0 <= b < 256

  const RECONNECT_GRACE_MS: nat := 120_000
  const PAUSE_BYTES: nat := 4 * 1024 * 1024
  const RESUME_BYTES: nat := 1024 * 1024
  const CHECK_MS: nat := 250
  const PING_MS: nat := 30_000

  // ---------------------------------------------------------------------------------------------
  // State
  // ---------------------------------------------------------------------------------------------

  /** `Terminated` is a socket the ping sweep gave up on whose close event is still to be delivered. */
  datatype Ready = Open | Closing | Terminated | Closed

  /** `EndCalled` is a stream we have ended ourselves whose end event is still to come. */
  datatype Stream = Live | EndCalled | Done

  /**
   A bridged socket. `lost` marks one that closed before its close listener was registered; `heard` is
   the time of its bridging or last pong. `from`, `sent` and `drained` are history: the shell's output
   length when it attached, the shell bytes it was sent, and how much of its backlog has left.
   `control` counts the bytes of every other frame (banner, pings, close) still queued in `backlog`.
   */
  datatype Socket = Socket(
    ready: Ready, lost: bool, alive: bool, heard: nat,
    from: nat, sent: seq<Byte>, backlog: nat, control: nat, drained: nat)

  /**
   One shell exec session; `socks` holds every socket that was ever attached to it and `sockets` those
   attached now. History: `output` is all it printed, `lastChunk` the size of the last piece, `emptySince`
   when its last socket left, `heard` when one of its sockets was last heard from, and `over` the sockets
   that caused the last pause with what each had drained by then.
   */
  datatype Shell = Shell(
    container: Container, sockets: set<SocketId>, socks: map<SocketId, Socket>,
    grace: Option<TimerId>, paused: bool, resumeDue: Option<nat>, stream: Stream,
    output: seq<Byte>, lastChunk: nat, emptySince: nat, heard: nat, over: map<SocketId, nat>)

  /** A socket whose bridge awaits the container's first exec. */
  datatype Waiting = Waiting(container: Container, ready: Ready, alive: bool, heard: nat)

  /** A pending grace timer: the callback captures the container id, not the shell. */
  datatype Grace = Grace(container: Container, due: nat)

  datatype World = World(
    now: nat, nextSweep: nat, registry: map<Container, ShellId>, shells: map<ShellId, Shell>,
    waiting: map<SocketId, Waiting>, timers: map<TimerId, Grace>, nextTimer: TimerId)

  function Boot(now: nat): World {
    World(now, now + PING_MS, map[], map[], map[], map[], 0)
  }

  // ---------------------------------------------------------------------------------------------
  // What happens to one shell
  // ---------------------------------------------------------------------------------------------

  function Max(a: nat, b: nat): nat { if a < b then b else a }

  function NewShell(c: Container, now: nat): Shell {
    Shell(c, {}, map[], None, false, None, Live, [], 0, now, 0, map[])
  }

  function AddSocket(s: Shell, ws: SocketId, ready: Ready, alive: bool, heard: nat): Shell {
    s.(sockets := s.sockets + {ws},
       socks := s.socks[ws := Socket(ready, ready.Closed?, alive, heard, |s.output|, [], 0, 0, 0)],
       grace := None,
       heard := Max(s.heard, heard))
  }

  function Send(k: Socket, chunk: seq<Byte>): Socket {
    if k.ready.Open? then k.(sent := k.sent + chunk, backlog := k.backlog + |chunk|) else k
  }

  /** The backlog holds `n` bytes of shell output and `c` of other frames to send. */
  predicate CanDrain(k: Socket, n: nat, c: nat) { c <= k.control && n + k.control <= k.backlog }

  /** These have gone out. */
  function Drain(k: Socket, n: nat, c: nat): Socket {
    if CanDrain(k, n, c) then k.(backlog := k.backlog - n - c, control := k.control - c, drained := k.drained + n + c)
      else k
  }

  /** A frame that is not shell output: the reconnect banner, a ping, a close. */
  function QueueControl(k: Socket, n: nat): Socket {
    k.(backlog := k.backlog + n, control := k.control + n)
  }

  function Deliver(s: Shell, chunk: seq<Byte>): Shell {
    s.(output := s.output + chunk,
       lastChunk := |chunk|,
       socks := map ws | ws in s.socks :: if ws in s.sockets then Send(s.socks[ws], chunk) else s.socks[ws])
  }

  /** The attached sockets over the pause limit. */
  function OverLimit(s: Shell): set<SocketId> {
    set ws | ws in s.sockets && ws in s.socks && s.socks[ws].backlog > PAUSE_BYTES
  }

  function Backpressure(s: Shell, now: nat): Shell {
    if s.paused || OverLimit(s) == {} then s
    else s.(paused := true, resumeDue := Some(now + CHECK_MS),
            over := map ws | ws in OverLimit(s) && ws in s.socks :: s.socks[ws].drained)
  }

  predicate AllDrained(s: Shell) {
    forall ws | ws in s.sockets && ws in s.socks :: s.socks[ws].backlog < RESUME_BYTES
  }

  function ResumeCheck(s: Shell, now: nat): Shell {
    if AllDrained(s) then s.(paused := false, resumeDue := None) else s.(resumeDue := Some(now + CHECK_MS))
  }

  function CloseSocket(k: Socket): Socket {
    if k.ready.Open? then k.(ready := Closing) else k
  }

  function CloseAll(s: Shell): Shell {
    s.(socks := map ws | ws in s.socks :: if ws in s.sockets then CloseSocket(s.socks[ws]) else s.socks[ws])
  }

  /** `stream.end()` together with clearing the resume interval. */
  function EndStream(s: Shell): Shell {
    s.(resumeDue := None, stream := if s.stream.Live? then EndCalled else s.stream)
  }

  function SweepSocket(k: Socket): Socket {
    if k.ready.Closed? || k.ready.Terminated? then k
    else if k.alive then k.(alive := false) else k.(ready := Terminated)
  }

  function SweepWaiting(k: Waiting): Waiting {
    if k.ready.Closed? || k.ready.Terminated? then k
    else if k.alive then k.(alive := false) else k.(ready := Terminated)
  }

  function SweepShell(s: Shell): Shell {
    s.(socks := map ws | ws in s.socks :: SweepSocket(s.socks[ws]))
  }

  // ---------------------------------------------------------------------------------------------
  // Steps
  // ---------------------------------------------------------------------------------------------

  datatype Event =
    | AttachStart(ws: SocketId, container: Container, ready: Ready)
    | AttachDone(ws: SocketId, shell: ShellId)
    | AttachFail(ws: SocketId)
    | Data(shell: ShellId, chunk: seq<Byte>)
    | End(shell: ShellId)
    | Tick(shell: ShellId)
    | Fire(timer: TimerId)
    | BeginClose(shell: ShellId, ws: SocketId)
    | Close(shell: ShellId, ws: SocketId)
    | CloseWaiting(ws: SocketId)
    | Drained(shell: ShellId, ws: SocketId, bytes: nat, control: nat)
    | Control(shell: ShellId, ws: SocketId, bytes: nat)
    | Pong(shell: ShellId, ws: SocketId)
    | PongWaiting(ws: SocketId)
    | Destroy(container: Container)
    | Sweep
    | Advance(ms: nat)

  predicate HasSocket(w: World, sh: ShellId, ws: SocketId) {
    sh in w.shells && ws in w.shells[sh].socks
  }

  /** No timer is overdue at `t`, and no socket is `Terminated` with its close event undelivered. */
  ghost predicate Quiet(w: World, t: nat) {
    && t <= w.nextSweep
    && (forall id | id in w.timers :: t <= w.timers[id].due)
    && (forall sh | sh in w.shells :: w.shells[sh].resumeDue.Some? ==> t <= w.shells[sh].resumeDue.value)
    && (forall sh, ws | HasSocket(w, sh, ws) :: !w.shells[sh].socks[ws].ready.Terminated?)
    && (forall ws | ws in w.waiting :: !w.waiting[ws].ready.Terminated?)
  }

  /**
   What the environment may do: every socket is bridged once, a paused stream emits no data, timers
   fire when they are due, a terminated socket's close event needs no time.
   */
  ghost predicate Enabled(w: World, e: Event) {
    match e
    case AttachStart(ws, _, ready) =>
      ws !in w.waiting && !ready.Terminated? && forall sh | sh in w.shells :: ws !in w.shells[sh].socks
    case AttachDone(ws, sh) => ws in w.waiting && sh !in w.shells
    case AttachFail(ws) => ws in w.waiting
    case Data(sh, _) => sh in w.shells && !w.shells[sh].stream.Done? && !w.shells[sh].paused
    case End(sh) => sh in w.shells && !w.shells[sh].stream.Done?
    case Tick(sh) => sh in w.shells && w.shells[sh].resumeDue == Some(w.now)
    case Fire(id) => id in w.timers && w.timers[id].due == w.now
    case BeginClose(sh, ws) => HasSocket(w, sh, ws) && w.shells[sh].socks[ws].ready.Open?
    case Close(sh, ws) => HasSocket(w, sh, ws) && !w.shells[sh].socks[ws].ready.Closed?
    case CloseWaiting(ws) => ws in w.waiting
    case Drained(sh, ws, n, c) => HasSocket(w, sh, ws) && CanDrain(w.shells[sh].socks[ws], n, c)
    case Control(sh, ws, _) => HasSocket(w, sh, ws)
    case Pong(sh, ws) => HasSocket(w, sh, ws)
      && (w.shells[sh].socks[ws].ready.Open? || w.shells[sh].socks[ws].ready.Closing?)
    case PongWaiting(ws) => ws in w.waiting && (w.waiting[ws].ready.Open? || w.waiting[ws].ready.Closing?)
    case Destroy(_) => true
    case Sweep => w.now == w.nextSweep
    case Advance(ms) => Quiet(w, w.now + ms)
  }

  function SetShell(w: World, sh: ShellId, s: Shell): World {
    w.(shells := w.shells[sh := s])
  }

  function PutSocket(s: Shell, ws: SocketId, k: Socket): Shell {
    s.(socks := s.socks[ws := k])
  }

  function Registered(w: World, c: Container): (r: Option<Shell>) {
    if c in w.registry && w.registry[c] in w.shells then Some(w.shells[w.registry[c]]) else None
  }

  /** `clearTimeout(session.graceTimer)`, if there is one. */
  function CancelGrace(timers: map<TimerId, Grace>, s: Shell): map<TimerId, Grace> {
    if s.grace.Some? then timers - {s.grace.value} else timers
  }

  /**
   `attachOrCreateShell` up to its await. A registered shell takes the socket at once and its grace timer
   is cleared; otherwise the socket waits for the container's first exec.
   */
  function Attach(w: World, ws: SocketId, c: Container, ready: Ready): World {
    var r := Registered(w, c);
    if r.None? then w.(waiting := w.waiting[ws := Waiting(c, ready, true, w.now)])
    else
      w.(shells := w.shells[w.registry[c] := AddSocket(r.value, ws, ready, true, w.now)],
         timers := CancelGrace(w.timers, r.value))
  }

  /** The first exec is up: a new shell overwrites whatever the registry holds for the container. */
  function Register(w: World, ws: SocketId, sh: ShellId): World {
    if ws !in w.waiting then w
    else
      var p := w.waiting[ws];
      w.(waiting := w.waiting - {ws},
         registry := w.registry[p.container := sh],
         shells := w.shells[sh := AddSocket(NewShell(p.container, w.now), ws, p.ready, p.alive, p.heard)])
  }

  function ReceiveData(w: World, sh: ShellId, chunk: seq<Byte>): World {
    if sh in w.shells then SetShell(w, sh, Backpressure(Deliver(w.shells[sh], chunk), w.now)) else w
  }

  function CheckResume(w: World, sh: ShellId): World {
    if sh in w.shells then SetShell(w, sh, ResumeCheck(w.shells[sh], w.now)) else w
  }

  function SetReady(w: World, sh: ShellId, ws: SocketId, ready: Ready): World {
    if HasSocket(w, sh, ws) then SetShell(w, sh, PutSocket(w.shells[sh], ws, w.shells[sh].socks[ws].(ready := ready)))
      else w
  }

  function DrainSocket(w: World, sh: ShellId, ws: SocketId, n: nat, c: nat): World {
    if HasSocket(w, sh, ws) then SetShell(w, sh, PutSocket(w.shells[sh], ws, Drain(w.shells[sh].socks[ws], n, c)))
      else w
  }

  function ControlSocket(w: World, sh: ShellId, ws: SocketId, n: nat): World {
    if HasSocket(w, sh, ws) then SetShell(w, sh, PutSocket(w.shells[sh], ws, QueueControl(w.shells[sh].socks[ws], n)))
      else w
  }

  function ReceivePong(w: World, sh: ShellId, ws: SocketId): World {
    if !HasSocket(w, sh, ws) then w
    else
      var s := w.shells[sh];
      SetShell(w, sh, PutSocket(s, ws, s.socks[ws].(alive := true, heard := w.now)).(heard := w.now))
  }

  function SetWaiting(w: World, ws: SocketId, p: Waiting): World {
    w.(waiting := w.waiting[ws := p])
  }

  /** The shell without the socket; when that leaves nobody and no timer is set, `timer` is started. */
  function DropSocket(s: Shell, ws: SocketId, timer: TimerId, now: nat): Shell {
    if s.sockets - {ws} != {} || s.grace.Some? then s.(sockets := s.sockets - {ws})
    else s.(sockets := {}, grace := Some(timer), emptySince := now)
  }

  /** `releaseSocket`: drop the socket from the shell now registered, and start its grace timer when it was the last. */
  function Release(w: World, c: Container, ws: SocketId): World {
    var r := Registered(w, c);
    if r.None? then w
    else if r.value.sockets - {ws} != {} || r.value.grace.Some? then
      SetShell(w, w.registry[c], DropSocket(r.value, ws, w.nextTimer, w.now))
    else
      w.(shells := w.shells[w.registry[c] := DropSocket(r.value, ws, w.nextTimer, w.now)],
         timers := w.timers[w.nextTimer := Grace(c, w.now + RECONNECT_GRACE_MS)],
         nextTimer := w.nextTimer + 1)
  }

  /** A socket's close event, once its listener is registered. */
  function SocketClosed(w: World, sh: ShellId, ws: SocketId): World {
    if sh in w.shells then Release(SetReady(w, sh, ws, Closed), w.shells[sh].container, ws) else w
  }

  /** `endShellSession`. */
  function EndShell(w: World, c: Container): World {
    var r := Registered(w, c);
    if r.None? then w
    else
      w.(shells := w.shells[w.registry[c] := EndStream(CloseAll(r.value))],
         timers := CancelGrace(w.timers, r.value),
         registry := w.registry - {c})
  }

  /** The grace callback re-reads the registry: it may find another shell than the one it was set for. */
  function FireGrace(w: World, id: TimerId): World {
    if id !in w.timers then w
    else
      var c := w.timers[id].container;
      var r := Registered(w, c);
      if r.None? || r.value.sockets != {} then w.(timers := w.timers - {id})
      else
        w.(timers := w.timers - {id},
           shells := w.shells[w.registry[c] := EndStream(r.value)],
           registry := w.registry - {c})
  }

  /** The end and error listeners: the container's entry goes, whichever shell it names. */
  function StreamEnded(w: World, sh: ShellId): World {
    if sh !in w.shells then w
    else
      var s := w.shells[sh];
      w.(shells := w.shells[sh := CloseAll(s).(stream := Done)], registry := w.registry - {s.container})
  }

  function SweepAll(w: World): World {
    w.(shells := map sh | sh in w.shells :: SweepShell(w.shells[sh]),
       waiting := map ws | ws in w.waiting :: SweepWaiting(w.waiting[ws]),
       nextSweep := w.nextSweep + PING_MS)
  }

  function Next(w: World, e: Event): World {
    match e
    case AttachStart(ws, c, ready) => Attach(w, ws, c, ready)
    case AttachDone(ws, sh) => Register(w, ws, sh)
    case AttachFail(ws) => w.(waiting := w.waiting - {ws})
    case Data(sh, chunk) => ReceiveData(w, sh, chunk)
    case End(sh) => StreamEnded(w, sh)
    case Tick(sh) => CheckResume(w, sh)
    case Fire(id) => FireGrace(w, id)
    case BeginClose(sh, ws) => SetReady(w, sh, ws, Closing)
    case Close(sh, ws) => SocketClosed(w, sh, ws)
    case CloseWaiting(ws) => if ws in w.waiting then SetWaiting(w, ws, w.waiting[ws].(ready := Closed)) else w
    case Drained(sh, ws, n, c) => DrainSocket(w, sh, ws, n, c)
    case Control(sh, ws, n) => ControlSocket(w, sh, ws, n)
    case Pong(sh, ws) => ReceivePong(w, sh, ws)
    case PongWaiting(ws) =>
      if ws in w.waiting then SetWaiting(w, ws, w.waiting[ws].(alive := true, heard := w.now)) else w
    case Destroy(c) => EndShell(w, c)
    case Sweep => SweepAll(w)
    case Advance(ms) => w.(now := w.now + ms)
  }

  // ---------------------------------------------------------------------------------------------
  // Runs
  // ---------------------------------------------------------------------------------------------

  ghost predicate Run(w: World, es: seq<Event>)
    decreases |es|
  {
    es == [] || (Enabled(w, es[0]) && Run(Next(w, es[0]), es[1..]))
  }

  ghost function After(w: World, es: seq<Event>): World
    requires Run(w, es)
    decreases |es|
  {
    if es == [] then w else After(Next(w, es[0]), es[1..])
  }

  lemma Extend(w: World, e: Event, es: seq<Event>)
    requires Enabled(w, e) && Run(Next(w, e), es)
    ensures Run(w, [e] + es) && After(w, [e] + es) == After(Next(w, e), es)
  {
    assert ([e] + es)[1..] == es;
  }

  /** The run `es` leads from `w` to `v`. */
  ghost predicate Leads(w: World, es: seq<Event>, v: World) { Run(w, es) && After(w, es) == v }

  lemma {:induction false} Snoc(w: World, es: seq<Event>, v: World, e: Event)
    requires Leads(w, es, v) && Enabled(v, e)
    ensures Leads(w, es + [e], Next(v, e))
    decreases |es|
  {
    if es == [] {
      assert [] + [e] == [e];
      Extend(w, e, []);
    } else {
      assert es + [e] == [es[0]] + (es[1..] + [e]);
      Snoc(Next(w, es[0]), es[1..], v, e);
      Extend(w, es[0], es[1..] + [e]);
    }
  }

  lemma {:induction false} RunJoins(w: World, es: seq<Event>, v: World, more: seq<Event>)
    requires Leads(w, es, v) && Run(v, more)
    ensures Leads(w, es + more, After(v, more))
    decreases |more|
  {
    if more == [] {
      assert es + more == es;
    } else {
      Snoc(w, es, v, more[0]);
      RunJoins(w, es + [more[0]], Next(v, more[0]), more[1..]);
      assert es + more == es + [more[0]] + more[1..];
    }
  }
}
