/** Runs of the terminal machine that end where nobody would want them to. */
module TerminalFindings {
  import opened Options
  import opened TerminalModel
  import opened TerminalInvariants
  import opened TerminalTheorems

  /** Without the order it fails: two first attaches that overlap leave two live shells, one of them unregistered. */
  lemma OverlapLosesAShell(c: Container)
    ensures
      var es := [AttachStart(1, c, Open), AttachStart(2, c, Open), AttachDone(1, 10), AttachDone(2, 11)];
      && Run(Boot(0), es)
      && var v := After(Boot(0), es);
      && v.registry == map[c := 11] && 10 in v.shells && 11 in v.shells
      && v.shells[10].stream.Live? && v.shells[11].stream.Live? && v.shells[10].sockets == {1}
  {
    var w0 := Boot(0);
    var w1 := Next(w0, AttachStart(1, c, Open));
    var w2 := Next(w1, AttachStart(2, c, Open));
    var w3 := Next(w2, AttachDone(1, 10));
    var w4 := Next(w3, AttachDone(2, 11));
    Extend(w3, AttachDone(2, 11), []);
    Extend(w2, AttachDone(1, 10), [AttachDone(2, 11)]);
    Extend(w1, AttachStart(2, c, Open), [AttachDone(1, 10), AttachDone(2, 11)]);
    Extend(w0, AttachStart(1, c, Open), [AttachStart(2, c, Open), AttachDone(1, 10), AttachDone(2, 11)]);
  }

  // ---------------------------------------------------------------------------------------------
  // Time passing with every socket closed
  // ---------------------------------------------------------------------------------------------

  /** Nothing is open, waiting or paused, and the next sweep is a whole interval away. */
  ghost predicate AllClosed(w: World) {
    && w.waiting == map[] && w.nextSweep == w.now + PING_MS
    && forall sh | sh in w.shells ::
         w.shells[sh].resumeDue.None? && forall ws | ws in w.shells[sh].socks :: w.shells[sh].socks[ws].ready.Closed?
  }

  function Later(w: World, n: nat): World { w.(now := w.now + PING_MS * n, nextSweep := w.nextSweep + PING_MS * n) }

  lemma SweepOfClosedShell(s: Shell)
    requires forall ws | ws in s.socks :: s.socks[ws].ready.Closed?
    ensures SweepShell(s) == s
  {
    assert SweepShell(s).socks == s.socks;
  }

  lemma SweepOfClosed(w: World)
    requires AllClosed(w)
    ensures SweepAll(w.(now := w.now + PING_MS)) == Later(w, 1) && AllClosed(Later(w, 1))
  {
    forall sh | sh in w.shells
      ensures SweepShell(w.shells[sh]) == w.shells[sh]
    {
      SweepOfClosedShell(w.shells[sh]);
    }
    assert SweepAll(w).shells == w.shells;
    assert SweepAll(w).waiting == w.waiting;
  }

  /** `n` sweeps, one every 30 s. */
  function Sweeps(n: nat): seq<Event> { if n == 0 then [] else [Advance(PING_MS), Sweep] + Sweeps(n - 1) }

  /** Then only the clock moves, for as long as no timer comes due. */
  lemma {:induction false} TimePasses(w0: World, es: seq<Event>, w: World, n: nat)
    requires Leads(w0, es, w) && AllClosed(w) && forall id | id in w.timers :: w.now + PING_MS * n <= w.timers[id].due
    ensures Leads(w0, es + Sweeps(n), Later(w, n)) && AllClosed(Later(w, n))
    decreases n
  {
    if n == 0 {
      assert es + [] == es;
    } else {
      var w1 := w.(now := w.now + PING_MS);
      assert Quiet(w, w1.now) by {
        assert forall sh, ws | HasSocket(w, sh, ws) :: w.shells[sh].socks[ws].ready.Closed?;
      }
      Snoc(w0, es, w, Advance(PING_MS));
      SweepOfClosed(w);
      Snoc(w0, es + [Advance(PING_MS)], w1, Sweep);
      TimePasses(w0, es + [Advance(PING_MS)] + [Sweep], Later(w, 1), n - 1);
      assert es + [Advance(PING_MS)] + [Sweep] + Sweeps(n - 1) == es + Sweeps(n);
      assert Later(Later(w, 1), n - 1) == Later(w, n);
    }
  }

  // ---------------------------------------------------------------------------------------------
  // A socket that closes while its bridge awaits
  // ---------------------------------------------------------------------------------------------

  /** The shell of a first exec whose socket had closed before it was added. */
  function Lost(c: Container): World {
    World(0, PING_MS, map[c := 10], map[10 := AddSocket(NewShell(c, 0), 1, Closed, true, 0)], map[], map[], 0)
  }

  lemma LostHappens(c: Container)
    ensures Leads(Boot(0), [AttachStart(1, c, Closed), AttachDone(1, 10)], Lost(c)) && AllClosed(Lost(c))
  {
    var w1 := Boot(0).(waiting := map[1 := Waiting(c, Closed, true, 0)]);
    assert w1 == Next(Boot(0), AttachStart(1, c, Closed));
    Snoc(Boot(0), [], Boot(0), AttachStart(1, c, Closed));
    assert w1.waiting - {1} == map[];
    assert Lost(c) == Next(w1, AttachDone(1, 10));
    Snoc(Boot(0), [AttachStart(1, c, Closed)], w1, AttachDone(1, 10));
    assert [] + [AttachStart(1, c, Closed)] == [AttachStart(1, c, Closed)];
    assert [AttachStart(1, c, Closed)] + [AttachDone(1, 10)] == [AttachStart(1, c, Closed), AttachDone(1, 10)];
  }

  /**
   No bound on silence holds for such a socket: for every `n` there is a run after which its shell is still
   registered, with it attached, and nobody has been heard from for `n` sweeps. Seven exceed 180 s.
   */
  lemma LostSocketOutlastsEveryBound(c: Container, n: nat) returns (es: seq<Event>)
    ensures
      && Run(Boot(0), es)
      && var w := After(Boot(0), es);
      && Pinned(w, c, 1) && w.registry[c] == 10
      && w.now == w.shells[10].heard + PING_MS * n
      && (n >= 7 ==> w.now > w.shells[10].heard + 180_000)
  {
    LostHappens(c);
    TimePasses(Boot(0), [AttachStart(1, c, Closed), AttachDone(1, 10)], Lost(c), n);
    es := [AttachStart(1, c, Closed), AttachDone(1, 10)] + Sweeps(n);
  }

  // ---------------------------------------------------------------------------------------------
  // A grace timer left behind
  // ---------------------------------------------------------------------------------------------

  function GoneSocket(heard: nat): Socket { Socket(Closed, false, true, heard, 0, [], 0, 0, 0) }

  /** One shell ended while unattended, leaving its timer 0; a second left alone 30 s later, with timer 1. */
  function LeftBehind(c: Container): World {
    World(PING_MS, PING_MS, map[c := 11],
          map[10 := Shell(c, {}, map[1 := GoneSocket(0)], Some(0), false, None, Done, [], 0, 0, 0, map[]),
              11 := Shell(c, {}, map[2 := GoneSocket(0)], Some(1), false, None, Live, [], 0, PING_MS, 0, map[])],
          map[], map[0 := Grace(c, RECONNECT_GRACE_MS), 1 := Grace(c, PING_MS + RECONNECT_GRACE_MS)], 2)
  }

  function OpenShell(c: Container, ws: SocketId): Shell {
    Shell(c, {ws}, map[ws := GoneSocket(0).(ready := Open)], None, false, None, Live, [], 0, 0, 0, map[])
  }

  lemma NewShellHasOne(c: Container, ws: SocketId)
    ensures AddSocket(NewShell(c, 0), ws, Open, true, 0) == OpenShell(c, ws)
  {
    assert {} + {ws} == {ws};
  }

  lemma LastSocketCloses(w: World, c: Container, sh: ShellId, ws: SocketId)
    requires w.registry == map[c := sh] && sh in w.shells && w.shells[sh] == OpenShell(c, ws)
    ensures
      var gone := Shell(c, {}, map[ws := GoneSocket(0)], Some(w.nextTimer), false, None, Live, [], 0, w.now, 0, map[]);
      Next(w, Close(sh, ws))
      == w.(shells := w.shells[sh := gone], timers := w.timers[w.nextTimer := Grace(c, w.now + RECONNECT_GRACE_MS)],
        nextTimer := w.nextTimer + 1)
  {
    var u := SetReady(w, sh, ws, Closed);
    assert u.shells[sh].sockets - {ws} == {};
    assert u.shells[sh].socks == map[ws := GoneSocket(0)];
  }

  lemma SecondLeft(c: Container) returns (es: seq<Event>, w: World)
    ensures w == LeftBehind(c).(shells := LeftBehind(c).shells[11 := OpenShell(c, 2)],
                                 timers := map[0 := Grace(c, RECONNECT_GRACE_MS)], nextTimer := 1)
    ensures Leads(Boot(0), es, w)
  {
    es := FirstAttaches(c);
    var w2 := World(0, PING_MS, map[c := 10], map[10 := OpenShell(c, 1)], map[], map[], 0);
    var gone := Shell(c, {}, map[1 := GoneSocket(0)], Some(0), false, None, Live, [], 0, 0, 0, map[]);
    var w3 := World(0, PING_MS, map[c := 10], map[10 := gone], map[], map[0 := Grace(c, RECONNECT_GRACE_MS)], 1);
    LastSocketCloses(w2, c, 10, 1);
    assert w3 == Next(w2, Close(10, 1));
    Snoc(Boot(0), es, w2, Close(10, 1));
    es := FirstEnds(c, es + [Close(10, 1)], w3, gone);
    es, w := SecondAttaches(c, es, w3.(registry := map[], shells := map[10 := gone.(stream := Done)]));
  }

  lemma FirstAttaches(c: Container) returns (es: seq<Event>)
    ensures Leads(Boot(0), es, World(0, PING_MS, map[c := 10], map[10 := OpenShell(c, 1)], map[], map[], 0))
  {
    var w1 := Boot(0).(waiting := map[1 := Waiting(c, Open, true, 0)]);
    Snoc(Boot(0), [], Boot(0), AttachStart(1, c, Open));
    NewShellHasOne(c, 1);
    assert w1.waiting - {1} == map[];
    Snoc(Boot(0), [] + [AttachStart(1, c, Open)], w1, AttachDone(1, 10));
    es := [] + [AttachStart(1, c, Open)] + [AttachDone(1, 10)];
  }

  lemma FirstEnds(c: Container, es: seq<Event>, w: World, gone: Shell) returns (run: seq<Event>)
    requires gone == Shell(c, {}, map[1 := GoneSocket(0)], Some(0), false, None, Live, [], 0, 0, 0, map[])
    requires w == World(0, PING_MS, map[c := 10], map[10 := gone], map[], map[0 := Grace(c, RECONNECT_GRACE_MS)], 1)
    requires Leads(Boot(0), es, w)
    ensures Leads(Boot(0), run, w.(registry := map[], shells := map[10 := gone.(stream := Done)]))
  {
    assert CloseAll(gone).socks == gone.socks;
    assert w.registry - {c} == map[];
    Snoc(Boot(0), es, w, End(10));
    run := es + [End(10)];
  }

  lemma SecondAttaches(c: Container, es: seq<Event>, w: World) returns (run: seq<Event>, v: World)
    requires w == World(0, PING_MS, map[], map[10 := Shell(c, {}, map[1 := GoneSocket(0)], Some(0), false, None, Done,
      [], 0, 0, 0, map[])],
                        map[], map[0 := Grace(c, RECONNECT_GRACE_MS)], 1)
    requires Leads(Boot(0), es, w)
    ensures v == w.(now := PING_MS, registry := map[c := 11], shells := w.shells[11 := OpenShell(c, 2)])
    ensures Leads(Boot(0), run, v)
  {
    var w1 := w.(waiting := map[2 := Waiting(c, Open, true, 0)]);
    NewShellHasOne(c, 2);
    var w2 := w.(registry := map[c := 11], shells := w.shells[11 := OpenShell(c, 2)]);
    assert w1 == Next(w, AttachStart(2, c, Open));
    Snoc(Boot(0), es, w, AttachStart(2, c, Open));
    assert w1.waiting - {2} == map[];
    assert w2 == Next(w1, AttachDone(2, 11));
    Snoc(Boot(0), es + [AttachStart(2, c, Open)], w1, AttachDone(2, 11));
    Snoc(Boot(0), es + [AttachStart(2, c, Open)] + [AttachDone(2, 11)], w2, Advance(PING_MS));
    run := es + [AttachStart(2, c, Open)] + [AttachDone(2, 11)] + [Advance(PING_MS)];
    v := w2.(now := PING_MS);
  }

  lemma LeftBehindHappens(c: Container) returns (es: seq<Event>)
    ensures Leads(Boot(0), es, LeftBehind(c))
  {
    var w: World;
    es, w := SecondLeft(c);
    LastSocketCloses(w, c, 11, 2);
    assert LeftBehind(c) == Next(w, Close(11, 2));
    Snoc(Boot(0), es, w, Close(11, 2));
    es := es + [Close(11, 2)];
  }

  lemma LeftBehindSwept(c: Container)
    ensures SweepAll(LeftBehind(c)) == LeftBehind(c).(nextSweep := 2 * PING_MS)
    ensures AllClosed(LeftBehind(c).(nextSweep := 2 * PING_MS))
  {
    var w := LeftBehind(c);
    SweepOfClosedShell(w.shells[10]);
    SweepOfClosedShell(w.shells[11]);
    assert SweepAll(w).shells == w.shells;
  }

  lemma {:induction false} SweepsAreCalm(n: nat)
    ensures forall e | e in Sweeps(n) :: e.Sweep? || e.Advance?
    decreases n
  {
    if n > 0 { SweepsAreCalm(n - 1); }
  }

  lemma {:induction false} CalmIsUndisturbed(w: World, es: seq<Event>, c: Container)
    requires forall e | e in es :: e.Sweep? || e.Advance? || e.Fire?
    ensures Undisturbed(w, es, c)
    decreases |es|
  {
    if es != [] { CalmIsUndisturbed(Next(w, es[0]), es[1..], c); }
  }

  /**
   The grace time can be cut short: a shell left alone at 30 s has a timer of its own due 120 s later, but over
   a run of sweeps that does not disturb it the timer an earlier shell left behind fires at 120 s and ends it
   after 90 s.
   */
  lemma TimerLeftBehindCutsTheGrace(c: Container) returns (before: seq<Event>)
    ensures
      var w := LeftBehind(c);
      var after := [Sweep] + Sweeps(3) + [Fire(0)];
      && Leads(Boot(0), before, w) && Run(w, after) && Undisturbed(w, after, c)
      && w.registry[c] == 11 && w.shells[11].sockets == {} && w.shells[11].emptySince == w.now
      && w.shells[11].grace == Some(1) && w.timers[1].due == w.now + RECONNECT_GRACE_MS
      && c !in After(w, after).registry && After(w, after).now == w.now + 90_000
  {
    before := LeftBehindHappens(c);
    var w := LeftBehind(c);
    var swept := w.(nextSweep := 2 * PING_MS);
    LeftBehindSwept(c);
    Snoc(w, [], w, Sweep);
    assert [] + [Sweep] == [Sweep];
    TimePasses(w, [Sweep], swept, 3);
    FiresAtLast(c, [Sweep] + Sweeps(3));
    SweepsAreCalm(3);
    CalmIsUndisturbed(w, [Sweep] + Sweeps(3) + [Fire(0)], c);
  }

  lemma FiresAtLast(c: Container, es: seq<Event>)
    requires Leads(LeftBehind(c), es, Later(LeftBehind(c).(nextSweep := 2 * PING_MS), 3))
    ensures Run(LeftBehind(c), es + [Fire(0)])
    ensures
      var v := After(LeftBehind(c), es + [Fire(0)]);
      c !in v.registry && v.now == 120_000
  {
    Snoc(LeftBehind(c), es, Later(LeftBehind(c).(nextSweep := 2 * PING_MS), 3), Fire(0));
  }
}
