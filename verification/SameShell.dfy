/** The page and the server together: a reconnect in time finds the shell it left. */
module SameShell {
  import T = TerminalModel
  import TT = TerminalTheorems
  import TG = TerminalGrace
  import P = PageModel
  import R = Reconnect

  /**
   Both ends see the connection drop at the same time: the page, with no reconnect timer pending, and the
   server, where the last socket of the shell leaves and no earlier timer of its container is pending, as when
   it is the container's only one so far (`OnlyShellHasNoEarlierTimer`). The page's steps are those up to the
   connect, `trying`, in which nothing gives its budget back, and those from the connect on, `connected`, in
   which that connection is not lost again. If the time in which no reconnect timer was pending is less than
   97 s in all (ticket requests, connects, and what the server does between the connect and the attach), then
   an attach at the end of these steps is given the same shell, unless the shell ended, its container was
   destroyed or another was started for it.
   */
  lemma ReconnectGetsTheSameShell(
    opening: nat, before: seq<P.Event>, page: P.State, trying: seq<P.Event>, connected: seq<P.Event>,
    w: T.World, start: nat, es: seq<T.Event>, run: seq<T.Event>, c: T.Container, ws: T.SocketId, ready: T.Ready)
    requires P.Leads(P.Fresh(opening), before, page) && page.timers == map[]
    requires P.Run(page, trying + connected) && R.NeverRefilled(page, trying)
    requires forall i | 0 <= i < |connected| :: !connected[i].Exit?
    requires R.Latency(page, trying + connected) < 97000
    requires TT.Reached(w, start, es) && TG.Unattended(w, c) && TG.NoEarlierTimer(w, c) && w.now == page.now
    requires T.Run(w, run) && TT.Undisturbed(w, run, c)
    requires T.After(w, run).now == P.After(page, trying + connected).now
    ensures
      var v := T.Next(T.After(w, run), T.AttachStart(ws, c, ready));
      && T.Registered(v, c).Some? && v.registry[c] == w.registry[c]
      && ws in T.Registered(v, c).value.sockets && T.Registered(v, c).value.stream.Live?
  {
    R.RunInv(P.Fresh(opening), before);
    R.ConnectedWithin23Seconds(page, trying, connected);
    TG.ReattachFindsTheSameShell(w, start, es, run, c, ws, ready);
  }
}
