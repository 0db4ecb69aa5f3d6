/** Auth tokens against password changes: second granularity, seven days, and what overlapping changes do. */
module AuthTokens {
  import opened Options
  import opened AuthModel
  import opened ResetTokens

  const AUTH_TOKEN_EXPIRY_S: nat := 7 * 24 * 60 * 60

  /** The claims of a signed token, in whole seconds. */
  datatype AuthToken = AuthToken(sub: UserId, iat: nat, exp: nat)

  function Sign(u: UserId, now: nat): AuthToken {
    AuthToken(u, now / 1000, now / 1000 + AUTH_TOKEN_EXPIRY_S)
  }

  /** `verifyAuthToken` for a token whose signature and shape are good. */
  predicate Accepts(users: map<UserId, User>, t: AuthToken, now: nat) {
    && now / 1000 < t.exp
    && t.sub in users
    && (users[t.sub].changedAt.Some? ==> t.iat >= users[t.sub].changedAt.value / 1000)
  }

  /** The committed change number `k` is one of this user's, stamped `s`. */
  ghost predicate ChangedAt(log: seq<Entry>, u: UserId, k: int, s: int) {
    0 <= k < |log| && log[k].user == u && log[k].stamp.Some? && log[k].stamp.value == s
  }

  /** The entry a step appends, if it commits one, began when the user's earlier changes had been committed. */
  ghost predicate InTurn(w: World, e: Event) {
    var log := Next(w, e).log;
    |log| > |w.log| ==>
      var x := log[|w.log|];
      x.stamp.Some? ==> forall k, s | ChangedAt(w.log, x.user, k, s) :: w.log[k].at <= x.stamp.value
  }

  /** One password change of a user at a time. */
  ghost predicate OneAtATime(w: World, es: seq<Event>)
    decreases |es|
  {
    es == [] || (InTurn(w, es[0]) && OneAtATime(Next(w, es[0]), es[1..]))
  }

  /** The latest entry of a user carries the greatest stamp. */
  ghost predicate OrderInv(w: World) {
    forall u: UserId, k, s | ChangedAt(w.log, u, k, s) ::
      var last := Latest(w.log, u);
      last.Some? && last.value.stamp.Some? && s <= last.value.stamp.value
  }

  lemma StepLog(w: World, e: Event)
    ensures Next(w, e).log == w.log || exists x :: Next(w, e).log == w.log + [x]
    ensures Next(w, e).now >= w.now
  {
    match e
    case Signup(u, p) => assert Next(w, e).log == w.log + [Entry(u, p, None, BySignup, w.now)];
    case Proceed(id) =>
      if id in w.txs {
        var t := w.txs[id];
        if t.Reset? && t.phase.ToCommit? {
          assert Next(w, e).log == w.log || Next(w, e).log
            == w.log + [Entry(t.phase.user, t.password, Some(t.began), ByReset(t.hash), w.now)];
        } else if t.Change? {
          assert Next(w, e).log == w.log || Next(w, e).log
            == w.log + [Entry(t.user, t.password, Some(t.began), ByChange, w.now)];
        }
      }
    case _ =>
  }

  /** A signup's entry is the first of its user. */
  lemma StepEntry(w: World, e: Event, x: Entry)
    requires Enabled(w, e) && Next(w, e).log == w.log + [x]
    ensures x.stamp.None? ==> forall k | 0 <= k < |w.log| :: w.log[k].user != x.user
  {
    assert Next(w, e).log[|w.log|] == x;
    if e.Signup? {
      assert x == Entry(e.newUser, e.password, None, BySignup, w.now);
    } else if e.Proceed? && e.tx in w.txs {
      assert x.stamp == Some(w.txs[e.tx].began);
    }
  }

  lemma StepOrder(w: World, e: Event)
    requires Inv(w) && OrderInv(w) && Enabled(w, e) && InTurn(w, e)
    ensures OrderInv(Next(w, e))
  {
    StepLog(w, e);
    var v := Next(w, e);
    if v.log != w.log {
      var x :| v.log == w.log + [x];
      LogGrows(w.log, x);
      StepEntry(w, e, x);
      forall u: UserId, k, s | ChangedAt(v.log, u, k, s)
        ensures Latest(v.log, u).Some? && Latest(v.log, u).value.stamp.Some? && s <= Latest(v.log, u).value.stamp.value
      {
        if k < |w.log| { assert ChangedAt(w.log, u, k, s); }
      }
    }
  }

  lemma {:induction false} RunOrder(w: World, es: seq<Event>)
    requires Inv(w) && OrderInv(w) && Run(w, es) && OneAtATime(w, es)
    ensures Inv(After(w, es)) && OrderInv(After(w, es))
    decreases |es|
  {
    if es != [] {
      StepInv(w, es[0]);
      StepOrder(w, es[0]);
      RunOrder(Next(w, es[0]), es[1..]);
    }
  }

  lemma {:induction false} LatestIsAnEntry(log: seq<Entry>, u: UserId) returns (k: nat)
    requires Latest(log, u).Some?
    ensures k < |log| && log[k].user == u && Some(log[k]) == Latest(log, u)
    decreases |log|
  {
    if log[|log| - 1].user == u { k := |log| - 1; } else { k := LatestIsAnEntry(log[..|log| - 1], u); }
  }

  lemma SameSecond(issued: nat, s: nat)
    ensures issued / 1000 >= s / 1000 <==> issued >= s / 1000 * 1000
  {
  }

  /**
   In every run with one password change of a user at a time, a token issued at any time is accepted if and
   only if its user exists, it is not yet seven days old, and it was issued no earlier than the start of the
   second of every password change of its user so far.
   */
  lemma AcceptedIffIssuedAfterEveryChange(start: nat, es: seq<Event>, u: UserId, issued: nat)
    requires Run(Fresh(start), es) && OneAtATime(Fresh(start), es)
    ensures
      var w := After(Fresh(start), es);
      Accepts(w.users, Sign(u, issued), w.now)
      <==> u in w.users && w.now / 1000 < issued / 1000 + 7 * 86_400
           && forall k, s | ChangedAt(w.log, u, k, s) :: issued >= s / 1000 * 1000
  {
    var w := After(Fresh(start), es);
    RunOrder(Fresh(start), es);
    if u in w.users {
      var changed := w.users[u].changedAt;
      if changed.Some? {
        var k := LatestIsAnEntry(w.log, u);
        assert ChangedAt(w.log, u, k, changed.value);
        SameSecond(issued, changed.value);
      }
      forall k, s | ChangedAt(w.log, u, k, s) && changed.Some? && issued / 1000 >= changed.value / 1000
        ensures issued >= s / 1000 * 1000
      {
        SameSecond(issued, s);
      }
    }
  }

  lemma {:induction false} RunLog(w: World, es: seq<Event>)
    requires Run(w, es)
    ensures |w.log| <= |After(w, es).log| && After(w, es).log[..|w.log|] == w.log
    decreases |es|
  {
    if es != [] {
      StepLog(w, es[0]);
      RunLog(Next(w, es[0]), es[1..]);
    }
  }

  lemma {:induction false} Joined(w: World, es: seq<Event>, more: seq<Event>)
    requires Run(w, es) && OneAtATime(w, es) && Run(After(w, es), more) && OneAtATime(After(w, es), more)
    ensures Run(w, es + more) && OneAtATime(w, es + more) && After(w, es + more) == After(After(w, es), more)
    decreases |es|
  {
    if es == [] {
      assert es + more == more;
    } else {
      var all := es + more;
      assert all[0] == es[0] && all[1..] == es[1..] + more;
      var v := Next(w, es[0]);
      assert After(w, es) == After(v, es[1..]);
      Joined(v, es[1..], more);
    }
  }

  /**
   A token issued now stays accepted, in every such run from now on, exactly until its expiry, the account's
   deletion, or a password change stamped in a later second.
   */
  lemma AcceptedUntilALaterSecond(start: nat, es: seq<Event>, more: seq<Event>, u: UserId)
    requires Run(Fresh(start), es) && OneAtATime(Fresh(start), es)
    requires Run(After(Fresh(start), es), more) && OneAtATime(After(Fresh(start), es), more)
    ensures
      var w := After(Fresh(start), es);
      var v := After(w, more);
      Accepts(v.users, Sign(u, w.now), v.now)
      <==> u in v.users && v.now / 1000 < w.now / 1000 + 7 * 86_400
           && forall k, s | ChangedAt(v.log, u, k, s) && k >= |w.log| :: s / 1000 <= w.now / 1000
  {
    var w := After(Fresh(start), es);
    var v := After(w, more);
    Joined(Fresh(start), es, more);
    AcceptedIffIssuedAfterEveryChange(start, es + more, u, w.now);
    RunInv(Fresh(start), es);
    RunLog(w, more);
    forall k, s | ChangedAt(v.log, u, k, s)
      ensures w.now >= s / 1000 * 1000 <==> s / 1000 <= w.now / 1000
      ensures k < |w.log| ==> s / 1000 <= w.now / 1000
    {
      SameSecond(w.now, s);
      if k < |w.log| { assert v.log[..|w.log|][k] == w.log[k]; }
    }
  }

  /**
   It happens, with one change at a time: a token issued at 1.2 s is accepted after a password change at 1.5 s
   of the same second.
   */
  lemma SameSecondIsAccepted(u: UserId) returns (es: seq<Event>)
    ensures
      && Run(Fresh(0), es) && OneAtATime(Fresh(0), es)
      && var w := After(Fresh(0), es);
      && ChangedAt(w.log, u, 1, 1500) && w.now == 1500 && Accepts(w.users, Sign(u, 1200), w.now)
  {
    var w1 := World(0, map[u := User(1, None)], map[], map[], map[], [Entry(u, 1, None, BySignup, 0)]);
    var w2 := w1.(now := 1500);
    var w3 := w2.(txs := map[0 := Change(1500, u, 2)]);
    var w4 := w2.(users := map[u := User(2, Some(1500))],
                  log := [Entry(u, 1, None, BySignup, 0), Entry(u, 2, Some(1500), ByChange, 1500)]);
    es := InTurnSnoc(Fresh(0), [], Fresh(0), Signup(u, 1), w1);
    es := InTurnSnoc(Fresh(0), es, w1, Advance(1500), w2);
    es := InTurnSnoc(Fresh(0), es, w2, BeginChange(0, u, 2), w3);
    assert !UserLocked(w3.txs, u) && w3.txs - {0} == map[];
    es := InTurnSnoc(Fresh(0), es, w3, Proceed(0), w4);
  }

  // ---------------------------------------------------------------------------------------------
  // Overlapping changes
  // ---------------------------------------------------------------------------------------------

  /**
   A committing change accepts no token of its user that was refused before, whatever the token and the
   time, if and only if it is stamped in no earlier second than the change it overwrites.
   */
  lemma CommitReadmitsNothingIff(w: World, id: TxId, u: UserId, password: Password, stamp: nat, via: Via)
    requires u in w.users && w.users[u].changedAt.Some?
    ensures
      (forall t: AuthToken, now: nat | Accepts(Commit(w, id, u, password, stamp, via).users, t, now) ::
        Accepts(w.users, t, now))
      <==> stamp / 1000 >= w.users[u].changedAt.value / 1000
  {
    var before := w.users[u].changedAt.value;
    if stamp / 1000 < before / 1000 {
      var t := AuthToken(u, stamp / 1000, 1);
      assert Accepts(Commit(w, id, u, password, stamp, via).users, t, 0);
      assert !Accepts(w.users, t, 0);
    }
  }

  /** A reset that has selected its token, and a password change of its user that began and committed since. */
  function Overlapping(u: UserId): World {
    World(5000, map[u := User(3, Some(5000))], map[7 := ResetToken(u, RESET_TOKEN_TTL_MS, None)],
          map[0 := Reset(0, 7, 2, ToUpdate(u))], map[7 := RESET_TOKEN_TTL_MS],
          [Entry(u, 1, None, BySignup, 0), Entry(u, 3, Some(5000), ByChange, 5000)])
  }

  lemma OverlapHappens(u: UserId) returns (es: seq<Event>)
    ensures Leads(Fresh(0), es, Overlapping(u)) && OneAtATime(Fresh(0), es)
  {
    var w4: World;
    es, w4 := ResetSelects(u);
    var w5 := w4.(now := 5000);
    var w6 := w5.(txs := map[0 := Reset(0, 7, 2, ToUpdate(u)), 1 := Change(5000, u, 3)]);
    es := InTurnSnoc(Fresh(0), es, w4, Advance(5000), w5);
    es := InTurnSnoc(Fresh(0), es, w5, BeginChange(1, u, 3), w6);
    OverlapCommits(w6, u);
    es := InTurnSnoc(Fresh(0), es, w6, Proceed(1), Overlapping(u));
  }

  lemma ResetSelects(u: UserId) returns (es: seq<Event>, w: World)
    ensures w == World(0, map[u := User(1, None)], map[7 := ResetToken(u, RESET_TOKEN_TTL_MS, None)],
                       map[0 := Reset(0, 7, 2, ToUpdate(u))], map[7 := RESET_TOKEN_TTL_MS],
                         [Entry(u, 1, None, BySignup, 0)])
    ensures Leads(Fresh(0), es, w) && OneAtATime(Fresh(0), es)
  {
    var w1 := World(0, map[u := User(1, None)], map[], map[], map[], [Entry(u, 1, None, BySignup, 0)]);
    var w2 := w1.(tokens := map[7 := ResetToken(u, RESET_TOKEN_TTL_MS, None)], issued := map[7 := RESET_TOKEN_TTL_MS]);
    var w3 := w2.(txs := map[0 := Reset(0, 7, 2, ToSelect)]);
    w := w2.(txs := map[0 := Reset(0, 7, 2, ToUpdate(u))]);
    es := InTurnSnoc(Fresh(0), [], Fresh(0), Signup(u, 1), w1);
    es := InTurnSnoc(Fresh(0), es, w1, Request(u, 7, 0), w2);
    es := InTurnSnoc(Fresh(0), es, w2, BeginReset(0, 7, 2), w3);
    es := InTurnSnoc(Fresh(0), es, w3, Proceed(0), w);
  }

  lemma OverlapCommits(w: World, u: UserId)
    requires w == Overlapping(u).(users := map[u := User(1, None)], log := [Entry(u, 1, None, BySignup, 0)],
                                  txs := map[0 := Reset(0, 7, 2, ToUpdate(u)), 1 := Change(5000, u, 3)])
    ensures Next(w, Proceed(1)) == Overlapping(u) && InTurn(w, Proceed(1))
  {
    assert !UserLocked(w.txs, u);
    assert w.txs - {1} == Overlapping(u).txs;
  }

  lemma InTurnSnoc(w: World, es: seq<Event>, v: World, e: Event, v2: World) returns (run: seq<Event>)
    requires Leads(w, es, v) && OneAtATime(w, es) && Enabled(v, e) && InTurn(v, e) && v2 == Next(v, e)
    ensures run == es + [e] && Leads(w, run, v2) && OneAtATime(w, run)
  {
    run := es + [e];
    Snoc(w, es, v, e);
    assert [e][1..] == [];
    Joined(w, es, [e]);
  }

  /**
   Without that an old token comes back: when the reset goes on and commits with its own, earlier stamp, a
   token issued between the two stamps, refused since the password change, is accepted again.
   */
  lemma OverlapReadmitsAToken(u: UserId) returns (es: seq<Event>)
    ensures
      var w := Overlapping(u);
      var v := After(w, [Proceed(0), Proceed(0), Proceed(0)]);
      && Leads(Fresh(0), es, w) && Run(w, [Proceed(0), Proceed(0), Proceed(0)])
      && !Accepts(w.users, Sign(u, 2000), w.now) && Accepts(v.users, Sign(u, 2000), v.now)
  {
    es := OverlapHappens(u);
    var w := Overlapping(u);
    var w1 := w.(txs := map[0 := Reset(0, 7, 2, ToMark(u))]);
    var w2 := w.(txs := map[0 := Reset(0, 7, 2, ToCommit(u))]);
    assert !UserLocked(w.txs, u);
    assert w1 == Next(w, Proceed(0));
    assert w2 == Next(w1, Proceed(0));
    var v := Next(w2, Proceed(0));
    assert v.users[u].changedAt == Some(0) && v.now == 5000;
    Snoc(w, [], w, Proceed(0));
    Snoc(w, [Proceed(0)], w1, Proceed(0));
    Snoc(w, [Proceed(0), Proceed(0)], w2, Proceed(0));
    assert [] + [Proceed(0)] == [Proceed(0)] && [Proceed(0)] + [Proceed(0)] == [Proceed(0), Proceed(0)];
    assert [Proceed(0), Proceed(0)] + [Proceed(0)] == [Proceed(0), Proceed(0), Proceed(0)];
  }
}
