/** Reset tokens over every interleaving of transactions: used at most once, in time, and together with the password. */
module ResetTokens {
  import opened Options
  import opened AuthModel

  ghost predicate UsedAt(log: seq<Entry>, h: Hash, k: nat) {
    k < |log| && log[k].via == ByReset(h)
  }

  /** The latest committed write to the user's password. */
  function Latest(log: seq<Entry>, u: UserId): Option<Entry>
    decreases |log|
  {
    if log == [] then None
    else if log[|log| - 1].user == u then Some(log[|log| - 1])
    else Latest(log[..|log| - 1], u)
  }

  /** A transaction past its select holds a token that nobody else holds and that is still unused. */
  ghost predicate TxInv(w: World) {
    && (forall id | id in w.txs :: w.txs[id].began <= w.now)
    && (forall id, h | Holder(w.txs, id, h) ::
          Usable(w.tokens, h, w.txs[id].began) && w.tokens[h].user == w.txs[id].phase.user)
    && (forall i, j, h | Holder(w.txs, i, h) && Holder(w.txs, j, h) :: i == j)
  }

  ghost predicate TokenInv(w: World) {
    forall h | h in w.tokens ::
      && h in w.issued && w.issued[h] == w.tokens[h].expiresAt && w.tokens[h].user in w.users
      && (w.tokens[h].usedAt.None? ==> forall k: nat :: !UsedAt(w.log, h, k))
      && (w.tokens[h].usedAt.Some? ==> exists k: nat :: UsedAt(w.log, h, k) && w.log[k].stamp == w.tokens[h].usedAt)
  }

  ghost predicate LogInv(w: World) {
    && (forall h, k: nat | UsedAt(w.log, h, k) ::
      h in w.issued && w.log[k].stamp.Some? && w.log[k].stamp.value < w.issued[h])
    && (forall h, j: nat, k: nat | UsedAt(w.log, h, j) && UsedAt(w.log, h, k) :: j == k)
    && (forall k | 0 <= k < |w.log| ::
      w.log[k].at <= w.now
      && (w.log[k].stamp.Some? ==> w.log[k].stamp.value <= w.log[k].at))
  }

  ghost predicate UserInv(w: World) {
    forall u | u in w.users ::
      var last := Latest(w.log, u);
      last.Some? && w.users[u] == User(last.value.password, last.value.stamp)
  }

  ghost predicate Inv(w: World) { TxInv(w) && TokenInv(w) && LogInv(w) && UserInv(w) }

  /** One more entry in the log. */
  lemma LogGrows(log: seq<Entry>, e: Entry)
    ensures forall h, k: nat :: UsedAt(log + [e], h, k) <==> UsedAt(log, h, k) || (k == |log| && e.via == ByReset(h))
    ensures forall u :: Latest(log + [e], u) == if e.user == u then Some(e) else Latest(log, u)
  {
    assert (log + [e])[..|log|] == log;
  }

  lemma HoldersAfter(txs: map<TxId, Tx>, id: TxId, t: Tx)
    ensures forall i, h | i != id :: Holder(txs[id := t], i, h) <==> Holder(txs, i, h)
    ensures forall h :: Holder(txs[id := t], id, h) <==> Holds(t, h)
    ensures forall i, h :: Holder(txs - {id}, i, h) <==> i != id && Holder(txs, i, h)
  {
  }

  /** A step that only moves one transaction on. */
  lemma PutTx(w: World, id: TxId, t: Tx)
    requires Inv(w) && t.began <= w.now
    requires forall h | Holds(t, h) ::
      && Usable(w.tokens, h, t.began) && w.tokens[h].user == t.phase.user
      && forall i | Holder(w.txs, i, h) :: i == id
    ensures Inv(w.(txs := w.txs[id := t]))
  {
    HoldersAfter(w.txs, id, t);
    var v := w.(txs := w.txs[id := t]);
    forall i, h | Holder(v.txs, i, h)
      ensures Usable(v.tokens, h, v.txs[i].began) && v.tokens[h].user == v.txs[i].phase.user
    {
      assert i != id ==> Holder(w.txs, i, h);
    }
    assert forall i, h | Holder(v.txs, i, h) :: i != id ==> Holder(w.txs, i, h);
  }

  lemma DropTx(w: World, id: TxId)
    requires Inv(w)
    ensures Inv(w.(txs := w.txs - {id}))
  {
    assert forall i, h | Holder(w.txs - {id}, i, h) :: Holder(w.txs, i, h);
  }

  lemma SelectInv(w: World, id: TxId, t: Tx)
    requires Inv(w) && id in w.txs && w.txs[id] == t && t.Reset? && !t.phase.ToCommit?
    ensures Inv(ProceedReset(w, id, t))
  {
    var v := ProceedReset(w, id, t);
    if id in v.txs {
      var t2 := v.txs[id];
      forall h | Holds(t2, h)
        ensures Usable(w.tokens, h, t2.began) && w.tokens[h].user == t2.phase.user
        ensures forall i | Holder(w.txs, i, h) :: i == id
      {
        assert !t.phase.ToSelect? ==> Holder(w.txs, id, h);
        assert t.phase.ToSelect? && v != w ==> !TokenHeld(w.txs, h);
      }
      if v != w { PutTx(w, id, t2); }
    } else {
      DropTx(w, id);
    }
  }

  lemma ResetCommitInv(w: World, id: TxId, t: Tx)
    requires Inv(w) && id in w.txs && w.txs[id] == t && t.Reset? && t.phase.ToCommit?
    ensures Inv(ProceedReset(w, id, t))
  {
    var v := ProceedReset(w, id, t);
    var h := t.hash;
    var e := Entry(t.phase.user, t.password, Some(t.began), ByReset(h), w.now);
    assert Holder(w.txs, id, h);
    assert v.log == w.log + [e];
    LogGrows(w.log, e);
    HoldersAfter(w.txs, id, t);
    assert TxInv(v);
    assert UsedAt(v.log, h, |w.log|);
    assert TokenInv(v) by {
      forall g | g in v.tokens && v.tokens[g].usedAt.Some?
        ensures exists k: nat :: UsedAt(v.log, g, k) && v.log[k].stamp == v.tokens[g].usedAt
      {
        if g != h {
          var k: nat :| UsedAt(w.log, g, k) && w.log[k].stamp == w.tokens[g].usedAt;
          assert UsedAt(v.log, g, k);
        }
      }
    }
    assert LogInv(v);
  }

  /** An entry that uses no token. */
  lemma PlainEntryInv(w: World, v: World, e: Entry)
    requires Inv(w) && !e.via.ByReset? && e.at == w.now && (e.stamp.Some? ==> e.stamp.value <= w.now)
    requires v == w.(log := w.log + [e], users := w.users[e.user := User(e.password, e.stamp)], txs := v.txs)
      && TxInv(v)
    ensures Inv(v)
  {
    LogGrows(w.log, e);
    forall h | h in v.tokens && v.tokens[h].usedAt.Some?
      ensures exists k: nat :: UsedAt(v.log, h, k) && v.log[k].stamp == v.tokens[h].usedAt
    {
      var k: nat :| UsedAt(w.log, h, k) && w.log[k].stamp == w.tokens[h].usedAt;
      assert UsedAt(v.log, h, k);
    }
  }

  lemma ProceedInv(w: World, id: TxId)
    requires Inv(w) && id in w.txs
    ensures Inv(Next(w, Proceed(id)))
  {
    var t := w.txs[id];
    if t.Reset? {
      if t.phase.ToCommit? { ResetCommitInv(w, id, t); } else { SelectInv(w, id, t); }
    } else {
      var v := ProceedChange(w, id, t);
      DropTx(w, id);
      if t.user in w.users && !UserLocked(w.txs, t.user) {
        PlainEntryInv(w, v, Entry(t.user, t.password, Some(t.began), ByChange, w.now));
      }
    }
  }

  lemma DeleteInv(w: World, u: UserId)
    requires Inv(w)
    ensures Inv(Delete(w, u))
  {
    var v := Delete(w, u);
    forall id, h | Holder(v.txs, id, h)
      ensures Usable(v.tokens, h, v.txs[id].began) && v.tokens[h].user == v.txs[id].phase.user
    {
      assert Holder(w.txs, id, h) && TokenHeld(w.txs, h);
    }
  }

  lemma RequestInv(w: World, u: UserId, h: Hash, at: nat)
    requires Inv(w) && Enabled(w, Request(u, h, at))
    ensures Inv(Next(w, Request(u, h, at)))
  {
    var v := Next(w, Request(u, h, at));
    assert forall k: nat :: !UsedAt(w.log, h, k);
    assert TokenInv(v);
  }

  lemma StepInv(w: World, e: Event)
    requires Inv(w) && Enabled(w, e)
    ensures Inv(Next(w, e))
  {
    match e
    case Signup(u, p) => PlainEntryInv(w, Next(w, e), Entry(u, p, None, BySignup, w.now));
    case Proceed(id) => ProceedInv(w, id);
    case DeleteUser(u) => DeleteInv(w, u);
    case BeginReset(id, h, p) => PutTx(w, id, Reset(w.now, h, p, ToSelect));
    case BeginChange(id, u, p) => PutTx(w, id, Change(w.now, u, p));
    case Rollback(id) => DropTx(w, id);
    case Request(u, h, at) => RequestInv(w, u, h, at);
    case Advance(_) =>
  }

  lemma {:induction false} RunInv(w: World, es: seq<Event>)
    requires Inv(w) && Run(w, es)
    ensures Inv(After(w, es))
    decreases |es|
  {
    if es != [] {
      StepInv(w, es[0]);
      RunInv(Next(w, es[0]), es[1..]);
    }
  }

  /** At most one transaction has a user's row locked. */
  ghost predicate LockInv(w: World) {
    forall i, j, u | i in w.txs && j in w.txs && LocksUser(w.txs[i], u) && LocksUser(w.txs[j], u) :: i == j
  }

  /** A lock is had before the step, or taken in it when nobody has it. */
  lemma StepLock(w: World, e: Event, i: TxId, u: UserId)
    requires Enabled(w, e) && i in Next(w, e).txs && LocksUser(Next(w, e).txs[i], u)
    ensures (i in w.txs && LocksUser(w.txs[i], u)) || (e == Proceed(i) && !UserLocked(w.txs, u))
  {
  }

  lemma StepLocks(w: World, e: Event)
    requires LockInv(w) && Enabled(w, e)
    ensures LockInv(Next(w, e))
  {
    var v := Next(w, e);
    forall i, j, u | i in v.txs && j in v.txs && LocksUser(v.txs[i], u) && LocksUser(v.txs[j], u)
      ensures i == j
    {
      StepLock(w, e, i, u);
      StepLock(w, e, j, u);
    }
  }

  lemma {:induction false} RunLocks(w: World, es: seq<Event>)
    requires LockInv(w) && Run(w, es)
    ensures LockInv(After(w, es))
    decreases |es|
  {
    if es != [] {
      StepLocks(w, es[0]);
      RunLocks(Next(w, es[0]), es[1..]);
    }
  }

  /** Over every interleaving, resets of one user, with whatever tokens, have the user's row one after the other. */
  lemma ResetsOfAUserTakeTurns(start: nat, es: seq<Event>, i: TxId, j: TxId, u: UserId)
    requires Run(Fresh(start), es) && i in After(Fresh(start), es).txs && j in After(Fresh(start), es).txs
    requires LocksUser(After(Fresh(start), es).txs[i], u) && LocksUser(After(Fresh(start), es).txs[j], u)
    ensures i == j
  {
    RunLocks(Fresh(start), es);
  }

  /** Over every interleaving, a reset token commits at most one password change. */
  lemma TokenIsUsedOnce(start: nat, es: seq<Event>, h: Hash, j: nat, k: nat)
    requires Run(Fresh(start), es)
    requires UsedAt(After(Fresh(start), es).log, h, j) && UsedAt(After(Fresh(start), es).log, h, k)
    ensures j == k
  {
    RunInv(Fresh(start), es);
  }

  /**
   In every reachable state a token is marked used exactly when a password change it paid for has been
   committed, at the same stamp; and each user's password and change time are those of the user's latest
   committed write. So the update of the password and of `used_at` are seen together or not at all.
   */
  lemma PasswordAndTokenTogether(start: nat, es: seq<Event>, h: Hash, u: UserId, t: nat)
    requires Run(Fresh(start), es)
    ensures
      var w := After(Fresh(start), es);
      && (h in w.tokens ==>
            (w.tokens[h].usedAt == Some(t) <==> exists k: nat :: UsedAt(w.log, h, k) && w.log[k].stamp == Some(t)))
      && (u in w.users ==>
            Latest(w.log, u).Some? && w.users[u] == User(Latest(w.log, u).value.password, Latest(w.log, u).value.stamp))
  {
    RunInv(Fresh(start), es);
  }

  /** No committed reset began when its token had expired: at its start the token was less than an hour old. */
  lemma NoExpiredTokenCommits(start: nat, es: seq<Event>, k: nat)
    requires Run(Fresh(start), es)
    ensures
      var w := After(Fresh(start), es);
      k < |w.log| && w.log[k].via.ByReset? ==>
        w.log[k].via.hash in w.issued && w.log[k].stamp.Some? && w.log[k].stamp.value < w.issued[w.log[k].via.hash]
  {
    RunInv(Fresh(start), es);
    var w := After(Fresh(start), es);
    if k < |w.log| && w.log[k].via.ByReset? {
      assert UsedAt(w.log, w.log[k].via.hash, k);
    }
  }
}
