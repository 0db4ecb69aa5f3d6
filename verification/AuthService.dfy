/**
 The auth service's calls one at a time, on its two tables, and how a reset that runs alone fits the interleaved
 model.
 */
module AuthService {
  import opened Options
  import opened AuthModel
  import opened AuthTokens
  import opened ResetTokens

  type Users = map<UserId, User>
  type Tokens = map<Hash, ResetToken>

  /** Where a reset can throw; `CommitReply` is a commit that took effect and whose reply was lost. */
  datatype Query = Select | UpdateUser | MarkUsed | CommitTx | CommitReply

  datatype ChangeResult = Changed | UserNotFound | WrongPassword

  /** What is presented as a token: whether its signature is good, and those of its claims that have the right type. */
  datatype Jwt = Jwt(signed: bool, kind: Option<string>, sub: Option<UserId>, iat: Option<nat>, exp: Option<nat>)

  function JwtOf(t: AuthToken): Jwt { Jwt(true, Some("auth"), Some(t.sub), Some(t.iat), Some(t.exp)) }

  /** A reset token's user exists: the foreign key, with its cascade. */
  ghost predicate References(users: Users, tokens: Tokens) {
    forall h | h in tokens :: tokens[h].user in users
  }

  /** Both tables after a reset. */
  function AfterReset(users: Users, tokens: Tokens, h: Hash, password: Password, now: nat): (Users, Tokens) {
    if Usable(tokens, h, now) then
      (users[tokens[h].user := User(password, Some(now))], tokens[h := tokens[h].(usedAt := Some(now))])
    else (users, tokens)
  }

  class AuthStore {
    var users: Users
    var tokens: Tokens

    ghost predicate Valid()
      reads this
    {
      References(users, tokens)
    }

    constructor ()
      ensures Valid() && users == map[] && tokens == map[]
    {
      users, tokens := map[], map[];
    }

    /** The tables as they were at BEGIN. */
    method Undo(savedUsers: Users, savedTokens: Tokens)
      modifies this
      ensures users == savedUsers && tokens == savedTokens
    {
      users, tokens := savedUsers, savedTokens;
    }

    /** `fault` is the query that throws, if one does. The tables are as after the whole reset, or as before it. */
    method ResetPasswordWithToken(h: Hash, newPassword: Password, now: nat, fault: Option<Query>) returns (ok: bool)
      requires Valid()
      modifies this
      ensures Valid()
      ensures ok <==>
        h in old(tokens) && old(tokens)[h].usedAt.None? && now < old(tokens)[h].expiresAt && fault.None?
      ensures (users, tokens) ==
        if ok || fault == Some(CommitReply) then AfterReset(old(users), old(tokens), h, newPassword, now)
        else (old(users), old(tokens))
    {
      var savedUsers, savedTokens := users, tokens;
      ok := false;
      if fault == Some(Select) || h !in tokens || tokens[h].usedAt.Some? || tokens[h].expiresAt <= now { return; }
      var u := tokens[h].user;
      if fault == Some(UpdateUser) { return; }
      users := users[u := User(newPassword, Some(now))];
      if fault == Some(MarkUsed) {
        Undo(savedUsers, savedTokens);
        return;
      }
      tokens := tokens[h := tokens[h].(usedAt := Some(now))];
      if fault == Some(CommitTx) {
        Undo(savedUsers, savedTokens);
        return;
      }
      assert fault.Some? ==> fault.value.CommitReply?;
      ok := fault.None?;
    }

    method ChangePassword(u: UserId, current: Password, newPassword: Password, now: nat) returns (r: ChangeResult)
      requires Valid()
      modifies this`users
      ensures Valid()
      ensures r == if u !in old(users) then UserNotFound else if old(users)[u].password != current then WrongPassword
        else Changed
      ensures users == if r.Changed? then old(users)[u := User(newPassword, Some(now))] else old(users)
    {
      if u !in users { return UserNotFound; }
      if users[u].password != current { return WrongPassword; }
      users := users[u := User(newPassword, Some(now))];
      r := Changed;
    }

    /** `account` is what the lookup by email found; `hash` comes from new random bytes either way. */
    method RequestPasswordReset(account: Option<UserId>, hash: Hash, now: nat)
      requires Valid() && hash !in tokens && (account.Some? ==> account.value in users)
      modifies this`tokens
      ensures Valid()
      ensures tokens == if account.Some?
        then old(tokens)[hash := ResetToken(account.value, now + 3_600_000, None)] else old(tokens)
    {
      var expiresAt := now + RESET_TOKEN_TTL_MS;
      if account.Some? {
        tokens := tokens[hash := ResetToken(account.value, expiresAt, None)];
      }
    }

    /**
     A token is refused for its signature, its age, its kind or the shape of its claims before its user is looked
     up.
     */
    method VerifyAuthToken(j: Jwt, now: nat) returns (user: Option<UserId>)
      ensures user.Some? <==>
        && j.signed && j.kind == Some("auth") && j.sub.Some? && j.iat.Some?
        && (j.exp.Some? ==> now / 1000 < j.exp.value)
        && Accepts(users, AuthToken(j.sub.value, j.iat.value, now / 1000 + 1), now)
      ensures user.Some? ==> user == j.sub
      ensures forall t | j == JwtOf(t) :: user == if Accepts(users, t, now) then Some(t.sub) else None
    {
      if !j.signed || (j.exp.Some? && now / 1000 >= j.exp.value) { return None; }
      if j.kind != Some("auth") || j.sub.None? || j.iat.None? { return None; }
      if j.sub.value !in users { return None; }
      if users[j.sub.value].changedAt.Some? {
        var changedAtSeconds := users[j.sub.value].changedAt.value / 1000;
        if j.iat.value < changedAtSeconds { return None; }
      }
      user := j.sub;
    }
  }

  /** A reset that runs alone leaves the tables as the service's call does. */
  lemma ResetAlone(w: World, id: TxId, h: Hash, password: Password) returns (es: seq<Event>)
    requires w.txs == map[] && References(w.users, w.tokens)
    ensures Run(w, es) && After(w, es).txs == map[]
    ensures (After(w, es).users, After(w, es).tokens) == AfterReset(w.users, w.tokens, h, password, w.now)
  {
    var begun := w.(txs := map[id := Reset(w.now, h, password, ToSelect)]);
    assert begun == Next(w, BeginReset(id, h, password));
    Snoc(w, [], w, BeginReset(id, h, password));
    es := [] + [BeginReset(id, h, password)];
    Snoc(w, es, begun, Proceed(id));
    es := es + [Proceed(id)];
    assert !TokenHeld(begun.txs, h);
    if !Usable(w.tokens, h, w.now) {
      var failed := w.(txs := map[id := Reset(w.now, h, password, ToRollback)]);
      assert failed == Next(begun, Proceed(id));
      Snoc(w, es, failed, Proceed(id));
      es := es + [Proceed(id)];
    } else {
      var selected := w.(txs := map[id := Reset(w.now, h, password, ToUpdate(w.tokens[h].user))]);
      assert selected == Next(begun, Proceed(id));
      es := SelectedCommits(w, es, selected, id, h, password);
    }
  }

  lemma SelectedCommits(w: World, es: seq<Event>, v: World, id: TxId, h: Hash, password: Password)
    returns (run: seq<Event>)
    requires w.txs == map[] && References(w.users, w.tokens) && Usable(w.tokens, h, w.now)
    requires Leads(w, es, v) && v == w.(txs := map[id := Reset(w.now, h, password, ToUpdate(w.tokens[h].user))])
    ensures Run(w, run) && After(w, run).txs == map[]
    ensures (After(w, run).users, After(w, run).tokens) == AfterReset(w.users, w.tokens, h, password, w.now)
  {
    var u := w.tokens[h].user;
    var v1 := w.(txs := map[id := Reset(w.now, h, password, ToMark(u))]);
    var v2 := w.(txs := map[id := Reset(w.now, h, password, ToCommit(u))]);
    assert !UserLocked(v.txs, u);
    assert v1 == Next(v, Proceed(id));
    Snoc(w, es, v, Proceed(id));
    run := es + [Proceed(id)];
    assert v2 == Next(v1, Proceed(id));
    Snoc(w, run, v1, Proceed(id));
    run := run + [Proceed(id)];
    Snoc(w, run, v2, Proceed(id));
    run := run + [Proceed(id)];
    assert v2.txs - {id} == map[];
  }

  // ---------------------------------------------------------------------------------------------
  // Every lone reset
  // ---------------------------------------------------------------------------------------------

  /** Nothing but this transaction's steps, its rollback and time passing, to its end. */
  ghost predicate Completes(w: World, es: seq<Event>, id: TxId) {
    && Run(w, es) && After(w, es).txs == map[]
    && forall i | 0 <= i < |es| :: es[i].Advance? || es[i] == Proceed(id) || es[i] == Rollback(id)
  }

  lemma Tail(w: World, es: seq<Event>, id: TxId)
    requires Completes(w, es, id) && es != []
    ensures Enabled(w, es[0]) && (es[0].Advance? || es[0] == Proceed(id) || es[0] == Rollback(id))
    ensures Completes(Next(w, es[0]), es[1..], id) && After(w, es) == After(Next(w, es[0]), es[1..])
  {
    assert forall i | 0 <= i < |es| - 1 :: es[1..][i] == es[i + 1];
  }

  lemma {:induction false} Idles(w: World, es: seq<Event>, id: TxId)
    requires Completes(w, es, id) && w.txs == map[]
    ensures After(w, es).users == w.users && After(w, es).tokens == w.tokens
    decreases |es|
  {
    if es != [] {
      Tail(w, es, id);
      Idles(Next(w, es[0]), es[1..], id);
    }
  }

  /** The transaction's next step, or its rollback, comes after some time. */
  lemma {:induction false} Awaits(w: World, es: seq<Event>, id: TxId) returns (e: Event, u: World, rest: seq<Event>)
    requires Completes(w, es, id) && id in w.txs
    ensures (e == Proceed(id) || e == Rollback(id)) && u == w.(now := u.now) && Enabled(u, e)
    ensures Completes(Next(u, e), rest, id) && After(Next(u, e), rest) == After(w, es) && |rest| < |es|
    decreases |es|
  {
    Tail(w, es, id);
    if es[0].Advance? {
      e, u, rest := Awaits(Next(w, es[0]), es[1..], id);
    } else {
      e, u, rest := es[0], w, es[1..];
    }
  }

  /** Where the transaction may be: not past its select, or past it with a usable token. */
  ghost predicate Underway(w: World, id: TxId, t: Tx) {
    && t.Reset? && w.txs == map[id := t] && References(w.users, w.tokens)
    && (!t.phase.ToSelect? && !t.phase.ToRollback? ==>
      Usable(w.tokens, t.hash, t.began) && t.phase.user == w.tokens[t.hash].user)
  }

  lemma LoneStep(w: World, id: TxId, t: Tx)
    requires Underway(w, id, t)
    ensures
      var v := Next(w, Proceed(id));
      || (id in v.txs && Underway(v, id, v.txs[id]) && v == w.(txs := v.txs) && SameReset(t, v.txs[id]))
      || (v.txs == map[] && v.users == w.users && v.tokens == w.tokens)
      || (v.txs == map[] && (v.users, v.tokens) == AfterReset(w.users, w.tokens, t.hash, t.password, t.began))
  {
    assert w.txs - {id} == map[];
  }

  predicate SameReset(t: Tx, v: Tx) {
    t.Reset? && v.Reset? && v.hash == t.hash && v.password == t.password && v.began == t.began
  }

  lemma {:induction false} LoneRuns(w: World, es: seq<Event>, id: TxId, t: Tx) returns (committed: bool)
    requires Completes(w, es, id) && Underway(w, id, t)
    ensures (After(w, es).users, After(w, es).tokens)
         == if committed then AfterReset(w.users, w.tokens, t.hash, t.password, t.began) else (w.users, w.tokens)
    decreases |es|
  {
    var e, u, rest := Awaits(w, es, id);
    var v := Next(u, e);
    if e == Rollback(id) {
      assert u.txs - {id} == map[];
      Idles(v, rest, id);
      committed := false;
    } else {
      LoneStep(u, id, t);
      if id in v.txs {
        committed := LoneRuns(v, rest, id, v.txs[id]);
      } else {
        Idles(v, rest, id);
        committed := (v.users, v.tokens) != (u.users, u.tokens);
      }
    }
  }

  /** Every lone reset, however it ends, leaves the tables as after the whole reset, or as before it. */
  lemma EveryReset(w: World, id: TxId, h: Hash, password: Password, es: seq<Event>) returns (committed: bool)
    requires w.txs == map[] && References(w.users, w.tokens) && Completes(Next(w, BeginReset(id, h, password)), es, id)
    ensures
      var v := After(Next(w, BeginReset(id, h, password)), es);
      (v.users, v.tokens) == if committed then AfterReset(w.users, w.tokens, h, password, w.now)
        else (w.users, w.tokens)
  {
    var t := Reset(w.now, h, password, ToSelect);
    assert Next(w, BeginReset(id, h, password)) == w.(txs := map[id := t]);
    committed := LoneRuns(w.(txs := map[id := t]), es, id, t);
  }

  // ---------------------------------------------------------------------------------------------
  // A token requested in time works
  // ---------------------------------------------------------------------------------------------

  /** The token stays its user's with its expiry for as long as the account is not deleted. */
  lemma {:induction false} RunKeepsToken(w: World, es: seq<Event>, u: UserId, h: Hash, expiresAt: nat)
    requires Inv(w) && Run(w, es) && forall i | 0 <= i < |es| :: es[i] != DeleteUser(u)
    requires h in w.tokens && w.tokens[h].user == u && w.tokens[h].expiresAt == expiresAt
    ensures
      var v := After(w, es);
      Inv(v) && h in v.tokens && v.tokens[h].user == u && v.tokens[h].expiresAt == expiresAt
    decreases |es|
  {
    if es != [] {
      StepInv(w, es[0]);
      assert es[0] != DeleteUser(u) && forall i | 0 <= i < |es| - 1 :: es[1..][i] == es[i + 1];
      RunKeepsToken(Next(w, es[0]), es[1..], u, h, expiresAt);
    }
  }

  /**
   Whatever happens after a reset token is requested, short of the account's deletion: while no transaction is open,
   a reset with it can run that gives its user the new password and marks it used if and only if it was requested
   less than an hour before and has paid for no change yet; otherwise a reset that runs alone changes nothing.
   */
  lemma RequestedTokenResetsForAnHour(start: nat, es: seq<Event>, u: UserId, h: Hash, at: nat, between: seq<Event>,
      id: TxId, password: Password) returns (reset: seq<Event>)
    requires Run(Fresh(start), es) && Enabled(After(Fresh(start), es), Request(u, h, at))
    requires Run(Next(After(Fresh(start), es), Request(u, h, at)), between)
      && forall i | 0 <= i < |between| :: between[i] != DeleteUser(u)
    requires After(Next(After(Fresh(start), es), Request(u, h, at)), between).txs == map[]
    ensures
      var v := After(Next(After(Fresh(start), es), Request(u, h, at)), between);
      && Run(v, reset) && After(v, reset).txs == map[] && h in v.tokens
      && if v.now < at + 3_600_000 && forall k: nat :: !UsedAt(v.log, h, k)
         then
           && After(v, reset).users == v.users[u := User(password, Some(v.now))]
           && After(v, reset).tokens == v.tokens[h := v.tokens[h].(usedAt := Some(v.now))]
         else After(v, reset).users == v.users && After(v, reset).tokens == v.tokens
  {
    var w := After(Fresh(start), es);
    RunInv(Fresh(start), es);
    StepInv(w, Request(u, h, at));
    RunKeepsToken(Next(w, Request(u, h, at)), between, u, h, at + RESET_TOKEN_TTL_MS);
    var v := After(Next(w, Request(u, h, at)), between);
    assert v.tokens[h].usedAt.None? <==> forall k: nat :: !UsedAt(v.log, h, k);
    reset := ResetAlone(v, id, h, password);
  }
}
