/**
 Accounts, reset tokens and the transactions that change passwords, as PostgreSQL runs them: row locks, a
 `FOR UPDATE` select that looks again at a row it waited for, private writes until the commit, and `now()`
 fixed at the start of the transaction. Transactions interleave at their queries; any of them may be rolled
 back at any time (an error, a lost connection, a deadlock). A password stands for its hash, a reset token
 for the SHA-256 of its random bytes, which never repeat.
 */
module AuthModel {
  import opened Options

  type UserId = nat
  type Password = nat
  type Hash = nat
  type TxId = nat

  const RESET_TOKEN_TTL_MS: nat := 60 * 60 * 1000

  datatype User = User(password: Password, changedAt: Option<nat>)

  datatype ResetToken = ResetToken(user: UserId, expiresAt: nat, usedAt: Option<nat>)

  /** What a reset transaction does next: select, update the user, mark the token, commit, or roll back. */
  datatype Phase = ToSelect | ToUpdate(user: UserId) | ToMark(user: UserId) | ToCommit(user: UserId) | ToRollback

  /** A reset, or the single update statement of a password change. */
  datatype Tx =
    | Reset(began: nat, hash: Hash, password: Password, phase: Phase)
    | Change(began: nat, user: UserId, password: Password)

  datatype Via = BySignup | ByReset(hash: Hash) | ByChange

  /** A committed write of a password: `stamp` is what it wrote to `password_changed_at`. */
  datatype Entry = Entry(user: UserId, password: Password, stamp: Option<nat>, via: Via, at: nat)

  /** `log` and `issued` (every token ever issued, with its expiry) are histories; nothing reads them. */
  datatype World = World(
    now: nat, users: map<UserId, User>, tokens: map<Hash, ResetToken>, txs: map<TxId, Tx>,
    issued: map<Hash, nat>, log: seq<Entry>)

  datatype Event =
    | Signup(newUser: UserId, password: Password)
    | Request(user: UserId, hash: Hash, at: nat)
    | BeginReset(tx: TxId, hash: Hash, password: Password)
    | BeginChange(tx: TxId, user: UserId, password: Password)
    | Proceed(tx: TxId)
    | Rollback(tx: TxId)
    | DeleteUser(user: UserId)
    | Advance(ms: nat)

  /** The transaction has the row of this token locked. */
  predicate Holds(t: Tx, h: Hash) {
    t.Reset? && t.hash == h && !t.phase.ToSelect? && !t.phase.ToRollback?
  }

  predicate LocksUser(t: Tx, u: UserId) {
    t.Reset? && (t.phase.ToMark? || t.phase.ToCommit?) && t.phase.user == u
  }

  predicate Holder(txs: map<TxId, Tx>, id: TxId, h: Hash) { id in txs && Holds(txs[id], h) }

  predicate TokenHeld(txs: map<TxId, Tx>, h: Hash) { exists id | id in txs :: Holder(txs, id, h) }

  predicate UserLocked(txs: map<TxId, Tx>, u: UserId) { exists id | id in txs :: LocksUser(txs[id], u) }

  /** The select's condition, with the transaction's own start as the time. */
  predicate Usable(tokens: map<Hash, ResetToken>, h: Hash, began: nat) {
    h in tokens && tokens[h].usedAt.None? && tokens[h].expiresAt > began
  }

  function SetPhase(w: World, id: TxId, t: Tx, p: Phase): World
    requires t.Reset?
  {
    w.(txs := w.txs[id := t.(phase := p)])
  }

  function Commit(w: World, id: TxId, u: UserId, password: Password, stamp: nat, via: Via): World {
    w.(txs := w.txs - {id}, users := w.users[u := User(password, Some(stamp))],
       log := w.log + [Entry(u, password, Some(stamp), via, w.now)])
  }

  function ProceedReset(w: World, id: TxId, t: Tx): World
    requires t.Reset?
  {
    match t.phase
    case ToSelect =>
      if !Usable(w.tokens, t.hash, t.began) then SetPhase(w, id, t, ToRollback)
      else if TokenHeld(w.txs, t.hash) then w
      else SetPhase(w, id, t, ToUpdate(w.tokens[t.hash].user))
    case ToUpdate(u) => if UserLocked(w.txs, u) then w else SetPhase(w, id, t, ToMark(u))
    case ToMark(u) => SetPhase(w, id, t, ToCommit(u))
    case ToCommit(u) =>
      if u !in w.users || t.hash !in w.tokens then w.(txs := w.txs - {id})
      else
        Commit(w, id, u, t.password, t.began, ByReset(t.hash))
          .(tokens := w.tokens[t.hash := w.tokens[t.hash].(usedAt := Some(t.began))])
    case ToRollback => w.(txs := w.txs - {id})
  }

  function ProceedChange(w: World, id: TxId, t: Tx): World
    requires t.Change?
  {
    if t.user !in w.users then w.(txs := w.txs - {id})
    else if UserLocked(w.txs, t.user) then w
    else Commit(w, id, t.user, t.password, t.began, ByChange)
  }

  /** `DELETE FROM users`, which waits for the locks of the rows it cascades to. */
  function Delete(w: World, u: UserId): World {
    if UserLocked(w.txs, u) || exists h | h in w.tokens :: w.tokens[h].user == u && TokenHeld(w.txs, h) then w
    else w.(users := w.users - {u}, tokens := map h | h in w.tokens && w.tokens[h].user != u :: w.tokens[h])
  }

  ghost predicate Enabled(w: World, e: Event) {
    match e
    case Signup(u, _) => forall k | 0 <= k < |w.log| :: w.log[k].user != u
    case Request(u, h, at) => u in w.users && h !in w.issued && at <= w.now
    case BeginReset(id, _, _) => id !in w.txs
    case BeginChange(id, _, _) => id !in w.txs
    case Proceed(id) => id in w.txs
    case Rollback(id) => id in w.txs
    case _ => true
  }

  function Next(w: World, e: Event): World {
    match e
    case Signup(u, p) => w.(users := w.users[u := User(p, None)], log := w.log + [Entry(u, p, None, BySignup, w.now)])
    case Request(u, h, at) =>
      w.(tokens := w.tokens[h := ResetToken(u, at + RESET_TOKEN_TTL_MS, None)],
        issued := w.issued[h := at + RESET_TOKEN_TTL_MS])
    case BeginReset(id, h, p) => w.(txs := w.txs[id := Reset(w.now, h, p, ToSelect)])
    case BeginChange(id, u, p) => w.(txs := w.txs[id := Change(w.now, u, p)])
    case Proceed(id) =>
      if id !in w.txs then w
      else if w.txs[id].Reset? then ProceedReset(w, id, w.txs[id])
      else ProceedChange(w, id, w.txs[id])
    case Rollback(id) => w.(txs := w.txs - {id})
    case DeleteUser(u) => Delete(w, u)
    case Advance(ms) => w.(now := w.now + ms)
  }

  function Fresh(now: nat): World { World(now, map[], map[], map[], map[], []) }

  ghost predicate Run(w: World, es: seq<Event>)
    decreases |es|
  {
    es == [] || (Enabled(w, es[0]) && Run(Next(w, es[0]), es[1..]))
  }

  function After(w: World, es: seq<Event>): World
    decreases |es|
  {
    if es == [] then w else After(Next(w, es[0]), es[1..])
  }

  /** The run `es` leads from `w` to `v`. */
  ghost predicate Leads(w: World, es: seq<Event>, v: World) { Run(w, es) && After(w, es) == v }

  lemma {:induction false} Snoc(w: World, es: seq<Event>, v: World, e: Event)
    requires Leads(w, es, v) && Enabled(v, e)
    ensures Leads(w, es + [e], Next(v, e))
    decreases |es|
  {
    if es == [] {
      assert [] + [e] == [e] && [e][1..] == [];
    } else {
      assert (es + [e])[1..] == es[1..] + [e];
      Snoc(Next(w, es[0]), es[1..], v, e);
    }
  }
}
