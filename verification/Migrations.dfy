/**
 The migration runner. The SQL of a file and the insert of its name run in one transaction, whose writes are
 private until it commits; a boot may be cut off anywhere, also after a commit took effect but before the
 runner learnt of it.
 */
module Migrations {
  import opened Options

  newtype CodeUnit = u: int | 0 <= u < 0x1_0000

  type Name = seq<CodeUnit>

  // ---------------------------------------------------------------------------------------------
  // The sorted directory
  // ---------------------------------------------------------------------------------------------

  /** The default order of `sort()`: by code units. */
  predicate Less(a: Name, b: Name)
    decreases |a|
  {
    b != [] && (a == [] || a[0] < b[0] || (a[0] == b[0] && Less(a[1..], b[1..])))
  }

  const DOT_SQL: Name := [0x2E, 0x73, 0x71, 0x6C]

  predicate IsMigration(f: Name) { |f| >= 4 && f[|f| - 4..] == DOT_SQL }

  ghost predicate Increasing(files: seq<Name>) { forall i, j | 0 <= i < j < |files| :: Less(files[i], files[j]) }

  /** `files` is the directory, filtered and sorted. */
  ghost predicate IsListing(dir: set<Name>, files: seq<Name>) {
    Increasing(files) && forall f :: f in files <==> f in dir && IsMigration(f)
  }

  lemma {:induction false} LessIsStrict(a: Name, b: Name)
    ensures Less(a, b) ==> !Less(b, a) && a != b
    ensures a == b || Less(a, b) || Less(b, a)
    decreases |a|
  {
    if a != [] && b != [] {
      LessIsStrict(a[1..], b[1..]);
      assert a == [a[0]] + a[1..] && b == [b[0]] + b[1..];
    }
  }

  lemma Distinct(files: seq<Name>)
    requires Increasing(files)
    ensures forall i, j | 0 <= i < j < |files| :: files[i] != files[j]
  {
    forall i, j | 0 <= i < j < |files|
      ensures files[i] != files[j]
    {
      LessIsStrict(files[i], files[j]);
    }
  }

  /**
   New files all sort after the old ones exactly when the old listing is a prefix of the new one.
   */
  lemma NewFilesSortLastIffPrefix(before: set<Name>, after: set<Name>, a: seq<Name>, b: seq<Name>)
    requires IsListing(before, a) && IsListing(after, b) && before <= after
    ensures a <= b <==> forall f, g | f in a && g in b && g !in a :: Less(f, g)
  {
    if forall f, g | f in a && g in b && g !in a :: Less(f, g) {
      PrefixWhenLast(a, b, |a|);
      assert a[..|a|] == a;
    }
    if a <= b {
      forall f, g | f in a && g in b && g !in a
        ensures Less(f, g)
      {
        var i :| 0 <= i < |a| && a[i] == f;
        var j :| 0 <= j < |b| && b[j] == g;
        assert b[i] == f;
      }
    }
  }

  lemma {:induction false} PrefixWhenLast(a: seq<Name>, b: seq<Name>, n: nat)
    requires Increasing(a) && Increasing(b) && n <= |a| && forall f | f in a :: f in b
    requires forall f, g | f in a && g in b && g !in a :: Less(f, g)
    ensures n <= |b| && b[..n] == a[..n]
    decreases n
  {
    if n > 0 {
      PrefixWhenLast(a, b, n - 1);
      assert forall k | 0 <= k < n - 1 :: b[k] == a[..n - 1][k] == a[k];
      var f := a[n - 1];
      assert f in a && f in b;
      var j :| 0 <= j < |b| && b[j] == f;
      Distinct(a);
      assert j >= n - 1;
      if j > n - 1 {
        LessIsStrict(b[n - 1], f);
        Distinct(b);
        assert false;
      }
      assert b[..n] == b[..n - 1] + [f] && a[..n] == a[..n - 1] + [f];
    }
  }

  // ---------------------------------------------------------------------------------------------
  // Any number of boots, also at once
  // ---------------------------------------------------------------------------------------------

  /** What is committed: the rows of `schema_migrations`, and the SQL that took effect, both in order. */
  datatype Database = Database(rows: seq<Name>, log: seq<Name>)

  /** What a transaction does next. */
  datatype Query = RunSql | InsertName | Commit | Rollback

  /** An open transaction with its private writes. */
  datatype Tx = Tx(effects: seq<Name>, inserts: seq<Name>, query: Query)

  datatype Boot = Boot(todo: seq<Name>, snapshot: set<Name>, tx: Option<Tx>)

  datatype World = World(db: Database, boots: map<nat, Boot>)

  /** `CommitLost` is a commit that took effect and a boot cut off before it learnt so. */
  datatype Event = Begin(boot: nat, files: seq<Name>) | Step(boot: nat, ok: bool) | CommitLost(boot: nat)
      | Crash(boot: nat)

  function Applied(db: Database): set<Name> { set f | f in db.rows }

  /** An open transaction of another boot has inserted the name: an insert of it waits. */
  predicate Contended(boots: map<nat, Boot>, id: nat, f: Name) {
    exists x | x in boots :: x != id && boots[x].tx.Some? && f in boots[x].tx.value.inserts
  }

  function SetTx(w: World, id: nat, tx: Tx): World
    requires id in w.boots
  {
    w.(boots := w.boots[id := w.boots[id].(tx := Some(tx))])
  }

  function Committed(db: Database, tx: Tx): Database { Database(db.rows + tx.inserts, db.log + tx.effects) }

  function StepTx(w: World, id: nat, b: Boot, tx: Tx, ok: bool): World
    requires id in w.boots && w.boots[id] == b && b.tx == Some(tx) && b.todo != []
  {
    var f := b.todo[0];
    match tx.query
    case RunSql => SetTx(w, id, if ok then Tx(tx.effects + [f], tx.inserts, InsertName) else tx.(query := Rollback))
    case InsertName =>
      if !ok then SetTx(w, id, tx.(query := Rollback))
      else if Contended(w.boots, id, f) then w
      else SetTx(w, id, if f in w.db.rows then tx.(query := Rollback) else Tx(tx.effects, tx.inserts + [f], Commit))
    case Commit =>
      if ok then World(Committed(w.db, tx), w.boots[id := Boot(b.todo[1..], b.snapshot, None)])
      else SetTx(w, id, tx.(query := Rollback))
    case Rollback => w.(boots := w.boots - {id})
  }

  /** The next file: skipped, or its transaction begun unless connecting throws; with no file left the boot is done. */
  function NextFile(w: World, id: nat, b: Boot, ok: bool): World {
    if b.todo == [] then w.(boots := w.boots - {id})
    else if b.todo[0] in b.snapshot then w.(boots := w.boots[id := b.(todo := b.todo[1..])])
    else if ok then w.(boots := w.boots[id := b.(tx := Some(Tx([], [], RunSql)))])
    else w.(boots := w.boots - {id})
  }

  predicate AtCommit(b: Boot) { b.todo != [] && b.tx.Some? && b.tx.value.query.Commit? }

  function Next(w: World, e: Event): World {
    match e
    case Begin(id, files) => w.(boots := w.boots[id := Boot(files, Applied(w.db), None)])
    case Crash(id) => w.(boots := w.boots - {id})
    case CommitLost(id) =>
      if id in w.boots && AtCommit(w.boots[id]) then World(Committed(w.db, w.boots[id].tx.value), w.boots - {id}) else w
    case Step(id, ok) =>
      if id !in w.boots then w
      else if w.boots[id].tx.Some? && w.boots[id].todo != [] then StepTx(w, id, w.boots[id], w.boots[id].tx.value, ok)
      else NextFile(w, id, w.boots[id], ok)
  }

  ghost predicate Enabled(w: World, e: Event) {
    match e
    case Begin(id, _) => id !in w.boots
    case CommitLost(id) => id in w.boots && AtCommit(w.boots[id])
    case _ => e.boot in w.boots
  }

  ghost predicate Run(w: World, es: seq<Event>)
    decreases |es|
  {
    es == [] || (Enabled(w, es[0]) && Run(Next(w, es[0]), es[1..]))
  }

  function After(w: World, es: seq<Event>): World
    decreases |es|
  {
    if es == [] then w else After(Next(w, es[0]), es[1..])
  }

  ghost predicate Once(names: seq<Name>) { forall i, j | 0 <= i < j < |names| :: names[i] != names[j] }

  ghost predicate ExactlyOnce(db: Database) {
    (forall f :: f in db.log <==> f in db.rows) && Once(db.log) && Once(db.rows)
  }

  /** What an open transaction of a boot has done so far. */
  ghost predicate TxInv(b: Boot, db: Database) {
    b.tx.Some? ==>
      && b.todo != []
      && var t, f := b.tx.value, b.todo[0];
      match t.query
      case RunSql => t.effects == [] && t.inserts == []
      case InsertName => t.effects == [f] && t.inserts == []
      case Commit => t.effects == [f] && t.inserts == [f] && f !in db.rows
      case Rollback => t.inserts == [] || (t.inserts == [f] && f !in db.rows)
  }

  predicate Inserted(boots: map<nat, Boot>, id: nat, f: Name) {
    id in boots && boots[id].tx.Some? && f in boots[id].tx.value.inserts
  }

  ghost predicate Inv(w: World) {
    && ExactlyOnce(w.db)
    && (forall id | id in w.boots :: TxInv(w.boots[id], w.db))
    && (forall x, y, f | Inserted(w.boots, x, f) && Inserted(w.boots, y, f) :: x == y)
  }

  /** A step that commits nothing. */
  lemma BootStepInv(w: World, id: nat, b: Boot)
    requires Inv(w) && TxInv(b, w.db)
    requires forall x, f | b.tx.Some? && f in b.tx.value.inserts && Inserted(w.boots, x, f) :: x == id
    ensures Inv(w.(boots := w.boots[id := b])) && Inv(w.(boots := w.boots - {id}))
  {
    var v := w.(boots := w.boots[id := b]);
    forall x, y, f | Inserted(v.boots, x, f) && Inserted(v.boots, y, f)
      ensures x == y
    {
      assert x != id ==> Inserted(w.boots, x, f);
      assert y != id ==> Inserted(w.boots, y, f);
    }
    assert forall x, f | Inserted(w.boots - {id}, x, f) :: Inserted(w.boots, x, f);
  }

  /** A commit: nobody else has inserted its name, and no row has it. */
  lemma CommitInv(w: World, id: nat, boots: map<nat, Boot>)
    requires Inv(w) && id in w.boots && AtCommit(w.boots[id])
    requires forall x | x in boots ::
      (x != id && x in w.boots && boots[x] == w.boots[x])
      || (x == id && boots[x].tx.None?)
    ensures Inv(World(Committed(w.db, w.boots[id].tx.value), boots))
  {
    var f := w.boots[id].todo[0];
    assert TxInv(w.boots[id], w.db) && Inserted(w.boots, id, f);
    var db := Committed(w.db, w.boots[id].tx.value);
    assert db == Database(w.db.rows + [f], w.db.log + [f]);
    forall x, g | Inserted(boots, x, g)
      ensures Inserted(w.boots, x, g) && x != id && g != f
    {
      assert x != id && Inserted(w.boots, x, g);
    }
    forall x | x in boots
      ensures TxInv(boots[x], db)
    {
      assert x != id ==> TxInv(w.boots[x], w.db);
      assert forall g | boots[x].tx.Some? && g in boots[x].tx.value.inserts :: Inserted(boots, x, g);
    }
  }

  lemma QueryInv(w: World, id: nat, ok: bool)
    requires Inv(w) && id in w.boots && w.boots[id].tx.Some? && w.boots[id].todo != []
    ensures Inv(Next(w, Step(id, ok)))
  {
    var b := w.boots[id];
    var t := b.tx.value;
    var v := Next(w, Step(id, ok));
    assert TxInv(b, w.db);
    if t.query.Commit? && ok {
      CommitInv(w, id, v.boots);
    } else if v != w {
      assert forall f | f in t.inserts :: Inserted(w.boots, id, f);
      if id in v.boots {
        if t.query.InsertName? && v.boots[id].tx.value.query.Commit? {
          assert v.boots[id].tx.value.inserts == [b.todo[0]] && !Contended(w.boots, id, b.todo[0]);
          assert forall x | Inserted(w.boots, x, b.todo[0]) :: x == id;
        } else {
          assert v.boots[id].tx.value.inserts == t.inserts;
        }
        BootStepInv(w, id, v.boots[id]);
      } else {
        BootStepInv(w, id, b.(tx := None));
      }
    }
  }

  lemma StepInv(w: World, e: Event)
    requires Inv(w) && Enabled(w, e)
    ensures Inv(Next(w, e))
  {
    match e
    case Begin(id, files) => BootStepInv(w, id, Boot(files, Applied(w.db), None));
    case Crash(id) => BootStepInv(w, id, w.boots[id].(tx := None));
    case CommitLost(id) => CommitInv(w, id, w.boots - {id});
    case Step(id, ok) =>
      var b := w.boots[id];
      assert TxInv(b, w.db);
      if b.tx.Some? {
        QueryInv(w, id, ok);
      } else {
        var v := Next(w, e);
        BootStepInv(w, id, if id in v.boots then v.boots[id] else b);
      }
  }

  lemma {:induction false} RunInv(w: World, es: seq<Event>)
    requires Inv(w) && Run(w, es)
    ensures Inv(After(w, es))
    decreases |es|
  {
    if es != [] {
      StepInv(w, es[0]);
      RunInv(Next(w, es[0]), es[1..]);
    }
  }

  /**
   Over any boots, one after the other or with their queries interleaved, each cut off anywhere: the table
   names exactly the files whose SQL took effect, each once in the table, and each took effect once.
   */
  lemma EachFileTakesEffectOnce(db: Database, es: seq<Event>)
    requires ExactlyOnce(db) && Run(World(db, map[]), es)
    ensures ExactlyOnce(After(World(db, map[]), es).db)
  {
    RunInv(World(db, map[]), es);
  }

  // ---------------------------------------------------------------------------------------------
  // One boot at a time
  // ---------------------------------------------------------------------------------------------

  /** The files a boot still has to apply, in order. */
  function Missing(files: seq<Name>, applied: set<Name>): seq<Name> {
    if files == [] then []
    else (if files[0] in applied then [] else [files[0]]) + Missing(files[1..], applied)
  }

  /** How an attempt at a file ends; `Lost` is a commit that took effect before the boot was cut off. */
  datatype Outcome = Applies | Fails | Lost

  /** One file's transaction; the primary key refuses a name the table has. */
  function Attempt(db: Database, f: Name, o: Outcome): (Database, bool) {
    if o.Fails? || f in db.rows then (db, false)
    else (Database(db.rows + [f], db.log + [f]), o.Applies?)
  }

  /** A file with no outcome is one the boot never got to. */
  function OutcomeOf(outcomes: map<Name, Outcome>, f: Name): Outcome { if f in outcomes then outcomes[f] else Fails }

  /** The loop over the files: the database after it, and if it finished. */
  function Loop(db: Database, files: seq<Name>, snapshot: set<Name>, outcomes: map<Name, Outcome>): (Database, bool)
    decreases |files|
  {
    if files == [] then (db, true)
    else if files[0] in snapshot then Loop(db, files[1..], snapshot, outcomes)
    else
      var (next, ok) := Attempt(db, files[0], OutcomeOf(outcomes, files[0]));
      if ok then Loop(next, files[1..], snapshot, outcomes) else (next, false)
  }

  function BootOf(db: Database, files: seq<Name>, outcomes: map<Name, Outcome>): (Database, bool) {
    Loop(db, files, Applied(db), outcomes)
  }

  /** A boot appends some of the missing files, in order and from the first; all of them when it finishes. */
  lemma {:induction false} LoopAppendsMissing(db: Database, files: seq<Name>, snapshot: set<Name>,
      outcomes: map<Name, Outcome>) returns (n: nat)
    requires Increasing(files) && forall f | f in files && f in db.rows :: f in snapshot
    ensures
      var (after, finished) := Loop(db, files, snapshot, outcomes);
      var missing := Missing(files, snapshot);
      n <= |missing| && after.log == db.log + missing[..n] && (finished ==> n == |missing|)
    decreases |files|
  {
    if files == [] {
      n := 0;
      assert db.log + Missing(files, snapshot)[..0] == db.log;
    } else {
      var rest := files[1..];
      assert forall i | 0 <= i < |rest| :: rest[i] == files[i + 1];
      assert forall f | f in rest :: f in files;
      if files[0] in snapshot {
        n := LoopAppendsMissing(db, rest, snapshot, outcomes);
        assert Missing(files, snapshot) == Missing(rest, snapshot);
      } else {
        n := AttemptAppends(db, files, snapshot, outcomes);
      }
    }
  }

  lemma AttemptAppends(db: Database, files: seq<Name>, snapshot: set<Name>, outcomes: map<Name, Outcome>)
    returns (n: nat)
    requires Increasing(files) && forall f | f in files && f in db.rows :: f in snapshot
    requires files != [] && files[0] !in snapshot
    ensures
      var (after, finished) := Loop(db, files, snapshot, outcomes);
      var missing := Missing(files, snapshot);
      n <= |missing| && after.log == db.log + missing[..n] && (finished ==> n == |missing|)
    decreases |files|, 0
  {
    var rest := files[1..];
    var missing := Missing(files, snapshot);
    var (next, ok) := Attempt(db, files[0], OutcomeOf(outcomes, files[0]));
    assert missing == [files[0]] + Missing(rest, snapshot);
    if ok {
      Distinct(files);
      assert forall f | f in rest :: f in files && f != files[0];
      var m := LoopAppendsMissing(next, rest, snapshot, outcomes);
      n := m + 1;
      assert missing[..n] == [files[0]] + Missing(rest, snapshot)[..m];
    } else {
      n := if next.log == db.log then 0 else 1;
      assert missing[..0] == [] && missing[..1] == [files[0]];
    }
  }

  lemma MissingOfPrefix(log: seq<Name>, files: seq<Name>, applied: set<Name>)
    requires Increasing(files) && log <= files && forall f :: f in log <==> f in applied
    ensures log + Missing(files, applied) == files
  {
    Distinct(files);
    forall i | 0 <= i < |files|
      ensures files[i] in applied <==> i < |log|
    {
      if i < |log| { assert files[i] == log[i]; }
      assert forall k | 0 <= k < |log| :: log[k] == files[k];
    }
    MissingFrom(files, applied, |log|, 0);
    assert files[0..] == files;
  }

  lemma {:induction false} MissingFrom(files: seq<Name>, applied: set<Name>, n: nat, i: nat)
    requires (forall k | 0 <= k < |files| :: files[k] in applied <==> k < n) && i <= |files| && n <= |files|
    ensures Missing(files[i..], applied) == files[if i < n then n else i..]
    decreases |files| - i
  {
    if i < |files| {
      var rest := files[i..];
      assert rest[0] == files[i] && rest[1..] == files[i + 1..];
      MissingFrom(files, applied, n, i + 1);
      if i >= n { assert rest == [files[i]] + files[i + 1..]; }
    }
  }

  /** `log` is what a finished boot over this directory leaves, or an initial part of it. */
  ghost predicate InOrder(db: Database, files: seq<Name>) { ExactlyOnce(db) && db.log <= files }

  /**
   A boot over a directory whose listing starts with what was applied keeps it so, wherever it is cut off, and
   applies everything when it finishes.
   */
  lemma BootInOrder(db: Database, files: seq<Name>, outcomes: map<Name, Outcome>)
    requires Increasing(files) && InOrder(db, files)
    ensures
      var (after, finished) := BootOf(db, files, outcomes);
      InOrder(after, files) && (finished ==> after.log == files)
  {
    var n := LoopAppendsMissing(db, files, Applied(db), outcomes);
    MissingOfPrefix(db.log, files, Applied(db));
    LoopExactlyOnce(db, files, Applied(db), outcomes);
    var missing := Missing(files, Applied(db));
    assert files == db.log + missing[..n] + missing[n..];
  }

  lemma {:induction false} LoopExactlyOnce(db: Database, files: seq<Name>, snapshot: set<Name>,
      outcomes: map<Name, Outcome>)
    requires ExactlyOnce(db)
    ensures ExactlyOnce(Loop(db, files, snapshot, outcomes).0)
    decreases |files|
  {
    if files != [] {
      if files[0] in snapshot {
        LoopExactlyOnce(db, files[1..], snapshot, outcomes);
      } else {
        LoopExactlyOnce(Attempt(db, files[0], OutcomeOf(outcomes, files[0])).0, files[1..], snapshot, outcomes);
      }
    }
  }

  /** A boot with the directory it found and how its attempts ended. */
  datatype Start = Start(files: seq<Name>, outcomes: map<Name, Outcome>)

  ghost predicate NewFilesSortLast(starts: seq<Start>) {
    && (forall i | 0 <= i < |starts| :: Increasing(starts[i].files))
    && (forall i | 0 < i < |starts| :: starts[i - 1].files <= starts[i].files)
  }

  function AfterBoots(db: Database, starts: seq<Start>): (Database, bool)
    decreases |starts|
  {
    if starts == [] then (db, true)
    else if |starts| == 1 then BootOf(db, starts[0].files, starts[0].outcomes)
    else AfterBoots(BootOf(db, starts[0].files, starts[0].outcomes).0, starts[1..])
  }

  /**
   When new files always sort last, what has been applied is, after any boots however cut off, an initial part
   of the sorted directory, and all of it once the last boot finished.
   */
  lemma {:induction false} AppliedIsAPrefix(db: Database, starts: seq<Start>)
    requires starts != [] && NewFilesSortLast(starts) && InOrder(db, starts[0].files)
    ensures
      var (after, finished) := AfterBoots(db, starts);
      var files := starts[|starts| - 1].files;
      InOrder(after, files) && (finished ==> after.log == files)
    decreases |starts|
  {
    BootInOrder(db, starts[0].files, starts[0].outcomes);
    if |starts| > 1 {
      var rest := starts[1..];
      assert forall i | 0 <= i < |rest| :: rest[i] == starts[i + 1];
      assert starts[0].files <= rest[0].files;
      AppliedIsAPrefix(BootOf(db, starts[0].files, starts[0].outcomes).0, rest);
    }
  }

  /**
   Without that the order is lost: a finished boot leaves the files in directory order if and only if what had
   been applied before was an initial part of the directory.
   */
  lemma FinishedBootInOrderIff(db: Database, files: seq<Name>, outcomes: map<Name, Outcome>)
    requires ExactlyOnce(db) && Increasing(files) && BootOf(db, files, outcomes).1
    ensures BootOf(db, files, outcomes).0.log == files <==> db.log <= files
    ensures forall f | f in files :: f in BootOf(db, files, outcomes).0.log
  {
    var n := LoopAppendsMissing(db, files, Applied(db), outcomes);
    var missing := Missing(files, Applied(db));
    assert missing[..n] == missing;
    if db.log <= files { BootInOrder(db, files, outcomes); }
    forall f | f in files
      ensures f in db.log + missing
    {
      MissingHas(files, Applied(db), f);
    }
  }

  /** A finished boot has applied, of the directory, exactly the files whose names end in `.sql`. */
  lemma FinishedBootAppliesTheSqlFiles(db: Database, dir: set<Name>, files: seq<Name>, outcomes: map<Name, Outcome>)
    requires ExactlyOnce(db) && IsListing(dir, files) && BootOf(db, files, outcomes).1
    ensures
      var sql: Name := [0x2E, 0x73, 0x71, 0x6C];
      forall f :: f in BootOf(db, files, outcomes).0.log <==>
        f in db.log || (f in dir && |f| >= 4 && f[|f| - 4..] == sql)
  {
    var n := LoopAppendsMissing(db, files, Applied(db), outcomes);
    var missing := Missing(files, Applied(db));
    assert missing[..n] == missing;
    forall f
      ensures f in missing <==> f in files && f !in db.rows
    {
      MissingHas(files, Applied(db), f);
    }
  }

  lemma {:induction false} MissingHas(files: seq<Name>, applied: set<Name>, f: Name)
    ensures f in Missing(files, applied) <==> f in files && f !in applied
    decreases |files|
  {
    if files != [] {
      MissingHas(files[1..], applied, f);
      assert f in files <==> f == files[0] || f in files[1..];
    }
  }

  /**
   It happens: with a file that sorts between two applied ones a finished boot applies it last, and the log is
   not in directory order.
   */
  lemma LateFileIsAppliedLast()
    ensures
      var a, b, c := [0x61] + DOT_SQL, [0x62] + DOT_SQL, [0x63] + DOT_SQL;
      var db := Database([a, c], [a, c]);
      && ExactlyOnce(db) && Increasing([a, b, c]) && (forall f | f in [a, b, c] :: IsMigration(f))
      && BootOf(db, [a, b, c], map[b := Applies]) == (Database([a, c, b], [a, c, b]), true)
  {
    var a: Name, b: Name, c: Name := [0x61] + DOT_SQL, [0x62] + DOT_SQL, [0x63] + DOT_SQL;
    var db := Database([a, c], [a, c]);
    assert a[0] == 0x61 && b[0] == 0x62 && c[0] == 0x63;
    assert Less(a, b) && Less(b, c) && Less(a, c);
    assert a[1..] == DOT_SQL && b[1..] == DOT_SQL && c[1..] == DOT_SQL;
    assert a in db.rows && c in db.rows && b !in db.rows;
    var files := [a, b, c];
    assert files[1..] == [b, c] && [b, c][1..] == [c] && [c][1..] == [];
    var next := Database([a, c] + [b], [a, c] + [b]);
    assert Loop(next, [c], Applied(db), map[b := Applies]) == (next, true);
    assert Loop(db, [b, c], Applied(db), map[b := Applies]) == (next, true);
    assert Loop(db, files, Applied(db), map[b := Applies]) == (next, true);
    assert next == Database([a, c, b], [a, c, b]);
  }

  // ---------------------------------------------------------------------------------------------
  // Every lone boot
  // ---------------------------------------------------------------------------------------------

  /** Nothing but this boot's steps, to its end or to where it is cut off. */
  ghost predicate Completes(w: World, es: seq<Event>, id: nat) {
    && Run(w, es) && After(w, es).boots == map[]
    && forall i | 0 <= i < |es| :: !es[i].Begin? && es[i].boot == id
  }

  lemma Tail(w: World, es: seq<Event>, id: nat)
    requires Completes(w, es, id)
    ensures w.boots == map[] <==> es == []
    ensures es != [] ==>
      && Enabled(w, es[0]) && !es[0].Begin? && es[0].boot == id
      && Completes(Next(w, es[0]), es[1..], id) && After(w, es) == After(Next(w, es[0]), es[1..])
  {
    if es != [] {
      assert forall i | 0 <= i < |es| - 1 :: es[1..][i] == es[i + 1];
    }
  }

  /** The boot ends by itself, with nothing left to do. */
  ghost predicate Finishes(w: World, es: seq<Event>, id: nat)
    decreases |es|
  {
    es != [] &&
    ((id in w.boots && w.boots[id].todo == [] && w.boots[id].tx.None? && es[0].Step? && es[0].boot == id)
     || Finishes(Next(w, es[0]), es[1..], id))
  }

  lemma {:induction false} LoopIgnores(db: Database, files: seq<Name>, snapshot: set<Name>,
      outcomes: map<Name, Outcome>, f: Name, o: Outcome)
    requires f !in files
    ensures Loop(db, files, snapshot, outcomes[f := o]) == Loop(db, files, snapshot, outcomes)
    decreases |files|
  {
    if files != [] {
      var next := if files[0] in snapshot then db else Attempt(db, files[0], OutcomeOf(outcomes, files[0])).0;
      LoopIgnores(next, files[1..], snapshot, outcomes, f, o);
    }
  }

  /** A transaction left alone: it commits and the boot goes on, or the boot is over with or without its effect. */
  lemma {:induction false} AttemptRuns(w: World, es: seq<Event>, id: nat, b: Boot)
    returns (v: World, rest: seq<Event>, o: Outcome)
    requires Completes(w, es, id) && w.boots == map[id := b] && TxInv(b, w.db) && b.tx.Some?
    ensures v.db == Attempt(w.db, b.todo[0], o).0
    ensures v.boots == if Attempt(w.db, b.todo[0], o).1 then map[id := Boot(b.todo[1..], b.snapshot, None)] else map[]
    ensures Completes(v, rest, id) && After(v, rest) == After(w, es) && |rest| < |es|
    ensures Finishes(w, es, id) ==> Finishes(v, rest, id)
    decreases |es|
  {
    assert id in w.boots;
    Tail(w, es, id);
    var e := es[0];
    var u := Next(w, e);
    if u.boots == map[] {
      v, rest, o := u, es[1..], if e.CommitLost? then Lost else Fails;
    } else if e.Step? && b.tx.value.query.Commit? && e.ok {
      v, rest, o := u, es[1..], Applies;
    } else {
      AloneKeepsTx(w, id, b, e);
      v, rest, o := AttemptRuns(u, es[1..], id, u.boots[id]);
    }
  }

  lemma AloneKeepsTx(w: World, id: nat, b: Boot, e: Event)
    requires w.boots == map[id := b] && TxInv(b, w.db) && b.tx.Some? && Enabled(w, e) && !e.Begin? && e.boot == id
    requires Next(w, e).boots != map[] && !(e.Step? && b.tx.value.query.Commit? && e.ok)
    ensures
      var u := Next(w, e);
      && id in u.boots && u.boots == map[id := u.boots[id]] && u.db == w.db
      && TxInv(u.boots[id], u.db) && u.boots[id].tx.Some? && u.boots[id].todo == b.todo
      && u.boots[id].snapshot == b.snapshot
  {
    assert w.boots - {id} == map[];
  }

  lemma {:induction false} BootRuns(w: World, es: seq<Event>, id: nat, b: Boot) returns (outcomes: map<Name, Outcome>)
    requires Completes(w, es, id) && w.boots == map[id := b] && b.tx.None? && Once(b.todo)
    ensures After(w, es).db == Loop(w.db, b.todo, b.snapshot, outcomes).0
    ensures Finishes(w, es, id) ==> Loop(w.db, b.todo, b.snapshot, outcomes).1
    decreases |es|
  {
    assert id in w.boots;
    Tail(w, es, id);
    var u := Next(w, es[0]);
    outcomes := map[];
    if u.boots == map[] {
      Tail(u, es[1..], id);
      NothingMore(w.db, b.todo, b.snapshot);
      assert !Finishes(u, es[1..], id);
      assert b.todo == [] ==> Loop(w.db, b.todo, b.snapshot, outcomes).1;
    } else {
      assert b.todo != [] && (Finishes(w, es, id) ==> Finishes(u, es[1..], id));
      var rest := b.todo[1..];
      assert forall i | 0 <= i < |rest| :: rest[i] == b.todo[i + 1];
      if b.todo[0] in b.snapshot {
        outcomes := BootRuns(u, es[1..], id, b.(todo := rest));
      } else {
        outcomes := FileRuns(u, es[1..], id, b);
      }
    }
  }

  lemma {:induction false} NothingMore(db: Database, files: seq<Name>, snapshot: set<Name>)
    ensures Loop(db, files, snapshot, map[]).0 == db
    decreases |files|
  {
    if files != [] && files[0] in snapshot { NothingMore(db, files[1..], snapshot); }
  }

  lemma FileRuns(w: World, es: seq<Event>, id: nat, b: Boot) returns (outcomes: map<Name, Outcome>)
    requires b.tx.None? && Once(b.todo) && b.todo != [] && b.todo[0] !in b.snapshot
    requires Completes(w, es, id) && w.boots == map[id := b.(tx := Some(Tx([], [], RunSql)))]
    ensures After(w, es).db == Loop(w.db, b.todo, b.snapshot, outcomes).0
    ensures Finishes(w, es, id) ==> Loop(w.db, b.todo, b.snapshot, outcomes).1
    decreases |es|, 0
  {
    var f, rest := b.todo[0], b.todo[1..];
    assert forall i | 0 <= i < |rest| :: rest[i] == b.todo[i + 1];
    var v, more, o := AttemptRuns(w, es, id, w.boots[id]);
    outcomes := map[];
    if v.boots == map[] {
      Tail(v, more, id);
      assert !Finishes(v, more, id);
    } else {
      outcomes := BootRuns(v, more, id, Boot(rest, b.snapshot, None));
      LoopIgnores(v.db, rest, b.snapshot, outcomes, f, o);
      assert Finishes(w, es, id) ==> Loop(v.db, rest, b.snapshot, outcomes[f := o]).1;
      assert Attempt(w.db, f, o) == (v.db, true);
    }
    outcomes := outcomes[f := o];
    assert OutcomeOf(outcomes, f) == o;
  }

  /**
   Every boot that runs alone, wherever it is cut off, leaves the database the loop leaves for some outcome of
   each file; when it ends with nothing left to do that loop is a finished one.
   */
  lemma EveryBoot(db: Database, id: nat, files: seq<Name>, es: seq<Event>) returns (outcomes: map<Name, Outcome>)
    requires Increasing(files) && Completes(Next(World(db, map[]), Begin(id, files)), es, id)
    ensures After(Next(World(db, map[]), Begin(id, files)), es).db == BootOf(db, files, outcomes).0
    ensures Finishes(Next(World(db, map[]), Begin(id, files)), es, id) ==> BootOf(db, files, outcomes).1
  {
    Distinct(files);
    var b := Boot(files, Applied(db), None);
    assert Next(World(db, map[]), Begin(id, files)).boots == map[id := b];
    outcomes := BootRuns(Next(World(db, map[]), Begin(id, files)), es, id, b);
  }

  // ---------------------------------------------------------------------------------------------
  // The runner
  // ---------------------------------------------------------------------------------------------

  datatype Result = Finished | DatabaseNotReady | MigrationFailed(file: Name) | CutOff(file: Name)

  class Migrator {
    var rows: seq<Name>
    var log: seq<Name>

    constructor ()
      ensures State() == Database([], [])
    {
      rows, log := [], [];
    }

    ghost function State(): Database
      reads this
    {
      Database(rows, log)
    }

    /** `answers(k)` is whether the probe of attempt `k` succeeds; `waited` is the time slept between attempts. */
    static method WaitForDatabase(maxAttempts: nat, delayMs: nat, answers: nat -> bool)
      returns (ok: bool, attempts: nat, waited: nat)
      ensures ok <==> maxAttempts == 0 || exists k: nat :: 1 <= k <= maxAttempts && answers(k)
      ensures attempts <= maxAttempts && forall k: nat | 1 <= k < attempts :: !answers(k)
      ensures maxAttempts > 0 ==> attempts >= 1 && waited == (attempts - 1) * delayMs
      ensures ok && maxAttempts > 0 ==> answers(attempts)
      ensures !ok ==> attempts == maxAttempts
    {
      attempts, waited := 0, 0;
      while attempts < maxAttempts
        invariant attempts <= maxAttempts && forall k: nat | 1 <= k <= attempts :: !answers(k)
        invariant maxAttempts > 0 ==> attempts < maxAttempts && waited == attempts * delayMs
      {
        attempts := attempts + 1;
        if answers(attempts) { return true, attempts, waited; }
        if attempts == maxAttempts { return false, attempts, waited; }
        waited := waited + delayMs;
        assert waited == attempts * delayMs;
      }
      ok := true;
    }

    method RunMigrations(files: seq<Name>, answers: nat -> bool, outcomes: map<Name, Outcome>) returns (r: Result)
      requires Increasing(files)
      modifies this
      ensures r.DatabaseNotReady? <==> forall k: nat | 1 <= k <= 10 :: !answers(k)
      ensures r.DatabaseNotReady? ==> State() == old(State())
      ensures !r.DatabaseNotReady? ==> (State(), r.Finished?) == BootOf(old(State()), files, outcomes)
      ensures r.MigrationFailed? ==> r.file in files && r.file !in rows
      ensures r.CutOff? ==> r.file in files && r.file in rows
    {
      var ok, _, _ := WaitForDatabase(10, 1000, answers);
      if !ok { return DatabaseNotReady; }
      assert exists k: nat :: 1 <= k <= 10 && answers(k);
      var snapshot := set f | f in rows;
      for i := 0 to |files|
        invariant BootOf(old(State()), files, outcomes) == Loop(State(), files[i..], snapshot, outcomes)
        invariant (forall f | f in snapshot :: f in rows) && forall k | i <= k < |files| && files[k] in rows ::
          files[k] in snapshot
      {
        Distinct(files);
        var file := files[i];
        assert files[i..][0] == file && files[i..][1..] == files[i + 1..];
        if file in snapshot { continue; }
        if OutcomeOf(outcomes, file).Fails? || file in rows {
          return MigrationFailed(file);
        }
        rows := rows + [file];
        log := log + [file];
        if OutcomeOf(outcomes, file).Lost? { return CutOff(file); }
      }
      r := Finished;
    }
  }
}
