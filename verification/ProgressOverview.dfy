/** The progress queries, the challenge list they must agree with, and the catalogue that fills both. */
module ProgressOverview {
  import opened Options
  import opened SessionModel
  import opened Sets

  type Slug = string

  /** A challenge by its id; its category, a nullable column, by the category's unique slug. */
  datatype Challenge = Challenge(category: Option<Slug>, isActive: bool)

  datatype Category = Category(name: string, sortOrder: nat)

  datatype Catalogue = Catalogue(categories: map<Slug, Category>, challenges: map<ChallengeId, Challenge>)

  /** One row of the per-category query. */
  datatype CategoryRow = CategoryRow(slug: Slug, name: string, total: nat, solved: nat)

  datatype Overview = Overview(total: nat, solved: nat, categories: seq<CategoryRow>)

  type Table = map<Key, Progress>

  predicate IsSolved(progress: Table, user: UserId, ch: ChallengeId) {
    (user, ch) in progress && progress[(user, ch)].solved
  }

  function ActiveChallenges(cat: Catalogue): set<ChallengeId> {
    set c | c in cat.challenges && cat.challenges[c].isActive
  }

  function InCategory(cat: Catalogue, slug: Slug): set<ChallengeId> {
    set c | c in ActiveChallenges(cat) && cat.challenges[c].category == Some(slug)
  }

  function SolvedIn(cs: set<ChallengeId>, progress: Table, user: UserId): set<ChallengeId> {
    set c | c in cs && IsSolved(progress, user, c)
  }

  function CategoryRows(cat: Catalogue, order: seq<Slug>, progress: Table, user: UserId): seq<CategoryRow>
    requires forall s | s in order :: s in cat.categories
  {
    if order == [] then []
    else
      [CategoryRow(order[0], cat.categories[order[0]].name, |InCategory(cat, order[0])|,
                   |SolvedIn(InCategory(cat, order[0]), progress, user)|)]
      + CategoryRows(cat, order[1..], progress, user)
  }

  ghost predicate Once(order: seq<Slug>) { forall i, j | 0 <= i < j < |order| :: order[i] != order[j] }

  /** The categories, each once, as the second query orders them. */
  ghost predicate IsOrder(cat: Catalogue, order: seq<Slug>) {
    && (forall s :: s in order <==> s in cat.categories)
    && Once(order)
  }

  /** The answer of the progress route. */
  function OverviewOf(cat: Catalogue, order: seq<Slug>, progress: Table, user: UserId): Overview
    requires forall s | s in order :: s in cat.categories
  {
    var active := ActiveChallenges(cat);
    Overview(|active|, |SolvedIn(active, progress, user)|, CategoryRows(cat, order, progress, user))
  }

  /** A row of the challenge list, which joins with the categories. */
  datatype ListRow = ListRow(challenge: ChallengeId, category: Slug, solved: bool)

  function ListOf(cat: Catalogue, progress: Table, user: UserId): set<ListRow> {
    set c | c in ActiveChallenges(cat) && cat.challenges[c].category.Some? ::
      ListRow(c, cat.challenges[c].category.value, IsSolved(progress, user, c))
  }

  /** Every active challenge has a category. */
  ghost predicate Categorised(cat: Catalogue) {
    forall c | c in ActiveChallenges(cat) :: cat.challenges[c].category.Some?
  }

  /** Categories of challenges exist: the foreign key. */
  ghost predicate References(cat: Catalogue) {
    forall c | c in cat.challenges && cat.challenges[c].category.Some? ::
      cat.challenges[c].category.value in cat.categories
  }

  function SumTotals(rows: seq<CategoryRow>): nat { if rows == [] then 0 else rows[0].total + SumTotals(rows[1..]) }

  function SumSolved(rows: seq<CategoryRow>): nat { if rows == [] then 0 else rows[0].solved + SumSolved(rows[1..]) }

  function Among(cat: Catalogue, order: seq<Slug>): set<ChallengeId> {
    set c | c in ActiveChallenges(cat) && cat.challenges[c].category.Some? && cat.challenges[c].category.value in order
  }

  lemma OneCategoryMore(cat: Catalogue, order: seq<Slug>)
    requires order != [] && Once(order)
    ensures Among(cat, order) == InCategory(cat, order[0]) + Among(cat, order[1..])
    ensures InCategory(cat, order[0]) !! Among(cat, order[1..]) && Once(order[1..])
  {
    assert order == [order[0]] + order[1..];
  }

  lemma SolvedSplits(a: set<ChallengeId>, b: set<ChallengeId>, progress: Table, user: UserId)
    requires a !! b
    ensures |a + b| == |a| + |b|
    ensures |SolvedIn(a + b, progress, user)| == |SolvedIn(a, progress, user)| + |SolvedIn(b, progress, user)|
  {
    assert SolvedIn(a + b, progress, user) == SolvedIn(a, progress, user) + SolvedIn(b, progress, user);
  }

  lemma OneRowMore(cat: Catalogue, order: seq<Slug>, progress: Table, user: UserId)
    requires (forall s | s in order :: s in cat.categories) && order != []
    ensures
      var rows, rest := CategoryRows(cat, order, progress, user), CategoryRows(cat, order[1..], progress, user);
      && SumTotals(rows) == |InCategory(cat, order[0])| + SumTotals(rest)
      && SumSolved(rows) == |SolvedIn(InCategory(cat, order[0]), progress, user)| + SumSolved(rest)
  {
    assert CategoryRows(cat, order, progress, user)[1..] == CategoryRows(cat, order[1..], progress, user);
  }

  lemma {:induction false} SumsCountOnce(cat: Catalogue, order: seq<Slug>, progress: Table, user: UserId)
    requires forall s | s in order :: s in cat.categories
    requires Once(order)
    ensures SumTotals(CategoryRows(cat, order, progress, user)) == |Among(cat, order)|
    ensures SumSolved(CategoryRows(cat, order, progress, user)) == |SolvedIn(Among(cat, order), progress, user)|
    decreases |order|
  {
    if order == [] {
      assert Among(cat, order) == {} && SolvedIn({}, progress, user) == {};
    } else {
      OneCategoryMore(cat, order);
      SumsCountOnce(cat, order[1..], progress, user);
      OneRowMore(cat, order, progress, user);
      SolvedSplits(InCategory(cat, order[0]), Among(cat, order[1..]), progress, user);
    }
  }

  /**
   For any catalogue and progress table, the per-category totals sum to the overall one if and only if every
   active challenge has a category, and the solved counts do if and only if every solved active one has.
   */
  lemma CategoriesSumToTotalsIff(cat: Catalogue, order: seq<Slug>, progress: Table, user: UserId)
    requires References(cat) && IsOrder(cat, order)
    ensures
      var o := OverviewOf(cat, order, progress, user);
      && (SumTotals(o.categories) == o.total <==> Categorised(cat))
      && (SumSolved(o.categories) == o.solved
          <==> forall c | c in SolvedIn(ActiveChallenges(cat), progress, user) :: cat.challenges[c].category.Some?)
  {
    var active, among := ActiveChallenges(cat), Among(cat, order);
    SumsCountOnce(cat, order, progress, user);
    SubsetSize(among, active);
    SubsetSize(SolvedIn(among, progress, user), SolvedIn(active, progress, user));
    assert Categorised(cat) ==> among == active;
    if forall c | c in SolvedIn(active, progress, user) :: cat.challenges[c].category.Some? {
      assert SolvedIn(among, progress, user) == SolvedIn(active, progress, user);
    }
    assert SumTotals(CategoryRows(cat, order, progress, user)) == |active| ==> Categorised(cat);
  }

  /** It happens: an active challenge without a category is in the total and in no category's count. */
  lemma UncategorisedIsMissed(user: UserId)
    ensures
      var cat := Catalogue(map["cron" := Category("Cron", 0)], map[1 := Challenge(None, true)]);
      var o := OverviewOf(cat, ["cron"], map[(user, 1) := Progress(true, 1, 0, Some(0), 0)], user);
      && References(cat) && IsOrder(cat, ["cron"])
      && o.total == 1 && o.solved == 1 && SumTotals(o.categories) == 0 && SumSolved(o.categories) == 0
  {
    var cat := Catalogue(map["cron" := Category("Cron", 0)], map[1 := Challenge(None, true)]);
    var progress := map[(user, 1) := Progress(true, 1, 0, Some(0), 0)];
    assert ActiveChallenges(cat) == {1} && InCategory(cat, "cron") == {};
    assert SolvedIn({1}, progress, user) == {1} && SolvedIn({}, progress, user) == {};
    assert CategoryRows(cat, ["cron"], progress, user)[1..] == [];
  }

  lemma {:induction false} MapSize(cs: set<ChallengeId>, rows: set<ListRow>)
    requires forall c | c in cs :: exists r :: r in rows && r.challenge == c
    requires forall r | r in rows :: r.challenge in cs
    requires forall r, q | r in rows && q in rows && r.challenge == q.challenge :: r == q
    ensures |cs| == |rows|
    decreases |cs|
  {
    if cs != {} {
      var c :| c in cs;
      var r :| r in rows && r.challenge == c;
      MapSize(cs - {c}, rows - {r});
    } else {
      assert rows == {};
    }
  }

  /** Each category's counts are those of the list's rows with that category and of their solved flags. */
  lemma ListAgrees(cat: Catalogue, slug: Slug, progress: Table, user: UserId)
    ensures
      var rows := set r | r in ListOf(cat, progress, user) && r.category == slug;
      && |rows| == |InCategory(cat, slug)|
      && |set r | r in rows && r.solved| == |SolvedIn(InCategory(cat, slug), progress, user)|
  {
    var rows := set r | r in ListOf(cat, progress, user) && r.category == slug;
    var solved := set r | r in rows && r.solved;
    forall c | c in InCategory(cat, slug)
      ensures exists r :: r in rows && r.challenge == c && r.solved == IsSolved(progress, user, c)
    {
      assert ListRow(c, slug, IsSolved(progress, user, c)) in rows;
    }
    MapSize(InCategory(cat, slug), rows);
    forall c | c in SolvedIn(InCategory(cat, slug), progress, user)
      ensures exists r :: r in solved && r.challenge == c
    {
      assert ListRow(c, slug, true) in solved;
    }
    MapSize(SolvedIn(InCategory(cat, slug), progress, user), solved);
  }

  /**
   And the overall solved count is the number of solved flags in the list, when every active challenge has a
   category.
   */
  lemma ListTotals(cat: Catalogue, order: seq<Slug>, progress: Table, user: UserId)
    requires Categorised(cat) && forall s | s in order :: s in cat.categories
    ensures
      var o := OverviewOf(cat, order, progress, user);
      var rows := ListOf(cat, progress, user);
      |rows| == o.total && |set r | r in rows && r.solved| == o.solved
  {
    var rows := ListOf(cat, progress, user);
    var active := ActiveChallenges(cat);
    var solved := set r | r in rows && r.solved;
    forall c | c in active
      ensures exists r :: r in rows && r.challenge == c && r.solved == IsSolved(progress, user, c)
    {
      assert ListRow(c, cat.challenges[c].category.value, IsSolved(progress, user, c)) in rows;
    }
    MapSize(active, rows);
    forall c | c in SolvedIn(active, progress, user)
      ensures exists r :: r in solved && r.challenge == c
    {
      assert ListRow(c, cat.challenges[c].category.value, true) in solved;
    }
    MapSize(SolvedIn(active, progress, user), solved);
  }

  // ---------------------------------------------------------------------------------------------
  // What one more challenge changes
  // ---------------------------------------------------------------------------------------------

  function RowOf(cat: Catalogue, slug: Slug, progress: Table, user: UserId): CategoryRow
    requires slug in cat.categories
  {
    CategoryRow(slug, cat.categories[slug].name, |InCategory(cat, slug)|,
                |SolvedIn(InCategory(cat, slug), progress, user)|)
  }

  lemma {:induction false} RowsInOrder(cat: Catalogue, order: seq<Slug>, progress: Table, user: UserId)
    requires forall s | s in order :: s in cat.categories
    ensures |CategoryRows(cat, order, progress, user)| == |order|
    ensures forall i | 0 <= i < |order| ::
      CategoryRows(cat, order, progress, user)[i] == RowOf(cat, order[i], progress, user)
    decreases |order|
  {
    if order != [] {
      RowsInOrder(cat, order[1..], progress, user);
    }
  }

  function With(cat: Catalogue, c: ChallengeId, ch: Challenge): Catalogue {
    cat.(challenges := cat.challenges[c := ch])
  }

  lemma WithSets(cat: Catalogue, c: ChallengeId, ch: Challenge, slug: Slug)
    requires c !in cat.challenges
    ensures ActiveChallenges(With(cat, c, ch)) == ActiveChallenges(cat) + (if ch.isActive then {c} else {})
    ensures InCategory(With(cat, c, ch), slug)
         == InCategory(cat, slug) + (if ch.isActive && ch.category == Some(slug) then {c} else {})
  {
  }

  lemma SolvedWith(cs: set<ChallengeId>, c: ChallengeId, progress: Table, user: UserId)
    requires c !in cs
    ensures |SolvedIn(cs + {c}, progress, user)|
         == |SolvedIn(cs, progress, user)| + (if IsSolved(progress, user, c) then 1 else 0)
  {
    assert SolvedIn(cs + {c}, progress, user)
      == SolvedIn(cs, progress, user) + (if IsSolved(progress, user, c) then {c} else {});
  }

  lemma ListWithout(cat: Catalogue, progress: Table, user: UserId, c: ChallengeId, category: Option<Slug>)
    requires c !in cat.challenges
    ensures ListOf(With(cat, c, Challenge(category, false)), progress, user) == ListOf(cat, progress, user)
  {
    var more := With(cat, c, Challenge(category, false));
    WithSets(cat, c, Challenge(category, false), "");
    assert forall r :: r in ListOf(more, progress, user) <==> r in ListOf(cat, progress, user);
  }

  /** A challenge that is not active is counted nowhere and listed nowhere, whatever its category and progress. */
  lemma InactiveCountsNowhere(cat: Catalogue, order: seq<Slug>, progress: Table, user: UserId, c: ChallengeId,
      category: Option<Slug>)
    requires c !in cat.challenges && forall s | s in order :: s in cat.categories
    ensures OverviewOf(With(cat, c, Challenge(category, false)), order, progress, user)
         == OverviewOf(cat, order, progress, user)
    ensures ListOf(With(cat, c, Challenge(category, false)), progress, user) == ListOf(cat, progress, user)
  {
    var more := With(cat, c, Challenge(category, false));
    WithSets(cat, c, Challenge(category, false), "");
    assert ActiveChallenges(more) == ActiveChallenges(cat);
    ListWithout(cat, progress, user, c, category);
    RowsInOrder(cat, order, progress, user);
    RowsInOrder(more, order, progress, user);
    forall x | x in order
      ensures RowOf(more, x, progress, user) == RowOf(cat, x, progress, user)
    {
      WithSets(cat, c, Challenge(category, false), x);
    }
    assert CategoryRows(more, order, progress, user) == CategoryRows(cat, order, progress, user);
  }

  lemma RowWith(cat: Catalogue, progress: Table, user: UserId, c: ChallengeId, slug: Slug, x: Slug)
    requires c !in cat.challenges && x in cat.categories
    ensures
      var before := RowOf(cat, x, progress, user);
      RowOf(With(cat, c, Challenge(Some(slug), true)), x, progress, user) == if x != slug then before
        else before.(total := before.total + 1, solved := before.solved + if IsSolved(progress, user, c) then 1 else 0)
  {
    WithSets(cat, c, Challenge(Some(slug), true), x);
    SolvedWith(InCategory(cat, x), c, progress, user);
  }

  /**
   An active one is counted once in the total and once in its category, as solved in both if the user solved it, and
   is one more row of the list; every other category's row is as before.
   */
  lemma ActiveCountsOnce(cat: Catalogue, order: seq<Slug>, progress: Table, user: UserId, c: ChallengeId, slug: Slug)
    requires c !in cat.challenges && forall s | s in order :: s in cat.categories
    ensures
      var more := With(cat, c, Challenge(Some(slug), true));
      var o, q := OverviewOf(cat, order, progress, user), OverviewOf(more, order, progress, user);
      var one := if IsSolved(progress, user, c) then 1 else 0;
      && q.total == o.total + 1 && q.solved == o.solved + one
      && |o.categories| == |q.categories| == |order|
      && (forall i | 0 <= i < |order| ::
            q.categories[i] == if order[i] != slug then o.categories[i]
              else o.categories[i].(total := o.categories[i].total + 1, solved := o.categories[i].solved + one))
      && ListOf(more, progress, user)
         == ListOf(cat, progress, user) + {ListRow(c, slug, IsSolved(progress, user, c))}
  {
    var ch := Challenge(Some(slug), true);
    var more := With(cat, c, ch);
    WithSets(cat, c, ch, slug);
    SolvedWith(ActiveChallenges(cat), c, progress, user);
    ListWith(cat, progress, user, c, slug);
    RowsInOrder(cat, order, progress, user);
    RowsInOrder(more, order, progress, user);
    forall i | 0 <= i < |order|
      ensures RowOf(more, order[i], progress, user) == if order[i] != slug then RowOf(cat, order[i], progress, user)
        else RowOf(cat, slug, progress, user).(total := RowOf(cat, slug, progress, user).total + 1,
          solved := RowOf(cat, slug, progress, user).solved + if IsSolved(progress, user, c) then 1 else 0)
    {
      RowWith(cat, progress, user, c, slug, order[i]);
    }
  }

  lemma ListWith(cat: Catalogue, progress: Table, user: UserId, c: ChallengeId, slug: Slug)
    requires c !in cat.challenges
    ensures ListOf(With(cat, c, Challenge(Some(slug), true)), progress, user)
         == ListOf(cat, progress, user) + {ListRow(c, slug, IsSolved(progress, user, c))}
  {
    var more := With(cat, c, Challenge(Some(slug), true));
    WithSets(cat, c, Challenge(Some(slug), true), slug);
    assert c in ActiveChallenges(more);
    assert ListRow(c, slug, IsSolved(progress, user, c)) in ListOf(more, progress, user);
    forall r | r in ListOf(cat, progress, user)
      ensures r in ListOf(more, progress, user)
    {
      assert r.challenge in ActiveChallenges(more);
    }
  }

  // ---------------------------------------------------------------------------------------------
  // Filling the catalogue
  // ---------------------------------------------------------------------------------------------

  const FIXED_CATEGORIES: seq<(Slug, string)> := [
    ("permissions-ownership", "Permissions & Ownership"),
    ("disk-filesystem", "Disk & Filesystem"),
    ("process-performance", "Process & Performance"),
    ("networking-dns", "Networking & DNS"),
    ("systemd-services", "systemd & Services"),
    ("logs-journald", "Logs & journald"),
    ("package-management", "Package Management"),
    ("users-groups-sudo", "Users, Groups & sudo"),
    ("cron-scheduling", "Cron & Scheduling"),
    ("ssh-remote-access", "SSH & Remote Access")
  ]

  /** A challenge directory; `complete` when it holds both required files. */
  datatype DiskEntry = DiskEntry(challenge: ChallengeId, category: Slug, complete: bool)

  /** The upsert for one directory: skipped when incomplete or of an unknown category. */
  function SyncEntry(cat: Catalogue, e: DiskEntry): Catalogue {
    if !e.complete || e.category !in cat.categories then cat
    else
      cat.(challenges := cat.challenges[e.challenge :=
        Challenge(Some(e.category), if e.challenge in cat.challenges then cat.challenges[e.challenge].isActive
          else true)])
  }

  function SyncOf(cat: Catalogue, entries: seq<DiskEntry>): Catalogue {
    if entries == [] then cat else SyncEntry(SyncOf(cat, entries[..|entries| - 1]), entries[|entries| - 1])
  }

  function Seeded(categories: map<Slug, Category>, n: nat): map<Slug, Category>
    requires n <= |FIXED_CATEGORIES|
  {
    if n == 0 then categories
    else Seeded(categories, n - 1)[FIXED_CATEGORIES[n - 1].0 := Category(FIXED_CATEGORIES[n - 1].1, n - 1)]
  }

  lemma FixedSlugsDiffer(i: nat, j: nat)
    requires i < j < |FIXED_CATEGORIES|
    ensures FIXED_CATEGORIES[i].0 != FIXED_CATEGORIES[j].0
  {
    var a, b := FIXED_CATEGORIES[i].0, FIXED_CATEGORIES[j].0;
    assert |a| != |b| || a[0] != b[0];
  }

  /** Seeding gives each fixed category its name and position and leaves every other as it was. */
  lemma {:induction false} SeedingSetsTheFixedOnes(categories: map<Slug, Category>, n: nat)
    requires n <= |FIXED_CATEGORIES|
    ensures forall i | 0 <= i < n ::
      Lookup(Seeded(categories, n), FIXED_CATEGORIES[i].0) == Some(Category(FIXED_CATEGORIES[i].1, i))
    ensures forall s | (forall i | 0 <= i < n :: FIXED_CATEGORIES[i].0 != s) ::
      Lookup(Seeded(categories, n), s) == Lookup(categories, s)
    decreases n
  {
    if n > 0 {
      SeedingSetsTheFixedOnes(categories, n - 1);
      forall i | 0 <= i < n - 1
        ensures FIXED_CATEGORIES[i].0 != FIXED_CATEGORIES[n - 1].0
      {
        FixedSlugsDiffer(i, n - 1);
      }
    }
  }

  /** The directory is the last usable one of its challenge. */
  ghost predicate IsLastOf(cat: Catalogue, entries: seq<DiskEntry>, i: int, ch: ChallengeId) {
    && 0 <= i < |entries| && Applies(cat, entries[i], ch)
    && forall j | i < j < |entries| :: !Applies(cat, entries[j], ch)
  }

  predicate Applies(cat: Catalogue, e: DiskEntry, ch: ChallengeId) {
    e.challenge == ch && e.complete && e.category in cat.categories
  }

  /**
   After a sync each challenge has the category of its last complete directory with a known category, and the
   active flag it had, or is active if new.
   */
  lemma {:induction false} SyncTakesTheLastDirectory(cat: Catalogue, entries: seq<DiskEntry>, ch: ChallengeId, i: nat)
    requires IsLastOf(cat, entries, i, ch)
    ensures Lookup(SyncOf(cat, entries).challenges, ch)
         == Some(Challenge(Some(entries[i].category), if ch in cat.challenges then cat.challenges[ch].isActive
           else true))
    decreases |entries|
  {
    var n := |entries| - 1;
    var front := entries[..n];
    KeepsActive(cat, front, ch);
    if i < n {
      assert forall j | 0 <= j < n :: front[j] == entries[j];
      SyncTakesTheLastDirectory(cat, front, ch, i);
      assert !Applies(cat, entries[n], ch);
    }
  }

  /** A challenge without such a directory is untouched. */
  lemma {:induction false} SyncLeavesOthers(cat: Catalogue, entries: seq<DiskEntry>, ch: ChallengeId)
    requires forall i | 0 <= i < |entries| :: !Applies(cat, entries[i], ch)
    ensures Lookup(SyncOf(cat, entries).challenges, ch) == Lookup(cat.challenges, ch)
    decreases |entries|
  {
    if entries != [] {
      var n := |entries| - 1;
      KeepsActive(cat, entries[..n], ch);
      assert !Applies(cat, entries[n], ch);
      SyncLeavesOthers(cat, entries[..n], ch);
    }
  }

  lemma {:induction false} KeepsActive(cat: Catalogue, entries: seq<DiskEntry>, ch: ChallengeId)
    ensures
      var after := SyncOf(cat, entries);
      && after.categories == cat.categories
      && (ch in cat.challenges ==>
        ch in after.challenges
        && after.challenges[ch].isActive == cat.challenges[ch].isActive)
      && (ch !in cat.challenges && ch in after.challenges ==> after.challenges[ch].isActive)
    decreases |entries|
  {
    if entries != [] { KeepsActive(cat, entries[..|entries| - 1], ch); }
  }

  class Store {
    var categories: map<Slug, Category>
    var challenges: map<ChallengeId, Challenge>

    constructor ()
      ensures categories == map[] && challenges == map[]
    {
      categories, challenges := map[], map[];
    }

    ghost function State(): Catalogue
      reads this
    {
      Catalogue(categories, challenges)
    }

    method SeedCategories()
      modifies this`categories
      ensures categories == Seeded(old(categories), |FIXED_CATEGORIES|)
    {
      for i := 0 to |FIXED_CATEGORIES|
        invariant categories == Seeded(old(categories), i)
      {
        var cat := FIXED_CATEGORIES[i];
        categories := categories[cat.0 := Category(cat.1, i)];
      }
    }

    method SyncChallengesFromDisk(entries: seq<DiskEntry>)
      modifies this`challenges
      ensures State() == SyncOf(old(State()), entries)
    {
      for i := 0 to |entries|
        invariant State() == SyncOf(old(State()), entries[..i])
      {
        var entry := entries[i];
        assert entries[..i + 1][..i] == entries[..i];
        if !entry.complete || entry.category !in categories { continue; }
        var isActive := if entry.challenge in challenges then challenges[entry.challenge].isActive else true;
        challenges := challenges[entry.challenge := Challenge(Some(entry.category), isActive)];
      }
      assert entries[..|entries|] == entries;
    }
  }

  /** The sync never leaves an active challenge without a category, so after it the sums agree. */
  lemma {:induction false} SyncKeepsCategorised(cat: Catalogue, entries: seq<DiskEntry>)
    requires Categorised(cat) && References(cat)
    ensures Categorised(SyncOf(cat, entries)) && References(SyncOf(cat, entries))
    ensures SyncOf(cat, entries).categories == cat.categories
    decreases |entries|
  {
    if entries != [] { SyncKeepsCategorised(cat, entries[..|entries| - 1]); }
  }

  /** So on every catalogue the sync has filled, both sums agree. */
  lemma SyncedSumsAgree(cat: Catalogue, entries: seq<DiskEntry>, order: seq<Slug>, progress: Table, user: UserId)
    requires Categorised(cat) && References(cat) && IsOrder(SyncOf(cat, entries), order)
    ensures
      var o := OverviewOf(SyncOf(cat, entries), order, progress, user);
      SumTotals(o.categories) == o.total && SumSolved(o.categories) == o.solved
  {
    SyncKeepsCategorised(cat, entries);
    CategoriesSumToTotalsIff(SyncOf(cat, entries), order, progress, user);
  }
}
