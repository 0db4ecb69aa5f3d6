/** The milestone detector of the challenge page, over runs of checks on a fixed catalogue. */
module Celebrations {
  import opened Options
  import opened SessionModel
  import opened Sets
  import opened ProgressOverview

  datatype Snapshot = Snapshot(totalSolved: nat, categorySlug: Slug, categorySolved: nat, categoryTotal: nat)

  datatype Celebration = FirstSolve | CategoryComplete(name: string)

  /** `categories.find((c) => c.slug === slug)`. */
  function Find(rows: seq<CategoryRow>, slug: Slug): Option<CategoryRow> {
    if rows == [] then None else if rows[0].slug == slug then Some(rows[0]) else Find(rows[1..], slug)
  }

  function SnapshotProgress(o: Option<Overview>, slug: Slug): Option<Snapshot> {
    if o.None? || Find(o.value.categories, slug).None? then None
    else
      var cat := Find(o.value.categories, slug).value;
      Some(Snapshot(o.value.solved, cat.slug, cat.solved, cat.total))
  }

  function DetectCelebration(before: Option<Snapshot>, after: Option<Overview>): Option<Celebration> {
    if before.None? || after.None? then None
    else if before.value.totalSolved == 0 && after.value.solved == 1 then Some(FirstSolve)
    else
      var b := before.value;
      var cat := Find(after.value.categories, b.categorySlug);
      if cat.Some? && b.categoryTotal > 0 && b.categorySolved < b.categoryTotal && cat.value.solved == cat.value.total
      then Some(CategoryComplete(cat.value.name))
      else None
  }

  datatype Check = Check(challenge: ChallengeId, passed: bool, hints: nat, at: nat)

  function AfterCheck(progress: Table, user: UserId, c: Check): Table {
    var key := (user, c.challenge);
    progress[key := UpsertProgress(Lookup(progress, key), Upsert(user, c.challenge, c.passed, c.hints, c.at))]
  }

  function AfterChecks(progress: Table, user: UserId, cs: seq<Check>): Table {
    if cs == [] then progress else AfterCheck(AfterChecks(progress, user, cs[..|cs| - 1]), user, cs[|cs| - 1])
  }

  /**
   What the page shows for a check: a snapshot of what it had cached when the check was clicked, if anything,
   and the overview fetched after one that passed. `seen` is the table behind the cached overview.
   */
  function Shown(cat: Catalogue, order: seq<Slug>, seen: Option<Table>, progress: Table, user: UserId, c: Check,
      slug: Slug): Option<Celebration>
    requires forall s | s in order :: s in cat.categories
  {
    if !c.passed then None
    else
      var cached := if seen.Some? then Some(OverviewOf(cat, order, seen.value, user)) else None;
      DetectCelebration(SnapshotProgress(cached, slug),
        Some(OverviewOf(cat, order, AfterCheck(progress, user, c), user)))
  }

  lemma {:induction false} FindRow(cat: Catalogue, order: seq<Slug>, progress: Table, user: UserId, slug: Slug)
    requires forall s | s in order :: s in cat.categories
    ensures Find(CategoryRows(cat, order, progress, user), slug)
         == if slug in order
            then Some(CategoryRow(slug, cat.categories[slug].name, |InCategory(cat, slug)|,
              |SolvedIn(InCategory(cat, slug), progress, user)|))
            else None
    decreases |order|
  {
    if order != [] && order[0] != slug { FindRow(cat, order[1..], progress, user, slug); }
  }

  /** A check solves its challenge if it passed, and changes no other. */
  lemma CheckSolves(cs: set<ChallengeId>, progress: Table, user: UserId, c: Check)
    ensures SolvedIn(cs, AfterCheck(progress, user, c), user)
         == SolvedIn(cs, progress, user) + if c.passed && c.challenge in cs then {c.challenge} else {}
  {
  }

  ghost predicate AllSolved(cs: set<ChallengeId>, progress: Table, user: UserId) {
    forall c | c in cs :: IsSolved(progress, user, c)
  }

  lemma CountsAll(cs: set<ChallengeId>, progress: Table, user: UserId)
    ensures |SolvedIn(cs, progress, user)| == |cs| <==> AllSolved(cs, progress, user)
    ensures |SolvedIn(cs, progress, user)| <= |cs|
  {
    SubsetSize(SolvedIn(cs, progress, user), cs);
    if AllSolved(cs, progress, user) { assert SolvedIn(cs, progress, user) == cs; }
  }

  /**
   For every catalogue, every progress table and every table the page may have cached: a passed check of an
   active challenge is celebrated as the first solve exactly when nothing active was solved in the cached
   table and nothing but its challenge is solved now, else as completing its category exactly when the category
   was not complete in the cached table and is now, else not at all. A failed check never is, nor any without a
   cached table.
   */
  lemma CelebratesMilestones(
    cat: Catalogue, order: seq<Slug>, seen: Option<Table>, progress: Table, user: UserId, c: Check, slug: Slug)
    requires (forall s | s in order :: s in cat.categories) && slug in order
    requires c.challenge in InCategory(cat, slug)
    ensures
      var active, inCat := ActiveChallenges(cat), InCategory(cat, slug);
      var first := seen.Some? && SolvedIn(active, seen.value, user) == {}
        && SolvedIn(active, progress, user) <= {c.challenge};
      Shown(cat, order, seen, progress, user, c, slug)
      == if !c.passed || seen.None? then None
         else if first then Some(FirstSolve)
         else if !AllSolved(inCat, seen.value, user) && AllSolved(inCat, AfterCheck(progress, user, c), user)
         then Some(CategoryComplete(cat.categories[slug].name))
         else None
  {
    if seen.Some? {
      var after := AfterCheck(progress, user, c);
      var active, inCat := ActiveChallenges(cat), InCategory(cat, slug);
      FindRow(cat, order, seen.value, user, slug);
      FindRow(cat, order, after, user, slug);
      CheckSolves(active, progress, user, c);
      CountsAll(inCat, seen.value, user);
      CountsAll(inCat, after, user);
      assert |inCat| > 0 by { assert c.challenge in inCat; }
      assert SolvedIn(active, seen.value, user) == {} <==> |SolvedIn(active, seen.value, user)| == 0;
      if c.passed { OneSolved(SolvedIn(active, progress, user), c.challenge); }
    }
  }

  lemma OneSolved(solved: set<ChallengeId>, ch: ChallengeId)
    ensures |solved + {ch}| == 1 <==> solved <= {ch}
  {
    SubsetSize({ch}, solved + {ch});
    if solved <= {ch} { assert solved + {ch} == {ch}; }
  }

  /** Some check among the first `n` passed this challenge. */
  ghost predicate PassedBy(cs: seq<Check>, n: int, ch: ChallengeId) {
    exists i :: 0 <= i < n && i < |cs| && cs[i].challenge == ch && cs[i].passed
  }

  lemma {:induction false} SolvedIffPassed(user: UserId, cs: seq<Check>, ch: ChallengeId)
    ensures IsSolved(AfterChecks(map[], user, cs), user, ch) <==> PassedBy(cs, |cs|, ch)
    decreases |cs|
  {
    if cs != [] {
      var n := |cs| - 1;
      SolvedIffPassed(user, cs[..n], ch);
      assert forall i | 0 <= i < n :: cs[..n][i] == cs[i];
      if PassedBy(cs, |cs|, ch) {
        var i :| 0 <= i < |cs| && cs[i].challenge == ch && cs[i].passed;
        if i < n { assert cs[..n][i] == cs[i]; }
      }
    }
  }

  lemma PrefixPassed(cs: seq<Check>, n: nat, ch: ChallengeId)
    requires n <= |cs|
    ensures PassedBy(cs[..n], n, ch) <==> PassedBy(cs, n, ch)
  {
    if PassedBy(cs, n, ch) {
      var i :| 0 <= i < n && i < |cs| && cs[i].challenge == ch && cs[i].passed;
      assert cs[..n][i] == cs[i];
    }
  }

  /** Every check that passed among the first `n` was of this challenge. */
  ghost predicate OnlyPassed(cs: seq<Check>, n: int, ch: ChallengeId) {
    forall i | 0 <= i < n && i < |cs| && cs[i].passed :: cs[i].challenge == ch
  }

  /**
   Over any run of checks one at a time by a new user on a fixed catalogue, all of active challenges, with the
   page's cached progress as old as the first `j` checks: check `k` is celebrated as the first solve exactly
   when it passes, none of those `j` passed and none since but of its own challenge; else as completing its
   category exactly when it passes and the category lacked a challenge then and lacks none now.
   */
  lemma CelebrationsOfARun(cat: Catalogue, order: seq<Slug>, user: UserId, cs: seq<Check>, j: nat, k: nat, slug: Slug)
    requires (forall s | s in order :: s in cat.categories) && slug in order
    requires j <= k < |cs| && cs[k].challenge in InCategory(cat, slug)
    requires forall i | 0 <= i < |cs| :: cs[i].challenge in ActiveChallenges(cat)
    ensures
      var seen := Some(AfterChecks(map[], user, cs[..j]));
      var first := (forall i | 0 <= i < j :: !cs[i].passed) && OnlyPassed(cs, k, cs[k].challenge);
      Shown(cat, order, seen, AfterChecks(map[], user, cs[..k]), user, cs[k], slug)
      == if !cs[k].passed then None
         else if first then Some(FirstSolve)
         else if !(forall ch | ch in InCategory(cat, slug) :: PassedBy(cs, j, ch))
                 && forall ch | ch in InCategory(cat, slug) :: PassedBy(cs, k + 1, ch)
         then Some(CategoryComplete(cat.categories[slug].name))
         else None
  {
    var seen, before := AfterChecks(map[], user, cs[..j]), AfterChecks(map[], user, cs[..k]);
    CelebratesMilestones(cat, order, Some(seen), before, user, cs[k], slug);
    forall ch
      ensures IsSolved(seen, user, ch) <==> PassedBy(cs, j, ch)
      ensures IsSolved(before, user, ch) <==> PassedBy(cs, k, ch)
      ensures IsSolved(AfterCheck(before, user, cs[k]), user, ch) <==> PassedBy(cs, k + 1, ch)
    {
      SolvedByPrefix(user, cs, j, ch);
      SolvedByPrefix(user, cs, k, ch);
    }
    NothingSolvedIff(cat, seen, user, cs, j);
    OnlyOneSolvedIff(cat, before, user, cs, k, cs[k].challenge);
  }

  /**
   With the cached progress current the first passing check, and no other, is celebrated as the first solve;
   and a category exactly at a later check whose pass is the category's last one missing.
   */
  lemma CelebrationsWhenCurrent(cat: Catalogue, order: seq<Slug>, user: UserId, cs: seq<Check>, k: nat, slug: Slug)
    requires (forall s | s in order :: s in cat.categories) && slug in order
    requires k < |cs| && cs[k].challenge in InCategory(cat, slug)
    requires forall i | 0 <= i < |cs| :: cs[i].challenge in ActiveChallenges(cat)
    ensures
      var progress := AfterChecks(map[], user, cs[..k]);
      var shown := Shown(cat, order, Some(progress), progress, user, cs[k], slug);
      && (shown == Some(FirstSolve) <==> cs[k].passed && forall i | 0 <= i < k :: !cs[i].passed)
      && (shown == Some(CategoryComplete(cat.categories[slug].name))
          <==> cs[k].passed && (exists i :: 0 <= i < k && cs[i].passed)
               && !PassedBy(cs, k, cs[k].challenge)
               && forall ch | ch in InCategory(cat, slug) :: PassedBy(cs, k + 1, ch))
  {
    CelebrationsOfARun(cat, order, user, cs, k, k, slug);
    if cs[k].passed { CompletesIff(cs, k, InCategory(cat, slug)); }
  }

  /**
   It happens: two passed checks of one challenge, the page's cache older than both, are both celebrated as the
   first solve.
   */
  lemma StaleCacheCelebratesTwice(user: UserId)
    ensures
      var cat := Catalogue(map["cron" := Category("Cron", 0)], map[1 := Challenge(Some("cron"), true)]);
      var cs := [Check.Check(1, true, 0, 0), Check.Check(1, true, 0, 1)];
      && Shown(cat, ["cron"], Some(map[]), AfterChecks(map[], user, cs[..0]), user, cs[0], "cron") == Some(FirstSolve)
      && Shown(cat, ["cron"], Some(map[]), AfterChecks(map[], user, cs[..1]), user, cs[1], "cron") == Some(FirstSolve)
  {
    var cat := Catalogue(map["cron" := Category("Cron", 0)], map[1 := Challenge(Some("cron"), true)]);
    var cs := [Check.Check(1, true, 0, 0), Check.Check(1, true, 0, 1)];
    assert 1 in ActiveChallenges(cat) && 1 in InCategory(cat, "cron");
    CelebrationsOfARun(cat, ["cron"], user, cs, 0, 0, "cron");
    CelebrationsOfARun(cat, ["cron"], user, cs, 0, 1, "cron");
    assert cs[..0] == [];
  }

  lemma OnlyOneSolvedIff(cat: Catalogue, before: Table, user: UserId, cs: seq<Check>, k: nat, ch: ChallengeId)
    requires k <= |cs| && forall i | 0 <= i < |cs| :: cs[i].challenge in ActiveChallenges(cat)
    requires forall c :: IsSolved(before, user, c) <==> PassedBy(cs, k, c)
    ensures SolvedIn(ActiveChallenges(cat), before, user) <= {ch} <==> OnlyPassed(cs, k, ch)
  {
    forall i | 0 <= i < k && cs[i].passed
      ensures cs[i].challenge in SolvedIn(ActiveChallenges(cat), before, user)
    {
      assert PassedBy(cs, k, cs[i].challenge);
    }
  }

  lemma NothingSolvedIff(cat: Catalogue, before: Table, user: UserId, cs: seq<Check>, k: nat)
    requires k <= |cs| && forall i | 0 <= i < |cs| :: cs[i].challenge in ActiveChallenges(cat)
    requires forall ch :: IsSolved(before, user, ch) <==> PassedBy(cs, k, ch)
    ensures SolvedIn(ActiveChallenges(cat), before, user) == {} <==> forall i | 0 <= i < k :: !cs[i].passed
  {
    if i :| 0 <= i < k && cs[i].passed {
      assert PassedBy(cs, k, cs[i].challenge);
      assert cs[i].challenge in SolvedIn(ActiveChallenges(cat), before, user);
    }
  }

  lemma SolvedByPrefix(user: UserId, cs: seq<Check>, k: nat, ch: ChallengeId)
    requires k < |cs|
    ensures IsSolved(AfterChecks(map[], user, cs[..k]), user, ch) <==> PassedBy(cs, k, ch)
    ensures IsSolved(AfterCheck(AfterChecks(map[], user, cs[..k]), user, cs[k]), user, ch) <==> PassedBy(cs, k + 1, ch)
  {
    SolvedIffPassed(user, cs[..k], ch);
    PrefixPassed(cs, k, ch);
    SolvedIffPassed(user, cs[..k + 1], ch);
    PrefixPassed(cs, k + 1, ch);
    assert cs[..k + 1][..k] == cs[..k];
  }

  lemma CompletesIff(cs: seq<Check>, k: nat, inCat: set<ChallengeId>)
    requires k < |cs| && cs[k].challenge in inCat && cs[k].passed
    ensures (!(forall ch | ch in inCat :: PassedBy(cs, k, ch)) && forall ch | ch in inCat :: PassedBy(cs, k + 1, ch))
       <==> (!PassedBy(cs, k, cs[k].challenge) && forall ch | ch in inCat :: PassedBy(cs, k + 1, ch))
  {
    forall ch | PassedBy(cs, k + 1, ch) && ch != cs[k].challenge
      ensures PassedBy(cs, k, ch)
    {
      var i :| 0 <= i < k + 1 && i < |cs| && cs[i].challenge == ch && cs[i].passed;
      assert i < k;
    }
  }
}
