/** The inspector: which campaign histories it accepts, and why every history the
    runner can leave behind is accepted. */
module Inspection {
  import opened Common
  import opened AttemptIds
  import opened Campaign
  import opened CampaignTimes
  import TextOrder

  // ------------------------------------------------------------ what it checks

  predicate IsOfficial(m: Manifest, item: string, name: string) {
    exists i :: 0 <= i < |m.completions| && i < |m.plan| && m.plan[i] == item && m.completions[i].attempt == name
  }

  /** An attempt directory that no completion names. */
  predicate IsOrphan(d: Disk, item: string, name: string) {
    item in d.work && name in d.work[item] && !IsOfficial(d.manifest, item, name)
  }

  function RunsOf(a: Attempt): set<string> {
    if a.result.Some? && a.result.value.outcome.Observed? then {a.result.value.outcome.run} else {}
  }

  ghost predicate OfficialRun(m: Manifest, run: string) {
    exists i :: 0 <= i < |m.completions| && m.completions[i].outcome.Observed? && m.completions[i].outcome.run == run
  }

  /** The orphan is an earlier, finished try of an item that was then completed. */
  predicate PriorRetry(m: Manifest, name: string, a: Attempt, official: Completion) {
    && TextOrder.Less(name, official.attempt)
    && m.startedAt < a.started.startedAt
    && a.started.startedAt < official.started.startedAt
    && (a.result.Some? ==> a.result.value.completedAt < official.started.startedAt)
  }

  /** The completion of `item`, if it has one. */
  ghost predicate Completes(m: Manifest, item: string, c: Completion) {
    exists i :: 0 <= i < |m.completions| && i < |m.plan| && m.plan[i] == item && m.completions[i] == c
  }

  ghost predicate OrphanOk(d: Disk, item: string, name: string)
    requires IsOrphan(d, item, name)
  {
    var a := d.work[item][name];
    && (a.result.Some? ==> ValidChild(d, item, a.result.value.outcome))
    && (forall run :: run in RunsOf(a) ==>
          && !OfficialRun(d.manifest, run)
          && forall item', name' :: IsOrphan(d, item', name') && run in RunsOf(d.work[item'][name']) ==>
               item' == item && name' == name)
    && (forall c :: Completes(d.manifest, item, c) && TextOrder.Less(name, c.attempt) ==>
          PriorRetry(d.manifest, name, a, c))
  }

  ghost predicate Disqualifies(d: Disk, item: string, name: string) {
    IsOrphan(d, item, name)
    && !exists c :: Completes(d.manifest, item, c) && PriorRetry(d.manifest, name, d.work[item][name], c)
  }

  function Previous(m: Manifest, i: nat): int
    requires i <= |m.completions|
  {
    if i == 0 then m.startedAt else m.completions[i - 1].completedAt
  }

  /** `_verify_observation_chronology` at one completion. */
  predicate ChronologyAt(m: Manifest, i: nat)
    requires i < |m.completions|
  {
    var c := m.completions[i];
    && Previous(m, i) <= c.completedAt <= m.updatedAt
    && (c.outcome.Observed? ==>
          && m.startedAt < c.started.startedAt < c.outcome.child.startedAt
          && c.outcome.child.startedAt < c.outcome.child.finishedAt < c.completedAt
          && Previous(m, i) < c.started.startedAt)
  }

  /** The inspector raises on none of its history checks. */
  ghost predicate HistoryOk(d: Disk) {
    && LayoutOk(d)
    && |d.manifest.completions| <= |d.manifest.plan|
    && (forall i :: 0 <= i < |d.manifest.completions| ==> CommittedOk(d, i))
    && (forall item, name :: IsOrphan(d, item, name) ==> OrphanOk(d, item, name))
    && (forall i :: 0 <= i < |d.manifest.completions| ==> ChronologyAt(d.manifest, i))
  }

  ghost predicate NoneUnavailable(m: Manifest) {
    forall i :: 0 <= i < |m.completions| ==> m.completions[i].outcome.Observed?
  }

  ghost predicate Eligible(d: Disk) {
    && d.manifest.completed && |d.manifest.completions| == |d.manifest.plan|
    && NoneUnavailable(d.manifest)
    && forall item, name :: !Disqualifies(d, item, name)
  }

  // --------------------------------------------------- names sort as numbers do

  /** No item has more than 999999 attempts. */
  ghost predicate Countable(d: Disk) {
    forall item :: item in d.work ==> |d.work[item]| <= LAST_PADDED
  }

  /** No directory, be it an attempt or one still being staged, is numbered above
      999999. */
  ghost predicate WithinLimit(d: Disk) {
    && Countable(d)
    && forall s, k: nat :: s in d.staging && s.attempt == AttemptId(k) ==> k <= LAST_PADDED
  }

  lemma ExpectedIsSorted(n: nat)
    requires n <= LAST_PADDED
    ensures TextOrder.Sorted(Names(n)) == ExpectedNames(n)
  {
    hide AttemptId, TextOrder.Less;
    var s := ExpectedNames(n);
    forall x ensures x in s <==> x in Names(n) {
      if x in Names(n) {
        var i :| 1 <= i <= n && x == AttemptId(i);
        assert s[i - 1] == x;
      }
    }
    forall i, j | 0 <= i < j < n ensures TextOrder.Less(s[i], s[j]) { IdOrder(i + 1, j + 1); }
    TextOrder.SortedUnique(Names(n), s);
  }

  /** A directory in order passes the layout check exactly up to 999999 attempts. */
  lemma DirectoryPasses(d: Disk, clock: int, item: string)
    requires DiskOk(d) && DiskTimes(d, clock) && item in d.work
    ensures ValidDirectory(item, d.work[item]) <==> |d.work[item]| <= LAST_PADDED
  {
    hide AttemptId, IsSixDigitName, CommitOk, Sequenced, Follows, UniqueRuns, TextOrder.Sorted;
    var dirs := d.work[item];
    var n := |dirs|;
    assert DirectoryOk(item, dirs);
    if n <= LAST_PADDED {
      ExpectedIsSorted(n);
      forall name | name in dirs ensures ValidAttempt(item, name, dirs[name]) {
        var i :| 1 <= i <= n && name == AttemptId(i);
        SixDigitsExactly(i);
        assert AttemptTimes(d, clock, dirs[name]);
      }
    } else {
      assert AttemptId(n) in Names(n);
      SixDigitsExactly(n);
      assert !ValidAttempt(item, AttemptId(n), dirs[AttemptId(n)]);
    }
  }

  /** The staging directories pass exactly up to 999999 too. */
  lemma StagingPasses(d: Disk)
    requires AllStagingOk(d)
    ensures (forall s :: s in d.staging ==> ValidStaging(s)) <==>
            (forall s, k: nat :: s in d.staging && s.attempt == AttemptId(k) ==> k <= LAST_PADDED)
  {
    hide AttemptId, IsSixDigitName, Attempts;
    forall s, k: nat | s in d.staging && s.attempt == AttemptId(k) ensures ValidStaging(s) <==> k <= LAST_PADDED {
      assert StagingOk(s, |Attempts(d, s.workItem)|);
      SixDigitsExactly(k);
    }
    forall s | s in d.staging ensures exists k: nat :: s.attempt == AttemptId(k) {
      assert StagingOk(s, |Attempts(d, s.workItem)|);
    }
  }

  lemma LayoutPasses(d: Disk, clock: int)
    requires DiskOk(d) && DiskTimes(d, clock)
    ensures LayoutOk(d) <==> WithinLimit(d)
  {
    hide AttemptId, ValidDirectory, DirectoryOk, DiskTimes, ValidStaging, AllStagingOk;
    forall item | item in d.work ensures ValidDirectory(item, d.work[item]) <==> |d.work[item]| <= LAST_PADDED {
      DirectoryPasses(d, clock, item);
    }
    assert forall item :: item in d.work ==> NotPast(d.manifest, item);
    StagingPasses(d);
  }

  // ------------------------------------------------------ accepted histories

  lemma CommittedPasses(d: Disk, clock: int, i: nat)
    requires DiskOk(d) && DiskTimes(d, clock) && i < |d.manifest.completions|
    ensures CommittedOk(d, i)
    ensures ChronologyAt(d.manifest, i)
  {
    hide AttemptId, Sequenced, UniqueRuns, Names;
    var m := d.manifest;
    var item, c := m.plan[i], m.completions[i];
    assert CommitOk(d, i);
    assert DirectoryOk(item, d.work[item]);
    assert AttemptTimes(d, clock, d.work[item][c.attempt]);
    if i > 0 { assert c.attempt in Attempts(d, m.plan[i]); }
    CompletionsOrdered(d, clock, i);
  }

  lemma {:induction false} CompletionsOrdered(d: Disk, clock: int, i: nat)
    requires DiskOk(d) && DiskTimes(d, clock) && i < |d.manifest.completions|
    ensures d.manifest.completions[i].completedAt <= d.manifest.updatedAt
    decreases |d.manifest.completions| - i
  {
    hide AttemptId, Sequenced, UniqueRuns, Names;
    var m := d.manifest;
    if i + 1 < |m.completions| {
      CompletionsOrdered(d, clock, i + 1);
      assert CommitOk(d, i + 1);
      var c := m.completions[i + 1];
      assert DirectoryOk(m.plan[i + 1], d.work[m.plan[i + 1]]);
      assert AttemptTimes(d, clock, d.work[m.plan[i + 1]][c.attempt]);
      assert c.attempt in Attempts(d, m.plan[i + 1]);
    }
  }

  /** An orphan of a completed item is an earlier retry of it. */
  lemma OrphanRetries(d: Disk, clock: int, item: string, name: string, c: Completion)
    requires DiskOk(d) && DiskTimes(d, clock) && Countable(d)
    requires IsOrphan(d, item, name) && Completes(d.manifest, item, c)
    ensures PriorRetry(d.manifest, name, d.work[item][name], c)
  {
    hide AttemptId, UniqueRuns, Follows, TextOrder.Less, Sequenced, AttemptTimes, DirectoryOk, PriorRetry, ValidStaging;
    var m, dirs := d.manifest, d.work[item];
    var k :| 0 <= k < |m.completions| && k < |m.plan| && m.plan[k] == item && m.completions[k] == c;
    assert CommitOk(d, k);
    assert DirectoryOk(item, dirs);
    assert name != c.attempt;
    assert Sequenced(dirs);
    assert AttemptTimes(d, clock, dirs[name]);
    EarlierIsPrior(d, clock, item, dirs, name, c);
  }

  lemma EarlierIsPrior(d: Disk, clock: int, item: string, dirs: map<string, Attempt>, name: string, c: Completion)
    requires DirectoryOk(item, dirs) && Sequenced(dirs) && |dirs| <= LAST_PADDED
    requires name in dirs && AttemptTimes(d, clock, dirs[name])
    requires c.attempt == AttemptId(|dirs|) && c.attempt in dirs && name != c.attempt
    requires dirs[c.attempt].result == Some(c)
    ensures PriorRetry(d.manifest, name, dirs[name], c)
  {
    hide AttemptId, TextOrder.Less;
    var i :| 1 <= i <= |dirs| && name == AttemptId(i);
    IdOrder(i, |dirs|);
  }

  lemma OrphanPasses(d: Disk, clock: int, item: string, name: string)
    requires DiskOk(d) && DiskTimes(d, clock) && Countable(d)
    requires IsOrphan(d, item, name)
    ensures OrphanOk(d, item, name)
  {
    hide AttemptId, Sequenced, Follows, TextOrder.Less, PriorRetry, DirectoryOk, Countable;
    var m, a := d.manifest, d.work[item][name];
    assert AttemptTimes(d, clock, a);
    OrphanChild(d, item, name);
    forall i | 0 <= i < |m.completions| && m.completions[i].outcome.Observed?
      ensures m.completions[i].outcome.run !in RunsOf(a)
    {
      assert CommitOk(d, i);
      assert HasRun(d, m.plan[i], m.completions[i].attempt, m.completions[i].outcome.run);
      assert forall run :: run in RunsOf(a) ==> HasRun(d, item, name, run);
    }
    forall run, item', name' | run in RunsOf(a) && IsOrphan(d, item', name') && run in RunsOf(d.work[item'][name'])
      ensures item' == item && name' == name
    {
      assert HasRun(d, item, name, run) && HasRun(d, item', name', run);
    }
    forall c | Completes(m, item, c) && TextOrder.Less(name, c.attempt) ensures PriorRetry(m, name, a, c) {
      OrphanRetries(d, clock, item, name, c);
    }
  }

  lemma OrphanChild(d: Disk, item: string, name: string)
    requires DiskOk(d) && item in d.work && name in d.work[item]
    ensures d.work[item][name].started.workItem == item
  {
    hide AttemptId;
    assert DirectoryOk(item, d.work[item]);
  }

  /** Every history the runner leaves behind under an increasing clock and fresh
      child runs passes the inspector's history checks, exactly as long as no
      attempt directory and no staging directory is numbered above 999999; and a
      completed matrix with no more attempts than that has no disqualifying orphan,
      so it is eligible exactly when no item was unavailable. */
  lemma RunnerHistoriesAreAccepted(plan: seq<string>, t0: int, es: seq<Event>)
    requires Distinct(plan) && plan != [] && FairRun(Init(plan, t0), es)
    ensures var d := Run(Init(plan, t0), es).disk;
            && (HistoryOk(d) <==> WithinLimit(d))
            && (d.manifest.completed && Countable(d) ==>
                  && (forall item, name :: !Disqualifies(d, item, name))
                  && (Eligible(d) <==> NoneUnavailable(d.manifest)))
  {
    hide Run, FairRun, Init;
    FairRunsAreOrdered(plan, t0, es);
    var s := Run(Init(plan, t0), es);
    AcceptedWhenOrdered(s.disk, s.clock);
  }

  lemma AcceptedWhenOrdered(d: Disk, clock: int)
    requires DiskOk(d) && DiskTimes(d, clock)
    ensures HistoryOk(d) <==> WithinLimit(d)
    ensures d.manifest.completed && Countable(d) ==>
              && (forall item, name :: !Disqualifies(d, item, name))
              && (Eligible(d) <==> NoneUnavailable(d.manifest))
  {
    hide AttemptId, DiskTimes, LayoutOk, Countable, CommittedOk, ChronologyAt, OrphanOk, PriorRetry;
    hide DirectoryOk, CommitOk;
    LayoutPasses(d, clock);
    if Countable(d) {
      forall i | 0 <= i < |d.manifest.completions| ensures CommittedOk(d, i) && ChronologyAt(d.manifest, i) {
        CommittedPasses(d, clock, i);
      }
      forall item, name | IsOrphan(d, item, name) ensures OrphanOk(d, item, name) {
        OrphanPasses(d, clock, item, name);
      }
      if d.manifest.completed {
        forall item, name ensures !Disqualifies(d, item, name) {
          if IsOrphan(d, item, name) {
            assert NotPast(d.manifest, item);
            var i :| 0 <= i <= |d.manifest.completions| && i < |d.manifest.plan| && d.manifest.plan[i] == item;
            assert Completes(d.manifest, item, d.manifest.completions[i]);
            OrphanRetries(d, clock, item, name, d.manifest.completions[i]);
          }
        }
      }
    }
  }

  // ---------------------------------------------------------- imperative form

  /** One orphan's checks, given the runs seen so far. */
  predicate OrphanAccepted(
    d: Disk, item: string, name: string, officialRuns: set<string>, seen: set<string>,
    official: map<string, Completion>)
    requires item in d.work && name in d.work[item]
  {
    var a := d.work[item][name];
    && (a.result.Some? ==> ValidChild(d, item, a.result.value.outcome))
    && RunsOf(a) !! officialRuns
    && RunsOf(a) !! seen
    && (item in official && TextOrder.Less(name, official[item].attempt) ==>
          PriorRetry(d.manifest, name, a, official[item]))
  }

  ghost predicate OfficialTables(m: Manifest, runs: set<string>, official: map<string, Completion>) {
    && (forall run :: run in runs <==> OfficialRun(m, run))
    && (forall item :: item in official ==> Completes(m, item, official[item]))
    && (forall item, c :: Completes(m, item, c) ==> item in official && official[item] == c)
  }

  /** Orphans visited so far, the runs they used, and whether one disqualifies. */
  ghost predicate Visited(d: Disk, done: set<(string, string)>, seen: set<string>, disqualified: bool) {
    && (forall x :: x in done ==> IsOrphan(d, x.0, x.1) && OrphanLocal(d, x.0, x.1))
    && (forall run :: run in seen <==> exists x :: x in done && run in RunsOf(d.work[x.0][x.1]))
    && (forall x, y, run ::
          x in done && y in done && run in RunsOf(d.work[x.0][x.1]) && run in RunsOf(d.work[y.0][y.1]) ==> x == y)
    && (disqualified <==> exists x :: x in done && Disqualifies(d, x.0, x.1))
  }

  /** `OrphanOk` without the comparison against other orphans. */
  ghost predicate OrphanLocal(d: Disk, item: string, name: string)
    requires IsOrphan(d, item, name)
  {
    var a := d.work[item][name];
    && (a.result.Some? ==> ValidChild(d, item, a.result.value.outcome))
    && (forall run :: run in RunsOf(a) ==> !OfficialRun(d.manifest, run))
    && (forall c :: Completes(d.manifest, item, c) && TextOrder.Less(name, c.attempt) ==>
          PriorRetry(d.manifest, name, a, c))
  }

  lemma VisitOne(
    d: Disk, done: set<(string, string)>, seen: set<string>, bad: bool,
    item: string, name: string, runs: set<string>, official: map<string, Completion>)
    requires OfficialTables(d.manifest, runs, official)
    requires Visited(d, done, seen, bad) && IsOrphan(d, item, name) && (item, name) !in done
    ensures !OrphanAccepted(d, item, name, runs, seen, official) ==> !OrphanOk(d, item, name)
    ensures OrphanAccepted(d, item, name, runs, seen, official) ==>
      var retry := item in official && PriorRetry(d.manifest, name, d.work[item][name], official[item]);
      Visited(d, done + {(item, name)}, seen + RunsOf(d.work[item][name]), bad || !retry)
  {
    hide PriorRetry, ValidChild, TextOrder.Less;
    var a := d.work[item][name];
    if OrphanAccepted(d, item, name, runs, seen, official) {
      assert OrphanLocal(d, item, name);
      var done' := done + {(item, name)};
      forall x, y, run | x in done' && y in done' && run in RunsOf(d.work[x.0][x.1]) && run in RunsOf(d.work[y.0][y.1])
        ensures x == y
      {
        if x in done { assert run in seen; }
        if y in done { assert run in seen; }
      }
      forall run ensures run in seen + RunsOf(a) <==> exists x :: x in done' && run in RunsOf(d.work[x.0][x.1]) {
        if run in RunsOf(a) { assert (item, name) in done'; }
        if run in seen {
          var x :| x in done && run in RunsOf(d.work[x.0][x.1]);
          assert x in done';
        }
      }
      var retry := item in official && PriorRetry(d.manifest, name, a, official[item]);
      assert Disqualifies(d, item, name) <==> !retry;
      if bad {
        var x :| x in done && Disqualifies(d, x.0, x.1);
        assert x in done';
      }
      if !retry { assert (item, name) in done'; }
    } else if RunsOf(a) * seen != {} {
      var run :| run in RunsOf(a) && run in seen;
      var x :| x in done && run in RunsOf(d.work[x.0][x.1]);
      assert IsOrphan(d, x.0, x.1);
    }
  }

  lemma AllVisited(d: Disk, done: set<(string, string)>, seen: set<string>, bad: bool)
    requires Visited(d, done, seen, bad)
    requires forall item, name :: IsOrphan(d, item, name) ==> (item, name) in done
    ensures forall item, name :: IsOrphan(d, item, name) ==> OrphanOk(d, item, name)
    ensures bad <==> exists item, name :: Disqualifies(d, item, name)
  {
    hide PriorRetry, ValidChild, TextOrder.Less;
    forall item, name | IsOrphan(d, item, name) ensures OrphanOk(d, item, name) {
      assert (item, name) in done;
      assert OrphanLocal(d, item, name);
    }
    if item, name :| Disqualifies(d, item, name) { assert (item, name) in done; }
  }

  /** The committed attempts: their checks and the tables built from them. */
  method InspectCompletions(d: Disk)
    returns (ok: bool, runs: set<string>, official: map<string, Completion>, observedAll: bool)
    requires Distinct(d.manifest.plan) && |d.manifest.completions| <= |d.manifest.plan|
    ensures ok <==> forall i :: 0 <= i < |d.manifest.completions| ==> CommittedOk(d, i)
    ensures ok ==> OfficialTables(d.manifest, runs, official)
    ensures ok ==> (observedAll <==> NoneUnavailable(d.manifest))
  {
    hide CommittedOk, PriorRetry;
    var m := d.manifest;
    ok, runs, official, observedAll := true, {}, map[], true;
    for i := 0 to |m.completions|
      invariant ok && forall j :: 0 <= j < i ==> CommittedOk(d, j)
      invariant observedAll <==> forall j :: 0 <= j < i ==> m.completions[j].outcome.Observed?
      invariant forall run :: run in runs <==>
        exists j :: 0 <= j < i && m.completions[j].outcome.Observed? && m.completions[j].outcome.run == run
      invariant forall j :: 0 <= j < i ==> m.plan[j] in official && official[m.plan[j]] == m.completions[j]
      invariant forall item :: item in official ==> exists j :: 0 <= j < i && m.plan[j] == item
    {
      if !CommittedOk(d, i) { return false, runs, official, false; }
      var c := m.completions[i];
      official := official[m.plan[i] := c];
      if c.outcome.Observed? {
        runs := runs + {c.outcome.run};
      } else {
        observedAll := false;
      }
    }
  }

  ghost function OrphansOf(d: Disk, item: string): set<(string, string)>
    requires item in d.work
  {
    set name | name in d.work[item] && IsOrphan(d, item, name) :: (item, name)
  }

  /** The orphans among the first `n` attempt names of an item have been listed. */
  ghost predicate Listed(d: Disk, item: string, names: seq<string>, n: nat, orphans: seq<(string, string)>)
    requires n <= |names|
  {
    && (forall x :: x in orphans ==> x.0 == item && IsOrphan(d, item, x.1) && x.1 in names[..n])
    && (forall j :: 0 <= j < n && IsOrphan(d, item, names[j]) ==> (item, names[j]) in orphans)
  }

  lemma ListOne(d: Disk, item: string, names: seq<string>, n: nat, orphans: seq<(string, string)>)
    requires n < |names| && Listed(d, item, names, n, orphans)
    ensures Listed(d, item, names, n + 1,
              if IsOrphan(d, item, names[n]) then orphans + [(item, names[n])] else orphans)
  {
    hide IsOrphan;
    assert names[..n + 1] == names[..n] + [names[n]];
  }

  lemma ListedAll(d: Disk, item: string, names: seq<string>, orphans: seq<(string, string)>)
    requires item in d.work && Listed(d, item, names, |names|, orphans)
    requires forall name :: name in names <==> name in d.work[item]
    ensures forall x :: x in orphans <==> x in OrphansOf(d, item)
  {
    hide IsOfficial;
    forall name | IsOrphan(d, item, name) ensures (item, name) in orphans { assert name in names; }
  }

  /** The orphan scan of one item: its attempt directories in sorted order. */
  method InspectItem(
    d: Disk, item: string, runs: set<string>, official: map<string, Completion>,
    ghost done0: set<(string, string)>, seen0: set<string>, bad0: bool)
    returns (ok: bool, orphans: seq<(string, string)>, seen: set<string>, bad: bool)
    requires OfficialTables(d.manifest, runs, official)
    requires item in d.work && Visited(d, done0, seen0, bad0)
    requires forall name :: (item, name) !in done0
    ensures !ok ==> exists name :: IsOrphan(d, item, name) && !OrphanOk(d, item, name)
    ensures ok ==> Visited(d, done0 + OrphansOf(d, item), seen, bad)
    ensures ok ==> forall x :: x in orphans <==> x in OrphansOf(d, item)
  {
    hide OrphanOk, OrphanAccepted, Visited, OfficialTables, PriorRetry, IsOfficial, RunsOf, Listed, OrphansOf;
    hide TextOrder.Less, TextOrder.Sorted;
    ok, orphans, seen, bad := true, [], seen0, bad0;
    ghost var all := done0;
    var names := TextOrder.Sorted(d.work[item].Keys);
    SortedDistinct(names);
    assert Listed(d, item, names, 0, []) by { ListNothing(d, item, names); }
    for n := 0 to |names|
      invariant ok && Visited(d, all, seen, bad)
      invariant forall x :: x in all <==> x in done0 || x in orphans
      invariant Listed(d, item, names, n, orphans)
    {
      var name := names[n];
      assert name in names;
      ListOne(d, item, names, n, orphans);
      if IsOrphan(d, item, name) {
        NotListed(d, item, names, n, orphans);
        VisitOne(d, all, seen, bad, item, name, runs, official);
        if !OrphanAccepted(d, item, name, runs, seen, official) { return false, orphans, seen, bad; }
        var a := d.work[item][name];
        var retry := item in official && PriorRetry(d.manifest, name, a, official[item]);
        orphans := orphans + [(item, name)];
        seen := seen + RunsOf(a);
        bad := bad || !retry;
        all := all + {(item, name)};
      }
    }
    ListedAll(d, item, names, orphans);
    assert all == done0 + OrphansOf(d, item);
  }

  lemma ListNothing(d: Disk, item: string, names: seq<string>)
    ensures Listed(d, item, names, 0, [])
  { }

  lemma NotListed(d: Disk, item: string, names: seq<string>, n: nat, orphans: seq<(string, string)>)
    requires n < |names| && Listed(d, item, names, n, orphans) && names[n] !in names[..n]
    ensures (item, names[n]) !in orphans
  {
    hide IsOrphan;
  }

  method InspectOrphans(d: Disk, runs: set<string>, official: map<string, Completion>)
    returns (ok: bool, orphans: seq<(string, string)>, disqualified: bool)
    requires OfficialTables(d.manifest, runs, official)
    ensures ok <==> forall item, name :: IsOrphan(d, item, name) ==> OrphanOk(d, item, name)
    ensures ok ==> forall item, name :: (item, name) in orphans <==> IsOrphan(d, item, name)
    ensures ok ==> (disqualified <==> exists item, name :: Disqualifies(d, item, name))
  {
    hide OrphanOk, Visited, OfficialTables, PriorRetry, IsOfficial, Disqualifies;
    hide TextOrder.Less, TextOrder.Sorted;
    ghost var done: set<(string, string)> := {};
    var seen: set<string> := {};
    ok, orphans, disqualified := true, [], false;
    NothingVisited(d);
    var items := TextOrder.Sorted(d.work.Keys);
    SortedDistinct(items);
    for k := 0 to |items|
      invariant ok && Visited(d, done, seen, disqualified)
      invariant forall x :: x in orphans <==> x in done
      invariant forall x :: x in done ==> IsOrphan(d, x.0, x.1) && x.0 in items[..k]
      invariant forall j, name :: 0 <= j < k && IsOrphan(d, items[j], name) ==> (items[j], name) in done
    {
      var item := items[k];
      assert item in items && item in d.work;
      assert item !in items[..k];
      assert items[..k + 1] == items[..k] + [item];
      var more;
      ok, more, seen, disqualified := InspectItem(d, item, runs, official, done, seen, disqualified);
      if !ok { return; }
      orphans := orphans + more;
      done := done + OrphansOf(d, item);
    }
    assert forall item, name :: IsOrphan(d, item, name) ==> item in items;
    AllVisited(d, done, seen, disqualified);
  }

  lemma NothingVisited(d: Disk)
    ensures Visited(d, {}, {}, false)
  {
  }

  lemma SortedDistinct(s: seq<string>)
    requires forall i, j :: 0 <= i < j < |s| ==> TextOrder.Less(s[i], s[j])
    ensures forall k :: 0 <= k < |s| ==> s[k] !in s[..k]
  {
    forall k | 0 <= k < |s| ensures s[k] !in s[..k] {
      TextOrder.Irreflexive(s[k]);
    }
  }

  /** `inspect_matrix`, its history part. */
  method InspectMatrix(d: Disk) returns (ok: bool, eligible: bool, orphans: seq<(string, string)>)
    requires Distinct(d.manifest.plan) && |d.manifest.completions| <= |d.manifest.plan|
    ensures ok <==> HistoryOk(d)
    ensures ok ==> (eligible <==> Eligible(d))
    ensures ok ==> forall item, name :: (item, name) in orphans <==> IsOrphan(d, item, name)
  {
    hide LayoutOk, CommittedOk, OrphanOk, Disqualifies, IsOrphan, ChronologyAt, OfficialTables;
    eligible, orphans := false, [];
    ok := LayoutOk(d);
    if !ok { return; }
    var runs, official, observedAll;
    ok, runs, official, observedAll := InspectCompletions(d);
    if !ok { return; }
    var disqualified;
    ok, orphans, disqualified := InspectOrphans(d, runs, official);
    if !ok { return; }
    var m := d.manifest;
    for i := 0 to |m.completions|
      invariant ok && forall j :: 0 <= j < i ==> ChronologyAt(m, j)
    {
      if !ChronologyAt(m, i) { return false, false, orphans; }
    }
    eligible := m.completed && |m.completions| == |m.plan| && observedAll && !disqualified;
  }
}
