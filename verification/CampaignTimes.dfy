/** What a strictly increasing clock and fresh child run ids add to every run of
    the campaign: attempts of an item never overlap, items never overlap, and no
    two results share a child run. */
module CampaignTimes {
  import opened Common
  import opened AttemptIds
  import opened Campaign

  /** The environment: each stamp is later than every stamp before it, and a
      child run directory is new and lies inside its attempt. */
  ghost predicate FairStep(s: State, e: Event) {
    match e
    case Stage(now) => s.clock < now
    case ChildUnavailable(now, _) => s.clock < now
    case ChildObserved(now, run, child) =>
      && s.clock < child.startedAt < child.finishedAt < now
      && run !in s.disk.children
    case _ => true
  }

  ghost predicate FairRun(s: State, es: seq<Event>)
    decreases |es|
  {
    es == [] || (FairStep(s, es[0]) && FairRun(Apply(s, es[0]), es[1..]))
  }

  /** When an attempt was last heard of. */
  function EndOf(a: Attempt): int {
    if a.result.Some? then a.result.value.completedAt else a.started.startedAt
  }

  ghost predicate ResultTimes(kids: map<string, ChildRun>, clock: int, doc: StartedDoc, c: Completion) {
    && doc.startedAt < c.completedAt <= clock
    && (c.outcome.Observed? ==>
          && c.outcome.run in kids && kids[c.outcome.run] == c.outcome.child
          && c.outcome.child.workItem == doc.workItem
          && doc.startedAt < c.outcome.child.startedAt < c.outcome.child.finishedAt < c.completedAt)
  }

  ghost predicate AttemptTimes(d: Disk, clock: int, a: Attempt) {
    && d.manifest.startedAt < a.started.startedAt <= clock
    && (a.result.Some? ==> ResultTimes(d.children, clock, a.started, a.result.value))
  }

  ghost predicate AllTimes(d: Disk, clock: int) {
    forall item, name :: item in d.work && name in d.work[item] ==> AttemptTimes(d, clock, d.work[item][name])
  }

  /** An attempt starts after every earlier attempt of its item has ended. */
  ghost predicate Sequenced(dirs: map<string, Attempt>) {
    forall i, j :: 1 <= i < j <= |dirs| && AttemptId(i) in dirs && AttemptId(j) in dirs ==>
      EndOf(dirs[AttemptId(i)]) < dirs[AttemptId(j)].started.startedAt
  }

  ghost predicate AllSequenced(d: Disk) {
    forall item :: item in d.work ==> Sequenced(d.work[item])
  }

  /** An item's attempts start after the completion of the item before it. */
  ghost predicate Follows(d: Disk) {
    forall j, name :: 1 <= j < |d.manifest.plan| && j <= |d.manifest.completions|
                      && name in Attempts(d, d.manifest.plan[j]) ==>
      d.manifest.completions[j - 1].completedAt < Attempts(d, d.manifest.plan[j])[name].started.startedAt
  }

  ghost predicate HasRun(d: Disk, item: string, name: string, run: string) {
    && item in d.work && name in d.work[item]
    && d.work[item][name].result.Some?
    && d.work[item][name].result.value.outcome.Observed?
    && d.work[item][name].result.value.outcome.run == run
  }

  ghost predicate UniqueRuns(d: Disk) {
    forall i, n, i', n', run :: HasRun(d, i, n, run) && HasRun(d, i', n', run) ==> i == i' && n == n'
  }

  ghost predicate UpdatedOk(m: Manifest) {
    m.updatedAt == if m.completions == [] then m.startedAt else m.completions[|m.completions| - 1].completedAt
  }

  /** Everything on disk ended before `t`. */
  ghost predicate EndedBefore(d: Disk, t: int) {
    && d.manifest.updatedAt < t && d.manifest.startedAt < t
    && forall item, name :: item in d.work && name in d.work[item] ==> EndOf(d.work[item][name]) < t
  }

  ghost predicate RunnerTimes(d: Disk, clock: int, r: Runner) {
    match r
    case Staging(_, doc) => doc.startedAt <= clock && EndedBefore(d, doc.startedAt)
    case Staged(_, doc) => doc.startedAt <= clock && EndedBefore(d, doc.startedAt)
    case Finished(_, doc, c) =>
      && ResultTimes(d.children, clock, doc, c)
      && (c.outcome.Observed? ==> forall item, name :: !HasRun(d, item, name, c.outcome.run))
    case _ => true
  }

  ghost predicate DiskTimes(d: Disk, clock: int) {
    && d.manifest.startedAt <= clock && d.manifest.updatedAt <= clock
    && UpdatedOk(d.manifest)
    && AllTimes(d, clock)
    && AllSequenced(d)
    && Follows(d)
    && UniqueRuns(d)
  }

  ghost predicate Times(s: State) {
    DiskTimes(s.disk, s.clock) && RunnerTimes(s.disk, s.clock, s.runner)
  }

  // ------------------------------------------------------------- preservation

  lemma Later(d: Disk, d': Disk, clock: int, clock': int)
    requires DiskTimes(d, clock) && clock <= clock'
    requires d'.manifest == d.manifest && d'.work == d.work
    requires forall run :: run in d.children ==> run in d'.children && d'.children[run] == d.children[run]
    ensures DiskTimes(d', clock')
  {
    hide AttemptId, Sequenced;
    assert forall x :: Attempts(d', x) == Attempts(d, x);
    forall item, name | item in d'.work && name in d'.work[item]
      ensures AttemptTimes(d', clock', d'.work[item][name])
    {
      assert AttemptTimes(d, clock, d.work[item][name]);
    }
    forall i, n, i', n', run | HasRun(d', i, n, run) && HasRun(d', i', n', run) ensures i == i' && n == n' {
      assert HasRun(d, i, n, run) && HasRun(d, i', n', run);
    }
  }

  lemma StageTimes(s: State, m: Manifest, now: int)
    requires Inv(s) && Times(s) && s.runner == Looping(m) && s.clock < now
    ensures Times(StepStage(s, m, now))
  {
    hide AttemptId, LayoutOk, Inv;
    var s' := StepStage(s, m, now);
    var d, d' := s.disk, s'.disk;
    if s'.runner.Staging? {
      var item := m.plan[|m.completions|];
      assert forall x :: x in d'.work ==> d'.work[x] == Attempts(d, x);
      forall x, name | x in d'.work && name in d'.work[x]
        ensures AttemptTimes(d', now, d'.work[x][name]) && EndOf(d'.work[x][name]) < now
      {
        assert AttemptTimes(d, s.clock, d.work[x][name]);
      }
      forall x | x in d'.work ensures Sequenced(d'.work[x]) {
        if x in d.work { assert Sequenced(d.work[x]); }
      }
      assert forall x :: Attempts(d', x) == Attempts(d, x);
      forall i, n, i', n', run | HasRun(d', i, n, run) && HasRun(d', i', n', run) ensures i == i' && n == n' {
        assert HasRun(d, i, n, run) && HasRun(d, i', n', run);
      }
    } else {
      Later(d, d', s.clock, now);
    }
  }

  /** The attempts of the next item start after the last completion. */
  lemma NextStarts(d: Disk, clock: int, item: string)
    requires DiskTimes(d, clock) && PrefixOk(d.manifest) && NextItem(d.manifest, item)
    ensures forall name :: name in Attempts(d, item) ==>
              d.manifest.updatedAt < Attempts(d, item)[name].started.startedAt
  {
    hide AttemptId, Sequenced;
    var m := d.manifest;
    forall name | name in Attempts(d, item) ensures m.updatedAt < Attempts(d, item)[name].started.startedAt {
      assert AttemptTimes(d, clock, d.work[item][name]);
      if m.completions != [] { assert name in Attempts(d, m.plan[|m.completions|]); }
    }
  }

  /** Only the directory of the next item changes. */
  lemma DirectoryTimes(d: Disk, d': Disk, clock: int, item: string, dirs: map<string, Attempt>)
    requires DiskTimes(d, clock) && Distinct(d.manifest.plan) && PrefixOk(d.manifest) && NextItem(d.manifest, item)
    requires d'.manifest == d.manifest && d'.children == d.children && d'.work == d.work[item := dirs]
    requires forall name :: name in dirs ==>
      AttemptTimes(d, clock, dirs[name]) && d.manifest.updatedAt < dirs[name].started.startedAt
    requires Sequenced(dirs)
    requires UniqueRuns(d')
    ensures DiskTimes(d', clock)
  {
    hide AttemptId, Sequenced, UniqueRuns;
    var m := d.manifest;
    forall x, name | x in d'.work && name in d'.work[x] ensures AttemptTimes(d', clock, d'.work[x][name]) {
      if x != item { assert AttemptTimes(d, clock, d.work[x][name]); }
    }
    forall j, name | 1 <= j < |m.plan| && j <= |m.completions| && name in Attempts(d', m.plan[j])
      ensures m.completions[j - 1].completedAt < Attempts(d', m.plan[j])[name].started.startedAt
    {
      if m.plan[j] == item {
        assert j == |m.completions|;
      } else {
        assert name in Attempts(d, m.plan[j]);
      }
    }
  }

  lemma RewriteSequenced(dirs: map<string, Attempt>, doc: StartedDoc, a: Attempt)
    requires Sequenced(dirs) && doc.attempt == AttemptId(|dirs|) && doc.attempt in dirs
    requires dirs[doc.attempt].started == doc == a.started
    ensures Sequenced(dirs[doc.attempt := a])
  {
    hide AttemptId;
    var n, dirs' := |dirs|, dirs[doc.attempt := a];
    assert dirs'.Keys == dirs.Keys;
    forall i, j | 1 <= i < j <= n && AttemptId(i) in dirs' && AttemptId(j) in dirs'
      ensures EndOf(dirs'[AttemptId(i)]) < dirs'[AttemptId(j)].started.startedAt
    {
      IdsInjective(i, n);
    }
  }

  lemma RewriteRuns(d: Disk, item: string, name: string, a: Attempt)
    requires UniqueRuns(d) && item in d.work && name in d.work[item]
    requires d.work[item][name].result.None?
    requires a.result.Some? && a.result.value.outcome.Observed? ==>
               forall i, n :: !HasRun(d, i, n, a.result.value.outcome.run)
    ensures UniqueRuns(PutAttempt(d, item, name, a))
  {
    var d' := PutAttempt(d, item, name, a);
    forall i, x, i', x', run | HasRun(d', i, x, run) && HasRun(d', i', x', run) ensures i == i' && x == x' {
      if i != item || x != name { assert HasRun(d, i, x, run); }
      if i' != item || x' != name { assert HasRun(d, i', x', run); }
    }
  }

  /** Rewriting the newest attempt of the next item, its start unchanged. */
  lemma RewriteTimes(d: Disk, clock: int, m: Manifest, doc: StartedDoc, a: Attempt)
    requires DiskOk(d) && m == d.manifest && InHand(d, m, doc, None) && DiskTimes(d, clock)
    requires a.started == doc && (a.result.Some? ==> ResultTimes(d.children, clock, doc, a.result.value))
    requires a.result.Some? && a.result.value.outcome.Observed? ==>
               forall item, name :: !HasRun(d, item, name, a.result.value.outcome.run)
    ensures DiskTimes(PutAttempt(d, doc.workItem, doc.attempt, a), clock)
  {
    hide AttemptId, Sequenced, UniqueRuns, HasRun, DirectoryOk, CommitOk, ResultTimes, Follows;
    var item := doc.workItem;
    NextStarts(d, clock, item);
    assert Sequenced(d.work[item]);
    RewriteSequenced(d.work[item], doc, a);
    RewriteRuns(d, item, doc.attempt, a);
    assert AttemptTimes(d, clock, d.work[item][doc.attempt]);
    DirectoryTimes(d, PutAttempt(d, item, doc.attempt, a), clock, item, d.work[item][doc.attempt := a]);
  }

  lemma RenameSequenced(dirs: map<string, Attempt>, doc: StartedDoc)
    requires Sequenced(dirs) && doc.attempt == AttemptId(|dirs| + 1) && doc.attempt !in dirs
    requires |dirs[doc.attempt := Attempt(doc, None, None)]| == |dirs| + 1
    requires forall name :: name in dirs ==> EndOf(dirs[name]) < doc.startedAt
    ensures Sequenced(dirs[doc.attempt := Attempt(doc, None, None)])
  {
    hide AttemptId;
    var n := |dirs|;
    var dirs' := dirs[doc.attempt := Attempt(doc, None, None)];
    forall i, j | 1 <= i < j <= n + 1 && AttemptId(i) in dirs' && AttemptId(j) in dirs'
      ensures EndOf(dirs'[AttemptId(i)]) < dirs'[AttemptId(j)].started.startedAt
    {
      IdsInjective(i, n + 1);
      IdsInjective(j, n + 1);
    }
  }

  lemma RenameRuns(d: Disk, d': Disk, doc: StartedDoc)
    requires UniqueRuns(d) && doc.workItem in d.work
    requires d'.work == d.work[doc.workItem := d.work[doc.workItem][doc.attempt := Attempt(doc, None, None)]]
    ensures UniqueRuns(d')
  {
    forall i, x, i', x', run | HasRun(d', i, x, run) && HasRun(d', i', x', run) ensures i == i' && x == x' {
      assert HasRun(d, i, x, run) && HasRun(d, i', x', run);
    }
  }

  lemma RenameTimes(s: State, m: Manifest, doc: StartedDoc)
    requires Inv(s) && Times(s) && s.runner == Staged(m, doc)
    ensures Times(StepRename(s, m, doc))
  {
    hide AttemptId, Sequenced, UniqueRuns, HasRun, CommitOk, DirectoryOk, Follows, ResultTimes;
    var d, item, d' := s.disk, doc.workItem, StepRename(s, m, doc).disk;
    DirectoryOf(d, item);
    OneMoreAttempt(item, d.work[item], doc);
    RenameSequenced(d.work[item], doc);
    RenameRuns(d, d', doc);
    NextStarts(d, s.clock, item);
    var dirs := d.work[item][doc.attempt := Attempt(doc, None, None)];
    forall name | name in dirs
      ensures AttemptTimes(d, s.clock, dirs[name]) && m.updatedAt < dirs[name].started.startedAt
    {
      if name != doc.attempt { assert AttemptTimes(d, s.clock, d.work[item][name]); }
    }
    DirectoryTimes(d, d', s.clock, item, dirs);
  }

  lemma FailTimes(s: State, m: Manifest, doc: StartedDoc, error: string)
    requires DiskOk(s.disk) && m == s.disk.manifest && InHand(s.disk, m, doc, None) && DiskTimes(s.disk, s.clock)
    ensures Times(Fail(s, doc, error))
  {
    hide AttemptId, DiskOk, DiskTimes;
    RewriteTimes(s.disk, s.clock, m, doc, Attempt(doc, None, Some(error)));
  }

  lemma UnusedRun(d: Disk, clock: int, run: string, item: string, name: string)
    requires DiskTimes(d, clock) && run !in d.children
    ensures !HasRun(d, item, name, run)
  {
    hide AttemptId, Sequenced;
    if item in d.work && name in d.work[item] { assert AttemptTimes(d, clock, d.work[item][name]); }
  }

  lemma ObservedTimes(s: State, m: Manifest, doc: StartedDoc, e: Event)
    requires Inv(s) && Times(s) && s.runner == Running(m, doc) && e.ChildObserved? && FairStep(s, e)
    ensures Times(StepObserved(s, m, doc, e))
  {
    hide AttemptId, FreshRuns, DiskOk, DiskTimes;
    var d := s.disk;
    var t := s.(disk := d.(children := d.children[e.run := e.child]), clock := e.now);
    StartedBy(d, s.clock, doc);
    forall item, name ensures !HasRun(t.disk, item, name, e.run) {
      UnusedRun(d, s.clock, e.run, item, name);
    }
    InOrder(d);
    AllStagingStays(d, t.disk, multiset{});
    Later(d, t.disk, s.clock, e.now);
    SameWork(d, t.disk);
    FailTimes(t, m, doc, "MatrixError");
  }

  lemma PublishTimes(s: State, m: Manifest, doc: StartedDoc, c: Completion)
    requires Inv(s) && Times(s) && s.runner == Finished(m, doc, c)
    ensures Times(StepPublish(s, m, doc, c))
  {
    hide AttemptId, DiskOk, DiskTimes;
    RewriteTimes(s.disk, s.clock, m, doc, Attempt(doc, Some(c), None));
  }

  lemma CommitTimes(d: Disk, clock: int, m': Manifest, doc: StartedDoc, c: Completion)
    requires DiskOk(d) && InHand(d, d.manifest, doc, Some(c)) && DiskTimes(d, clock)
    requires Checkpoint(d.manifest, c) == Some(m')
    ensures DiskTimes(d.(manifest := m'), clock)
  {
    hide AttemptId, Sequenced, DirectoryOk, CommitOk;
    var m, k, d' := d.manifest, |d.manifest.completions|, d.(manifest := m');
    assert AttemptTimes(d, clock, d.work[doc.workItem][doc.attempt]);
    forall item, name | item in d'.work && name in d'.work[item] ensures AttemptTimes(d', clock, d'.work[item][name]) {
      assert AttemptTimes(d, clock, d.work[item][name]);
    }
    forall j, name | 1 <= j < |m'.plan| && j <= |m'.completions| && name in Attempts(d', m'.plan[j])
      ensures m'.completions[j - 1].completedAt < Attempts(d', m'.plan[j])[name].started.startedAt
    {
      assert name in Attempts(d, m.plan[j]);
      assert NotPast(m, m.plan[j]);
    }
    forall i, n, i', n', run | HasRun(d', i, n, run) && HasRun(d', i', n', run) ensures i == i' && n == n' {
      assert HasRun(d, i, n, run) && HasRun(d, i', n', run);
    }
  }

  lemma PersistTimes(s: State, m: Manifest, doc: StartedDoc, c: Completion)
    requires Inv(s) && Times(s) && s.runner == Published(m, doc, c)
    ensures Times(StepPersist(s, m, c))
  {
    hide AttemptId, DiskOk, DiskTimes;
    if Checkpoint(m, c).Some? {
      CommitTimes(s.disk, s.clock, Checkpoint(m, c).value, doc, c);
    }
  }

  lemma ApplyTimes(s: State, e: Event)
    requires Inv(s) && Times(s) && FairStep(s, e)
    ensures Times(Apply(s, e))
  {
    hide AttemptId, DiskOk, LayoutOk, ResumeOk, DiskTimes;
    match (e, s.runner)
    case (Stage(now), Looping(m)) => StageTimes(s, m, now);
    case (Rename, Staged(m, doc)) => RenameTimes(s, m, doc);
    case (WriteStart, Staging(_, _)) => Later(s.disk, Apply(s, e).disk, s.clock, s.clock);
    case (ChildUnavailable(now, _), Running(m, doc)) =>
      StartedBy(s.disk, s.clock, doc);
      Later(s.disk, s.disk, s.clock, now);
    case (ChildObserved(_, _, _), Running(m, doc)) => ObservedTimes(s, m, doc, e);
    case (ChildFails(error), Running(m, doc)) => FailTimes(s, m, doc, error);
    case (PublishResult, Finished(m, doc, c)) => PublishTimes(s, m, doc, c);
    case (Persist, Published(m, doc, c)) => PersistTimes(s, m, doc, c);
    case _ =>
  }

  lemma StartedBy(d: Disk, clock: int, doc: StartedDoc)
    requires DiskTimes(d, clock) && doc.workItem in d.work && doc.attempt in d.work[doc.workItem]
    requires d.work[doc.workItem][doc.attempt].started == doc
    ensures doc.startedAt <= clock
  {
    hide AttemptId;
    assert AttemptTimes(d, clock, d.work[doc.workItem][doc.attempt]);
  }

  lemma {:induction false} RunTimes(s: State, es: seq<Event>)
    requires Inv(s) && Times(s) && FairRun(s, es)
    ensures Inv(Run(s, es)) && Times(Run(s, es))
    decreases |es|
  {
    hide AttemptId, Inv, Times, Apply;
    if es != [] {
      ApplyKeeps(s, es[0]);
      ApplyTimes(s, es[0]);
      RunTimes(Apply(s, es[0]), es[1..]);
    }
  }

  /** Over every run with an increasing clock and fresh child runs: attempts of
      an item never overlap, items follow each other, and no two results share a
      child run. */
  lemma FairRunsAreOrdered(plan: seq<string>, t0: int, es: seq<Event>)
    requires Distinct(plan) && plan != [] && FairRun(Init(plan, t0), es)
    ensures var s := Run(Init(plan, t0), es); DiskOk(s.disk) && DiskTimes(s.disk, s.clock)
  {
    hide Apply, FairRun;
    RunTimes(Init(plan, t0), es);
  }
}
