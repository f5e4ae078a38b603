/** No crash leaves a campaign stuck: as long as the six-digit limit is not
    reached, every history can be resumed, and an environment that cooperates from
    then on brings it to completion. */
module CampaignResume {
  import opened Common
  import opened AttemptIds
  import opened Campaign
  import opened CampaignTimes
  import opened CampaignRunner
  import opened Inspection

  lemma CommittedRunsAreFresh(d: Disk)
    requires DiskOk(d) && UniqueRuns(d)
    ensures FreshRuns(d.manifest.completions)
  {
    hide AttemptId, DirectoryOk;
    var cs, plan := d.manifest.completions, d.manifest.plan;
    forall i, j | 0 <= i < j < |cs| && cs[i].outcome.Observed? && cs[j].outcome.Observed?
      ensures cs[i].outcome.run != cs[j].outcome.run
    {
      assert CommitOk(d, i) && CommitOk(d, j);
      assert HasRun(d, plan[i], cs[i].attempt, cs[i].outcome.run);
      assert HasRun(d, plan[j], cs[j].attempt, cs[j].outcome.run);
    }
  }

  lemma ResumesWhenOrdered(d: Disk, clock: int)
    requires DiskOk(d) && DiskTimes(d, clock)
    ensures LayoutOk(d) && ResumeOk(d) <==> WithinLimit(d)
  {
    hide AttemptId, LayoutOk, CommittedOk, FreshRuns, WithinLimit, DirectoryOk, CommitOk;
    LayoutPasses(d, clock);
    CommittedRunsAreFresh(d);
    forall i | 0 <= i < |d.manifest.completions| ensures CommittedOk(d, i) { CommittedPasses(d, clock, i); }
  }

  /** Whatever attempts, failures and crashes came before, the campaign can be
      resumed exactly as long as no attempt directory and no staging directory is
      numbered above 999999. */
  lemma EveryHistoryResumes(plan: seq<string>, t0: int, es: seq<Event>)
    requires Distinct(plan) && plan != [] && FairRun(Init(plan, t0), es)
    ensures var d := Run(Init(plan, t0), es).disk; LayoutOk(d) && ResumeOk(d) <==> WithinLimit(d)
  {
    hide Run, FairRun, Init, LayoutOk, ResumeOk, WithinLimit, DiskOk, DiskTimes;
    FairRunsAreOrdered(plan, t0, es);
    var s := Run(Init(plan, t0), es);
    ResumesWhenOrdered(s.disk, s.clock);
  }

  // ------------------------------------------------------------------- progress

  function NextOf(m: Manifest): string
    requires |m.completions| < |m.plan|
  {
    m.plan[|m.completions|]
  }

  /** No crash, and a child that reports on the item in hand, in time. */
  ghost predicate Willing(s: State, f: Fate) {
    && f.crash.NoCrash? && s.clock < f.startedAt
    && match f.child
       case ReportsUnavailable(now, _) => f.startedAt < now
       case Reports(now, run, child) =>
         && f.startedAt < child.startedAt < child.finishedAt < now
         && run !in s.disk.children && |s.disk.manifest.completions| < |s.disk.manifest.plan|
         && child.workItem == NextOf(s.disk.manifest)
       case Errs(_) => false
  }

  ghost predicate AllWilling(s: State, fates: seq<Fate>)
    decreases |fates|
  {
    fates == [] || (Willing(s, fates[0]) && AllWilling(Run(s, EventsOf(fates[0])), fates[1..]))
  }

  /** The loop stands before the next item, and the layout is in order. */
  ghost predicate Startable(s: State) {
    Inv(s) && Times(s) && s.runner.Looping? && WithinLimit(s.disk)
  }

  /** And the next item's next attempt still has six digits. */
  ghost predicate Ready(s: State) {
    Startable(s) && |Attempts(s.disk, NextOf(s.runner.m))| < LAST_PADDED
  }

  lemma Keep(s: State, e: Event)
    requires Inv(s) && Times(s) && FairStep(s, e)
    ensures Inv(Apply(s, e)) && Times(Apply(s, e))
  {
    hide Inv, Times, Apply, FairStep;
    ApplyKeeps(s, e);
    ApplyTimes(s, e);
  }

  /** The staging directory of the next attempt is made. */
  lemma Stages(s: State, now: int) returns (t: State, doc: StartedDoc)
    requires Inv(s) && Times(s) && s.runner.Looping? && WithinLimit(s.disk) && s.clock < now
    ensures |s.runner.m.completions| < |s.runner.m.plan| && s.runner.m == s.disk.manifest
    ensures t == Apply(s, Stage(now)) && Inv(t) && Times(t) && t.clock == now
    ensures doc == StartedDoc(AttemptId(|Attempts(s.disk, NextOf(s.runner.m))| + 1), NextOf(s.runner.m), now)
    ensures t.runner == Staging(s.runner.m, doc)
    ensures t.disk == s.disk.(work := s.disk.work[doc.workItem := Attempts(s.disk, doc.workItem)],
                              staging := s.disk.staging + multiset{StagingDir(doc.workItem, doc.attempt, None)})
  {
    Parts(s);
    LoopingFacts(s);
    hide AttemptId, LayoutOk, DiskOk, DiskTimes, WithinLimit, Inv, Times;
    LayoutPasses(s.disk, s.clock);
    doc := StartedDoc(AttemptId(|Attempts(s.disk, NextOf(s.runner.m))| + 1), NextOf(s.runner.m), now);
    Keep(s, Stage(now));
    t := Apply(s, Stage(now));
  }

  /** Its start is written. */
  lemma Writes(s: State) returns (t: State)
    requires Inv(s) && Times(s) && s.runner.Staging?
    ensures var doc := s.runner.doc;
            && t == Apply(s, WriteStart) && Inv(t) && Times(t) && t.clock == s.clock
            && t.runner == Staged(s.runner.m, doc)
            && t.disk == s.disk.(staging := s.disk.staging - multiset{StagingDir(doc.workItem, doc.attempt, None)}
                                            + multiset{StagingDir(doc.workItem, doc.attempt, Some(doc))})
  {
    hide Inv, Times, LayoutOk, ResumeOk, FreshRuns, Attempts;
    Keep(s, WriteStart);
    t := Apply(s, WriteStart);
  }

  /** It is renamed into place. */
  lemma Renames(s: State) returns (t: State)
    requires Inv(s) && Times(s) && s.runner.Staged?
    ensures t == Apply(s, Rename) && Inv(t) && Times(t) && t.clock == s.clock
    ensures t.runner == Running(s.runner.m, s.runner.doc)
    ensures t.disk == Renamed(s.disk, s.runner.doc)
    ensures |Attempts(t.disk, s.runner.doc.workItem)| == |Attempts(s.disk, s.runner.doc.workItem)| + 1
  {
    hide Inv, Times, Apply, Renamed, Attempts;
    StagedDoc(s);
    RenameApplies(s);
    Keep(s, Rename);
    t := Apply(s, Rename);
  }

  lemma RenameApplies(s: State)
    requires s.runner.Staged? && s.runner.doc.attempt !in Attempts(s.disk, s.runner.doc.workItem)
    ensures Apply(s, Rename) == s.(disk := Renamed(s.disk, s.runner.doc), runner := Running(s.runner.m, s.runner.doc))
  {
    hide Attempts, PutAttempt;
  }

  function Renamed(d: Disk, doc: StartedDoc): Disk {
    var e := PutAttempt(d, doc.workItem, doc.attempt, Attempt(doc, None, None));
    e.(staging := e.staging - multiset{StagingDir(doc.workItem, doc.attempt, Some(doc))})
  }

  lemma StagedDoc(s: State)
    requires Inv(s) && Times(s) && s.runner.Staged?
    ensures var doc, item := s.runner.doc, s.runner.doc.workItem;
            && doc.attempt !in Attempts(s.disk, item)
            && |Attempts(Renamed(s.disk, doc), item)| == |Attempts(s.disk, item)| + 1
  {
    hide AttemptId, DiskOk, DiskTimes, DirectoryOk;
    var doc := s.runner.doc;
    assert doc.attempt == AttemptId(|Attempts(s.disk, doc.workItem)| + 1);
    Parts(s);
    hide Inv, Times;
    DirectoryOf(s.disk, doc.workItem);
    OneMoreAttempt(doc.workItem, Attempts(s.disk, doc.workItem), doc);
  }

  lemma Swapped<T>(a: multiset<T>, x: T, y: T)
    ensures a + multiset{x} - multiset{x} + multiset{y} - multiset{y} == a
  { }

  /** The attempt exists and its child may run. */
  lemma Starts(s: State, f: Fate) returns (t: State, doc: StartedDoc)
    requires Inv(s) && Times(s) && s.runner.Looping? && WithinLimit(s.disk) && s.clock < f.startedAt && f.crash.NoCrash?
    requires |s.runner.m.completions| < |s.runner.m.plan|
    ensures t == Run(s, StartEvents(f)) && Inv(t) && Times(t)
    ensures t.runner == Running(s.runner.m, doc) && t.clock == f.startedAt
    ensures doc == StartedDoc(AttemptId(|Attempts(s.disk, NextOf(s.runner.m))| + 1), NextOf(s.runner.m), f.startedAt)
    ensures t.disk.manifest == s.disk.manifest && t.disk.children == s.disk.children
    ensures t.disk.staging == s.disk.staging
    ensures forall x :: x != doc.workItem ==> Attempts(t.disk, x) == Attempts(s.disk, x)
    ensures |Attempts(t.disk, doc.workItem)| == |Attempts(s.disk, doc.workItem)| + 1
  {
    hide AttemptId, Inv, Times, Apply, WithinLimit;
    var s1;
    s1, doc := Stages(s, f.startedAt);
    var s2 := Writes(s1);
    t := Renames(s2);
    var bare, written := StagingDir(doc.workItem, doc.attempt, None), StagingDir(doc.workItem, doc.attempt, Some(doc));
    Swapped(s.disk.staging, bare, written);
    assert Attempts(s2.disk, doc.workItem) == Attempts(s.disk, doc.workItem);
    ThreeSteps(s, Stage(f.startedAt), WriteStart, Rename);
  }

  lemma ThreeSteps(s: State, a: Event, b: Event, c: Event)
    ensures Run(s, [a, b, c]) == Apply(Apply(Apply(s, a), b), c)
  {
    hide Apply;
    RunCons(s, a, [b, c]);
    RunCons(Apply(s, a), b, [c]);
    RunCons(Apply(Apply(s, a), b), c, []);
    assert [a] + [b, c] == [a, b, c] && [b] + [c] == [b, c] && [c] + [] == [c];
    RunNothing(Apply(Apply(Apply(s, a), b), c));
  }

  /** A new report on the item in hand is taken over. */
  lemma ReportTaken(s: State, now: int, run: string, child: ChildRun) returns (c: Completion)
    requires Inv(s) && Times(s) && s.runner.Running? && run !in s.disk.children
    requires child.workItem == s.runner.doc.workItem
    ensures var t := Apply(s, ChildObserved(now, run, child));
            && t.runner == Finished(s.runner.m, s.runner.doc, c)
            && c == Completion(s.runner.doc.workItem, s.runner.doc.attempt, s.runner.doc, Observed(run, child), now)
            && t.disk.manifest == s.disk.manifest && t.disk.work == s.disk.work && t.disk.staging == s.disk.staging
  {
    hide Inv, Times, Apply, DiskOk, DiskTimes, FreshRuns;
    var m, doc := s.runner.m, s.runner.doc;
    c := Completion(doc.workItem, doc.attempt, doc, Observed(run, child), now);
    Parts(s);
    ItemInHand(s);
    NewRunIsFresh(s.disk, s.clock, run, c);
    RunningObserves(s, ChildObserved(now, run, child));
  }

  lemma Parts(s: State)
    requires Inv(s) && Times(s)
    ensures DiskOk(s.disk) && DiskTimes(s.disk, s.clock)
  {
    hide DiskOk, DiskTimes;
  }

  lemma RunningObserves(s: State, e: Event)
    requires s.runner.Running? && e.ChildObserved?
    ensures Apply(s, e) == StepObserved(s, s.runner.m, s.runner.doc, e)
  {
    hide StepObserved;
  }

  lemma ItemInHand(s: State)
    requires Inv(s) && s.runner.Running?
    ensures |s.disk.manifest.completions| < |s.disk.manifest.plan|
    ensures s.runner.doc.workItem == NextOf(s.disk.manifest) && s.runner.m == s.disk.manifest
  {
    hide AttemptId, DiskOk;
  }

  /** The completion says what the child reported of the attempt. */
  ghost predicate CompletesAs(c: Completion, doc: StartedDoc, child: ChildFate) {
    && c.workItem == doc.workItem && c.attempt == doc.attempt && c.started == doc
    && match child
       case ReportsUnavailable(now, reason) => c.outcome == Unavailable(reason) && c.completedAt == now
       case Reports(now, run, report) => c.outcome == Observed(run, report) && c.completedAt == now
       case Errs(_) => false
  }

  /** The child reports and its completion is built. */
  lemma Reported(s: State, s0: State, f: Fate) returns (t: State, c: Completion)
    requires Inv(s) && Times(s) && s.runner.Running? && Willing(s0, f)
    requires s.disk.manifest == s0.disk.manifest && s.disk.children == s0.disk.children && s.clock == f.startedAt
    ensures t == Apply(s, ChildEvent(f.child)) && Inv(t) && Times(t)
    ensures t.runner == Finished(s.runner.m, s.runner.doc, c)
    ensures t.disk.manifest == s.disk.manifest && t.disk.work == s.disk.work && t.disk.staging == s.disk.staging
    ensures c.completedAt > s.clock && CompletesAs(c, s.runner.doc, f.child)
  {
    hide Inv, Times;
    ItemInHand(s);
    Keep(s, ChildEvent(f.child));
    t := Apply(s, ChildEvent(f.child));
    match f.child
    case ReportsUnavailable(now, reason) => c := t.runner.c;
    case Reports(now, run, child) => c := ReportTaken(s, now, run, child);
  }

  lemma NewRunIsFresh(d: Disk, clock: int, run: string, c: Completion)
    requires DiskOk(d) && DiskTimes(d, clock) && run !in d.children
    requires c.outcome.Observed? && c.outcome.run == run
    ensures FreshRuns(d.manifest.completions + [c])
  {
    hide AttemptId, DirectoryOk, Follows, AllSequenced;
    CommittedRunsAreFresh(d);
    var cs := d.manifest.completions;
    forall i | 0 <= i < |cs| && cs[i].outcome.Observed? ensures cs[i].outcome.run != run {
      assert CommitOk(d, i);
      assert AttemptTimes(d, clock, d.work[d.manifest.plan[i]][cs[i].attempt]);
    }
  }

  lemma Publishes(s: State) returns (t: State)
    requires Inv(s) && Times(s) && s.runner.Finished?
    ensures t == Apply(s, PublishResult) && Inv(t) && Times(t)
    ensures t.runner == Published(s.runner.m, s.runner.doc, s.runner.c)
    ensures t.disk.manifest == s.disk.manifest && t.disk.staging == s.disk.staging
    ensures forall x :: |Attempts(t.disk, x)| == |Attempts(s.disk, x)|
  {
    hide AttemptId, DiskOk, DiskTimes, LayoutOk, ResumeOk, FreshRuns;
    var doc := s.runner.doc;
    Keep(s, PublishResult);
    t := Apply(s, PublishResult);
    assert t.disk.work[doc.workItem].Keys == s.disk.work[doc.workItem].Keys;
    SameSize(t.disk.work[doc.workItem], s.disk.work[doc.workItem]);
  }

  lemma Persists(s: State) returns (t: State)
    requires Inv(s) && Times(s) && s.runner.Published? && !s.disk.manifest.completed
    requires s.disk.manifest.updatedAt <= s.runner.c.completedAt
    ensures t == Apply(s, Persist) && Inv(t) && Times(t)
    ensures Checkpoint(s.disk.manifest, s.runner.c) == Some(t.disk.manifest)
    ensures t.disk.work == s.disk.work && t.disk.staging == s.disk.staging
    ensures t.runner == if t.disk.manifest.completed then Idle else Looping(t.disk.manifest)
  {
    hide AttemptId, DiskOk, DiskTimes, LayoutOk, ResumeOk, FreshRuns;
    var m, c := s.runner.m, s.runner.c;
    Keep(s, Persist);
    t := Apply(s, Persist);
    assert (m.completions + [c])[..|m.completions|] == m.completions;
  }

  /** The result is published and counted. */
  lemma Commits(s: State) returns (t: State)
    requires Inv(s) && Times(s) && s.runner.Finished? && !s.disk.manifest.completed
    requires s.disk.manifest.updatedAt <= s.runner.c.completedAt
    ensures t == Run(s, [PublishResult, Persist]) && Inv(t) && Times(t)
    ensures Checkpoint(s.disk.manifest, s.runner.c) == Some(t.disk.manifest)
    ensures t.runner == if t.disk.manifest.completed then Idle else Looping(t.disk.manifest)
    ensures t.disk.staging == s.disk.staging
    ensures forall x :: |Attempts(t.disk, x)| == |Attempts(s.disk, x)|
  {
    hide Inv, Times, Apply, Checkpoint;
    var s1 := Publishes(s);
    t := Persists(s1);
    RunCons(s, PublishResult, [Persist]);
    RunCons(s1, Persist, []);
    assert [PublishResult] + [Persist] == [PublishResult, Persist] && [Persist] + [] == [Persist];
    RunNothing(t);
  }

  lemma LoopingFacts(s: State)
    requires Inv(s) && Times(s) && s.runner.Looping?
    ensures s.runner.m == s.disk.manifest && !s.disk.manifest.completed
    ensures |s.disk.manifest.completions| < |s.disk.manifest.plan|
    ensures s.disk.manifest.updatedAt <= s.clock
  { }

  /** Start, child and commit in a row. */
  lemma Accounts(s: State, f: Fate) returns (t: State, c: Completion)
    requires Startable(s) && Willing(s, f)
    ensures t == Run(s, EventsOf(f)) && Inv(t) && Times(t)
    ensures Checkpoint(s.disk.manifest, c) == Some(t.disk.manifest)
    ensures t.runner == if t.disk.manifest.completed then Idle else Looping(t.disk.manifest)
    ensures t.disk.staging == s.disk.staging
    ensures var item := NextOf(s.runner.m);
            && |Attempts(t.disk, item)| == |Attempts(s.disk, item)| + 1
            && forall x :: x != item ==> |Attempts(t.disk, x)| == |Attempts(s.disk, x)|
    ensures var item := NextOf(s.runner.m);
            CompletesAs(c, StartedDoc(AttemptId(|Attempts(s.disk, item)| + 1), item, f.startedAt), f.child)
  {
    LoopingFacts(s);
    assert f.crash.NoCrash? && s.clock < f.startedAt;
    hide Apply, Run, Inv, Times, Checkpoint, Willing, WithinLimit, Attempts, AttemptId, CompletesAs;
    var s1, doc := Starts(s, f);
    var s2;
    s2, c := Reported(s1, s, f);
    assert Attempts(s2.disk, doc.workItem) == Attempts(s1.disk, doc.workItem)
           && forall x :: Attempts(s2.disk, x) == Attempts(s1.disk, x) by { SameWorkSameAttempts(s2.disk, s1.disk); }
    t := Commits(s2);
    RunAppend(s, StartEvents(f), [ChildEvent(f.child)] + CommitEvents(f.crash));
    RunCons(s1, ChildEvent(f.child), CommitEvents(f.crash));
  }

  lemma SameWorkSameAttempts(d: Disk, e: Disk)
    requires d.work == e.work
    ensures forall x :: Attempts(d, x) == Attempts(e, x)
  { }

  /** One willing fate accounts for one more item: its next attempt, started then,
      completes as the child reported, and is on disk with that result.  The item after
      it is fresh - or, when that was the millionth attempt, the layout is out of order. */
  lemma OneMoreItem(s: State, f: Fate) returns (t: State, c: Completion)
    requires Startable(s) && Willing(s, f)
    ensures t == Run(s, EventsOf(f)) && Inv(t) && Times(t)
    ensures t.disk.manifest.plan == s.disk.manifest.plan
    ensures t.disk.manifest.completions == s.disk.manifest.completions + [c]
    ensures var item := NextOf(s.runner.m);
            && CompletesAs(c, StartedDoc(AttemptId(|Attempts(s.disk, item)| + 1), item, f.startedAt), f.child)
            && c.attempt in Attempts(t.disk, item)
            && Attempts(t.disk, item)[c.attempt] == Attempt(c.started, Some(c), None)
    ensures if |t.disk.manifest.completions| == |t.disk.manifest.plan| then t.disk.manifest.completed && t.runner.Idle?
            else
              && !t.disk.manifest.completed && t.runner.Looping?
              && if Ready(s) then Ready(t) else !WithinLimit(t.disk)
  {
    hide Inv, Times, Run, Willing, WithinLimit, Attempts, EventsOf, AttemptId, CompletesAs;
    LoopingFacts(s);
    t, c := Accounts(s, f);
    LastIsOnDisk(t, c);
    if Ready(s) {
      StillWithinLimit(s.disk, t.disk, NextOf(s.runner.m));
      if !t.disk.manifest.completed { NextIsFresh(s, t); }
    } else {
      BeyondLimit(t.disk, NextOf(s.runner.m));
    }
  }

  lemma LastIsOnDisk(s: State, c: Completion)
    requires Inv(s) && LastOf(s.disk.manifest.completions) == Some(c)
    ensures var dirs := Attempts(s.disk, c.workItem);
            c.attempt in dirs && dirs[c.attempt] == Attempt(c.started, Some(c), None)
  {
    hide AttemptId, Names;
    var i := |s.disk.manifest.completions| - 1;
    assert CommitOk(s.disk, i);
    assert DirectoryOk(c.workItem, s.disk.work[c.workItem]);
  }

  lemma NextIsFresh(s: State, t: State)
    requires Inv(s) && Times(s) && t.disk.manifest.plan == s.disk.manifest.plan
    requires |t.disk.manifest.completions| == |s.disk.manifest.completions| + 1 < |s.disk.manifest.plan|
    requires forall x :: x != NextOf(s.disk.manifest) ==> |Attempts(t.disk, x)| == |Attempts(s.disk, x)|
    ensures |Attempts(t.disk, NextOf(t.disk.manifest))| == 0
  {
    var n := |t.disk.manifest.completions|;
    NextDiffers(s, n);
    Parts(s);
    NextHasNoAttempts(s.disk);
    hide Inv, Times, DiskOk, DiskTimes;
    assert |Attempts(t.disk, t.disk.manifest.plan[n])| == |Attempts(s.disk, t.disk.manifest.plan[n])| == 0;
  }

  lemma BeyondLimit(d: Disk, item: string)
    requires |Attempts(d, item)| > LAST_PADDED
    ensures !WithinLimit(d)
  { }

  lemma NextDiffers(s: State, n: nat)
    requires Inv(s) && n == |s.disk.manifest.completions| + 1 && n < |s.disk.manifest.plan|
    ensures s.disk.manifest.plan[n] != s.disk.manifest.plan[n - 1]
  { }

  lemma StillWithinLimit(d: Disk, d': Disk, item: string)
    requires WithinLimit(d) && |Attempts(d, item)| < LAST_PADDED && d'.staging == d.staging
    requires |Attempts(d', item)| == |Attempts(d, item)| + 1
    requires forall x :: x != item ==> |Attempts(d', x)| == |Attempts(d, x)|
    ensures WithinLimit(d')
  {
    forall x | x in d'.work ensures |d'.work[x]| <= LAST_PADDED {
      assert d'.work[x] == Attempts(d', x);
      if x != item { assert |Attempts(d', x)| == |Attempts(d, x)|; }
    }
  }

  /** Items past the next one have not been tried. */
  lemma NextHasNoAttempts(d: Disk)
    requires DiskOk(d)
    ensures forall i :: |d.manifest.completions| < i < |d.manifest.plan| ==> Attempts(d, d.manifest.plan[i]) == map[]
  {
    hide AttemptId, DirectoryOk, CommitOk;
    forall i | |d.manifest.completions| < i < |d.manifest.plan| ensures d.manifest.plan[i] !in d.work {
      assert !NotPast(d.manifest, d.manifest.plan[i]);
    }
  }

  /** As many willing fates as items are left complete the campaign, exactly when the
      next item is ready or the last. */
  lemma {:induction false} WillingFatesComplete(s: State, fates: seq<Fate>)
    requires Startable(s) && AllWilling(s, fates)
    requires |fates| == |s.disk.manifest.plan| - |s.disk.manifest.completions|
    ensures Run(s, Script(fates)).disk.manifest.completed <==> Ready(s) || |fates| == 1
    decreases |fates|
  {
    hide Startable, Ready, AllWilling, Run, Script, EventsOf, Willing, Inv, Times, WithinLimit;
    StartableHasNext(s);
    FirstIsWilling(s, fates);
    var t, _ := OneMoreItem(s, fates[0]);
    assert fates[0..] == fates;
    ScriptStep(s, fates, 0);
    if |fates| == 1 {
      ScriptNeverOpens(fates[1..]);
      StoppedStays(t, Script(fates[1..]));
    } else if Ready(s) {
      ReadyIsStartable(t);
      WillingFatesComplete(t, fates[1..]);
    } else {
      BlockedStops(t, fates[1..]);
    }
  }

  lemma StartableHasNext(s: State)
    requires Startable(s)
    ensures |s.disk.manifest.completions| < |s.disk.manifest.plan|
  {
    hide Inv, Times;
    LoopingFacts(s);
  }

  lemma ReadyIsStartable(s: State)
    ensures Ready(s) ==> Startable(s)
  { }

  lemma StageRefused(s: State, now: int)
    requires s.runner.Looping? && !LayoutOk(s.disk)
    ensures Apply(s, Stage(now)).runner.Idle? && Apply(s, Stage(now)).disk == s.disk
  {
    hide LayoutOk;
  }

  /** With the layout out of order no further item is started. */
  lemma BlockedStops(s: State, fates: seq<Fate>)
    requires Inv(s) && Times(s) && s.runner.Looping? && !WithinLimit(s.disk) && fates != []
    ensures Run(s, Script(fates)).disk == s.disk
  {
    hide Inv, Times, Run, WithinLimit, LayoutOk, DiskOk, DiskTimes, Apply;
    Parts(s);
    LayoutPasses(s.disk, s.clock);
    var all, now := Script(fates), fates[0].startedAt;
    StageRefused(s, now);
    assert all == [Stage(now)] + all[1..];
    RunCons(s, Stage(now), all[1..]);
    ScriptNeverOpens(fates);
    StoppedStays(Apply(s, Stage(now)), all[1..]);
  }

  lemma FirstIsWilling(s: State, fates: seq<Fate>)
    requires fates != [] && AllWilling(s, fates)
    ensures Willing(s, fates[0]) && AllWilling(Run(s, EventsOf(fates[0])), fates[1..])
  {
    hide Run, EventsOf, Willing;
  }

  /** After any fair history in which no process is running any more, resuming with
      a willing environment completes the campaign exactly when no directory is
      numbered above 999999 and the next item either is the last or has fewer attempts
      than that. */
  lemma EveryCampaignCanBeFinished(plan: seq<string>, t0: int, es: seq<Event>, fates: seq<Fate>)
    requires Distinct(plan) && plan != [] && FairRun(Init(plan, t0), es)
    requires var s := Run(Init(plan, t0), es);
             && s.runner.Idle? && !s.disk.manifest.completed
             && |s.disk.manifest.completions| < |s.disk.manifest.plan|
             && |fates| == |s.disk.manifest.plan| - |s.disk.manifest.completions|
             && AllWilling(s.(runner := Looping(s.disk.manifest)), fates)
    ensures var s := Run(Init(plan, t0), es);
            Run(s, [Open] + Script(fates)).disk.manifest.completed <==>
              && WithinLimit(s.disk)
              && (|fates| == 1 || |Attempts(s.disk, NextOf(s.disk.manifest))| < LAST_PADDED)
  {
    hide FairRun, Run, Script, AllWilling, WithinLimit, LayoutOk, ResumeOk, DiskOk, DiskTimes;
    var s := Run(Init(plan, t0), es);
    FairRunsAreOrdered(plan, t0, es);
    ResumesWhenOrdered(s.disk, s.clock);
    RunCons(s, Open, Script(fates));
    if WithinLimit(s.disk) {
      var s1 := s.(runner := Looping(s.disk.manifest));
      assert Apply(s, Open) == s1;
      WillingFatesComplete(s1, fates);
    } else {
      assert Apply(s, Open) == s;
      ScriptNeverOpens(fates);
      StoppedStays(s, Script(fates));
    }
  }
}
