/** The six-digit limit is real: a campaign whose only item is tried a million
    times completes, and the inspector then refuses its history. */
module CampaignLimit {
  import opened Common
  import opened AttemptIds
  import opened Campaign
  import opened CampaignTimes
  import opened CampaignRunner
  import opened Inspection
  import opened CampaignResume

  ghost predicate Reaches(plan: seq<string>, t0: int, s: State) {
    exists es :: FairRun(Init(plan, t0), es) && Run(Init(plan, t0), es) == s
  }

  lemma {:induction false} FairSnoc(s: State, es: seq<Event>, e: Event)
    requires FairRun(s, es) && FairStep(Run(s, es), e)
    ensures FairRun(s, es + [e])
    decreases |es|
  {
    hide Apply, FairStep;
    if es == [] {
      assert es + [e] == [e];
      assert FairRun(Apply(s, e), []);
    } else {
      assert (es + [e])[1..] == es[1..] + [e];
      FairSnoc(Apply(s, es[0]), es[1..], e);
    }
  }

  lemma ReachStep(plan: seq<string>, t0: int, s: State, e: Event)
    requires Reaches(plan, t0, s) && FairStep(s, e)
    ensures Reaches(plan, t0, Apply(s, e))
  {
    hide Apply, FairStep, Init;
    var es :| FairRun(Init(plan, t0), es) && Run(Init(plan, t0), es) == s;
    FairSnoc(Init(plan, t0), es, e);
    RunSnoc(Init(plan, t0), es, e);
  }

  lemma ReachedIsOrdered(plan: seq<string>, t0: int, s: State)
    requires Distinct(plan) && plan != [] && Reaches(plan, t0, s)
    ensures Inv(s) && Times(s)
  {
    hide Apply, DiskOk, DiskTimes;
    var es :| FairRun(Init(plan, t0), es) && Run(Init(plan, t0), es) == s;
    InitOrdered(plan, t0);
    RunTimes(Init(plan, t0), es);
  }

  lemma InitOrdered(plan: seq<string>, t0: int)
    requires Distinct(plan) && plan != []
    ensures Inv(Init(plan, t0)) && Times(Init(plan, t0))
  {
  }

  /** One open item, tried `n` times, none committed, no process running. */
  ghost predicate Tried(s: State, item: string, n: nat) {
    && s.runner == Idle
    && s.disk.manifest.plan == [item] && s.disk.manifest.completions == [] && !s.disk.manifest.completed
    && s.disk.work.Keys <= {item} && s.disk.staging == multiset{}
    && |Attempts(s.disk, item)| == n
  }

  /** From `n` tries, the next attempt gets as far as its staging directory. */
  lemma OneMoreStaged(item: string, s: State, n: nat) returns (s': State, doc: StartedDoc)
    requires Reaches([item], 0, s) && Tried(s, item, n) && n <= LAST_PADDED
    ensures Reaches([item], 0, s') && s'.runner == Staging(s.disk.manifest, doc)
    ensures s'.disk.manifest == s.disk.manifest && s'.disk.work.Keys <= {item}
    ensures doc.workItem == item && doc.attempt == AttemptId(n + 1)
    ensures Attempts(s'.disk, item) == Attempts(s.disk, item)
    ensures s'.disk.staging == multiset{StagingDir(item, doc.attempt, None)}
  {
    hide Reaches, AttemptId, LayoutOk, DiskOk, DiskTimes, DirectoryOk;
    var d := s.disk;
    ReachedIsOrdered([item], 0, s);
    LayoutPasses(d, s.clock);
    assert WithinLimit(d);
    ReachStep([item], 0, s, Open);
    var s1 := Apply(s, Open);
    assert s1 == s.(runner := Looping(d.manifest));
    var now := s.clock + 1;
    ReachStep([item], 0, s1, Stage(now));
    s' := Apply(s1, Stage(now));
    doc := StartedDoc(AttemptId(n + 1), item, now);
    assert s'.runner == Staging(d.manifest, doc);
  }

  /** And, if nothing stops it, as far as running its child. */
  lemma OneMoreTry(item: string, s: State, n: nat) returns (s': State, doc: StartedDoc)
    requires Reaches([item], 0, s) && Tried(s, item, n) && n <= LAST_PADDED
    ensures Reaches([item], 0, s') && s'.runner == Running(s.disk.manifest, doc)
    ensures s'.disk.manifest == s.disk.manifest && s'.disk.work.Keys <= {item} && s'.disk.staging == multiset{}
    ensures doc.workItem == item && |Attempts(s'.disk, item)| == n + 1
  {
    hide Reaches, AttemptId, LayoutOk, DiskOk, DiskTimes, DirectoryOk;
    ReachedIsOrdered([item], 0, s);
    DirectoryOf(s.disk, item);
    var s2;
    s2, doc := OneMoreStaged(item, s, n);
    ReachStep([item], 0, s2, WriteStart);
    var s3 := Apply(s2, WriteStart);
    assert s3.runner == Staged(s.disk.manifest, doc);
    OneMoreAttempt(item, Attempts(s.disk, item), doc);
    ReachStep([item], 0, s3, Rename);
    s' := Apply(s3, Rename);
  }

  lemma {:induction false} ManyTries(item: string, n: nat) returns (s: State)
    requires n <= LAST_PADDED
    ensures Reaches([item], 0, s) && Tried(s, item, n)
  {
    if n == 0 {
      s := Init([item], 0);
      assert FairRun(s, []) && Run(s, []) == s;
    } else {
      hide Reaches, AttemptId;
      var before := ManyTries(item, n - 1);
      var running, doc := OneMoreTry(item, before, n - 1);
      ReachStep([item], 0, running, Crash);
      s := Apply(running, Crash);
    }
  }

  /** The concrete failing family: after 999999 interrupted tries, the millionth
      one completes the campaign, and inspection refuses it. */
  lemma MillionthAttemptIsRefused(item: string)
    ensures exists es :: FairRun(Init([item], 0), es)
              && Run(Init([item], 0), es).disk.manifest.completed
              && !HistoryOk(Run(Init([item], 0), es).disk)
  {
    hide AttemptId, LayoutOk, DiskOk, DiskTimes, HistoryOk;
    var s := ManyTries(item, LAST_PADDED);
    var s1, doc := OneMoreTry(item, s, LAST_PADDED);
    var s4 := CommitRunning(item, s1, s.disk.manifest, doc);
    var es :| FairRun(Init([item], 0), es) && Run(Init([item], 0), es) == s4;
    hide Run, FairRun;
    RunnerHistoriesAreAccepted([item], 0, es);
    assert item in s4.disk.work && |s4.disk.work[item]| > LAST_PADDED;
  }

  lemma CommitRunning(item: string, s: State, m: Manifest, doc: StartedDoc) returns (s': State)
    requires Reaches([item], 0, s) && s.runner == Running(m, doc) && doc.workItem == item
    requires m == s.disk.manifest && m.plan == [item] && m.completions == [] && !m.completed
    ensures Reaches([item], 0, s') && s'.disk.manifest.completed
    ensures item in s'.disk.work && |s'.disk.work[item]| == |Attempts(s.disk, item)|
  {
    hide Reaches, AttemptId, Inv, Times, Attempts, StepObserved, Fail, LayoutOk, ResumeOk, FreshRuns, Init;
    var reason, now := "route_not_available", s.clock + 1;
    ReachedIsOrdered([item], 0, s);
    UpdatedBy(s);
    ReachStep([item], 0, s, ChildUnavailable(now, reason));
    var s1 := Apply(s, ChildUnavailable(now, reason));
    ReachedIsOrdered([item], 0, s1);
    hide Apply;
    var s2 := Publishes(s1);
    ReachStep([item], 0, s1, PublishResult);
    s' := Persists(s2);
    ReachStep([item], 0, s2, Persist);
    ItemExists(s', item);
  }

  lemma UpdatedBy(s: State)
    requires Inv(s) && Times(s)
    ensures s.disk.manifest.updatedAt <= s.clock
  { }

  /** A completed item has its attempts on disk. */
  lemma ItemExists(s: State, item: string)
    requires Inv(s) && s.disk.manifest.plan == [item] && |s.disk.manifest.completions| == 1
    ensures item in s.disk.work && s.disk.work[item] == Attempts(s.disk, item)
  {
    hide AttemptId, DirectoryOk;
    assert CommitOk(s.disk, 0);
  }

  /** A stopped campaign whose layout is refused is never resumed. */
  lemma {:induction false} StuckForGood(s: State, es: seq<Event>)
    requires s.runner.Idle? && !LayoutOk(s.disk)
    ensures Run(s, es) == s
    decreases |es|
  {
    hide LayoutOk, ResumeOk;
    if es != [] {
      assert Apply(s, es[0]) == s;
      StuckForGood(s, es[1..]);
    }
  }

  /** The other failing family: after 999999 interrupted tries, a crash between
      staging the millionth attempt and renaming it leaves no item with more than
      999999 attempts; yet inspection refuses the history, and no further run of
      the campaign changes anything any more. */
  lemma StagedMillionthIsStuck(item: string)
    ensures exists es :: FairRun(Init([item], 0), es)
              && var s := Run(Init([item], 0), es);
                 && Countable(s.disk) && !s.disk.manifest.completed
                 && !HistoryOk(s.disk)
                 && forall fs :: Run(s, fs) == s
  {
    hide AttemptId, LayoutOk, DiskOk, DiskTimes;
    var s0 := ManyTries(item, LAST_PADDED);
    var s1, doc := OneMoreStaged(item, s0, LAST_PADDED);
    ReachStep([item], 0, s1, Crash);
    var s := Apply(s1, Crash);
    assert s == s1.(runner := Idle);
    var es :| FairRun(Init([item], 0), es) && Run(Init([item], 0), es) == s;
    ReachedIsOrdered([item], 0, s);
    LayoutPasses(s.disk, s.clock);
    assert StagingDir(item, doc.attempt, None) in s.disk.staging;
    assert !WithinLimit(s.disk);
    forall fs ensures Run(s, fs) == s { StuckForGood(s, fs); }
  }
}
