/** `execute_matrix` in its own form: a loop over the remaining work that updates
    the matrix directory in place, and that the environment may cut short between
    any two steps.  What the environment does fixes the steps: every execution is
    the run of its script. */
module CampaignRunner {
  import opened Common
  import opened AttemptIds
  import opened Campaign

  datatype ChildFate =
    | ReportsUnavailable(now: int, reason: string)
    | Reports(now: int, run: string, child: ChildRun)
    | Errs(error: string)

  /** The step after which the process dies, if it does. */
  datatype CrashPoint = NoCrash | AfterMkdir | AfterWrite | AfterRename | AfterChild | AfterPublish

  datatype Fate = Fate(startedAt: int, child: ChildFate, crash: CrashPoint)

  lemma {:induction false} RunSnoc(s: State, es: seq<Event>, e: Event)
    ensures Run(s, es + [e]) == Apply(Run(s, es), e)
    decreases |es|
  {
    hide Apply;
    if es == [] {
      assert es + [e] == [e];
      assert Run(Apply(s, e), []) == Apply(s, e);
    } else {
      assert (es + [e])[1..] == es[1..] + [e];
      RunSnoc(Apply(s, es[0]), es[1..], e);
    }
  }

  /** Committed completions are never lost or rewritten. */
  lemma ApplyGrows(s: State, e: Event)
    ensures s.disk.manifest.completions <= Apply(s, e).disk.manifest.completions
  {
    hide AttemptId, LayoutOk, ResumeOk, FreshRuns;
  }

  lemma {:induction false} RunGrows(s: State, es: seq<Event>)
    ensures s.disk.manifest.completions <= Run(s, es).disk.manifest.completions
    decreases |es|
  {
    hide Apply;
    if es != [] {
      ApplyGrows(s, es[0]);
      RunGrows(Apply(s, es[0]), es[1..]);
    }
  }

  // ------------------------------------------------------------------- scripts

  function StartEvents(f: Fate): seq<Event> {
    match f.crash
    case AfterMkdir => [Stage(f.startedAt), Crash]
    case AfterWrite => [Stage(f.startedAt), WriteStart, Crash]
    case AfterRename => [Stage(f.startedAt), WriteStart, Rename, Crash]
    case _ => [Stage(f.startedAt), WriteStart, Rename]
  }

  function ChildEvent(c: ChildFate): Event {
    match c
    case ReportsUnavailable(now, reason) => ChildUnavailable(now, reason)
    case Reports(now, run, child) => ChildObserved(now, run, child)
    case Errs(error) => ChildFails(error)
  }

  function CommitEvents(crash: CrashPoint): seq<Event> {
    match crash
    case AfterChild => [Crash]
    case AfterPublish => [PublishResult, Crash]
    case _ => [PublishResult, Persist]
  }

  function EventsOf(f: Fate): seq<Event> { StartEvents(f) + ([ChildEvent(f.child)] + CommitEvents(f.crash)) }

  /** The steps of one execution; a process that meets no further fate dies. */
  function Script(fates: seq<Fate>): seq<Event> {
    if fates == [] then [Crash] else EventsOf(fates[0]) + Script(fates[1..])
  }

  lemma {:induction false} RunAppend(s: State, a: seq<Event>, b: seq<Event>)
    ensures Run(s, a + b) == Run(Run(s, a), b)
    decreases |a|
  {
    hide Apply;
    if a == [] {
      assert a + b == b;
    } else {
      assert (a + b)[1..] == a[1..] + b;
      RunAppend(Apply(s, a[0]), a[1..], b);
    }
  }

  lemma RunCons(s: State, e: Event, rest: seq<Event>)
    ensures Run(s, [e] + rest) == Run(Apply(s, e), rest)
  {
    assert ([e] + rest)[1..] == rest;
  }

  /** A runner that has stopped does nothing until it is opened again. */
  lemma {:induction false} StoppedStays(s: State, es: seq<Event>)
    requires s.runner.Idle? && forall k :: 0 <= k < |es| ==> !es[k].Open?
    ensures Run(s, es) == s
    decreases |es|
  {
    if es != [] {
      assert Apply(s, es[0]) == s;
      StoppedStays(s, es[1..]);
    }
  }

  lemma {:induction false} ScriptNeverOpens(fates: seq<Fate>)
    ensures forall k :: 0 <= k < |Script(fates)| ==> !Script(fates)[k].Open?
  {
    if fates != [] { ScriptNeverOpens(fates[1..]); }
  }

  class MatrixDirectory {
    var disk: Disk
    ghost var clock: int

    constructor (plan: seq<string>, startedAt: int)
      ensures State(disk, Idle, clock) == Init(plan, startedAt)
    {
      disk := Disk(Manifest(plan, [], startedAt, startedAt, false), map[], multiset{}, map[]);
      clock := startedAt;
    }

    ghost function At(r: Runner): State
      reads this
    {
      State(disk, r, clock)
    }

    method PublishFailure(doc: StartedDoc, error: string)
      modifies this
      ensures At(Idle) == Fail(old(At(Idle)), doc, error)
    {
      var dirs := Attempts(disk, doc.workItem);
      if doc.attempt in dirs && dirs[doc.attempt].result.None? {
        disk := PutAttempt(disk, doc.workItem, doc.attempt, dirs[doc.attempt].(failure := Some(error)));
      }
    }

    /** Staging, then the rename that makes the attempt exist. */
    method NextAttempt(m: Manifest, f: Fate) returns (started: bool, doc: StartedDoc)
      modifies this
      ensures At(if started then Running(m, doc) else Idle) == Run(old(At(Looping(m))), StartEvents(f))
    {
      hide LayoutOk, AttemptId, Run;
      ghost var s0 := At(Looping(m));
      var now := f.startedAt;
      clock := now;
      doc := StartedDoc("", "", now);
      started := false;
      RunCons(s0, Stage(now), StartEvents(f)[1..]);
      assert StartEvents(f) == [Stage(now)] + StartEvents(f)[1..];
      if !LayoutOk(disk) || |m.completions| >= |m.plan| {
        StoppedStays(At(Idle), StartEvents(f)[1..]);
        return;
      }
      var item := m.plan[|m.completions|];
      var dirs := Attempts(disk, item);
      doc := StartedDoc(AttemptId(|dirs| + 1), item, now);
      disk := disk.(work := disk.work[item := dirs]);
      disk := disk.(staging := disk.staging + multiset{StagingDir(item, doc.attempt, None)});
      assert Apply(s0, Stage(now)) == At(Staging(m, doc));
      started := FinishStart(m, doc, f);
    }

    /** The rest of the start, once the staging directory exists. */
    method FinishStart(m: Manifest, doc: StartedDoc, f: Fate) returns (started: bool)
      modifies this
      ensures At(if started then Running(m, doc) else Idle) == Run(old(At(Staging(m, doc))), StartEvents(f)[1..])
    {
      hide LayoutOk, AttemptId, Run;
      ghost var s0 := At(Staging(m, doc));
      started := false;
      if f.crash.AfterMkdir? {
        assert StartEvents(f)[1..] == [Crash] + [];
        RunCons(s0, Crash, []);
        StoppedStays(At(Idle), []);
        return;
      }
      RunCons(s0, WriteStart, StartEvents(f)[2..]);
      assert StartEvents(f)[1..] == [WriteStart] + StartEvents(f)[2..];
      disk := disk.(staging := disk.staging - multiset{StagingDir(doc.workItem, doc.attempt, None)}
                               + multiset{StagingDir(doc.workItem, doc.attempt, Some(doc))});
      ghost var s1 := At(Staged(m, doc));
      if f.crash.AfterWrite? {
        assert StartEvents(f)[2..] == [Crash] + [];
        RunCons(s1, Crash, []);
        StoppedStays(At(Idle), []);
        return;
      }
      RunCons(s1, Rename, StartEvents(f)[3..]);
      assert StartEvents(f)[2..] == [Rename] + StartEvents(f)[3..];
      if doc.attempt in Attempts(disk, doc.workItem) {
        StoppedStays(At(Idle), StartEvents(f)[3..]);
        return;
      }
      disk := PutAttempt(disk, doc.workItem, doc.attempt, Attempt(doc, None, None));
      disk := disk.(staging := disk.staging - multiset{StagingDir(doc.workItem, doc.attempt, Some(doc))});
      ghost var s2 := At(Running(m, doc));
      if f.crash.AfterRename? {
        assert StartEvents(f)[3..] == [Crash] + [];
        RunCons(s2, Crash, []);
        StoppedStays(At(Idle), []);
        return;
      }
      assert StartEvents(f)[3..] == [];
      RunNothing(s2);
      started := true;
    }

    /** The child runs; its completion is built, or a failure is published. */
    method ExecuteChild(m: Manifest, doc: StartedDoc, fate: ChildFate) returns (c: Option<Completion>)
      modifies this
      ensures At(if c.Some? then Finished(m, doc, c.value) else Idle)
              == Apply(old(At(Running(m, doc))), ChildEvent(fate))
    {
      match fate
      case ReportsUnavailable(now, reason) =>
        clock := now;
        c := Some(Completion(doc.workItem, doc.attempt, doc, Unavailable(reason), now));
      case Reports(now, run, child) =>
        clock := now;
        if run !in disk.children {
          disk := disk.(children := disk.children[run := child]);
        }
        var done := Completion(doc.workItem, doc.attempt, doc, Observed(run, disk.children[run]), now);
        if disk.children[run].workItem == doc.workItem && FreshRuns(m.completions + [done]) {
          c := Some(done);
        } else {
          PublishFailure(doc, "MatrixError");
          c := None;
        }
      case Errs(error) =>
        PublishFailure(doc, error);
        c := None;
    }

    /** Publish the result, then persist the manifest that counts it. */
    method Commit(m: Manifest, doc: StartedDoc, c: Completion, crash: CrashPoint) returns (m': Manifest, alive: bool)
      modifies this
      ensures At(if alive && !m'.completed then Looping(m') else Idle)
              == Run(old(At(Finished(m, doc, c))), CommitEvents(crash))
      ensures alive ==> m' == disk.manifest && Checkpoint(m, c) == Some(m')
    {
      hide Run;
      ghost var s0, es := At(Finished(m, doc, c)), CommitEvents(crash);
      m', alive := m, false;
      if crash.AfterChild? {
        assert es == [Crash] + [];
        RunCons(s0, Crash, []);
        StoppedStays(At(Idle), []);
        return;
      }
      assert es == [PublishResult] + es[1..];
      RunCons(s0, PublishResult, es[1..]);
      var dirs := Attempts(disk, doc.workItem);
      if doc.attempt !in dirs || dirs[doc.attempt].result.Some? {
        StoppedStays(At(Idle), es[1..]);
        return;
      }
      disk := PutAttempt(disk, doc.workItem, doc.attempt, dirs[doc.attempt].(result := Some(c)));
      ghost var s1 := At(Published(m, doc, c));
      if crash.AfterPublish? {
        assert es[1..] == [Crash] + [];
        RunCons(s1, Crash, []);
        StoppedStays(At(Idle), []);
        return;
      }
      assert es[1..] == [Persist] + [];
      RunCons(s1, Persist, []);
      RunNothing(Apply(s1, Persist));
      var next := Checkpoint(m, c);
      if next.None? || !CanPersist(disk.manifest, next.value) { return; }
      m' := next.value;
      disk := disk.(manifest := m');
      alive := true;
    }

    /** One turn of the loop: start, child, commit. */
    method ExecuteOne(m: Manifest, f: Fate) returns (m': Manifest, alive: bool)
      modifies this
      ensures At(if alive && !m'.completed then Looping(m') else Idle) == Run(old(At(Looping(m))), EventsOf(f))
      ensures alive ==> exists c :: Checkpoint(m, c) == Some(m')
    {
      hide Run, Apply, StartEvents, CommitEvents, Checkpoint, Attempts;
      m', alive := m, false;
      ghost var s0, more := At(Looping(m)), [ChildEvent(f.child)] + CommitEvents(f.crash);
      RunAppend(s0, StartEvents(f), more);
      ScriptPartsNeverOpen(f);
      var started, doc := NextAttempt(m, f);
      if !started {
        StoppedStays(At(Idle), more);
        return;
      }
      RunCons(At(Running(m, doc)), ChildEvent(f.child), CommitEvents(f.crash));
      var c := ExecuteChild(m, doc, f.child);
      if c.None? {
        StoppedStays(At(Idle), CommitEvents(f.crash));
        return;
      }
      m', alive := Commit(m, doc, c.value, f.crash);
    }

    /** `execute_matrix` on an existing matrix: it runs exactly the script that the
        environment's behaviour spells; so the disk stays in order and no committed
        completion is lost. */
    method ExecuteMatrix(fates: seq<Fate>)
      requires DiskOk(disk)
      modifies this
      ensures At(Idle) == Run(old(At(Idle)), [Open] + Script(fates))
      ensures DiskOk(disk)
      ensures old(disk.manifest.completions) <= disk.manifest.completions
    {
      ghost var s0 := At(Idle);
      ExecuteAll(fates);
      RunKeeps(s0, [Open] + Script(fates));
      RunGrows(s0, [Open] + Script(fates));
    }

    method ExecuteAll(fates: seq<Fate>)
      requires PrefixOk(disk.manifest)
      modifies this
      ensures At(Idle) == Run(old(At(Idle)), [Open] + Script(fates))
    {
      hide LayoutOk, ResumeOk, Run, Script, EventsOf;
      ghost var s0 := At(Idle);
      RunCons(s0, Open, Script(fates));
      ScriptNeverOpens(fates);
      if !LayoutOk(disk) || !ResumeOk(disk) || disk.manifest.completed {
        StoppedStays(At(Idle), Script(fates));
        return;
      }
      var m := disk.manifest;
      var k := 0;
      assert fates[0..] == fates;
      while !m.completed
        invariant k <= |fates|
        invariant m.completed <==> |m.completions| == |m.plan|
        invariant |m.completions| <= |m.plan|
        invariant Run(s0, [Open] + Script(fates))
                  == Run(At(if m.completed then Idle else Looping(m)), Script(fates[k..]))
        decreases |m.plan| - |m.completions|
      {
        if k >= |fates| {
          LastScript(At(Looping(m)), fates[k..]);
          return;
        }
        ghost var here := At(Looping(m));
        ScriptStep(here, fates, k);
        var alive;
        m, alive := ExecuteOne(m, fates[k]);
        k := k + 1;
        if !alive {
          ScriptNeverOpens(fates[k..]);
          StoppedStays(At(Idle), Script(fates[k..]));
          return;
        }
      }
      ScriptNeverOpens(fates[k..]);
      StoppedStays(At(Idle), Script(fates[k..]));
    }
  }

  lemma RunNothing(s: State)
    ensures Run(s, []) == s
  { }

  lemma ScriptPartsNeverOpen(f: Fate)
    ensures var more := [ChildEvent(f.child)] + CommitEvents(f.crash);
            && (forall k :: 0 <= k < |more| ==> !more[k].Open?)
            && (forall k :: 0 <= k < |CommitEvents(f.crash)| ==> !CommitEvents(f.crash)[k].Open?)
  { }

  lemma ScriptStep(s: State, fates: seq<Fate>, k: nat)
    requires k < |fates|
    ensures Run(s, Script(fates[k..])) == Run(Run(s, EventsOf(fates[k])), Script(fates[k + 1..]))
  {
    hide Run, EventsOf;
    var rest := fates[k..];
    assert rest[0] == fates[k] && rest[1..] == fates[k + 1..];
    RunAppend(s, EventsOf(fates[k]), Script(fates[k + 1..]));
  }

  lemma LastScript(s: State, fates: seq<Fate>)
    requires fates == []
    ensures Run(s, Script(fates)) == Stop(s)
  {
    assert Script(fates) == [Crash] + [];
    RunCons(s, Crash, []);
    RunNothing(Stop(s));
  }
}
