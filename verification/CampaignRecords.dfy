/** What the campaign leaves on disk for good: a failed try is recorded with its
    error, and nothing recorded is ever lost or rewritten. */
module CampaignRecords {
  import opened Common
  import opened AttemptIds
  import opened Campaign

  /** The disk with one attempt's content replaced, all else the same. */
  ghost predicate OnlyAttemptChanges(d: Disk, d': Disk, item: string, name: string, a: Attempt) {
    && item in d.work && name in d.work[item]
    && d'.work == d.work[item := d.work[item][name := a]]
    && d'.manifest == d.manifest && d'.staging == d.staging
  }

  /** A child that fails leaves its attempt with the error and no result, and the
      runner stops. */
  lemma FailureIsRecorded(s: State, error: string)
    requires Inv(s) && s.runner.Running?
    ensures var t, doc := Apply(s, ChildFails(error)), s.runner.doc;
            && OnlyAttemptChanges(s.disk, t.disk, doc.workItem, doc.attempt, Attempt(doc, None, Some(error)))
            && t.disk.children == s.disk.children && t.runner == Idle && t.clock == s.clock
  {
    hide AttemptId, DiskOk;
  }

  /** So does a report about another item or under a child run that a completion
      already has; the child run stays on disk. */
  lemma MismatchIsRecorded(s: State, now: int, run: string, child: ChildRun)
    requires Inv(s) && s.runner.Running?
    requires var found := if run in s.disk.children then s.disk.children[run] else child;
             || found.workItem != s.runner.doc.workItem
             || (exists i :: 0 <= i < |s.disk.manifest.completions|
                             && s.disk.manifest.completions[i].outcome.Observed?
                             && s.disk.manifest.completions[i].outcome.run == run)
    ensures var t, doc := Apply(s, ChildObserved(now, run, child)), s.runner.doc;
            && OnlyAttemptChanges(s.disk, t.disk, doc.workItem, doc.attempt, Attempt(doc, None, Some("MatrixError")))
            && t.disk.children == (if run in s.disk.children then s.disk.children else s.disk.children[run := child])
            && t.runner == Idle && t.clock == now
  {
    hide AttemptId, DiskOk;
    var m, doc := s.runner.m, s.runner.doc;
    var found := if run in s.disk.children then s.disk.children[run] else child;
    var c := Completion(doc.workItem, doc.attempt, doc, Observed(run, found), now);
    if i :| 0 <= i < |m.completions| && m.completions[i].outcome.Observed? && m.completions[i].outcome.run == run {
      var cs := m.completions + [c];
      assert cs[i] == m.completions[i] && cs[|m.completions|] == c;
      assert !FreshRuns(cs);
    }
  }

  /** The attempt is still there with its start, and with its result or failure if it
      had one. */
  ghost predicate Recorded(d: Disk, item: string, name: string, a: Attempt) {
    && item in d.work && name in d.work[item]
    && d.work[item][name].started == a.started
    && (a.result.Some? || a.failure.Some? ==> d.work[item][name] == a)
  }

  /** Nothing recorded on `d` is missing from `d'` or different there. */
  ghost predicate Preserved(d: Disk, d': Disk) {
    && (forall item, name :: item in d.work && name in d.work[item] ==> Recorded(d', item, name, d.work[item][name]))
    && (forall run :: run in d.children ==> run in d'.children && d'.children[run] == d.children[run])
    && d.manifest.completions <= d'.manifest.completions
    && d'.manifest.plan == d.manifest.plan && d'.manifest.startedAt == d.manifest.startedAt
  }

  lemma PreservedSelf(d: Disk)
    ensures Preserved(d, d)
  { }

  lemma PreservedOn(a: Disk, b: Disk, c: Disk)
    requires Preserved(a, b) && Preserved(b, c)
    ensures Preserved(a, c)
  {
    forall item, name | item in a.work && name in a.work[item] ensures Recorded(c, item, name, a.work[item][name]) {
      assert Recorded(b, item, name, a.work[item][name]);
      assert Recorded(c, item, name, b.work[item][name]);
    }
  }

  /** Replacing an open attempt by one with the same start loses nothing. */
  lemma ReplacingPreserves(d: Disk, d': Disk, item: string, name: string, a: Attempt)
    requires d'.work == d.work[item := Attempts(d, item)[name := a]]
    requires name in Attempts(d, item) ==>
      && Attempts(d, item)[name].result.None? && Attempts(d, item)[name].failure.None?
      && Attempts(d, item)[name].started == a.started
    requires forall run :: run in d.children ==> run in d'.children && d'.children[run] == d.children[run]
    requires d'.manifest == d.manifest
    ensures Preserved(d, d')
  { }

  lemma SameAttemptsPreserve(d: Disk, d': Disk)
    requires forall x :: x in d.work ==> x in d'.work && d'.work[x] == d.work[x]
    requires d'.children == d.children && d'.manifest == d.manifest
    ensures Preserved(d, d')
  { }

  lemma StagePreserves(s: State, m: Manifest, now: int)
    ensures Preserved(s.disk, StepStage(s, m, now).disk)
  {
    hide AttemptId, LayoutOk, Preserved;
    SameAttemptsPreserve(s.disk, StepStage(s, m, now).disk);
  }

  lemma RenamePreserves(s: State, m: Manifest, doc: StartedDoc)
    ensures Preserved(s.disk, StepRename(s, m, doc).disk)
  {
    hide Preserved;
    var t := StepRename(s, m, doc);
    if t.runner.Idle? {
      SameAttemptsPreserve(s.disk, t.disk);
    } else {
      ReplacingPreserves(s.disk, t.disk, doc.workItem, doc.attempt, Attempt(doc, None, None));
    }
  }

  lemma StageAndRenamePreserve(s: State, e: Event)
    requires e.Stage? || e.WriteStart? || e.Rename?
    ensures Preserved(s.disk, Apply(s, e).disk)
  {
    hide Preserved, StepStage, StepRename;
    match (e, s.runner)
    case (Stage(now), Looping(m)) => StagePreserves(s, m, now);
    case (Rename, Staged(m, doc)) => RenamePreserves(s, m, doc);
    case (WriteStart, Staging(_, _)) => SameAttemptsPreserve(s.disk, Apply(s, e).disk);
    case _ => PreservedSelf(s.disk);
  }

  lemma ChildPreserves(s: State, e: Event)
    requires Inv(s) && (e.ChildUnavailable? || e.ChildObserved? || e.ChildFails?)
    ensures Preserved(s.disk, Apply(s, e).disk)
  {
    hide AttemptId, DiskOk, FreshRuns;
    match (e, s.runner)
    case (ChildObserved(now, run, child), Running(m, doc)) =>
      var t := Apply(s, e);
      if t.runner.Idle? {
        ReplacingPreserves(s.disk, t.disk, doc.workItem, doc.attempt, Attempt(doc, None, Some("MatrixError")));
      }
    case (ChildFails(error), Running(m, doc)) =>
      ReplacingPreserves(s.disk, Apply(s, e).disk, doc.workItem, doc.attempt, Attempt(doc, None, Some(error)));
    case _ =>
  }

  lemma CommitPreserves(s: State, e: Event)
    requires Inv(s) && (e.PublishResult? || e.Persist?)
    ensures Preserved(s.disk, Apply(s, e).disk)
  {
    hide AttemptId, DiskOk;
    match (e, s.runner)
    case (PublishResult, Finished(m, doc, c)) =>
      ReplacingPreserves(s.disk, Apply(s, e).disk, doc.workItem, doc.attempt, Attempt(doc, Some(c), None));
    case _ =>
  }

  lemma ApplyPreserves(s: State, e: Event)
    requires Inv(s)
    ensures Preserved(s.disk, Apply(s, e).disk)
  {
    match e
    case Stage(_) => StageAndRenamePreserve(s, e);
    case WriteStart => StageAndRenamePreserve(s, e);
    case Rename => StageAndRenamePreserve(s, e);
    case ChildUnavailable(_, _) => ChildPreserves(s, e);
    case ChildObserved(_, _, _) => ChildPreserves(s, e);
    case ChildFails(_) => ChildPreserves(s, e);
    case PublishResult => CommitPreserves(s, e);
    case Persist => CommitPreserves(s, e);
    case Open =>
      hide Inv, Preserved, LayoutOk, ResumeOk;
      PreservedSelf(s.disk);
    case Crash =>
      hide Inv, Preserved;
      PreservedSelf(s.disk);
  }

  lemma {:induction false} RunPreserves(s: State, es: seq<Event>)
    requires Inv(s)
    ensures Preserved(s.disk, Run(s, es).disk)
    decreases |es|
  {
    hide Inv, Preserved, Apply;
    if es == [] {
      PreservedSelf(s.disk);
    } else {
      ApplyPreserves(s, es[0]);
      ApplyKeeps(s, es[0]);
      RunPreserves(Apply(s, es[0]), es[1..]);
      PreservedOn(s.disk, Apply(s, es[0]).disk, Run(s, es).disk);
    }
  }

  /** Over every run, whatever was on disk at some point stays: starts, results,
      failures, child runs and completions are never lost or rewritten. */
  lemma RecordsAreForGood(plan: seq<string>, t0: int, before: seq<Event>, after: seq<Event>)
    requires Distinct(plan) && plan != []
    ensures var s := Run(Init(plan, t0), before); Preserved(s.disk, Run(s, after).disk)
  {
    hide Preserved, Run, Apply;
    RunKeeps(Init(plan, t0), before);
    RunPreserves(Run(Init(plan, t0), before), after);
  }

  // --------------------------------------------------------------- committed child runs

  /** No two completions name one child run, and the one in hand names a new one. */
  ghost predicate RunsAreFresh(s: State) {
    && FreshRuns(s.disk.manifest.completions)
    && (s.runner.Finished? || s.runner.Published? ==> FreshRuns(s.disk.manifest.completions + [s.runner.c]))
  }

  lemma UnavailableIsFresh(cs: seq<Completion>, c: Completion)
    requires FreshRuns(cs) && c.outcome.Unavailable?
    ensures FreshRuns(cs + [c])
  { }

  lemma ApplyKeepsRuns(s: State, e: Event)
    requires Inv(s) && RunsAreFresh(s)
    ensures RunsAreFresh(Apply(s, e))
  {
    hide AttemptId, DiskOk, LayoutOk, ResumeOk, FreshRuns, InHand;
    match (e, s.runner)
    case (ChildUnavailable(_, _), Running(m, doc)) =>
      UnavailableIsFresh(m.completions, Apply(s, e).runner.c);
    case _ =>
  }

  lemma {:induction false} RunKeepsRuns(s: State, es: seq<Event>)
    requires Inv(s) && RunsAreFresh(s)
    ensures RunsAreFresh(Run(s, es))
    decreases |es|
  {
    hide Inv, RunsAreFresh, Apply;
    if es != [] {
      ApplyKeepsRuns(s, es[0]);
      ApplyKeeps(s, es[0]);
      RunKeepsRuns(Apply(s, es[0]), es[1..]);
    }
  }

  /** Over every run, whatever child runs are reported, no two committed results are
      of the same one. */
  lemma CommittedRunsDiffer(plan: seq<string>, t0: int, es: seq<Event>, i: nat, j: nat)
    requires Distinct(plan) && plan != []
    requires var cs := Run(Init(plan, t0), es).disk.manifest.completions;
             i < j < |cs| && cs[i].outcome.Observed? && cs[j].outcome.Observed?
    ensures var cs := Run(Init(plan, t0), es).disk.manifest.completions;
            cs[i].outcome.run != cs[j].outcome.run
  {
    hide Run, Apply;
    RunKeepsRuns(Init(plan, t0), es);
  }
}
