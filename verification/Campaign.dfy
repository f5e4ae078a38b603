/** The crash-resumable matrix campaign, one atomic disk step at a time. */
module Campaign {
  import opened Common
  import opened AttemptIds
  import TextOrder

  // --------------------------------------------------------------------- disk

  /** Digests are injective, so a digest of `started.json` is its content, and a
      digest of a child run directory is that run. */
  datatype StartedDoc = StartedDoc(attempt: string, workItem: string, startedAt: int)

  datatype ChildRun = ChildRun(workItem: string, startedAt: int, finishedAt: int)

  datatype Outcome = Observed(run: string, child: ChildRun) | Unavailable(reason: string)

  datatype Completion = Completion(
    workItem: string, attempt: string, started: StartedDoc, outcome: Outcome, completedAt: int)

  datatype Attempt = Attempt(started: StartedDoc, result: Option<Completion>, failure: Option<string>)

  datatype Manifest = Manifest(
    plan: seq<string>, completions: seq<Completion>, startedAt: int, updatedAt: int, completed: bool)

  /** `.attempt-init-<attempt>-<random>`; the random suffix keeps equal ones apart,
      so the disk holds a multiset of them. */
  datatype StagingDir = StagingDir(workItem: string, attempt: string, content: Option<StartedDoc>)

  datatype Disk = Disk(
    manifest: Manifest,
    work: map<string, map<string, Attempt>>,
    staging: multiset<StagingDir>,
    children: map<string, ChildRun>)

  function Attempts(d: Disk, item: string): map<string, Attempt> {
    if item in d.work then d.work[item] else map[]
  }

  // ------------------------------------------------------- the runner's checks

  function ExpectedNames(n: nat): (s: seq<string>)
    ensures |s| == n
  {
    seq(n, i requires 0 <= i < n => AttemptId(i + 1))
  }

  /** `validate_attempt_artifacts`. */
  predicate ValidAttempt(item: string, name: string, a: Attempt) {
    && IsSixDigitName(name)
    && !(a.result.Some? && a.failure.Some?)
    && a.started.attempt == name && a.started.workItem == item
    && (a.result.Some? ==>
          && a.result.value.workItem == item && a.result.value.attempt == name
          && a.result.value.started == a.started
          && a.started.startedAt <= a.result.value.completedAt)
  }

  /** `_attempt_directories`: every attempt is valid and the sorted names are
      exactly attempt 1 to attempt n. */
  predicate ValidDirectory(item: string, dirs: map<string, Attempt>) {
    && (forall name :: name in dirs ==> ValidAttempt(item, name, dirs[name]))
    && TextOrder.Sorted(dirs.Keys) == ExpectedNames(|dirs|)
  }

  /** `_validate_attempt_staging_directory`: a name with any other number is taken
      for an attempt directory, and refused. */
  predicate ValidStaging(s: StagingDir) {
    && IsSixDigitName(s.attempt)
    && (s.content.Some? ==> s.content.value.attempt == s.attempt && s.content.value.workItem == s.workItem)
  }

  /** `_verify_matrix_layout`. */
  predicate LayoutOk(d: Disk) {
    && (forall item :: item in d.work ==> item in d.manifest.plan && ValidDirectory(item, d.work[item]))
    && (forall s :: s in d.staging ==> ValidStaging(s))
  }

  /** `validate_child_result`, as far as identity and content go. */
  predicate ValidChild(d: Disk, item: string, o: Outcome) {
    o.Observed? ==> o.run in d.children && d.children[o.run] == o.child && o.child.workItem == item
  }

  /** The per-completion checks shared by resume and inspection. */
  predicate CommittedOk(d: Disk, i: nat)
    requires i < |d.manifest.completions| && i < |d.manifest.plan|
  {
    var item, c := d.manifest.plan[i], d.manifest.completions[i];
    && c.attempt in Attempts(d, item)
    && c.workItem == item
    && Attempts(d, item)[c.attempt].started == c.started
    && c.started.attempt == c.attempt && c.started.workItem == item
    && c.started.startedAt <= c.completedAt
    && Attempts(d, item)[c.attempt].result == Some(c)
    && ValidChild(d, item, c.outcome)
  }

  predicate FreshRuns(cs: seq<Completion>) {
    forall i, j :: 0 <= i < j < |cs| && cs[i].outcome.Observed? && cs[j].outcome.Observed? ==>
      cs[i].outcome.run != cs[j].outcome.run
  }

  /** `_verify_resume`. */
  predicate ResumeOk(d: Disk) {
    && |d.manifest.completions| <= |d.manifest.plan|
    && FreshRuns(d.manifest.completions)
    && forall i :: 0 <= i < |d.manifest.completions| ==> CommittedOk(d, i)
  }

  // -------------------------------------------------------------------- steps

  /** Where the running process stands; `Idle` also covers no process at all. */
  datatype Runner =
    | Idle
    | Looping(m: Manifest)
    | Staging(m: Manifest, doc: StartedDoc)
    | Staged(m: Manifest, doc: StartedDoc)
    | Running(m: Manifest, doc: StartedDoc)
    | Finished(m: Manifest, doc: StartedDoc, c: Completion)
    | Published(m: Manifest, doc: StartedDoc, c: Completion)

  datatype State = State(disk: Disk, runner: Runner, clock: int)

  datatype Event =
    | Open
    | Stage(now: int)
    | WriteStart
    | Rename
    | ChildUnavailable(now: int, reason: string)
    | ChildObserved(now: int, run: string, child: ChildRun)
    | ChildFails(error: string)
    | PublishResult
    | Persist
    | Crash

  function Init(plan: seq<string>, t0: int): State {
    State(Disk(Manifest(plan, [], t0, t0, false), map[], multiset{}, map[]), Idle, t0)
  }

  /** `MatrixManifest.checkpoint`: `None` when it raises. */
  function Checkpoint(m: Manifest, c: Completion): Option<Manifest> {
    if m.completed || |m.completions| >= |m.plan| || c.workItem != m.plan[|m.completions|]
       || c.completedAt < m.updatedAt then None
    else
      var cs := m.completions + [c];
      Some(Manifest(m.plan, cs, m.startedAt, c.completedAt, |cs| == |m.plan|))
  }

  /** `MatrixManifest.persist` over an existing manifest. */
  predicate CanPersist(existing: Manifest, m: Manifest) {
    && existing.plan == m.plan && existing.startedAt == m.startedAt
    && !existing.completed
    && m.completions != [] && m.completions[..|m.completions| - 1] == existing.completions
  }

  function PutAttempt(d: Disk, item: string, name: string, a: Attempt): Disk {
    d.(work := d.work[item := Attempts(d, item)[name := a]])
  }

  function Stop(s: State): State { s.(runner := Idle) }

  /** `failure.json` is published unless the attempt already has a result. */
  function Fail(s: State, doc: StartedDoc, error: string): State {
    var dirs := Attempts(s.disk, doc.workItem);
    if doc.attempt in dirs && dirs[doc.attempt].result.None? then
      Stop(s.(disk := PutAttempt(s.disk, doc.workItem, doc.attempt, dirs[doc.attempt].(failure := Some(error)))))
    else Stop(s)
  }

  function StepOpen(s: State): State {
    if LayoutOk(s.disk) && ResumeOk(s.disk) && !s.disk.manifest.completed
    then s.(runner := Looping(s.disk.manifest)) else Stop(s)
  }

  /** The next attempt is numbered after the directories that exist. */
  function StepStage(s: State, m: Manifest, now: int): State {
    var t := s.(clock := now);
    if !LayoutOk(s.disk) || |m.completions| >= |m.plan| then Stop(t)
    else
      var item := m.plan[|m.completions|];
      var dirs := Attempts(s.disk, item);
      var id := AttemptId(|dirs| + 1);
      t.(disk := s.disk.(work := s.disk.work[item := dirs],
                         staging := s.disk.staging + multiset{StagingDir(item, id, None)}),
         runner := Staging(m, StartedDoc(id, item, now)))
  }

  function StepRename(s: State, m: Manifest, doc: StartedDoc): State {
    if doc.attempt in Attempts(s.disk, doc.workItem) then Stop(s)
    else
      var d := PutAttempt(s.disk, doc.workItem, doc.attempt, Attempt(doc, None, None));
      s.(disk := d.(staging := d.staging - multiset{StagingDir(doc.workItem, doc.attempt, Some(doc))}),
         runner := Running(m, doc))
  }

  function StepObserved(s: State, m: Manifest, doc: StartedDoc, e: Event): State
    requires e.ChildObserved?
  {
    var kids := if e.run in s.disk.children then s.disk.children else s.disk.children[e.run := e.child];
    var t := s.(disk := s.disk.(children := kids), clock := e.now);
    var c := Completion(doc.workItem, doc.attempt, doc, Observed(e.run, kids[e.run]), e.now);
    if kids[e.run].workItem == doc.workItem && FreshRuns(m.completions + [c])
    then t.(runner := Finished(m, doc, c)) else Fail(t, doc, "MatrixError")
  }

  function StepPublish(s: State, m: Manifest, doc: StartedDoc, c: Completion): State {
    var dirs := Attempts(s.disk, doc.workItem);
    if doc.attempt !in dirs || dirs[doc.attempt].result.Some? then Stop(s)
    else
      s.(disk := PutAttempt(s.disk, doc.workItem, doc.attempt, dirs[doc.attempt].(result := Some(c))),
         runner := Published(m, doc, c))
  }

  function StepPersist(s: State, m: Manifest, c: Completion): State {
    match Checkpoint(m, c)
    case None => Stop(s)
    case Some(m') =>
      if !CanPersist(s.disk.manifest, m') then Stop(s)
      else s.(disk := s.disk.(manifest := m'), runner := if m'.completed then Idle else Looping(m'))
  }

  /** One atomic step; an event that does not apply changes nothing. */
  function Apply(s: State, e: Event): State {
    match (e, s.runner)
    case (Crash, _) => Stop(s)
    case (Open, Idle) => StepOpen(s)
    case (Stage(now), Looping(m)) => StepStage(s, m, now)
    case (WriteStart, Staging(m, doc)) =>
      s.(disk := s.disk.(staging := s.disk.staging - multiset{StagingDir(doc.workItem, doc.attempt, None)}
                                    + multiset{StagingDir(doc.workItem, doc.attempt, Some(doc))}),
         runner := Staged(m, doc))
    case (Rename, Staged(m, doc)) => StepRename(s, m, doc)
    case (ChildUnavailable(now, reason), Running(m, doc)) =>
      s.(runner := Finished(m, doc, Completion(doc.workItem, doc.attempt, doc, Unavailable(reason), now)), clock := now)
    case (ChildObserved(_, _, _), Running(m, doc)) => StepObserved(s, m, doc, e)
    case (ChildFails(error), Running(m, doc)) => Fail(s, doc, error)
    case (PublishResult, Finished(m, doc, c)) => StepPublish(s, m, doc, c)
    case (Persist, Published(m, _, c)) => StepPersist(s, m, c)
    case _ => s
  }

  function Run(s: State, es: seq<Event>): State
    decreases |es|
  {
    if es == [] then s else Run(Apply(s, es[0]), es[1..])
  }

  // ------------------------------------------------------------ the invariant

  ghost function Names(n: nat): set<string> {
    set i | 1 <= i <= n :: AttemptId(i)
  }

  ghost predicate Distinct(plan: seq<string>) {
    forall i, j :: 0 <= i < j < |plan| ==> plan[i] != plan[j]
  }

  /** Completions are a positional prefix of the plan. */
  ghost predicate PrefixOk(m: Manifest) {
    && |m.completions| <= |m.plan|
    && (forall i :: 0 <= i < |m.completions| ==> m.completions[i].workItem == m.plan[i])
    && (m.completed <==> |m.completions| == |m.plan|)
  }

  /** Attempts are numbered 1 to n, and none holds both a result and a failure. */
  ghost predicate DirectoryOk(item: string, dirs: map<string, Attempt>) {
    && dirs.Keys == Names(|dirs|)
    && forall name :: name in dirs ==>
         && dirs[name].started.attempt == name && dirs[name].started.workItem == item
         && !(dirs[name].result.Some? && dirs[name].failure.Some?)
         && (dirs[name].result.Some? ==>
               && dirs[name].result.value.workItem == item && dirs[name].result.value.attempt == name
               && dirs[name].result.value.started == dirs[name].started)
  }

  /** The committed attempt of a completed item is its highest-numbered one. */
  ghost predicate CommitOk(d: Disk, i: nat)
    requires i < |d.manifest.completions| <= |d.manifest.plan|
  {
    var item, c := d.manifest.plan[i], d.manifest.completions[i];
    && item in d.work
    && c.attempt == AttemptId(|d.work[item]|)
    && c.attempt in d.work[item]
    && d.work[item][c.attempt].result == Some(c)
  }

  ghost predicate NotPast(m: Manifest, item: string) {
    exists i :: 0 <= i <= |m.completions| && i < |m.plan| && m.plan[i] == item
  }

  /** A staging directory is numbered at most one above the `n` attempts of its item. */
  ghost predicate StagingOk(s: StagingDir, n: nat) {
    && (exists k: nat :: 1 <= k <= n + 1 && s.attempt == AttemptId(k))
    && (s.content.Some? ==> s.content.value.attempt == s.attempt && s.content.value.workItem == s.workItem)
  }

  ghost predicate AllStagingOk(d: Disk) {
    forall s :: s in d.staging ==> StagingOk(s, |Attempts(d, s.workItem)|)
  }

  ghost predicate DiskOk(d: Disk) {
    && Distinct(d.manifest.plan)
    && PrefixOk(d.manifest)
    && (forall item :: item in d.work ==> DirectoryOk(item, d.work[item]) && NotPast(d.manifest, item))
    && (forall i :: 0 <= i < |d.manifest.completions| ==> CommitOk(d, i))
    && AllStagingOk(d)
  }

  ghost predicate NextItem(m: Manifest, item: string) {
    |m.completions| < |m.plan| && m.plan[|m.completions|] == item
  }

  /** The attempt in hand is the newest one of the next item. */
  ghost predicate InHand(d: Disk, m: Manifest, doc: StartedDoc, result: Option<Completion>) {
    && NextItem(m, doc.workItem)
    && doc.workItem in d.work
    && doc.attempt == AttemptId(|d.work[doc.workItem]|)
    && doc.attempt in d.work[doc.workItem]
    && d.work[doc.workItem][doc.attempt] == Attempt(doc, result, None)
  }

  ghost predicate RunnerOk(d: Disk, r: Runner) {
    match r
    case Idle => true
    case Looping(m) => m == d.manifest && !m.completed
    case Staging(m, doc) => m == d.manifest && NextItem(m, doc.workItem) && doc.workItem in d.work
                            && doc.attempt == AttemptId(|d.work[doc.workItem]| + 1)
    case Staged(m, doc) => m == d.manifest && NextItem(m, doc.workItem) && doc.workItem in d.work
                           && doc.attempt == AttemptId(|d.work[doc.workItem]| + 1)
    case Running(m, doc) => m == d.manifest && InHand(d, m, doc, None)
    case Finished(m, doc, c) =>
      m == d.manifest && InHand(d, m, doc, None)
      && c.workItem == doc.workItem && c.attempt == doc.attempt && c.started == doc
    case Published(m, doc, c) =>
      m == d.manifest && InHand(d, m, doc, Some(c))
      && c.workItem == doc.workItem && c.attempt == doc.attempt && c.started == doc
  }

  ghost predicate Inv(s: State) {
    DiskOk(s.disk) && RunnerOk(s.disk, s.runner)
  }

  /** The next item is not a completed one, so its directory may change. */
  lemma NextIsNew(m: Manifest, item: string, i: nat)
    requires Distinct(m.plan) && PrefixOk(m) && NextItem(m, item) && i < |m.completions|
    ensures m.plan[i] != item
  {
  }

  /** Directories only grow, so staging directories stay in order. */
  lemma StagingStays(d: Disk, d': Disk, s: StagingDir)
    requires AllStagingOk(d) && s in d.staging
    requires |Attempts(d', s.workItem)| >= |Attempts(d, s.workItem)|
    ensures StagingOk(s, |Attempts(d', s.workItem)|)
  {
    hide AttemptId;
  }

  lemma AllStagingStays(d: Disk, d': Disk, added: multiset<StagingDir>)
    requires AllStagingOk(d) && d'.staging <= d.staging + added
    requires forall x :: |Attempts(d', x)| >= |Attempts(d, x)|
    requires forall s :: s in added ==> StagingOk(s, |Attempts(d', s.workItem)|)
    ensures AllStagingOk(d')
  {
    hide AttemptId, StagingOk, Attempts;
    forall s | s in d'.staging ensures StagingOk(s, |Attempts(d', s.workItem)|) {
      assert s in d.staging || s in added;
      if s in d.staging { StagingStays(d, d', s); }
    }
  }

  /** Only the directory of the next item changes: the disk stays in order. */
  lemma DirectoryChange(d: Disk, d': Disk, item: string, dirs: map<string, Attempt>)
    requires DiskOk(d) && NextItem(d.manifest, item)
    requires d'.manifest == d.manifest && d'.work == d.work[item := dirs]
    requires DirectoryOk(item, dirs)
    requires AllStagingOk(d')
    ensures DiskOk(d')
  {
    hide AttemptId, DirectoryOk, AllStagingOk;
    var m := d.manifest;
    forall i | 0 <= i < |m.completions| ensures CommitOk(d', i) {
      NextIsNew(m, item, i);
      assert CommitOk(d, i);
    }
    forall x | x in d'.work ensures DirectoryOk(x, d'.work[x]) && NotPast(m, x) {
      if x == item { assert m.plan[|m.completions|] == item; }
    }
  }

  lemma SameWork(d: Disk, d': Disk)
    requires DiskOk(d) && d'.manifest == d.manifest && d'.work == d.work
    requires AllStagingOk(d')
    ensures DiskOk(d')
  {
    hide AttemptId, DirectoryOk;
    forall i | 0 <= i < |d.manifest.completions| ensures CommitOk(d', i) { assert CommitOk(d, i); }
  }

  lemma SameSize<K, V>(a: map<K, V>, b: map<K, V>)
    requires a.Keys == b.Keys
    ensures |a| == |b|
  {
    assert |a.Keys| == |a| && |b.Keys| == |b|;
  }

  lemma RewriteDirectory(item: string, dirs: map<string, Attempt>, doc: StartedDoc, a: Attempt)
    requires DirectoryOk(item, dirs) && doc.attempt in dirs && doc.workItem == item
    requires dirs[doc.attempt].started == doc == a.started && !(a.result.Some? && a.failure.Some?)
    requires a.result.Some? ==> a.result.value.workItem == item && a.result.value.attempt == doc.attempt
                                && a.result.value.started == doc
    ensures DirectoryOk(item, dirs[doc.attempt := a]) && |dirs[doc.attempt := a]| == |dirs|
  {
    hide AttemptId, Names;
    var dirs' := dirs[doc.attempt := a];
    assert dirs'.Keys == dirs.Keys;
    SameSize(dirs', dirs);
  }

  lemma RewriteKeeps(d: Disk, m: Manifest, doc: StartedDoc, was: Option<Completion>, a: Attempt)
    requires DiskOk(d) && m == d.manifest && InHand(d, m, doc, was)
    requires a.started == doc && !(a.result.Some? && a.failure.Some?)
    requires a.result.Some? ==> a.result.value.workItem == doc.workItem && a.result.value.attempt == doc.attempt
                                && a.result.value.started == doc
    ensures DiskOk(PutAttempt(d, doc.workItem, doc.attempt, a))
    ensures |PutAttempt(d, doc.workItem, doc.attempt, a).work[doc.workItem]| == |d.work[doc.workItem]|
  {
    var item := doc.workItem;
    var d' := PutAttempt(d, item, doc.attempt, a);
    assert DirectoryOk(item, d.work[item]) && AllStagingOk(d);
    hide AttemptId, CommitOk, DirectoryOk, DiskOk, AllStagingOk;
    RewriteDirectory(item, d.work[item], doc, a);
    AllStagingStays(d, d', multiset{});
    DirectoryChange(d, d', item, d'.work[item]);
  }

  lemma FailKeeps(s: State, m: Manifest, doc: StartedDoc, error: string)
    requires DiskOk(s.disk) && m == s.disk.manifest && InHand(s.disk, m, doc, None)
    ensures Inv(Fail(s, doc, error))
  {
    hide AttemptId, DirectoryOk;
    RewriteKeeps(s.disk, m, doc, None, Attempt(doc, None, Some(error)));
  }

  lemma DirectoryOf(d: Disk, item: string)
    requires DiskOk(d)
    ensures DirectoryOk(item, Attempts(d, item))
  {
    hide AttemptId;
    if item !in d.work { assert Names(0) == {}; }
  }

  lemma InOrder(d: Disk)
    requires DiskOk(d)
    ensures AllStagingOk(d)
  {
  }

  lemma StageKeeps(s: State, m: Manifest, now: int)
    requires Inv(s) && s.runner == Looping(m)
    ensures Inv(StepStage(s, m, now))
  {
    hide AttemptId, LayoutOk, DiskOk, DirectoryOk;
    var s' := StepStage(s, m, now);
    if s'.runner.Staging? {
      var item := m.plan[|m.completions|];
      var dirs := Attempts(s.disk, item);
      var added := StagingDir(item, AttemptId(|dirs| + 1), None);
      DirectoryOf(s.disk, item);
      InOrder(s.disk);
      assert StagingOk(added, |dirs|);
      AllStagingStays(s.disk, s'.disk, multiset{added});
      DirectoryChange(s.disk, s'.disk, item, dirs);
    }
  }

  /** A new, empty attempt after the last one. */
  lemma OneMoreAttempt(item: string, dirs: map<string, Attempt>, doc: StartedDoc)
    requires DirectoryOk(item, dirs)
    requires doc.workItem == item && doc.attempt == AttemptId(|dirs| + 1)
    ensures doc.attempt !in dirs
    ensures |dirs[doc.attempt := Attempt(doc, None, None)]| == |dirs| + 1
    ensures DirectoryOk(item, dirs[doc.attempt := Attempt(doc, None, None)])
  {
    hide AttemptId;
    var n := |dirs|;
    forall i | 1 <= i <= n ensures AttemptId(i) != AttemptId(n + 1) { IdsInjective(i, n + 1); }
    var dirs' := dirs[doc.attempt := Attempt(doc, None, None)];
    assert dirs'.Keys == dirs.Keys + {doc.attempt};
    assert Names(n + 1) == Names(n) + {AttemptId(n + 1)};
  }

  lemma RenameKeeps(s: State, m: Manifest, doc: StartedDoc)
    requires Inv(s) && s.runner == Staged(m, doc)
    ensures Inv(StepRename(s, m, doc))
  {
    hide AttemptId, DiskOk, DirectoryOk, AllStagingOk;
    var d, item, d' := s.disk, doc.workItem, StepRename(s, m, doc).disk;
    DirectoryOf(d, item);
    InOrder(d);
    OneMoreAttempt(item, d.work[item], doc);
    AllStagingStays(d, d', multiset{});
    DirectoryChange(d, d', item, d.work[item][doc.attempt := Attempt(doc, None, None)]);
  }

  lemma ObservedKeeps(s: State, m: Manifest, doc: StartedDoc, e: Event)
    requires Inv(s) && s.runner == Running(m, doc) && e.ChildObserved?
    ensures Inv(StepObserved(s, m, doc, e))
  {
    hide AttemptId, DirectoryOk, CommitOk, FreshRuns;
    var kids := if e.run in s.disk.children then s.disk.children else s.disk.children[e.run := e.child];
    var t := s.(disk := s.disk.(children := kids), clock := e.now);
    AllStagingStays(s.disk, t.disk, multiset{});
    SameWork(s.disk, t.disk);
    FailKeeps(t, m, doc, "MatrixError");
  }

  lemma PublishKeeps(s: State, m: Manifest, doc: StartedDoc, c: Completion)
    requires Inv(s) && s.runner == Finished(m, doc, c)
    ensures Inv(StepPublish(s, m, doc, c))
  {
    hide AttemptId, DirectoryOk, CommitOk;
    RewriteKeeps(s.disk, m, doc, None, Attempt(doc, Some(c), None));
  }

  /** The next item's newest attempt becomes its committed one. */
  lemma CommitNext(d: Disk, m': Manifest, doc: StartedDoc, c: Completion)
    requires DiskOk(d) && InHand(d, d.manifest, doc, Some(c))
    requires c.workItem == doc.workItem && c.attempt == doc.attempt
    requires Checkpoint(d.manifest, c) == Some(m')
    ensures DiskOk(d.(manifest := m'))
  {
    hide AttemptId, DirectoryOk;
    var m, d' := d.manifest, d.(manifest := m');
    forall i | 0 <= i < |m'.completions| ensures CommitOk(d', i) {
      if i < |m.completions| { assert CommitOk(d, i); }
    }
    forall item | item in d'.work ensures NotPast(m', item) {
      assert NotPast(m, item);
      var i :| 0 <= i <= |m.completions| && i < |m.plan| && m.plan[i] == item;
      assert m'.plan[i] == item;
    }
  }

  lemma PersistKeeps(s: State, m: Manifest, doc: StartedDoc, c: Completion)
    requires Inv(s) && s.runner == Published(m, doc, c)
    ensures Inv(StepPersist(s, m, c))
  {
    hide AttemptId, DiskOk;
    if Checkpoint(m, c).Some? {
      CommitNext(s.disk, Checkpoint(m, c).value, doc, c);
    }
  }

  lemma WriteKeeps(s: State, m: Manifest, doc: StartedDoc)
    requires Inv(s) && s.runner == Staging(m, doc)
    ensures Inv(Apply(s, WriteStart))
  {
    hide AttemptId, DiskOk, DirectoryOk, AllStagingOk;
    var d' := Apply(s, WriteStart).disk;
    var added := StagingDir(doc.workItem, doc.attempt, Some(doc));
    InOrder(s.disk);
    assert StagingOk(added, |Attempts(d', doc.workItem)|);
    AllStagingStays(s.disk, d', multiset{added});
    SameWork(s.disk, d');
  }

  lemma ApplyKeeps(s: State, e: Event)
    requires Inv(s)
    ensures Inv(Apply(s, e))
  {
    hide AttemptId, DirectoryOk, CommitOk, LayoutOk, ResumeOk, DiskOk;
    match (e, s.runner)
    case (Stage(now), Looping(m)) => StageKeeps(s, m, now);
    case (WriteStart, Staging(m, doc)) =>
      WriteKeeps(s, m, doc);
    case (Rename, Staged(m, doc)) => RenameKeeps(s, m, doc);
    case (ChildObserved(_, _, _), Running(m, doc)) => ObservedKeeps(s, m, doc, e);
    case (ChildFails(error), Running(m, doc)) => FailKeeps(s, m, doc, error);
    case (PublishResult, Finished(m, doc, c)) => PublishKeeps(s, m, doc, c);
    case (Persist, Published(m, doc, c)) => PersistKeeps(s, m, doc, c);
    case _ =>
  }

  lemma {:induction false} RunKeeps(s: State, es: seq<Event>)
    requires Inv(s)
    ensures Inv(Run(s, es))
    decreases |es|
  {
    if es != [] {
      ApplyKeeps(s, es[0]);
      RunKeeps(Apply(s, es[0]), es[1..]);
    }
  }

  /** Over every run of attempts, failures, crashes between any two steps and
      resumes: completions are a positional prefix of the plan; each item's
      attempts are numbered 1 to n; no attempt holds both a result and a failure;
      only items up to the next unaccounted one have attempts; and a committed
      attempt is the highest-numbered one of its item and holds the completion. */
  lemma EveryRunIsSafe(plan: seq<string>, t0: int, es: seq<Event>)
    requires Distinct(plan) && plan != []
    ensures DiskOk(Run(Init(plan, t0), es).disk)
  {
    RunKeeps(Init(plan, t0), es);
  }
}
