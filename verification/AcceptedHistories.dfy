/** What the inspector's acceptance is worth: on any disk, however it came about, an
    accepted history is one in which items follow each other, attempts are numbered
    without gaps, and every committed result is what is on disk. */
module AcceptedHistories {
  import opened Common
  import opened AttemptIds
  import opened Campaign
  import opened CampaignTimes
  import opened Inspection
  import TextOrder

  lemma {:induction false} CompletedInOrder(m: Manifest, i: nat, j: nat)
    requires i <= j < |m.completions| && forall k :: 0 <= k < |m.completions| ==> ChronologyAt(m, k)
    ensures m.startedAt <= m.completions[i].completedAt <= m.completions[j].completedAt <= m.updatedAt
    decreases j
  {
    assert ChronologyAt(m, j);
    if i < j {
      CompletedInOrder(m, i, j - 1);
    } else if j > 0 {
      CompletedInOrder(m, j - 1, j - 1);
    }
  }

  /** The committed attempt of completion `i` is on disk with it as its only result,
      and an observed child ran within it. */
  ghost predicate CommittedOnDisk(d: Disk, i: nat)
    requires i < |d.manifest.completions| && i < |d.manifest.plan|
  {
    var c, dirs := d.manifest.completions[i], Attempts(d, d.manifest.plan[i]);
    && c.attempt in dirs && dirs[c.attempt] == Attempt(c.started, Some(c), None)
    && c.started == StartedDoc(c.attempt, d.manifest.plan[i], c.started.startedAt)
    && c.workItem == d.manifest.plan[i]
    && (c.outcome.Observed? ==>
          && c.outcome.run in d.children && d.children[c.outcome.run] == c.outcome.child
          && c.outcome.child.workItem == d.manifest.plan[i]
          && c.started.startedAt < c.outcome.child.startedAt < c.outcome.child.finishedAt < c.completedAt)
  }

  lemma AcceptedCommitIsOnDisk(d: Disk, i: nat)
    requires HistoryOk(d) && i < |d.manifest.completions|
    ensures CommittedOnDisk(d, i)
  {
    hide AttemptId, IsSixDigitName, TextOrder.Sorted, OrphanOk;
    var item, c := d.manifest.plan[i], d.manifest.completions[i];
    assert CommittedOk(d, i) && ChronologyAt(d.manifest, i);
    assert ValidAttempt(item, c.attempt, d.work[item][c.attempt]);
  }

  lemma ExpectedAreNames(ids: set<string>, n: nat)
    requires TextOrder.Sorted(ids) == ExpectedNames(n)
    ensures ids == Names(n)
  {
    hide AttemptId, TextOrder.Less;
    var sorted := TextOrder.Sorted(ids);
    hide TextOrder.Sorted;
    forall x ensures x in ids <==> x in Names(n) {
      if x in sorted {
        var k :| 0 <= k < n && sorted[k] == x;
        assert x == AttemptId(k + 1);
      }
      if x in Names(n) {
        var k :| 1 <= k <= n && x == AttemptId(k);
        assert sorted[k - 1] == x;
      }
    }
  }

  /** Attempts are numbered 1 to n, with n at most 999999. */
  lemma AcceptedNumbering(d: Disk, item: string)
    requires LayoutOk(d) && item in d.work
    ensures d.work[item].Keys == Names(|d.work[item]|) && |d.work[item]| <= LAST_PADDED
    ensures item in d.manifest.plan
  {
    hide AttemptId, IsSixDigitName, TextOrder.Sorted, ExpectedNames;
    var dirs, n := d.work[item], |d.work[item]|;
    assert ValidDirectory(item, dirs);
    ExpectedAreNames(dirs.Keys, n);
    if n > 0 {
      assert AttemptId(n) in Names(n);
      assert ValidAttempt(item, AttemptId(n), dirs[AttemptId(n)]);
      SixDigitsExactly(n);
    }
  }

  /** The child run of an orphan belongs to no other attempt that counts. */
  ghost predicate OwnRun(d: Disk, item: string, name: string) {
    forall run :: item in d.work && name in d.work[item] && run in RunsOf(d.work[item][name]) ==>
      && (forall i :: 0 <= i < |d.manifest.completions| && d.manifest.completions[i].outcome.Observed? ==>
            d.manifest.completions[i].outcome.run != run)
      && (forall x, y :: IsOrphan(d, x, y) && run in RunsOf(d.work[x][y]) ==> x == item && y == name)
  }

  /** Whatever disk is accepted: completions end in plan order; an observed item starts
      after every item before it is completed; each committed attempt is on disk with
      its result; attempts are numbered without gaps up to 999999; an attempt that was
      not committed shares no child run and, if it sorts before the committed one,
      ended before that one started. */
  lemma AcceptedMeans(d: Disk)
    requires HistoryOk(d)
    ensures |d.manifest.completions| <= |d.manifest.plan|
    ensures forall i: nat :: i < |d.manifest.completions| ==> CommittedOnDisk(d, i)
    ensures forall i, j :: 0 <= i < j < |d.manifest.completions| ==>
              var c := d.manifest.completions;
              && c[i].completedAt <= c[j].completedAt
              && (c[j].outcome.Observed? ==> c[i].completedAt < c[j].started.startedAt)
    ensures forall item :: item in d.work ==>
              d.work[item].Keys == Names(|d.work[item]|) && |d.work[item]| <= LAST_PADDED && item in d.manifest.plan
    ensures forall item, name :: IsOrphan(d, item, name) ==>
              && OwnRun(d, item, name)
              && forall i :: 0 <= i < |d.manifest.completions| && d.manifest.plan[i] == item
                             && TextOrder.Less(name, d.manifest.completions[i].attempt) ==>
                   && d.manifest.startedAt < d.work[item][name].started.startedAt
                   && EndOf(d.work[item][name]) < d.manifest.completions[i].started.startedAt
  {
    hide AttemptId, LayoutOk, CommittedOk, TextOrder.Less, CommittedOnDisk;
    var m := d.manifest;
    forall i: nat | i < |m.completions| ensures CommittedOnDisk(d, i) { AcceptedCommitIsOnDisk(d, i); }
    forall i, j | 0 <= i < j < |m.completions|
      ensures m.completions[i].completedAt <= m.completions[j].completedAt
      ensures m.completions[j].outcome.Observed? ==> m.completions[i].completedAt < m.completions[j].started.startedAt
    {
      CompletedInOrder(m, i, j - 1);
      CompletedInOrder(m, i, j);
      assert ChronologyAt(m, j);
    }
    forall item | item in d.work
      ensures d.work[item].Keys == Names(|d.work[item]|) && |d.work[item]| <= LAST_PADDED && item in m.plan
    { AcceptedNumbering(d, item); }
    forall item, name | IsOrphan(d, item, name)
      ensures OwnRun(d, item, name)
      ensures forall i :: 0 <= i < |m.completions| && m.plan[i] == item
                          && TextOrder.Less(name, m.completions[i].attempt) ==>
                && m.startedAt < d.work[item][name].started.startedAt
                && EndOf(d.work[item][name]) < m.completions[i].started.startedAt
    { AcceptedOrphan(d, item, name); }
  }

  lemma AcceptedOrphan(d: Disk, item: string, name: string)
    requires HistoryOk(d) && IsOrphan(d, item, name)
    ensures OwnRun(d, item, name)
    ensures forall i :: 0 <= i < |d.manifest.completions| && d.manifest.plan[i] == item
                        && TextOrder.Less(name, d.manifest.completions[i].attempt) ==>
              && d.manifest.startedAt < d.work[item][name].started.startedAt
              && EndOf(d.work[item][name]) < d.manifest.completions[i].started.startedAt
  {
    hide AttemptId, LayoutOk, CommittedOk, TextOrder.Less, IsOfficial, ChronologyAt;
    assert OrphanOk(d, item, name);
    forall run, i | 0 <= i < |d.manifest.completions| && run in RunsOf(d.work[item][name])
                    && d.manifest.completions[i].outcome.Observed?
      ensures d.manifest.completions[i].outcome.run != run
    {
      assert !OfficialRun(d.manifest, run);
    }
    forall i | 0 <= i < |d.manifest.completions| && d.manifest.plan[i] == item
               && TextOrder.Less(name, d.manifest.completions[i].attempt)
      ensures d.manifest.startedAt < d.work[item][name].started.startedAt
      ensures EndOf(d.work[item][name]) < d.manifest.completions[i].started.startedAt
    {
      assert Completes(d.manifest, item, d.manifest.completions[i]);
    }
  }

  /** In an accepted and eligible history every item is observed, and every attempt that
      was not committed is an earlier try of its item, over before the committed one
      started. */
  lemma EligibleMeans(d: Disk, item: string, name: string) returns (i: nat)
    requires HistoryOk(d) && Eligible(d) && IsOrphan(d, item, name)
    ensures i < |d.manifest.completions| && d.manifest.plan[i] == item
    ensures d.manifest.completions[i].outcome.Observed?
    ensures TextOrder.Less(name, d.manifest.completions[i].attempt)
    ensures EndOf(d.work[item][name]) < d.manifest.completions[i].started.startedAt
  {
    hide AttemptId, LayoutOk, CommittedOk, OrphanOk, ChronologyAt, TextOrder.Less;
    assert !Disqualifies(d, item, name);
    var c :| Completes(d.manifest, item, c) && PriorRetry(d.manifest, name, d.work[item][name], c);
    i :| 0 <= i < |d.manifest.completions| && i < |d.manifest.plan| && d.manifest.plan[i] == item
         && d.manifest.completions[i] == c;
  }
}
