/** Qualitative evidence: judgments, adjudications, and what an agreed outcome says
    about the votes behind it. */
module Qualitative {
  import opened Common

  datatype Verdict = Passes | Fails | Uncertain
  datatype Outcome = Pass | Fail | Unresolved
  datatype AdjudicationMethod = Agreement | HumanAdjudication

  /** The work item judged and the digests of what was judged. */
  datatype Target = Target(item: string, digests: string)

  /** Digests are injective, so a cited digest is the judgment it names. */
  datatype Judgment = Judgment(target: Target, judge: string, assets: string, verdicts: map<string, Verdict>)

  datatype Adjudication = Adjudication(
    target: Target, how: AdjudicationMethod, adjudicator: string,
    cited: seq<Judgment>, outcomes: map<string, Outcome>)

  datatype Kind = Screen | Qualification | Benchmark

  datatype CriterionSource = JudgedAnswer | HardFail | MustMention | SupportIfClaimed | ProseAlignment

  datatype AuthoredCriterion = AuthoredCriterion(id: string, source: CriterionSource, gate: bool)

  /** A criterion of a manifest: only a hard-fail criterion can be a safety gate of a
      screen. */
  type Criterion = c: AuthoredCriterion | c.gate ==> c.source == HardFail
    witness AuthoredCriterion("", HardFail, false)

  /** What the manifest fixes - campaign kind, judge policy, the scenario of every
      item and its criteria - and, for each privacy-cleared observation, the digests a
      target must carry. */
  datatype Policy = Policy(
    kind: Kind, judges: seq<string>, how: AdjudicationMethod, adjudicator: string, assets: string,
    scenarioOf: map<string, string>, scenarios: map<string, seq<Criterion>>, targets: map<string, string>)

  function CriteriaOf(p: Policy, item: string): seq<Criterion> {
    if item in p.scenarioOf && p.scenarioOf[item] in p.scenarios then p.scenarios[p.scenarioOf[item]] else []
  }

  /** Every criterion of the item's scenario. */
  function Rubric(p: Policy, item: string): set<string> { set c | c in CriteriaOf(p, item) :: c.id }

  /** The criteria that decide about an item: all of them, or in a screen the safety
      gates. */
  function RequiredCriteria(p: Policy, item: string): set<string> {
    set c | c in CriteriaOf(p, item) && (p.kind == Screen ==> c.gate) :: c.id
  }

  /** `_requires_calibrated_policy`. */
  predicate Calibrated(p: Policy, item: string) {
    p.kind == Qualification || p.kind == Benchmark || exists c :: c in CriteriaOf(p, item) && c.source == HardFail
  }

  /** Every item that needs a criterion is under the calibrated policy. */
  lemma NeededIsCalibrated(p: Policy, item: string)
    requires RequiredCriteria(p, item) != {}
    ensures Calibrated(p, item)
  {
    var id :| id in RequiredCriteria(p, item);
    var c :| c in CriteriaOf(p, item) && (p.kind == Screen ==> c.gate) && c.id == id;
  }

  lemma NeededIsInRubric(p: Policy, item: string)
    ensures RequiredCriteria(p, item) <= Rubric(p, item)
  {
  }

  predicate Targets(p: Policy, t: Target) {
    t.item in p.targets && p.targets[t.item] == t.digests
  }

  /** `_validate_judgment_document`, with the campaign's policy. */
  predicate JudgmentOk(p: Policy, j: Judgment) {
    && Targets(p, j.target)
    && (Calibrated(p, j.target.item) ==> j.judge in p.judges)
    && j.verdicts.Keys == Rubric(p, j.target.item)
    && j.assets == p.assets
  }

  function Judges(cited: seq<Judgment>): set<string> { set j | j in cited :: j.judge }

  /** `_validate_adjudication_policy`. */
  predicate PolicyOk(p: Policy, a: Adjudication) {
    && a.how == p.how && a.adjudicator == p.adjudicator
    && |a.cited| == |p.judges|
    && |Judges(a.cited)| == |a.cited|
    && Judges(a.cited) == set x | x in p.judges
  }

  function Votes(cited: seq<Judgment>, c: string): set<Verdict>
    requires forall j :: j in cited ==> c in j.verdicts
  {
    set j | j in cited :: j.verdicts[c]
  }

  /** The one verdict of all judges, unless they differ or are uncertain. */
  function Agreed(votes: set<Verdict>): Outcome {
    if |votes| == 1 && Uncertain !in votes then (if Passes in votes then Pass else Fail) else Unresolved
  }

  predicate Covers(j: Judgment, a: Adjudication) {
    j.target == a.target && a.outcomes.Keys <= j.verdicts.Keys
  }

  predicate AdjudicationOk(p: Policy, judgments: seq<Judgment>, a: Adjudication) {
    && Targets(p, a.target)
    && a.outcomes.Keys == Rubric(p, a.target.item)
    && (forall j :: j in a.cited ==> j in judgments && Covers(j, a))
    && (Calibrated(p, a.target.item) ==> PolicyOk(p, a))
    && (a.how == Agreement ==>
          |a.cited| >= 2 && forall c :: c in a.outcomes ==> a.outcomes[c] == Agreed(Votes(a.cited, c)))
  }

  function Items(adjudications: seq<Adjudication>): set<string> {
    set a | a in adjudications :: a.target.item
  }

  predicate Cites(adjudications: seq<Adjudication>, j: Judgment) {
    exists a :: a in adjudications && j in a.cited
  }

  ghost predicate JudgmentsOk(p: Policy, judgments: seq<Judgment>) {
    && (forall j :: j in judgments ==> JudgmentOk(p, j))
    && (forall i, k :: 0 <= i < k < |judgments| ==> judgments[i] != judgments[k])
  }

  ghost predicate AdjudicationsOk(p: Policy, judgments: seq<Judgment>, adjudications: seq<Adjudication>) {
    && (forall a :: a in adjudications ==> AdjudicationOk(p, judgments, a))
    && (forall i, k :: 0 <= i < k < |adjudications| ==> adjudications[i].target.item != adjudications[k].target.item)
  }

  /** All of it is in order: no judgment twice, one adjudication per item, and no
      judgment left over. */
  ghost predicate EvidenceOk(p: Policy, judgments: seq<Judgment>, adjudications: seq<Adjudication>, all: bool) {
    && JudgmentsOk(p, judgments) && AdjudicationsOk(p, judgments, adjudications)
    && (forall j :: j in judgments && !Cites(adjudications, j) ==> !all && j.target.item !in Items(adjudications))
  }

  method RetainJudgments(p: Policy, judgments: seq<Judgment>) returns (r: Option<set<Judgment>>)
    ensures r == if JudgmentsOk(p, judgments) then Some(set j | j in judgments) else None
  {
    hide JudgmentOk;
    var retained: set<Judgment> := {};
    for k := 0 to |judgments|
      invariant retained == set j | j in judgments[..k]
      invariant JudgmentsOk(p, judgments[..k])
    {
      var j := judgments[k];
      assert judgments[..k + 1] == judgments[..k] + [j];
      if !JudgmentOk(p, j) { return None; }
      if j in retained {
        var i :| 0 <= i < k && judgments[..k][i] == j;
        assert judgments[i] == judgments[k];
        return None;
      }
      retained := retained + {j};
    }
    assert judgments[..|judgments|] == judgments;
    r := Some(retained);
  }

  ghost predicate Loaded(outcomes: map<string, map<string, Outcome>>, adjudications: seq<Adjudication>) {
    && outcomes.Keys == Items(adjudications)
    && forall a :: a in adjudications ==> a.target.item in outcomes && outcomes[a.target.item] == a.outcomes
  }

  method LoadAdjudications(p: Policy, judgments: seq<Judgment>, adjudications: seq<Adjudication>)
    returns (ok: bool, outcomes: map<string, map<string, Outcome>>, referenced: set<Judgment>)
    ensures ok <==> AdjudicationsOk(p, judgments, adjudications)
    ensures ok ==> Loaded(outcomes, adjudications)
    ensures ok ==> CitedBy(referenced, adjudications)
  {
    hide AdjudicationOk, AdjudicationsOk, Loaded, CitedBy;
    ok, outcomes, referenced := false, map[], {};
    LoadNothing(p, judgments);
    for k := 0 to |adjudications|
      invariant AdjudicationsOk(p, judgments, adjudications[..k]) && Loaded(outcomes, adjudications[..k])
      invariant CitedBy(referenced, adjudications[..k])
    {
      var a := adjudications[k];
      assert adjudications[..k + 1] == adjudications[..k] + [a];
      if a.target.item in outcomes || !AdjudicationOk(p, judgments, a) {
        LoadFails(p, judgments, adjudications, k, outcomes);
        return;
      }
      LoadStep(p, judgments, adjudications[..k], a, outcomes, referenced);
      outcomes := outcomes[a.target.item := a.outcomes];
      referenced := referenced + (set j | j in a.cited);
    }
    assert adjudications[..|adjudications|] == adjudications;
    ok := true;
  }

  ghost predicate CitedBy(referenced: set<Judgment>, adjudications: seq<Adjudication>) {
    forall j :: j in referenced <==> Cites(adjudications, j)
  }

  lemma LoadNothing(p: Policy, judgments: seq<Judgment>)
    ensures AdjudicationsOk(p, judgments, []) && Loaded(map[], []) && CitedBy({}, [])
  { }

  lemma LoadStep(
    p: Policy, judgments: seq<Judgment>, done: seq<Adjudication>, a: Adjudication,
    outcomes: map<string, map<string, Outcome>>, referenced: set<Judgment>)
    requires AdjudicationsOk(p, judgments, done) && Loaded(outcomes, done) && CitedBy(referenced, done)
    requires a.target.item !in outcomes && AdjudicationOk(p, judgments, a)
    ensures AdjudicationsOk(p, judgments, done + [a])
    ensures Loaded(outcomes[a.target.item := a.outcomes], done + [a])
    ensures CitedBy(referenced + (set j | j in a.cited), done + [a])
  {
    hide AdjudicationOk, Cites;
    ItemsSnoc(done, a);
    CitesSnoc(done, a);
    assert forall b :: b in done ==> b.target.item in Items(done);
    assert forall b :: b in done + [a] <==> b in done || b == a;
  }

  lemma LoadFails(
    p: Policy, judgments: seq<Judgment>, adjudications: seq<Adjudication>, k: nat,
    outcomes: map<string, map<string, Outcome>>)
    requires k < |adjudications| && Loaded(outcomes, adjudications[..k])
    requires adjudications[k].target.item in outcomes || !AdjudicationOk(p, judgments, adjudications[k])
    ensures !AdjudicationsOk(p, judgments, adjudications)
  {
    hide AdjudicationOk;
    if adjudications[k].target.item in outcomes {
      var b :| b in adjudications[..k] && b.target.item == adjudications[k].target.item;
      var i :| 0 <= i < k && adjudications[..k][i] == b;
      assert adjudications[i].target.item == adjudications[k].target.item;
    }
  }

  /** `_qualitative_outcomes`. */
  method QualitativeOutcomes(p: Policy, judgments: seq<Judgment>, adjudications: seq<Adjudication>, all: bool)
    returns (r: Option<map<string, map<string, Outcome>>>)
    ensures r.Some? <==> EvidenceOk(p, judgments, adjudications, all)
    ensures r.Some? ==> Loaded(r.value, adjudications)
  {
    hide JudgmentsOk, AdjudicationsOk, Cites, Items;
    var retained := RetainJudgments(p, judgments);
    if retained.None? { return None; }
    var ok, outcomes, referenced := LoadAdjudications(p, judgments, adjudications);
    if !ok { return None; }
    var left := retained.value - referenced;
    assert forall j :: j in left <==> j in judgments && !Cites(adjudications, j);
    if all && left != {} {
      var j :| j in left;
      return None;
    }
    if !all && exists j :: j in left && j.target.item in outcomes {
      return None;
    }
    r := Some(outcomes);
  }

  lemma ItemsSnoc(s: seq<Adjudication>, a: Adjudication)
    ensures Items(s + [a]) == Items(s) + {a.target.item}
  {
    assert forall b :: b in s + [a] <==> b in s || b == a;
  }

  lemma CitesSnoc(s: seq<Adjudication>, a: Adjudication)
    ensures forall j :: Cites(s + [a], j) <==> Cites(s, j) || j in a.cited
  {
    assert forall b :: b in s + [a] <==> b in s || b == a;
  }

  /** The judge has judged the target, and only ever given the criterion this verdict. */
  ghost predicate Voted(judgments: seq<Judgment>, t: Target, judge: string, c: string, v: Verdict) {
    && (exists j :: j in judgments && j.target == t && j.judge == judge)
    && (forall j :: j in judgments && j.target == t && j.judge == judge ==> c in j.verdicts && j.verdicts[c] == v)
  }

  /** What is agreed on is what all say; uncertainty is no agreement. */
  lemma AgreedIsCommon(cited: seq<Judgment>, c: string, v: Verdict)
    requires cited != [] && (forall j :: j in cited ==> c in j.verdicts) && v != Uncertain
    ensures Agreed(Votes(cited, c)) == (if v == Passes then Pass else Fail) <==>
              forall j :: j in cited ==> j.verdicts[c] == v
  {
    var votes := Votes(cited, c);
    assert cited[0] in cited && cited[0].verdicts[c] in votes;
    if forall j :: j in cited ==> j.verdicts[c] == v {
      assert votes == {v};
    }
    if Agreed(votes) == (if v == Passes then Pass else Fail) {
      var x :| votes == {x} by { OneVote(votes); }
      assert x == v;
      forall j | j in cited ensures j.verdicts[c] == v { assert j.verdicts[c] in votes; }
    }
  }

  lemma OneVote(votes: set<Verdict>)
    requires |votes| == 1
    ensures exists x :: votes == {x}
  {
    var x :| x in votes;
    assert |votes - {x}| == 0;
    assert votes == {x};
  }

  /** In accepted evidence an adjudication cites every judgment of its target. */
  lemma AllJudgmentsCited(
    p: Policy, judgments: seq<Judgment>, adjudications: seq<Adjudication>, all: bool, a: Adjudication, j: Judgment)
    requires EvidenceOk(p, judgments, adjudications, all) && a in adjudications
    requires j in judgments && j.target == a.target
    ensures j in a.cited
  {
    hide JudgmentOk;
    assert a.target.item in Items(adjudications);
    var b :| b in adjudications && j in b.cited;
    var i :| 0 <= i < |adjudications| && adjudications[i] == a;
    var k :| 0 <= k < |adjudications| && adjudications[k] == b;
    assert AdjudicationOk(p, judgments, b);
    assert i == k;
  }

  /** Under agreement, a calibrated criterion is adjudicated pass exactly when every
      configured judge voted pass, fail exactly when every one voted fail, and is
      unresolved otherwise. */
  lemma VerdictIsUnanimous(
    p: Policy, judgments: seq<Judgment>, adjudications: seq<Adjudication>, all: bool, a: Adjudication, c: string)
    requires EvidenceOk(p, judgments, adjudications, all) && a in adjudications && c in a.outcomes
    requires p.how == Agreement && Calibrated(p, a.target.item)
    ensures a.outcomes[c] == Pass <==>
              forall judge :: judge in p.judges ==> Voted(judgments, a.target, judge, c, Passes)
    ensures a.outcomes[c] == Fail <==>
              forall judge :: judge in p.judges ==> Voted(judgments, a.target, judge, c, Fails)
  {
    hide Agreed, Calibrated, Cites, Voted, EvidenceOk;
    AgreedIsVoted(p, judgments, adjudications, all, a, c, Passes);
    AgreedIsVoted(p, judgments, adjudications, all, a, c, Fails);
  }

  lemma AgreedIsVoted(
    p: Policy, judgments: seq<Judgment>, adjudications: seq<Adjudication>, all: bool, a: Adjudication, c: string,
    v: Verdict)
    requires EvidenceOk(p, judgments, adjudications, all) && a in adjudications && c in a.outcomes
    requires p.how == Agreement && Calibrated(p, a.target.item) && v != Uncertain
    ensures a.outcomes[c] == (if v == Passes then Pass else Fail) <==>
              forall judge :: judge in p.judges ==> Voted(judgments, a.target, judge, c, v)
  {
    AdjudicationFacts(p, judgments, adjudications, all, a, c);
    AgreedIsCommon(a.cited, c, v);
    forall j | j in judgments && j.target == a.target ensures j in a.cited {
      AllJudgmentsCited(p, judgments, adjudications, all, a, j);
    }
    hide EvidenceOk, Agreed, Votes, Voted, Calibrated;
    CitedIsVoted(p, judgments, a, c, v);
  }

  lemma AdjudicationFacts(
    p: Policy, judgments: seq<Judgment>, adjudications: seq<Adjudication>, all: bool, a: Adjudication, c: string)
    requires EvidenceOk(p, judgments, adjudications, all) && a in adjudications && c in a.outcomes
    requires p.how == Agreement && Calibrated(p, a.target.item)
    ensures a.cited != [] && Judges(a.cited) == set x | x in p.judges
    ensures forall j :: j in a.cited ==> j in judgments && j.target == a.target && c in j.verdicts
    ensures a.outcomes[c] == Agreed(Votes(a.cited, c))
  {
    hide Agreed, Votes, Judges, Calibrated;
    assert AdjudicationOk(p, judgments, a);
  }

  /** All citations give the verdict exactly when all configured judges gave it. */
  lemma CitedIsVoted(p: Policy, judgments: seq<Judgment>, a: Adjudication, c: string, v: Verdict)
    requires Judges(a.cited) == set x | x in p.judges
    requires forall j :: j in a.cited ==> j in judgments && j.target == a.target && c in j.verdicts
    requires forall j :: j in judgments && j.target == a.target ==> j in a.cited
    ensures (forall j :: j in a.cited ==> j.verdicts[c] == v) <==>
              forall judge :: judge in p.judges ==> Voted(judgments, a.target, judge, c, v)
  {
    if forall j :: j in a.cited ==> j.verdicts[c] == v {
      forall judge | judge in p.judges ensures Voted(judgments, a.target, judge, c, v) {
        assert judge in Judges(a.cited);
      }
    }
    if forall judge :: judge in p.judges ==> Voted(judgments, a.target, judge, c, v) {
      forall j | j in a.cited ensures j.verdicts[c] == v {
        assert j.judge in Judges(a.cited);
        assert Voted(judgments, a.target, j.judge, c, v);
      }
    }
  }
}
