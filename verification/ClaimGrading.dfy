/** Grading the claims of a whole conversation: the budget check first, then the
    aggregate verdict and one verdict per turn.  Every path that is selected on the
    way is accounted for, and the accepted budget bounds the work. */
module ClaimGrading {
  import opened Common
  import opened Json
  import opened PathSelection
  import opened ClaimCoverage
  import opened Conversation
  import ClaimBudget

  /** A turn and what it claims; a turn without claims has none. */
  datatype TurnClaims = TurnClaims(record: TurnRecord, claims: seq<Claim>)

  /** The captured document, and the turn and wire position it was captured at. */
  datatype Evidence = Evidence(document: Json, turn: Option<nat>, sequence: Option<int>)

  predicate Available(e: Evidence, t: TurnClaims) { EvidenceAvailable(t.record, e.turn, e.sequence) }

  datatype Verdict = Verdict(
    missing: seq<seq<Step>>, aggregatePassed: bool, failedTurns: seq<nat>, passed: bool)

  /** `merge_claims`. */
  function Merged(turns: seq<TurnClaims>): seq<Claim> {
    if turns == [] then [] else Merged(turns[..|turns| - 1]) + turns[|turns| - 1].claims
  }

  /** The document a turn's claims are graded against; null when it was captured too
      late. */
  function DocumentFor(t: TurnClaims, e: Evidence): Json { if Available(e, t) then e.document else Null }

  predicate TurnPasses(t: TurnClaims, e: Evidence, required: seq<seq<Step>>) {
    ClaimsPass(t.claims, DocumentFor(t, e), required)
  }

  /** The failing ones among the first `n` turns, in order. */
  function FailedTurns(turns: seq<TurnClaims>, e: Evidence, required: seq<seq<Step>>, n: nat): seq<nat>
    requires n <= |turns|
  {
    if n == 0 then []
    else
      FailedTurns(turns, e, required, n - 1)
      + if TurnPasses(turns[n - 1], e, required) then [] else [n - 1]
  }

  // ----------------------------------------------------------------- the work

  /** What has been selected: paths on the document, and paths on null. */
  datatype Work = Work(onDocument: seq<seq<Step>>, onNull: seq<seq<Step>>)

  function Cost(w: Work, document: Json): nat {
    ClaimBudget.VisitsOf(document, w.onDocument) + ClaimBudget.VisitsOf(Null, w.onNull)
  }

  lemma {:induction false} VisitsAppend(document: Json, a: seq<seq<Step>>, b: seq<seq<Step>>)
    ensures ClaimBudget.VisitsOf(document, a + b)
            == ClaimBudget.VisitsOf(document, a) + ClaimBudget.VisitsOf(document, b)
  {
    hide ClaimBudget.DocumentVisits;
    if a == [] {
      assert a + b == b;
    } else {
      assert (a + b)[1..] == a[1..] + b;
      VisitsAppend(document, a[1..], b);
    }
  }

  /** Null has nothing to select: every step raises on it at once. */
  lemma {:induction false} NullCostsNothing(paths: seq<seq<Step>>)
    ensures ClaimBudget.VisitsOf(Null, paths) == 0
  {
    if paths != [] {
      NullCostsNothing(paths[1..]);
      var path, nodes := paths[0], [Node(Null, [])];
      if path != [] { NullExpandsNothing(path[0], nodes); }
    }
  }

  lemma NullExpandsNothing(step: Step, nodes: seq<Node>)
    requires nodes == [Node(Null, [])]
    ensures ClaimBudget.Expanded(step, nodes) == [] && SelectStep(step, nodes).None?
  {
    assert Elements(Null).None? && ClaimBudget.ProjectedUntil(step, nodes) == [];
  }

  /** What the turns' own grading selects on the document. */
  ghost function AvailablePaths(turns: seq<TurnClaims>, e: Evidence): seq<seq<Step>> {
    if turns == [] then []
    else
      var t := turns[|turns| - 1];
      AvailablePaths(turns[..|turns| - 1], e) + if Available(e, t) then Paths(t.claims) else []
  }

  lemma PathsAppend(a: seq<Claim>, b: seq<Claim>)
    ensures Paths(a + b) == Paths(a) + Paths(b)
  { }

  /** Turns together select no more than one pass over all claims. */
  lemma {:induction false} TurnsSelectOnce(document: Json, turns: seq<TurnClaims>, e: Evidence)
    ensures ClaimBudget.VisitsOf(document, AvailablePaths(turns, e))
            <= ClaimBudget.VisitsOf(document, Paths(Merged(turns)))
  {
    hide Paths, ClaimBudget.DocumentVisits, Available;
    if turns != [] {
      var before, t := turns[..|turns| - 1], turns[|turns| - 1];
      TurnsSelectOnce(document, before, e);
      PathsAppend(Merged(before), t.claims);
      VisitsAppend(document, Paths(Merged(before)), Paths(t.claims));
      VisitsAppend(document, AvailablePaths(before, e), if Available(e, t) then Paths(t.claims) else []);
    } else {
      NoPaths();
    }
  }

  lemma NoPaths()
    ensures Paths([]) == []
  { }

  /** Everything grading selects on the document: the claims twice and the required
      paths for the aggregate, then the claims of the turns that have the document. */
  ghost function Selected(turns: seq<TurnClaims>, e: Evidence, required: seq<seq<Step>>): seq<seq<Step>> {
    Paths(Merged(turns)) + Paths(Merged(turns)) + required + AvailablePaths(turns, e)
  }

  /** The budget charges four passes over the claims; grading makes at most three,
      and one over the required paths. */
  lemma AcceptedWorkIsBounded(
    turns: seq<TurnClaims>, e: Evidence, required: seq<seq<Step>>, optional: seq<seq<Step>>, w: Work)
    requires ClaimBudget.WithinBudget(Some(e.document), Paths(Merged(turns)), required, optional)
    requires w.onDocument == Selected(turns, e, required)
    ensures Cost(w, e.document) <= ClaimBudget.MAX_SELECTION_WORK
  {
    hide Paths, ClaimBudget.VisitsOf, ClaimBudget.SelectionWork, ClaimBudget.Weight;
    var claims, document := Paths(Merged(turns)), e.document;
    ClaimBudget.AcceptedBudgetBoundsWork(document, claims, required, optional);
    VisitsAppend(document, required, optional);
    TurnsSelectOnce(document, turns, e);
    VisitsAppend(document, claims, claims);
    VisitsAppend(document, claims + claims, required);
    VisitsAppend(document, claims + claims + required, AvailablePaths(turns, e));
    NullCostsNothing(w.onNull);
  }

  // ------------------------------------------------------------------- grading

  /** What the verdict on a captured document says. */
  ghost predicate Judges(v: Verdict, turns: seq<TurnClaims>, e: Evidence, required: seq<seq<Step>>) {
    && v.missing == MissingOf(Merged(turns), e.document, required, |required|)
    && (v.aggregatePassed <==>
          ClaimsPass(Merged(turns), e.document, required)
          && forall p :: p in required ==> Covered(Merged(turns), e.document, required, p))
    && v.failedTurns == FailedTurns(turns, e, required, |turns|)
    && (v.passed <==> v.aggregatePassed && v.failedTurns == [])
  }

  /** `_grade_claims_by_turn`, the deterministic verdict: nothing when the budget
      refuses; without a document only a conversation that neither claims nor needs
      anything passes; else the aggregate and every turn must pass.  The work done
      stays within the maximum the budget stands for. */
  method GradeClaimsByTurn(
    turns: seq<TurnClaims>, evidence: Option<Evidence>, required: seq<seq<Step>>, optional: seq<seq<Step>>)
    returns (r: Option<Verdict>, ghost work: Work)
    ensures r.Some? <==> ClaimBudget.WithinBudget(
                           if evidence.Some? then Some(evidence.value.document) else None,
                           Paths(Merged(turns)), required, optional)
    ensures r.Some? && evidence.None? ==>
              var ok := required == [] && Merged(turns) == []; r.value == Verdict(required, ok, [], ok)
    ensures r.Some? && evidence.Some? ==> Judges(r.value, turns, evidence.value, required)
    ensures r.Some? && evidence.Some? ==>
              && work.onDocument == Selected(turns, evidence.value, required)
              && Cost(work, evidence.value.document) <= ClaimBudget.MAX_SELECTION_WORK
  {
    hide ClaimBudget.WithinBudget, ClaimsPass, Covered, Paths, MissingOf, Cost, FailedTurns, AvailablePaths;
    work := Work([], []);
    var merged := MergeClaims(turns);
    var document := if evidence.Some? then Some(evidence.value.document) else None;
    var accepted := ClaimBudget.ValidateClaimBudget(document, Paths(merged), required, optional);
    if !accepted { return None, work; }
    if evidence.None? {
      var ok := required == [] && merged == [];
      return Some(Verdict(required, ok, [], ok)), work;
    }
    var missing, aggregate, selected := GradeFactCoverage(merged, evidence.value.document, required);
    var failed, more := GradeTurns(turns, evidence.value, required);
    work := Work(selected + more.onDocument, more.onNull);
    AcceptedWorkIsBounded(turns, evidence.value, required, optional, work);
    r := Some(Verdict(missing, aggregate, failed, aggregate && failed == []));
  }

  method MergeClaims(turns: seq<TurnClaims>) returns (merged: seq<Claim>)
    ensures merged == Merged(turns)
  {
    merged := [];
    for k := 0 to |turns|
      invariant merged == Merged(turns[..k])
    {
      assert turns[..k + 1][..k] == turns[..k];
      merged := merged + turns[k].claims;
    }
    assert turns[..|turns|] == turns;
  }

  /** The loop over the turns: each is graded against the document if that was
      captured in time. */
  method GradeTurns(turns: seq<TurnClaims>, e: Evidence, required: seq<seq<Step>>)
    returns (failed: seq<nat>, ghost work: Work)
    ensures failed == FailedTurns(turns, e, required, |turns|)
    ensures work.onDocument == AvailablePaths(turns, e)
  {
    hide ClaimsPass, Paths, FailedOf, EvidenceAvailable;
    failed, work := [], Work([], []);
    for k := 0 to |turns|
      invariant failed == FailedTurns(turns, e, required, k)
      invariant work.onDocument == AvailablePaths(turns[..k], e)
    {
      assert turns[..k + 1][..k] == turns[..k];
      var t := turns[k];
      var _, passed, more := GradeClaims(t.claims, DocumentFor(t, e), required);
      work := if Available(e, t) then Work(work.onDocument + more, work.onNull)
              else Work(work.onDocument, work.onNull + more);
      if !passed { failed := failed + [k]; }
    }
    assert turns[..|turns|] == turns;
  }

  // ------------------------------------------------------ whole conversations

  /** The turns of collected runs with their claims. */
  function Turns(runs: seq<TurnRun>, claims: seq<seq<Claim>>): (ts: seq<TurnClaims>)
    requires |claims| == |runs|
    ensures |ts| == |runs|
  {
    seq(|runs|, k requires 0 <= k < |runs| => TurnClaims(Records(runs)[k], claims[k]))
  }

  /** Claims are retained with supported paths only, and those begin with a key. */
  ghost predicate Supported(claims: seq<seq<Claim>>) {
    forall k, c :: 0 <= k < |claims| && c in claims[k] ==> c.path != [] && c.path[0].Key?
  }

  /** The command that produced the document completed in an earlier turn, or on the
      wire strictly before this turn's last agent message. */
  ghost predicate Precedes(runs: seq<TurnRun>, at: (nat, nat), turn: nat)
    requires at.0 < |runs| && at.1 < |runs[at.0].transcript.commandSequences|
  {
    || at.0 < turn
    || (at.0 == turn && exists q: nat ::
          runs[turn].transcript.commandSequences[at.1] < q && IsLastMessage(runs[turn].transcript, q))
  }

  lemma {:induction false} FailedTurnsExactly(
    turns: seq<TurnClaims>, e: Evidence, required: seq<seq<Step>>, n: nat)
    requires n <= |turns|
    ensures forall k :: k in FailedTurns(turns, e, required, n) <==>
              0 <= k < n && !TurnPasses(turns[k], e, required)
  {
    hide TurnPasses;
    if n > 0 { FailedTurnsExactly(turns, e, required, n - 1); }
  }

  /** Nothing can be claimed of a document that is not there. */
  lemma NullSupportsNothing(claims: seq<Claim>, required: seq<seq<Step>>)
    requires forall c :: c in claims ==> c.path != [] && c.path[0].Key?
    ensures !ClaimsPass(claims, Null, required)
  {
    if claims != [] {
      var c := claims[0];
      assert c in claims;
      NullExpandsNothing(c.path[0], [Node(Null, [])]);
      assert Select(Null, c.path).None?;
    }
  }

  /** A turn passes exactly when it makes claims, the document's command preceded its
      answer, and every claim holds of the document. */
  lemma PassesOnEvidence(
    runs: seq<TurnRun>, claims: seq<seq<Claim>>, required: seq<seq<Step>>, e: Evidence, at: (nat, nat), turn: nat)
    requires |claims| == |runs| && Supported(claims) && turn < |runs|
    requires forall i :: 0 <= i < |runs| ==> Collects(runs[i])
    requires at.0 < |runs| && at.1 < |runs[at.0].transcript.commands|
    requires at.1 < |runs[at.0].transcript.commandSequences|
    requires e.turn == Some(at.0) && e.sequence == Some(runs[at.0].transcript.commandSequences[at.1])
    ensures TurnPasses(Turns(runs, claims)[turn], e, required) <==>
              Precedes(runs, at, turn) && ClaimsPass(claims[turn], e.document, required)
  {
    hide Collects, IsLastMessage, ClaimsPass, EvidenceAvailable;
    EvidencePrecedesAnswer(runs, at.0, at.1, turn);
    assert Records(runs)[at.0].sequences == runs[at.0].transcript.commandSequences;
    NullSupportsNothing(claims[turn], required);
  }

  /** Capture and grading in a row, as a live run does: with a document captured, the
      turns that do not fail are exactly those that make claims after the document's
      command, every one of which holds of the document. */
  method GradeConversation(
    runs: seq<TurnRun>, claims: seq<seq<Claim>>, rules: CaptureRules, parse: string -> Json,
    required: seq<seq<Step>>, optional: seq<seq<Step>>)
    returns (c: Capture, r: Option<Verdict>)
    requires |claims| == |runs| && Supported(claims)
    requires forall i :: 0 <= i < |runs| ==> Collects(runs[i])
    ensures var found := Qualifying(rules, Records(runs), |runs|);
            c.state == Captured <==>
              && |found| == 1 && CapturedFrom(c, Records(runs), found[0])
              && c.output.Some? && rules.decodes(c.output.value)
    ensures r.Some? && c.state == Captured && parse(c.output.value) != Null ==>
              var at := Qualifying(rules, Records(runs), |runs|)[0];
              && at.0 < |runs| && at.1 < |runs[at.0].transcript.commandSequences|
              && forall turn: nat :: turn < |runs| ==>
                   (turn !in r.value.failedTurns <==>
                      Precedes(runs, at, turn) && ClaimsPass(claims[turn], parse(c.output.value), required))
    ensures r.Some? && r.value.passed && c.state == Captured && parse(c.output.value) != Null ==>
              forall p :: p in required ==>
                Covered(Merged(Turns(runs, claims)), parse(c.output.value), required, p)
    ensures r.Some? && !(c.state == Captured && parse(c.output.value) != Null) ==>
              (r.value.passed <==> required == [] && Merged(Turns(runs, claims)) == [])
  {
    hide Collects, ClaimsPass, Covered, Precedes, FailedTurns, Selected, Cost, ClaimBudget.WithinBudget;
    hide Qualifying, Merged, MissingOf;
    c := CaptureRequiredDocument(Records(runs), rules);
    var evidence: Option<Evidence> := None;
    if c.state == Captured && parse(c.output.value) != Null {
      evidence := Some(Evidence(parse(c.output.value), c.turn, c.sequence));
    }
    ghost var work;
    r, work := GradeClaimsByTurn(Turns(runs, claims), evidence, required, optional);
    if r.Some? && evidence.Some? {
      var at := Qualifying(rules, Records(runs), |runs|)[0];
      CapturedOnWire(runs, c, at);
      FailedTurnsExactly(Turns(runs, claims), evidence.value, required, |runs|);
      forall turn: nat | turn < |runs|
        ensures turn !in r.value.failedTurns <==>
                Precedes(runs, at, turn) && ClaimsPass(claims[turn], parse(c.output.value), required)
      {
        PassesOnEvidence(runs, claims, required, evidence.value, at, turn);
      }
    }
  }

  /** Every recorded command has its wire position. */
  lemma CapturedOnWire(runs: seq<TurnRun>, c: Capture, at: (nat, nat))
    requires forall i :: 0 <= i < |runs| ==> Collects(runs[i])
    requires CapturedFrom(c, Records(runs), at)
    ensures at.0 < |runs| && at.1 < |runs[at.0].transcript.commands|
    ensures at.1 < |runs[at.0].transcript.commandSequences|
    ensures c.turn == Some(at.0) && c.sequence == Some(runs[at.0].transcript.commandSequences[at.1])
  {
    hide Collects;
    assert Collects(runs[at.0]);
    EvidencePrecedesAnswer(runs, at.0, at.1, at.0);
  }
}
