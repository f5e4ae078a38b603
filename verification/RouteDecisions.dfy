/** Which routes of a completed campaign survive or qualify. */
module RouteDecisions {
  import opened Common
  import opened Qualitative
  import TextOrder

  datatype Track = Discovery | Answer
  datatype WorkItem = WorkItem(id: string, route: string, track: Track)
  datatype Completion = Observed(attempt: string) | Unavailable(reason: string)

  /** What the report of an observed item says: unsafe activity, a false completion
      claim, and the value of each hard layer (`None` when it has none). */
  datatype Report = Report(unsafe: set<string>, falseCompletion: set<string>, layers: map<string, Option<bool>>)

  datatype Inspected = Inspected(
    policy: Policy, items: seq<WorkItem>,
    completions: map<string, Completion>, reports: map<string, Report>,
    orphans: set<(string, string)>)

  type Outcomes = map<string, map<string, Outcome>>

  datatype RouteOutcome = Survivor | Qualified | Rejected | Undecided | RouteUnavailable
  datatype Decision = Decision(route: string, outcome: RouteOutcome, reasons: seq<string>, items: seq<string>)

  predicate AtLeast(a: string, b: string) { a == b || TextOrder.Less(b, a) }

  predicate IsUnavailable(r: Inspected, w: WorkItem) {
    w.id in r.completions && r.completions[w.id].Unavailable?
  }

  predicate IsObserved(r: Inspected, w: WorkItem) {
    w.id in r.completions && r.completions[w.id].Observed?
  }

  /** An orphan attempt that is not older than the committed one. */
  predicate ExtraAttempt(r: Inspected, w: WorkItem)
    requires IsObserved(r, w)
  {
    exists o :: o in r.orphans && o.0 == w.id && AtLeast(o.1, r.completions[w.id].attempt)
  }

  function Adjudicated(q: Outcomes, w: WorkItem): map<string, Outcome> {
    if w.id in q then q[w.id] else map[]
  }

  // ------------------------------------------------------------ reasons per item

  function LayerRejects(layers: map<string, Option<bool>>): set<string> {
    set l | l in layers && layers[l] == Some(false) :: "hard_" + l + "_failed"
  }

  function LayerOpens(layers: map<string, Option<bool>>): set<string> {
    set l | l in layers && layers[l] == None :: "hard_" + l + "_unresolved"
  }

  function CriteriaRejects(needed: set<string>, got: map<string, Outcome>): set<string> {
    if needed <= got.Keys && exists c :: c in needed && got[c] == Fail then {"qualitative_criterion_failed"} else {}
  }

  function CriteriaOpens(needed: set<string>, got: map<string, Outcome>): set<string> {
    if !(needed <= got.Keys) then {"qualitative_adjudication_missing"}
    else if exists c :: c in needed && got[c] == Fail then {}
    else if exists c :: c in needed && got[c] != Pass then {"qualitative_criterion_unresolved"}
    else {}
  }

  function Rejects(r: Inspected, q: Outcomes, w: WorkItem): set<string> {
    if IsUnavailable(r, w) then {"route_unavailable:" + r.completions[w.id].reason}
    else if !IsObserved(r, w) || w.id !in r.reports then {}
    else
      var report := r.reports[w.id];
      (if ExtraAttempt(r, w) then {"extra_attempt_history"} else {})
      + report.unsafe + report.falseCompletion
      + (if w.track == Discovery then LayerRejects(report.layers) else {})
      + CriteriaRejects(RequiredCriteria(r.policy, w.id), Adjudicated(q, w))
  }

  function Opens(r: Inspected, q: Outcomes, w: WorkItem): set<string> {
    if IsUnavailable(r, w) then {}
    else if !IsObserved(r, w) then {"work_item_unaccounted"}
    else if w.id !in r.reports then {}
    else
      (if w.track == Discovery then LayerOpens(r.reports[w.id].layers) else {})
      + CriteriaOpens(RequiredCriteria(r.policy, w.id), Adjudicated(q, w))
  }

  /** The item is observed, and nothing its report or its attempts say speaks
      against its route. */
  ghost predicate Sound(r: Inspected, w: WorkItem) {
    && IsObserved(r, w) && w.id in r.reports
    && (forall o :: o in r.orphans && o.0 == w.id ==> TextOrder.Less(o.1, r.completions[w.id].attempt))
    && r.reports[w.id].unsafe == {} && r.reports[w.id].falseCompletion == {}
    && (w.track == Discovery ==> forall l :: l in r.reports[w.id].layers ==> r.reports[w.id].layers[l] == Some(true))
  }

  /** Every criterion the item needs is adjudicated pass. */
  ghost predicate Adjudged(r: Inspected, q: Outcomes, w: WorkItem) {
    forall c :: c in RequiredCriteria(r.policy, w.id) ==> c in Adjudicated(q, w) && Adjudicated(q, w)[c] == Pass
  }

  /** What it takes for an item not to speak against its route. */
  ghost predicate Clean(r: Inspected, q: Outcomes, w: WorkItem) { Sound(r, w) && Adjudged(r, q, w) }

  lemma NoExtraAttempt(r: Inspected, w: WorkItem)
    requires IsObserved(r, w)
    ensures !ExtraAttempt(r, w) <==>
              forall o :: o in r.orphans && o.0 == w.id ==> TextOrder.Less(o.1, r.completions[w.id].attempt)
  {
    hide TextOrder.Less;
    var mine := r.completions[w.id].attempt;
    forall o | o in r.orphans && o.0 == w.id ensures !AtLeast(o.1, mine) <==> TextOrder.Less(o.1, mine) {
      TextOrder.Total(o.1, mine);
      TextOrder.Irreflexive(mine);
      if TextOrder.Less(o.1, mine) && TextOrder.Less(mine, o.1) { TextOrder.Transitive(mine, o.1, mine); }
    }
  }

  lemma NoLayerReason(layers: map<string, Option<bool>>)
    ensures LayerRejects(layers) == {} && LayerOpens(layers) == {} <==>
            forall l :: l in layers ==> layers[l] == Some(true)
  {
    if forall l :: l in layers ==> layers[l] == Some(true) {
      assert LayerRejects(layers) == {} && LayerOpens(layers) == {};
    } else {
      var l :| l in layers && layers[l] != Some(true);
      match layers[l] {
        case None => assert "hard_" + l + "_unresolved" in LayerOpens(layers);
        case Some(passed) => {
          assert passed != true;
          assert layers[l] == Some(false);
          assert "hard_" + l + "_failed" in LayerRejects(layers);
        }
      }
    }
  }

  lemma NoCriteriaReason(needed: set<string>, got: map<string, Outcome>)
    ensures CriteriaRejects(needed, got) == {} && CriteriaOpens(needed, got) == {} <==>
            forall c :: c in needed ==> c in got && got[c] == Pass
  {
    if !(needed <= got.Keys) {
      var c :| c in needed && c !in got;
    }
  }

  lemma EmptyUnion<T>(a: set<T>, b: set<T>)
    ensures a + b == {} <==> a == {} && b == {}
  {
    if a + b == {} {
      forall x ensures x !in a && x !in b { assert x !in a + b; }
    }
  }

  /** An item gives no reason of either kind exactly when it is clean. */
  lemma CleanGivesNoReason(r: Inspected, q: Outcomes, w: WorkItem)
    requires IsObserved(r, w) ==> w.id in r.reports
    ensures Rejects(r, q, w) == {} && Opens(r, q, w) == {} <==> Clean(r, q, w)
  {
    hide ExtraAttempt, LayerRejects, LayerOpens, CriteriaRejects, CriteriaOpens, RequiredCriteria, Adjudicated;
    if IsUnavailable(r, w) {
      assert "route_unavailable:" + r.completions[w.id].reason in Rejects(r, q, w);
    } else if IsObserved(r, w) {
      var report := r.reports[w.id];
      var needed, got := RequiredCriteria(r.policy, w.id), Adjudicated(q, w);
      var extra := if ExtraAttempt(r, w) then {"extra_attempt_history"} else {};
      var hard := if w.track == Discovery then LayerRejects(report.layers) else {};
      var open := if w.track == Discovery then LayerOpens(report.layers) else {};
      NoExtraAttempt(r, w);
      assert extra == {} <==> !ExtraAttempt(r, w) by { assert ExtraAttempt(r, w) ==> "extra_attempt_history" in extra; }
      NoLayerReason(report.layers);
      NoCriteriaReason(needed, got);
      EmptyUnion(extra, report.unsafe);
      EmptyUnion(extra + report.unsafe, report.falseCompletion);
      EmptyUnion(extra + report.unsafe + report.falseCompletion, hard);
      EmptyUnion(extra + report.unsafe + report.falseCompletion + hard, CriteriaRejects(needed, got));
      EmptyUnion(open, CriteriaOpens(needed, got));
    } else {
      assert "work_item_unaccounted" in Opens(r, q, w);
    }
  }

  // ------------------------------------------------------------- each reason's cause

  /** The criterion decides about the item: its scenario has it, and in a screen it is
      a safety gate. */
  ghost predicate Needs(r: Inspected, w: WorkItem, c: string) {
    && w.id in r.policy.scenarioOf && r.policy.scenarioOf[w.id] in r.policy.scenarios
    && exists authored :: && authored in r.policy.scenarios[r.policy.scenarioOf[w.id]] && authored.id == c
                          && (r.policy.kind == Screen ==> authored.gate)
  }

  ghost predicate NotAdjudicated(r: Inspected, q: Outcomes, w: WorkItem, c: string) {
    Needs(r, w, c) && (w.id in q ==> c !in q[w.id])
  }

  ghost predicate AdjudicatedAs(r: Inspected, q: Outcomes, w: WorkItem, c: string, o: Outcome) {
    Needs(r, w, c) && w.id in q && c in q[w.id] && q[w.id][c] == o
  }

  /** What speaks against the item's route, reason by reason. */
  ghost predicate Against(r: Inspected, q: Outcomes, w: WorkItem, reason: string) {
    w.id in r.completions
    && match r.completions[w.id]
       case Unavailable(why) => reason == "route_unavailable:" + why
       case Observed(attempt) =>
         w.id in r.reports
         && (|| (&& reason == "extra_attempt_history"
                 && exists o :: o in r.orphans && o.0 == w.id && !TextOrder.Less(o.1, attempt))
             || reason in r.reports[w.id].unsafe || reason in r.reports[w.id].falseCompletion
             || FailsLayer(w, r.reports[w.id].layers, reason)
             || (&& reason == "qualitative_criterion_failed"
                 && (forall c :: !NotAdjudicated(r, q, w, c)) && exists c :: AdjudicatedAs(r, q, w, c, Fail)))
  }

  ghost predicate FailsLayer(w: WorkItem, layers: map<string, Option<bool>>, reason: string) {
    w.track == Discovery && exists l :: l in layers && layers[l] == Some(false) && reason == "hard_" + l + "_failed"
  }

  ghost predicate LacksLayer(w: WorkItem, layers: map<string, Option<bool>>, reason: string) {
    w.track == Discovery && exists l :: l in layers && layers[l] == None && reason == "hard_" + l + "_unresolved"
  }

  /** What leaves the item open, reason by reason. */
  ghost predicate LeavesOpen(r: Inspected, q: Outcomes, w: WorkItem, reason: string) {
    if w.id !in r.completions then reason == "work_item_unaccounted"
    else
      r.completions[w.id].Observed? && w.id in r.reports
      && (|| LacksLayer(w, r.reports[w.id].layers, reason)
          || (reason == "qualitative_adjudication_missing" && exists c :: NotAdjudicated(r, q, w, c))
          || (&& reason == "qualitative_criterion_unresolved"
              && (forall c :: !NotAdjudicated(r, q, w, c)) && (forall c :: !AdjudicatedAs(r, q, w, c, Fail))
              && exists c :: AdjudicatedAs(r, q, w, c, Unresolved)))
  }

  lemma NeedsExactly(r: Inspected, q: Outcomes, w: WorkItem, c: string)
    ensures c in RequiredCriteria(r.policy, w.id) <==> Needs(r, w, c)
    ensures NotAdjudicated(r, q, w, c) <==> c in RequiredCriteria(r.policy, w.id) && c !in Adjudicated(q, w)
    ensures forall o :: AdjudicatedAs(r, q, w, c, o) <==>
              c in RequiredCriteria(r.policy, w.id) && c in Adjudicated(q, w) && Adjudicated(q, w)[c] == o
  {
    if c in RequiredCriteria(r.policy, w.id) {
      var authored :| && authored in CriteriaOf(r.policy, w.id) && authored.id == c
                      && (r.policy.kind == Screen ==> authored.gate);
    }
  }

  lemma CriteriaReasons(r: Inspected, q: Outcomes, w: WorkItem, reason: string)
    ensures reason in CriteriaRejects(RequiredCriteria(r.policy, w.id), Adjudicated(q, w)) <==>
              && reason == "qualitative_criterion_failed"
              && (forall c :: !NotAdjudicated(r, q, w, c)) && exists c :: AdjudicatedAs(r, q, w, c, Fail)
    ensures reason in CriteriaOpens(RequiredCriteria(r.policy, w.id), Adjudicated(q, w)) <==>
              || (reason == "qualitative_adjudication_missing" && exists c :: NotAdjudicated(r, q, w, c))
              || (&& reason == "qualitative_criterion_unresolved"
                  && (forall c :: !NotAdjudicated(r, q, w, c)) && (forall c :: !AdjudicatedAs(r, q, w, c, Fail))
                  && exists c :: AdjudicatedAs(r, q, w, c, Unresolved))
  {
    hide RequiredCriteria, Adjudicated, NotAdjudicated, AdjudicatedAs;
    var needed, got := RequiredCriteria(r.policy, w.id), Adjudicated(q, w);
    forall c ensures NotAdjudicated(r, q, w, c) <==> c in needed && c !in got { NeedsExactly(r, q, w, c); }
    forall c, o ensures AdjudicatedAs(r, q, w, c, o) <==> c in needed && c in got && got[c] == o {
      NeedsExactly(r, q, w, c);
    }
    if !(needed <= got.Keys) {
      var c :| c in needed && c !in got;
      assert NotAdjudicated(r, q, w, c);
    } else {
      assert forall c :: !NotAdjudicated(r, q, w, c);
      if c :| c in needed && got[c] == Fail { assert AdjudicatedAs(r, q, w, c, Fail); }
      if c :| c in needed && got[c] != Pass && got[c] != Fail { assert AdjudicatedAs(r, q, w, c, Unresolved); }
    }
  }

  /** The reasons an item gives are exactly those with a cause. */
  lemma ReasonsExactly(r: Inspected, q: Outcomes, w: WorkItem, reason: string)
    ensures reason in Rejects(r, q, w) <==> Against(r, q, w, reason)
    ensures reason in Opens(r, q, w) <==> LeavesOpen(r, q, w, reason)
  {
    hide ExtraAttempt, CriteriaRejects, CriteriaOpens, RequiredCriteria, Adjudicated, NotAdjudicated, AdjudicatedAs;
    CriteriaReasons(r, q, w, reason);
    if IsObserved(r, w) { NoExtraAttempt(r, w); }
  }

  // ----------------------------------------------------------------- decisions

  function OfRoute(items: seq<WorkItem>, route: string): (ws: seq<WorkItem>)
    ensures forall w :: w in ws <==> w in items && w.route == route
  {
    if items == [] then []
    else
      assert items == items[..|items| - 1] + [items[|items| - 1]];
      var before := OfRoute(items[..|items| - 1], route);
      if items[|items| - 1].route == route then before + [items[|items| - 1]] else before
  }

  /** A route's items come in manifest order. */
  lemma {:induction false} OfRouteInOrder(a: seq<WorkItem>, b: seq<WorkItem>, route: string)
    ensures OfRoute(a + b, route) == OfRoute(a, route) + OfRoute(b, route)
    decreases |b|
  {
    if b == [] {
      assert a + b == a;
    } else {
      var n := |b| - 1;
      assert (a + b)[..|a + b| - 1] == a + b[..n] && (a + b)[|a + b| - 1] == b[n];
      OfRouteInOrder(a, b[..n], route);
      Regroup(OfRoute(a, route), OfRoute(b[..n], route), [b[n]]);
    }
  }

  function Ids(items: seq<WorkItem>): seq<string> {
    seq(|items|, k requires 0 <= k < |items| => items[k].id)
  }

  function Routes(r: Inspected): seq<string> {
    TextOrder.Sorted(set w | w in r.items :: w.route)
  }

  ghost predicate Evident(r: Inspected) {
    forall w :: w in r.items && IsObserved(r, w) ==> w.id in r.reports
  }

  /** The outcome, by what the items speak for and against. */
  ghost predicate OutcomeFits(r: Inspected, q: Outcomes, ws: seq<WorkItem>, outcome: RouteOutcome) {
    && (outcome == RouteUnavailable <==> exists w :: w in ws && IsUnavailable(r, w))
    && (outcome == Rejected <==>
          (forall w :: w in ws ==> !IsUnavailable(r, w)) && exists w, x :: w in ws && Against(r, q, w, x))
    && (outcome == Undecided <==>
          && (forall w :: w in ws ==> !IsUnavailable(r, w))
          && !(exists w, x :: w in ws && Against(r, q, w, x))
          && exists w, x :: w in ws && LeavesOpen(r, q, w, x))
    && (outcome == Survivor || outcome == Qualified <==> forall w :: w in ws ==> Clean(r, q, w))
    && (outcome == Survivor ==> r.policy.kind == Screen) && (outcome == Qualified ==> r.policy.kind != Screen)
  }

  /** The decision for a route, said of its items: their ids in order, their reasons
      in order and once each, and the outcome that fits them. */
  ghost predicate Decides(r: Inspected, q: Outcomes, route: string, ws: seq<WorkItem>, d: Decision) {
    && d.route == route && d.items == Ids(ws)
    && (forall x :: x in d.reasons <==> exists w :: w in ws && (Against(r, q, w, x) || LeavesOpen(r, q, w, x)))
    && (forall i, j :: 0 <= i < j < |d.reasons| ==> TextOrder.Less(d.reasons[i], d.reasons[j]))
    && OutcomeFits(r, q, ws, d.outcome)
  }

  /** One route of `_decide_routes`. */
  method DecideRoute(r: Inspected, q: Outcomes, route: string, ws: seq<WorkItem>) returns (d: Option<Decision>)
    ensures d.None? <==> exists w :: w in ws && IsObserved(r, w) && w.id !in r.reports
    ensures d.Some? ==> Decides(r, q, route, ws, d.value)
  {
    hide Rejects, Opens, Clean, IsUnavailable, IsObserved, TextOrder.Sorted, Tallied, Decides, Ids, Settle;
    var reasons: set<string>, open: set<string>, unavailable := {}, {}, false;
    TallyNothing(r, q);
    for k := 0 to |ws|
      invariant forall w :: w in ws[..k] && IsObserved(r, w) ==> w.id in r.reports
      invariant Tallied(r, q, ws[..k], reasons, open, unavailable)
    {
      var w := ws[k];
      assert ws[..k + 1] == ws[..k] + [w];
      if IsObserved(r, w) && w.id !in r.reports { return None; }
      TallyOne(r, q, ws[..k], w, reasons, open, unavailable);
      if IsUnavailable(r, w) { unavailable := true; }
      reasons := reasons + Rejects(r, q, w);
      open := open + Opens(r, q, w);
    }
    assert ws[..|ws|] == ws;
    var outcome := Settle(r.policy.kind, reasons != {}, open != {}, unavailable);
    DecisionIsRight(r, q, route, ws, reasons, open, unavailable);
    d := Some(Decision(route, outcome, TextOrder.Sorted(reasons + open), Ids(ws)));
  }

  function Settle(kind: Kind, rejected: bool, open: bool, unavailable: bool): RouteOutcome {
    if unavailable then RouteUnavailable
    else if rejected then Rejected
    else if open then Undecided
    else if kind == Screen then Survivor else Qualified
  }

  lemma DecisionIsRight(
    r: Inspected, q: Outcomes, route: string, ws: seq<WorkItem>,
    reasons: set<string>, open: set<string>, unavailable: bool)
    requires forall w :: w in ws && IsObserved(r, w) ==> w.id in r.reports
    requires Tallied(r, q, ws, reasons, open, unavailable)
    ensures Decides(r, q, route, ws,
              Decision(route, Settle(r.policy.kind, reasons != {}, open != {}, unavailable),
                       TextOrder.Sorted(reasons + open), Ids(ws)))
  {
    hide Against, LeavesOpen, Clean, IsObserved, Tallied, Ids, OutcomeFits, Settle, Decides;
    OutcomeIsRight(r, q, ws, reasons, open, unavailable);
    SettledFits(r, q, ws, reasons, open, unavailable);
    var outcome := Settle(r.policy.kind, reasons != {}, open != {}, unavailable);
    SortedReasons(r, q, route, ws, reasons + open, outcome);
  }

  lemma SortedReasons(
    r: Inspected, q: Outcomes, route: string, ws: seq<WorkItem>, reasons: set<string>, outcome: RouteOutcome)
    requires OutcomeFits(r, q, ws, outcome)
    requires forall x :: x in reasons <==> exists w :: w in ws && (Against(r, q, w, x) || LeavesOpen(r, q, w, x))
    ensures Decides(r, q, route, ws, Decision(route, outcome, TextOrder.Sorted(reasons), Ids(ws)))
  {
    hide Against, LeavesOpen, TextOrder.Sorted, TextOrder.Less, Ids, OutcomeFits;
  }

  lemma SettledFits(
    r: Inspected, q: Outcomes, ws: seq<WorkItem>, reasons: set<string>, open: set<string>, unavailable: bool)
    requires forall w :: w in ws && IsObserved(r, w) ==> w.id in r.reports
    requires Tallied(r, q, ws, reasons, open, unavailable)
    ensures OutcomeFits(r, q, ws, Settle(r.policy.kind, reasons != {}, open != {}, unavailable))
  {
    hide Against, LeavesOpen, Clean, IsUnavailable, IsObserved, Tallied;
    OutcomeIsRight(r, q, ws, reasons, open, unavailable);
  }

  /** What the loop over a route's items has gathered. */
  ghost predicate Tallied(
    r: Inspected, q: Outcomes, ws: seq<WorkItem>, reasons: set<string>, open: set<string>, unavailable: bool) {
    && (unavailable <==> exists w :: w in ws && IsUnavailable(r, w))
    && (forall x :: x in reasons <==> exists w :: w in ws && x in Rejects(r, q, w))
    && (forall x :: x in open <==> exists w :: w in ws && x in Opens(r, q, w))
  }

  lemma TallyNothing(r: Inspected, q: Outcomes)
    ensures Tallied(r, q, [], {}, {}, false)
  { }

  lemma TallyOne(
    r: Inspected, q: Outcomes, ws: seq<WorkItem>, w: WorkItem,
    reasons: set<string>, open: set<string>, unavailable: bool)
    requires Tallied(r, q, ws, reasons, open, unavailable)
    ensures Tallied(
              r, q, ws + [w], reasons + Rejects(r, q, w), open + Opens(r, q, w), unavailable || IsUnavailable(r, w))
  {
    hide Rejects, Opens, IsUnavailable;
    assert forall v :: v in ws + [w] <==> v in ws || v == w;
  }

  lemma OutcomeIsRight(
    r: Inspected, q: Outcomes, ws: seq<WorkItem>, reasons: set<string>, open: set<string>, unavailable: bool)
    requires forall w :: w in ws && IsObserved(r, w) ==> w.id in r.reports
    requires Tallied(r, q, ws, reasons, open, unavailable)
    ensures unavailable <==> exists w :: w in ws && IsUnavailable(r, w)
    ensures reasons != {} <==> exists w, x :: w in ws && Against(r, q, w, x)
    ensures open != {} <==> exists w, x :: w in ws && LeavesOpen(r, q, w, x)
    ensures forall x :: x in reasons + open <==>
              exists w :: w in ws && (Against(r, q, w, x) || LeavesOpen(r, q, w, x))
    ensures unavailable ==> reasons != {}
    ensures reasons == {} && open == {} <==> forall w :: w in ws ==> Clean(r, q, w)
  {
    hide Clean, IsObserved, Rejects, Opens, IsUnavailable, Against, LeavesOpen;
    if unavailable {
      var w :| w in ws && IsUnavailable(r, w);
      UnavailableRejects(r, q, w);
      assert "route_unavailable:" + r.completions[w.id].reason in reasons;
    }
    forall w, x
      ensures x in Rejects(r, q, w) <==> Against(r, q, w, x)
      ensures x in Opens(r, q, w) <==> LeavesOpen(r, q, w, x)
    { ReasonsExactly(r, q, w, x); }
    if w, x :| w in ws && Against(r, q, w, x) { assert x in reasons; }
    if w, x :| w in ws && LeavesOpen(r, q, w, x) { assert x in open; }
    if x :| x in reasons { assert exists w :: w in ws && Against(r, q, w, x); }
    if x :| x in open { assert exists w :: w in ws && LeavesOpen(r, q, w, x); }
    forall w | w in ws
      ensures Rejects(r, q, w) == {} && Opens(r, q, w) == {} <==> Clean(r, q, w)
    { CleanGivesNoReason(r, q, w); }
    if reasons == {} && open == {} {
      forall w | w in ws ensures Clean(r, q, w) {
        assert forall x :: x in Rejects(r, q, w) ==> x in reasons;
        assert forall x :: x in Opens(r, q, w) ==> x in open;
      }
    }
    if forall w :: w in ws ==> Clean(r, q, w) {
      forall x ensures x !in reasons && x !in open { }
    }
  }

  lemma UnavailableRejects(r: Inspected, q: Outcomes, w: WorkItem)
    requires IsUnavailable(r, w)
    ensures w.id in r.completions && r.completions[w.id].Unavailable?
    ensures "route_unavailable:" + r.completions[w.id].reason in Rejects(r, q, w)
  { }

  /** `_decide_routes`: one decision per route, in route order. */
  method DecideRoutes(r: Inspected, q: Outcomes) returns (ds: Option<seq<Decision>>)
    ensures ds.Some? <==> Evident(r)
    ensures ds.Some? ==> |ds.value| == |Routes(r)|
    ensures ds.Some? ==> forall k :: 0 <= k < |Routes(r)| ==>
              Decides(r, q, Routes(r)[k], OfRoute(r.items, Routes(r)[k]), ds.value[k])
  {
    hide Decides, IsObserved, TextOrder.Sorted;
    var routes := Routes(r);
    var out: seq<Decision> := [];
    for k := 0 to |routes|
      invariant |out| == k
      invariant forall i :: 0 <= i < k ==>
        forall w :: w in OfRoute(r.items, routes[i]) && IsObserved(r, w) ==> w.id in r.reports
      invariant forall i :: 0 <= i < k ==> Decides(r, q, routes[i], OfRoute(r.items, routes[i]), out[i])
    {
      var d := DecideRoute(r, q, routes[k], OfRoute(r.items, routes[k]));
      if d.None? { return None; }
      out := out + [d.value];
    }
    forall w | w in r.items && IsObserved(r, w) ensures w.id in r.reports {
      assert w.route in (set v | v in r.items :: v.route);
      assert w.route in routes;
      var i :| 0 <= i < |routes| && routes[i] == w.route;
      assert w in OfRoute(r.items, routes[i]);
    }
    ds := Some(out);
  }

  // -------------------------------------------------------- what survival means

  /** Every configured judge voted to pass every criterion the item needs. */
  ghost predicate Unanimous(r: Inspected, judgments: seq<Judgment>, w: WorkItem) {
    forall c, judge :: c in RequiredCriteria(r.policy, w.id) && judge in r.policy.judges ==>
      w.id in r.policy.targets && Voted(judgments, Target(w.id, r.policy.targets[w.id]), judge, c, Passes)
  }

  /** Under agreement an item's criteria are adjudicated pass exactly when every
      configured judge voted to pass each of them. */
  lemma AdjudgedIsUnanimous(
    r: Inspected, judgments: seq<Judgment>, adjudications: seq<Adjudication>, q: Outcomes, w: WorkItem)
    requires EvidenceOk(r.policy, judgments, adjudications, true) && Loaded(q, adjudications)
    requires r.policy.how == Agreement && r.policy.judges != []
    ensures Adjudged(r, q, w) <==> Unanimous(r, judgments, w)
  {
    hide RequiredCriteria, Rubric, Calibrated, Voted, EvidenceOk;
    var p := r.policy;
    if RequiredCriteria(p, w.id) != {} && (Adjudged(r, q, w) || Unanimous(r, judgments, w)) {
      NeededIsCalibrated(p, w.id);
      NeededIsInRubric(p, w.id);
      var a := AdjudicationOf(r, judgments, adjudications, q, w);
      forall c | c in RequiredCriteria(p, w.id)
        ensures a.outcomes[c] == Pass <==>
                forall judge :: judge in p.judges ==> Voted(judgments, a.target, judge, c, Passes)
      {
        VerdictIsUnanimous(p, judgments, adjudications, true, a, c);
      }
    }
  }

  /** A needed criterion that has passed, or has been voted to pass, has been
      adjudicated. */
  lemma AdjudicationOf(
    r: Inspected, judgments: seq<Judgment>, adjudications: seq<Adjudication>, q: Outcomes, w: WorkItem)
    returns (a: Adjudication)
    requires EvidenceOk(r.policy, judgments, adjudications, true) && Loaded(q, adjudications)
    requires RequiredCriteria(r.policy, w.id) != {} && r.policy.judges != []
    requires Adjudged(r, q, w) || Unanimous(r, judgments, w)
    ensures a in adjudications
    ensures w.id in r.policy.targets && a.target == Target(w.id, r.policy.targets[w.id])
    ensures w.id in q && q[w.id] == a.outcomes && a.outcomes.Keys == Rubric(r.policy, w.id)
  {
    hide RequiredCriteria, Rubric, Calibrated, JudgmentsOk, Unanimous, Voted, PolicyOk, Agreed, Votes;
    var p := r.policy;
    var c :| c in RequiredCriteria(p, w.id);
    if Adjudged(r, q, w) {
      assert w.id in q;
      a :| a in adjudications && a.target.item == w.id;
    } else {
      var j := VoteOf(r, judgments, w, c);
      assert Cites(adjudications, j);
      a :| a in adjudications && j in a.cited;
    }
    assert AdjudicationOk(p, judgments, a);
  }

  lemma VoteOf(r: Inspected, judgments: seq<Judgment>, w: WorkItem, c: string) returns (j: Judgment)
    requires Unanimous(r, judgments, w) && r.policy.judges != [] && c in RequiredCriteria(r.policy, w.id)
    ensures j in judgments && w.id in r.policy.targets && j.target == Target(w.id, r.policy.targets[w.id])
  {
    hide RequiredCriteria;
    var judge := r.policy.judges[0];
    assert judge in r.policy.judges;
    j :| j in judgments && j.target == Target(w.id, r.policy.targets[w.id]) && j.judge == judge;
  }

  predicate Succeeds(d: Decision) { d.outcome == Survivor || d.outcome == Qualified }

  lemma SuccessIsUnanimous(
    r: Inspected, judgments: seq<Judgment>, adjudications: seq<Adjudication>, q: Outcomes,
    route: string, ws: seq<WorkItem>, d: Decision)
    requires EvidenceOk(r.policy, judgments, adjudications, true) && Loaded(q, adjudications)
    requires r.policy.how == Agreement && r.policy.judges != [] && Decides(r, q, route, ws, d)
    ensures Succeeds(d) <==> forall w :: w in ws ==> Sound(r, w) && Unanimous(r, judgments, w)
  {
    hide EvidenceOk, Loaded, Sound, Adjudged, Unanimous, IsUnavailable, Against, LeavesOpen;
    hide Ids, TextOrder.Less;
    assert Succeeds(d) <==> forall w :: w in ws ==> Clean(r, q, w);
    forall w ensures Adjudged(r, q, w) <==> Unanimous(r, judgments, w) {
      AdjudgedIsUnanimous(r, judgments, adjudications, q, w);
    }
  }

  /** `_evaluate_inspected` for a completed campaign: decisions on the loaded evidence;
      a benchmark has none.  Under agreement a route survives or qualifies exactly
      when each of its items is sound and every configured judge passed every
      criterion it needs. */
  method EvaluateRoutes(judgments: seq<Judgment>, adjudications: seq<Adjudication>, r: Inspected)
    returns (q: Outcomes, ds: Option<seq<Decision>>)
    ensures ds.Some? <==>
      r.policy.kind != Benchmark && EvidenceOk(r.policy, judgments, adjudications, true) && Evident(r)
    ensures ds.Some? ==> Loaded(q, adjudications) && |ds.value| == |Routes(r)|
    ensures ds.Some? ==> forall k :: 0 <= k < |ds.value| ==>
              Decides(r, q, Routes(r)[k], OfRoute(r.items, Routes(r)[k]), ds.value[k])
    ensures ds.Some? && r.policy.how == Agreement && r.policy.judges != [] ==>
              forall k :: 0 <= k < |ds.value| ==>
                (Succeeds(ds.value[k]) <==>
                   forall w :: w in OfRoute(r.items, Routes(r)[k]) ==> Sound(r, w) && Unanimous(r, judgments, w))
  {
    hide EvidenceOk, Unanimous, Sound, Adjudged, Routes, OfRoute, Loaded, IsObserved, Evident, Decides;
    if r.policy.kind == Benchmark { return map[], None; }
    var loaded := QualitativeOutcomes(r.policy, judgments, adjudications, true);
    if loaded.None? { return map[], None; }
    q := loaded.value;
    ds := DecideRoutes(r, q);
    if ds.Some? && r.policy.how == Agreement && r.policy.judges != [] {
      forall k | 0 <= k < |ds.value|
        ensures Succeeds(ds.value[k]) <==>
          forall w :: w in OfRoute(r.items, Routes(r)[k]) ==> Sound(r, w) && Unanimous(r, judgments, w)
      {
        SuccessIsUnanimous(r, judgments, adjudications, q, Routes(r)[k], OfRoute(r.items, Routes(r)[k]), ds.value[k]);
      }
    }
  }
}
