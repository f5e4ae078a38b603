/** A whole conversation: the route carried from turn to turn, what a confirmed
    route implies, and which turns may be graded against a captured document. */
module Conversation {
  import opened Common
  import opened Protocol
  import opened TurnCollector
  import opened TurnLedger

  /** One collected turn: where it started from, what it consumed, its transcript. */
  datatype TurnRun = TurnRun(
    scope: Scope, model: Option<string>, effort: Option<string>, msgs: seq<Message>, transcript: Transcript)

  ghost predicate Collects(run: TurnRun) {
    After(run.scope, NewCollector(run.model, run.effort), run.msgs) == Done(run.transcript)
  }

  // ------------------------------------------------------------ route carry-over

  /** Settings confirmed in a turn carry over to the next one.  A reroute alone
      does not: the next turn starts from the last confirmed settings. */
  function Carried(ts: seq<Transcript>, start: (Option<string>, Option<string>)): (Option<string>, Option<string>) {
    if ts == [] then start
    else
      var last := ts[|ts| - 1];
      if last.confirmed.Some? then (Some(last.confirmed.value.0), last.confirmed.value.1)
      else Carried(ts[..|ts| - 1], start)
  }

  function Transcripts(runs: seq<TurnRun>): (ts: seq<Transcript>)
    ensures |ts| == |runs|
    ensures forall k :: 0 <= k < |runs| ==> ts[k] == runs[k].transcript
  {
    seq(|runs|, k requires 0 <= k < |runs| => runs[k].transcript)
  }

  /** Turn `k` starts from what the turns before it confirmed. */
  ghost predicate CarriedOver(runs: seq<TurnRun>, start: (Option<string>, Option<string>), k: nat)
    requires k < |runs|
  {
    (runs[k].model, runs[k].effort) == Carried(Transcripts(runs[..k]), start)
  }

  function ThreadRoute(
    threadModel: string, threadEffort: Option<string>, requestedEffort: Option<string>
  ): (Option<string>, Option<string>) {
    (Some(threadModel), if requestedEffort.None? then threadEffort else None)
  }

  lemma CarriedNothing(start: (Option<string>, Option<string>))
    ensures Carried(Transcripts([]), start) == start
  {
  }

  lemma CarriedSnoc(runs: seq<TurnRun>, run: TurnRun, start: (Option<string>, Option<string>))
    ensures var all, t := runs + [run], run.transcript;
            && (forall j :: 0 <= j < |runs| && CarriedOver(runs, start, j) ==> CarriedOver(all, start, j))
            && ((run.model, run.effort) == Carried(Transcripts(runs), start) ==> CarriedOver(all, start, |runs|))
            && Carried(Transcripts(all), start)
               == if t.confirmed.Some? then (Some(t.confirmed.value.0), t.confirmed.value.1)
                  else Carried(Transcripts(runs), start)
  {
    var all := runs + [run];
    assert all[..|runs|] == runs;
    assert forall j :: 0 <= j < |runs| ==> all[..j] == runs[..j];
    assert Transcripts(all)[..|runs|] == Transcripts(runs);
  }

  /** Collecting raises at some message, or the messages run out first. */
  ghost predicate Breaks(sc: Scope, model: Option<string>, effort: Option<string>, feed: seq<Message>) {
    || (exists n :: 0 < n <= |feed| && After(sc, NewCollector(model, effort), feed[..n]) == Raised)
    || After(sc, NewCollector(model, effort), feed).Next?
  }

  /** The turn loop of `_converse`: `feeds[k]` is what the session delivers from
      the k-th `turn/start` on. */
  method Converse(
    thread: string, threadModel: string, threadEffort: Option<string>, requestedEffort: Option<string>,
    turns: seq<string>, feeds: seq<seq<Message>>)
    returns (ok: bool, runs: seq<TurnRun>)
    requires |turns| == |feeds|
    ensures |runs| <= |turns| && (ok <==> |runs| == |turns|)
    ensures runs != [] ==>
              && runs[0].model == Some(threadModel)
              && runs[0].effort == (if requestedEffort.None? then threadEffort else None)
    ensures !ok ==>
              var start := ThreadRoute(threadModel, threadEffort, requestedEffort);
              var (model, effort) := Carried(Transcripts(runs), start);
              Breaks(Scope(thread, turns[|runs|]), model, effort, feeds[|runs|])
    ensures forall k :: 0 <= k < |runs| ==>
      && Collects(runs[k])
      && runs[k].scope == Scope(thread, turns[k])
      && runs[k].msgs <= feeds[k]
      && CarriedOver(runs, ThreadRoute(threadModel, threadEffort, requestedEffort), k)
  {
    hide After, NewCollector, Carried, Transcripts;
    var start := ThreadRoute(threadModel, threadEffort, requestedEffort);
    var (model, effort) := start;
    runs, ok := [], true;
    CarriedNothing(start);
    for k := 0 to |turns|
      invariant |runs| == k
      invariant (model, effort) == Carried(Transcripts(runs), start)
      invariant if runs == [] then (model, effort) == start else (runs[0].model, runs[0].effort) == start
      invariant forall j :: 0 <= j < k ==>
        && Collects(runs[j]) && runs[j].scope == Scope(thread, turns[j]) && runs[j].msgs <= feeds[j]
        && CarriedOver(runs, start, j)
    {
      var r := CollectTurn(Scope(thread, turns[k]), model, effort, feeds[k]);
      if !r.Returned? { return false, runs; }
      var run := TurnRun(Scope(thread, turns[k]), model, effort, feeds[k][..r.consumed], r.transcript);
      CarriedSnoc(runs, run, start);
      runs := runs + [run];
      if r.transcript.confirmed.Some? {
        model, effort := Some(r.transcript.confirmed.value.0), r.transcript.confirmed.value.1;
      }
    }
  }

  // ---------------------------------------------------------- confirmed routes

  function ObservedModelRoute(t: Transcript): seq<string> {
    if t.observedModels != [] then t.observedModels else Singleton(t.effectiveModel)
  }

  function ObservedEffortRoute(t: Transcript): seq<Option<string>> {
    if t.observedEfforts != [] then t.observedEfforts else SingletonEffort(t.effectiveEffort)
  }

  predicate TurnConfirms(t: Transcript, model: Option<string>, effort: Option<string>) {
    && (model.None? || (&& model.value in t.preActivityModels
                        && ObservedModelRoute(t) != []
                        && forall m :: m in ObservedModelRoute(t) ==> m == model.value))
    && (effort.None? || (&& effort in t.preActivityEfforts
                         && ObservedEffortRoute(t) != []
                         && forall e :: e in ObservedEffortRoute(t) ==> e == effort))
  }

  predicate RouteConfirmed(ts: seq<Transcript>, model: Option<string>, effort: Option<string>) {
    ts != [] && forall t :: t in ts ==> TurnConfirms(t, model, effort)
  }

  /** Histories only grow, and after activity the pre-activity one is frozen. */
  lemma {:induction false} RoutePersists(
    sc: Scope, model: Option<string>, effort: Option<string>, msgs: seq<Message>, i: nat)
    requires i <= |msgs| && After(sc, NewCollector(model, effort), msgs).Next?
    ensures After(sc, NewCollector(model, effort), msgs[..i]).Next?
    ensures var r, c := RouteOf(After(sc, NewCollector(model, effort), msgs[..i]).state.t),
                        After(sc, NewCollector(model, effort), msgs).state;
            && r.models <= c.t.observedModels && r.efforts <= c.t.observedEfforts
            && (After(sc, NewCollector(model, effort), msgs[..i]).state.activity ==>
                  c.activity && r.preModels == c.t.preActivityModels && r.preEfforts == c.t.preActivityEfforts)
  {
    if i == |msgs| {
      assert msgs[..i] == msgs;
    } else {
      var n := |msgs| - 1;
      assert msgs[..n][..i] == msgs[..i];
      RoutePersists(sc, model, effort, msgs[..n], i);
      var c := After(sc, NewCollector(model, effort), msgs[..n]).state;
      var d := After(sc, NewCollector(model, effort), msgs).state;
      RunKeeps(sc, model, effort, msgs[..n]);
      StepRouteMoves(sc, c, msgs[n]);
      KeepsRoute(sc, msgs[n], RouteOf(c.t), RouteOf(d.t), c.activity, d.activity);
    }
  }

  /** Message `i` is handled during activity: an item was accepted before it, or
      it is itself the first accepted `item/started`. */
  ghost predicate ActiveAt(run: TurnRun, i: nat)
    requires i < |run.msgs|
  {
    var before := After(run.scope, NewCollector(run.model, run.effort), run.msgs[..i]);
    && before.Next?
    && (before.state.activity
        || (Step(run.scope, before.state, run.msgs[i]).Next?
            && Step(run.scope, before.state, run.msgs[i]).state.activity))
  }

  /** What the state before message `i` shares with the finished transcript. */
  ghost predicate SharesHistory(c: Collector, t: Transcript) {
    && RouteInvariant(RouteOf(c.t), c.activity)
    && c.t.preActivityModels == t.preActivityModels
    && c.t.preActivityEfforts == t.preActivityEfforts
    && c.t.observedModels <= t.observedModels
    && c.t.observedEfforts <= t.observedEfforts
  }

  lemma BeforeLast(run: TurnRun, i: nat)
    requires Collects(run) && i < |run.msgs|
    requires After(run.scope, NewCollector(run.model, run.effort), run.msgs[..i]).Next?
    ensures var c := After(run.scope, NewCollector(run.model, run.effort), run.msgs[..i]).state;
            && RouteInvariant(RouteOf(c.t), c.activity)
            && c.t.observedModels <= run.transcript.observedModels
            && c.t.observedEfforts <= run.transcript.observedEfforts
            && (c.activity ==> SharesHistory(c, run.transcript))
  {
    hide After, Step, NewCollector, OnWire, Balanced, Caused;
    var n := |run.msgs| - 1;
    var last := LastStep(run.scope, run.model, run.effort, run.msgs);
    assert RouteOf(run.transcript) == RouteOf(last.t);
    RunKeeps(run.scope, run.model, run.effort, run.msgs[..i]);
    assert run.msgs[..n][..i] == run.msgs[..i];
    RoutePersists(run.scope, run.model, run.effort, run.msgs[..n], i);
  }

  lemma AfterSnoc(sc: Scope, c0: Collector, msgs: seq<Message>, i: nat)
    requires i < |msgs| && After(sc, c0, msgs[..i]).Next?
    ensures After(sc, c0, msgs[..i + 1]) == Step(sc, After(sc, c0, msgs[..i]).state, msgs[i])
  {
    assert msgs[..i + 1][..i] == msgs[..i];
  }

  /** The pre-activity history seen by an active message is the final one. */
  lemma ActiveHistory(run: TurnRun, i: nat)
    requires Collects(run) && i < |run.msgs| && ActiveAt(run, i)
    ensures SharesHistory(After(run.scope, NewCollector(run.model, run.effort), run.msgs[..i]).state, run.transcript)
  {
    hide After, Step, NewCollector;
    var c := After(run.scope, NewCollector(run.model, run.effort), run.msgs[..i]).state;
    BeforeLast(run, i);
    if !c.activity {
      AfterSnoc(run.scope, NewCollector(run.model, run.effort), run.msgs, i);
      StepRouteMoves(run.scope, c, run.msgs[i]);
      assert run.msgs[..|run.msgs|] == run.msgs;
      BeforeLast(run, i + 1);
      assert RouteOf(After(run.scope, NewCollector(run.model, run.effort), run.msgs[..i + 1]).state.t) == RouteOf(c.t);
    }
  }

  /** A confirmed pinned route: in every turn, from the first accepted item on,
      the effective model and effort are the requested ones. */
  lemma ConfirmedRouteIsEffective(
    runs: seq<TurnRun>, model: Option<string>, effort: Option<string>, k: nat, i: nat)
    requires forall j :: 0 <= j < |runs| ==> Collects(runs[j])
    requires RouteConfirmed(Transcripts(runs), model, effort)
    requires k < |runs| && i < |runs[k].msgs| && ActiveAt(runs[k], i)
    ensures var t := After(runs[k].scope, NewCollector(runs[k].model, runs[k].effort), runs[k].msgs[..i]).state.t;
            && (model.Some? ==> t.effectiveModel == model)
            && (effort.Some? ==> t.effectiveEffort == effort)
  {
    hide After, Step, NewCollector;
    var run := runs[k];
    assert Transcripts(runs)[k] in Transcripts(runs);
    assert TurnConfirms(run.transcript, model, effort);
    ActiveHistory(run, i);
    var t := After(run.scope, NewCollector(run.model, run.effort), run.msgs[..i]).state.t;
    if model.Some? {
      assert t.observedModels != [];
      assert t.observedModels[|t.observedModels| - 1] in run.transcript.observedModels;
    }
    if effort.Some? {
      assert t.observedEfforts != [];
      assert t.observedEfforts[|t.observedEfforts| - 1] in run.transcript.observedEfforts;
    }
  }

  // ------------------------------------------------------------ captured evidence

  datatype TurnRecord = TurnRecord(
    index: nat, results: seq<CommandRecord>, sequences: seq<nat>, finalSequence: Option<nat>)

  function RecordOf(index: nat, t: Transcript): TurnRecord {
    TurnRecord(index, t.commands, t.commandSequences,
               if t.messages == [] || |t.messages| != |t.messageSequences| then None
               else LastOf(t.messageSequences))
  }

  function Records(runs: seq<TurnRun>): (rs: seq<TurnRecord>)
    ensures |rs| == |runs|
  {
    seq(|runs|, k requires 0 <= k < |runs| => RecordOf(k, runs[k].transcript))
  }

  predicate Successful(exitZero: Field -> bool, r: CommandRecord) {
    exitZero(r.exitCode) && r.status.Completed?
  }

  /** Whether a command satisfies the requirement, passes the capture policy,
      exits with zero, and whether its output decodes, are given. */
  datatype CaptureRules = CaptureRules(
    satisfies: string -> bool, passesPolicy: string -> bool, exitZero: Field -> bool, decodes: string -> bool)

  predicate Qualifies(rules: CaptureRules, r: CommandRecord) {
    Successful(rules.exitZero, r) && rules.satisfies(r.command) && rules.passesPolicy(r.command)
  }

  datatype CaptureState = CommandMissing | CommandFailed | MultipleCandidates | OutputAbsent | InvalidJson | Captured

  datatype Capture = Capture(
    state: CaptureState, matching: nat, candidates: nat,
    turn: Option<nat>, sequence: Option<nat>, output: Option<string>)

  /** The qualifying results among the first `n` of turn `k`, as positions. */
  function QualifyingIn(rules: CaptureRules, turn: TurnRecord, k: nat, n: nat): seq<(nat, nat)>
    requires n <= |turn.results|
  {
    if n == 0 then []
    else QualifyingIn(rules, turn, k, n - 1) + if Qualifies(rules, turn.results[n - 1]) then [(k, n - 1)] else []
  }

  function Qualifying(rules: CaptureRules, turns: seq<TurnRecord>, n: nat): seq<(nat, nat)>
    requires n <= |turns|
  {
    if n == 0 then []
    else Qualifying(rules, turns, n - 1) + QualifyingIn(rules, turns[n - 1], n - 1, |turns[n - 1].results|)
  }

  /** How many results, successful or not, ran the required command. */
  function MatchingIn(rules: CaptureRules, turn: TurnRecord, n: nat): nat
    requires n <= |turn.results|
  {
    if n == 0 then 0 else MatchingIn(rules, turn, n - 1) + if rules.satisfies(turn.results[n - 1].command) then 1 else 0
  }

  function Matching(rules: CaptureRules, turns: seq<TurnRecord>, n: nat): nat
    requires n <= |turns|
  {
    if n == 0 then 0 else Matching(rules, turns, n - 1) + MatchingIn(rules, turns[n - 1], |turns[n - 1].results|)
  }

  lemma {:induction false} QualifyingInMembers(rules: CaptureRules, turn: TurnRecord, k: nat, n: nat)
    requires n <= |turn.results|
    ensures forall a, b :: (a, b) in QualifyingIn(rules, turn, k, n)
              <==> a == k && 0 <= b < n && Qualifies(rules, turn.results[b])
    ensures MatchingIn(rules, turn, n) > 0 <==> exists b :: 0 <= b < n && rules.satisfies(turn.results[b].command)
  {
    if n > 0 { QualifyingInMembers(rules, turn, k, n - 1); }
  }

  /** The candidates are exactly the successful results that ran the required command
      under the policy; some result matched exactly when one ran that command. */
  lemma {:induction false} QualifyingMembers(rules: CaptureRules, turns: seq<TurnRecord>, n: nat)
    requires n <= |turns|
    ensures forall a, b :: (a, b) in Qualifying(rules, turns, n)
              <==> && 0 <= a < n && 0 <= b < |turns[a].results|
                   && rules.exitZero(turns[a].results[b].exitCode) && turns[a].results[b].status == Completed
                   && rules.satisfies(turns[a].results[b].command)
                   && rules.passesPolicy(turns[a].results[b].command)
    ensures Matching(rules, turns, n) > 0 <==>
              exists a, b :: 0 <= a < n && 0 <= b < |turns[a].results| && rules.satisfies(turns[a].results[b].command)
  {
    if n > 0 {
      QualifyingMembers(rules, turns, n - 1);
      QualifyingInMembers(rules, turns[n - 1], n - 1, |turns[n - 1].results|);
    }
  }

  ghost predicate CapturedFrom(c: Capture, turns: seq<TurnRecord>, at: (nat, nat)) {
    && at.0 < |turns| && at.1 < |turns[at.0].results|
    && c.turn == Some(at.0)
    && c.output == turns[at.0].results[at.1].output
    && c.sequence == (if at.1 < |turns[at.0].sequences| then Some(turns[at.0].sequences[at.1]) else None)
  }

  /** `_capture_required_document`: captures only from the single qualifying
      command of the whole conversation. */
  method CaptureRequiredDocument(turns: seq<TurnRecord>, rules: CaptureRules) returns (c: Capture)
    requires forall k :: 0 <= k < |turns| ==> turns[k].index == k
    ensures var found := Qualifying(rules, turns, |turns|);
            && c.candidates == |found| && c.matching == Matching(rules, turns, |turns|)
            && (if |found| == 1 then CapturedFrom(c, turns, found[0]) else c.turn.None? && c.output.None?)
    ensures c.state == if c.candidates == 0 then (if c.matching > 0 then CommandFailed else CommandMissing)
                       else if c.candidates > 1 then MultipleCandidates
                       else if c.output.None? then OutputAbsent
                       else if rules.decodes(c.output.value) then Captured else InvalidJson
  {
    var found: seq<(nat, nat)> := [];
    var matching := 0;
    for k := 0 to |turns|
      invariant found == Qualifying(rules, turns, k) && matching == Matching(rules, turns, k)
    {
      ghost var before, count := found, matching;
      for j := 0 to |turns[k].results|
        invariant found == before + QualifyingIn(rules, turns[k], k, j)
        invariant matching == count + MatchingIn(rules, turns[k], j)
      {
        var r := turns[k].results[j];
        if rules.satisfies(r.command) {
          matching := matching + 1;
        }
        if Qualifies(rules, r) {
          found := found + [(k, j)];
        }
      }
    }
    QualifyingMembers(rules, turns, |turns|);
    if found == [] {
      return Capture(if matching > 0 then CommandFailed else CommandMissing, matching, 0, None, None, None);
    }
    if |found| != 1 {
      return Capture(MultipleCandidates, matching, |found|, None, None, None);
    }
    var (k, j) := found[0];
    assert (k, j) in found;
    var output := turns[k].results[j].output;
    var sequence := if j < |turns[k].sequences| then Some(turns[k].sequences[j]) else None;
    var state := if output.None? then OutputAbsent
                 else if rules.decodes(output.value) then Captured else InvalidJson;
    c := Capture(state, matching, 1, Some(turns[k].index), sequence, output);
  }

  /** `evidence_available` in `_grade_claims_by_turn`.  The sequence -1 stands for
      a document that was there before the conversation. */
  predicate EvidenceAvailable(turn: TurnRecord, capturedTurn: Option<nat>, capturedSequence: Option<int>) {
    && capturedTurn.Some?
    && (|| turn.index > capturedTurn.value
        || (turn.index == capturedTurn.value
            && (capturedSequence == Some(-1)
                || (capturedSequence.Some? && turn.finalSequence.Some?
                    && capturedSequence.value < turn.finalSequence.value))))
  }

  ghost predicate IsLastMessage(t: Transcript, q: nat) {
    && q < |t.events| && IS_MESSAGE_COMPLETION(t.events[q])
    && forall r :: q < r < |t.events| ==> !IS_MESSAGE_COMPLETION(t.events[r])
  }

  lemma LastPosition(t: Transcript, q: nat)
    ensures LastOf(Positions(t.events, IS_MESSAGE_COMPLETION)) == Some(q) <==> IsLastMessage(t, q)
  {
    var ps := Positions(t.events, IS_MESSAGE_COMPLETION);
    PositionsExact(t.events, IS_MESSAGE_COMPLETION);
    if LastOf(ps) == Some(q) {
      assert q in ps;
      assert forall a :: 0 <= a < |ps| ==> ps[a] <= q;
      forall r | q < r < |t.events| ensures !IS_MESSAGE_COMPLETION(t.events[r]) {
        assert r !in ps;
      }
    }
    if IsLastMessage(t, q) {
      assert q in ps;
      assert ps[|ps| - 1] in ps;
    }
  }

  lemma LastMessagePosition(run: TurnRun, q: nat)
    requires Collects(run)
    ensures RecordOf(0, run.transcript).finalSequence == Some(q) <==> IsLastMessage(run.transcript, q)
  {
    hide After, Step, NewCollector;
    SequencesAreWirePositions(run.scope, run.model, run.effort, run.msgs);
    LastPosition(run.transcript, q);
  }

  /** A turn's claims are graded against the captured document exactly when the
      document's command completed in an earlier turn, or completed on the wire
      strictly before the same turn's last agent message. */
  lemma EvidencePrecedesAnswer(runs: seq<TurnRun>, k: nat, j: nat, turn: nat)
    requires forall i :: 0 <= i < |runs| ==> Collects(runs[i])
    requires k < |runs| && turn < |runs| && j < |runs[k].transcript.commands|
    ensures j < |Records(runs)[k].sequences|
    ensures var p := Records(runs)[k].sequences[j];
            && p < |runs[k].msgs|
            && runs[k].msgs[p].Notification? && runs[k].msgs[p].topic == ItemCompletedMethod
            && runs[k].msgs[p].params.item.kind == Typed(CommandExecution)
            && runs[k].msgs[p].params.item.command == Text(runs[k].transcript.commands[j].command)
            && (EvidenceAvailable(Records(runs)[turn], Some(k), Some(p)) <==>
                  k < turn || (k == turn && exists q :: p < q && IsLastMessage(runs[k].transcript, q)))
    ensures forall q: nat :: IsLastMessage(runs[k].transcript, q) ==>
              q < |runs[k].msgs| && runs[k].msgs[q].Notification?
              && runs[k].msgs[q].topic == ItemCompletedMethod
              && runs[k].msgs[q].params.item.kind == Typed(AgentMessage)
  {
    hide After, Step, NewCollector;
    var run := runs[k];
    SequencesAreWirePositions(run.scope, run.model, run.effort, run.msgs);
    PositionsExact(run.transcript.events, IS_COMMAND_COMPLETION);
    var p := run.transcript.commandSequences[j];
    assert p in run.transcript.commandSequences;
    assert Caused(run.msgs[p], run.transcript.events[p]);
    forall q: nat ensures RecordOf(0, run.transcript).finalSequence == Some(q) <==> IsLastMessage(run.transcript, q) {
      LastMessagePosition(run, q);
    }
    assert Records(runs)[turn].finalSequence == RecordOf(0, runs[turn].transcript).finalSequence;
    if k == turn && EvidenceAvailable(Records(runs)[turn], Some(k), Some(p)) {
      assert IsLastMessage(run.transcript, Records(runs)[turn].finalSequence.value);
    }
    forall q: nat | IsLastMessage(run.transcript, q)
      ensures q < |run.msgs| && run.msgs[q].Notification? && run.msgs[q].topic == ItemCompletedMethod
              && run.msgs[q].params.item.kind == Typed(AgentMessage)
    {
      assert Caused(run.msgs[q], run.transcript.events[q]);
    }
  }
}
