/** What every collected turn keeps, clean or not: items are conserved, events
    are wire positions, and the route history says which model was effective. */
module TurnLedger {
  import opened Common
  import opened Protocol
  import opened TurnCollector
  import TextOrder

  /** The indices of the events that satisfy `p`, in order. */
  function Positions(es: seq<Event>, p: Event -> bool): seq<nat> {
    if es == [] then []
    else
      var n := |es| - 1;
      Positions(es[..n], p) + if p(es[n]) then [n] else []
  }

  const IS_START: Event -> bool := (e: Event) => e.ItemStartedEvent?
  const IS_COMPLETION: Event -> bool := (e: Event) => e.ItemCompletedEvent?
  const IS_COMMAND_COMPLETION: Event -> bool := (e: Event) => e.ItemCompletedEvent? && e.itemType.CommandExecution?
  const IS_MESSAGE_COMPLETION: Event -> bool := (e: Event) => e.ItemCompletedEvent? && e.itemType.AgentMessage?

  lemma PositionsSnoc(es: seq<Event>, e: Event, p: Event -> bool)
    ensures Positions(es + [e], p) == Positions(es, p) + if p(e) then [|es|] else []
  {
    assert (es + [e])[..|es|] == es;
  }

  /** `Positions` lists exactly the satisfying indices, in increasing order. */
  lemma {:induction false} PositionsExact(es: seq<Event>, p: Event -> bool)
    ensures forall i :: i in Positions(es, p) <==> 0 <= i < |es| && p(es[i])
    ensures forall a, b :: 0 <= a < b < |Positions(es, p)| ==> Positions(es, p)[a] < Positions(es, p)[b]
  {
    if es != [] {
      var n := |es| - 1;
      PositionsExact(es[..n], p);
      var rest := Positions(es[..n], p);
      forall i ensures i in Positions(es, p) <==> 0 <= i < |es| && p(es[i]) {
        assert i in Positions(es, p) <==> i in rest || (i == n && p(es[n]));
        if 0 <= i < n { assert es[..n][i] == es[i]; }
      }
      forall a, b | 0 <= a < b < |Positions(es, p)| ensures Positions(es, p)[a] < Positions(es, p)[b] {
        assert rest[a] in rest;
      }
    }
  }

  function CountIncomplete(vs: seq<Violation>): nat {
    if vs == [] then 0
    else CountIncomplete(vs[..|vs| - 1]) + if vs[|vs| - 1].IncompleteItem? then 1 else 0
  }

  lemma {:induction false} CountIncompleteAppend(vs: seq<Violation>, ws: seq<Violation>)
    ensures CountIncomplete(vs + ws) == CountIncomplete(vs) + CountIncomplete(ws)
  {
    if ws == [] {
      assert vs + ws == vs;
    } else {
      CountIncompleteAppend(vs, ws[..|ws| - 1]);
      assert (vs + ws)[..|vs + ws| - 1] == vs + ws[..|ws| - 1];
    }
  }

  lemma {:induction false} CountAllIncomplete(vs: seq<Violation>)
    requires forall v :: v in vs ==> v.IncompleteItem?
    ensures CountIncomplete(vs) == |vs|
  {
    if vs != [] { CountAllIncomplete(vs[..|vs| - 1]); }
  }

  lemma {:induction false} CountNoneIncomplete(vs: seq<Violation>)
    requires forall v :: v in vs ==> !v.IncompleteItem?
    ensures CountIncomplete(vs) == 0
  {
    if vs != [] { CountNoneIncomplete(vs[..|vs| - 1]); }
  }

  // ---------------------------------------------------------------- invariant

  predicate On(m: Message, topic: Method) { m.Notification? && m.topic == topic }

  /** The event says what the message was, and which item, status or value it named. */
  ghost predicate Caused(m: Message, e: Event) {
    match e
    case MalformedEvent => m.Malformed? || m.WithoutMethod?
    case ServerRequestEvent(denied, _) => if denied then m.Denied? else m.RawServerRequest?
    case ResolvedEvent(_) => m.Resolution?
    case InvalidEvent(topic) => On(m, topic)
    case PlainEvent(topic) => On(m, topic)
    case TurnStartedEvent => On(m, TurnStartedMethod)
    case ItemStartedEvent(itemType, status) =>
      On(m, ItemStartedMethod) && m.params.item.kind == Typed(itemType) && m.params.item.status == status
    case ItemCompletedEvent(itemType, status) =>
      On(m, ItemCompletedMethod) && m.params.item.kind == Typed(itemType) && m.params.item.status == status
    case SettingsEvent => On(m, SettingsUpdatedMethod)
    case ReroutedEvent => On(m, ModelReroutedMethod)
    case TurnCompletedEvent(status, _) => On(m, TurnCompletedMethod) && m.params.turn.status == status
    case RemoteControlEvent(disabled) => On(m, RemoteControlMethod) && m.params.remoteControlDisabled == disabled
    case ThreadStartedEvent(_) => On(m, ThreadStartedMethod)
    case UnrecognizedEvent => m.Notification? && m.topic == UnknownMethod(true)
  }

  ghost predicate OnWire(msgs: seq<Message>, t: Transcript) {
    && |t.events| == |msgs|
    && (forall i :: 0 <= i < |msgs| ==> Caused(msgs[i], t.events[i]))
    && t.commandSequences == Positions(t.events, IS_COMMAND_COMPLETION)
    && t.messageSequences == Positions(t.events, IS_MESSAGE_COMPLETION)
    && |t.commands| == |t.commandSequences|
    && |t.messages| == |t.messageSequences|
    && (forall k :: 0 <= k < |t.commands| ==>
          t.commandSequences[k] < |msgs| && msgs[t.commandSequences[k]].Notification?
          && msgs[t.commandSequences[k]].params.item.command == Text(t.commands[k].command))
  }

  ghost predicate Balanced(c: Collector) {
    && CountIncomplete(c.t.violations) == 0
    && |Positions(c.t.events, IS_START)| == |Positions(c.t.events, IS_COMPLETION)| + |c.items.open|
  }

  function EffectiveEffort(observed: seq<Option<string>>): Option<string> {
    if observed == [] then None else observed[|observed| - 1]
  }

  // ------------------------------------------------------- what one step does

  // What a message says about the route, read off the message alone.

  /** The settings an in-scope settings update names. */
  function SettingsIn(sc: Scope, m: Message): Option<(string, Option<string>)> {
    if m.Notification? && m.topic == SettingsUpdatedMethod && m.params.threadId == Text(sc.thread)
       && m.params.settings.ValidSettings?
    then Some((m.params.settings.model, m.params.settings.effort))
    else None
  }

  /** The model an in-scope reroute leads to. */
  function RerouteIn(sc: Scope, m: Message): Option<string> {
    if m.Notification? && m.topic == ModelReroutedMethod && m.params.threadId == Text(sc.thread)
       && m.params.turnId == Text(sc.turn) && m.params.toModel.ValidModel?
    then Some(m.params.toModel.name)
    else None
  }

  function ModelIn(sc: Scope, m: Message): Option<string> {
    if SettingsIn(sc, m).Some? then Some(SettingsIn(sc, m).value.0) else RerouteIn(sc, m)
  }

  function EffortIn(sc: Scope, m: Message): Option<Option<string>> {
    if SettingsIn(sc, m).Some? then Some(SettingsIn(sc, m).value.1) else None
  }

  datatype Route = Route(
    model: Option<string>, effort: Option<string>,
    models: seq<string>, efforts: seq<Option<string>>,
    preModels: seq<string>, preEfforts: seq<Option<string>>,
    confirmed: Option<(string, Option<string>)>)

  function RouteOf(t: Transcript): Route {
    Route(t.effectiveModel, t.effectiveEffort, t.observedModels, t.observedEfforts,
          t.preActivityModels, t.preActivityEfforts, t.confirmed)
  }

  /** What message `m` names is appended to the history and becomes effective; until
      activity it is appended to the pre-activity history too. */
  ghost predicate RouteMoves(sc: Scope, m: Message, r: Route, r': Route, activity: bool) {
    var model, effort := ModelIn(sc, m), EffortIn(sc, m);
    && r'.models == r.models + Singleton(model) && r'.efforts == r.efforts + Singleton(effort)
    && r'.model == (if model.Some? then model else r.model)
    && r'.effort == (if effort.Some? then effort.value else r.effort)
    && r'.preModels == (if activity then r.preModels else r.preModels + Singleton(model))
    && r'.preEfforts == (if activity then r.preEfforts else r.preEfforts + Singleton(effort))
    && r'.confirmed == (if SettingsIn(sc, m).Some? then SettingsIn(sc, m) else r.confirmed)
  }

  ghost predicate WireMoves(m: Message, t: Transcript, t': Transcript, e: Event) {
    && t'.events == t.events + [e]
    && Caused(m, e)
    && (if IS_COMMAND_COMPLETION(e)
        then && |t'.commands| == |t.commands| + 1
             && t'.commands[..|t.commands|] == t.commands
             && t'.commandSequences == t.commandSequences + [|t.events|]
             && m.params.item.command == Text(t'.commands[|t.commands|].command)
        else t'.commands == t.commands && t'.commandSequences == t.commandSequences)
    && (if IS_MESSAGE_COMPLETION(e)
        then |t'.messages| == |t.messages| + 1 && t'.messageSequences == t.messageSequences + [|t.events|]
        else t'.messages == t.messages && t'.messageSequences == t.messageSequences)
  }

  ghost predicate CountMoves(c: Collector, d: Collector, e: Event, vs: seq<Violation>) {
    && d.t.violations == c.t.violations + vs
    && (forall v :: v in vs ==> !v.IncompleteItem?)
    && |d.items.open| == |c.items.open| + (if IS_START(e) then 1 else 0) - (if IS_COMPLETION(e) then 1 else 0)
  }

  lemma CompletedMoves(sc: Scope, c: Collector, p: Params)
    requires CanComplete(sc, c.items, p) && !CompletionFaults(sc, c.items, p)
    ensures var d := StepItemCompleted(sc, c, p).state; var kind := p.item.kind.itemType;
            && WireMoves(Notification(ItemCompletedMethod, p), c.t, d.t, ItemCompletedEvent(kind, p.item.status))
            && CountMoves(c, d, ItemCompletedEvent(kind, p.item.status),
                          if Permitted(kind) then [] else [DisallowedCompletedItem(kind)])
  {
    var id := p.item.id.text;
    assert AfterCompletion(c.items, id).open.Keys == c.items.open.Keys - {id};
  }

  lemma StartedMoves(sc: Scope, c: Collector, p: Params)
    requires CanStart(sc, c.items, p)
    ensures var d := StepItemStarted(sc, c, p).state; var kind := p.item.kind.itemType;
            && WireMoves(Notification(ItemStartedMethod, p), c.t, d.t, ItemStartedEvent(kind, p.item.status))
            && CountMoves(c, d, ItemStartedEvent(kind, p.item.status),
                          if Permitted(kind) then [] else [DisallowedStartedItem(kind)])
  {
    var id := p.item.id.text;
    assert AfterStart(c.items, p).open.Keys == c.items.open.Keys + {id};
  }

  /** Every other message adds one event that is neither a start nor a
      completion, and opens or closes nothing. */
  lemma OtherMoves(sc: Scope, c: Collector, m: Message) returns (e: Event, vs: seq<Violation>)
    requires Step(sc, c, m).Next?
    requires m.Notification? && m.topic == ItemStartedMethod ==> !CanStart(sc, c.items, m.params)
    requires m.Notification? && m.topic == ItemCompletedMethod ==> !CanComplete(sc, c.items, m.params)
    ensures WireMoves(m, c.t, Step(sc, c, m).state.t, e)
    ensures CountMoves(c, Step(sc, c, m).state, e, vs)
    ensures !e.ItemStartedEvent? && !e.ItemCompletedEvent?
  {
    match m
    case Malformed => e, vs := MalformedEvent, [MalformedWireMessage];
    case Denied(_, _, _, _, _) =>
      var ok := DeniedScope(sc, c.items, m).value;
      e, vs := ServerRequestEvent(true, ok), [DisallowedServerRequest] + if ok then [] else [InvalidServerRequestScope];
    case Resolution(threadId, orderingValid) =>
      var valid := orderingValid && threadId == Text(sc.thread);
      e, vs := ResolvedEvent(valid), if valid then [] else [InvalidResolutionScope];
    case RawServerRequest => e, vs := ServerRequestEvent(false, false), [DisallowedServerRequest];
    case WithoutMethod => e, vs := MalformedEvent, [UnrecognizedWireMessage];
    case Notification(topic, params) => e, vs := OtherNotificationMoves(sc, c, topic, params);
  }

  lemma OtherNotificationMoves(sc: Scope, c: Collector, topic: Method, p: Params)
    returns (e: Event, vs: seq<Violation>)
    requires StepNotification(sc, c, topic, p).Next?
    requires topic == ItemStartedMethod ==> !CanStart(sc, c.items, p)
    requires topic == ItemCompletedMethod ==> !CanComplete(sc, c.items, p)
    ensures WireMoves(Notification(topic, p), c.t, StepNotification(sc, c, topic, p).state.t, e)
    ensures CountMoves(c, StepNotification(sc, c, topic, p).state, e, vs)
    ensures !e.ItemStartedEvent? && !e.ItemCompletedEvent?
  {
    var d := StepNotification(sc, c, topic, p).state;
    if StepNotification(sc, c, topic, p) == Reject(c, topic) {
      e, vs := InvalidEvent(topic), [InvalidNotification(topic)];
    } else {
      match topic
      case TurnStartedMethod => e, vs := TurnStartedEvent, [];
      case SettingsUpdatedMethod => e, vs := SettingsEvent, [];
      case ModelReroutedMethod => e, vs := ReroutedEvent, [];
      case RemoteControlMethod =>
        e, vs := RemoteControlEvent(p.remoteControlDisabled),
                 if p.remoteControlDisabled then [] else [EnabledRemoteControl];
      case ThreadStartedMethod =>
        var matches := p.startedThread == Text(sc.thread);
        e, vs := ThreadStartedEvent(matches), if matches then [] else [UnexpectedThreadStarted];
      case OutputDeltaMethod =>
        assert d.items.open.Keys == c.items.open.Keys;
        e, vs := PlainEvent(topic), [];
      case UnknownMethod(_) => e, vs := UnrecognizedEvent, [UnrecognizedNotification];
      case _ => e, vs := PlainEvent(topic), [];
    }
  }

  lemma StepMoves(sc: Scope, c: Collector, m: Message) returns (e: Event, vs: seq<Violation>)
    requires Step(sc, c, m).Next?
    ensures WireMoves(m, c.t, Step(sc, c, m).state.t, e)
    ensures CountMoves(c, Step(sc, c, m).state, e, vs)
  {
    if m.Notification? && m.topic == ItemStartedMethod && CanStart(sc, c.items, m.params) {
      StartedMoves(sc, c, m.params);
      var kind := m.params.item.kind.itemType;
      e := ItemStartedEvent(kind, m.params.item.status);
      vs := if Permitted(kind) then [] else [DisallowedStartedItem(kind)];
    } else if m.Notification? && m.topic == ItemCompletedMethod && CanComplete(sc, c.items, m.params) {
      CompletedMoves(sc, c, m.params);
      var kind := m.params.item.kind.itemType;
      e := ItemCompletedEvent(kind, m.params.item.status);
      vs := if Permitted(kind) then [] else [DisallowedCompletedItem(kind)];
    } else {
      e, vs := OtherMoves(sc, c, m);
    }
  }

  lemma ObservationMoves(sc: Scope, c: Collector, topic: Method, p: Params)
    requires topic == SettingsUpdatedMethod || topic == ModelReroutedMethod
    requires StepNotification(sc, c, topic, p).Next?
    ensures var d := StepNotification(sc, c, topic, p).state;
            RouteMoves(sc, Notification(topic, p), RouteOf(c.t), RouteOf(d.t), c.activity)
  {
  }

  lemma RouteStays(sc: Scope, c: Collector, m: Message)
    requires Step(sc, c, m).Next?
    requires !(m.Notification? && (m.topic == SettingsUpdatedMethod || m.topic == ModelReroutedMethod))
    ensures RouteOf(Step(sc, c, m).state.t) == RouteOf(c.t)
  {
  }

  lemma ActivityStays(sc: Scope, c: Collector, m: Message)
    requires Step(sc, c, m).Next?
    ensures c.activity ==> Step(sc, c, m).state.activity
    ensures Step(sc, c, m).state.activity != c.activity ==> m.Notification? && m.topic == ItemStartedMethod
  {
  }

  lemma StepRouteMoves(sc: Scope, c: Collector, m: Message)
    requires Step(sc, c, m).Next?
    ensures RouteMoves(sc, m, RouteOf(c.t), RouteOf(Step(sc, c, m).state.t), c.activity)
    ensures c.activity ==> Step(sc, c, m).state.activity
    ensures !c.activity && Step(sc, c, m).state.activity ==> RouteOf(Step(sc, c, m).state.t) == RouteOf(c.t)
  {
    ActivityStays(sc, c, m);
    if m.Notification? && (m.topic == SettingsUpdatedMethod || m.topic == ModelReroutedMethod) {
      hide RouteMoves;
      ObservationMoves(sc, c, m.topic, m.params);
    } else {
      hide Step;
      RouteStays(sc, c, m);
    }
  }

  // ---------------------------------------------- what the invariant gets of it

  lemma CommandIsNotified(m: Message, e: Event)
    requires Caused(m, e) && IS_COMMAND_COMPLETION(e)
    ensures m.Notification?
  { }

  lemma KeepsOnWire(msgs: seq<Message>, m: Message, t: Transcript, t': Transcript, e: Event)
    requires OnWire(msgs, t) && WireMoves(m, t, t', e)
    ensures OnWire(msgs + [m], t')
  {
    if IS_COMMAND_COMPLETION(e) { CommandIsNotified(m, e); }
    hide Caused;
    PositionsSnoc(t.events, e, IS_COMMAND_COMPLETION);
    PositionsSnoc(t.events, e, IS_MESSAGE_COMPLETION);
    var all := msgs + [m];
    assert all[|msgs|] == m;
    forall k | 0 <= k < |t'.commands|
      ensures t'.commandSequences[k] < |all| && all[t'.commandSequences[k]].Notification?
              && all[t'.commandSequences[k]].params.item.command == Text(t'.commands[k].command)
    {
      if k < |t.commands| {
        assert t'.commands[k] == t'.commands[..|t.commands|][k] == t.commands[k];
        assert t'.commandSequences[k] == t.commandSequences[k];
        assert all[t.commandSequences[k]] == msgs[t.commandSequences[k]];
      }
    }
  }

  lemma KeepsBalanced(c: Collector, d: Collector, e: Event, vs: seq<Violation>)
    requires Balanced(c) && CountMoves(c, d, e, vs) && d.t.events == c.t.events + [e]
    ensures Balanced(d)
  {
    PositionsSnoc(c.t.events, e, IS_START);
    PositionsSnoc(c.t.events, e, IS_COMPLETION);
    CountIncompleteAppend(c.t.violations, vs);
    CountNoneIncomplete(vs);
  }

  ghost predicate RouteInvariant(r: Route, activity: bool) {
    && r.model == LastOf(r.models)
    && r.effort == EffectiveEffort(r.efforts)
    && r.preModels <= r.models
    && r.preEfforts <= r.efforts
    && (!activity ==> r.preModels == r.models && r.preEfforts == r.efforts)
  }

  lemma KeepsRoute(sc: Scope, m: Message, r: Route, r': Route, activity: bool, activity': bool)
    requires RouteInvariant(r, activity) && RouteMoves(sc, m, r, r', activity)
    requires activity ==> activity'
    ensures RouteInvariant(r', activity')
    ensures r.models <= r'.models && r.efforts <= r'.efforts
    ensures activity ==> r'.preModels == r.preModels && r'.preEfforts == r.preEfforts
  {
  }

  ghost predicate Kept(msgs: seq<Message>, c: Collector) {
    OnWire(msgs, c.t) && Balanced(c) && RouteInvariant(RouteOf(c.t), c.activity)
  }

  lemma StepKeeps(sc: Scope, msgs: seq<Message>, c: Collector, m: Message, d: Collector)
    requires Kept(msgs, c) && Step(sc, c, m) == Next(d)
    ensures Kept(msgs + [m], d)
  {
    var e, vs := StepMoves(sc, c, m);
    KeepsOnWire(msgs, m, c.t, d.t, e);
    KeepsBalanced(c, d, e, vs);
    StepRouteMoves(sc, c, m);
    KeepsRoute(sc, m, RouteOf(c.t), RouteOf(d.t), c.activity, d.activity);
  }

  lemma StartIsKept(model: Option<string>, effort: Option<string>)
    ensures Kept([], NewCollector(model, effort))
  { }

  /** The last step of a run that is still going. */
  lemma LastNext(sc: Scope, c0: Collector, msgs: seq<Message>)
    requires After(sc, c0, msgs).Next?
    ensures msgs == [] ==> After(sc, c0, msgs) == Next(c0)
    ensures msgs != [] ==>
              && After(sc, c0, msgs[..|msgs| - 1]).Next?
              && Step(sc, After(sc, c0, msgs[..|msgs| - 1]).state, msgs[|msgs| - 1]) == After(sc, c0, msgs)
  {
    hide Step;
  }

  lemma {:induction false} RunKeeps(sc: Scope, model: Option<string>, effort: Option<string>, msgs: seq<Message>)
    requires After(sc, NewCollector(model, effort), msgs).Next?
    ensures Kept(msgs, After(sc, NewCollector(model, effort), msgs).state)
  {
    hide After, Step, Kept, NewCollector;
    var c0 := NewCollector(model, effort);
    LastNext(sc, c0, msgs);
    if msgs == [] {
      StartIsKept(model, effort);
    } else {
      var n := |msgs| - 1;
      RunKeeps(sc, model, effort, msgs[..n]);
      StepKeeps(sc, msgs[..n], After(sc, c0, msgs[..n]).state, msgs[n], After(sc, c0, msgs).state);
      assert msgs == msgs[..n] + [msgs[n]];
    }
  }

  /** `turn/completed` ends the run: it adds its own event and the violations
      for items still open, and touches nothing else. */
  ghost predicate Closes(m: Message, c: Collector, t: Transcript) {
    && |t.events| == |c.t.events| + 1
    && t.events[..|c.t.events|] == c.t.events
    && t.events[|c.t.events|].TurnCompletedEvent? && Caused(m, t.events[|c.t.events|])
    && t.violations == c.t.violations + IncompleteViolations(c.items.open, TextOrder.Sorted(c.items.open.Keys))
    && RouteOf(t) == RouteOf(c.t)
    && t.commands == c.t.commands && t.commandSequences == c.t.commandSequences
    && t.messages == c.t.messages && t.messageSequences == c.t.messageSequences
  }

  lemma LastStep(sc: Scope, model: Option<string>, effort: Option<string>, msgs: seq<Message>)
    returns (c: Collector)
    requires After(sc, NewCollector(model, effort), msgs).Done?
    ensures msgs != [] && After(sc, NewCollector(model, effort), msgs[..|msgs| - 1]) == Next(c)
    ensures Kept(msgs[..|msgs| - 1], c)
    ensures Closes(msgs[|msgs| - 1], c, After(sc, NewCollector(model, effort), msgs).transcript)
  {
    RunKeeps(sc, model, effort, msgs[..|msgs| - 1]);
    c := After(sc, NewCollector(model, effort), msgs[..|msgs| - 1]).state;
    DoneCloses(sc, c, msgs[|msgs| - 1]);
  }

  lemma DoneIsCompletion(sc: Scope, c: Collector, m: Message)
    requires Step(sc, c, m).Done?
    ensures m.Notification? && m.topic == TurnCompletedMethod
    ensures Step(sc, c, m) == StepTurnCompleted(sc, c, m.params)
  {
    hide CanStart, CanComplete, CompletionFaults, CanAppendDelta, DeltaOverflows, StepTurnCompleted, TextOrder.Sorted;
  }

  lemma DoneCloses(sc: Scope, c: Collector, m: Message)
    requires Step(sc, c, m).Done?
    ensures Closes(m, c, Step(sc, c, m).transcript)
  {
    hide Step, TextOrder.Sorted, IncompleteViolations;
    DoneIsCompletion(sc, c, m);
  }

  lemma ClosedBalance(m: Message, c: Collector, t: Transcript)
    requires Balanced(c) && Closes(m, c, t)
    ensures |Positions(t.events, IS_START)| == |Positions(t.events, IS_COMPLETION)| + CountIncomplete(t.violations)
  {
    var e := t.events[|c.t.events|];
    assert t.events == c.t.events + [e];
    PositionsSnoc(c.t.events, e, IS_START);
    PositionsSnoc(c.t.events, e, IS_COMPLETION);
    var vs := IncompleteViolations(c.items.open, TextOrder.Sorted(c.items.open.Keys));
    CountIncompleteAppend(c.t.violations, vs);
    CountAllIncomplete(vs);
  }

  lemma ClosedOnWire(msgs: seq<Message>, m: Message, c: Collector, t: Transcript)
    requires OnWire(msgs, c.t) && Closes(m, c, t)
    ensures OnWire(msgs + [m], t)
  {
    hide OnWire, Caused;
    var e := t.events[|c.t.events|];
    assert t.events == c.t.events + [e];
    KeepsOnWire(msgs, m, c.t, t, e);
  }

  // --------------------------------------------------------------- the results

  /** Conservation: in every collected turn, accepted starts equal accepted
      completions plus `incomplete_item_activity` violations. */
  lemma ItemsAreConserved(sc: Scope, model: Option<string>, effort: Option<string>, msgs: seq<Message>)
    requires After(sc, NewCollector(model, effort), msgs).Done?
    ensures var t := After(sc, NewCollector(model, effort), msgs).transcript;
            |Positions(t.events, IS_START)| == |Positions(t.events, IS_COMPLETION)| + CountIncomplete(t.violations)
  {
    hide After, Step, NewCollector, OnWire, Positions, CountIncomplete;
    var c := LastStep(sc, model, effort, msgs);
    ClosedBalance(msgs[|msgs| - 1], c, After(sc, NewCollector(model, effort), msgs).transcript);
  }

  /** One event per consumed message, so completion sequence numbers are the
      wire positions of the completions they belong to. */
  lemma SequencesAreWirePositions(sc: Scope, model: Option<string>, effort: Option<string>, msgs: seq<Message>)
    requires After(sc, NewCollector(model, effort), msgs).Done?
    ensures OnWire(msgs, After(sc, NewCollector(model, effort), msgs).transcript)
  {
    hide After, Step, NewCollector, OnWire, Positions, CountIncomplete;
    var c := LastStep(sc, model, effort, msgs);
    ClosedOnWire(msgs[..|msgs| - 1], msgs[|msgs| - 1], c, After(sc, NewCollector(model, effort), msgs).transcript);
    assert msgs == msgs[..|msgs| - 1] + [msgs[|msgs| - 1]];
  }

  /** The effective model and effort are always the last observed ones, and what
      was observed before activity is a prefix of everything observed. */
  lemma EffectiveIsLastObserved(sc: Scope, model: Option<string>, effort: Option<string>, msgs: seq<Message>)
    requires After(sc, NewCollector(model, effort), msgs).Done?
    ensures var t := After(sc, NewCollector(model, effort), msgs).transcript;
            && t.effectiveModel == LastOf(t.observedModels)
            && t.effectiveEffort == EffectiveEffort(t.observedEfforts)
            && t.preActivityModels <= t.observedModels
            && t.preActivityEfforts <= t.observedEfforts
  {
    hide After, Step, NewCollector, OnWire, Positions, CountIncomplete;
    var c := LastStep(sc, model, effort, msgs);
    var t := After(sc, NewCollector(model, effort), msgs).transcript;
    assert RouteOf(t) == RouteOf(c.t);
  }
}
