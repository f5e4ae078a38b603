/** The turn collector: an online checker over the messages of one turn. */
module TurnCollector {
  import opened Common
  import opened Protocol
  import TextOrder

  datatype StartedItem = StartedItem(itemType: ItemType, command: Option<string>, deltas: seq<string>)

  datatype OutputSource = Aggregate | Deltas | Absent

  datatype CommandRecord = CommandRecord(
    command: string,
    exitCode: Field,
    status: ItemStatus,
    output: Option<string>,
    source: OutputSource,
    deltaCount: nat)

  datatype Event =
    | MalformedEvent
    | ServerRequestEvent(denied: bool, scopeValid: bool)
    | ResolvedEvent(valid: bool)
    | InvalidEvent(topic: Method)
    | TurnStartedEvent
    | ItemStartedEvent(itemType: ItemType, status: ItemStatus)
    | ItemCompletedEvent(itemType: ItemType, status: ItemStatus)
    | SettingsEvent
    | ReroutedEvent
    | TurnCompletedEvent(turnStatus: TurnStatus, hasError: bool)
    | RemoteControlEvent(disabled: bool)
    | ThreadStartedEvent(matches: bool)
    | PlainEvent(topic: Method)
    | UnrecognizedEvent

  datatype Violation =
    | MalformedWireMessage
    | DisallowedServerRequest
    | InvalidServerRequestScope
    | InvalidResolutionScope
    | UnrecognizedWireMessage
    | InvalidNotification(topic: Method)
    | DisallowedStartedItem(itemType: ItemType)
    | DisallowedCompletedItem(itemType: ItemType)
    | IncompleteItem(itemType: ItemType)
    | EnabledRemoteControl
    | UnexpectedThreadStarted
    | UnrecognizedNotification

  datatype Transcript = Transcript(
    commands: seq<CommandRecord>,
    commandSequences: seq<nat>,
    messages: seq<Field>,
    messageSequences: seq<nat>,
    events: seq<Event>,
    status: Option<TurnStatus>,
    error: Field,
    effectiveModel: Option<string>,
    effectiveEffort: Option<string>,
    observedModels: seq<string>,
    observedEfforts: seq<Option<string>>,
    preActivityModels: seq<string>,
    preActivityEfforts: seq<Option<string>>,
    violations: seq<Violation>,
    confirmed: Option<(string, Option<string>)>)

  function Singleton<T>(o: Option<T>): seq<T> {
    if o.Some? then [o.value] else []
  }

  function SingletonEffort(o: Option<string>): seq<Option<string>> {
    if o.Some? then [o] else []
  }

  function NewTranscript(model: Option<string>, effort: Option<string>): Transcript {
    Transcript([], [], [], [], [], None, Missing, model, effort,
               Singleton(model), SingletonEffort(effort), Singleton(model), SingletonEffort(effort), [], None)
  }

  // ---------------------------------------------------------------- item state

  datatype Scope = Scope(thread: string, turn: string)

  predicate InTurn(sc: Scope, p: Params) {
    p.threadId == Text(sc.thread) && p.turnId == Text(sc.turn)
  }

  /** The value of the mutable item table. */
  datatype Items = Items(
    started: bool,
    open: map<string, StartedItem>,
    completed: set<string>,
    deltaBytes: nat,
    deltaEvents: nat)

  predicate Terminal(s: ItemStatus) { s.Completed? || s.Declined? || s.Failed? }

  predicate TerminalTurn(s: TurnStatus) { s.TurnCompleted? || s.TurnFailed? || s.TurnInterrupted? }

  predicate NonEmptyText(f: Field) { f.Text? && f.text != "" }

  /** The part of a start that does not depend on earlier messages. */
  predicate StartShape(sc: Scope, p: Params) {
    && InTurn(sc, p)
    && NonEmptyText(p.item.id)
    && p.item.kind.Typed?
    && (p.item.status.NoStatus? || p.item.status.InProgress?)
    && (p.item.kind.itemType.CommandExecution? ==> p.item.status.InProgress? && NonEmptyText(p.item.command))
  }

  predicate CanStart(sc: Scope, st: Items, p: Params) {
    st.started && StartShape(sc, p) && p.item.id.text !in st.open && p.item.id.text !in st.completed
  }

  function StartedFrom(item: Item): StartedItem
    requires item.kind.Typed?
  {
    StartedItem(item.kind.itemType,
                if item.kind.itemType.CommandExecution? && item.command.Text? then Some(item.command.text) else None,
                [])
  }

  predicate MatchesOpen(sc: Scope, st: Items, p: Params) {
    && st.started
    && InTurn(sc, p)
    && p.item.id.Text?
    && p.item.kind.Typed?
    && p.item.id.text in st.open
    && st.open[p.item.id.text].itemType == p.item.kind.itemType
  }

  /** The part of a completion that depends on its start only through the
      command the start named. */
  predicate CompletionShape(item: Item, command: Option<string>)
    requires item.kind.Typed?
  {
    && (item.status.NoStatus? || Terminal(item.status))
    && (item.kind.itemType.AgentMessage? ==> item.status.NoStatus? || item.status.Completed?)
    && (item.kind.itemType.CommandExecution? ==>
          && Terminal(item.status)
          && NonEmptyText(item.command)
          && Some(item.command.text) == command
          && !item.aggregatedOutput.Other?)
  }

  predicate CanComplete(sc: Scope, st: Items, p: Params) {
    MatchesOpen(sc, st, p) && CompletionShape(p.item, st.open[p.item.id.text].command)
  }

  /** Looking up an unhashable id or status raises instead of answering. */
  predicate CompletionFaults(sc: Scope, st: Items, p: Params) {
    p.item.id == Other(false) || (MatchesOpen(sc, st, p) && p.item.status == OtherStatus(false))
  }

  predicate CanAppendDelta(sc: Scope, st: Items, p: Params) {
    && st.started
    && InTurn(sc, p)
    && p.itemId.Text?
    && p.delta.Text?
    && p.itemId.text in st.open
    && st.open[p.itemId.text].itemType.CommandExecution?
  }

  function Utf8Size(c: char): nat {
    if c as int < 0x80 then 1 else if c as int < 0x800 then 2 else if c as int < 0x10000 then 3 else 4
  }

  function Utf8Length(s: string): nat {
    if s == "" then 0 else Utf8Size(s[0]) + Utf8Length(s[1..])
  }

  predicate DeltaOverflows(st: Items, delta: string) {
    st.deltaEvents >= MAX_PENDING_NOTIFICATIONS || st.deltaBytes + Utf8Length(delta) > MAX_TURN_INPUT_BYTES
  }

  function AfterStart(st: Items, p: Params): Items
    requires p.item.id.Text? && p.item.kind.Typed?
  {
    st.(open := st.open[p.item.id.text := StartedFrom(p.item)])
  }

  function AfterCompletion(st: Items, id: string): Items {
    st.(open := st.open - {id}, completed := st.completed + {id})
  }

  function AfterDelta(st: Items, id: string, delta: string): Items
    requires id in st.open
  {
    var was := st.open[id];
    st.(open := st.open[id := was.(deltas := was.deltas + [delta])],
        deltaBytes := st.deltaBytes + Utf8Length(delta),
        deltaEvents := st.deltaEvents + 1)
  }

  // ------------------------------------------------------------- one transition

  datatype Collector = Collector(items: Items, activity: bool, t: Transcript)

  function NewCollector(model: Option<string>, effort: Option<string>): Collector {
    Collector(Items(false, map[], {}, 0, 0), false, NewTranscript(model, effort))
  }

  /** `Overrun` marks a run that was asked to go on after it had stopped. */
  datatype StepResult = Next(state: Collector) | Done(transcript: Transcript) | Raised | Overrun

  function Record(t: Transcript, e: Event, vs: seq<Violation>): Transcript {
    t.(events := t.events + [e], violations := t.violations + vs)
  }

  function Note(c: Collector, e: Event, vs: seq<Violation>): StepResult {
    Next(c.(t := Record(c.t, e, vs)))
  }

  function Reject(c: Collector, m: Method): StepResult {
    Note(c, InvalidEvent(m), [InvalidNotification(m)])
  }

  predicate Permitted(t: ItemType) {
    t.CommandExecution? || t.AgentMessage? || t.Informational?
  }

  function JoinDeltas(ds: seq<string>): string {
    if ds == [] then "" else ds[0] + JoinDeltas(ds[1..])
  }

  function RecordCommand(item: Item, was: StartedItem): CommandRecord
    requires item.command.Text?
  {
    var output := if item.aggregatedOutput.Text? then Some(item.aggregatedOutput.text)
                  else if item.aggregatedOutput.Missing? && was.deltas != [] then Some(JoinDeltas(was.deltas))
                  else None;
    var source := if item.aggregatedOutput.Text? then Aggregate
                  else if item.aggregatedOutput.Missing? && was.deltas != [] then Deltas
                  else Absent;
    CommandRecord(item.command.text, item.exitCode, item.status, output, source, |was.deltas|)
  }

  /** Scope check of a denied server request: `None` when it raises. */
  function DeniedScope(sc: Scope, st: Items, m: Message): Option<bool>
    requires m.Denied?
  {
    var scoped := m.orderingValid
                  && (m.threadId.Missing? || m.threadId == Text(sc.thread))
                  && (m.turnId.Missing? || m.turnId == Text(sc.turn));
    if !m.kind.ItemRequest? || !scoped then Some(scoped)
    else if m.itemReference == Other(false) then None
    else Some(m.itemReference.Text? && m.itemReference.text in st.open)
  }

  function IncompleteViolations(open: map<string, StartedItem>, ids: seq<string>): (vs: seq<Violation>)
    requires forall id :: id in ids ==> id in open
    ensures |vs| == |ids|
  {
    seq(|ids|, i requires 0 <= i < |ids| => IncompleteItem(open[ids[i]].itemType))
  }

  function StepItemStarted(sc: Scope, c: Collector, p: Params): StepResult {
    if !CanStart(sc, c.items, p) then Reject(c, ItemStartedMethod)
    else
      var kind := p.item.kind.itemType;
      Next(Collector(AfterStart(c.items, p), true,
                     Record(c.t, ItemStartedEvent(kind, p.item.status),
                            if Permitted(kind) then [] else [DisallowedStartedItem(kind)])))
  }

  function StepItemCompleted(sc: Scope, c: Collector, p: Params): StepResult {
    if CompletionFaults(sc, c.items, p) then Raised
    else if !CanComplete(sc, c.items, p) then Reject(c, ItemCompletedMethod)
    else
      var kind := p.item.kind.itemType;
      var id := p.item.id.text;
      var at := |c.t.events|;
      var t := Record(c.t, ItemCompletedEvent(kind, p.item.status),
                      if Permitted(kind) then [] else [DisallowedCompletedItem(kind)]);
      var t' := match kind
        case CommandExecution =>
          t.(commands := t.commands + [RecordCommand(p.item, c.items.open[id])],
             commandSequences := t.commandSequences + [at])
        case AgentMessage =>
          t.(messages := t.messages + [p.item.text], messageSequences := t.messageSequences + [at])
        case _ => t;
      Next(c.(items := AfterCompletion(c.items, id), t := t'))
  }

  function StepSettings(sc: Scope, c: Collector, p: Params): StepResult {
    if p.threadId != Text(sc.thread) then Reject(c, SettingsUpdatedMethod)
    else match p.settings
      case InvalidSettings => Raised
      case ValidSettings(model, effort) =>
        var t := Record(c.t, SettingsEvent, []);
        Next(c.(t := t.(effectiveModel := Some(model),
                        effectiveEffort := effort,
                        observedModels := t.observedModels + [model],
                        observedEfforts := t.observedEfforts + [effort],
                        preActivityModels := if c.activity then t.preActivityModels else t.preActivityModels + [model],
                        preActivityEfforts :=
                          if c.activity then t.preActivityEfforts else t.preActivityEfforts + [effort],
                        confirmed := Some((model, effort)))))
  }

  function StepRerouted(sc: Scope, c: Collector, p: Params): StepResult {
    if !InTurn(sc, p) then Reject(c, ModelReroutedMethod)
    else if p.fromModel.InvalidModel? || p.toModel.InvalidModel?
            || Some(p.fromModel.name) != c.t.effectiveModel then Raised
    else
      var model := p.toModel.name;
      var t := Record(c.t, ReroutedEvent, []);
      Next(c.(t := t.(effectiveModel := Some(model),
                      observedModels := t.observedModels + [model],
                      preActivityModels := if c.activity then t.preActivityModels else t.preActivityModels + [model])))
  }

  function StepTurnCompleted(sc: Scope, c: Collector, p: Params): StepResult {
    if !(c.items.started && p.threadId == Text(sc.thread) && p.turn.id == Text(sc.turn)) then
      Reject(c, TurnCompletedMethod)
    else if p.turn.status == OtherTurnStatus(false) then Raised
    else if !TerminalTurn(p.turn.status) then Reject(c, TurnCompletedMethod)
    else
      var t := Record(c.t, TurnCompletedEvent(p.turn.status, !p.turn.error.Missing?),
                      IncompleteViolations(c.items.open, TextOrder.Sorted(c.items.open.Keys)));
      Done(t.(status := Some(p.turn.status), error := p.turn.error))
  }

  function StepNotification(sc: Scope, c: Collector, m: Method, p: Params): StepResult {
    match m
    case TurnStartedMethod =>
      if !c.items.started && p.threadId == Text(sc.thread) && p.turn.id == Text(sc.turn)
         && p.turn.status.TurnInProgress?
      then Next(c.(items := c.items.(started := true), t := Record(c.t, TurnStartedEvent, [])))
      else Reject(c, m)
    case ItemStartedMethod => StepItemStarted(sc, c, p)
    case ItemCompletedMethod => StepItemCompleted(sc, c, p)
    case SettingsUpdatedMethod => StepSettings(sc, c, p)
    case ModelReroutedMethod => StepRerouted(sc, c, p)
    case TurnCompletedMethod => StepTurnCompleted(sc, c, p)
    case ErrorMethod => Raised
    case RemoteControlMethod =>
      Note(c, RemoteControlEvent(p.remoteControlDisabled),
           if p.remoteControlDisabled then [] else [EnabledRemoteControl])
    case ThreadStartedMethod =>
      var matches := p.startedThread == Text(sc.thread);
      Note(c, ThreadStartedEvent(matches), if matches then [] else [UnexpectedThreadStarted])
    case OutputDeltaMethod =>
      if !CanAppendDelta(sc, c.items, p) then Reject(c, m)
      else if DeltaOverflows(c.items, p.delta.text) then Raised
      else Next(c.(items := AfterDelta(c.items, p.itemId.text, p.delta.text), t := Record(c.t, PlainEvent(m), [])))
    case ItemScopedMethod(_) =>
      if c.items.started && InTurn(sc, p) && p.itemId.Text? && p.itemId.text in c.items.open
      then Note(c, PlainEvent(m), []) else Reject(c, m)
    case TurnScopedMethod(_) =>
      if c.items.started && InTurn(sc, p) then Note(c, PlainEvent(m), []) else Reject(c, m)
    case ThreadScopedMethod(_) =>
      if p.threadId == Text(sc.thread) then Note(c, PlainEvent(m), []) else Reject(c, m)
    case GlobalMethod(_) => Note(c, PlainEvent(m), [])
    case ServerRequestResolvedMethod => Reject(c, m)
    case UnknownMethod(hashable) =>
      if hashable then Note(c, UnrecognizedEvent, [UnrecognizedNotification]) else Raised
  }

  function Step(sc: Scope, c: Collector, m: Message): StepResult {
    match m
    case Malformed => Note(c, MalformedEvent, [MalformedWireMessage])
    case Denied(_, _, _, _, _) =>
      (match DeniedScope(sc, c.items, m)
       case None => Raised
       case Some(ok) =>
         Note(c, ServerRequestEvent(true, ok),
              [DisallowedServerRequest] + if ok then [] else [InvalidServerRequestScope]))
    case Resolution(threadId, orderingValid) =>
      var valid := orderingValid && threadId == Text(sc.thread);
      Note(c, ResolvedEvent(valid), if valid then [] else [InvalidResolutionScope])
    case RawServerRequest => Note(c, ServerRequestEvent(false, false), [DisallowedServerRequest])
    case WithoutMethod => Note(c, MalformedEvent, [UnrecognizedWireMessage])
    case Notification(topic, params) => StepNotification(sc, c, topic, params)
  }

  /** Where the collector stands after consuming exactly `msgs`. */
  function After(sc: Scope, c0: Collector, msgs: seq<Message>): StepResult {
    if msgs == [] then Next(c0)
    else
      match After(sc, c0, msgs[..|msgs| - 1])
      case Next(c) => Step(sc, c, msgs[|msgs| - 1])
      case _ => Overrun
  }

  // ------------------------------------------------------------ imperative form

  class TurnCollectionState {
    const scope: Scope
    var started: bool
    var startedItems: map<string, StartedItem>
    var completedItems: set<string>
    var deltaBytes: nat
    var deltaEvents: nat

    constructor (scope: Scope)
      ensures this.scope == scope && View() == Items(false, map[], {}, 0, 0)
    {
      this.scope := scope;
      started := false;
      startedItems := map[];
      completedItems := {};
      deltaBytes := 0;
      deltaEvents := 0;
    }

    function View(): Items
      reads this
    {
      Items(started, startedItems, completedItems, deltaBytes, deltaEvents)
    }

    method StartItem(p: Params) returns (ok: bool)
      modifies this
      ensures ok == CanStart(scope, old(View()), p)
      ensures View() == if ok then AfterStart(old(View()), p) else old(View())
    {
      ok := CanStart(scope, View(), p);
      if ok {
        startedItems := startedItems[p.item.id.text := StartedFrom(p.item)];
      }
    }

    /** `raised` when a lookup meets an unhashable value. */
    method CompleteItem(p: Params) returns (ok: bool, raised: bool)
      modifies this
      ensures raised == CompletionFaults(scope, old(View()), p)
      ensures ok == (!raised && CanComplete(scope, old(View()), p))
      ensures View() == if ok then AfterCompletion(old(View()), p.item.id.text) else old(View())
    {
      raised := CompletionFaults(scope, View(), p);
      ok := !raised && CanComplete(scope, View(), p);
      if ok {
        startedItems := startedItems - {p.item.id.text};
        completedItems := completedItems + {p.item.id.text};
      }
    }

    method AppendCommandOutputDelta(p: Params) returns (ok: bool, raised: bool)
      modifies this
      ensures raised == (CanAppendDelta(scope, old(View()), p) && DeltaOverflows(old(View()), p.delta.text))
      ensures ok == (!raised && CanAppendDelta(scope, old(View()), p))
      ensures View() == if ok then AfterDelta(old(View()), p.itemId.text, p.delta.text) else old(View())
    {
      ok, raised := CanAppendDelta(scope, View(), p), false;
      if ok {
        if DeltaOverflows(View(), p.delta.text) {
          ok, raised := false, true;
        } else {
          var was := startedItems[p.itemId.text];
          startedItems := startedItems[p.itemId.text := was.(deltas := was.deltas + [p.delta.text])];
          deltaEvents := deltaEvents + 1;
          deltaBytes := deltaBytes + Utf8Length(p.delta.text);
        }
      }
    }
  }

  /** How collecting a turn ends: a transcript after `consumed` messages, an
      exception, or a stream that closes first. */
  datatype Collected = Returned(transcript: Transcript, consumed: nat) | Failure(consumed: nat) | StreamClosed

  /** `_collect_turn`: one loop over the session's messages, updating the item
      table and the transcript in place. */
  method CollectTurn(sc: Scope, model: Option<string>, effort: Option<string>, msgs: seq<Message>)
    returns (r: Collected)
    ensures r.Returned? ==> 0 < r.consumed <= |msgs|
                            && After(sc, NewCollector(model, effort), msgs[..r.consumed]) == Done(r.transcript)
    ensures r.Failure? ==> 0 < r.consumed <= |msgs|
                           && After(sc, NewCollector(model, effort), msgs[..r.consumed]) == Raised
    ensures r.StreamClosed? ==> After(sc, NewCollector(model, effort), msgs).Next?
  {
    ghost var c0 := NewCollector(model, effort);
    var state := new TurnCollectionState(sc);
    var t := NewTranscript(model, effort);
    var activity := false;
    var i := 0;
    while i < |msgs|
      invariant 0 <= i <= |msgs|
      invariant fresh(state) && state.scope == sc
      invariant After(sc, c0, msgs[..i]) == Next(Collector(state.View(), activity, t))
    {
      assert msgs[..i + 1][..i] == msgs[..i];
      var flow;
      t, activity, flow := Consume(state, t, activity, msgs[i]);
      i := i + 1;
      match flow
      case Continue =>
      case Return => return Returned(t, i);
      case Raise => return Failure(i);
    }
    assert msgs[..i] == msgs;
    r := StreamClosed;
  }

  datatype Flow = Continue | Return | Raise

  function Outcome(flow: Flow, items: Items, activity: bool, t: Transcript): StepResult {
    match flow
    case Continue => Next(Collector(items, activity, t))
    case Return => Done(t)
    case Raise => Raised
  }

  /** One iteration of the loop. */
  method Consume(state: TurnCollectionState, t0: Transcript, activity0: bool, m: Message)
    returns (t: Transcript, activity: bool, flow: Flow)
    modifies state
    ensures Step(state.scope, Collector(old(state.View()), activity0, t0), m)
            == Outcome(flow, state.View(), activity, t)
  {
    t, activity, flow := t0, activity0, Continue;
    match m
    case Malformed =>
      t := Record(t, MalformedEvent, [MalformedWireMessage]);
    case Denied(_, _, _, _, _) =>
      var scope := DeniedScope(state.scope, state.View(), m);
      if scope.None? {
        flow := Raise;
      } else {
        t := Record(t, ServerRequestEvent(true, scope.value),
                    [DisallowedServerRequest] + if scope.value then [] else [InvalidServerRequestScope]);
      }
    case Resolution(threadId, orderingValid) =>
      var valid := orderingValid && threadId == Text(state.scope.thread);
      t := Record(t, ResolvedEvent(valid), if valid then [] else [InvalidResolutionScope]);
    case RawServerRequest =>
      t := Record(t, ServerRequestEvent(false, false), [DisallowedServerRequest]);
    case WithoutMethod =>
      t := Record(t, MalformedEvent, [UnrecognizedWireMessage]);
    case Notification(topic, p) =>
      t, activity, flow := Dispatch(state, t, activity, topic, p);
  }

  method Dispatch(state: TurnCollectionState, t0: Transcript, activity0: bool, topic: Method, p: Params)
    returns (t: Transcript, activity: bool, flow: Flow)
    modifies state
    ensures StepNotification(state.scope, Collector(old(state.View()), activity0, t0), topic, p)
            == Outcome(flow, state.View(), activity, t)
  {
    var raised := false;
    t, activity, flow := t0, activity0, Continue;
    match topic {
      case TurnStartedMethod =>
        if !state.started && p.threadId == Text(state.scope.thread) && p.turn.id == Text(state.scope.turn)
           && p.turn.status.TurnInProgress?
        {
          state.started := true;
          t := Record(t, TurnStartedEvent, []);
        } else {
          t := Record(t, InvalidEvent(topic), [InvalidNotification(topic)]);
        }
      case ItemStartedMethod =>
        var ok := state.StartItem(p);
        if !ok {
          t := Record(t, InvalidEvent(topic), [InvalidNotification(topic)]);
        } else {
          activity := true;
          var kind := p.item.kind.itemType;
          t := Record(t, ItemStartedEvent(kind, p.item.status),
                      if Permitted(kind) then [] else [DisallowedStartedItem(kind)]);
        }
      case ItemCompletedMethod =>
        var was := if p.item.id.Text? && p.item.id.text in state.startedItems
                   then Some(state.startedItems[p.item.id.text]) else None;
        var ok;
        ok, raised := state.CompleteItem(p);
        if raised {
        } else if !ok {
          t := Record(t, InvalidEvent(topic), [InvalidNotification(topic)]);
        } else {
          var kind := p.item.kind.itemType;
          t := Record(t, ItemCompletedEvent(kind, p.item.status),
                      if Permitted(kind) then [] else [DisallowedCompletedItem(kind)]);
          var at := |t.events| - 1;
          if kind.CommandExecution? {
            t := t.(commands := t.commands + [RecordCommand(p.item, was.value)],
                    commandSequences := t.commandSequences + [at]);
          } else if kind.AgentMessage? {
            t := t.(messages := t.messages + [p.item.text], messageSequences := t.messageSequences + [at]);
          }
        }
      case SettingsUpdatedMethod =>
        t, raised := ObserveSettings(state.scope, t, activity, p);
      case ModelReroutedMethod =>
        t, raised := ObserveReroute(state.scope, t, activity, p);
      case TurnCompletedMethod =>
        var scoped := state.started && p.threadId == Text(state.scope.thread) && p.turn.id == Text(state.scope.turn);
        if scoped && p.turn.status == OtherTurnStatus(false) {
          raised := true;
        } else if !scoped || !TerminalTurn(p.turn.status) {
          t := Record(t, InvalidEvent(topic), [InvalidNotification(topic)]);
        } else {
          t := Record(t, TurnCompletedEvent(p.turn.status, !p.turn.error.Missing?),
                      IncompleteViolations(state.startedItems, TextOrder.Sorted(state.startedItems.Keys)));
          t := t.(status := Some(p.turn.status), error := p.turn.error);
          flow := Return;
        }
      case ErrorMethod =>
        raised := true;
      case RemoteControlMethod =>
        t := Record(t, RemoteControlEvent(p.remoteControlDisabled),
                    if p.remoteControlDisabled then [] else [EnabledRemoteControl]);
      case ThreadStartedMethod =>
        var matches := p.startedThread == Text(state.scope.thread);
        t := Record(t, ThreadStartedEvent(matches), if matches then [] else [UnexpectedThreadStarted]);
      case OutputDeltaMethod =>
        var ok;
        ok, raised := state.AppendCommandOutputDelta(p);
        if ok {
          t := Record(t, PlainEvent(topic), []);
        } else {
          t := Record(t, InvalidEvent(topic), [InvalidNotification(topic)]);
        }
      case ItemScopedMethod(_) =>
        var open := p.itemId.Text? && p.itemId.text in state.startedItems;
        t := Scoped(t, topic, state.started && InTurn(state.scope, p) && open);
      case TurnScopedMethod(_) =>
        t := Scoped(t, topic, state.started && InTurn(state.scope, p));
      case ThreadScopedMethod(_) =>
        t := Scoped(t, topic, p.threadId == Text(state.scope.thread));
      case GlobalMethod(_) =>
        t := Record(t, PlainEvent(topic), []);
      case ServerRequestResolvedMethod =>
        t := Record(t, InvalidEvent(topic), [InvalidNotification(topic)]);
      case UnknownMethod(hashable) =>
        if hashable {
          t := Record(t, UnrecognizedEvent, [UnrecognizedNotification]);
        } else {
          raised := true;
        }
    }
    if raised {
      flow := Raise;
    }
  }

  function Scoped(t: Transcript, topic: Method, valid: bool): Transcript {
    if valid then Record(t, PlainEvent(topic), []) else Record(t, InvalidEvent(topic), [InvalidNotification(topic)])
  }

  method ObserveSettings(sc: Scope, t0: Transcript, activity: bool, p: Params) returns (t: Transcript, raised: bool)
    ensures forall items ::
      StepSettings(sc, Collector(items, activity, t0), p)
      == if raised then Raised else Next(Collector(items, activity, t))
  {
    t, raised := t0, false;
    if p.threadId != Text(sc.thread) {
      t := Record(t, InvalidEvent(SettingsUpdatedMethod), [InvalidNotification(SettingsUpdatedMethod)]);
    } else if p.settings.InvalidSettings? {
      raised := true;
    } else {
      var model, effort := p.settings.model, p.settings.effort;
      t := Record(t, SettingsEvent, []);
      t := t.(effectiveModel := Some(model), effectiveEffort := effort);
      t := t.(observedModels := t.observedModels + [model], observedEfforts := t.observedEfforts + [effort]);
      if !activity {
        t := t.(preActivityModels := t.preActivityModels + [model],
                preActivityEfforts := t.preActivityEfforts + [effort]);
      }
      t := t.(confirmed := Some((model, effort)));
    }
  }

  method ObserveReroute(sc: Scope, t0: Transcript, activity: bool, p: Params) returns (t: Transcript, raised: bool)
    ensures forall items ::
      StepRerouted(sc, Collector(items, activity, t0), p)
      == if raised then Raised else Next(Collector(items, activity, t))
  {
    t, raised := t0, false;
    if !InTurn(sc, p) {
      t := Record(t, InvalidEvent(ModelReroutedMethod), [InvalidNotification(ModelReroutedMethod)]);
    } else if p.fromModel.InvalidModel? || p.toModel.InvalidModel? || Some(p.fromModel.name) != t.effectiveModel {
      raised := true;
    } else {
      var model := p.toModel.name;
      t := Record(t, ReroutedEvent, []);
      t := t.(effectiveModel := Some(model), observedModels := t.observedModels + [model]);
      if !activity {
        t := t.(preActivityModels := t.preActivityModels + [model]);
      }
    }
  }
}
