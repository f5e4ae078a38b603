/** What a transcript holds, read off the messages: every recorded command and agent
    message is the completion that stands at its wire position, and streamed output
    is exactly the deltas accepted for its item. */
module TurnContents {
  import opened Common
  import opened Protocol
  import opened TurnCollector
  import opened TurnLedger
  import TextOrder

  /** Message `m` was accepted as output for item `id`. */
  predicate IsDelta(m: Message, e: Event, id: string) {
    e == PlainEvent(OutputDeltaMethod) && m.Notification? && m.params.itemId == Text(id) && m.params.delta.Text?
  }

  /** The output accepted for an item, in wire order. */
  function DeltasFor(msgs: seq<Message>, es: seq<Event>, id: string): seq<string>
    requires |es| == |msgs|
  {
    if msgs == [] then []
    else
      var n := |msgs| - 1;
      DeltasFor(msgs[..n], es[..n], id)
      + if IsDelta(msgs[n], es[n], id) then [msgs[n].params.delta.text] else []
  }

  function Concat(ds: seq<string>): string {
    if ds == [] then "" else Concat(ds[..|ds| - 1]) + ds[|ds| - 1]
  }

  /** A command record against its completion and the output accepted before it. */
  predicate RecordsCommand(r: CommandRecord, item: Item, ds: seq<string>) {
    && Text(r.command) == item.command && r.exitCode == item.exitCode && r.status == item.status
    && r.deltaCount == |ds|
    && (item.aggregatedOutput.Text? ==> r.output == Some(item.aggregatedOutput.text) && r.source == Aggregate)
    && (item.aggregatedOutput.Missing? && ds != [] ==> r.output == Some(Concat(ds)) && r.source == Deltas)
    && (item.aggregatedOutput.Missing? && ds == [] ==> r.output == None && r.source == Absent)
  }

  /** Every recorded command and message is what the wire says at its position. */
  ghost predicate Holds(msgs: seq<Message>, t: Transcript) {
    && |t.events| == |msgs| && |t.commands| == |t.commandSequences| && |t.messages| == |t.messageSequences|
    && (forall k :: 0 <= k < |t.commands| ==> HoldsCommand(msgs, t, k))
    && (forall k :: 0 <= k < |t.messages| ==> HoldsMessage(msgs, t, k))
  }

  ghost predicate HoldsCommand(msgs: seq<Message>, t: Transcript, k: nat)
    requires |t.events| == |msgs| && |t.commands| == |t.commandSequences| && k < |t.commands|
  {
    var p := t.commandSequences[k];
    && p < |msgs| && msgs[p].Notification? && msgs[p].params.item.id.Text?
    && var item := msgs[p].params.item;
       RecordsCommand(t.commands[k], item, DeltasFor(msgs[..p], t.events[..p], item.id.text))
  }

  ghost predicate HoldsMessage(msgs: seq<Message>, t: Transcript, k: nat)
    requires |t.messages| == |t.messageSequences| && k < |t.messages|
  {
    var p := t.messageSequences[k];
    p < |msgs| && msgs[p].Notification? && t.messages[k] == msgs[p].params.item.text
  }

  /** The open items' buffers hold the accepted output; unseen items have none. */
  ghost predicate Buffers(msgs: seq<Message>, c: Collector) {
    && |c.t.events| == |msgs|
    && (forall id :: id in c.items.open ==> c.items.open[id].deltas == DeltasFor(msgs, c.t.events, id))
    && (forall id :: id !in c.items.open && id !in c.items.completed ==> DeltasFor(msgs, c.t.events, id) == [])
  }

  lemma DeltasSnoc(msgs: seq<Message>, es: seq<Event>, m: Message, e: Event, id: string)
    requires |es| == |msgs|
    ensures DeltasFor(msgs + [m], es + [e], id)
            == DeltasFor(msgs, es, id) + if IsDelta(m, e, id) then [m.params.delta.text] else []
  {
    assert (msgs + [m])[..|msgs|] == msgs && (es + [e])[..|es|] == es;
  }

  lemma {:induction false} JoinIsConcat(ds: seq<string>)
    ensures JoinDeltas(ds) == Concat(ds)
  {
    if ds != [] {
      JoinSplit(ds[..|ds| - 1], ds[|ds| - 1]);
      JoinIsConcat(ds[..|ds| - 1]);
      assert ds == ds[..|ds| - 1] + [ds[|ds| - 1]];
    }
  }

  lemma {:induction false} JoinSplit(ds: seq<string>, d: string)
    ensures JoinDeltas(ds + [d]) == JoinDeltas(ds) + d
  {
    if ds == [] {
      assert ds + [d] == [d] && [d][1..] == [];
    } else {
      assert (ds + [d])[1..] == ds[1..] + [d];
      JoinSplit(ds[1..], d);
      Regroup(ds[0], JoinDeltas(ds[1..]), d);
    }
  }

  // --------------------------------------------------------------- what a step does

  /** The tables and the records, message by message. */
  ghost predicate TablesMove(sc: Scope, c: Collector, m: Message, d: Collector, e: Event) {
    && d.t.events == c.t.events + [e]
    && (if e == PlainEvent(OutputDeltaMethod) then
          && m.Notification? && m.params.itemId.Text? && m.params.delta.Text?
          && m.params.itemId.text in c.items.open
          && c.items.deltaEvents < MAX_PENDING_NOTIFICATIONS
          && c.items.deltaBytes + Utf8Length(m.params.delta.text) <= MAX_TURN_INPUT_BYTES
          && d.items == AfterDelta(c.items, m.params.itemId.text, m.params.delta.text)
          && d.t.commands == c.t.commands && d.t.messages == c.t.messages
        else if m.Notification? && m.topic == ItemStartedMethod && CanStart(sc, c.items, m.params) then
          && e == ItemStartedEvent(m.params.item.kind.itemType, m.params.item.status)
          && d.items == AfterStart(c.items, m.params)
          && d.t.commands == c.t.commands && d.t.messages == c.t.messages
        else if m.Notification? && m.topic == ItemCompletedMethod && CanComplete(sc, c.items, m.params) then
          && e == ItemCompletedEvent(m.params.item.kind.itemType, m.params.item.status)
          && d.items == AfterCompletion(c.items, m.params.item.id.text)
          && (var item := m.params.item;
              && d.t.commands == c.t.commands + (if item.kind.itemType.CommandExecution?
                                                 then [RecordCommand(item, c.items.open[item.id.text])] else [])
              && d.t.messages == c.t.messages + (if item.kind.itemType.AgentMessage? then [item.text] else []))
        else
          && !e.ItemStartedEvent? && !e.ItemCompletedEvent?
          && d.items.open == c.items.open && d.items.completed == c.items.completed
          && d.items.deltaEvents == c.items.deltaEvents && d.items.deltaBytes == c.items.deltaBytes
          && d.t.commands == c.t.commands && d.t.messages == c.t.messages)
  }

  lemma StepTables(sc: Scope, c: Collector, m: Message) returns (e: Event)
    requires Step(sc, c, m).Next?
    ensures TablesMove(sc, c, m, Step(sc, c, m).state, e)
    ensures WireMoves(m, c.t, Step(sc, c, m).state.t, e)
  {
    var vs;
    e, vs := StepMoves(sc, c, m);
    TablesOf(sc, c, m, e);
  }

  lemma TablesOf(sc: Scope, c: Collector, m: Message, e: Event)
    requires Step(sc, c, m).Next? && WireMoves(m, c.t, Step(sc, c, m).state.t, e)
    ensures TablesMove(sc, c, m, Step(sc, c, m).state, e)
  {
    hide WireMoves, RecordCommand, Caused, CanStart, CanComplete, CanAppendDelta;
    EventAdded(sc, c, m, e);
    var d := Step(sc, c, m).state;
    assert e == d.t.events[|c.t.events|];
    if m.Notification? && m.topic == OutputDeltaMethod && CanAppendDelta(sc, c.items, m.params) {
      DeltaTables(sc, c, m.params);
      hide StepNotification, AfterDelta;
    } else if m.Notification? && m.topic == ItemStartedMethod && CanStart(sc, c.items, m.params) {
      StartTables(sc, c, m.params);
      hide StepItemStarted, AfterStart;
    } else if m.Notification? && m.topic == ItemCompletedMethod && CanComplete(sc, c.items, m.params) {
      CompletionTables(sc, c, m.params);
      hide StepItemCompleted, AfterCompletion;
    } else {
      OtherTables(sc, c, m);
      hide Step, AfterStart, AfterCompletion, AfterDelta;
    }
  }

  lemma DeltaTables(sc: Scope, c: Collector, p: Params)
    requires CanAppendDelta(sc, c.items, p) && StepNotification(sc, c, OutputDeltaMethod, p).Next?
    ensures var d := StepNotification(sc, c, OutputDeltaMethod, p).state;
            && p.itemId.Text? && p.delta.Text? && p.itemId.text in c.items.open
            && c.items.deltaEvents < MAX_PENDING_NOTIFICATIONS
            && c.items.deltaBytes + Utf8Length(p.delta.text) <= MAX_TURN_INPUT_BYTES
            && d.items == AfterDelta(c.items, p.itemId.text, p.delta.text)
            && d.t.commands == c.t.commands && d.t.messages == c.t.messages
            && d.t.events == c.t.events + [PlainEvent(OutputDeltaMethod)]
  { }

  lemma StartTables(sc: Scope, c: Collector, p: Params)
    requires CanStart(sc, c.items, p)
    ensures StepItemStarted(sc, c, p).Next?
    ensures var d := StepItemStarted(sc, c, p).state;
            && d.items == AfterStart(c.items, p) && d.t.commands == c.t.commands && d.t.messages == c.t.messages
            && d.t.events == c.t.events + [ItemStartedEvent(p.item.kind.itemType, p.item.status)]
  { }

  lemma CompletionTables(sc: Scope, c: Collector, p: Params)
    requires CanComplete(sc, c.items, p) && StepItemCompleted(sc, c, p).Next?
    ensures var d, kind := StepItemCompleted(sc, c, p).state, p.item.kind.itemType;
            && d.items == AfterCompletion(c.items, p.item.id.text)
            && d.t.commands == c.t.commands + (if kind.CommandExecution?
                                               then [RecordCommand(p.item, c.items.open[p.item.id.text])] else [])
            && d.t.messages == c.t.messages + (if kind.AgentMessage? then [p.item.text] else [])
            && d.t.events == c.t.events + [ItemCompletedEvent(kind, p.item.status)]
  {
    hide RecordCommand;
  }

  /** The message leaves open and completed items, commands and messages alone. */
  ghost predicate Untouched(c: Collector, d: Collector) {
    && d.items.open == c.items.open && d.items.completed == c.items.completed
    && d.t.commands == c.t.commands && d.t.messages == c.t.messages
    && d.items.deltaEvents == c.items.deltaEvents && d.items.deltaBytes == c.items.deltaBytes
    && |d.t.events| == |c.t.events| + 1
    && var e := d.t.events[|c.t.events|];
       e != PlainEvent(OutputDeltaMethod) && !e.ItemStartedEvent? && !e.ItemCompletedEvent?
  }

  lemma OtherTables(sc: Scope, c: Collector, m: Message)
    requires Step(sc, c, m).Next?
    requires m.Notification? ==>
      && !(m.topic == OutputDeltaMethod && CanAppendDelta(sc, c.items, m.params))
      && !(m.topic == ItemStartedMethod && CanStart(sc, c.items, m.params))
      && !(m.topic == ItemCompletedMethod && CanComplete(sc, c.items, m.params))
    ensures Untouched(c, Step(sc, c, m).state)
  {
    if m.Notification? {
      hide Untouched, CanStart, CanComplete, CanAppendDelta;
      OtherTopics(sc, c, m.topic, m.params);
      hide StepNotification;
    } else {
      hide StepNotification, DeniedScope;
    }
  }

  lemma OtherTopics(sc: Scope, c: Collector, topic: Method, p: Params)
    requires StepNotification(sc, c, topic, p).Next?
    requires topic == OutputDeltaMethod ==> !CanAppendDelta(sc, c.items, p)
    requires topic == ItemStartedMethod ==> !CanStart(sc, c.items, p)
    requires topic == ItemCompletedMethod ==> !CanComplete(sc, c.items, p)
    ensures Untouched(c, StepNotification(sc, c, topic, p).state)
  {
    hide CanStart, CanComplete, CanAppendDelta, CompletionFaults, InTurn, StepTurnCompleted, AfterStart,
      AfterCompletion, AfterDelta, DeltaOverflows, Permitted;
    if topic == SettingsUpdatedMethod || topic == ModelReroutedMethod {
      hide StepItemStarted, StepItemCompleted;
    } else if topic == TurnCompletedMethod {
      hide StepItemStarted, StepItemCompleted, StepSettings, StepRerouted;
      NoNextAtCompletion(sc, c, p);
    } else {
      hide StepSettings, StepRerouted;
    }
  }

  lemma NoNextAtCompletion(sc: Scope, c: Collector, p: Params)
    requires StepTurnCompleted(sc, c, p).Next?
    ensures StepTurnCompleted(sc, c, p) == Reject(c, TurnCompletedMethod)
  {
    hide TextOrder.Sorted, IncompleteViolations;
  }

  lemma EventAdded(sc: Scope, c: Collector, m: Message, e: Event)
    requires Step(sc, c, m).Next? && WireMoves(m, c.t, Step(sc, c, m).state.t, e)
    ensures Step(sc, c, m).state.t.events == c.t.events + [e]
  {
    hide Step;
  }

  lemma BuffersMove(sc: Scope, msgs: seq<Message>, c: Collector, m: Message, d: Collector, e: Event)
    requires Buffers(msgs, c) && TablesMove(sc, c, m, d, e)
    ensures Buffers(msgs + [m], d)
  {
    hide DeltasFor, CompletionShape, StartShape, RecordCommand;
    forall id
      ensures DeltasFor(msgs + [m], c.t.events + [e], id)
              == DeltasFor(msgs, c.t.events, id) + if IsDelta(m, e, id) then [m.params.delta.text] else []
    { DeltasSnoc(msgs, c.t.events, m, e, id); }
  }

  lemma HoldsMove(sc: Scope, msgs: seq<Message>, c: Collector, m: Message, d: Collector, e: Event)
    requires Buffers(msgs, c) && Holds(msgs, c.t)
    requires TablesMove(sc, c, m, d, e) && WireMoves(m, c.t, d.t, e)
    ensures Holds(msgs + [m], d.t)
  {
    hide DeltasFor, CompletionShape, StartShape, RecordCommand, AfterDelta, AfterStart, RecordsCommand, Buffers;
    var all, n := msgs + [m], |msgs|;
    assert all[n] == m;
    forall k | 0 <= k < |d.t.commands| ensures HoldsCommand(all, d.t, k) {
      if k < |c.t.commands| {
        assert HoldsCommand(msgs, c.t, k);
        var p := c.t.commandSequences[k];
        assert all[..p] == msgs[..p] && d.t.events[..p] == c.t.events[..p] && all[p] == msgs[p];
        assert d.t.commands[k] == c.t.commands[k] && d.t.commandSequences[k] == p;
      } else {
        NewCommand(sc, msgs, c, m, d, e);
        assert all[..n] == msgs && d.t.events[..n] == c.t.events;
      }
    }
    forall k | 0 <= k < |d.t.messages| ensures HoldsMessage(all, d.t, k) {
      if k < |c.t.messages| { assert HoldsMessage(msgs, c.t, k); }
    }
  }

  lemma NewCommand(sc: Scope, msgs: seq<Message>, c: Collector, m: Message, d: Collector, e: Event)
    requires Buffers(msgs, c) && TablesMove(sc, c, m, d, e) && WireMoves(m, c.t, d.t, e)
    requires |d.t.commands| > |c.t.commands|
    ensures m.Notification? && m.params.item.id.Text? && |d.t.commands| == |c.t.commands| + 1
    ensures RecordsCommand(
              d.t.commands[|c.t.commands|], m.params.item, DeltasFor(msgs, c.t.events, m.params.item.id.text))
  {
    hide DeltasFor, StartShape, AfterDelta, AfterStart;
    var item := m.params.item;
    JoinIsConcat(c.items.open[item.id.text].deltas);
  }

  // ------------------------------------------------------------- violations

  predicate Barred(t: ItemType) { t.Disallowed? || t.Unrecognized? }

  /** What a message is blamed for, by the event it became. */
  function Blame(m: Message, e: Event): seq<Violation> {
    match e
    case MalformedEvent => if m.Malformed? then [MalformedWireMessage] else [UnrecognizedWireMessage]
    case ServerRequestEvent(denied, inScope) =>
      [DisallowedServerRequest] + if denied && !inScope then [InvalidServerRequestScope] else []
    case ResolvedEvent(valid) => if valid then [] else [InvalidResolutionScope]
    case InvalidEvent(topic) => [InvalidNotification(topic)]
    case ItemStartedEvent(itemType, _) => if Barred(itemType) then [DisallowedStartedItem(itemType)] else []
    case ItemCompletedEvent(itemType, _) => if Barred(itemType) then [DisallowedCompletedItem(itemType)] else []
    case RemoteControlEvent(disabled) => if disabled then [] else [EnabledRemoteControl]
    case ThreadStartedEvent(matches) => if matches then [] else [UnexpectedThreadStarted]
    case UnrecognizedEvent => [UnrecognizedNotification]
    case _ => []
  }

  function Blamed(msgs: seq<Message>, es: seq<Event>): seq<Violation>
    requires |es| == |msgs|
  {
    if msgs == [] then []
    else var n := |msgs| - 1; Blamed(msgs[..n], es[..n]) + Blame(msgs[n], es[n])
  }

  lemma BlamedSnoc(msgs: seq<Message>, es: seq<Event>, m: Message, e: Event)
    requires |es| == |msgs|
    ensures Blamed(msgs + [m], es + [e]) == Blamed(msgs, es) + Blame(m, e)
  {
    assert (msgs + [m])[..|msgs|] == msgs && (es + [e])[..|es|] == es;
  }

  /** From `c` to `d` the message adds one event and the violations it is blamed for. */
  ghost predicate Blames(m: Message, c: Collector, d: Collector) {
    |d.t.events| == |c.t.events| + 1 && d.t.violations == c.t.violations + Blame(m, d.t.events[|c.t.events|])
  }

  lemma ItemBlames(sc: Scope, c: Collector, topic: Method, p: Params)
    requires StepNotification(sc, c, topic, p).Next? && (topic == ItemStartedMethod || topic == ItemCompletedMethod)
    ensures Blames(Notification(topic, p), c, StepNotification(sc, c, topic, p).state)
  {
    hide CompletionFaults, InTurn, CompletionShape, AfterStart, AfterCompletion, RecordCommand, StepSettings,
      StepRerouted, StepTurnCompleted;
  }

  lemma RouteBlames(sc: Scope, c: Collector, topic: Method, p: Params)
    requires StepNotification(sc, c, topic, p).Next?
    requires topic == SettingsUpdatedMethod || topic == ModelReroutedMethod || topic == TurnCompletedMethod
    ensures Blames(Notification(topic, p), c, StepNotification(sc, c, topic, p).state)
  {
    hide StepItemStarted, StepItemCompleted, InTurn;
    if topic == TurnCompletedMethod {
      hide StepTurnCompleted;
      NoNextAtCompletion(sc, c, p);
    } else {
      hide StepTurnCompleted;
    }
  }

  lemma OtherBlames(sc: Scope, c: Collector, topic: Method, p: Params)
    requires StepNotification(sc, c, topic, p).Next?
    requires topic != ItemStartedMethod && topic != ItemCompletedMethod
    requires topic != SettingsUpdatedMethod && topic != ModelReroutedMethod && topic != TurnCompletedMethod
    ensures Blames(Notification(topic, p), c, StepNotification(sc, c, topic, p).state)
  {
    hide StepItemStarted, StepItemCompleted, StepSettings, StepRerouted, StepTurnCompleted, CanAppendDelta, InTurn,
      AfterDelta, DeltaOverflows;
  }

  lemma StepBlames(sc: Scope, c: Collector, m: Message)
    requires Step(sc, c, m).Next?
    ensures Blames(m, c, Step(sc, c, m).state)
  {
    if m.Notification? {
      hide StepNotification, Blames;
      var topic, p := m.topic, m.params;
      if topic == ItemStartedMethod || topic == ItemCompletedMethod {
        ItemBlames(sc, c, topic, p);
      } else if topic == SettingsUpdatedMethod || topic == ModelReroutedMethod || topic == TurnCompletedMethod {
        RouteBlames(sc, c, topic, p);
      } else {
        OtherBlames(sc, c, topic, p);
      }
    } else {
      hide StepNotification, DeniedScope;
    }
  }

  lemma {:induction false} RunHolds(sc: Scope, model: Option<string>, effort: Option<string>, msgs: seq<Message>)
    requires After(sc, NewCollector(model, effort), msgs).Next?
    ensures Buffers(msgs, After(sc, NewCollector(model, effort), msgs).state)
    ensures Holds(msgs, After(sc, NewCollector(model, effort), msgs).state.t)
    ensures var t := After(sc, NewCollector(model, effort), msgs).state.t; t.violations == Blamed(msgs, t.events)
  {
    hide After, Step, Buffers, Holds, TablesMove, NewCollector, Caused, Blame, Blamed;
    var c0 := NewCollector(model, effort);
    LastNext(sc, c0, msgs);
    if msgs == [] {
      StartHolds(model, effort);
    } else {
      var n := |msgs| - 1;
      RunHolds(sc, model, effort, msgs[..n]);
      assert msgs == msgs[..n] + [msgs[n]];
      var c := After(sc, c0, msgs[..n]).state;
      var e := StepTables(sc, c, msgs[n]);
      BuffersMove(sc, msgs[..n], c, msgs[n], After(sc, c0, msgs).state, e);
      HoldsMove(sc, msgs[..n], c, msgs[n], After(sc, c0, msgs).state, e);
      StepBlames(sc, c, msgs[n]);
      SizeOf(msgs[..n], c);
      BlamedSnoc(msgs[..n], c.t.events, msgs[n], e);
    }
  }

  lemma SizeOf(msgs: seq<Message>, c: Collector)
    requires Buffers(msgs, c)
    ensures |c.t.events| == |msgs|
  { }

  lemma StartHolds(model: Option<string>, effort: Option<string>)
    ensures Buffers([], NewCollector(model, effort)) && Holds([], NewCollector(model, effort).t)
    ensures NewCollector(model, effort).t.violations == [] && NewCollector(model, effort).t.events == []
    ensures Blamed([], []) == []
  { }

  /** In every collected turn the recorded commands and messages are those of the
      wire, status and error are those of the closing message, and the violations are
      what each message is blamed for, in wire order, and then the items left open. */
  lemma TranscriptHolds(sc: Scope, model: Option<string>, effort: Option<string>, msgs: seq<Message>)
    requires After(sc, NewCollector(model, effort), msgs).Done?
    ensures var t := After(sc, NewCollector(model, effort), msgs).transcript;
            && Holds(msgs, t)
            && msgs != [] && msgs[|msgs| - 1].Notification?
            && t.status == Some(msgs[|msgs| - 1].params.turn.status)
            && t.error == msgs[|msgs| - 1].params.turn.error
            && var blamed := Blamed(msgs[..|msgs| - 1], t.events[..|msgs| - 1]);
               blamed <= t.violations && forall v :: v in t.violations[|blamed|..] ==> v.IncompleteItem?
  {
    hide Step, Buffers, NewCollector, Blamed, Blame;
    var n := |msgs| - 1;
    var c := LastStep(sc, model, effort, msgs);
    RunHolds(sc, model, effort, msgs[..n]);
    var t := After(sc, NewCollector(model, effort), msgs).transcript;
    DoneIsCompletion(sc, c, msgs[n]);
    SizeOf(msgs[..n], c);
    assert t.events[..n] == c.t.events;
    var open := IncompleteViolations(c.items.open, TextOrder.Sorted(c.items.open.Keys));
    assert t.violations == Blamed(msgs[..n], t.events[..n]) + open;
    hide After;
    forall k | 0 <= k < |t.commands| ensures HoldsCommand(msgs, t, k) {
      assert HoldsCommand(msgs[..n], c.t, k);
      var p := t.commandSequences[k];
      assert msgs[..n][..p] == msgs[..p] && c.t.events[..p] == t.events[..p] && msgs[..n][p] == msgs[p];
    }
    forall k | 0 <= k < |t.messages| ensures HoldsMessage(msgs, t, k) {
      assert HoldsMessage(msgs[..n], c.t, k);
    }
  }
}
