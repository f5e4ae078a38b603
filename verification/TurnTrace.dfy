/** What a clean turn is, said of the message trace alone, and the proof that
    the collector accepts exactly the clean traces. */
module TurnTrace {
  import opened Common
  import opened Protocol
  import opened TurnCollector
  import TextOrder
  import TurnLedger

  // ------------------------------------------------- the declarative predicate

  predicate Is(m: Message, topic: Method) {
    m.Notification? && m.topic == topic
  }

  predicate Starts(m: Message, id: string) {
    Is(m, ItemStartedMethod) && m.params.item.id == Text(id)
  }

  predicate Completes(m: Message, id: string) {
    Is(m, ItemCompletedMethod) && m.params.item.id == Text(id)
  }

  ghost predicate TurnBegun(h: seq<Message>) {
    exists j :: 0 <= j < |h| && Is(h[j], TurnStartedMethod)
  }

  ghost predicate StartedIn(h: seq<Message>, id: string) {
    exists j :: 0 <= j < |h| && Starts(h[j], id)
  }

  ghost predicate CompletedIn(h: seq<Message>, id: string) {
    exists j :: 0 <= j < |h| && Completes(h[j], id)
  }

  ghost predicate OpenIn(h: seq<Message>, id: string) {
    StartedIn(h, id) && !CompletedIn(h, id)
  }

  /** Some start of `id` in the history has this item type and, for a command,
      this command. */
  ghost predicate StartedAs(h: seq<Message>, id: string, itemType: ItemType, command: Option<string>) {
    exists j :: 0 <= j < |h| && Starts(h[j], id) && h[j].params.item.kind == Typed(itemType)
                && (itemType.CommandExecution? ==> command.Some? && h[j].params.item.command == Text(command.value))
  }

  /** The message is about this turn. */
  predicate OwnTurn(sc: Scope, p: Params) {
    p.threadId == Text(sc.thread) && p.turnId == Text(sc.turn)
  }

  predicate OwnTurnInfo(sc: Scope, p: Params) {
    p.threadId == Text(sc.thread) && p.turn.id == Text(sc.turn)
  }

  /** A start in order, by item type: a command runs and names itself, other permitted
      items may be in progress. */
  predicate OrderlyStart(sc: Scope, p: Params) {
    && OwnTurn(sc, p)
    && p.item.id.Text? && p.item.id.text != ""
    && match p.item.kind
       case Typed(CommandExecution) =>
         p.item.status == InProgress && p.item.command.Text? && p.item.command.text != ""
       case Typed(AgentMessage) => p.item.status == NoStatus || p.item.status == InProgress
       case Typed(Informational(_)) => p.item.status == NoStatus || p.item.status == InProgress
       case _ => false
  }

  predicate Ended(s: ItemStatus) { s == Completed || s == Declined || s == Failed }

  /** A completion in order: of an item started under the same type and still open,
      and, by type, a command ended under the command it was started with, a message
      that did not fail. */
  ghost predicate CleanCompletion(sc: Scope, h: seq<Message>, p: Params) {
    && TurnBegun(h)
    && OwnTurn(sc, p)
    && p.item.id.Text?
    && !CompletedIn(h, p.item.id.text)
    && match p.item.kind
       case Typed(CommandExecution) =>
         && Ended(p.item.status)
         && p.item.command.Text? && p.item.command.text != ""
         && (p.item.aggregatedOutput.Missing? || p.item.aggregatedOutput.Text?)
         && StartedAs(h, p.item.id.text, CommandExecution, Some(p.item.command.text))
       case Typed(AgentMessage) =>
         && (p.item.status == NoStatus || p.item.status == Completed)
         && StartedAs(h, p.item.id.text, AgentMessage, None)
       case Typed(Informational(name)) =>
         && (p.item.status == NoStatus || Ended(p.item.status))
         && StartedAs(h, p.item.id.text, Informational(name), None)
       case _ => false
  }

  ghost predicate CleanNotification(sc: Scope, h: seq<Message>, m: Method, p: Params) {
    match m
    case TurnStartedMethod =>
      !TurnBegun(h) && OwnTurnInfo(sc, p) && p.turn.status == TurnInProgress
    case ItemStartedMethod =>
      TurnBegun(h) && OrderlyStart(sc, p) && !StartedIn(h, p.item.id.text)
    case ItemCompletedMethod => CleanCompletion(sc, h, p)
    case SettingsUpdatedMethod => p.threadId == Text(sc.thread)
    case ModelReroutedMethod => OwnTurn(sc, p)
    case TurnCompletedMethod =>
      && TurnBegun(h) && OwnTurnInfo(sc, p)
      && (p.turn.status == TurnCompleted || p.turn.status == TurnFailed || p.turn.status == TurnInterrupted)
      && forall id :: StartedIn(h, id) ==> CompletedIn(h, id)
    case RemoteControlMethod => p.remoteControlDisabled
    case ThreadStartedMethod => p.startedThread == Text(sc.thread)
    case OutputDeltaMethod =>
      && TurnBegun(h) && OwnTurn(sc, p) && p.itemId.Text? && p.delta.Text?
      && !CompletedIn(h, p.itemId.text)
      && exists j :: 0 <= j < |h| && Starts(h[j], p.itemId.text) && h[j].params.item.kind == Typed(CommandExecution)
    case ItemScopedMethod(_) => TurnBegun(h) && OwnTurn(sc, p) && p.itemId.Text? && OpenIn(h, p.itemId.text)
    case TurnScopedMethod(_) => TurnBegun(h) && OwnTurn(sc, p)
    case ThreadScopedMethod(_) => p.threadId == Text(sc.thread)
    case GlobalMethod(_) => true
    case ErrorMethod => false
    case ServerRequestResolvedMethod => false
    case UnknownMethod(_) => false
  }

  /** Message `m` is in order after history `h`. */
  ghost predicate CleanMessage(sc: Scope, h: seq<Message>, m: Message) {
    match m
    case Notification(topic, params) => CleanNotification(sc, h, topic, params)
    case Resolution(threadId, orderingValid) => orderingValid && threadId == Text(sc.thread)
    case _ => false
  }

  ghost predicate CleanTrace(sc: Scope, msgs: seq<Message>) {
    forall i :: 0 <= i < |msgs| ==> CleanMessage(sc, msgs[..i], msgs[i])
  }

  // --------------------------------------------------------------- simulation

  /** The collector's tables say what a clean history says. */
  ghost predicate Tracks(h: seq<Message>, st: Items) {
    && (st.started <==> TurnBegun(h))
    && (forall id :: id in st.completed <==> CompletedIn(h, id))
    && (forall id :: id in st.open <==> OpenIn(h, id))
    && (forall id, j :: id in st.open && 0 <= j < |h| && Starts(h[j], id) ==>
          && h[j].params.item.kind == Typed(st.open[id].itemType)
          && (st.open[id].itemType.CommandExecution? ==>
                st.open[id].command.Some? && h[j].params.item.command == Text(st.open[id].command.value)))
    && (forall id :: CompletedIn(h, id) ==> StartedIn(h, id))
    && (forall id :: id in st.open ==> Permitted(st.open[id].itemType))
  }

  lemma Extend(h: seq<Message>, m: Message)
    ensures TurnBegun(h + [m]) <==> TurnBegun(h) || Is(m, TurnStartedMethod)
    ensures forall id :: StartedIn(h + [m], id) <==> StartedIn(h, id) || Starts(m, id)
    ensures forall id :: CompletedIn(h + [m], id) <==> CompletedIn(h, id) || Completes(m, id)
  {
    var g := h + [m];
    assert forall j :: 0 <= j < |h| ==> g[j] == h[j];
    assert g[|h|] == m;
    if TurnBegun(h) {
      var j :| 0 <= j < |h| && Is(h[j], TurnStartedMethod);
      assert Is(g[j], TurnStartedMethod);
    }
    forall id | StartedIn(h, id) ensures StartedIn(g, id) {
      var j :| 0 <= j < |h| && Starts(h[j], id);
      assert Starts(g[j], id);
    }
    forall id | CompletedIn(h, id) ensures CompletedIn(g, id) {
      var j :| 0 <= j < |h| && Completes(h[j], id);
      assert Completes(g[j], id);
    }
  }

  lemma Adds(c: Collector, m: Message, sc: Scope)
    requires Step(sc, c, m).Next?
    ensures c.t.violations <= Step(sc, c, m).state.t.violations
  {
    hide Step;
    var e, vs := TurnLedger.StepMoves(sc, c, m);
  }

  /** Apart from the item types, a completion is in order for the tables exactly
      when it is for the history. */
  lemma CompletionAgrees(sc: Scope, h: seq<Message>, st: Items, p: Params)
    requires Tracks(h, st)
    ensures CanComplete(sc, st, p) <==> CleanCompletion(sc, h, p)
  {
    if CanComplete(sc, st, p) {
      var id := p.item.id.text;
      assert OpenIn(h, id);
      var j :| 0 <= j < |h| && Starts(h[j], id);
      assert StartedAs(h, id, p.item.kind.itemType,
                       if p.item.kind.itemType.CommandExecution? then Some(p.item.command.text) else None);
    }
    if CleanCompletion(sc, h, p) {
      var id := p.item.id.text;
      var j :| 0 <= j < |h| && Starts(h[j], id) && h[j].params.item.kind == p.item.kind
               && (p.item.kind.itemType.CommandExecution? ==> h[j].params.item.command == p.item.command);
      assert StartedIn(h, id);
      assert id in st.open;
    }
  }

  lemma DeltaAgrees(sc: Scope, h: seq<Message>, st: Items, p: Params)
    requires Tracks(h, st)
    ensures CanAppendDelta(sc, st, p) <==> CleanNotification(sc, h, OutputDeltaMethod, p)
  {
    hide TurnBegun, CompletedIn, CleanCompletion;
    if CanAppendDelta(sc, st, p) {
      var id := p.itemId.text;
      assert OpenIn(h, id);
      var j :| 0 <= j < |h| && Starts(h[j], id);
      assert h[j].params.item.kind == Typed(CommandExecution);
    }
    if CleanNotification(sc, h, OutputDeltaMethod, p) {
      assert StartedIn(h, p.itemId.text);
    }
  }

  lemma StartAgrees(sc: Scope, h: seq<Message>, c: Collector, p: Params)
    requires Tracks(h, c.items)
    ensures StepItemStarted(sc, c, p).Next?
    ensures StepItemStarted(sc, c, p).state.t.violations == c.t.violations
            <==> CleanNotification(sc, h, ItemStartedMethod, p)
  {
    hide TurnBegun, StartedIn, CompletedIn;
    if StartShape(sc, p) {
      var id := p.item.id.text;
      assert OpenIn(h, id) <==> StartedIn(h, id) && !CompletedIn(h, id);
      assert StartedIn(h, id) <==> id in c.items.open || id in c.items.completed;
    }
  }

  lemma CompletedAgrees(sc: Scope, h: seq<Message>, c: Collector, p: Params)
    requires Tracks(h, c.items) && StepItemCompleted(sc, c, p).Next?
    ensures StepItemCompleted(sc, c, p).state.t.violations == c.t.violations
            <==> CleanNotification(sc, h, ItemCompletedMethod, p)
  {
    CompletionAgrees(sc, h, c.items, p);
    if CanComplete(sc, c.items, p) {
      assert Permitted(c.items.open[p.item.id.text].itemType);
    }
    hide CleanCompletion, Tracks;
  }

  /** The other notifications, delta and item lifecycle aside. */
  lemma OtherAgrees(sc: Scope, h: seq<Message>, c: Collector, topic: Method, p: Params)
    requires Tracks(h, c.items) && StepNotification(sc, c, topic, p).Next?
    requires topic != ItemStartedMethod && topic != ItemCompletedMethod && topic != OutputDeltaMethod
    ensures StepNotification(sc, c, topic, p).state.t.violations == c.t.violations
            <==> CleanNotification(sc, h, topic, p)
  {
    hide TurnBegun, StartedIn, CompletedIn, StepItemStarted, StepItemCompleted, CleanCompletion, CanAppendDelta;
  }

  /** One message: no violation is added exactly when the message is clean. */
  lemma StepAgrees(sc: Scope, h: seq<Message>, c: Collector, m: Message)
    requires Tracks(h, c.items)
    requires Step(sc, c, m).Next?
    ensures Step(sc, c, m).state.t.violations == c.t.violations <==> CleanMessage(sc, h, m)
  {
    if m.Notification? {
      var topic, p := m.topic, m.params;
      if topic == ItemStartedMethod {
        StartAgrees(sc, h, c, p);
        hide StepItemStarted, Tracks;
      } else if topic == ItemCompletedMethod {
        CompletedAgrees(sc, h, c, p);
        hide StepItemCompleted, Tracks;
      } else if topic == OutputDeltaMethod {
        DeltaAgrees(sc, h, c.items, p);
        hide CanAppendDelta, Tracks, TurnBegun, CompletedIn;
      } else {
        OtherAgrees(sc, h, c, topic, p);
        hide StepNotification, CleanNotification, Tracks;
      }
    } else {
      hide Tracks;
    }
  }

  lemma DoneMeans(sc: Scope, c: Collector, m: Message)
    requires Step(sc, c, m).Done?
    ensures Is(m, TurnCompletedMethod)
    ensures c.items.started && m.params.threadId == Text(sc.thread) && m.params.turn.id == Text(sc.turn)
    ensures TerminalTurn(m.params.turn.status)
  {
    hide Step, TextOrder.Sorted;
    TurnLedger.DoneIsCompletion(sc, c, m);
  }

  lemma DoneAgrees(sc: Scope, h: seq<Message>, c: Collector, m: Message)
    requires Tracks(h, c.items)
    requires Step(sc, c, m).Done?
    ensures Step(sc, c, m).transcript.violations == c.t.violations <==> CleanMessage(sc, h, m)
  {
    hide Step, TextOrder.Sorted, TurnBegun, StartedIn, CompletedIn;
    DoneMeans(sc, c, m);
    TurnLedger.DoneCloses(sc, c, m);
    var ids := TextOrder.Sorted(c.items.open.Keys);
    if ids != [] {
      assert ids[0] in ids;
      assert OpenIn(h, ids[0]);
    } else {
      forall id | StartedIn(h, id) ensures CompletedIn(h, id) {
        assert id !in ids;
      }
    }
  }

  /** Messages that open or close nothing leave the history's tables alone. */
  lemma NeutralTracks(h: seq<Message>, st: Items, st': Items, m: Message)
    requires Tracks(h, st)
    requires !Is(m, ItemStartedMethod) && !Is(m, ItemCompletedMethod)
    requires st'.started == (st.started || Is(m, TurnStartedMethod))
    requires st'.completed == st.completed && st'.open.Keys == st.open.Keys
    requires forall id :: id in st.open ==>
      st'.open[id].itemType == st.open[id].itemType && st'.open[id].command == st.open[id].command
    ensures Tracks(h + [m], st')
  {
    hide TurnBegun, StartedIn, CompletedIn;
    Extend(h, m);
    var g := h + [m];
    assert forall id, j :: 0 <= j < |g| && Starts(g[j], id) ==> j < |h| && g[j] == h[j];
  }

  lemma NotStarted(h: seq<Message>, id: string)
    requires !StartedIn(h, id)
    ensures forall j :: 0 <= j < |h| ==> !Starts(h[j], id)
  { }

  lemma StartTracks(sc: Scope, h: seq<Message>, st: Items, m: Message)
    requires Tracks(h, st)
    requires Is(m, ItemStartedMethod) && CleanMessage(sc, h, m)
    ensures Tracks(h + [m], AfterStart(st, m.params))
  {
    hide TurnBegun, StartedIn, CompletedIn;
    Extend(h, m);
    var g := h + [m];
    var id0 := m.params.item.id.text;
    NotStarted(h, id0);
    assert forall id, j :: 0 <= j < |g| && Starts(g[j], id) ==> (j < |h| && g[j] == h[j]) || (j == |h| && id == id0);
  }

  lemma CompleteTracks(sc: Scope, h: seq<Message>, st: Items, m: Message)
    requires Tracks(h, st)
    requires Is(m, ItemCompletedMethod) && CleanMessage(sc, h, m) && CanComplete(sc, st, m.params)
    ensures Tracks(h + [m], AfterCompletion(st, m.params.item.id.text))
  {
    hide TurnBegun, StartedIn, CompletedIn, CompletionShape;
    Extend(h, m);
    var g := h + [m];
    assert OpenIn(h, m.params.item.id.text);
    assert forall id, j :: 0 <= j < |g| && Starts(g[j], id) ==> j < |h| && g[j] == h[j];
  }

  /** What a step does to the item table. */
  lemma StepItems(sc: Scope, c: Collector, m: Message)
    requires Step(sc, c, m).Next?
    ensures var st, st' := c.items, Step(sc, c, m).state.items;
            if Is(m, ItemStartedMethod) then
              CanStart(sc, st, m.params) ==> st' == AfterStart(st, m.params)
            else if Is(m, ItemCompletedMethod) then
              CanComplete(sc, st, m.params) ==> st' == AfterCompletion(st, m.params.item.id.text)
            else
              && st'.completed == st.completed && st'.open.Keys == st.open.Keys
              && (st'.started == st.started || (Is(m, TurnStartedMethod) && st'.started))
              && forall id :: id in st.open ==>
                   st'.open[id].itemType == st.open[id].itemType && st'.open[id].command == st.open[id].command
  {
  }

  /** One clean message: the tables keep tracking the history. */
  lemma StepTracks(sc: Scope, h: seq<Message>, c: Collector, m: Message)
    requires Tracks(h, c.items)
    requires Step(sc, c, m).Next? && CleanMessage(sc, h, m)
    ensures Tracks(h + [m], Step(sc, c, m).state.items)
  {
    StepItems(sc, c, m);
    if Is(m, ItemStartedMethod) {
      hide Step;
      var id := m.params.item.id.text;
      assert StartedIn(h, id) <==> id in c.items.open || id in c.items.completed;
      StartTracks(sc, h, c.items, m);
    } else if Is(m, ItemCompletedMethod) {
      hide Step;
      CompletionAgrees(sc, h, c.items, m.params);
      CompleteTracks(sc, h, c.items, m);
    } else {
      if Is(m, TurnStartedMethod) { assert Step(sc, c, m).state.items.started; }
      hide Step, Tracks;
      NeutralTracks(h, c.items, Step(sc, c, m).state.items, m);
    }
  }

  lemma CleanTraceSnoc(sc: Scope, msgs: seq<Message>)
    requires msgs != []
    ensures CleanTrace(sc, msgs)
            <==> CleanTrace(sc, msgs[..|msgs| - 1]) && CleanMessage(sc, msgs[..|msgs| - 1], msgs[|msgs| - 1])
  {
    var n := |msgs| - 1;
    var h := msgs[..n];
    forall i | 0 <= i < n ensures h[i] == msgs[i] && h[..i] == msgs[..i] { }
    if CleanTrace(sc, msgs) {
      forall i | 0 <= i < n ensures CleanMessage(sc, h[..i], h[i]) {
        assert CleanMessage(sc, msgs[..i], msgs[i]);
      }
    }
    if CleanTrace(sc, h) && CleanMessage(sc, h, msgs[n]) {
      forall i | 0 <= i < |msgs| ensures CleanMessage(sc, msgs[..i], msgs[i]) {
        if i < n { assert CleanMessage(sc, h[..i], h[i]); }
      }
    }
  }

  lemma {:induction false} PrefixAgrees(sc: Scope, c0: Collector, msgs: seq<Message>)
    requires Tracks([], c0.items) && c0.t.violations == []
    requires After(sc, c0, msgs).Next?
    ensures After(sc, c0, msgs).state.t.violations == [] <==> CleanTrace(sc, msgs)
    ensures CleanTrace(sc, msgs) ==> Tracks(msgs, After(sc, c0, msgs).state.items)
  {
    if msgs != [] {
      hide Step, Tracks, CleanMessage, CleanTrace;
      var n := |msgs| - 1;
      var h, m := msgs[..n], msgs[n];
      assert msgs == h + [m];
      PrefixAgrees(sc, c0, h);
      var c := After(sc, c0, h).state;
      Adds(c, m, sc);
      CleanTraceSnoc(sc, msgs);
      if CleanTrace(sc, h) {
        StepAgrees(sc, h, c, m);
        if CleanMessage(sc, h, m) { StepTracks(sc, h, c, m); }
      }
    }
  }

  /** The collector's verdict: over every message sequence on which it returns,
      it records no violation exactly when the trace is clean. */
  lemma {:induction false} CollectorAcceptsExactlyCleanTraces(
    sc: Scope, model: Option<string>, effort: Option<string>, msgs: seq<Message>)
    requires After(sc, NewCollector(model, effort), msgs).Done?
    ensures After(sc, NewCollector(model, effort), msgs).transcript.violations == [] <==> CleanTrace(sc, msgs)
  {
    var c0 := NewCollector(model, effort);
    assert Tracks([], c0.items);
    var n := |msgs| - 1;
    var h, m := msgs[..n], msgs[n];
    PrefixAgrees(sc, c0, h);
    var c := After(sc, c0, h).state;
    CleanTraceSnoc(sc, msgs);
    TurnLedger.DoneCloses(sc, c, m);
    if CleanTrace(sc, h) { DoneAgrees(sc, h, c, m); }
  }
}
