/** Everything that holds of a collected turn, said of the messages it consumed,
    and exactly when collecting raises instead. */
module TurnVerdict {
  import opened Common
  import opened Protocol
  import opened TurnCollector
  import opened TurnTrace
  import TurnLedger
  import TurnRoutes
  import TurnContents
  import TextOrder

  /** A denied request about an item of this turn whose reference cannot be looked up. */
  predicate RaisesDenied(sc: Scope, m: Message) {
    && m.Denied? && m.kind.ItemRequest? && m.orderingValid
    && (m.threadId == Missing || m.threadId == Text(sc.thread))
    && (m.turnId == Missing || m.turnId == Text(sc.turn))
    && m.itemReference == Other(false)
  }

  /** An id that cannot be looked up, or such a status on the completion of an open item. */
  predicate RaisesCompletion(sc: Scope, st: Items, p: Params) {
    || p.item.id == Other(false)
    || (&& st.started && OwnTurn(sc, p) && p.item.id.Text? && p.item.id.text in st.open
        && p.item.kind == Typed(st.open[p.item.id.text].itemType)
        && p.item.status == OtherStatus(false))
  }

  /** Output for an open command past the number or the size a turn may stream. */
  predicate RaisesDelta(sc: Scope, st: Items, p: Params) {
    && st.started && OwnTurn(sc, p) && p.itemId.Text? && p.delta.Text? && p.itemId.text in st.open
    && st.open[p.itemId.text].itemType == CommandExecution
    && (st.deltaEvents + 1 > MAX_PENDING_NOTIFICATIONS
        || st.deltaBytes + Utf8Length(p.delta.text) > MAX_TURN_INPUT_BYTES)
  }

  predicate RaisesNotification(sc: Scope, st: Items, effective: Option<string>, topic: Method, p: Params) {
    match topic
    case ErrorMethod => true
    case UnknownMethod(hashable) => !hashable
    case SettingsUpdatedMethod => p.threadId == Text(sc.thread) && p.settings == InvalidSettings
    case ModelReroutedMethod =>
      OwnTurn(sc, p) && !(p.toModel.ValidModel? && effective.Some? && p.fromModel == ValidModel(effective.value))
    case ItemCompletedMethod => RaisesCompletion(sc, st, p)
    case OutputDeltaMethod => RaisesDelta(sc, st, p)
    case TurnCompletedMethod => st.started && OwnTurnInfo(sc, p) && p.turn.status == OtherTurnStatus(false)
    case _ => false
  }

  lemma RaisesExactlyOnNotification(sc: Scope, c: Collector, topic: Method, p: Params)
    ensures StepNotification(sc, c, topic, p).Raised?
            <==> RaisesNotification(sc, c.items, c.t.effectiveModel, topic, p)
  {
    hide CanStart, CompletionShape, TextOrder.Sorted, AfterStart, AfterCompletion, AfterDelta, RecordCommand,
      Permitted, Utf8Length;
  }

  /** A message raises exactly in these cases; all others are recorded. */
  lemma RaisesExactly(sc: Scope, c: Collector, m: Message)
    ensures Step(sc, c, m).Raised?
            <==> RaisesDenied(sc, m)
                 || (m.Notification? && RaisesNotification(sc, c.items, c.t.effectiveModel, m.topic, m.params))
  {
    if m.Notification? {
      hide StepNotification, RaisesNotification;
      RaisesExactlyOnNotification(sc, c, m.topic, m.params);
    } else {
      hide StepNotification, RaisesNotification;
    }
  }

  /** A collected turn, judged: the trace consumed is clean exactly when no
      violation is recorded; accepted starts are accepted completions plus items
      reported incomplete; every event stands at its wire position; the route is what
      the messages say; and the records hold what the completions and the streamed
      output say. */
  method CollectJudgedTurn(sc: Scope, model: Option<string>, effort: Option<string>, msgs: seq<Message>)
    returns (r: Collected)
    ensures r.Returned? ==> 0 < r.consumed <= |msgs|
    ensures r.Returned? ==> (r.transcript.violations == [] <==> CleanTrace(sc, msgs[..r.consumed]))
    ensures r.Returned? ==> Is(msgs[r.consumed - 1], TurnCompletedMethod)
    ensures r.Returned? ==>
              |TurnLedger.Positions(r.transcript.events, TurnLedger.IS_START)|
              == |TurnLedger.Positions(r.transcript.events, TurnLedger.IS_COMPLETION)|
                 + TurnLedger.CountIncomplete(r.transcript.violations)
    ensures r.Returned? ==> TurnLedger.OnWire(msgs[..r.consumed], r.transcript)
    ensures r.Returned? ==>
              TurnRoutes.Reads(sc, model, effort, msgs[..r.consumed], TurnLedger.RouteOf(r.transcript))
    ensures r.Returned? ==> TurnContents.Holds(msgs[..r.consumed], r.transcript)
    ensures r.Returned? ==>
              && r.transcript.status == Some(msgs[r.consumed - 1].params.turn.status)
              && r.transcript.error == msgs[r.consumed - 1].params.turn.error
  {
    hide After, Step, NewCollector, CleanTrace, TurnLedger.OnWire, TurnLedger.Positions, TurnLedger.CountIncomplete,
      TurnRoutes.Reads, TurnContents.Holds;
    r := CollectTurn(sc, model, effort, msgs);
    if r.Returned? {
      var consumed := msgs[..r.consumed];
      CollectorAcceptsExactlyCleanTraces(sc, model, effort, consumed);
      TurnLedger.ItemsAreConserved(sc, model, effort, consumed);
      TurnLedger.SequencesAreWirePositions(sc, model, effort, consumed);
      TurnRoutes.RouteIsRead(sc, model, effort, consumed);
      TurnContents.TranscriptHolds(sc, model, effort, consumed);
      EndsWithCompletion(sc, model, effort, consumed);
    }
  }

  lemma EndsWithCompletion(sc: Scope, model: Option<string>, effort: Option<string>, msgs: seq<Message>)
    requires After(sc, NewCollector(model, effort), msgs).Done?
    ensures msgs != [] && Is(msgs[|msgs| - 1], TurnCompletedMethod)
  {
    hide Step, NewCollector;
    var c := TurnLedger.LastStep(sc, model, effort, msgs);
    DoneMeans(sc, c, msgs[|msgs| - 1]);
  }
}
