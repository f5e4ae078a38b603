/** What the collector's tables stand for, clean trace or not: the items left open, and
    the output streamed so far, which stays within its limits. */
module TurnTables {
  import opened Common
  import opened Protocol
  import opened TurnCollector
  import opened TurnLedger
  import opened TurnContents
  import TextOrder

  /** The type under which an item is open: its last accepted start or completion
      decides. */
  function OpenAs(msgs: seq<Message>, es: seq<Event>, id: string): Option<ItemType>
    requires |es| == |msgs|
  {
    if msgs == [] then None
    else
      var n := |msgs| - 1;
      if msgs[n].Notification? && msgs[n].params.item.id == Text(id) && es[n].ItemStartedEvent?
      then Some(es[n].itemType)
      else if msgs[n].Notification? && msgs[n].params.item.id == Text(id) && es[n].ItemCompletedEvent? then None
      else OpenAs(msgs[..n], es[..n], id)
  }

  /** All output accepted, in wire order. */
  function Streamed(msgs: seq<Message>, es: seq<Event>): seq<string>
    requires |es| == |msgs|
  {
    if msgs == [] then []
    else
      var n := |msgs| - 1;
      Streamed(msgs[..n], es[..n])
      + if es[n] == PlainEvent(OutputDeltaMethod) && msgs[n].Notification? && msgs[n].params.delta.Text?
        then [msgs[n].params.delta.text] else []
  }

  ghost predicate Bounded(output: seq<string>) {
    |output| <= MAX_PENDING_NOTIFICATIONS && Utf8Length(Concat(output)) <= MAX_TURN_INPUT_BYTES
  }

  ghost predicate OpenSays(msgs: seq<Message>, c: Collector) {
    && |c.t.events| == |msgs|
    && forall id :: OpenAs(msgs, c.t.events, id)
                    == if id in c.items.open then Some(c.items.open[id].itemType) else None
  }

  ghost predicate StreamSays(msgs: seq<Message>, c: Collector) {
    && |c.t.events| == |msgs|
    && var output := Streamed(msgs, c.t.events);
       && c.items.deltaEvents == |output| && c.items.deltaBytes == Utf8Length(Concat(output)) && Bounded(output)
  }

  lemma OpenSnoc(msgs: seq<Message>, es: seq<Event>, m: Message, e: Event, id: string)
    requires |es| == |msgs|
    ensures OpenAs(msgs + [m], es + [e], id) ==
            if m.Notification? && m.params.item.id == Text(id) && e.ItemStartedEvent? then Some(e.itemType)
            else if m.Notification? && m.params.item.id == Text(id) && e.ItemCompletedEvent? then None
            else OpenAs(msgs, es, id)
    ensures Streamed(msgs + [m], es + [e]) == Streamed(msgs, es)
            + if e == PlainEvent(OutputDeltaMethod) && m.Notification? && m.params.delta.Text?
              then [m.params.delta.text] else []
  {
    assert (msgs + [m])[..|msgs|] == msgs && (es + [e])[..|es|] == es;
  }

  lemma {:induction false} Utf8Append(a: string, b: string)
    ensures Utf8Length(a + b) == Utf8Length(a) + Utf8Length(b)
  {
    hide Utf8Size;
    if a == "" {
      assert a + b == b;
    } else {
      assert (a + b)[1..] == a[1..] + b;
      Utf8Append(a[1..], b);
    }
  }

  lemma OpenMoves(sc: Scope, msgs: seq<Message>, c: Collector, m: Message, d: Collector, e: Event)
    requires OpenSays(msgs, c) && TablesMove(sc, c, m, d, e)
    ensures OpenSays(msgs + [m], d)
  {
    hide OpenAs, RecordCommand, CompletionShape, Utf8Length;
    forall id
      ensures OpenAs(msgs + [m], d.t.events, id)
              == if id in d.items.open then Some(d.items.open[id].itemType) else None
    { OpenSnoc(msgs, c.t.events, m, e, id); }
  }

  lemma StreamMoves(sc: Scope, msgs: seq<Message>, c: Collector, m: Message, d: Collector, e: Event)
    requires StreamSays(msgs, c) && TablesMove(sc, c, m, d, e)
    ensures StreamSays(msgs + [m], d)
  {
    hide Streamed, RecordCommand, CanStart, CanComplete, StartedFrom, Utf8Length, Concat;
    OpenSnoc(msgs, c.t.events, m, e, "");
    var output := Streamed(msgs, c.t.events);
    if e == PlainEvent(OutputDeltaMethod) {
      var delta := m.params.delta.text;
      Utf8Append(Concat(output), delta);
      ConcatSnoc(output, delta);
    } else {
      assert output + [] == output;
    }
  }

  lemma ConcatSnoc(ds: seq<string>, d: string)
    ensures Concat(ds + [d]) == Concat(ds) + d
  {
    assert (ds + [d])[..|ds|] == ds;
  }

  lemma StartSays(model: Option<string>, effort: Option<string>)
    ensures OpenSays([], NewCollector(model, effort)) && StreamSays([], NewCollector(model, effort))
  { }

  lemma {:induction false} RunSays(sc: Scope, model: Option<string>, effort: Option<string>, msgs: seq<Message>)
    requires After(sc, NewCollector(model, effort), msgs).Next?
    ensures OpenSays(msgs, After(sc, NewCollector(model, effort), msgs).state)
    ensures StreamSays(msgs, After(sc, NewCollector(model, effort), msgs).state)
  {
    hide After, Step, NewCollector, TablesMove, WireMoves, OpenSays, StreamSays;
    var c0 := NewCollector(model, effort);
    LastNext(sc, c0, msgs);
    if msgs == [] {
      StartSays(model, effort);
    } else {
      var n := |msgs| - 1;
      RunSays(sc, model, effort, msgs[..n]);
      assert msgs == msgs[..n] + [msgs[n]];
      var c, d := After(sc, c0, msgs[..n]).state, After(sc, c0, msgs).state;
      var e := StepTables(sc, c, msgs[n]);
      OpenMoves(sc, msgs[..n], c, msgs[n], d, e);
      StreamMoves(sc, msgs[..n], c, msgs[n], d, e);
    }
  }

  /** The violations for open items name exactly the items started and not completed,
      each once, ordered by id, with the type they were started under. */
  ghost predicate NamesOpen(vs: seq<Violation>, ids: seq<string>, msgs: seq<Message>, es: seq<Event>)
    requires |es| == |msgs|
  {
    && |vs| == |ids|
    && (forall i, j :: 0 <= i < j < |ids| ==> TextOrder.Less(ids[i], ids[j]))
    && (forall id :: id in ids <==> OpenAs(msgs, es, id).Some?)
    && (forall k :: 0 <= k < |ids| ==>
          OpenAs(msgs, es, ids[k]).Some? && vs[k] == IncompleteItem(OpenAs(msgs, es, ids[k]).value))
  }

  lemma IncompleteNamesOpen(msgs: seq<Message>, c: Collector)
    requires OpenSays(msgs, c)
    ensures var ids := TextOrder.Sorted(c.items.open.Keys);
            NamesOpen(IncompleteViolations(c.items.open, ids), ids, msgs, c.t.events)
  {
    hide OpenAs, TextOrder.Sorted, TextOrder.Less;
  }

  /** In every collected turn the items reported incomplete are exactly those started
      and never completed, and the output streamed stays within its limits. */
  lemma TablesAreRight(sc: Scope, model: Option<string>, effort: Option<string>, msgs: seq<Message>)
    returns (ids: seq<string>)
    requires After(sc, NewCollector(model, effort), msgs).Done?
    ensures var t, n := After(sc, NewCollector(model, effort), msgs).transcript, |msgs| - 1;
            && |t.events| == |msgs| > 0
            && |ids| <= |t.violations|
            && NamesOpen(t.violations[|t.violations| - |ids|..], ids, msgs[..n], t.events[..n])
            && Bounded(Streamed(msgs[..n], t.events[..n]))
  {
    hide After, Step, NewCollector, NamesOpen, Streamed, OpenAs, Bounded;
    var n := |msgs| - 1;
    var c := LastStep(sc, model, effort, msgs);
    RunSays(sc, model, effort, msgs[..n]);
    var t := After(sc, NewCollector(model, effort), msgs).transcript;
    ids := TextOrder.Sorted(c.items.open.Keys);
    IncompleteNamesOpen(msgs[..n], c);
    assert t.events[..n] == c.t.events;
    assert t.violations[|t.violations| - |ids|..] == IncompleteViolations(c.items.open, ids);
  }
}
