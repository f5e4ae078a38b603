/** The route history of a turn, read off its messages: which models and efforts
    were observed, which of them before any activity, and what that says about a
    confirmed route. */
module TurnRoutes {
  import opened Common
  import opened Protocol
  import opened TurnCollector
  import opened TurnLedger
  import opened Conversation

  /** A `turn/started` of this turn. */
  predicate Opens(sc: Scope, m: Message) {
    && m.Notification? && m.topic == TurnStartedMethod
    && m.params.threadId == Text(sc.thread) && m.params.turn.id == Text(sc.turn)
    && m.params.turn.status.TurnInProgress?
  }

  ghost predicate Opened(sc: Scope, h: seq<Message>) {
    exists j :: 0 <= j < |h| && Opens(sc, h[j])
  }

  /** A well-formed item start in an opened turn; the first one begins the activity. */
  ghost predicate Activates(sc: Scope, h: seq<Message>, m: Message) {
    && m.Notification? && m.topic == ItemStartedMethod
    && m.params.threadId == Text(sc.thread) && m.params.turnId == Text(sc.turn)
    && m.params.item.id.Text? && m.params.item.id.text != ""
    && (match m.params.item.kind
        case Untyped => false
        case Typed(CommandExecution) =>
          m.params.item.status == InProgress && m.params.item.command.Text? && m.params.item.command.text != ""
        case Typed(_) => m.params.item.status == NoStatus || m.params.item.status == InProgress)
    && Opened(sc, h)
  }

  /** How many messages come before the activity begins. */
  ghost function Quiet(sc: Scope, msgs: seq<Message>): (q: nat)
    ensures q <= |msgs|
  {
    if msgs == [] then 0
    else
      var n := |msgs| - 1;
      var q := Quiet(sc, msgs[..n]);
      if q < n then q else if Activates(sc, msgs[..n], msgs[n]) then n else n + 1
  }

  lemma {:induction false} QuietMeans(sc: Scope, msgs: seq<Message>)
    ensures forall i :: 0 <= i < Quiet(sc, msgs) ==> !Activates(sc, msgs[..i], msgs[i])
    ensures Quiet(sc, msgs) < |msgs| ==> Activates(sc, msgs[..Quiet(sc, msgs)], msgs[Quiet(sc, msgs)])
  {
    hide Activates;
    if msgs != [] {
      var n := |msgs| - 1;
      QuietMeans(sc, msgs[..n]);
      forall i | 0 <= i < Quiet(sc, msgs) ensures !Activates(sc, msgs[..i], msgs[i]) {
        if i < n { assert msgs[..n][..i] == msgs[..i] && msgs[..n][i] == msgs[i]; }
      }
      var q := Quiet(sc, msgs[..n]);
      if q < n { assert msgs[..n][..q] == msgs[..q] && msgs[..n][q] == msgs[q]; }
    }
  }

  /** The models the messages name, in wire order. */
  function ModelsIn(sc: Scope, msgs: seq<Message>): seq<string> {
    if msgs == [] then [] else ModelsIn(sc, msgs[..|msgs| - 1]) + Singleton(ModelIn(sc, msgs[|msgs| - 1]))
  }

  function EffortsIn(sc: Scope, msgs: seq<Message>): seq<Option<string>> {
    if msgs == [] then [] else EffortsIn(sc, msgs[..|msgs| - 1]) + Singleton(EffortIn(sc, msgs[|msgs| - 1]))
  }

  /** The settings named last. */
  function LastSettings(sc: Scope, msgs: seq<Message>): Option<(string, Option<string>)> {
    if msgs == [] then None
    else if SettingsIn(sc, msgs[|msgs| - 1]).Some? then SettingsIn(sc, msgs[|msgs| - 1])
    else LastSettings(sc, msgs[..|msgs| - 1])
  }

  /** The route is what the messages say: the starting values and then, in wire order,
      what each settings update and each reroute names. */
  ghost predicate Reads(sc: Scope, model: Option<string>, effort: Option<string>, msgs: seq<Message>, r: Route) {
    ReadsWith(sc, model, effort, msgs, msgs[..Quiet(sc, msgs)], r)
  }

  /** The same, with the messages before activity given. */
  ghost predicate ReadsWith(
    sc: Scope, model: Option<string>, effort: Option<string>, msgs: seq<Message>, quiet: seq<Message>, r: Route)
  {
    && r.models == Singleton(model) + ModelsIn(sc, msgs)
    && r.efforts == SingletonEffort(effort) + EffortsIn(sc, msgs)
    && r.preModels == Singleton(model) + ModelsIn(sc, quiet)
    && r.preEfforts == SingletonEffort(effort) + EffortsIn(sc, quiet)
    && r.confirmed == LastSettings(sc, msgs)
    && r.model == LastOf(r.models) && r.effort == EffectiveEffort(r.efforts)
  }

  /** The collector's flags and its tables before activity. */
  ghost predicate Follows(sc: Scope, msgs: seq<Message>, c: Collector) {
    && (c.items.started <==> Opened(sc, msgs))
    && (c.activity <==> Quiet(sc, msgs) < |msgs|)
    && (!c.activity ==> c.items.open == map[] && c.items.completed == {})
  }

  lemma OpenedSnoc(sc: Scope, h: seq<Message>, m: Message)
    ensures Opened(sc, h + [m]) <==> Opened(sc, h) || Opens(sc, m)
  {
    var g := h + [m];
    assert g[|h|] == m;
    if Opened(sc, h) {
      var j :| 0 <= j < |h| && Opens(sc, h[j]);
      assert Opens(sc, g[j]);
    }
  }

  lemma FlagsMove(sc: Scope, c: Collector, m: Message)
    requires Step(sc, c, m).Next?
    ensures var d := Step(sc, c, m).state;
            && (d.items.started <==> c.items.started || Opens(sc, m))
            && (d.activity <==>
                  c.activity || (m.Notification? && m.topic == ItemStartedMethod && CanStart(sc, c.items, m.params)))
            && (!d.activity && c.items.open == map[] && c.items.completed == {} ==>
                  d.items.open == map[] && d.items.completed == {})
  {
  }

  lemma StepFollows(sc: Scope, h: seq<Message>, c: Collector, m: Message)
    requires Follows(sc, h, c) && Step(sc, c, m).Next?
    ensures Follows(sc, h + [m], Step(sc, c, m).state)
    ensures Quiet(sc, h + [m]) == if c.activity then Quiet(sc, h)
                                  else if Step(sc, c, m).state.activity then |h| else |h| + 1
  {
    hide Step, Opens;
    FlagsMove(sc, c, m);
    OpenedSnoc(sc, h, m);
    assert (h + [m])[..|h|] == h;
  }

  lemma ModelsSnoc(sc: Scope, h: seq<Message>, m: Message)
    ensures ModelsIn(sc, h + [m]) == ModelsIn(sc, h) + Singleton(ModelIn(sc, m))
    ensures EffortsIn(sc, h + [m]) == EffortsIn(sc, h) + Singleton(EffortIn(sc, m))
    ensures LastSettings(sc, h + [m]) == if SettingsIn(sc, m).Some? then SettingsIn(sc, m) else LastSettings(sc, h)
  {
    assert (h + [m])[..|h|] == h;
  }

  /** One message on, activity given. */
  lemma RouteReads(
    sc: Scope, model: Option<string>, effort: Option<string>, h: seq<Message>, quiet: seq<Message>,
    r: Route, m: Message, r': Route, activity: bool)
    requires ReadsWith(sc, model, effort, h, quiet, r) && RouteMoves(sc, m, r, r', activity)
    requires r'.model == LastOf(r'.models) && r'.effort == EffectiveEffort(r'.efforts)
    ensures ReadsWith(sc, model, effort, h + [m], if activity then quiet else quiet + [m], r')
  {
    ModelsSnoc(sc, h, m);
    ModelsSnoc(sc, quiet, m);
    RegroupReads(sc, model, effort, h, m);
    RegroupReads(sc, model, effort, quiet, m);
    hide ModelsIn, EffortsIn, LastSettings, ModelIn, EffortIn, SettingsIn, Singleton, SingletonEffort;
  }

  lemma StepReads(
    sc: Scope, model: Option<string>, effort: Option<string>, h: seq<Message>, c: Collector, m: Message, d: Collector)
    requires Follows(sc, h, c) && Step(sc, c, m) == Next(d)
    requires Reads(sc, model, effort, h, RouteOf(c.t)) && RouteInvariant(RouteOf(d.t), d.activity)
    ensures Reads(sc, model, effort, h + [m], RouteOf(d.t))
  {
    hide Step, Follows, Quiet, ReadsWith, RouteMoves;
    StepFollows(sc, h, c, m);
    StepRouteMoves(sc, c, m);
    FollowsActivity(sc, h, c);
    var q, all := Quiet(sc, h), h + [m];
    if c.activity {
      RouteReads(sc, model, effort, h, h[..q], RouteOf(c.t), m, RouteOf(d.t), true);
      assert all[..q] == h[..q];
    } else {
      assert h[..q] == h && all[..|h|] == h && all[..|h| + 1] == all;
      if d.activity {
        NothingObserved(sc, m, RouteOf(c.t));
        RouteReads(sc, model, effort, h, h, RouteOf(c.t), m, RouteOf(d.t), true);
      } else {
        RouteReads(sc, model, effort, h, h, RouteOf(c.t), m, RouteOf(d.t), false);
      }
    }
  }

  /** A message that leaves the route alone does so with or without activity. */
  lemma NothingObserved(sc: Scope, m: Message, r: Route)
    ensures RouteMoves(sc, m, r, r, false) ==> RouteMoves(sc, m, r, r, true)
  { }

  lemma FollowsActivity(sc: Scope, h: seq<Message>, c: Collector)
    requires Follows(sc, h, c)
    ensures c.activity <==> Quiet(sc, h) < |h|
  { }

  lemma RegroupReads(sc: Scope, model: Option<string>, effort: Option<string>, h: seq<Message>, m: Message)
    ensures (Singleton(model) + ModelsIn(sc, h)) + Singleton(ModelIn(sc, m))
            == Singleton(model) + (ModelsIn(sc, h) + Singleton(ModelIn(sc, m)))
    ensures (SingletonEffort(effort) + EffortsIn(sc, h)) + Singleton(EffortIn(sc, m))
            == SingletonEffort(effort) + (EffortsIn(sc, h) + Singleton(EffortIn(sc, m)))
  {
    Regroup(Singleton(model), ModelsIn(sc, h), Singleton(ModelIn(sc, m)));
    Regroup(SingletonEffort(effort), EffortsIn(sc, h), Singleton(EffortIn(sc, m)));
  }

  lemma {:induction false} RunReads(sc: Scope, model: Option<string>, effort: Option<string>, msgs: seq<Message>)
    requires After(sc, NewCollector(model, effort), msgs).Next?
    ensures Follows(sc, msgs, After(sc, NewCollector(model, effort), msgs).state)
    ensures Reads(sc, model, effort, msgs, RouteOf(After(sc, NewCollector(model, effort), msgs).state.t))
  {
    hide After, Step, Follows, Reads, NewCollector, OnWire, Balanced, RouteInvariant;
    var c0 := NewCollector(model, effort);
    LastNext(sc, c0, msgs);
    if msgs == [] {
      StartReads(sc, model, effort);
    } else {
      var n := |msgs| - 1;
      RunReads(sc, model, effort, msgs[..n]);
      assert msgs == msgs[..n] + [msgs[n]];
      var c, d := After(sc, c0, msgs[..n]).state, After(sc, c0, msgs).state;
      RunKeeps(sc, model, effort, msgs);
      StepFollows(sc, msgs[..n], c, msgs[n]);
      StepReads(sc, model, effort, msgs[..n], c, msgs[n], d);
    }
  }

  lemma StartReads(sc: Scope, model: Option<string>, effort: Option<string>)
    ensures Follows(sc, [], NewCollector(model, effort))
    ensures Reads(sc, model, effort, [], RouteOf(NewCollector(model, effort).t))
  { }

  /** In every collected turn the observed route is what the messages say, and the
      confirmed settings are those named last. */
  lemma RouteIsRead(sc: Scope, model: Option<string>, effort: Option<string>, msgs: seq<Message>)
    requires After(sc, NewCollector(model, effort), msgs).Done?
    ensures Reads(sc, model, effort, msgs, RouteOf(After(sc, NewCollector(model, effort), msgs).transcript))
  {
    hide Step, Follows, Reads, After, NewCollector;
    var n := |msgs| - 1;
    var c := LastStep(sc, model, effort, msgs);
    var h, m := msgs[..n], msgs[n];
    assert msgs == h + [m];
    RunReads(sc, model, effort, h);
    LastIsCompletion(sc, model, effort, msgs, c);
    var t := After(sc, NewCollector(model, effort), msgs).transcript;
    CompletionReads(sc, model, effort, h, m, RouteOf(t));
  }

  lemma LastIsCompletion(sc: Scope, model: Option<string>, effort: Option<string>, msgs: seq<Message>, c: Collector)
    requires After(sc, NewCollector(model, effort), msgs).Done? && msgs != []
    requires After(sc, NewCollector(model, effort), msgs[..|msgs| - 1]) == Next(c)
    ensures msgs[|msgs| - 1].Notification? && msgs[|msgs| - 1].topic == TurnCompletedMethod
  {
    hide Step, NewCollector;
    DoneIsCompletion(sc, c, msgs[|msgs| - 1]);
  }

  /** `turn/completed` names no route. */
  lemma CompletionReads(
    sc: Scope, model: Option<string>, effort: Option<string>, h: seq<Message>, m: Message, r: Route)
    requires Reads(sc, model, effort, h, r) && m.Notification? && m.topic == TurnCompletedMethod
    ensures Reads(sc, model, effort, h + [m], r)
  {
    hide Quiet, ReadsWith, Activates;
    var all, q := h + [m], Quiet(sc, h);
    CompletionIsQuiet(sc, h, m, r);
    hide RouteMoves;
    assert ReadsWith(sc, model, effort, h, h[..q], r);
    RouteReadsSame(sc, model, effort, h, h[..q], r, m, q < |h|);
    if q < |h| { assert all[..q] == h[..q]; } else { assert h[..q] == h && all[..|h| + 1] == all; }
  }

  lemma CompletionIsQuiet(sc: Scope, h: seq<Message>, m: Message, r: Route)
    requires m.Notification? && m.topic == TurnCompletedMethod
    ensures RouteMoves(sc, m, r, r, true) && RouteMoves(sc, m, r, r, false)
    ensures Quiet(sc, h + [m]) == if Quiet(sc, h) < |h| then Quiet(sc, h) else |h| + 1
  {
    assert (h + [m])[..|h|] == h;
  }

  lemma RouteReadsSame(
    sc: Scope, model: Option<string>, effort: Option<string>, h: seq<Message>, quiet: seq<Message>, r: Route,
    m: Message, activity: bool)
    requires ReadsWith(sc, model, effort, h, quiet, r) && RouteMoves(sc, m, r, r, activity)
    ensures ReadsWith(sc, model, effort, h + [m], if activity then quiet else quiet + [m], r)
  {
    RouteReads(sc, model, effort, h, quiet, r, m, r, activity);
  }

  // --------------------------------------------------------------- confirmed routes

  /** What a run's messages must say for its turn to confirm a pinned route: it is
      named, or started from, before any activity, and nothing else ever is. */
  ghost predicate Confirms(run: TurnRun, model: Option<string>, effort: Option<string>) {
    var quiet := run.msgs[..Quiet(run.scope, run.msgs)];
    && (model.Some? ==>
          && (run.model == model || model.value in ModelsIn(run.scope, quiet))
          && (run.model.None? || run.model == model)
          && forall x :: x in ModelsIn(run.scope, run.msgs) ==> x == model.value)
    && (effort.Some? ==>
          && (run.effort == effort || effort in EffortsIn(run.scope, quiet))
          && (run.effort.None? || run.effort == effort)
          && forall x :: x in EffortsIn(run.scope, run.msgs) ==> x == effort)
  }

  lemma {:induction false} QuietIsPart(sc: Scope, msgs: seq<Message>, q: nat)
    requires q <= |msgs|
    ensures forall x :: x in ModelsIn(sc, msgs[..q]) ==> x in ModelsIn(sc, msgs)
    ensures forall x :: x in EffortsIn(sc, msgs[..q]) ==> x in EffortsIn(sc, msgs)
  {
    hide ModelIn, EffortIn;
    if q < |msgs| {
      var n := |msgs| - 1;
      QuietIsPart(sc, msgs[..n], q);
      assert msgs[..n][..q] == msgs[..q];
    } else {
      assert msgs[..q] == msgs;
    }
  }

  lemma TurnConfirmsExactly(run: TurnRun, model: Option<string>, effort: Option<string>)
    requires Collects(run)
    ensures TurnConfirms(run.transcript, model, effort) <==> Confirms(run, model, effort)
  {
    hide After, Step, NewCollector, ModelsIn, EffortsIn, Quiet, LastSettings;
    RouteIsRead(run.scope, run.model, run.effort, run.msgs);
    QuietIsPart(run.scope, run.msgs, Quiet(run.scope, run.msgs));
    var t, quiet := run.transcript, run.msgs[..Quiet(run.scope, run.msgs)];
    assert t.observedModels == Singleton(run.model) + ModelsIn(run.scope, run.msgs);
    assert t.observedEfforts == SingletonEffort(run.effort) + EffortsIn(run.scope, run.msgs);
    assert t.preActivityModels == Singleton(run.model) + ModelsIn(run.scope, quiet);
    assert t.preActivityEfforts == SingletonEffort(run.effort) + EffortsIn(run.scope, quiet);
    if model.Some? {
      InHistory(run.model, ModelsIn(run.scope, quiet), ModelsIn(run.scope, run.msgs), model.value);
    }
    if effort.Some? {
      EffortInHistory(run.effort, EffortsIn(run.scope, quiet), EffortsIn(run.scope, run.msgs), effort);
    }
  }

  lemma InHistory(start: Option<string>, quiet: seq<string>, all: seq<string>, model: string)
    requires forall x :: x in quiet ==> x in all
    ensures (model in Singleton(start) + quiet && forall x :: x in Singleton(start) + all ==> x == model) <==>
              && (start == Some(model) || model in quiet) && (start.None? || start == Some(model))
              && forall x :: x in all ==> x == model
  {
    assert forall x :: x in all ==> x in Singleton(start) + all;
    assert start.Some? ==> start.value in Singleton(start) + all;
  }

  lemma EffortInHistory(
    start: Option<string>, quiet: seq<Option<string>>, all: seq<Option<string>>, effort: Option<string>)
    requires effort.Some? && forall x :: x in quiet ==> x in all
    ensures (effort in SingletonEffort(start) + quiet && forall x :: x in SingletonEffort(start) + all ==> x == effort)
            <==>
              && (start == effort || effort in quiet) && (start.None? || start == effort)
              && forall x :: x in all ==> x == effort
  {
    assert forall x :: x in all ==> x in SingletonEffort(start) + all;
    assert start.Some? ==> start in SingletonEffort(start) + all;
  }

  /** A pinned route is confirmed exactly when the messages of every turn say so. */
  lemma RouteConfirmedExactly(runs: seq<TurnRun>, model: Option<string>, effort: Option<string>)
    requires forall j :: 0 <= j < |runs| ==> Collects(runs[j])
    ensures RouteConfirmed(Transcripts(runs), model, effort) <==>
              runs != [] && forall k :: 0 <= k < |runs| ==> Confirms(runs[k], model, effort)
  {
    hide Collects, Confirms, TurnConfirms;
    var ts := Transcripts(runs);
    forall k | 0 <= k < |runs| ensures TurnConfirms(ts[k], model, effort) <==> Confirms(runs[k], model, effort) {
      TurnConfirmsExactly(runs[k], model, effort);
    }
    if RouteConfirmed(ts, model, effort) {
      forall k | 0 <= k < |runs| ensures Confirms(runs[k], model, effort) { assert ts[k] in ts; }
    }
  }

  lemma {:induction false} NamedIsIn(sc: Scope, msgs: seq<Message>, i: nat)
    requires i < |msgs| && ModelIn(sc, msgs[i]).Some?
    ensures ModelIn(sc, msgs[i]).value in ModelsIn(sc, msgs)
  {
    hide ModelIn;
    var n := |msgs| - 1;
    if i < n { NamedIsIn(sc, msgs[..n], i); }
  }

  /** A confirmed route has met no reroute to another model. */
  lemma ConfirmedMeansNoOtherReroute(
    runs: seq<TurnRun>, model: string, effort: Option<string>, k: nat, i: nat)
    requires forall j :: 0 <= j < |runs| ==> Collects(runs[j])
    requires RouteConfirmed(Transcripts(runs), Some(model), effort)
    requires k < |runs| && i < |runs[k].msgs|
    requires var m := runs[k].msgs[i];
             m.Notification? && m.topic == ModelReroutedMethod && m.params.toModel.ValidModel?
             && m.params.threadId == Text(runs[k].scope.thread) && m.params.turnId == Text(runs[k].scope.turn)
    ensures runs[k].msgs[i].params.toModel.name == model
  {
    RouteConfirmedExactly(runs, Some(model), effort);
    assert Confirms(runs[k], Some(model), effort);
    NamedIsIn(runs[k].scope, runs[k].msgs, i);
  }

  // --------------------------------------------------------------- carried over

  function Named(run: TurnRun): Option<(string, Option<string>)> {
    LastSettings(run.scope, run.msgs)
  }

  /** The route is what the last of the runs to name settings named, or `start`
      when none did. */
  ghost predicate NamedLast(
    runs: seq<TurnRun>, start: (Option<string>, Option<string>), route: (Option<string>, Option<string>))
  {
    || (route == start && forall i :: 0 <= i < |runs| ==> Named(runs[i]).None?)
    || (exists j: nat :: NamedAt(runs, j, route))
  }

  ghost predicate NamedAt(runs: seq<TurnRun>, j: nat, route: (Option<string>, Option<string>)) {
    && j < |runs| && Named(runs[j]).Some?
    && route == (Some(Named(runs[j]).value.0), Named(runs[j]).value.1)
    && forall i :: j < i < |runs| ==> Named(runs[i]).None?
  }

  lemma {:induction false} CarriedIsNamedLast(runs: seq<TurnRun>, start: (Option<string>, Option<string>))
    requires forall j :: 0 <= j < |runs| ==> Collects(runs[j])
    ensures NamedLast(runs, start, Carried(Transcripts(runs), start))
  {
    hide Collects, Named;
    if runs == [] {
      CarriedNothing(start);
    } else {
      var n := |runs| - 1;
      CarriedIsNamedLast(runs[..n], start);
      assert runs == runs[..n] + [runs[n]];
      CarriedSnoc(runs[..n], runs[n], start);
      ConfirmedIsNamed(runs[n]);
      hide Carried, Transcripts;
      var route := Carried(Transcripts(runs), start);
      if Named(runs[n]).Some? {
        assert NamedAt(runs, n, route);
      } else if j: nat :| NamedAt(runs[..n], j, route) {
        assert NamedAt(runs, j, route);
      }
    }
  }

  lemma ConfirmedIsNamed(run: TurnRun)
    requires Collects(run)
    ensures run.transcript.confirmed == Named(run)
  {
    hide After, NewCollector, LastSettings, ModelsIn, EffortsIn, Quiet;
    RouteIsRead(run.scope, run.model, run.effort, run.msgs);
  }

  /** Every turn starts from the settings named last on the wire of the turns before
      it, and from the thread's own route while none were named. */
  lemma TurnsStartFromNamedLast(runs: seq<TurnRun>, start: (Option<string>, Option<string>), k: nat)
    requires k < |runs| && CarriedOver(runs, start, k)
    requires forall j :: 0 <= j < |runs| ==> Collects(runs[j])
    ensures NamedLast(runs[..k], start, (runs[k].model, runs[k].effort))
  {
    hide Collects, Carried, Transcripts, Named, NamedLast;
    CarriedIsNamedLast(runs[..k], start);
  }
}
