/** Freezing a screen: qualitative imports, and the acceptance document that is
    published first and bound in the manifest afterwards, with crashes anywhere. */
module Finalization {
  import opened Common

  /** The manifest without its acceptance fields. */
  datatype Core = Core(screen: bool, completed: bool, finishedAt: int, content: string)

  /** Retained artifacts by id. */
  datatype Evidence = Evidence(judgments: map<string, string>, adjudications: map<string, string>)

  /** An acceptance result: what it was decided on and the route decisions;
      `complete` tells it from a pending one. */
  datatype Decision = Decision(
    complete: bool, source: Core, judgments: set<string>, adjudications: set<string>, routes: seq<string>)

  datatype Document = Document(decision: Decision, finalizedAt: Option<int>)

  /** Digests are injective, so the bound digest is the document itself. */
  datatype Binding = Binding(document: Document, finalizedAt: int)

  datatype Disk = Disk(core: Core, binding: Option<Binding>, evidence: Evidence, acceptance: Option<Document>)

  /** How artifacts are validated, and what route decisions the evidence of a
      completed campaign supports (`None` when it is refused). */
  datatype Rules = Rules(
    validJudgment: (Core, string) -> bool,
    validAdjudication: (Core, Evidence, string) -> bool,
    decide: (Core, Evidence) -> Option<seq<string>>)

  /** `_evaluate_inspected`.  The manifest digest it records leaves the acceptance
      fields out, so binding does not change it. */
  function Evaluate(rules: Rules, c: Core, e: Evidence): Option<Decision> {
    if !c.completed then Some(Decision(false, c, {}, {}, []))
    else
      var routes := rules.decide(c, e);
      if routes.None? then None
      else Some(Decision(true, c, e.judgments.Values, e.adjudications.Values, routes.value))
  }

  // --------------------------------------------------------------------- imports

  /** `_reject_finalized_screen`. */
  predicate Finalized(d: Disk) { d.binding.Some? || d.acceptance.Some? }

  function AfterJudgment(rules: Rules, d: Disk, id: string, content: string): Disk {
    if Finalized(d) || !rules.validJudgment(d.core, content) || id in d.evidence.judgments then d
    else d.(evidence := d.evidence.(judgments := d.evidence.judgments[id := content]))
  }

  function AfterAdjudication(rules: Rules, d: Disk, id: string, content: string): Disk {
    if Finalized(d) || !rules.validAdjudication(d.core, d.evidence, content) || id in d.evidence.adjudications then d
    else d.(evidence := d.evidence.(adjudications := d.evidence.adjudications[id := content]))
  }

  // ---------------------------------------------------------------- finalization

  datatype Crash = NoCrash | BeforePublish | BeforeBind

  /** The decision the current evidence supports, if it can be finalized. */
  function Finalizable(rules: Rules, d: Disk): Option<Decision> {
    var decision := Evaluate(rules, d.core, d.evidence);
    if decision.Some? && d.core.screen && decision.value.complete then decision else None
  }

  /** `_load_finalized_screen_locked`. */
  function LoadFinalized(rules: Rules, d: Disk): Option<Document> {
    if d.binding.None? || d.acceptance.None? then None
    else
      var frozen := d.acceptance.value;
      var current := Evaluate(rules, d.core, d.evidence);
      if d.core.screen && frozen.decision.complete
         && frozen.finalizedAt == Some(d.binding.value.finalizedAt)
         && frozen == d.binding.value.document && current == Some(frozen.decision)
      then Some(frozen) else None
  }

  /** The document that stands on disk, or the one published now. */
  function Settled(d: Disk, decision: Decision, now: int): Option<Document> {
    if d.acceptance.Some? then
      (if d.acceptance.value.finalizedAt.None? || d.acceptance.value.decision != decision then None else d.acceptance)
    else if now <= d.core.finishedAt then None
    else Some(Document(decision, Some(now)))
  }

  function Bound(d: Disk, document: Document): Disk {
    if d.core.completed && d.core.screen && d.binding.None? && document.finalizedAt.Some?
    then d.(binding := Some(Binding(document, document.finalizedAt.value)))
    else d
  }

  function AfterFinalize(rules: Rules, d: Disk, now: int, crash: Crash): Disk {
    var decision := Finalizable(rules, d);
    if decision.None? || d.binding.Some? then d
    else
      var document := Settled(d, decision.value, now);
      if document.None? || crash == BeforePublish then d
      else
        var published := d.(acceptance := document);
        if crash == BeforeBind then published else Bound(published, document.value)
  }

  // ------------------------------------------------------------------------ runs

  /** `Checkpoint` is the campaign runner advancing the manifest. */
  datatype Event =
    | Checkpoint(core: Core)
    | ImportJudgment(id: string, content: string)
    | ImportAdjudication(id: string, content: string)
    | Finalize(now: int, crash: Crash)

  function Step(rules: Rules, d: Disk, e: Event): Disk {
    match e
    case Checkpoint(core) => if d.core.completed then d else d.(core := core)
    case ImportJudgment(id, content) => AfterJudgment(rules, d, id, content)
    case ImportAdjudication(id, content) => AfterAdjudication(rules, d, id, content)
    case Finalize(now, crash) => AfterFinalize(rules, d, now, crash)
  }

  function Run(rules: Rules, d: Disk, es: seq<Event>): Disk
    decreases |es|
  {
    if es == [] then d else Run(rules, Step(rules, d, es[0]), es[1..])
  }

  /** The acceptance documents a run publishes, in order. */
  function Publications(rules: Rules, d: Disk, es: seq<Event>): seq<Document>
    decreases |es|
  {
    if es == [] then []
    else
      var next := Step(rules, d, es[0]);
      (if next.acceptance != d.acceptance && next.acceptance.Some? then [next.acceptance.value] else [])
      + Publications(rules, next, es[1..])
  }

  ghost predicate Fresh(d: Disk) { d.acceptance.None? && d.binding.None? }

  /** What every reachable directory satisfies. */
  ghost predicate Sound(rules: Rules, d: Disk) {
    && (d.acceptance.Some? ==>
          var document := d.acceptance.value;
          && d.core.completed && d.core.screen
          && document.finalizedAt.Some? && d.core.finishedAt < document.finalizedAt.value
          && document.decision.complete && Evaluate(rules, d.core, d.evidence) == Some(document.decision))
    && (d.binding.Some? ==>
          d.acceptance.Some? && d.binding.value.document == d.acceptance.value
          && Some(d.binding.value.finalizedAt) == d.acceptance.value.finalizedAt)
  }

  /** From the publication on nothing that was decided upon changes, and the binding
      can only be added. */
  ghost predicate Frozen(before: Disk, after: Disk) {
    before.acceptance.Some? ==>
      && after.acceptance == before.acceptance && after.core == before.core && after.evidence == before.evidence
      && (before.binding.Some? ==> after.binding == before.binding)
  }

  lemma StepKeeps(rules: Rules, d: Disk, e: Event)
    requires Sound(rules, d)
    ensures Sound(rules, Step(rules, d, e)) && Frozen(d, Step(rules, d, e))
  { }

  /** Every run keeps the directory sound and freezes what was published. */
  lemma {:induction false} RunsKeep(rules: Rules, d: Disk, es: seq<Event>)
    requires Sound(rules, d)
    ensures Sound(rules, Run(rules, d, es)) && Frozen(d, Run(rules, d, es))
    ensures Publications(rules, d, es) ==
            if d.acceptance.Some? || Run(rules, d, es).acceptance.None? then []
            else [Run(rules, d, es).acceptance.value]
    decreases |es|
  {
    hide Sound, Step;
    if es != [] {
      StepKeeps(rules, d, es[0]);
      RunsKeep(rules, Step(rules, d, es[0]), es[1..]);
    }
  }

  lemma {:induction false} RunAppend(rules: Rules, d: Disk, es: seq<Event>, fs: seq<Event>)
    ensures Run(rules, d, es + fs) == Run(rules, Run(rules, d, es), fs)
    decreases |es|
  {
    hide Step;
    if es == [] {
      assert es + fs == fs;
    } else {
      assert (es + fs)[1..] == es[1..] + fs;
      RunAppend(rules, Step(rules, d, es[0]), es[1..], fs);
    }
  }

  /** Over any interleaving of imports, checkpoints, finalize attempts and crashes:
      at most one document is ever published, it is the one on disk, the evidence
      and the manifest it was decided on stay as they were at any earlier moment
      at which it stood, and a binding names that very document. */
  lemma AcceptanceIsFrozen(rules: Rules, d: Disk, es: seq<Event>, fs: seq<Event>)
    requires Fresh(d)
    ensures var earlier, later := Run(rules, d, es), Run(rules, d, es + fs);
            && Publications(rules, d, es + fs) == (if later.acceptance.Some? then [later.acceptance.value] else [])
            && Sound(rules, later) && Frozen(earlier, later)
  {
    hide Sound, Step, Frozen, Run, Publications;
    assert Sound(rules, d) by { FreshIsSound(rules, d); }
    RunsKeep(rules, d, es);
    RunsKeep(rules, d, es + fs);
    RunAppend(rules, d, es, fs);
    RunsKeep(rules, Run(rules, d, es), fs);
  }

  lemma FreshIsSound(rules: Rules, d: Disk)
    requires Fresh(d)
    ensures Sound(rules, d)
  { }

  /** A crash anywhere is made good by finalizing again: once a document stands, an
      undisturbed attempt binds exactly it, whatever the clock says. */
  lemma RetryCompletes(rules: Rules, d: Disk, now: int)
    requires Sound(rules, d) && d.acceptance.Some?
    ensures var done := Step(rules, d, Finalize(now, NoCrash));
            done.binding == Some(Binding(d.acceptance.value, d.acceptance.value.finalizedAt.value))
            && LoadFinalized(rules, done) == d.acceptance
  { }

  /** The document that finalizing a completed screen for the first time publishes. */
  function FirstDocument(d: Disk, routes: seq<string>, now: int): Document {
    Document(Decision(true, d.core, d.evidence.judgments.Values, d.evidence.adjudications.Values, routes), Some(now))
  }

  /** What finalizing does to a directory without a document: it publishes and binds the
      decision on its evidence exactly if it is a completed screen whose evidence decides
      and the time is later than its end; a crash leaves it at nothing or unbound. */
  lemma FinalizesExactly(rules: Rules, d: Disk, now: int, crash: Crash)
    requires Fresh(d)
    ensures var routes := rules.decide(d.core, d.evidence);
            Step(rules, d, Finalize(now, crash)) ==
            if !(d.core.screen && d.core.completed && routes.Some? && d.core.finishedAt < now) then d
            else
              var document := FirstDocument(d, routes.value, now);
              match crash
              case BeforePublish => d
              case BeforeBind => d.(acceptance := Some(document))
              case NoCrash => d.(acceptance := Some(document), binding := Some(Binding(document, now)))
  {
    if d.core.completed && rules.decide(d.core, d.evidence).Some? {
      assert Evaluate(rules, d.core, d.evidence)
             == Some(FirstDocument(d, rules.decide(d.core, d.evidence).value, now).decision);
    }
  }

  /** Loading succeeds exactly on bound directories, and gives the one document. */
  lemma LoadedExactlyWhenBound(rules: Rules, d: Disk, es: seq<Event>)
    requires Fresh(d)
    ensures var end := Run(rules, d, es);
            (LoadFinalized(rules, end).Some? <==> end.binding.Some?)
            && (end.binding.Some? ==> [LoadFinalized(rules, end).value] == Publications(rules, d, es))
  {
    hide Run, Publications, Step;
    RunsKeep(rules, d, es);
  }

  // -------------------------------------------------------------- the directory

  datatype Reply = Accepted(document: Document) | Refused | Crashed

  /** A matrix directory under its lock. */
  class ScreenDirectory {
    var core: Core
    var binding: Option<Binding>
    var judgments: map<string, string>
    var adjudications: map<string, string>
    var acceptance: Option<Document>

    function Contents(): Disk
      reads this
    {
      Disk(core, binding, Evidence(judgments, adjudications), acceptance)
    }

    constructor (core: Core)
      ensures Contents() == Disk(core, None, Evidence(map[], map[]), None)
    {
      this.core, binding, acceptance := core, None, None;
      judgments, adjudications := map[], map[];
    }

    /** `import_judgment`. */
    method ImportJudgment(rules: Rules, id: string, content: string) returns (ok: bool)
      modifies this
      ensures Contents() == Step(rules, old(Contents()), Event.ImportJudgment(id, content))
      ensures ok <==> old(Fresh(Contents()) && rules.validJudgment(core, content) && id !in judgments)
      ensures judgments == if ok then old(judgments)[id := content] else old(judgments)
      ensures core == old(core) && binding == old(binding) && acceptance == old(acceptance)
              && adjudications == old(adjudications)
    {
      if binding.Some? || acceptance.Some? { return false; }
      if !rules.validJudgment(core, content) { return false; }
      if id in judgments { return false; }
      judgments := judgments[id := content];
      ok := true;
    }

    /** `import_adjudication`. */
    method ImportAdjudication(rules: Rules, id: string, content: string) returns (ok: bool)
      modifies this
      ensures Contents() == Step(rules, old(Contents()), Event.ImportAdjudication(id, content))
      ensures ok <==> old(&& Fresh(Contents()) && id !in adjudications
                          && rules.validAdjudication(core, Evidence(judgments, adjudications), content))
      ensures adjudications == if ok then old(adjudications)[id := content] else old(adjudications)
      ensures core == old(core) && binding == old(binding) && acceptance == old(acceptance)
              && judgments == old(judgments)
    {
      if binding.Some? || acceptance.Some? { return false; }
      if !rules.validAdjudication(core, Evidence(judgments, adjudications), content) { return false; }
      if id in adjudications { return false; }
      adjudications := adjudications[id := content];
      ok := true;
    }

    /** `finalize_screen`, stopping short where a crash says so. */
    method FinalizeScreen(rules: Rules, now: int, crash: Crash) returns (reply: Reply)
      modifies this
      ensures Contents() == Step(rules, old(Contents()), Finalize(now, crash))
      ensures Sound(rules, old(Contents())) ==>
                match reply
                case Accepted(document) => LoadFinalized(rules, Contents()) == Some(document)
                case Refused => Contents() == old(Contents()) && binding.None?
                case Crashed => binding.None?
      ensures Sound(rules, old(Contents())) ==>
                (reply.Refused? <==>
                   old(acceptance).None?
                   && !(&& core.screen && core.completed && old(core).finishedAt < now
                        && rules.decide(core, Evidence(old(judgments), old(adjudications))).Some?))
      ensures reply.Crashed? ==> crash != NoCrash
    {
      var decision := Evaluate(rules, core, Evidence(judgments, adjudications));
      if decision.None? || !core.screen || !decision.value.complete { return Refused; }
      if binding.Some? {
        var loaded := LoadFinalized(rules, Contents());
        return if loaded.Some? then Accepted(loaded.value) else Refused;
      }
      var document;
      if acceptance.Some? {
        document := acceptance.value;
        if document.finalizedAt.None? || document.decision != decision.value { return Refused; }
        if crash == BeforePublish { return Crashed; }
      } else {
        if now <= core.finishedAt { return Refused; }
        document := Document(decision.value, Some(now));
        if crash == BeforePublish { return Crashed; }
        acceptance := Some(document);
      }
      if crash == BeforeBind { return Crashed; }
      if !core.completed { return Refused; }
      binding := Some(Binding(document, document.finalizedAt.value));
      reply := Accepted(document);
    }
  }
}
