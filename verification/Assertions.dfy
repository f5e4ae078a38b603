/** Oracle assertions: the creation-time grader, and the replayer that later
    recomputes the same verdict from retained evidence. */
module Assertions {
  import opened Common
  import opened Json
  import opened PathSelection
  import opened PathMeaning

  /** `$` addresses the whole document; only the replayer knows it. */
  datatype PathField = RootPath | Parsed(steps: seq<Step>) | UnsupportedPath

  datatype Operator = OrderedEquals | Equals | Contains | Omits | OneOf | OtherOperator

  datatype Assertion = Assertion(
    path: PathField, operator: Operator, expected: Option<Json>, fromCliDocument: bool, extraFields: bool)

  /** A supported path starts with a key. */
  predicate SupportedPath(p: PathField) {
    p.Parsed? && p.steps != [] && p.steps[0].Key?
  }

  /** Exactly the fields path, operator, expected and source, over the captured
      document, with a supported path. */
  predicate Retained(a: Assertion) {
    SupportedPath(a.path) && a.expected.Some? && a.fromCliDocument && !a.extraFields
  }

  // ------------------------------------------------------------- Python's `in`

  predicate IsInfix(a: Text, b: Text) {
    exists k :: 0 <= k <= |b| && a <= b[k..]
  }

  /** `expected in actual` for an actual that is not a list: `None` when it
      raises (a non-string in a string, an unhashable key, a scalar). */
  function InValue(expected: Json, actual: Json): Option<bool> {
    match actual
    case Str(s) => if expected.Str? then Some(IsInfix(expected.s, s)) else None
    case Obj(members) =>
      if expected.Arr? || expected.Obj? then None
      else Some(expected.Str? && HasKey(members, expected.s))
    case _ => None
  }

  function Negated(o: Option<bool>): Option<bool> {
    if o.None? then None else Some(!o.value)
  }

  // ------------------------------------------------------------------- grader

  predicate AnyEqual(items: seq<Json>, expected: Json) {
    exists k :: 0 <= k < |items| && SemanticallyEqual(items[k], expected)
  }

  predicate EqualsAny(actual: Json, options: seq<Json>) {
    exists k :: 0 <= k < |options| && SemanticallyEqual(actual, options[k])
  }

  function Decide(values: seq<Json>, plural: bool, operator: Operator, expected: Json): Option<bool> {
    var actual := if |values| == 1 then values[0] else Arr(values);
    match operator
    case OrderedEquals =>
      if plural then Some(SemanticallyEqual(Arr(values), expected))
      else if values == [] then None else Some(SemanticallyEqual(values[0], expected))
    case Equals => Some(SemanticallyEqual(actual, expected))
    case Contains => if actual.Arr? then Some(AnyEqual(actual.items, expected)) else InValue(expected, actual)
    case Omits => if actual.Arr? then Some(!AnyEqual(actual.items, expected)) else Negated(InValue(expected, actual))
    case OneOf =>
      if !expected.Arr? || expected.items == [] then None else Some(EqualsAny(actual, expected.items))
    case OtherOperator => None
  }

  /** `evaluate_assertion`: `None` when it raises. */
  function Evaluate(document: Json, a: Assertion): Option<bool> {
    if !SupportedPath(a.path) then None
    else
      var nodes := Select(document, a.path.steps);
      if nodes.None? || a.expected.None? then None
      else Decide(Values(nodes.value), Plural(a.path.steps), a.operator, a.expected.value)
  }

  /** What the operators ask of the selected values, in terms of what values mean. */
  ghost predicate Asks(values: seq<Json>, plural: bool, operator: Operator, expected: Json, verdict: Option<bool>) {
    var single := |values| == 1;
    match operator
    case Equals =>
      verdict == Some(MeaningOf(expected) == if single then MeaningOf(values[0]) else MeaningOf(Arr(values)))
    case OrderedEquals =>
      if plural then verdict == Some(MeaningOf(expected) == MeaningOf(Arr(values)))
      else if values == [] then verdict == None
      else verdict == Some(MeaningOf(expected) == MeaningOf(values[0]))
    case Contains => verdict == Holds(if single then values[0] else Arr(values), expected)
    case Omits =>
      var contained := Holds(if single then values[0] else Arr(values), expected);
      verdict.Some? == contained.Some? && (verdict.Some? ==> verdict.value != contained.value)
    case OneOf =>
      if expected.Arr? && expected.items != [] then
        var meant := if single then MeaningOf(values[0]) else MeaningOf(Arr(values));
        verdict == Some(exists k :: 0 <= k < |expected.items| && MeaningOf(expected.items[k]) == meant)
      else verdict == None
    case OtherOperator => verdict == None
  }

  /** Whether a value contains another: an array an equal item, a string an infix,
      an object a key; `None` where the question raises. */
  ghost function Holds(actual: Json, expected: Json): Option<bool> {
    match actual
    case Arr(items) => Some(exists k :: 0 <= k < |items| && MeaningOf(items[k]) == MeaningOf(expected))
    case Str(s) =>
      if expected.Str? then Some(exists before, after :: s == before + expected.s + after)
      else None
    case Obj(members) =>
      if expected.Arr? || expected.Obj? then None
      else Some(exists k :: 0 <= k < |members| && expected == Str(members[k].key))
    case _ => None
  }

  lemma HoldsExactly(actual: Json, expected: Json)
    requires UniqueKeys(actual)
    ensures Holds(actual, expected)
            == if actual.Arr? then Some(AnyEqual(actual.items, expected)) else InValue(expected, actual)
  {
    if actual.Arr? {
      forall k | 0 <= k < |actual.items|
        ensures SemanticallyEqual(actual.items[k], expected) <==> MeaningOf(actual.items[k]) == MeaningOf(expected)
      { EqualMeansSame(actual.items[k], expected); }
    } else if actual.Str? && expected.Str? {
      InfixSplits(expected.s, actual.s);
    } else if actual.Obj? && expected.Str? {
      if k :| 0 <= k < |actual.members| && actual.members[k].key == expected.s {
        assert expected == Str(actual.members[k].key);
      }
    }
  }

  lemma InfixSplits(a: Text, b: Text)
    ensures IsInfix(a, b) <==> exists before, after :: b == before + a + after
  {
    if k :| 0 <= k <= |b| && a <= b[k..] { assert b == b[..k] + a + b[k..][|a|..]; }
    if before, after :| b == before + a + after { assert a <= b[|before|..]; }
  }

  /** Grading decides an assertion as its operator asks, of values without repeated keys. */
  lemma DecidesAsAsked(values: seq<Json>, plural: bool, operator: Operator, expected: Json)
    requires forall k :: 0 <= k < |values| ==> UniqueKeys(values[k])
    ensures Asks(values, plural, operator, expected, Decide(values, plural, operator, expected))
  {
    hide SemanticallyEqual, MeaningOf, AnyEqual, InValue;
    assert UniqueKeys(Arr(values));
    var actual := if |values| == 1 then values[0] else Arr(values);
    EqualMeansSame(actual, expected);
    EqualMeansSame(Arr(values), expected);
    if values != [] { EqualMeansSame(values[0], expected); }
    HoldsExactly(actual, expected);
    if operator.OneOf? && expected.Arr? {
      forall k | 0 <= k < |expected.items|
        ensures SemanticallyEqual(actual, expected.items[k]) <==> MeaningOf(actual) == MeaningOf(expected.items[k])
      { EqualMeansSame(actual, expected.items[k]); }
    }
    hide UniqueKeys, Holds;
  }

  lemma {:induction false} ResolvedUnique(document: Json, at: Location)
    requires UniqueKeys(document) && Resolve(document, at).Some?
    ensures UniqueKeys(Resolve(document, at).value)
    decreases |at|
  {
    if at != [] { ResolvedUnique(document, at[..|at| - 1]); }
  }

  /** Grading an assertion raises when its path, its expectation or the selection is
      no good, and else decides as its operator asks of exactly what the path selects. */
  lemma EvaluatesAsAsked(document: Json, a: Assertion)
    requires UniqueKeys(document)
    ensures if SupportedPath(a.path) && a.expected.Some?
               && forall k :: 0 <= k < |a.path.steps| ==> !RaisesAt(document, a.path.steps, k)
            then exists nodes :: && SelectsExactly(document, a.path.steps, nodes)
                                 && Asks(Values(nodes), Plural(a.path.steps), a.operator, a.expected.value,
                                         Evaluate(document, a))
            else Evaluate(document, a) == None
  {
    hide Decide, Select, RaisesAt, Selects, Resolve, Ordered, UniqueKeys, Asks;
    if SupportedPath(a.path) && a.expected.Some? {
      SelectMeans(document, a.path.steps);
      var selected := Select(document, a.path.steps);
      if selected.Some? {
        var nodes := selected.value;
        forall k | 0 <= k < |nodes| ensures UniqueKeys(Values(nodes)[k]) {
          assert nodes[k] in nodes;
          ResolvedUnique(document, nodes[k].location);
        }
        DecidesAsAsked(Values(nodes), Plural(a.path.steps), a.operator, a.expected.value);
      }
    }
  }

  // ----------------------------------------------------------------- replayer

  predicate ReplayAnyEqual(items: seq<Json>, expected: Json) {
    exists k :: 0 <= k < |items| && ReplayEqual(items[k], expected)
  }

  predicate ReplayEqualsAny(actual: Json, options: seq<Json>) {
    exists k :: 0 <= k < |options| && ReplayEqual(actual, options[k])
  }

  function ReplayDecide(values: seq<Json>, plural: bool, operator: Operator, expected: Json): Option<bool> {
    if operator.OrderedEquals? then
      if plural then Some(ReplayEqual(Arr(values), expected))
      else if values == [] then None else Some(ReplayEqual(values[0], expected))
    else
      var actual := if |values| == 1 then values[0] else Arr(values);
      if operator.Equals? then Some(ReplayEqual(actual, expected))
      else if operator.Contains? then
        if actual.Arr? then Some(ReplayAnyEqual(actual.items, expected)) else InValue(expected, actual)
      else if operator.Omits? then
        if actual.Arr? then Some(!ReplayAnyEqual(actual.items, expected)) else Negated(InValue(expected, actual))
      else if operator.OneOf? && expected.Arr? && expected.items != [] then
        Some(ReplayEqualsAny(actual, expected.items))
      else None
  }

  /** `_replay_assertion`: a missing expectation reads as null, and `$` selects
      the whole document. */
  function Replay(document: Json, a: Assertion): Option<bool> {
    if a.extraFields || !a.fromCliDocument then None
    else if a.path.RootPath? then
      ReplayDecide([document], false, a.operator, if a.expected.Some? then a.expected.value else Null)
    else if !SupportedPath(a.path) then None
    else
      var values := ReplaySelect(document, a.path.steps);
      if values.None? then None
      else ReplayDecide(values.value, Plural(a.path.steps), a.operator,
                        if a.expected.Some? then a.expected.value else Null)
  }

  // ---------------------------------------------------------------- agreement

  lemma AnyAgree(items: seq<Json>, expected: Json)
    ensures AnyEqual(items, expected) <==> ReplayAnyEqual(items, expected)
    ensures EqualsAny(expected, items) <==> ReplayEqualsAny(expected, items)
  {
    forall k | 0 <= k < |items|
      ensures SemanticallyEqual(items[k], expected) <==> ReplayEqual(items[k], expected)
      ensures SemanticallyEqual(expected, items[k]) <==> ReplayEqual(expected, items[k])
    {
      EqualityTestsAgree(items[k], expected);
      EqualityTestsAgree(expected, items[k]);
    }
  }

  lemma DecisionsAgree(values: seq<Json>, plural: bool, operator: Operator, expected: Json)
    ensures Decide(values, plural, operator, expected) == ReplayDecide(values, plural, operator, expected)
  {
    hide SemanticallyEqual, ReplayEqual, InValue, AnyEqual, ReplayAnyEqual, EqualsAny, ReplayEqualsAny;
    var actual := if |values| == 1 then values[0] else Arr(values);
    EqualityTestsAgree(actual, expected);
    EqualityTestsAgree(Arr(values), expected);
    if values != [] { EqualityTestsAgree(values[0], expected); }
    if actual.Arr? { AnyAgree(actual.items, expected); }
    if expected.Arr? { AnyAgree(expected.items, actual); }
  }

  /** On every document and every retained assertion, the replayer gives
      the truth value grading gave, and raises exactly when grading did. */
  lemma ReplayAgrees(document: Json, a: Assertion)
    requires Retained(a)
    ensures Replay(document, a) == Evaluate(document, a)
  {
    hide Decide, ReplayDecide, Select, ReplaySelect, Plural;
    SelectionsAgree(document, a.path.steps);
    var nodes := Select(document, a.path.steps);
    if nodes.Some? {
      DecisionsAgree(Values(nodes.value), Plural(a.path.steps), a.operator, a.expected.value);
    }
  }

  /** Each part of the guard is needed: the replayer answers where grading
      raises on the whole-document path and on a missing expectation. */
  lemma GuardIsNeeded(document: Json)
    requires UniqueKeys(document)
    ensures var a := Assertion(RootPath, Equals, Some(document), true, false);
            Evaluate(document, a) == None && Replay(document, a) == Some(true)
    ensures var key: Text := [97];
            var a := Assertion(Parsed([Key(key)]), Equals, None, true, false);
            Evaluate(Obj([Member(key, Null)]), a) == None
            && Replay(Obj([Member(key, Null)]), a) == Some(true)
  {
    ReplayReflexiveUnique(document);
    var key: Text := [97];
    var doc := Obj([Member(key, Null)]);
    assert doc.members[0].key == key;
    assert HasKey(doc.members, key) && Get(doc.members, key) == Some(Null);
    assert ItemAtKey(doc, key) == Some(Null);
    assert [Key(key)][1..] == [] && [doc][1..] == [];
    assert MapItems(Key(key), []) == Some([]) && [Null] + [] == [Null];
    assert MapItems(Key(key), [doc]) == Some([Null]);
    assert ReplayStep(Key(key), [doc]) == Some([Null]) && ReplayFrom([Null], []) == Some([Null]);
    assert ReplayFrom([doc], [Key(key)]) == Some([Null]);
  }

  lemma {:induction false} ReplayReflexiveUnique(j: Json)
    requires UniqueKeys(j)
    ensures ReplayEqual(j, j)
  {
    if j.Arr? {
      forall k | 0 <= k < |j.items| ensures ReplayEqual(j.items[k], j.items[k]) { ReplayReflexiveUnique(j.items[k]); }
    } else if j.Obj? {
      forall k | 0 <= k < |j.members|
        ensures Get(j.members, j.members[k].key) == Some(j.members[k].value)
                && ReplayEqual(j.members[k].value, j.members[k].value)
      {
        assert HasKey(j.members, j.members[k].key);
        assert j.members[k].value < j;
        ReplayReflexiveUnique(j.members[k].value);
      }
    }
  }

  // ------------------------------------------------------------ whole bundles

  datatype Reason = NoDocument | CouldNotBeEvaluated

  datatype Failure = Failure(assertion: Assertion, reason: Option<Reason>)

  datatype GradeResult = GradeResult(assertions: nat, failed: seq<Failure>, passed: bool)

  /** The verdict on one document assertion and, when it was not evaluated, why.
      A null document is how grading sees "nothing was captured". */
  function GradeOne(document: Json, a: Assertion): seq<Failure> {
    if document.Null? then [Failure(a, Some(NoDocument))]
    else
      match Evaluate(document, a)
      case None => [Failure(a, Some(CouldNotBeEvaluated))]
      case Some(passed) => if passed then [] else [Failure(a, None)]
  }

  function GradeFailures(document: Json, assertions: seq<Assertion>): seq<Failure> {
    if assertions == [] then []
    else GradeOne(document, assertions[0]) + GradeFailures(document, assertions[1..])
  }

  /** `grade_oracle` over document assertions. */
  function GradeOracle(document: Json, assertions: seq<Assertion>): GradeResult {
    var failed := GradeFailures(document, assertions);
    GradeResult(|assertions|, failed, failed == [])
  }

  function ReplayFailures(document: Json, assertions: seq<Assertion>): Option<seq<Failure>> {
    if assertions == [] then Some([])
    else
      var first, rest := Replay(document, assertions[0]), ReplayFailures(document, assertions[1..]);
      if first.None? || rest.None? then None
      else Some((if first.value then [] else [Failure(assertions[0], None)]) + rest.value)
  }

  /** `_replay_preflight`: `None` when it raises. */
  function ReplayPreflight(document: Json, assertions: seq<Assertion>): Option<GradeResult> {
    if assertions == [] then None
    else
      var failed := ReplayFailures(document, assertions);
      if failed.None? then None else Some(GradeResult(|assertions|, failed.value, failed.value == []))
  }

  predicate Evaluated(failures: seq<Failure>) {
    forall f :: f in failures ==> f.reason.None?
  }

  /** Selecting anything below null raises. */
  lemma NullSelectsNothing(a: Assertion)
    requires Retained(a)
    ensures Replay(Null, a) == None
  {
    var steps := a.path.steps;
    assert MapItems(steps[0], [Null]) == None;
  }

  lemma {:induction false} FailuresAgree(document: Json, assertions: seq<Assertion>)
    requires forall a :: a in assertions ==> Retained(a)
    ensures ReplayFailures(document, assertions)
            == if Evaluated(GradeFailures(document, assertions)) then Some(GradeFailures(document, assertions))
               else None
  {
    hide Evaluate, Replay;
    if assertions != [] {
      var a, rest := assertions[0], GradeFailures(document, assertions[1..]);
      FailuresAgree(document, assertions[1..]);
      ReplayAgrees(document, a);
      if document.Null? { NullSelectsNothing(a); }
      assert Evaluated(GradeOne(document, a) + rest) <==> Evaluated(GradeOne(document, a)) && Evaluated(rest) by {
        var all := GradeOne(document, a) + rest;
        assert forall f :: f in all <==> f in GradeOne(document, a) || f in rest;
      }
      assert Evaluated(GradeOne(document, a)) <==> Replay(document, a).Some? by {
        if document.Null? || Evaluate(document, a).None? {
          assert GradeOne(document, a)[0] in GradeOne(document, a);
        }
      }
    }
  }

  /** A retained bundle replays to exactly grading's result when grading
      evaluated every assertion, and raises otherwise. */
  lemma BundlesAgree(document: Json, assertions: seq<Assertion>)
    requires assertions != [] && forall a :: a in assertions ==> Retained(a)
    ensures ReplayPreflight(document, assertions)
            == if Evaluated(GradeOracle(document, assertions).failed) then Some(GradeOracle(document, assertions))
               else None
  {
    hide GradeFailures, ReplayFailures;
    FailuresAgree(document, assertions);
  }

  /** In particular a bundle that passed grading replays to the identical
      passing result. */
  lemma PassedBundleReplays(document: Json, assertions: seq<Assertion>)
    requires assertions != [] && forall a :: a in assertions ==> Retained(a)
    requires GradeOracle(document, assertions).passed
    ensures ReplayPreflight(document, assertions) == Some(GradeOracle(document, assertions))
  {
    hide GradeFailures, ReplayFailures;
    BundlesAgree(document, assertions);
  }

  // --------------------------------------------------------- the grading loop

  lemma GradeFailuresSnoc(document: Json, assertions: seq<Assertion>, k: nat)
    requires k < |assertions|
    ensures GradeFailures(document, assertions[..k + 1])
            == GradeFailures(document, assertions[..k]) + GradeOne(document, assertions[k])
    decreases k
  {
    hide GradeOne;
    if k == 0 {
      assert assertions[..1][1..] == [] && assertions[..0] == [];
    } else {
      GradeFailuresSnoc(document, assertions[1..], k - 1);
      assert assertions[1..][..k] == assertions[..k + 1][1..];
      assert assertions[1..][..k - 1] == assertions[..k][1..];
      var a, c := GradeOne(document, assertions[0]), GradeOne(document, assertions[k]);
      var b := GradeFailures(document, assertions[..k][1..]);
      assert a + (b + c) == a + b + c;
    }
  }

  /** `grade_assertions` restricted to document assertions. */
  method GradeAssertions(document: Json, assertions: seq<Assertion>) returns (r: GradeResult)
    ensures r == GradeOracle(document, assertions)
  {
    hide Evaluate;
    var failures: seq<Failure> := [];
    for k := 0 to |assertions|
      invariant failures == GradeFailures(document, assertions[..k])
    {
      GradeFailuresSnoc(document, assertions, k);
      var a := assertions[k];
      var passed, reason := false, None;
      if document.Null? {
        reason := Some(NoDocument);
      } else {
        var verdict := Evaluate(document, a);
        if verdict.None? {
          reason := Some(CouldNotBeEvaluated);
        } else {
          passed := verdict.value;
        }
      }
      if !passed {
        failures := failures + [Failure(a, reason)];
      }
    }
    assert assertions[..|assertions|] == assertions;
    r := GradeResult(|assertions|, failures, failures == []);
  }
}
