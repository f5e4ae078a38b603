/** The claim-evaluation budget: a worklist that weighs the document, and the
    potential argument that makes the budget bound grading's work. */
module ClaimBudget {
  import opened Common
  import opened Json
  import opened PathSelection

  const MAX_CLAIMS: nat := 256
  const MAX_SELECTION_WORK: nat := 8 * 1024 * 1024
  const SELECTION_PASSES: nat := 4

  // ------------------------------------------------------------------- weight

  /** A string weighs its length, every other value one, and a key its length. */
  function Weight(j: Json): nat
    decreases j
  {
    match j
    case Str(s) => |s|
    case Arr(items) => 1 + ItemsWeight(j, |items|)
    case Obj(members) => 1 + KeysWeight(members, |members|) + MembersWeight(j, |members|)
    case _ => 1
  }

  function ItemsWeight(j: Json, n: nat): nat
    requires j.Arr? && n <= |j.items|
    decreases j, n
  {
    if n == 0 then 0 else ItemsWeight(j, n - 1) + (assert j.items[n - 1] < j; Weight(j.items[n - 1]))
  }

  function MembersWeight(j: Json, n: nat): nat
    requires j.Obj? && n <= |j.members|
    decreases j, n
  {
    if n == 0 then 0 else MembersWeight(j, n - 1) + (assert j.members[n - 1].value < j; Weight(j.members[n - 1].value))
  }

  function KeysWeight(members: seq<Member>, n: nat): nat
    requires n <= |members|
  {
    if n == 0 then 0 else KeysWeight(members, n - 1) + |members[n - 1].key|
  }

  /** The weight still pending, and how many values that is. */
  function Sum(js: seq<Json>): nat {
    if js == [] then 0 else Sum(js[..|js| - 1]) + Weight(js[|js| - 1])
  }

  function Size(j: Json): (n: nat)
    ensures n >= 1
    decreases j
  {
    match j
    case Arr(items) => 1 + ItemsSize(j, |items|)
    case Obj(members) => 1 + MembersSize(j, |members|)
    case _ => 1
  }

  function ItemsSize(j: Json, n: nat): nat
    requires j.Arr? && n <= |j.items|
    decreases j, n
  {
    if n == 0 then 0 else ItemsSize(j, n - 1) + (assert j.items[n - 1] < j; Size(j.items[n - 1]))
  }

  function MembersSize(j: Json, n: nat): nat
    requires j.Obj? && n <= |j.members|
    decreases j, n
  {
    if n == 0 then 0 else MembersSize(j, n - 1) + (assert j.members[n - 1].value < j; Size(j.members[n - 1].value))
  }

  function SumSize(js: seq<Json>): nat {
    if js == [] then 0 else SumSize(js[..|js| - 1]) + Size(js[|js| - 1])
  }

  lemma SumSnoc(js: seq<Json>, j: Json)
    ensures Sum(js + [j]) == Sum(js) + Weight(j)
    ensures SumSize(js + [j]) == SumSize(js) + Size(j)
  {
    assert (js + [j])[..|js|] == js;
  }

  lemma {:induction false} SumItems(js: seq<Json>, j: Json, n: nat)
    requires j.Arr? && n <= |j.items|
    ensures Sum(js + j.items[..n]) == Sum(js) + ItemsWeight(j, n)
    ensures SumSize(js + j.items[..n]) == SumSize(js) + ItemsSize(j, n)
  {
    hide Weight, Size;
    if n == 0 {
      assert js + j.items[..0] == js;
    } else {
      SumItems(js, j, n - 1);
      SumSnoc(js + j.items[..n - 1], j.items[n - 1]);
      assert js + j.items[..n - 1] + [j.items[n - 1]] == js + j.items[..n];
    }
  }

  lemma {:induction false} KeysGrow(members: seq<Member>, a: nat, b: nat)
    requires a <= b <= |members|
    ensures KeysWeight(members, a) <= KeysWeight(members, b)
  {
    if a < b { KeysGrow(members, a, b - 1); }
  }

  /** `_bounded_json_weight`: the worklist returns the recursive weight when it is
      within the limit and nothing otherwise. */
  method BoundedJsonWeight(value: Json, limit: nat) returns (r: Option<nat>)
    ensures r == if Weight(value) <= limit then Some(Weight(value)) else None
  {
    hide Weight, Size;
    var weight := 0;
    var pending := [value];
    SumSnoc([], value);
    assert [] + [value] == [value];
    while pending != []
      invariant weight + Sum(pending) == Weight(value)
      invariant weight <= limit
      decreases SumSize(pending)
    {
      var item := pending[|pending| - 1];
      pending := pending[..|pending| - 1];
      WeightParts(item);
      weight := weight + if item.Str? then |item.s| else 1;
      if weight > limit { return None; }
      if item.Obj? {
        ghost var base, size, w0 := Sum(pending), SumSize(pending), weight;
        for k := 0 to |item.members|
          invariant weight == w0 + KeysWeight(item.members, k) <= limit
          invariant Sum(pending) == base + MembersWeight(item, k)
          invariant SumSize(pending) == size + MembersSize(item, k)
        {
          var m := item.members[k];
          KeysGrow(item.members, k + 1, |item.members|);
          weight := weight + |m.key|;
          if weight > limit { return None; }
          SumSnoc(pending, m.value);
          pending := pending + [m.value];
        }
      } else if item.Arr? {
        SumItems(pending, item, |item.items|);
        assert item.items[..|item.items|] == item.items;
        pending := pending + item.items;
      }
    }
    r := Some(weight);
  }

  lemma WeightParts(j: Json)
    ensures j.Str? ==> Weight(j) == |j.s|
    ensures j.Arr? ==> Weight(j) == 1 + ItemsWeight(j, |j.items|) && Size(j) == 1 + ItemsSize(j, |j.items|)
    ensures j.Obj? ==> Weight(j) == 1 + KeysWeight(j.members, |j.members|) + MembersWeight(j, |j.members|)
                       && Size(j) == 1 + MembersSize(j, |j.members|)
    ensures !j.Str? && !j.Arr? && !j.Obj? ==> Weight(j) == 1
    ensures Size(j) >= 1
  {
  }

  /** All the text of a value, strings and keys, in order. */
  ghost function Letters(j: Json): Text
    decreases j
  {
    match j
    case Str(s) => s
    case Arr(items) => ItemLetters(j, |items|)
    case Obj(members) => MemberLetters(j, |members|)
    case _ => []
  }

  ghost function ItemLetters(j: Json, n: nat): Text
    requires j.Arr? && n <= |j.items|
    decreases j, n
  {
    if n == 0 then [] else ItemLetters(j, n - 1) + (assert j.items[n - 1] < j; Letters(j.items[n - 1]))
  }

  ghost function MemberLetters(j: Json, n: nat): Text
    requires j.Obj? && n <= |j.members|
    decreases j, n
  {
    if n == 0 then []
    else
      assert j.members[n - 1].value < j;
      MemberLetters(j, n - 1) + (j.members[n - 1].key + Letters(j.members[n - 1].value))
  }

  /** How many values there are that are not strings, the value itself included. */
  ghost function Others(j: Json): nat
    decreases j
  {
    match j
    case Str(_) => 0
    case Arr(items) => ItemOthers(j, |items|) + 1
    case Obj(members) => MemberOthers(j, |members|) + 1
    case _ => 1
  }

  ghost function ItemOthers(j: Json, n: nat): nat
    requires j.Arr? && n <= |j.items|
    decreases j, n
  {
    if n == 0 then 0 else ItemOthers(j, n - 1) + (assert j.items[n - 1] < j; Others(j.items[n - 1]))
  }

  ghost function MemberOthers(j: Json, n: nat): nat
    requires j.Obj? && n <= |j.members|
    decreases j, n
  {
    if n == 0 then 0
    else MemberOthers(j, n - 1) + (assert j.members[n - 1].value < j; Others(j.members[n - 1].value))
  }

  /** What is weighed: the text, character by character, and the values without text. */
  lemma {:induction false} WeightExactly(j: Json)
    ensures Weight(j) == |Letters(j)| + Others(j)
    decreases j, 1
  {
    match j
    case Arr(items) => ItemsExactly(j, |items|);
    case Obj(members) => MembersExactly(j, |members|);
    case _ =>
  }

  lemma {:induction false} ItemsExactly(j: Json, n: nat)
    requires j.Arr? && n <= |j.items|
    ensures ItemsWeight(j, n) == |ItemLetters(j, n)| + ItemOthers(j, n)
    decreases j, 0, n
  {
    hide Weight, Letters, Others;
    if n > 0 {
      ItemsExactly(j, n - 1);
      assert j.items[n - 1] < j;
      WeightExactly(j.items[n - 1]);
    }
  }

  lemma {:induction false} MembersExactly(j: Json, n: nat)
    requires j.Obj? && n <= |j.members|
    ensures KeysWeight(j.members, n) + MembersWeight(j, n) == |MemberLetters(j, n)| + MemberOthers(j, n)
    decreases j, 0, n
  {
    hide Weight, Letters, Others;
    if n > 0 {
      MembersExactly(j, n - 1);
      assert j.members[n - 1].value < j;
      WeightExactly(j.members[n - 1].value);
    }
  }

  // ---------------------------------------------------------------- potential

  function NodesWeight(nodes: seq<Node>): nat {
    if nodes == [] then 0 else Weight(nodes[0].value) + NodesWeight(nodes[1..])
  }

  lemma {:induction false} NodesWeightAppend(a: seq<Node>, b: seq<Node>)
    ensures NodesWeight(a + b) == NodesWeight(a) + NodesWeight(b)
  {
    hide Weight;
    if a == [] {
      assert a + b == b;
    } else {
      NodesWeightAppend(a[1..], b);
      assert (a + b)[1..] == a[1..] + b;
    }
  }

  lemma {:induction false} ItemBelow(j: Json, k: nat, n: nat)
    requires j.Arr? && k < n <= |j.items|
    ensures Weight(j.items[k]) <= ItemsWeight(j, n)
  {
    if k < n - 1 { ItemBelow(j, k, n - 1); }
  }

  lemma {:induction false} MemberBelow(j: Json, k: nat, n: nat)
    requires j.Obj? && k < n <= |j.members|
    ensures Weight(j.members[k].value) <= MembersWeight(j, n)
  {
    if k < n - 1 { MemberBelow(j, k, n - 1); }
  }

  lemma ChildLighter(step: Step, n: Node)
    requires Child(step, n).Some?
    ensures Weight(Child(step, n).value.value) <= Weight(n.value)
  {
    match step
    case Key(name) =>
      var v := Get(n.value.members, name).value;
      var k :| 0 <= k < |n.value.members| && n.value.members[k] == Member(name, v);
      MemberBelow(n.value, k, |n.value.members|);
    case Index(i) =>
      if n.value.Arr? { ItemBelow(n.value, i, |n.value.items|); }
    case _ =>
  }

  // A step may raise half way; what it has put together by then counts too.

  /** The children found before the step finishes or meets a node without one. */
  function DescendedUntil(step: Step, nodes: seq<Node>): seq<Node> {
    if nodes == [] || Child(step, nodes[0]).None? then []
    else [Child(step, nodes[0]).value] + DescendedUntil(step, nodes[1..])
  }

  /** The elements kept before the step finishes or meets a value it cannot iterate. */
  function ProjectedUntil(step: Step, nodes: seq<Node>): seq<Node> {
    if nodes == [] || Elements(nodes[0].value).None? then []
    else KeptFrom(step, Elements(nodes[0].value).value, nodes[0].location, 0) + ProjectedUntil(step, nodes[1..])
  }

  /** The nodes a step appends, whether it finishes, raises or stops at the cap. */
  function Expanded(step: Step, nodes: seq<Node>): seq<Node> {
    if IsProjection(step) then
      var out := ProjectedUntil(step, nodes);
      if |out| > MAX_SELECTED_NODES then out[..MAX_SELECTED_NODES] else out
    else DescendedUntil(step, nodes)
  }

  lemma {:induction false} DescendedAll(step: Step, nodes: seq<Node>)
    requires Descend(step, nodes).Some?
    ensures DescendedUntil(step, nodes) == Descend(step, nodes).value
  {
    hide Child;
    if nodes != [] { DescendedAll(step, nodes[1..]); }
  }

  lemma {:induction false} ProjectedAll(step: Step, nodes: seq<Node>)
    requires Project(step, nodes).Some?
    ensures ProjectedUntil(step, nodes) == Project(step, nodes).value
  {
    hide KeptFrom, Elements;
    if nodes != [] { ProjectedAll(step, nodes[1..]); }
  }

  /** A step that does not raise appends exactly what it selects. */
  lemma ExpandedIsSelected(step: Step, nodes: seq<Node>)
    requires SelectStep(step, nodes).Some?
    ensures Expanded(step, nodes) == SelectStep(step, nodes).value
  {
    hide Project, Descend, ProjectedUntil, DescendedUntil;
    if IsProjection(step) { ProjectedAll(step, nodes); } else { DescendedAll(step, nodes); }
  }

  lemma {:induction false} DescendedLighter(step: Step, nodes: seq<Node>)
    ensures NodesWeight(DescendedUntil(step, nodes)) <= NodesWeight(nodes)
  {
    hide Weight, Child;
    if nodes != [] && Child(step, nodes[0]).Some? {
      ChildLighter(step, nodes[0]);
      DescendedLighter(step, nodes[1..]);
      var n, rest := Child(step, nodes[0]).value, DescendedUntil(step, nodes[1..]);
      assert ([n] + rest)[1..] == rest;
    }
  }

  /** The weight of a value's elements from position `k` on. */
  function ElementsWeight(es: seq<Json>, k: nat): nat
    requires k <= |es|
    decreases |es| - k
  {
    if k == |es| then 0 else Weight(es[k]) + ElementsWeight(es, k + 1)
  }

  lemma {:induction false} KeptLighter(step: Step, es: seq<Json>, at: Location, k: nat)
    requires k <= |es|
    ensures NodesWeight(KeptFrom(step, es, at, k)) <= ElementsWeight(es, k)
    decreases |es| - k
  {
    hide Weight, Keeps;
    if k < |es| {
      KeptLighter(step, es, at, k + 1);
      var rest := KeptFrom(step, es, at, k + 1);
      assert ([Node(es[k], at + [AtIndex(k)])] + rest)[1..] == rest;
      assert [] + rest == rest;
    }
  }

  lemma {:induction false} ArrElements(j: Json, k: nat)
    requires j.Arr? && k <= |j.items|
    ensures ItemsWeight(j, k) + ElementsWeight(j.items, k) == ItemsWeight(j, |j.items|)
    decreases |j.items| - k
  {
    if k < |j.items| { ArrElements(j, k + 1); }
  }

  lemma {:induction false} StrElements(s: Text, es: seq<Json>, k: nat)
    requires Elements(Str(s)) == Some(es) && k <= |es|
    ensures ElementsWeight(es, k) == |s| - k
    decreases |es| - k
  {
    if k < |es| { StrElements(s, es, k + 1); }
  }

  lemma {:induction false} ObjElements(members: seq<Member>, es: seq<Json>, k: nat)
    requires Elements(Obj(members)) == Some(es) && k <= |es|
    ensures KeysWeight(members, k) + ElementsWeight(es, k) == KeysWeight(members, |members|)
    decreases |es| - k
  {
    if k < |es| { ObjElements(members, es, k + 1); }
  }

  lemma ElementsLighter(j: Json)
    requires Elements(j).Some?
    ensures ElementsWeight(Elements(j).value, 0) <= Weight(j)
  {
    match j
    case Arr(items) => ArrElements(j, 0);
    case Str(s) => StrElements(s, Elements(j).value, 0);
    case Obj(members) => ObjElements(members, Elements(j).value, 0);
  }

  lemma {:induction false} ProjectedLighter(step: Step, nodes: seq<Node>)
    ensures NodesWeight(ProjectedUntil(step, nodes)) <= NodesWeight(nodes)
  {
    hide Weight, KeptFrom, Elements, ElementsWeight;
    if nodes != [] && Elements(nodes[0].value).Some? {
      ProjectedLighter(step, nodes[1..]);
      var es := Elements(nodes[0].value).value;
      KeptLighter(step, es, nodes[0].location, 0);
      ElementsLighter(nodes[0].value);
      NodesWeightAppend(KeptFrom(step, es, nodes[0].location, 0), ProjectedUntil(step, nodes[1..]));
    }
  }

  /** The summed weight of what a step appends never exceeds that of the nodes it
      started from, even when it raises. */
  lemma ExpandedLighter(step: Step, nodes: seq<Node>)
    ensures NodesWeight(Expanded(step, nodes)) <= NodesWeight(nodes)
  {
    hide NodesWeight, ProjectedUntil, DescendedUntil;
    if IsProjection(step) {
      ProjectedLighter(step, nodes);
      var out := ProjectedUntil(step, nodes);
      if |out| > MAX_SELECTED_NODES {
        NodesWeightAppend(out[..MAX_SELECTED_NODES], out[MAX_SELECTED_NODES..]);
        assert out == out[..MAX_SELECTED_NODES] + out[MAX_SELECTED_NODES..];
      }
    } else {
      DescendedLighter(step, nodes);
    }
  }

  /** The summed weight of the selected nodes never grows along a step. */
  lemma StepLighter(step: Step, nodes: seq<Node>)
    requires SelectStep(step, nodes).Some?
    ensures NodesWeight(SelectStep(step, nodes).value) <= NodesWeight(nodes)
  {
    hide SelectStep, Expanded, NodesWeight;
    ExpandedIsSelected(step, nodes);
    ExpandedLighter(step, nodes);
  }

  // ------------------------------------------------------------------- budget

  predicate IsEmptyString(j: Json) { j.Str? && j.s == [] }

  function CountNonEmpty(nodes: seq<Node>): nat {
    if nodes == [] then 0 else (if IsEmptyString(nodes[0].value) then 0 else 1) + CountNonEmpty(nodes[1..])
  }

  lemma {:induction false} CountBelowWeight(nodes: seq<Node>)
    ensures CountNonEmpty(nodes) <= NodesWeight(nodes)
  {
    if nodes != [] { CountBelowWeight(nodes[1..]); }
  }

  /** How many nodes, empty strings aside, one evaluation of a path appends over
      all its steps, those of a step that raises included. */
  function Visits(nodes: seq<Node>, path: seq<Step>): nat
    decreases |path|
  {
    if path == [] then 0
    else
      var next := SelectStep(path[0], nodes);
      CountNonEmpty(Expanded(path[0], nodes)) + if next.None? then 0 else Visits(next.value, path[1..])
  }

  lemma {:induction false} VisitsBounded(nodes: seq<Node>, path: seq<Step>)
    ensures Visits(nodes, path) <= |path| * NodesWeight(nodes)
    decreases |path|
  {
    hide SelectStep, NodesWeight, CountNonEmpty, Expanded;
    if path != [] {
      var next := SelectStep(path[0], nodes);
      ExpandedLighter(path[0], nodes);
      CountBelowWeight(Expanded(path[0], nodes));
      MulMonotone(|path| - 1, 0, NodesWeight(nodes));
      if next.Some? {
        StepLighter(path[0], nodes);
        VisitsBounded(next.value, path[1..]);
        MulMonotone(|path| - 1, NodesWeight(next.value), NodesWeight(nodes));
      }
    }
  }

  lemma MulMonotone(k: nat, a: nat, b: nat)
    requires a <= b
    ensures k * a <= k * b
    ensures (k + 1) * b == k * b + b
  {
  }

  function DocumentVisits(document: Json, path: seq<Step>): nat {
    Visits([Node(document, [])], path)
  }

  function StepsOf(paths: seq<seq<Step>>): nat {
    if paths == [] then 0 else SelectionSteps(paths[0]) + StepsOf(paths[1..])
  }

  function VisitsOf(document: Json, paths: seq<seq<Step>>): nat {
    if paths == [] then 0 else DocumentVisits(document, paths[0]) + VisitsOf(document, paths[1..])
  }

  /** The work the budget charges: each claim path four times, each evidence path
      once, and one step per claim and required path for comparing locations. */
  function SelectionWork(claims: seq<seq<Step>>, required: seq<seq<Step>>, optional: seq<seq<Step>>): nat {
    SELECTION_PASSES * StepsOf(claims) + StepsOf(required + optional) + |claims| * |required|
  }

  /** Few enough claims, and a document whose weight times the steps stays within
      the maximum. */
  predicate WithinBudget(
    document: Option<Json>, claims: seq<seq<Step>>, required: seq<seq<Step>>, optional: seq<seq<Step>>)
  {
    && |claims| <= MAX_CLAIMS
    && (document.Some? ==>
          && SelectionWork(claims, required, optional) <= MAX_SELECTION_WORK
          && SelectionWork(claims, required, optional) * Weight(document.value) <= MAX_SELECTION_WORK)
  }

  /** `_validate_claim_evaluation_budget`: whether it returns. */
  method ValidateClaimBudget(
    document: Option<Json>, claims: seq<seq<Step>>, required: seq<seq<Step>>, optional: seq<seq<Step>>)
    returns (ok: bool)
    ensures ok <==> WithinBudget(document, claims, required, optional)
  {
    if |claims| > MAX_CLAIMS { return false; }
    if document.None? { return true; }
    var steps := SelectionWork(claims, required, optional);
    if steps == 0 { return true; }
    var limit := MAX_SELECTION_WORK / steps;
    var weight := BoundedJsonWeight(document.value, limit);
    ok := limit != 0 && weight.Some?;
    DivisionBudget(steps, Weight(document.value));
    DivisionBudget(steps, 1);
  }

  /** Integer division loses nothing here: the limit admits exactly the weights
      whose product with the steps stays within the maximum. */
  lemma DivisionBudget(steps: nat, weight: nat)
    requires steps > 0
    ensures weight <= MAX_SELECTION_WORK / steps <==> steps * weight <= MAX_SELECTION_WORK
  {
    DivisionExact(MAX_SELECTION_WORK, steps, weight);
  }

  lemma DivisionExact(n: nat, d: nat, x: nat)
    requires d > 0
    ensures x <= n / d <==> d * x <= n
  {
    var q := n / d;
    DivisionBounds(n, d);
    if x <= q {
      MulMonotone(d, x, q);
    } else {
      MulMonotone(d, q + 1, x);
      MulSuccessor(d, q);
    }
  }

  lemma DivisionBounds(n: nat, d: nat)
    requires d > 0
    ensures d * (n / d) <= n < d * (n / d) + d
  {
    assert n == d * (n / d) + n % d;
  }

  lemma MulSuccessor(d: nat, q: nat)
    ensures d * (q + 1) == d * q + d
  {
  }

  lemma DocumentVisitsBounded(document: Json, path: seq<Step>)
    ensures DocumentVisits(document, path) <= SelectionSteps(path) * Weight(document)
  {
    hide Visits, Weight;
    var nodes := [Node(document, [])];
    assert nodes[1..] == [] && NodesWeight(nodes) == Weight(document);
    hide NodesWeight;
    VisitsBounded(nodes, path);
  }

  lemma {:induction false} VisitsOfBounded(document: Json, paths: seq<seq<Step>>)
    ensures VisitsOf(document, paths) <= StepsOf(paths) * Weight(document)
  {
    hide Weight, DocumentVisits, SelectionSteps;
    if paths != [] {
      DocumentVisitsBounded(document, paths[0]);
      VisitsOfBounded(document, paths[1..]);
      Distribute(SelectionSteps(paths[0]), StepsOf(paths[1..]), Weight(document));
    }
  }

  lemma Distribute(a: nat, b: nat, w: nat)
    ensures (a + b) * w == a * w + b * w
  {
  }

  /** An accepted budget bounds the appended nodes other than empty strings, over
      four passes on every claim and one on every evidence path, by 8 * 2^20. */
  lemma AcceptedBudgetBoundsWork(
    document: Json, claims: seq<seq<Step>>, required: seq<seq<Step>>, optional: seq<seq<Step>>)
    requires SelectionWork(claims, required, optional) * Weight(document) <= MAX_SELECTION_WORK
    ensures SELECTION_PASSES * VisitsOf(document, claims) + VisitsOf(document, required + optional)
            <= MAX_SELECTION_WORK
  {
    hide Weight, StepsOf, VisitsOf;
    var w, c, e := Weight(document), StepsOf(claims), StepsOf(required + optional);
    VisitsOfBounded(document, claims);
    VisitsOfBounded(document, required + optional);
    MulMonotone(SELECTION_PASSES, VisitsOf(document, claims), c * w);
    Distribute(SELECTION_PASSES * c, e, w);
    Distribute(SELECTION_PASSES * c + e, |claims| * |required|, w);
    assert SELECTION_PASSES * (c * w) == (SELECTION_PASSES * c) * w;
  }

  function EmptyStrings(n: nat): (items: seq<Json>)
    ensures |items| == n
  {
    seq(n, _ => Str([]))
  }

  /** Empty strings are free: a list of any number of them weighs one, so the
      budget says nothing about how many of them are selected. */
  lemma {:induction false} EmptyStringsAreFree(items: seq<Json>, n: nat)
    requires n <= |items| && items == EmptyStrings(|items|)
    ensures ItemsWeight(Arr(items), n) == 0
    ensures n == |items| ==> Weight(Arr(items)) == 1
  {
    if n > 0 {
      EmptyStringsAreFree(items, n - 1);
      assert items[n - 1] == Str([]);
    }
  }
}
