/** The small JSON-path language and its two evaluators: grading's, which
    tracks concrete locations and stops expanding at the cap, and the replayer's,
    which maps whole lists of values and checks the cap afterwards. */
module PathSelection {
  import opened Common
  import opened Json

  const MAX_SELECTED_NODES: nat := 16 * 1024

  /** A parsed path: one `Key` per segment, each followed by its brackets. */
  datatype Step = Key(name: Text) | Index(n: nat) | Wildcard | Filter(field: Text, expected: Json)

  datatype Place = AtKey(name: Text) | AtIndex(n: nat)

  type Location = seq<Place>

  datatype Node = Node(value: Json, location: Location)

  /** `path_selection_steps`: one per key, index and projection. */
  function SelectionSteps(path: seq<Step>): nat { |path| }

  predicate IsProjection(s: Step) { s.Wildcard? || s.Filter? }

  predicate Plural(path: seq<Step>) {
    exists k :: 0 <= k < |path| && IsProjection(path[k])
  }

  // -------------------------------------------------- Python's view of a value

  /** Iterating a value: a list yields its items, a string its characters, an
      object its keys; anything else raises. */
  function Elements(j: Json): Option<seq<Json>> {
    match j
    case Arr(items) => Some(items)
    case Str(s) => Some(seq(|s|, k requires 0 <= k < |s| => Str([s[k]])))
    case Obj(members) => Some(seq(|members|, k requires 0 <= k < |members| => Str(members[k].key)))
    case _ => None
  }

  /** `value[name]`. */
  function ItemAtKey(j: Json, name: Text): Option<Json> {
    if j.Obj? then Get(j.members, name) else None
  }

  /** `value[n]`: an object has no integer keys. */
  function ItemAtIndex(j: Json, n: nat): Option<Json> {
    if j.Obj? then None
    else
      var es := Elements(j);
      if es.Some? && n < |es.value| then Some(es.value[n]) else None
  }

  // --------------------------------------------------------- grader, functional

  predicate Keeps(step: Step, item: Json) {
    match step
    case Filter(field, expected) =>
      item.Obj? && HasKey(item.members, field) && SemanticallyEqual(Get(item.members, field).value, expected)
    case _ => true
  }

  function KeptFrom(step: Step, es: seq<Json>, at: Location, k: nat): seq<Node>
    requires k <= |es|
    decreases |es| - k
  {
    if k == |es| then []
    else (if Keeps(step, es[k]) then [Node(es[k], at + [AtIndex(k)])] else []) + KeptFrom(step, es, at, k + 1)
  }

  /** All projected nodes, before any cap; `None` if some value is not iterable. */
  function Project(step: Step, nodes: seq<Node>): Option<seq<Node>> {
    if nodes == [] then Some([])
    else
      var es, rest := Elements(nodes[0].value), Project(step, nodes[1..]);
      if es.None? || rest.None? then None
      else Some(KeptFrom(step, es.value, nodes[0].location, 0) + rest.value)
  }

  function Child(step: Step, n: Node): Option<Node> {
    match step
    case Key(name) =>
      var v := ItemAtKey(n.value, name);
      if v.None? then None else Some(Node(v.value, n.location + [AtKey(name)]))
    case Index(i) =>
      var v := ItemAtIndex(n.value, i);
      if v.None? then None else Some(Node(v.value, n.location + [AtIndex(i)]))
    case _ => None
  }

  function Descend(step: Step, nodes: seq<Node>): Option<seq<Node>> {
    if nodes == [] then Some([])
    else
      var n, rest := Child(step, nodes[0]), Descend(step, nodes[1..]);
      if n.None? || rest.None? then None else Some([n.value] + rest.value)
  }

  /** One step of grading: `None` whenever it raises. */
  function SelectStep(step: Step, nodes: seq<Node>): Option<seq<Node>> {
    if IsProjection(step) then
      var out := Project(step, nodes);
      if out.Some? && |out.value| > MAX_SELECTED_NODES then None else out
    else Descend(step, nodes)
  }

  function SelectFrom(nodes: seq<Node>, path: seq<Step>): Option<seq<Node>>
    decreases |path|
  {
    if path == [] then Some(nodes)
    else
      var next := SelectStep(path[0], nodes);
      if next.None? then None else SelectFrom(next.value, path[1..])
  }

  function Select(document: Json, path: seq<Step>): Option<seq<Node>> {
    SelectFrom([Node(document, [])], path)
  }

  function Values(nodes: seq<Node>): (vs: seq<Json>)
    ensures |vs| == |nodes|
  {
    seq(|nodes|, k requires 0 <= k < |nodes| => nodes[k].value)
  }

  // -------------------------------------------------------- grader, imperative

  lemma ProjectSnoc(step: Step, nodes: seq<Node>, k: nat)
    requires k < |nodes|
    ensures Project(step, nodes[..k + 1]) ==
            var out, es := Project(step, nodes[..k]), Elements(nodes[k].value);
            if out.None? || es.None? then None
            else Some(out.value + KeptFrom(step, es.value, nodes[k].location, 0))
    decreases k
  {
    hide KeptFrom, Elements;
    if k == 0 {
      assert nodes[..1][1..] == [] && nodes[..0] == [];
      var es := Elements(nodes[0].value);
      if es.Some? {
        var a := KeptFrom(step, es.value, nodes[0].location, 0);
        assert a + [] == a == [] + a;
      }
    } else {
      ProjectSnoc(step, nodes[1..], k - 1);
      assert nodes[1..][..k] == nodes[..k + 1][1..];
      assert nodes[1..][..k - 1] == nodes[..k][1..];
      var es, out, last := Elements(nodes[0].value), Project(step, nodes[..k][1..]), Elements(nodes[k].value);
      if es.Some? && out.Some? && last.Some? {
        var a, c := KeptFrom(step, es.value, nodes[0].location, 0), KeptFrom(step, last.value, nodes[k].location, 0);
        assert a + (out.value + c) == a + out.value + c;
      }
    }
  }

  /** Once a prefix projects past the cap or fails, so does the whole list. */
  lemma {:induction false} ProjectPrefix(step: Step, nodes: seq<Node>, k: nat)
    requires k <= |nodes|
    ensures Project(step, nodes[..k]).None? ==> Project(step, nodes).None?
    ensures Project(step, nodes).Some? ==>
              Project(step, nodes[..k]).Some? && |Project(step, nodes[..k]).value| <= |Project(step, nodes).value|
    decreases |nodes| - k
  {
    if k == |nodes| {
      assert nodes[..k] == nodes;
    } else {
      ProjectSnoc(step, nodes, k);
      ProjectPrefix(step, nodes, k + 1);
    }
  }

  /** Append the kept elements of one value, stopping at the cap. */
  method ProjectOne(step: Step, es: seq<Json>, at: Location, before: seq<Node>) returns (r: Option<seq<Node>>)
    requires |before| <= MAX_SELECTED_NODES
    ensures var all := before + KeptFrom(step, es, at, 0);
            r == if |all| > MAX_SELECTED_NODES then None else Some(all)
  {
    hide Keeps;
    var expanded := before;
    for k := 0 to |es|
      invariant before + KeptFrom(step, es, at, 0) == expanded + KeptFrom(step, es, at, k)
      invariant |expanded| <= MAX_SELECTED_NODES
    {
      if Keeps(step, es[k]) {
        if |expanded| >= MAX_SELECTED_NODES { return None; }
        expanded := expanded + [Node(es[k], at + [AtIndex(k)])];
      }
    }
    assert expanded + [] == expanded;
    r := Some(expanded);
  }

  method ProjectNodes(step: Step, nodes: seq<Node>) returns (r: Option<seq<Node>>)
    requires IsProjection(step)
    ensures r == SelectStep(step, nodes)
  {
    var expanded: seq<Node> := [];
    for i := 0 to |nodes|
      invariant Project(step, nodes[..i]) == Some(expanded) && |expanded| <= MAX_SELECTED_NODES
    {
      ProjectSnoc(step, nodes, i);
      ProjectPrefix(step, nodes, i + 1);
      var es := Elements(nodes[i].value);
      if es.None? { return None; }
      var more := ProjectOne(step, es.value, nodes[i].location, expanded);
      if more.None? { return None; }
      expanded := more.value;
    }
    assert nodes[..|nodes|] == nodes;
    r := Some(expanded);
  }

  lemma DescendSnoc(step: Step, nodes: seq<Node>, k: nat)
    requires k < |nodes|
    ensures Descend(step, nodes[..k + 1]) ==
            var out, n := Descend(step, nodes[..k]), Child(step, nodes[k]);
            if out.None? || n.None? then None else Some(out.value + [n.value])
    decreases k
  {
    hide Child;
    if k == 0 {
      assert nodes[..1][1..] == [] && nodes[..0] == [];
      var n := Child(step, nodes[0]);
      if n.Some? { assert [n.value] + [] == [n.value] == [] + [n.value]; }
    } else {
      DescendSnoc(step, nodes[1..], k - 1);
      assert nodes[1..][..k] == nodes[..k + 1][1..];
      assert nodes[1..][..k - 1] == nodes[..k][1..];
      var a, out, c := Child(step, nodes[0]), Descend(step, nodes[..k][1..]), Child(step, nodes[k]);
      if a.Some? && out.Some? && c.Some? {
        assert [a.value] + (out.value + [c.value]) == [a.value] + out.value + [c.value];
      }
    }
  }

  lemma {:induction false} DescendPrefix(step: Step, nodes: seq<Node>, k: nat)
    requires k <= |nodes| && Descend(step, nodes[..k]).None?
    ensures Descend(step, nodes).None?
    decreases |nodes| - k
  {
    if k == |nodes| {
      assert nodes[..k] == nodes;
    } else {
      DescendSnoc(step, nodes, k);
      DescendPrefix(step, nodes, k + 1);
    }
  }

  method DescendNodes(step: Step, nodes: seq<Node>) returns (r: Option<seq<Node>>)
    ensures r == Descend(step, nodes)
  {
    var out: seq<Node> := [];
    for i := 0 to |nodes|
      invariant Descend(step, nodes[..i]) == Some(out)
    {
      DescendSnoc(step, nodes, i);
      var n := Child(step, nodes[i]);
      if n.None? {
        DescendPrefix(step, nodes, i + 1);
        return None;
      }
      out := out + [n.value];
    }
    assert nodes[..|nodes|] == nodes;
    r := Some(out);
  }

  // ------------------------------------------------------------------- replayer

  predicate ReplayKeeps(step: Step, item: Json) {
    match step
    case Filter(field, expected) =>
      item.Obj? && HasKey(item.members, field) && ReplayEqual(Get(item.members, field).value, expected)
    case _ => true
  }

  function FilterItems(step: Step, es: seq<Json>): seq<Json> {
    if es == [] then []
    else (if ReplayKeeps(step, es[0]) then [es[0]] else []) + FilterItems(step, es[1..])
  }

  function FlatMap(step: Step, values: seq<Json>): Option<seq<Json>> {
    if values == [] then Some([])
    else
      var es, rest := Elements(values[0]), FlatMap(step, values[1..]);
      if es.None? || rest.None? then None else Some(FilterItems(step, es.value) + rest.value)
  }

  function MapItems(step: Step, values: seq<Json>): Option<seq<Json>> {
    if values == [] then Some([])
    else
      var v := match step
        case Key(name) => ItemAtKey(values[0], name)
        case Index(n) => ItemAtIndex(values[0], n)
        case _ => None;
      var rest := MapItems(step, values[1..]);
      if v.None? || rest.None? then None else Some([v.value] + rest.value)
  }

  /** The cap is checked after every bracket, also after an index. */
  function ReplayStep(step: Step, values: seq<Json>): Option<seq<Json>> {
    var out := if IsProjection(step) then FlatMap(step, values) else MapItems(step, values);
    if out.Some? && !step.Key? && |out.value| > MAX_SELECTED_NODES then None else out
  }

  function ReplayFrom(values: seq<Json>, path: seq<Step>): Option<seq<Json>>
    decreases |path|
  {
    if path == [] then Some(values)
    else
      var next := ReplayStep(path[0], values);
      if next.None? then None else ReplayFrom(next.value, path[1..])
  }

  function ReplaySelect(document: Json, path: seq<Step>): Option<seq<Json>> {
    ReplayFrom([document], path)
  }

  // ------------------------------------------------------------------ agreement

  /** The replayer's outcome is grading's with the locations dropped. */
  ghost predicate Agree(grader: Option<seq<Node>>, replay: Option<seq<Json>>) {
    if grader.None? then replay.None? else replay == Some(Values(grader.value))
  }

  lemma KeepsAgree(step: Step, item: Json)
    ensures Keeps(step, item) <==> ReplayKeeps(step, item)
  {
    if step.Filter? && item.Obj? && HasKey(item.members, step.field) {
      EqualityTestsAgree(Get(item.members, step.field).value, step.expected);
    }
  }

  lemma {:induction false} KeptValues(step: Step, es: seq<Json>, at: Location, k: nat)
    requires k <= |es|
    ensures Values(KeptFrom(step, es, at, k)) == FilterItems(step, es[k..])
    decreases |es| - k
  {
    if k < |es| {
      KeptValues(step, es, at, k + 1);
      KeepsAgree(step, es[k]);
      assert es[k..][1..] == es[k + 1..];
    }
  }

  lemma ValuesAppend(a: seq<Node>, b: seq<Node>)
    ensures Values(a + b) == Values(a) + Values(b)
  {
  }

  lemma {:induction false} ProjectValues(step: Step, nodes: seq<Node>)
    ensures Agree(Project(step, nodes), FlatMap(step, Values(nodes)))
  {
    if nodes != [] {
      ProjectValues(step, nodes[1..]);
      assert Values(nodes)[1..] == Values(nodes[1..]);
      if Elements(nodes[0].value).Some? && Project(step, nodes[1..]).Some? {
        var es := Elements(nodes[0].value).value;
        KeptValues(step, es, nodes[0].location, 0);
        assert es[0..] == es;
        ValuesAppend(KeptFrom(step, es, nodes[0].location, 0), Project(step, nodes[1..]).value);
      }
    }
  }

  lemma {:induction false} DescendValues(step: Step, nodes: seq<Node>)
    requires !IsProjection(step)
    ensures Agree(Descend(step, nodes), MapItems(step, Values(nodes)))
    ensures Descend(step, nodes).Some? ==> |Descend(step, nodes).value| == |nodes|
  {
    if nodes != [] {
      DescendValues(step, nodes[1..]);
      assert Values(nodes)[1..] == Values(nodes[1..]);
      var n, rest := Child(step, nodes[0]), Descend(step, nodes[1..]);
      if n.Some? && rest.Some? { assert Values([n.value] + rest.value) == [n.value.value] + Values(rest.value); }
    }
  }

  lemma StepsAgree(step: Step, nodes: seq<Node>)
    requires |nodes| <= MAX_SELECTED_NODES
    ensures Agree(SelectStep(step, nodes), ReplayStep(step, Values(nodes)))
    ensures SelectStep(step, nodes).Some? ==> |SelectStep(step, nodes).value| <= MAX_SELECTED_NODES
  {
    if IsProjection(step) { ProjectValues(step, nodes); } else { DescendValues(step, nodes); }
  }

  lemma {:induction false} SelectionsAgreeFrom(nodes: seq<Node>, path: seq<Step>)
    requires |nodes| <= MAX_SELECTED_NODES
    ensures Agree(SelectFrom(nodes, path), ReplayFrom(Values(nodes), path))
    decreases |path|
  {
    if path != [] {
      StepsAgree(path[0], nodes);
      var next := SelectStep(path[0], nodes);
      if next.Some? { SelectionsAgreeFrom(next.value, path[1..]); }
    }
  }

  /** On every document and path, the two evaluators select the same values in
      the same order, and one raises exactly when the other does. */
  lemma SelectionsAgree(document: Json, path: seq<Step>)
    ensures Agree(Select(document, path), ReplaySelect(document, path))
  {
    SelectionsAgreeFrom([Node(document, [])], path);
    assert Values([Node(document, [])]) == [document];
  }
}
