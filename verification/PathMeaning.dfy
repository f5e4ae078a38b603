/** What a path selects, said place by place: which locations a path leads to, in
    which order they come, and exactly when selecting raises. */
module PathMeaning {
  import opened Common
  import opened Json
  import opened PathSelection

  // --------------------------------------------------------------- declarative

  /** What stands at place `n` of a value: the item of an array, the character of a
      string, the key of an object. */
  function ItemOf(j: Json, n: nat): Option<Json> {
    match j
    case Arr(items) => if n < |items| then Some(items[n]) else None
    case Str(s) => if n < |s| then Some(Str([s[n]])) else None
    case Obj(members) => if n < |members| then Some(Str(members[n].key)) else None
    case _ => None
  }

  function ResolveStep(j: Json, place: Place): Option<Json> {
    match place
    case AtKey(name) => if j.Obj? then Get(j.members, name) else None
    case AtIndex(n) => ItemOf(j, n)
  }

  /** What sits at a location. */
  function Resolve(document: Json, at: Location): Option<Json>
    decreases |at|
  {
    if at == [] then Some(document)
    else
      var up := Resolve(document, at[..|at| - 1]);
      if up.None? then None else ResolveStep(up.value, at[|at| - 1])
  }

  /** The step leads from a value to this place below it: a key to the member of that
      name, an index to that item or character, a wildcard to every place, a filter to
      the objects in an array whose field has the expected value. */
  ghost predicate Leads(step: Step, value: Json, place: Place) {
    match step
    case Key(name) => place == AtKey(name) && value.Obj? && HasKey(value.members, name)
    case Index(n) => place == AtIndex(n) && (value.Arr? || value.Str?) && ItemOf(value, n).Some?
    case Wildcard => place.AtIndex? && ItemOf(value, place.n).Some?
    case Filter(field, expected) =>
      && place.AtIndex? && value.Arr? && place.n < |value.items|
      && value.items[place.n].Obj? && HasKey(value.items[place.n].members, field)
      && SemanticallyEqual(Get(value.items[place.n].members, field).value, expected)
  }

  /** The path leads to this location, step by step. */
  ghost predicate Selects(document: Json, path: seq<Step>, at: Location) {
    && |at| == |path|
    && forall k :: 0 <= k < |path| ==>
         Resolve(document, at[..k]).Some? && Leads(path[k], Resolve(document, at[..k]).value, at[k])
  }

  /** The first place where two locations differ counts. */
  ghost predicate Before(a: Location, b: Location) {
    exists k :: && 0 <= k < |a| && k < |b| && a[..k] == b[..k]
                && a[k].AtIndex? && b[k].AtIndex? && a[k].n < b[k].n
  }

  ghost predicate Ordered(nodes: seq<Node>) {
    forall x, y :: 0 <= x < y < |nodes| ==> Before(nodes[x].location, nodes[y].location)
  }

  /** `nodes` are exactly the selected locations with what sits there, each once and
      in order. */
  ghost predicate SelectsExactly(document: Json, path: seq<Step>, nodes: seq<Node>) {
    && (forall n :: n in nodes <==>
          Selects(document, path, n.location) && Resolve(document, n.location) == Some(n.value))
    && Ordered(nodes)
  }

  /** The step raises at this value: the member, item or character is missing, or
      there is nothing to iterate. */
  ghost predicate Fails(step: Step, value: Json) {
    if IsProjection(step) then !(value.Arr? || value.Str? || value.Obj?)
    else forall place :: !Leads(step, value, place)
  }

  ghost predicate TooMany(document: Json, path: seq<Step>) {
    exists ats: set<Location> :: |ats| > MAX_SELECTED_NODES && forall at :: at in ats ==> Selects(document, path, at)
  }

  /** Step `k` raises: at one of the values selected so far, or because a projection
      selects more than the cap. */
  ghost predicate RaisesAt(document: Json, path: seq<Step>, k: nat)
    requires k < |path|
  {
    || (exists at :: Selects(document, path[..k], at) && Resolve(document, at).Some?
                     && Fails(path[k], Resolve(document, at).value))
    || (IsProjection(path[k]) && TooMany(document, path[..k + 1]))
  }

  // -------------------------------------------------------------- one step on

  lemma ResolveSnoc(document: Json, at: Location, place: Place)
    requires Resolve(document, at).Some?
    ensures Resolve(document, at + [place]) == ResolveStep(Resolve(document, at).value, place)
  {
    assert (at + [place])[..|at|] == at;
  }

  lemma LeadsResolves(step: Step, value: Json, place: Place)
    requires Leads(step, value, place)
    ensures ResolveStep(value, place).Some?
  {
    hide SemanticallyEqual;
  }

  lemma {:induction false} SelectsResolves(document: Json, path: seq<Step>, at: Location)
    requires Selects(document, path, at)
    ensures Resolve(document, at).Some?
  {
    hide Leads;
    if at != [] {
      var n := |at| - 1;
      LeadsResolves(path[n], Resolve(document, at[..n]).value, at[n]);
    }
  }

  lemma SelectsSnoc(document: Json, path: seq<Step>, step: Step, at: Location, place: Place)
    ensures Selects(document, path + [step], at + [place]) <==>
              Selects(document, path, at) && Leads(step, Resolve(document, at).value, place)
  {
    hide Leads, Resolve;
    var p, l := path + [step], at + [place];
    if Selects(document, p, l) {
      forall k | 0 <= k < |path|
        ensures Resolve(document, at[..k]).Some? && Leads(path[k], Resolve(document, at[..k]).value, at[k])
      {
        assert l[..k] == at[..k] && p[k] == path[k] && l[k] == at[k];
      }
      assert l[..|at|] == at && p[|at|] == step && l[|at|] == place;
    }
    if Selects(document, path, at) {
      SelectsResolves(document, path, at);
      if Leads(step, Resolve(document, at).value, place) {
        forall k | 0 <= k < |p|
          ensures Resolve(document, l[..k]).Some? && Leads(p[k], Resolve(document, l[..k]).value, l[k])
        {
          assert l[..k] == at[..k];
          if k == |path| { assert at[..k] == at; }
        }
      }
    }
  }

  // ------------------------------------------------------------- projections

  /** A projection leads to exactly the places of the elements it keeps. */
  lemma LeadsKeeps(step: Step, value: Json, place: Place)
    requires IsProjection(step)
    ensures Elements(value).None? <==> Fails(step, value)
    ensures Elements(value).Some? ==>
      (Leads(step, value, place) <==>
         place.AtIndex? && place.n < |Elements(value).value| && Keeps(step, Elements(value).value[place.n]))
    ensures place.AtIndex? && Elements(value).Some? && place.n < |Elements(value).value| ==>
      ItemOf(value, place.n) == Some(Elements(value).value[place.n])
  {
    hide SemanticallyEqual;
  }

  /** The node kept from element `n` of the value of `from`. */
  ghost predicate KeptNode(step: Step, from: Node, es: seq<Json>, n: nat, node: Node) {
    n < |es| && Keeps(step, es[n]) && node == Node(es[n], from.location + [AtIndex(n)])
  }

  lemma {:induction false} KeptMembers(step: Step, from: Node, es: seq<Json>, k: nat, out: seq<Node>)
    requires k <= |es| && out == KeptFrom(step, es, from.location, k)
    ensures forall node :: node in out <==> exists n: nat :: k <= n && KeptNode(step, from, es, n, node)
    ensures Ordered(out)
    decreases |es| - k
  {
    hide Keeps;
    if k < |es| {
      var rest := KeptFrom(step, es, from.location, k + 1);
      KeptMembers(step, from, es, k + 1, rest);
      hide KeptFrom;
      if Keeps(step, es[k]) {
        var first := Node(es[k], from.location + [AtIndex(k)]);
        assert out == [first] + rest;
        assert KeptNode(step, from, es, k, first);
        forall y | 0 <= y < |rest| ensures Before(first.location, rest[y].location) {
          assert rest[y] in rest;
          var n: nat :| k + 1 <= n && KeptNode(step, from, es, n, rest[y]);
          BeforeSiblings(from.location, k, n);
        }
        hide Before;
        forall node ensures node in out <==> exists n: nat :: k <= n && KeptNode(step, from, es, n, node) {
          if n: nat :| k <= n && KeptNode(step, from, es, n, node) {
            if n > k { assert node in rest; } else { assert node == first; }
          }
        }
      } else {
        assert out == rest;
      }
    }
  }

  lemma BeforeSiblings(at: Location, m: nat, n: nat)
    requires m < n
    ensures Before(at + [AtIndex(m)], at + [AtIndex(n)])
  {
    var a, b := at + [AtIndex(m)], at + [AtIndex(n)];
    assert a[..|at|] == b[..|at|] && a[|at|] == AtIndex(m) && b[|at|] == AtIndex(n);
  }

  lemma BeforeBelow(a: Location, b: Location, p: Place, q: Place)
    requires Before(a, b)
    ensures Before(a + [p], b + [q])
  {
    var k :| && 0 <= k < |a| && k < |b| && a[..k] == b[..k]
             && a[k].AtIndex? && b[k].AtIndex? && a[k].n < b[k].n;
    assert (a + [p])[..k] == a[..k] && (b + [q])[..k] == b[..k];
    assert (a + [p])[k] == a[k] && (b + [q])[k] == b[k];
  }

  /** The node comes from one of `nodes` by a projecting step. */
  ghost predicate Projected(step: Step, nodes: seq<Node>, node: Node) {
    exists from, n: nat ::
      from in nodes && Elements(from.value).Some? && KeptNode(step, from, Elements(from.value).value, n, node)
  }

  lemma {:induction false} ProjectMembers(step: Step, nodes: seq<Node>, out: seq<Node>)
    requires Project(step, nodes) == Some(out) && Ordered(nodes)
    ensures forall from :: from in nodes ==> Elements(from.value).Some?
    ensures forall node :: node in out <==> Projected(step, nodes, node)
    ensures Ordered(out)
  {
    hide KeptNode, Before, Elements, KeptFrom;
    if nodes != [] {
      var tail, from := nodes[1..], nodes[0];
      var es, rest := Elements(from.value).value, Project(step, tail).value;
      var first := KeptFrom(step, es, from.location, 0);
      ProjectMembers(step, tail, rest);
      KeptMembers(step, from, es, 0, first);
      assert out == first + rest;
      assert nodes == [from] + tail;
      forall node ensures node in out <==> Projected(step, nodes, node) {
        ProjectedSplit(step, from, tail, node);
      }
      forall x, y | 0 <= x < |first| && 0 <= y < |rest| ensures Before(first[x].location, rest[y].location) {
        assert first[x] in first && rest[y] in rest;
        FirstBeforeRest(step, nodes, first[x], rest[y]);
      }
      OrderedAppend(first, rest);
    }
  }

  lemma ProjectedSplit(step: Step, from: Node, tail: seq<Node>, node: Node)
    ensures Projected(step, [from] + tail, node) <==>
              (Elements(from.value).Some? && exists n: nat :: KeptNode(step, from, Elements(from.value).value, n, node))
              || Projected(step, tail, node)
  {
    hide KeptNode, Elements;
    assert from in [from] + tail;
    forall n | n in tail ensures n in [from] + tail { }
  }

  lemma FirstBeforeRest(step: Step, nodes: seq<Node>, a: Node, b: Node)
    requires nodes != [] && Ordered(nodes) && Elements(nodes[0].value).Some?
    requires exists n: nat :: 0 <= n && KeptNode(step, nodes[0], Elements(nodes[0].value).value, n, a)
    requires Projected(step, nodes[1..], b)
    ensures Before(a.location, b.location)
  {
    hide Before, Elements, Keeps;
    var m: nat :| KeptNode(step, nodes[0], Elements(nodes[0].value).value, m, a);
    var from, n: nat :| from in nodes[1..] && Elements(from.value).Some?
      && KeptNode(step, from, Elements(from.value).value, n, b);
    var y :| 0 <= y < |nodes[1..]| && nodes[1..][y] == from;
    assert nodes[y + 1] == from;
    BeforeBelow(nodes[0].location, from.location, AtIndex(m), AtIndex(n));
  }

  lemma OrderedAppend(a: seq<Node>, b: seq<Node>)
    requires Ordered(a) && Ordered(b)
    requires forall x, y :: 0 <= x < |a| && 0 <= y < |b| ==> Before(a[x].location, b[y].location)
    ensures Ordered(a + b)
  {
    hide Before;
  }

  // ----------------------------------------------------------- keys and indices

  lemma ChildLeads(step: Step, from: Node, place: Place)
    requires !IsProjection(step)
    ensures Child(step, from).None? <==> Fails(step, from.value)
    ensures Leads(step, from.value, place) <==>
              && Child(step, from).Some?
              && ResolveStep(from.value, place).Some?
              && Child(step, from).value == Node(ResolveStep(from.value, place).value, from.location + [place])
  {
    match step
    case Key(name) =>
      assert from.value.Obj? && HasKey(from.value.members, name) ==> Leads(step, from.value, AtKey(name));
      LastPlace(from.location, AtKey(name), place);
    case Index(n) =>
      assert (from.value.Arr? || from.value.Str?) && ItemOf(from.value, n).Some? ==>
          Leads(step, from.value, AtIndex(n));
      LastPlace(from.location, AtIndex(n), place);
    case _ =>
  }

  lemma LastPlace(at: Location, p: Place, q: Place)
    ensures at + [p] == at + [q] <==> p == q
  {
    assert (at + [p])[|at|] == p && (at + [q])[|at|] == q;
  }

  lemma {:induction false} DescendMembers(step: Step, nodes: seq<Node>, out: seq<Node>)
    requires !IsProjection(step) && Descend(step, nodes) == Some(out)
    ensures |out| == |nodes| && forall x :: 0 <= x < |out| ==> Child(step, nodes[x]) == Some(out[x])
  {
    hide Child;
    if nodes != [] {
      var rest := Descend(step, nodes[1..]).value;
      DescendMembers(step, nodes[1..], rest);
      forall x | 0 <= x < |out| ensures Child(step, nodes[x]) == Some(out[x]) {
        if x > 0 { assert out[x] == rest[x - 1] && nodes[1..][x - 1] == nodes[x]; }
      }
    }
  }

  lemma DescendOrdered(step: Step, nodes: seq<Node>, out: seq<Node>)
    requires !IsProjection(step) && Descend(step, nodes) == Some(out) && Ordered(nodes)
    ensures Ordered(out)
  {
    hide Before, Descend;
    DescendMembers(step, nodes, out);
    forall x, y | 0 <= x < y < |out| ensures Before(out[x].location, out[y].location) {
      var p := if step.Key? then AtKey(step.name) else AtIndex(step.n);
      assert out[x].location == nodes[x].location + [p] && out[y].location == nodes[y].location + [p];
      BeforeBelow(nodes[x].location, nodes[y].location, p, p);
    }
  }

  // ------------------------------------------------------------- whole paths

  /** Below a selected node, a place is selected exactly when the step leads there. */
  lemma SelectedBelow(document: Json, path: seq<Step>, step: Step, nodes: seq<Node>, from: Node, place: Place)
    requires SelectsExactly(document, path, nodes) && from in nodes
    ensures Selects(document, path + [step], from.location + [place]) <==> Leads(step, from.value, place)
    ensures Resolve(document, from.location + [place]) == ResolveStep(from.value, place)
  {
    hide Leads, Resolve, ResolveStep;
    SelectsSnoc(document, path, step, from.location, place);
    ResolveSnoc(document, from.location, place);
  }

  /** A selected location lies below a selected node. */
  lemma SelectedAbove(document: Json, path: seq<Step>, step: Step, nodes: seq<Node>, at: Location)
    returns (from: Node, place: Place)
    requires SelectsExactly(document, path, nodes) && Selects(document, path + [step], at)
    ensures from in nodes && at == from.location + [place]
  {
    hide Leads, Resolve;
    var n := |path|;
    place := at[n];
    assert at == at[..n] + [place];
    SelectsSnoc(document, path, step, at[..n], place);
    SelectsResolves(document, path, at[..n]);
    from := Node(Resolve(document, at[..n]).value, at[..n]);
  }

  lemma ProjectedSelects(document: Json, path: seq<Step>, step: Step, nodes: seq<Node>, node: Node)
    requires SelectsExactly(document, path, nodes) && IsProjection(step)
    requires forall from :: from in nodes ==> Elements(from.value).Some?
    ensures Projected(step, nodes, node) <==>
              Selects(document, path + [step], node.location) && Resolve(document, node.location) == Some(node.value)
  {
    hide Selects, Leads, Resolve, Elements, Keeps;
    if Projected(step, nodes, node) {
      var from, n: nat :| from in nodes && KeptNode(step, from, Elements(from.value).value, n, node);
      LeadsKeeps(step, from.value, AtIndex(n));
      SelectedBelow(document, path, step, nodes, from, AtIndex(n));
    }
    if Selects(document, path + [step], node.location) && Resolve(document, node.location) == Some(node.value) {
      var from, place := SelectedAbove(document, path, step, nodes, node.location);
      LeadsKeeps(step, from.value, place);
      SelectedBelow(document, path, step, nodes, from, place);
      assert KeptNode(step, from, Elements(from.value).value, place.n, node);
    }
  }

  lemma ProjectSelects(document: Json, path: seq<Step>, step: Step, nodes: seq<Node>, out: seq<Node>)
    requires SelectsExactly(document, path, nodes) && IsProjection(step) && Project(step, nodes) == Some(out)
    ensures SelectsExactly(document, path + [step], out)
  {
    hide Selects, Resolve, Projected, Ordered, Project;
    ProjectMembers(step, nodes, out);
    forall node
      ensures node in out <==>
                Selects(document, path + [step], node.location) && Resolve(document, node.location) == Some(node.value)
    { ProjectedSelects(document, path, step, nodes, node); }
  }

  lemma ChildSelects(document: Json, path: seq<Step>, step: Step, nodes: seq<Node>, out: seq<Node>, node: Node)
    requires SelectsExactly(document, path, nodes) && !IsProjection(step)
    requires |out| == |nodes| && forall x :: 0 <= x < |out| ==> Child(step, nodes[x]) == Some(out[x])
    ensures node in out <==>
              Selects(document, path + [step], node.location) && Resolve(document, node.location) == Some(node.value)
  {
    hide Selects, Leads, Resolve, Child;
    if node in out {
      var x :| 0 <= x < |out| && out[x] == node;
      var place := PlaceOf(step, nodes[x], node);
      ChildLeads(step, nodes[x], place);
      SelectedBelow(document, path, step, nodes, nodes[x], place);
    }
    if Selects(document, path + [step], node.location) && Resolve(document, node.location) == Some(node.value) {
      var from, place := SelectedAbove(document, path, step, nodes, node.location);
      ChildLeads(step, from, place);
      SelectedBelow(document, path, step, nodes, from, place);
      var x :| 0 <= x < |nodes| && nodes[x] == from;
      assert out[x] == node;
    }
  }

  lemma PlaceOf(step: Step, from: Node, node: Node) returns (place: Place)
    requires !IsProjection(step) && Child(step, from) == Some(node)
    ensures ResolveStep(from.value, place) == Some(node.value) && node.location == from.location + [place]
  {
    place := if step.Key? then AtKey(step.name) else AtIndex(step.n);
  }

  lemma DescendSelects(document: Json, path: seq<Step>, step: Step, nodes: seq<Node>, out: seq<Node>)
    requires SelectsExactly(document, path, nodes) && !IsProjection(step) && Descend(step, nodes) == Some(out)
    ensures SelectsExactly(document, path + [step], out)
  {
    hide Selects, Resolve, Descend, Child, Ordered;
    DescendMembers(step, nodes, out);
    DescendOrdered(step, nodes, out);
    forall node
      ensures node in out <==>
                Selects(document, path + [step], node.location) && Resolve(document, node.location) == Some(node.value)
    { ChildSelects(document, path, step, nodes, out, node); }
  }

  // ------------------------------------------------------------- when it raises

  lemma {:induction false} ProjectFails(step: Step, nodes: seq<Node>)
    requires IsProjection(step)
    ensures Project(step, nodes).None? <==> exists from :: from in nodes && Fails(step, from.value)
  {
    hide Elements, Fails;
    if nodes != [] {
      ProjectFails(step, nodes[1..]);
      LeadsKeeps(step, nodes[0].value, AtIndex(0));
      assert nodes == [nodes[0]] + nodes[1..];
    }
  }

  lemma {:induction false} DescendFails(step: Step, nodes: seq<Node>)
    requires !IsProjection(step)
    ensures Descend(step, nodes).None? <==> exists from :: from in nodes && Fails(step, from.value)
  {
    hide Child, Fails;
    if nodes != [] {
      DescendFails(step, nodes[1..]);
      ChildLeads(step, nodes[0], AtIndex(0));
      assert nodes == [nodes[0]] + nodes[1..];
    }
  }

  lemma BeforeDiffers(a: Location, b: Location)
    requires Before(a, b)
    ensures a != b
  { }

  lemma {:induction false} LocationsOf(nodes: seq<Node>) returns (ats: set<Location>)
    requires Ordered(nodes)
    ensures |ats| == |nodes| && forall at :: at in ats <==> exists x :: 0 <= x < |nodes| && nodes[x].location == at
  {
    hide Before;
    ats := {};
    if nodes != [] {
      var n := |nodes| - 1;
      var rest := LocationsOf(nodes[..n]);
      forall x | 0 <= x < n ensures nodes[x].location != nodes[n].location {
        BeforeDiffers(nodes[x].location, nodes[n].location);
      }
      ats := rest + {nodes[n].location};
    }
  }

  lemma TooManyIsLength(document: Json, path: seq<Step>, nodes: seq<Node>)
    requires SelectsExactly(document, path, nodes)
    ensures TooMany(document, path) <==> |nodes| > MAX_SELECTED_NODES
  {
    hide Selects, Resolve, Before;
    var mine := LocationsOf(nodes);
    forall at ensures at in mine <==> Selects(document, path, at) {
      if at in mine {
        var x :| 0 <= x < |nodes| && nodes[x].location == at;
        assert nodes[x] in nodes;
      }
      if Selects(document, path, at) {
        SelectsResolves(document, path, at);
        assert Node(Resolve(document, at).value, at) in nodes;
      }
    }
    if ats: set<Location> :| |ats| > MAX_SELECTED_NODES && forall at :: at in ats ==> Selects(document, path, at) {
      SubsetSize(ats, mine);
    }
  }

  lemma {:induction false} SubsetSize(a: set<Location>, b: set<Location>)
    requires a <= b
    ensures |a| <= |b|
    decreases a
  {
    if a != {} {
      var x :| x in a;
      SubsetSize(a - {x}, b - {x});
    }
  }

  /** Some node fails exactly when some selected value does. */
  lemma FailsSomewhere(document: Json, path: seq<Step>, step: Step, nodes: seq<Node>)
    requires SelectsExactly(document, path, nodes)
    ensures (exists from :: from in nodes && Fails(step, from.value)) <==>
              exists at :: Selects(document, path, at) && Resolve(document, at).Some?
                           && Fails(step, Resolve(document, at).value)
  {
    hide Selects, Resolve, Fails, Ordered;
    if from :| from in nodes && Fails(step, from.value) {
      assert Selects(document, path, from.location);
    }
    if at :| Selects(document, path, at) && Resolve(document, at).Some? && Fails(step, Resolve(document, at).value) {
      assert Node(Resolve(document, at).value, at) in nodes;
    }
  }

  lemma StepMeans(document: Json, path: seq<Step>, k: nat, nodes: seq<Node>)
    requires k < |path| && SelectsExactly(document, path[..k], nodes)
    ensures SelectStep(path[k], nodes).None? <==> RaisesAt(document, path, k)
    ensures SelectStep(path[k], nodes).Some? ==>
              SelectsExactly(document, path[..k + 1], SelectStep(path[k], nodes).value)
  {
    hide SelectsExactly, Selects, Resolve, Fails, Project, Descend, TooMany;
    var step := path[k];
    assert path[..k + 1] == path[..k] + [step];
    FailsSomewhere(document, path[..k], step, nodes);
    if IsProjection(step) {
      ProjectFails(step, nodes);
      var out := Project(step, nodes);
      if out.Some? {
        ProjectSelects(document, path[..k], step, nodes, out.value);
        TooManyIsLength(document, path[..k + 1], out.value);
      }
    } else {
      DescendFails(step, nodes);
      var out := Descend(step, nodes);
      if out.Some? { DescendSelects(document, path[..k], step, nodes, out.value); }
    }
  }

  lemma NothingYet(document: Json)
    ensures SelectsExactly(document, [], [Node(document, [])])
  {
    forall n: Node | Selects(document, [], n.location) && Resolve(document, n.location) == Some(n.value)
      ensures n in [Node(document, [])]
    { assert n == Node(document, []); }
  }

  lemma {:induction false} SelectMeansFrom(document: Json, path: seq<Step>, k: nat, nodes: seq<Node>)
    requires k <= |path| && SelectsExactly(document, path[..k], nodes)
    requires forall i :: 0 <= i < k ==> !RaisesAt(document, path, i)
    ensures SelectFrom(nodes, path[k..]).None? <==> exists i :: 0 <= i < |path| && RaisesAt(document, path, i)
    ensures SelectFrom(nodes, path[k..]).Some? ==> SelectsExactly(document, path, SelectFrom(nodes, path[k..]).value)
    decreases |path| - k
  {
    hide SelectsExactly, RaisesAt, SelectStep;
    if k == |path| {
      assert path[..k] == path;
    } else {
      StepMeans(document, path, k, nodes);
      assert path[k..][0] == path[k] && path[k..][1..] == path[k + 1..];
      if SelectStep(path[k], nodes).Some? {
        SelectMeansFrom(document, path, k + 1, SelectStep(path[k], nodes).value);
      }
    }
  }

  /** Selecting raises exactly when some step does, and otherwise gives exactly the
      locations the path leads to, each once, in order, with what sits there. */
  lemma SelectMeans(document: Json, path: seq<Step>)
    ensures Select(document, path).None? <==> exists k :: 0 <= k < |path| && RaisesAt(document, path, k)
    ensures Select(document, path).Some? ==> SelectsExactly(document, path, Select(document, path).value)
  {
    hide SelectsExactly, RaisesAt, SelectFrom;
    NothingYet(document);
    assert path[..0] == [] && path[0..] == path;
    SelectMeansFrom(document, path, 0, [Node(document, [])]);
  }

  /** `_select_path_nodes` on a supported, parsed path. */
  method SelectPathNodes(document: Json, path: seq<Step>) returns (r: Option<seq<Node>>, plural: bool)
    ensures r == Select(document, path)
    ensures r.None? <==> exists k :: 0 <= k < |path| && RaisesAt(document, path, k)
    ensures r.Some? ==> SelectsExactly(document, path, r.value)
    ensures r.Some? ==> (plural <==> Plural(path))
  {
    hide SelectsExactly, RaisesAt;
    SelectMeans(document, path);
    var nodes := [Node(document, [])];
    plural := false;
    for i := 0 to |path|
      invariant Select(document, path) == SelectFrom(nodes, path[i..])
      invariant plural <==> exists k :: 0 <= k < i && IsProjection(path[k])
    {
      assert path[i..][0] == path[i] && path[i..][1..] == path[i + 1..];
      var next;
      if IsProjection(path[i]) {
        next := ProjectNodes(path[i], nodes);
        plural := true;
      } else {
        next := DescendNodes(path[i], nodes);
      }
      if next.None? { return None, plural; }
      nodes := next.value;
    }
    r := Some(nodes);
  }
}
