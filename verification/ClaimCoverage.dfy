/** Claims and fact coverage: locations identify what was selected, so a passing
    coverage grade means every required fact was claimed, correctly. */
module ClaimCoverage {
  import opened Common
  import opened Json
  import opened PathSelection
  import opened PathMeaning

  // --------------------------------------------------------------- locations

  /** Distinct locations of one depth, with what sits there. */
  ghost predicate Located(document: Json, nodes: seq<Node>, depth: nat) {
    && (forall k :: 0 <= k < |nodes| ==> |nodes[k].location| == depth)
    && (forall k :: 0 <= k < |nodes| ==> Resolve(document, nodes[k].location) == Some(nodes[k].value))
    && (forall a, b :: 0 <= a < b < |nodes| ==> nodes[a].location != nodes[b].location)
  }

  /** Selected locations are pairwise distinct, as long as the path has steps,
      and resolve in the document to the selected values. */
  lemma SelectionIsLocated(document: Json, path: seq<Step>)
    requires Select(document, path).Some?
    ensures Located(document, Select(document, path).value, SelectionSteps(path))
  {
    hide Select, Resolve, RaisesAt, Before;
    SelectMeans(document, path);
    var nodes := Select(document, path).value;
    assert forall k :: 0 <= k < |nodes| ==> nodes[k] in nodes;
    forall a, b | 0 <= a < b < |nodes| ensures nodes[a].location != nodes[b].location {
      BeforeDiffers(nodes[a].location, nodes[b].location);
    }
  }

  /** A path without projections selects exactly one node. */
  lemma {:induction false} SingularSelectsOne(nodes: seq<Node>, path: seq<Step>)
    requires |nodes| == 1 && !Plural(path) && SelectFrom(nodes, path).Some?
    ensures |SelectFrom(nodes, path).value| == 1
    decreases |path|
  {
    if path != [] {
      assert !IsProjection(path[0]);
      DescendMembers(path[0], nodes, SelectStep(path[0], nodes).value);
      assert forall k :: 0 <= k < |path| - 1 ==> path[1..][k] == path[k + 1];
      SingularSelectsOne(SelectStep(path[0], nodes).value, path[1..]);
    }
  }

  // ------------------------------------------------------------------ claims

  datatype Claim = Claim(path: seq<Step>, value: Json)

  function LocationSet(nodes: seq<Node>): set<Location> {
    set k | 0 <= k < |nodes| :: nodes[k].location
  }

  /** `_supported_claim_locations`: `None` when unsupported or when it raises. */
  function SupportedLocations(c: Claim, document: Json, mayBeEmpty: seq<seq<Step>>): Option<set<Location>> {
    var nodes := Select(document, c.path);
    if nodes.None? then None
    else
      var values := Values(nodes.value);
      var actual := if Plural(c.path) || |values| != 1 then Arr(values) else values[0];
      if !SemanticallyEqual(actual, c.value) then None
      else if nodes.value == [] && !(Plural(c.path) && c.path in mayBeEmpty) then None
      else Some(LocationSet(nodes.value))
  }

  /** `grade_claims`: every claim is supported, and there is one. */
  predicate ClaimsPass(claims: seq<Claim>, document: Json, mayBeEmpty: seq<seq<Step>>) {
    claims != [] && forall c :: c in claims ==> SupportedLocations(c, document, mayBeEmpty).Some?
  }

  /** The paths of claims, in order: what grading them selects. */
  function Paths(claims: seq<Claim>): (ps: seq<seq<Step>>)
    ensures |ps| == |claims|
  {
    seq(|claims|, k requires 0 <= k < |claims| => claims[k].path)
  }

  lemma PathsSnoc(claims: seq<Claim>, k: nat)
    requires k < |claims|
    ensures Paths(claims[..k + 1]) == Paths(claims[..k]) + [claims[k].path]
  {
  }

  /** The unsupported ones among the first `n` claims, in order. */
  function FailedOf(claims: seq<Claim>, document: Json, mayBeEmpty: seq<seq<Step>>, n: nat): seq<Claim>
    requires n <= |claims|
  {
    if n == 0 then []
    else
      FailedOf(claims, document, mayBeEmpty, n - 1)
      + if SupportedLocations(claims[n - 1], document, mayBeEmpty).Some? then [] else [claims[n - 1]]
  }

  /** `grade_claims`; `selected` lists the paths it selects.  Absent claims fare as
      an empty list does. */
  method GradeClaims(claims: seq<Claim>, document: Json, mayBeEmpty: seq<seq<Step>>)
    returns (failed: seq<Claim>, passed: bool, ghost selected: seq<seq<Step>>)
    ensures failed == FailedOf(claims, document, mayBeEmpty, |claims|)
    ensures passed <==> ClaimsPass(claims, document, mayBeEmpty)
    ensures selected == Paths(claims)
  {
    hide SupportedLocations;
    failed, selected := [], [];
    for k := 0 to |claims|
      invariant failed == FailedOf(claims, document, mayBeEmpty, k)
      invariant failed == [] <==> forall j :: 0 <= j < k ==> SupportedLocations(claims[j], document, mayBeEmpty).Some?
      invariant selected == Paths(claims[..k])
    {
      PathsSnoc(claims, k);
      var supported := SupportedLocations(claims[k], document, mayBeEmpty);
      selected := selected + [claims[k].path];
      if supported.None? {
        failed := failed + [claims[k]];
      }
    }
    assert claims[..|claims|] == claims;
    passed := claims != [] && failed == [];
  }

  /** The union of the claimed location sets that stay inside `required`. */
  function CompatibleUnion(claims: seq<Claim>, document: Json, mayBeEmpty: seq<seq<Step>>, required: set<Location>)
    : set<Location>
  {
    if claims == [] then {}
    else
      var ls := SupportedLocations(claims[0], document, mayBeEmpty);
      (if ls.Some? && ls.value != {} && ls.value <= required then ls.value else {})
      + CompatibleUnion(claims[1..], document, mayBeEmpty, required)
  }

  predicate EmptyClaimed(claims: seq<Claim>, document: Json, mayBeEmpty: seq<seq<Step>>, path: seq<Step>) {
    exists c :: c in claims && c.path == path && SupportedLocations(c, document, mayBeEmpty) == Some({})
  }

  predicate Covered(claims: seq<Claim>, document: Json, required: seq<seq<Step>>, path: seq<Step>) {
    var nodes := Select(document, path);
    nodes.Some?
    && var ls := LocationSet(nodes.value);
       if ls == {} then EmptyClaimed(claims, document, required, path)
       else CompatibleUnion(claims, document, required, ls) == ls
  }

  lemma CompatibleSnoc(claims: seq<Claim>, document: Json, mayBeEmpty: seq<seq<Step>>, required: set<Location>, k: nat)
    requires k < |claims|
    ensures var ls := SupportedLocations(claims[k], document, mayBeEmpty);
            CompatibleUnion(claims[..k + 1], document, mayBeEmpty, required)
            == CompatibleUnion(claims[..k], document, mayBeEmpty, required)
               + if ls.Some? && ls.value != {} && ls.value <= required then ls.value else {}
    decreases k
  {
    hide SupportedLocations;
    if k == 0 {
      assert claims[..1][1..] == [] && claims[..0] == [];
    } else {
      CompatibleSnoc(claims[1..], document, mayBeEmpty, required, k - 1);
      assert claims[1..][..k] == claims[..k + 1][1..];
      assert claims[1..][..k - 1] == claims[..k][1..];
    }
  }

  type Supported = seq<(seq<Step>, set<Location>)>

  /** `supported` lists the path and locations of every supported claim. */
  ghost predicate Lists(supported: Supported, claims: seq<Claim>, document: Json, mayBeEmpty: seq<seq<Step>>) {
    && (forall x :: x in supported <==>
          exists c :: c in claims && x.0 == c.path && SupportedLocations(c, document, mayBeEmpty) == Some(x.1))
    && (forall ls :: UnionWithin(supported, ls) == CompatibleUnion(claims, document, mayBeEmpty, ls))
  }

  lemma ListsSnoc(supported: Supported, claims: seq<Claim>, document: Json, mayBeEmpty: seq<seq<Step>>, k: nat)
    requires k < |claims| && Lists(supported, claims[..k], document, mayBeEmpty)
    ensures var ls := SupportedLocations(claims[k], document, mayBeEmpty);
            Lists(if ls.Some? then supported + [(claims[k].path, ls.value)] else supported,
                  claims[..k + 1], document, mayBeEmpty)
  {
    hide SupportedLocations, UnionWithin, CompatibleUnion;
    var ls := SupportedLocations(claims[k], document, mayBeEmpty);
    assert forall c :: c in claims[..k + 1] <==> c in claims[..k] || c == claims[k];
    forall r { CompatibleSnoc(claims, document, mayBeEmpty, r, k); }
    if ls.Some? {
      forall r { UnionSnoc(supported, (claims[k].path, ls.value), r); }
    }
  }

  /** The supported claims of `grade_fact_coverage`, selected anew. */
  method SupportedClaims(claims: seq<Claim>, document: Json, mayBeEmpty: seq<seq<Step>>)
    returns (supported: Supported, ghost selected: seq<seq<Step>>)
    ensures Lists(supported, claims, document, mayBeEmpty)
    ensures selected == Paths(claims)
  {
    hide SupportedLocations, Lists;
    supported, selected := [], [];
    assert Lists([], claims[..0], document, mayBeEmpty) by { ListsNothing(document, mayBeEmpty); }
    for i := 0 to |claims|
      invariant Lists(supported, claims[..i], document, mayBeEmpty)
      invariant selected == Paths(claims[..i])
    {
      PathsSnoc(claims, i);
      ListsSnoc(supported, claims, document, mayBeEmpty, i);
      var ls := SupportedLocations(claims[i], document, mayBeEmpty);
      selected := selected + [claims[i].path];
      if ls.Some? {
        supported := supported + [(claims[i].path, ls.value)];
      }
    }
    assert claims[..|claims|] == claims;
  }

  lemma ListsNothing(document: Json, mayBeEmpty: seq<seq<Step>>)
    ensures Lists([], [], document, mayBeEmpty)
  { }

  predicate CoveredBy(supported: Supported, document: Json, path: seq<Step>) {
    var nodes := Select(document, path);
    nodes.Some?
    && var ls := LocationSet(nodes.value);
       if ls == {} then exists x :: x in supported && x.0 == path && x.1 == {}
       else UnionWithin(supported, ls) == ls
  }

  lemma CoveredByIsCovered(
    supported: Supported, claims: seq<Claim>, document: Json, required: seq<seq<Step>>, path: seq<Step>)
    requires Lists(supported, claims, document, required)
    ensures CoveredBy(supported, document, path) <==> Covered(claims, document, required, path)
  {
    hide SupportedLocations, UnionWithin, CompatibleUnion, Select;
    if x :| x in supported && x.0 == path && x.1 == {} {
      assert EmptyClaimed(claims, document, required, path);
    }
    if EmptyClaimed(claims, document, required, path) {
      assert (path, {}) in supported;
    }
  }

  /** The uncovered ones among the first `n` required paths, in order. */
  function MissingOf(claims: seq<Claim>, document: Json, required: seq<seq<Step>>, n: nat): seq<seq<Step>>
    requires n <= |required|
  {
    if n == 0 then []
    else
      MissingOf(claims, document, required, n - 1)
      + if Covered(claims, document, required, required[n - 1]) then [] else [required[n - 1]]
  }

  lemma {:induction false} MissingMembers(claims: seq<Claim>, document: Json, required: seq<seq<Step>>, n: nat)
    requires n <= |required|
    ensures forall p :: p in MissingOf(claims, document, required, n) <==>
              p in required[..n] && !Covered(claims, document, required, p)
  {
    hide Covered;
    if n > 0 {
      MissingMembers(claims, document, required, n - 1);
      assert required[..n] == required[..n - 1] + [required[n - 1]];
    }
  }

  /** `grade_fact_coverage`: the deterministic verdict and the missing paths. */
  method GradeFactCoverage(claims: seq<Claim>, document: Json, required: seq<seq<Step>>)
    returns (missing: seq<seq<Step>>, passed: bool, ghost selected: seq<seq<Step>>)
    ensures selected == Paths(claims) + Paths(claims) + required
    ensures missing == MissingOf(claims, document, required, |required|)
    ensures forall p :: p in missing <==> p in required && !Covered(claims, document, required, p)
    ensures passed <==> ClaimsPass(claims, document, required)
                        && forall p :: p in required ==> Covered(claims, document, required, p)
  {
    hide SupportedLocations, Lists, CoveredBy, Covered, Paths, ClaimsPass;
    var _, claimsPassed, graded := GradeClaims(claims, document, required);
    var supported, reselected := SupportedClaims(claims, document, required);
    missing := [];
    selected := graded + reselected;
    for i := 0 to |required|
      invariant missing == MissingOf(claims, document, required, i)
      invariant selected == Paths(claims) + Paths(claims) + required[..i]
    {
      var path := required[i];
      assert required[..i + 1] == required[..i] + [path];
      Regroup(Paths(claims) + Paths(claims), required[..i], [path]);
      selected := selected + [path];
      CoveredByIsCovered(supported, claims, document, required, path);
      if !CoveredBy(supported, document, path) {
        missing := missing + [path];
      }
    }
    passed := claimsPassed && missing == [];
    MissingMembers(claims, document, required, |required|);
    assert required[..|required|] == required;
    hide MissingOf;
    assert missing != [] ==> missing[0] in missing;
  }

  function UnionWithin(supported: Supported, required: set<Location>): set<Location> {
    if supported == [] then {}
    else
      var n := |supported| - 1;
      var ls := supported[n].1;
      UnionWithin(supported[..n], required) + if ls != {} && ls <= required then ls else {}
  }

  lemma UnionSnoc(supported: Supported, x: (seq<Step>, set<Location>), required: set<Location>)
    ensures UnionWithin(supported + [x], required)
            == UnionWithin(supported, required) + if x.1 != {} && x.1 <= required then x.1 else {}
  {
    assert (supported + [x])[..|supported|] == supported;
  }

  // ------------------------------------------------------------ what it means

  /** The element of a claim's value that speaks for selected node `k`. */
  ghost predicate Speaks(c: Claim, nodes: seq<Node>, k: nat, v: Json) {
    && k < |nodes|
    && if Plural(c.path) then c.value.Arr? && |c.value.items| == |nodes| && v == c.value.items[k]
       else |nodes| == 1 && v == c.value
  }

  /** Some claim asserts a value semantically equal to the document's value at
      `at`. */
  ghost predicate ClaimedCorrectly(claims: seq<Claim>, document: Json, at: Location) {
    exists c, k: nat, v ::
      && c in claims
      && Select(document, c.path).Some?
      && Speaks(c, Select(document, c.path).value, k, v)
      && Select(document, c.path).value[k].location == at
      && Resolve(document, at).Some?
      && SemanticallyEqual(Resolve(document, at).value, v)
  }

  /** A claim is supported exactly when its path can be selected and its value is what
      the path selects: for a projection, item by item and in order, nothing missing
      and nothing more, where selecting nothing counts only on a path allowed to; else
      the one value there.  It then speaks for exactly the selected locations. */
  lemma SupportedExactly(c: Claim, document: Json, mayBeEmpty: seq<seq<Step>>)
    ensures SupportedLocations(c, document, mayBeEmpty).Some? <==>
              exists nodes: seq<Node> :: && Select(document, c.path) == Some(nodes)
                              && (if Plural(c.path)
                                  then Itemized(c.value, nodes) && (nodes != [] || c.path in mayBeEmpty)
                                  else |nodes| == 1 && SemanticallyEqual(nodes[0].value, c.value))
    ensures SupportedLocations(c, document, mayBeEmpty).Some? ==>
              forall at :: at in SupportedLocations(c, document, mayBeEmpty).value <==> Selects(document, c.path, at)
  {
    hide Select, Selects, Resolve, RaisesAt, Ordered;
    SelectMeans(document, c.path);
    var selected := Select(document, c.path);
    if selected.Some? {
      var nodes := selected.value;
      if !Plural(c.path) { SelectOne(document, c.path); }
      hide Plural;
      assert Plural(c.path) ==> (SemanticallyEqual(Arr(Values(nodes)), c.value) <==> Itemized(c.value, nodes)) by {
        hide LocationSet;
        ItemizedIsEqual(c.value, nodes);
      }
      forall at ensures at in LocationSet(nodes) <==> Selects(document, c.path, at) {
        if at in LocationSet(nodes) {
          var k :| 0 <= k < |nodes| && nodes[k].location == at;
          assert nodes[k] in nodes;
        }
        if Selects(document, c.path, at) {
          SelectsResolves(document, c.path, at);
          assert Node(Resolve(document, at).value, at) in nodes;
        }
      }
    }
  }

  /** A claimed array lists the selected values. */
  ghost predicate Itemized(value: Json, nodes: seq<Node>) {
    && value.Arr? && |value.items| == |nodes|
    && forall k :: 0 <= k < |nodes| ==> SemanticallyEqual(nodes[k].value, value.items[k])
  }

  lemma ItemizedIsEqual(value: Json, nodes: seq<Node>)
    ensures SemanticallyEqual(Arr(Values(nodes)), value) <==> Itemized(value, nodes)
  {
    var vs := Values(nodes);
    assert forall k :: 0 <= k < |nodes| ==> vs[k] == nodes[k].value;
  }

  lemma SupportedSpeaks(c: Claim, document: Json, mayBeEmpty: seq<seq<Step>>, at: Location)
    requires SupportedLocations(c, document, mayBeEmpty).Some?
    requires at in SupportedLocations(c, document, mayBeEmpty).value
    ensures ClaimedCorrectly([c], document, at)
  {
    hide Select, Resolve;
    var nodes := Select(document, c.path).value;
    var k :| 0 <= k < |nodes| && nodes[k].location == at;
    SelectionIsLocated(document, c.path);
    assert Values(nodes)[k] == nodes[k].value;
    var v: Json;
    if Plural(c.path) {
      v := c.value.items[k];
    } else {
      SelectOne(document, c.path);
      v := c.value;
    }
    assert Speaks(c, nodes, k, v);
    assert c in [c];
  }

  lemma SelectOne(document: Json, path: seq<Step>)
    requires !Plural(path) && Select(document, path).Some?
    ensures |Select(document, path).value| == 1
  {
    SingularSelectsOne([Node(document, [])], path);
  }

  /** Some supported claim speaks for `at`, and for nothing the path does not select. */
  ghost predicate ClaimedWithin(
    claims: seq<Claim>, document: Json, mayBeEmpty: seq<seq<Step>>, required: set<Location>, at: Location)
  {
    exists c :: && c in claims && SupportedLocations(c, document, mayBeEmpty).Some?
                && at in SupportedLocations(c, document, mayBeEmpty).value
                && SupportedLocations(c, document, mayBeEmpty).value <= required
  }

  lemma {:induction false} UnionMembers(
    claims: seq<Claim>, document: Json, mayBeEmpty: seq<seq<Step>>, required: set<Location>, at: Location)
    ensures at in CompatibleUnion(claims, document, mayBeEmpty, required)
            <==> ClaimedWithin(claims, document, mayBeEmpty, required, at)
  {
    hide SupportedLocations;
    if claims != [] {
      UnionMembers(claims[1..], document, mayBeEmpty, required, at);
      assert claims == [claims[0]] + claims[1..];
    }
  }

  /** When a required path is covered, every location it selects is matched by an
      element of some claim whose claimed value is semantically equal to the
      document's value there. */
  lemma CoverageIsSound(claims: seq<Claim>, document: Json, required: seq<seq<Step>>, path: seq<Step>, at: Location)
    requires Covered(claims, document, required, path)
    requires at in LocationSet(Select(document, path).value)
    ensures ClaimedCorrectly(claims, document, at)
  {
    hide Select, Resolve, SupportedLocations, SemanticallyEqual;
    var ls := LocationSet(Select(document, path).value);
    UnionMembers(claims, document, required, ls, at);
    var c :| c in claims && SupportedLocations(c, document, required).Some?
             && at in SupportedLocations(c, document, required).value;
    SupportedSpeaks(c, document, required, at);
    var c', k: nat, v :| c' in [c] && Select(document, c'.path).Some?
      && Speaks(c', Select(document, c'.path).value, k, v)
      && Select(document, c'.path).value[k].location == at
      && Resolve(document, at).Some? && SemanticallyEqual(Resolve(document, at).value, v);
    assert c' == c;
  }

  /** A required path is covered exactly when it can be selected and, if it selects
      nothing, some supported claim says so of that very path, and else every location
      it selects is spoken for by a claim that stays within the path. */
  lemma CoveredExactly(claims: seq<Claim>, document: Json, required: seq<seq<Step>>, path: seq<Step>)
    ensures Covered(claims, document, required, path) <==>
              && Select(document, path).Some?
              && (var ls := LocationSet(Select(document, path).value);
                  if ls == {} then
                    exists c :: c in claims && c.path == path && SupportedLocations(c, document, required) == Some({})
                  else
                    forall at :: at in ls ==> ClaimedWithin(claims, document, required, ls, at))
  {
    hide Select, SupportedLocations, CompatibleUnion, ClaimedWithin, LocationSet;
    if Select(document, path).Some? {
      var ls := LocationSet(Select(document, path).value);
      forall at
        ensures at in CompatibleUnion(claims, document, required, ls)
                <==> ClaimedWithin(claims, document, required, ls, at)
      { UnionMembers(claims, document, required, ls, at); }
      ClaimedInside(claims, document, required, ls);
    }
  }

  lemma ClaimedInside(claims: seq<Claim>, document: Json, mayBeEmpty: seq<seq<Step>>, required: set<Location>)
    ensures forall at :: ClaimedWithin(claims, document, mayBeEmpty, required, at) ==> at in required
  { }
}
