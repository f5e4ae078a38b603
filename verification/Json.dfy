/** JSON values as the runner sees them after `json.loads`, and the runner's two
    independent equality tests. */
module Json {
  import opened Common

  type CodePoint = c: int | 0 <= c < 0x110000

  type Text = seq<CodePoint>

  /** Objects keep their members in order; `json.loads` with the runner's hook
      rejects repeated keys (see `UniqueKeys`).  Python keeps integers and floats
      apart, but compares them by value. */
  datatype Json =
    | Null
    | Bool(b: bool)
    | Int(i: int)
    | Float(x: real)
    | Str(s: Text)
    | Arr(items: seq<Json>)
    | Obj(members: seq<Member>)

  datatype Member = Member(key: Text, value: Json)

  ghost predicate UniqueKeys(j: Json) {
    match j
    case Arr(items) => forall k :: 0 <= k < |items| ==> UniqueKeys(items[k])
    case Obj(members) =>
      && (forall a, b :: 0 <= a < b < |members| ==> members[a].key != members[b].key)
      && (forall k :: 0 <= k < |members| ==> UniqueKeys(members[k].value))
    case _ => true
  }

  predicate HasKey(members: seq<Member>, key: Text) {
    exists k :: 0 <= k < |members| && members[k].key == key
  }

  function Get(members: seq<Member>, key: Text): (v: Option<Json>)
    ensures v.Some? <==> HasKey(members, key)
    ensures v.Some? ==> exists k :: 0 <= k < |members| && members[k] == Member(key, v.value)
  {
    if members == [] then None
    else if members[0].key == key then assert members[0] == Member(key, members[0].value); Some(members[0].value)
    else
      assert forall k :: 1 <= k < |members| ==> members[k] == members[1..][k - 1];
      Get(members[1..], key)
  }

  predicate IsNumber(j: Json) { j.Int? || j.Float? }

  function NumberValue(j: Json): real
    requires IsNumber(j)
  {
    if j.Int? then j.i as real else j.x
  }

  predicate SameKeys(a: seq<Member>, b: seq<Member>) {
    && (forall k :: 0 <= k < |a| ==> HasKey(b, a[k].key))
    && (forall k :: 0 <= k < |b| ==> HasKey(a, b[k].key))
  }

  /** `json_semantically_equal`, the creation-time grader's test. */
  predicate SemanticallyEqual(actual: Json, expected: Json) {
    if actual.Bool? || expected.Bool? then actual.Bool? && expected.Bool? && actual.b == expected.b
    else if actual.Null? || expected.Null? then actual.Null? && expected.Null?
    else if IsNumber(actual) || IsNumber(expected) then
      IsNumber(actual) && IsNumber(expected) && NumberValue(actual) == NumberValue(expected)
    else if actual.Str? || expected.Str? then actual.Str? && expected.Str? && actual.s == expected.s
    else if actual.Arr? || expected.Arr? then
      && actual.Arr? && expected.Arr?
      && |actual.items| == |expected.items|
      && forall k :: 0 <= k < |actual.items| ==> SemanticallyEqual(actual.items[k], expected.items[k])
    else
      && SameKeys(actual.members, expected.members)
      && forall k :: 0 <= k < |actual.members| ==>
           var other := Get(expected.members, actual.members[k].key);
           other.Some? && SemanticallyEqual(actual.members[k].value, other.value)
  }

  datatype PyType = NoneType | BoolType | IntType | FloatType | StrType | ListType | DictType

  function TypeOf(j: Json): PyType {
    match j
    case Null => NoneType
    case Bool(_) => BoolType
    case Int(_) => IntType
    case Float(_) => FloatType
    case Str(_) => StrType
    case Arr(_) => ListType
    case Obj(_) => DictType
  }

  /** `_replay_json_equal`, the replayer's test. */
  predicate ReplayEqual(left: Json, right: Json) {
    if left.Bool? || right.Bool? then TypeOf(left) == TypeOf(right) && left == right
    else if IsNumber(left) && IsNumber(right) then NumberValue(left) == NumberValue(right)
    else if TypeOf(left) != TypeOf(right) then false
    else if left.Obj? then
      && SameKeys(left.members, right.members)
      && forall k :: 0 <= k < |left.members| ==>
           var other := Get(right.members, left.members[k].key);
           other.Some? && ReplayEqual(left.members[k].value, other.value)
    else if left.Arr? then
      && |left.items| == |right.items|
      && forall k :: 0 <= k < |left.items| ==> ReplayEqual(left.items[k], right.items[k])
    else left == right
  }

  /** The two equality tests agree on every pair of values. */
  lemma {:induction false} EqualityTestsAgree(a: Json, b: Json)
    ensures SemanticallyEqual(a, b) <==> ReplayEqual(a, b)
  {
    if a.Arr? && b.Arr? && |a.items| == |b.items| {
      forall k | 0 <= k < |a.items|
        ensures SemanticallyEqual(a.items[k], b.items[k]) <==> ReplayEqual(a.items[k], b.items[k])
      {
        EqualityTestsAgree(a.items[k], b.items[k]);
      }
    } else if a.Obj? && b.Obj? {
      forall k | 0 <= k < |a.members| && Get(b.members, a.members[k].key).Some?
        ensures SemanticallyEqual(a.members[k].value, Get(b.members, a.members[k].key).value)
                <==> ReplayEqual(a.members[k].value, Get(b.members, a.members[k].key).value)
      {
        assert a.members[k].value < a;
        EqualityTestsAgree(a.members[k].value, Get(b.members, a.members[k].key).value);
      }
    }
  }

  // ------------------------------------------------------------ what a value means

  /** A value without its accidents: numbers by value, objects as maps. */
  datatype Meaning =
    | NullMeaning
    | BoolMeaning(b: bool)
    | NumberMeaning(x: real)
    | TextMeaning(s: Text)
    | ListMeaning(items: seq<Meaning>)
    | MapMeaning(members: map<Text, Meaning>)

  function MeaningOf(j: Json): Meaning {
    match j
    case Null => NullMeaning
    case Bool(b) => BoolMeaning(b)
    case Int(i) => NumberMeaning(i as real)
    case Float(x) => NumberMeaning(x)
    case Str(s) => TextMeaning(s)
    case Arr(items) => ListMeaning(seq(|items|, k requires 0 <= k < |items| => MeaningOf(items[k])))
    case Obj(members) => MapMeaning(MembersMeaning(members))
  }

  function MembersMeaning(members: seq<Member>): (m: map<Text, Meaning>) {
    if members == [] then map[]
    else MembersMeaning(members[1..])[members[0].key := MeaningOf(members[0].value)]
  }

  lemma {:induction false} MeaningAtKey(members: seq<Member>, key: Text)
    ensures key in MembersMeaning(members) <==> HasKey(members, key)
    ensures HasKey(members, key) ==> MembersMeaning(members)[key] == MeaningOf(Get(members, key).value)
  {
    hide MeaningOf;
    if members != [] {
      MeaningAtKey(members[1..], key);
      assert members == [members[0]] + members[1..];
      assert HasKey(members, key) <==> members[0].key == key || HasKey(members[1..], key) by {
        if k :| 0 <= k < |members| && members[k].key == key {
          if k > 0 { assert members[1..][k - 1].key == key; }
        }
        if k :| 0 <= k < |members[1..]| && members[1..][k].key == key { assert members[k + 1].key == key; }
      }
    }
  }

  lemma UniqueMember(members: seq<Member>, k: nat)
    requires k < |members| && forall a, b :: 0 <= a < b < |members| ==> members[a].key != members[b].key
    ensures Get(members, members[k].key) == Some(members[k].value)
  {
    assert HasKey(members, members[k].key);
  }

  /** Two values are equal exactly when they mean the same.  (Keys are not repeated
      in what `json.loads` accepts here.) */
  lemma {:induction false} EqualMeansSame(a: Json, b: Json)
    requires UniqueKeys(a)
    ensures SemanticallyEqual(a, b) <==> MeaningOf(a) == MeaningOf(b)
  {
    if a.Arr? && b.Arr? {
      forall k | 0 <= k < |a.items| && k < |b.items|
        ensures SemanticallyEqual(a.items[k], b.items[k]) <==> MeaningOf(a.items[k]) == MeaningOf(b.items[k])
      { EqualMeansSame(a.items[k], b.items[k]); }
      ItemsMean(a, b);
    } else if a.Obj? && b.Obj? {
      forall k | 0 <= k < |a.members| && HasKey(b.members, a.members[k].key)
        ensures var other := Get(b.members, a.members[k].key).value;
                SemanticallyEqual(a.members[k].value, other) <==> MeaningOf(a.members[k].value) == MeaningOf(other)
      {
        assert a.members[k].value < a;
        EqualMeansSame(a.members[k].value, Get(b.members, a.members[k].key).value);
      }
      ObjectsMean(a, b);
    }
  }

  lemma ItemsMean(a: Json, b: Json)
    requires a.Arr? && b.Arr?
    ensures MeaningOf(a) == MeaningOf(b) <==>
              && |a.items| == |b.items|
              && forall k :: 0 <= k < |a.items| ==> MeaningOf(a.items[k]) == MeaningOf(b.items[k])
  {
    if MeaningOf(a) == MeaningOf(b) {
      forall k | 0 <= k < |a.items| ensures MeaningOf(a.items[k]) == MeaningOf(b.items[k]) {
        assert MeaningOf(a).items[k] == MeaningOf(b).items[k];
      }
    }
  }

  /** Every member of `a` means what the member of `b` with its key means. */
  ghost predicate MembersMatch(a: seq<Member>, b: seq<Member>) {
    forall k :: 0 <= k < |a| ==>
      HasKey(b, a[k].key) && MeaningOf(a[k].value) == MeaningOf(Get(b, a[k].key).value)
  }

  lemma SameMapMatches(a: seq<Member>, b: seq<Member>)
    requires forall x, y :: 0 <= x < y < |a| ==> a[x].key != a[y].key
    requires MembersMeaning(a) == MembersMeaning(b)
    ensures SameKeys(a, b) && MembersMatch(a, b)
  {
    hide MeaningOf, MembersMeaning, Get;
    forall k | 0 <= k < |a|
      ensures HasKey(b, a[k].key) && MeaningOf(a[k].value) == MeaningOf(Get(b, a[k].key).value)
    {
      UniqueMember(a, k);
      assert HasKey(a, a[k].key);
      MeaningAtKey(a, a[k].key);
      MeaningAtKey(b, a[k].key);
    }
    forall k | 0 <= k < |b| ensures HasKey(a, b[k].key) {
      assert HasKey(b, b[k].key);
      MeaningAtKey(a, b[k].key);
      MeaningAtKey(b, b[k].key);
    }
  }

  lemma MatchingMapsAreSame(a: seq<Member>, b: seq<Member>)
    requires forall x, y :: 0 <= x < y < |a| ==> a[x].key != a[y].key
    requires SameKeys(a, b) && MembersMatch(a, b)
    ensures MembersMeaning(a) == MembersMeaning(b)
  {
    hide MeaningOf, MembersMeaning, Get;
    var m, n := MembersMeaning(a), MembersMeaning(b);
    forall key ensures (key in m <==> key in n) && (key in m ==> m[key] == n[key]) {
      MeaningAtKey(a, key);
      MeaningAtKey(b, key);
      if k :| 0 <= k < |a| && a[k].key == key { UniqueMember(a, k); }
    }
  }

  lemma ObjectsMean(a: Json, b: Json)
    requires a.Obj? && b.Obj?
    requires forall x, y :: 0 <= x < y < |a.members| ==> a.members[x].key != a.members[y].key
    ensures MeaningOf(a) == MeaningOf(b) <==> SameKeys(a.members, b.members) && MembersMatch(a.members, b.members)
  {
    assert MeaningOf(a) == MeaningOf(b) <==> MembersMeaning(a.members) == MembersMeaning(b.members);
    hide MeaningOf, MembersMeaning, SameKeys, MembersMatch;
    if MembersMeaning(a.members) == MembersMeaning(b.members) { SameMapMatches(a.members, b.members); }
    if SameKeys(a.members, b.members) && MembersMatch(a.members, b.members) {
      MatchingMapsAreSame(a.members, b.members);
    }
  }
}
