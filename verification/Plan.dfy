/** The interleaved work plan: tracks, then replicates, then live scenarios, then
    routes, the routes rotated by one per replicate. */
module Plan {
  import opened Common

  const MAX_WORK_ITEMS := 10000

  datatype WorkItem = WorkItem(ordinal: nat, scenario: string, track: string, route: string, replicate: nat)

  datatype Config = Config(tracks: seq<string>, replicates: nat, scenarios: seq<string>, routes: seq<string>)

  ghost predicate DistinctSeq(s: seq<string>) {
    forall i, j :: 0 <= i < j < |s| ==> s[i] != s[j]
  }

  function Rotated(routes: seq<string>, shift: nat): (r: seq<string>)
    requires shift <= |routes|
    ensures |r| == |routes|
  {
    routes[shift..] + routes[..shift]
  }

  /** The route at position `p` of the rotation is `shift` places further on. */
  lemma RotatedAt(routes: seq<string>, shift: nat, p: nat)
    requires shift < |routes| && p < |routes|
    ensures Rotated(routes, shift)[p] == routes[Rem(p + shift, |routes|)]
  {
    RemOnce(p + shift, |routes|);
  }

  lemma RemOnce(x: nat, n: nat)
    requires n > 0 && x < 2 * n
    ensures Rem(x, n) == if x < n then x else x - n
  {
    if x >= n { assert x == n + (x - n); }
  }

  function Total(c: Config): nat {
    |c.tracks| * (c.replicates * (|c.scenarios| * |c.routes|))
  }

  /** The mixed-radix digits of an ordinal: track, replicate, scenario, position. */
  datatype Digits = Digits(track: nat, replicate: nat, scenario: nat, position: nat)

  /** Append a digit `b` below `n` to the number `a`. */
  function Join(a: nat, n: nat, b: nat): nat { a * n + b }

  function Quot(i: nat, n: nat): nat
    requires n > 0
  {
    i / n
  }

  function Rem(i: nat, n: nat): (r: nat)
    requires n > 0
    ensures r < n
  {
    i % n
  }

  function Index(c: Config, d: Digits): nat {
    Join(Join(Join(d.track, c.replicates, d.replicate), |c.scenarios|, d.scenario), |c.routes|, d.position)
  }

  predicate InRange(c: Config, d: Digits) {
    d.track < |c.tracks| && d.replicate < c.replicates && d.scenario < |c.scenarios| && d.position < |c.routes|
  }

  function DigitsOf(c: Config, i: nat): Digits
    requires c.replicates > 0 && |c.scenarios| > 0 && |c.routes| > 0
  {
    var b := Quot(i, |c.routes|);
    var a := Quot(b, |c.scenarios|);
    Digits(Quot(a, c.replicates), Rem(a, c.replicates), Rem(b, |c.scenarios|), Rem(i, |c.routes|))
  }

  function Rotation(c: Config, replicate: nat): nat
    requires |c.routes| > 0
  {
    Rem(replicate, |c.routes|)
  }

  /** The item at given digits; replicates are numbered from one. */
  function ItemAt(c: Config, d: Digits): WorkItem
    requires InRange(c, d)
  {
    WorkItem(Index(c, d), c.scenarios[d.scenario], c.tracks[d.track],
             Rotated(c.routes, Rotation(c, d.replicate))[d.position], d.replicate + 1)
  }

  // ------------------------------------------------------------------ mixed radix

  lemma Carry(b: nat, n: nat)
    ensures (b + 1) * n == b * n + n
  {
  }

  lemma {:induction false} MulStep(a: nat, b: nat, n: nat)
    requires a < b
    ensures b * n >= a * n + n
  {
    Carry(b - 1, n);
    if a < b - 1 { MulStep(a, b - 1, n); }
  }

  lemma SplitJoin(a: nat, n: nat, b: nat)
    requires b < n
    ensures Quot(Join(a, n, b), n) == a && Rem(Join(a, n, b), n) == b
  {
    var x := a * n + b;
    var q, r := x / n, x % n;
    assert x == q * n + r;
    if q > a { MulStep(a, q, n); }
    if q < a { MulStep(q, a, n); }
  }

  lemma JoinSplit(i: nat, n: nat)
    requires n > 0
    ensures Join(Quot(i, n), n, Rem(i, n)) == i
  {
  }

  /** A number whose leading part is below `m` is below `m` with a zero digit. */
  lemma JoinBelow(a: nat, n: nat, b: nat, m: nat)
    requires b < n
    ensures a < m <==> Join(a, n, b) < Join(m, n, 0)
  {
    if a < m { MulStep(a, m, n); }
    if m < a { MulStep(m, a, n); }
  }

  lemma JoinCarry(a: nat, n: nat)
    ensures Join(a, n, n) == Join(a + 1, n, 0)
  {
    Carry(a, n);
  }

  lemma JoinNext(a: nat, n: nat, b: nat)
    ensures Join(a, n, b + 1) == Join(a, n, b) + 1
  {
  }

  function Limit(c: Config): Digits { Digits(|c.tracks|, 0, 0, 0) }

  lemma TotalIsLimit(c: Config)
    ensures Index(c, Limit(c)) == Total(c)
  {
    var x, y := |c.tracks| * c.replicates, |c.scenarios| * |c.routes|;
    assert Join(Join(Join(|c.tracks|, c.replicates, 0), |c.scenarios|, 0), |c.routes|, 0)
           == x * |c.scenarios| * |c.routes|;
    Associate(|c.tracks|, c.replicates, |c.scenarios|, |c.routes|);
  }

  /** Digits and index are inverse to each other. */
  lemma DigitsOfIndex(c: Config, d: Digits)
    requires InRange(c, d)
    ensures DigitsOf(c, Index(c, d)) == d
    ensures Index(c, d) < Total(c)
  {
    hide Join, Quot, Rem, Total;
    var a := Join(d.track, c.replicates, d.replicate);
    var b := Join(a, |c.scenarios|, d.scenario);
    SplitJoin(b, |c.routes|, d.position);
    SplitJoin(a, |c.scenarios|, d.scenario);
    SplitJoin(d.track, c.replicates, d.replicate);
    var a', b' := Join(|c.tracks|, c.replicates, 0), Join(Join(|c.tracks|, c.replicates, 0), |c.scenarios|, 0);
    JoinBelow(d.track, c.replicates, d.replicate, |c.tracks|);
    JoinBelow(a, |c.scenarios|, d.scenario, a');
    JoinBelow(b, |c.routes|, d.position, b');
    TotalIsLimit(c);
  }

  lemma IndexOfDigits(c: Config, i: nat)
    requires c.replicates > 0 && |c.scenarios| > 0 && |c.routes| > 0 && i < Total(c)
    ensures InRange(c, DigitsOf(c, i)) && Index(c, DigitsOf(c, i)) == i
  {
    hide Join, Quot, Rem, Total;
    var b := Quot(i, |c.routes|);
    var a := Quot(b, |c.scenarios|);
    JoinSplit(i, |c.routes|);
    JoinSplit(b, |c.scenarios|);
    JoinSplit(a, c.replicates);
    var a', b' := Join(|c.tracks|, c.replicates, 0), Join(Join(|c.tracks|, c.replicates, 0), |c.scenarios|, 0);
    TotalIsLimit(c);
    JoinBelow(b, |c.routes|, Rem(i, |c.routes|), b');
    JoinBelow(a, |c.scenarios|, Rem(b, |c.scenarios|), a');
    JoinBelow(Quot(a, c.replicates), c.replicates, Rem(a, c.replicates), |c.tracks|);
  }

  lemma Associate(a: nat, b: nat, c: nat, d: nat)
    ensures a * b * c * d == a * (b * (c * d))
  {
    var x := a * b;
    assert x * c * d == x * (c * d);
    assert x * (c * d) == a * (b * (c * d)) by {
      var y := c * d;
      assert a * b * y == a * (b * y);
    }
  }

  // ------------------------------------------------------------ the nested loops

  /** `resolve_plan`: appends in nested loops, numbering items as it goes; refuses
      an empty or oversized plan. */
  method ResolvePlan(c: Config) returns (plan: Option<seq<WorkItem>>)
    ensures plan.Some? <==> 0 < Total(c) <= MAX_WORK_ITEMS
    ensures plan.Some? ==> IsPlan(c, plan.value)
  {
    var total := |c.scenarios| * |c.routes| * |c.tracks| * c.replicates;
    Commute(|c.tracks|, c.replicates, |c.scenarios|, |c.routes|);
    if total == 0 || total > MAX_WORK_ITEMS { return None; }
    assert total == Total(c);
    Positive(|c.tracks|, c.replicates, |c.scenarios|, |c.routes|);
    hide Join, Total, Filled, IsPlan;
    var items: seq<WorkItem> := [];
    Nothing(c);
    for t := 0 to |c.tracks|
      invariant |items| == Index(c, Digits(t, 0, 0, 0))
      invariant Filled(c, items)
    {
      for r := 0 to c.replicates
        invariant |items| == Index(c, Digits(t, r, 0, 0))
        invariant Filled(c, items)
      {
        var rotation := Rem(r, |c.routes|);
        var ordered := c.routes[rotation..] + c.routes[..rotation];
        for s := 0 to |c.scenarios|
          invariant |items| == Index(c, Digits(t, r, s, 0))
          invariant Filled(c, items)
        {
          items := AppendRoutes(c, items, t, r, s, ordered);
          JoinNext(Join(t, c.replicates, r), |c.scenarios|, s);
          JoinCarry(Join(Join(t, c.replicates, r), |c.scenarios|, s), |c.routes|);
        }
        JoinNext(t, c.replicates, r);
        JoinCarry(Join(t, c.replicates, r), |c.scenarios|);
      }
      JoinCarry(t, c.replicates);
    }
    Complete(c, items);
    plan := Some(items);
  }

  lemma Nothing(c: Config)
    ensures Index(c, Digits(0, 0, 0, 0)) == 0 && Filled(c, [])
  {
  }

  /** Every item so far is the one its ordinal calls for. */
  ghost predicate Filled(c: Config, items: seq<WorkItem>) {
    forall d :: InRange(c, d) && Index(c, d) < |items| ==> items[Index(c, d)] == ItemAt(c, d)
  }

  method AppendRoutes(c: Config, before: seq<WorkItem>, t: nat, r: nat, s: nat, ordered: seq<string>)
    returns (items: seq<WorkItem>)
    requires t < |c.tracks| && r < c.replicates && s < |c.scenarios| && |c.routes| > 0
    requires ordered == Rotated(c.routes, Rotation(c, r))
    requires |before| == Index(c, Digits(t, r, s, 0)) && Filled(c, before)
    ensures |items| == Index(c, Digits(t, r, s, |c.routes|)) && Filled(c, items)
  {
    hide Join, Quot, Rem;
    items := before;
    for p := 0 to |ordered|
      invariant |items| == Index(c, Digits(t, r, s, p)) && Filled(c, items)
    {
      var item := WorkItem(|items|, c.scenarios[s], c.tracks[t], ordered[p], r + 1);
      var here := Digits(t, r, s, p);
      assert item == ItemAt(c, here);
      var next := items + [item];
      forall d | InRange(c, d) && Index(c, d) < |next| ensures next[Index(c, d)] == ItemAt(c, d) {
        if Index(c, d) == |items| {
          DigitsOfIndex(c, d);
          DigitsOfIndex(c, here);
        }
      }
      JoinNext(Join(Join(t, c.replicates, r), |c.scenarios|, s), |c.routes|, p);
      items := next;
    }
  }

  lemma Complete(c: Config, items: seq<WorkItem>)
    requires |items| == Index(c, Limit(c)) && Filled(c, items) && Total(c) > 0
    ensures IsPlan(c, items)
  {
    hide Join, Total;
    TotalIsLimit(c);
    forall d | InRange(c, d) ensures Index(c, d) < Total(c) { DigitsOfIndex(c, d); }
  }

  lemma Commute(a: nat, b: nat, c: nat, d: nat)
    ensures c * d * a * b == a * (b * (c * d))
  {
    var x := c * d;
    assert x * a * b == a * (b * x);
  }

  lemma Positive(a: nat, b: nat, c: nat, d: nat)
    requires a * (b * (c * d)) > 0
    ensures a > 0 && b > 0 && c > 0 && d > 0
  {
  }

  // ------------------------------------------------------------------ bijection

  ghost predicate IsPlan(c: Config, plan: seq<WorkItem>) {
    && |plan| == Total(c) && Total(c) > 0
    && forall d :: InRange(c, d) ==> Index(c, d) < Total(c) && plan[Index(c, d)] == ItemAt(c, d)
  }

  /** Ordinals are positions. */
  lemma OrdinalIsIndex(c: Config, plan: seq<WorkItem>, i: nat)
    requires IsPlan(c, plan) && i < |plan|
    ensures plan[i].ordinal == i
  {
    Positive(|c.tracks|, c.replicates, |c.scenarios|, |c.routes|);
    hide Join, Quot, Rem, Total;
    IndexOfDigits(c, i);
  }

  predicate Plans(item: WorkItem, scenario: string, track: string, route: string, replicate: nat) {
    item.scenario == scenario && item.track == track && item.route == route && item.replicate == replicate
  }

  /** Every combination of track, replicate, live scenario and route is planned,
      at exactly one position. */
  lemma PlanCoversOnce(c: Config, plan: seq<WorkItem>, t: nat, r: nat, s: nat, k: nat) returns (i: nat)
    requires IsPlan(c, plan)
    requires DistinctSeq(c.tracks) && DistinctSeq(c.scenarios) && DistinctSeq(c.routes)
    requires t < |c.tracks| && r < c.replicates && s < |c.scenarios| && k < |c.routes|
    ensures i < |plan| && plan[i] == WorkItem(i, c.scenarios[s], c.tracks[t], c.routes[k], r + 1)
    ensures forall j :: 0 <= j < |plan| && Plans(plan[j], c.scenarios[s], c.tracks[t], c.routes[k], r + 1) ==> j == i
  {
    hide Join, Quot, Rem, Total;
    var n, rot := |c.routes|, Rotation(c, r);
    var p := PositionOf(k, rot, n);
    var d := Digits(t, r, s, p);
    DigitsOfIndex(c, d);
    RotatedAt(c.routes, rot, p);
    i := Index(c, d);
    forall j | 0 <= j < |plan| && Plans(plan[j], c.scenarios[s], c.tracks[t], c.routes[k], r + 1) ensures j == i
    {
      IndexOfDigits(c, j);
      var e := DigitsOf(c, j);
      assert plan[j] == ItemAt(c, e);
      assert e.replicate == r && e.track == t && e.scenario == s;
      RotatedAt(c.routes, rot, e.position);
      assert Rem(e.position + rot, n) == k;
      PositionUnique(k, rot, n, e.position);
    }
  }

  /** Where route `k` stands in a rotation by `rot`. */
  function Position(k: nat, rot: nat, n: nat): nat
    requires k < n && rot < n
  {
    if k >= rot then k - rot else k + n - rot
  }

  lemma PositionOf(k: nat, rot: nat, n: nat) returns (p: nat)
    requires k < n && rot < n
    ensures p == Position(k, rot, n) && p < n && Rem(p + rot, n) == k
  {
    p := Position(k, rot, n);
    RemOnce(p + rot, n);
  }

  lemma PositionUnique(k: nat, rot: nat, n: nat, p: nat)
    requires k < n && rot < n && p < n && Rem(p + rot, n) == k
    ensures p == Position(k, rot, n)
  {
    RemOnce(p + rot, n);
  }

  // -------------------------------------------------------------------- balance

  /** In how many of the first `m` replicates route `k` stands at position `p`. */
  function Times(k: nat, p: nat, n: nat, m: nat): nat
    requires k < n
  {
    if m == 0 then 0 else Times(k, p, n, m - 1) + if Position(k, Rem(m - 1, n), n) == p then 1 else 0
  }

  lemma PositionIffRotation(k: nat, rot: nat, n: nat, p: nat)
    requires k < n && rot < n && p < n
    ensures Position(k, rot, n) == p <==> rot == Position(k, p, n)
  {
  }

  /** How many of 0 to m - 1 leave remainder `x` modulo `n`. */
  function Hits(x: nat, n: nat, m: nat): nat
    requires n > 0
  {
    if m == 0 then 0 else Hits(x, n, m - 1) + if Rem(m - 1, n) == x then 1 else 0
  }

  lemma {:induction false} TimesIsHits(k: nat, p: nat, n: nat, m: nat)
    requires k < n && p < n
    ensures Times(k, p, n, m) == Hits(Position(k, p, n), n, m)
  {
    if m > 0 {
      TimesIsHits(k, p, n, m - 1);
      PositionIffRotation(k, Rem(m - 1, n), n, p);
    }
  }

  lemma {:induction false} HitsExactly(x: nat, n: nat, m: nat)
    requires x < n
    ensures Hits(x, n, m) == Quot(m, n) + if x < Rem(m, n) then 1 else 0
  {
    if m == 0 {
      assert Quot(0, n) == 0 && Rem(0, n) == 0;
    } else {
      hide Quot, Rem;
      HitsExactly(x, n, m - 1);
      DivStep(m - 1, n);
    }
  }

  lemma DivStep(m: nat, n: nat)
    requires n > 0
    ensures if Rem(m, n) == n - 1 then Quot(m + 1, n) == Quot(m, n) + 1 && Rem(m + 1, n) == 0
            else Quot(m + 1, n) == Quot(m, n) && Rem(m + 1, n) == Rem(m, n) + 1
  {
    hide Quot, Rem, Join;
    var q, r := Quot(m, n), Rem(m, n);
    JoinSplit(m, n);
    JoinNext(q, n, r);
    if r == n - 1 {
      JoinCarry(q, n);
      SplitJoin(q + 1, n, 0);
    } else {
      SplitJoin(q, n, r + 1);
    }
  }

  // ------------------------------------------------------------- said of the plan

  /** Where the item of a track, a replicate, a scenario and a position stands. */
  function Place(c: Config, t: nat, r: nat, s: nat, p: nat): nat {
    ((t * c.replicates + r) * |c.scenarios| + s) * |c.routes| + p
  }

  lemma PlaceIsIndex(c: Config, t: nat, r: nat, s: nat, p: nat)
    ensures Place(c, t, r, s, p) == Index(c, Digits(t, r, s, p))
  { }

  lemma RemAdd(p: nat, r: nat, n: nat)
    requires p < n
    ensures Rem(p + Rem(r, n), n) == (p + r) % n
  {
    var q, m := Quot(r, n), Rem(r, n);
    JoinSplit(r, n);
    RemOnce(p + m, n);
    if p + m < n {
      assert p + r == Join(q, n, p + m);
      SplitJoin(q, n, p + m);
    } else {
      assert p + r == Join(q, n, n) + (p + m - n);
      JoinCarry(q, n);
      assert p + r == Join(q + 1, n, p + m - n);
      SplitJoin(q + 1, n, p + m - n);
    }
  }

  /** Item for item, what a plan says: tracks outermost, then replicates, scenarios and
      positions; replicate `r` runs the routes from route `r` on, around the end. */
  lemma PlanSays(c: Config, plan: seq<WorkItem>, t: nat, r: nat, s: nat, p: nat)
    requires IsPlan(c, plan)
    requires t < |c.tracks| && r < c.replicates && s < |c.scenarios| && p < |c.routes|
    ensures var i := Place(c, t, r, s, p);
            i < |plan|
            && plan[i] == WorkItem(i, c.scenarios[s], c.tracks[t], c.routes[(p + r) % |c.routes|], r + 1)
  {
    hide Join, Quot, Rem, Total, Place;
    PlaceIsIndex(c, t, r, s, p);
    DigitsOfIndex(c, Digits(t, r, s, p));
    RotatedAt(c.routes, Rotation(c, r), p);
    RemAdd(p, r, |c.routes|);
  }

  /** The replicates that run route `k` at position `p` of a track's scenario block. */
  ghost function Holders(c: Config, plan: seq<WorkItem>, t: nat, s: nat, p: nat, k: nat, m: nat): set<nat>
    requires k < |c.routes|
  {
    set r: nat | r < m && Place(c, t, r, s, p) < |plan| && plan[Place(c, t, r, s, p)].route == c.routes[k]
  }

  lemma HolderExactly(c: Config, plan: seq<WorkItem>, t: nat, r: nat, s: nat, p: nat, k: nat)
    requires IsPlan(c, plan) && DistinctSeq(c.routes)
    requires t < |c.tracks| && r < c.replicates && s < |c.scenarios| && k < |c.routes| && p < |c.routes|
    ensures Place(c, t, r, s, p) < |plan|
    ensures plan[Place(c, t, r, s, p)].route == c.routes[k] <==> Position(k, Rem(r, |c.routes|), |c.routes|) == p
  {
    hide Join, Quot, Rem, Total, Place;
    var n, rot := |c.routes|, Rem(r, |c.routes|);
    PlanSays(c, plan, t, r, s, p);
    RemAdd(p, r, n);
    var q := PositionOf(k, rot, n);
    if Rem(p + rot, n) == k { PositionUnique(k, rot, n, p); }
  }

  lemma {:induction false} HoldersCount(c: Config, plan: seq<WorkItem>, t: nat, s: nat, p: nat, k: nat, m: nat)
    requires IsPlan(c, plan) && DistinctSeq(c.routes) && m <= c.replicates
    requires t < |c.tracks| && s < |c.scenarios| && k < |c.routes| && p < |c.routes|
    ensures |Holders(c, plan, t, s, p, k, m)| == Times(k, p, |c.routes|, m)
  {
    hide IsPlan, Place, Rem, Position;
    if m == 0 {
      assert Holders(c, plan, t, s, p, k, 0) == {};
    } else {
      HoldersCount(c, plan, t, s, p, k, m - 1);
      HolderExactly(c, plan, t, m - 1, s, p, k);
      var before := Holders(c, plan, t, s, p, k, m - 1);
      if Position(k, Rem(m - 1, |c.routes|), |c.routes|) == p {
        assert Holders(c, plan, t, s, p, k, m) == before + {m - 1};
      } else {
        assert Holders(c, plan, t, s, p, k, m) == before;
      }
    }
  }

  /** In every plan, and for every track and scenario, the numbers of replicates in
      which two routes stand at a given position differ by at most one, and each is an
      even share of the replicates, rounded down or up. */
  lemma PositionsAreBalanced(c: Config, plan: seq<WorkItem>, t: nat, s: nat, p: nat, k: nat, l: nat)
    requires IsPlan(c, plan) && DistinctSeq(c.routes)
    requires t < |c.tracks| && s < |c.scenarios|
    requires k < |c.routes| && l < |c.routes| && p < |c.routes|
    ensures var a, b := |Holders(c, plan, t, s, p, k, c.replicates)|, |Holders(c, plan, t, s, p, l, c.replicates)|;
            && -1 <= a - b <= 1
            && c.replicates / |c.routes| <= a <= c.replicates / |c.routes| + 1
  {
    hide Rem, IsPlan, Holders;
    var n := |c.routes|;
    HoldersCount(c, plan, t, s, p, k, c.replicates);
    HoldersCount(c, plan, t, s, p, l, c.replicates);
    TimesIsHits(k, p, n, c.replicates);
    TimesIsHits(l, p, n, c.replicates);
    HitsExactly(Position(k, p, n), n, c.replicates);
    HitsExactly(Position(l, p, n), n, c.replicates);
    assert Quot(c.replicates, n) == c.replicates / n;
  }
}
