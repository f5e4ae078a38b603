/** Python compares strings by code point, position by position, a proper
    prefix being the smaller one.  The runner relies on that order in two
    places: it lists unfinished items by sorted id, and it compares zero-padded
    attempt ids as strings. */
module TextOrder {

  predicate Less(a: string, b: string) {
    if b == "" then false
    else if a == "" then true
    else a[0] < b[0] || (a[0] == b[0] && Less(a[1..], b[1..]))
  }

  lemma {:induction false} Irreflexive(a: string)
    ensures !Less(a, a)
  {
    if a != "" { Irreflexive(a[1..]); }
  }

  lemma {:induction false} Transitive(a: string, b: string, c: string)
    requires Less(a, b) && Less(b, c)
    ensures Less(a, c)
  {
    if a != "" && a[0] == b[0] == c[0] {
      Transitive(a[1..], b[1..], c[1..]);
    }
  }

  lemma {:induction false} Total(a: string, b: string)
    ensures a == b || Less(a, b) || Less(b, a)
  {
    if a != "" && b != "" && a[0] == b[0] {
      Total(a[1..], b[1..]);
      if a[1..] == b[1..] {
        assert a == [a[0]] + a[1..] && b == [b[0]] + b[1..];
      }
    }
  }

  /** A common prefix does not take part in the comparison. */
  lemma {:induction false} CommonPrefix(p: string, a: string, b: string)
    ensures Less(p + a, p + b) <==> Less(a, b)
  {
    if p == "" {
      assert p + a == a && p + b == b;
    } else {
      CommonPrefix(p[1..], a, b);
      assert (p + a)[1..] == p[1..] + a && (p + b)[1..] == p[1..] + b;
    }
  }

  predicate IsLeast(m: string, ids: set<string>) {
    m in ids && forall x :: x in ids && x != m ==> Less(m, x)
  }

  lemma {:induction false} LeastExists(ids: set<string>)
    requires ids != {}
    ensures exists m :: IsLeast(m, ids)
  {
    var x :| x in ids;
    if ids == {x} {
      assert IsLeast(x, ids);
    } else {
      LeastExists(ids - {x});
      var n :| IsLeast(n, ids - {x});
      Total(n, x);
      if Less(n, x) {
        assert IsLeast(n, ids);
      } else {
        forall y | y in ids && y != x ensures Less(x, y) {
          if y != n { Transitive(x, n, y); }
        }
        assert IsLeast(x, ids);
      }
    }
  }

  lemma LeastUnique(ids: set<string>)
    ensures forall m, n :: IsLeast(m, ids) && IsLeast(n, ids) ==> m == n
  {
    forall m, n | IsLeast(m, ids) && IsLeast(n, ids) ensures m == n {
      if m != n {
        Transitive(m, n, m);
        Irreflexive(m);
      }
    }
  }

  function Least(ids: set<string>): (m: string)
    requires ids != {}
    ensures IsLeast(m, ids)
  {
    LeastExists(ids);
    LeastUnique(ids);
    var m :| m in ids && IsLeast(m, ids);
    m
  }

  /** `sorted(ids)`. */
  function Sorted(ids: set<string>): (s: seq<string>)
    ensures |s| == |ids|
    ensures forall x :: x in s <==> x in ids
    ensures forall i, j :: 0 <= i < j < |s| ==> Less(s[i], s[j])
  {
    if ids == {} then []
    else
      var m := Least(ids);
      var rest := Sorted(ids - {m});
      assert forall i :: 0 <= i < |rest| ==> rest[i] in ids - {m} && Less(m, rest[i]);
      [m] + rest
  }

  /** Strictly increasing sequences are determined by their elements. */
  lemma {:induction false} SortedUnique(ids: set<string>, s: seq<string>)
    requires forall x :: x in s <==> x in ids
    requires forall i, j :: 0 <= i < j < |s| ==> Less(s[i], s[j])
    ensures s == Sorted(ids)
  {
    if s == [] {
      assert ids == {};
    } else {
      assert s[0] in s;
      forall x | x in ids && x != s[0] ensures Less(s[0], x) { assert x in s; }
      assert IsLeast(s[0], ids);
      LeastUnique(ids);
      assert IsLeast(Least(ids), ids);
      var rest := s[1..];
      Irreflexive(s[0]);
      forall x ensures x in rest <==> x in ids - {s[0]} {
        if x in rest { assert x in s; }
        if x in s && x != s[0] { assert x in rest; }
      }
      SortedUnique(ids - {s[0]}, rest);
    }
  }
}
