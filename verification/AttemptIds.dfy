/** Attempt directories are named `attempt-` plus the attempt number, zero-padded
    to six digits.  The runner compares those names as strings. */
module AttemptIds {
  import TextOrder

  const LAST_PADDED := 999999

  function Digit(d: nat): char
    requires d < 10
  {
    (('0' as int) + d) as char
  }

  function Pow10(k: nat): (p: nat)
    ensures p >= 1
  {
    if k == 0 then 1 else 10 * Pow10(k - 1)
  }

  /** The last `k` decimal digits of `n`. */
  function Padded(n: nat, k: nat): (s: string)
    ensures |s| == k
  {
    if k == 0 then "" else Padded(n / 10, k - 1) + [Digit(n % 10)]
  }

  /** How many decimal digits `n` takes, and at least `low`. */
  function Width(n: nat, low: nat): (k: nat)
    requires low >= 1
    ensures k >= low && n < Pow10(k)
    ensures k == low || Pow10(k - 1) <= n
    decreases n - Pow10(low)
  {
    if n < Pow10(low) then low else Width(n, low + 1)
  }

  /** `f"{n:06d}"`. */
  function Formatted(n: nat): string {
    Padded(n, Width(n, 6))
  }

  const PREFIX := "attempt-"

  function AttemptId(n: nat): string {
    PREFIX + Formatted(n)
  }

  /** `attempt-[0-9]{6}` on the names the runner itself produces. */
  predicate IsSixDigitName(name: string) {
    |name| == |PREFIX| + 6 && PREFIX <= name
    && forall i :: |PREFIX| <= i < |name| ==> '0' <= name[i] <= '9'
  }

  lemma {:induction false} PaddedDigits(n: nat, k: nat)
    ensures forall i :: 0 <= i < k ==> '0' <= Padded(n, k)[i] <= '9'
  {
    if k > 0 { PaddedDigits(n / 10, k - 1); }
  }

  lemma {:induction false} LessSnoc(u: string, x: char, v: string, y: char)
    requires |u| == |v|
    ensures TextOrder.Less(u + [x], v + [y]) <==> TextOrder.Less(u, v) || (u == v && x < y)
  {
    if u == "" {
      assert (u + [x])[1..] == "" && (v + [y])[1..] == "";
    } else {
      LessSnoc(u[1..], x, v[1..], y);
      assert (u + [x])[1..] == u[1..] + [x] && (v + [y])[1..] == v[1..] + [y];
      if u[0] == v[0] {
        assert u == [u[0]] + u[1..] && v == [v[0]] + v[1..];
        TextOrder.Irreflexive(u[1..]);
      }
    }
  }

  /** Equally wide decimal strings are ordered as their numbers. */
  lemma {:induction false} PaddedOrder(a: nat, b: nat, k: nat)
    requires a < Pow10(k) && b < Pow10(k)
    ensures TextOrder.Less(Padded(a, k), Padded(b, k)) <==> a < b
    ensures Padded(a, k) == Padded(b, k) <==> a == b
  {
    if k > 0 {
      PaddedOrder(a / 10, b / 10, k - 1);
      LessSnoc(Padded(a / 10, k - 1), Digit(a % 10), Padded(b / 10, k - 1), Digit(b % 10));
      var u, v := Padded(a / 10, k - 1), Padded(b / 10, k - 1);
      assert (u + [Digit(a % 10)])[..k - 1] == u && (v + [Digit(b % 10)])[..k - 1] == v;
      assert (u + [Digit(a % 10)])[k - 1] == Digit(a % 10) && (v + [Digit(b % 10)])[k - 1] == Digit(b % 10);
    }
  }

  lemma Million()
    ensures Pow10(6) == LAST_PADDED + 1
  {
    assert Pow10(3) == 1000;
    assert Pow10(6) == 1000 * Pow10(3);
  }

  /** Names identify attempts, whatever their number. */
  lemma IdsInjective(a: nat, b: nat)
    ensures AttemptId(a) == AttemptId(b) <==> a == b
  {
    if AttemptId(a) == AttemptId(b) {
      assert AttemptId(a)[|PREFIX|..] == Formatted(a) && AttemptId(b)[|PREFIX|..] == Formatted(b);
      assert Width(a, 6) == Width(b, 6);
      PaddedOrder(a, b, Width(a, 6));
    }
  }

  /** A name matches the runner's pattern exactly up to attempt 999999. */
  lemma SixDigitsExactly(n: nat)
    ensures IsSixDigitName(AttemptId(n)) <==> n <= LAST_PADDED
  {
    Million();
    PaddedDigits(n, Width(n, 6));
  }

  /** Up to 999999, names order as numbers. */
  lemma IdOrder(a: nat, b: nat)
    requires a <= LAST_PADDED && b <= LAST_PADDED
    ensures TextOrder.Less(AttemptId(a), AttemptId(b)) <==> a < b
  {
    Million();
    TextOrder.CommonPrefix(PREFIX, Formatted(a), Formatted(b));
    PaddedOrder(a, b, 6);
  }

  /** One more attempt and the order breaks: 1000000 sorts before 999999. */
  lemma IdOrderBreaks()
    ensures TextOrder.Less(AttemptId(1000000), AttemptId(LAST_PADDED))
  {
    Million();
    TextOrder.CommonPrefix(PREFIX, Formatted(1000000), Formatted(LAST_PADDED));
    assert Pow10(7) == 10 * Pow10(6);
    assert Width(1000000, 6) == 7;
    assert Padded(1000000, 7)[0] == Padded(10000, 5)[0] == Padded(100, 3)[0] == Padded(1, 1)[0] == '1';
    assert Padded(LAST_PADDED, 6)[0] == Padded(9999, 4)[0] == Padded(99, 2)[0] == Padded(9, 1)[0] == '9';
  }
}
