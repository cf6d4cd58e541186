/** Multiples, quotients and remainders. */
module Arithmetic {

  lemma MultiplesApart(m: int, n: int, d: nat)
    requires m < n
    ensures m * d + d <= n * d
  {
    assert n * d == m * d + d + (n - m - 1) * d;
    assert 0 <= (n - m - 1) * d;
  }

  /** Quotient and remainder are determined by what they are used for. */
  lemma QuotientAndRemainder(a: int, d: nat, q: int, r: nat)
    requires a == q * d + r && r < d
    ensures q == a / d && r == a % d
  {
    var q0, r0 := a / d, a % d;
    assert a == q0 * d + r0;
    if q < q0 {
      MultiplesApart(q, q0, d);
    } else if q0 < q {
      MultiplesApart(q0, q, d);
    }
  }

  /** Counting down, remainders go down by one until they start over. */
  lemma RemainderBefore(a: int, d: nat)
    requires 0 < d
    ensures (a - 1) % d == if a % d == 0 then d - 1 else a % d - 1
  {
    var q, r := a / d, a % d;
    if r == 0 {
      assert a - 1 == (q - 1) * d + (d - 1);
      QuotientAndRemainder(a - 1, d, q - 1, d - 1);
    } else {
      QuotientAndRemainder(a - 1, d, q, r - 1);
    }
  }

  lemma {:induction false} RemainderBack(a: int, k: nat, d: nat)
    requires 0 < d
    ensures (a % d - k) % d == (a - k) % d
  {
    if k == 0 {
      QuotientAndRemainder(a % d, d, 0, a % d);
    } else {
      RemainderBack(a, k - 1, d);
      RemainderBefore(a % d - (k - 1), d);
      RemainderBefore(a - (k - 1), d);
    }
  }

  /** Among d consecutive numbers every remainder occurs, */
  lemma RemainderOccurs(a: int, d: nat, j: nat) returns (p: nat)
    requires j < d
    ensures p < d && (a - p) % d == j
  {
    p := (a - j) % d;
    var q := (a - j) / d;
    assert a - p == q * d + j;
    QuotientAndRemainder(a - p, d, q, j);
  }

  /** and no two of them have the same one. */
  lemma RemaindersApart(a: int, b: int, d: nat)
    requires a < b < a + d
    ensures a % d != b % d
  {
    var q, r := a / d, a % d;
    assert a == q * d + r;
    if r + (b - a) < d {
      QuotientAndRemainder(b, d, q, r + (b - a));
    } else {
      assert b == (q + 1) * d + (r + (b - a) - d);
      QuotientAndRemainder(b, d, q + 1, r + (b - a) - d);
    }
  }
}
