/** Quotients and remainders by a divisor that is not a literal. */
module Arithmetic {
  lemma AtLeastOnce(n: int, d: int)
    requires n >= 0
    ensures d >= 1 ==> n * d >= n
    ensures d <= -1 ==> n * d <= -n
  {
    if d >= 1 {
      assert n * d >= n * 1;
    } else if d <= -1 {
      assert n * d <= n * -1;
    }
  }

  /** Quotient and remainder are unique. */
  lemma SameRemainder(n: nat, q: int, r: nat, q': int, r': nat)
    requires r < n && r' < n && n * q + r == n * q' + r'
    ensures r == r'
  {
    var d := q - q';
    assert n * d == r' - r;
    AtLeastOnce(n, d);
  }

  lemma SameQuotient(x: nat, n: nat, q: nat, r: nat)
    requires n > 0 && r < n && x == q * n + r
    ensures x / n == q
  {
    var d := x / n - q;
    assert n * d == r - x % n;
    AtLeastOnce(n, d);
  }
}
