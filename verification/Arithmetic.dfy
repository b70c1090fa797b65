/** Facts about integer division that ring and rotation indices need. */
module Arithmetic {
  lemma NoMultipleBetween(d: int, n: int)
    requires n > 0 && -n < d * n < n
    ensures d == 0
  {
  }

  lemma ModIs(x: int, q: int, n: int, k: int)
    requires n > 0 && 0 <= k < n && x == q * n + k
    ensures x % n == k
  {
    var d := x / n - q;
    assert d * n == k - x % n;
    assert -n < d * n < n;
    assert d == 0 by { NoMultipleBetween(d, n); }
  }
}
