/** Facts about Euclidean division that the size and matrix computations rely on. */
module Arith {
  /** When `x` is `k` times `b` plus a remainder `m` below `b`, Euclidean division gives exactly `k` and `m`. */
  lemma DivModUnique(x: int, b: int, k: int, m: int)
    requires b > 0 && x == k * b + m && 0 <= m < b
    ensures x / b == k && x % b == m
  {
    var q, rr := x / b, x % b;
    assert x == q * b + rr;
    if k > q {
      assert (k - q) * b == rr - m;
      AtLeastOnce(k - q, b);
      assert false;
    } else if k < q {
      assert (q - k) * b == m - rr;
      AtLeastOnce(q - k, b);
      assert false;
    }
  }

  lemma AtLeastOnce(n: int, b: int)
    requires n >= 1 && b > 0
    ensures n * b >= b
  {
    assert n * b == (n - 1) * b + b;
  }

  /** A product with a positive factor is not positive when the other factor is not. */
  lemma MulSign(x: int, b: int)
    requires b > 0
    ensures x <= 0 ==> x * b <= 0
  {
    if x <= 0 {
      assert x * b == -((-x) * b);
    }
  }

  /** Below `c` times `b`, a natural number's quotient by `b` is below `c`. */
  lemma DivBelow(k: int, b: int, c: int)
    requires b > 0 && 0 <= k < c * b
    ensures 0 <= k / b < c
  {
    var q, r := k / b, k % b;
    assert k == q * b + r && 0 <= r < b;
    assert (q + 1) * b == q * b + b;
    MulSign(q + 1, b);
    assert (c - q) * b == c * b - q * b;
    MulSign(c - q, b);
  }
}
