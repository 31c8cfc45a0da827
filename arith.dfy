/** Facts about integer division used by the chunking and UTF-8 proofs. */
module Arith {
  /** Quotient and remainder are the unique k, r with x == k * b + r and
      0 <= r < b. */
  lemma DivModUnique(x: int, b: int, k: int, r: int)
    requires b > 0 && 0 <= r < b && x == k * b + r
    ensures x / b == k && x % b == r
  {
    var d, m := x / b, x % b;
    assert x == d * b + m;
    if d > k {
      assert d * b >= (k + 1) * b by { MulMonotone(k + 1, d, b); }
      assert false;
    } else if d < k {
      assert k * b >= (d + 1) * b by { MulMonotone(d + 1, k, b); }
      assert false;
    }
  }

  lemma MulMonotone(i: int, j: int, b: int)
    requires i <= j && b >= 0
    ensures i * b <= j * b
  {
    assert j * b - i * b == (j - i) * b;
  }

  lemma MulSucc(k: int, b: int)
    ensures (k - 1) * b + b == k * b
  {
  }
}
