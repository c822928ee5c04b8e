/** Integer facts the solver does not find on its own. */
module Arithmetic {
  lemma MulMono(a: int, b: int, n: int)
    requires a <= b && n >= 0
    ensures a * n <= b * n
  {
    MulNonNeg(b - a, n);
    assert (b - a) * n == b * n - a * n;
  }

  lemma MulNonNeg(a: int, b: int)
    requires a >= 0 && b >= 0
    ensures a * b >= 0
  {
  }

  /** Quotient and remainder are determined by the division equation. */
  lemma DivModUnique(a: int, n: int, q: int, r: int)
    requires 0 <= r < n && a == q * n + r
    ensures a / n == q && a % n == r
  {
    var k := a / n;
    assert a == k * n + a % n;
    if k < q {
      MulMono(k + 1, q, n);
    } else if k > q {
      MulMono(q + 1, k, n);
    }
  }

  lemma ModStep(a: int, n: int)
    requires n > 0
    ensures (a + 1) % n == if a % n + 1 < n then a % n + 1 else 0
  {
    if a % n + 1 < n {
      DivModUnique(a + 1, n, a / n, a % n + 1);
    } else {
      DivModUnique(a + 1, n, a / n + 1, 0);
    }
  }

  /** Every residue is met within `n` steps. */
  lemma Residue(a: nat, n: nat, j: nat) returns (k: nat)
    requires j < n
    ensures k < n && (a + k) % n == j
  {
    if a % n <= j {
      k := j - a % n;
      DivModUnique(a + k, n, a / n, j);
    } else {
      k := j + n - a % n;
      DivModUnique(a + k, n, a / n + 1, j);
    }
  }

  /** Fewer than `n` steps never come back to the same residue. */
  lemma ResiduesApart(a: nat, n: nat, d: nat)
    requires 0 < d < n
    ensures (a + d) % n != a % n
  {
    if a % n + d < n {
      DivModUnique(a + d, n, a / n, a % n + d);
    } else {
      DivModUnique(a + d, n, a / n + 1, a % n + d - n);
    }
  }

  lemma ResiduesDiffer(p: nat, n: nat, k: nat, m: nat)
    requires k != m && m < k + n && k < m + n
    ensures (p + k) % n != (p + m) % n
  {
    if k < m {
      ResiduesApart(p + k, n, m - k);
    } else {
      ResiduesApart(p + m, n, k - m);
    }
  }
}
