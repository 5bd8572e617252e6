/** Division and remainder by a variable. */
module Numbers {

  lemma Quotient(a: int, n: nat)
    requires n > 0
    ensures a == (a / n) * n + a % n
  {
  }

  lemma Product(x: nat, n: nat)
    ensures x * n >= 0 && (x + 1) * n == x * n + n
  {
  }

  lemma Apart(p: int, q: int, n: nat)
    requires p != q
    ensures p * n - q * n >= n || q * n - p * n >= n
  {
    if p > q {
      Product(p - q - 1, n);
      assert (p - q) * n == p * n - q * n;
    } else {
      Product(q - p - 1, n);
      assert (q - p) * n == q * n - p * n;
    }
  }

  /** The remainder is the only number below `n` that differs from `a` by a multiple of `n`. */
  lemma ModUnique(a: int, r: int, q: int, n: nat)
    requires 0 <= r < n && a == q * n + r
    ensures a % n == r
  {
    Quotient(a, n);
    if a / n != q {
      Apart(a / n, q, n);
    }
  }
}
