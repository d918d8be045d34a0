/** Index arithmetic of a column-major walk: with `n` cells per column, cell
    `r` of column `c` is visited at position `c * n + r`. */
module ColumnMajor {

  lemma MulStep(m: nat, n: nat)
    ensures (m + 1) * n == m * n + n
  {
  }

  /** A nonzero multiple of `n` is at least `n` away from zero. */
  lemma {:induction false} MulSign(a: int, n: int)
    requires n > 0
    ensures a > 0 ==> a * n >= n
    ensures a < 0 ==> a * n <= -n
    decreases if a < 0 then -a else a
  {
    if a > 1 {
      MulSign(a - 1, n);
      assert a * n == (a - 1) * n + n;
    } else if a < -1 {
      MulSign(a + 1, n);
      assert a * n == (a + 1) * n - n;
    }
  }

  /** An index below `m * n` is `c * n + r` with `c < m` and `r < n`. */
  lemma IndexBounds(k: int, n: int, m: int)
    requires n > 0 && 0 <= k < m * n
    ensures 0 <= k / n < m && 0 <= k % n < n
    ensures k == (k / n) * n + k % n
  {
    var q := k / n;
    assert (m - q) * n == m * n - q * n;
    MulSign(m - q, n);
    MulSign(q, n);
  }
}
