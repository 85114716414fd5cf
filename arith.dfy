/** The smaller of two integers, and facts about Euclidean division used by
    the schedule and count proofs. */
module Arith {
  function Min(x: int, y: int): int { if x <= y then x else y }

  lemma MulAtLeast(x: int, m: int)
    requires x >= 1 && m > 0
    ensures x * m >= m
  {
    if x > 1 {
      MulAtLeast(x - 1, m);
      assert x * m == (x - 1) * m + m;
    }
  }

  /** Euclidean division is determined by its quotient and remainder. */
  lemma DivModUnique(j: int, m: int, q: int, r: int)
    requires m > 0 && 0 <= r < m && j == q * m + r
    ensures j / m == q && j % m == r
  {
    var q0, r0 := j / m, j % m;
    assert j == q0 * m + r0;
    if q0 > q {
      assert (q0 - q) * m == q0 * m - q * m;
      MulAtLeast(q0 - q, m);
    } else if q > q0 {
      assert (q - q0) * m == q * m - q0 * m;
      MulAtLeast(q - q0, m);
    }
  }

  lemma ModStep(j: nat, m: nat)
    requires m > 0
    ensures (j + 1) % m == if j % m == m - 1 then 0 else j % m + 1
  {
    var q, r := j / m, j % m;
    assert j == q * m + r;
    if r == m - 1 {
      assert (q + 1) * m == q * m + m;
      DivModUnique(j + 1, m, q + 1, 0);
    } else {
      DivModUnique(j + 1, m, q, r + 1);
    }
  }

  /** Dividing by `m` after taking one `m` away. */
  lemma DivStep(x: nat, m: nat)
    requires m > 0
    ensures x < m ==> x / m == 0
    ensures x >= m ==> (x - m) / m + 1 == x / m
  {
    if x < m {
      DivModUnique(x, m, 0, x);
    } else {
      var q, r := (x - m) / m, (x - m) % m;
      assert x - m == q * m + r;
      assert (q + 1) * m == q * m + m;
      DivModUnique(x, m, q + 1, r);
    }
  }
}
